/** Machine integers of a 64-bit target and the `as` casts between them. */
module Ints {
  const I32_MAX := 0x7fff_ffff
  const TWO_31 := 0x8000_0000
  const TWO_32 := 0x1_0000_0000
  const TWO_64 := 0x1_0000_0000_0000_0000

  predicate IsI32(n: int) {
    -TWO_31 <= n < TWO_31
  }

  /** The i32 with the same low 32 bits: what `as c_int` and wrapping addition give. */
  function WrapI32(n: int): int {
    (n + TWO_31) % TWO_32 - TWO_31
  }

  /** `as usize` of an isize: two's complement. */
  function AsUsize(n: int): (r: int)
    requires -TWO_64 / 2 <= n < TWO_64 / 2
    ensures 0 <= r < TWO_64 && (r - n) % TWO_64 == 0
  {
    if n < 0 then n + TWO_64 else n
  }

  lemma WrapEqualIff(m: int, n: int)
    ensures WrapI32(m) == WrapI32(n) <==> (m - n) % TWO_32 == 0
  {
  }

  /** A small isize survives the trip through usize to c_int. */
  lemma CastsPreserve(n: int)
    requires IsI32(n)
    ensures WrapI32(AsUsize(n)) == n
  {
  }
}
