/** Fixed-width integers as bytes in either byte order, and decimal text. */
module Text {
  import opened Bytes

  function Pow256(k: nat): nat {
    if k == 0 then 1 else 256 * Pow256(k - 1)
  }

  function ToLe(n: nat, k: nat): (s: seq<byte>)
    ensures |s| == k
  {
    if k == 0 then [] else [(n % 256) as byte] + ToLe(n / 256, k - 1)
  }

  function FromLe(s: seq<byte>): nat {
    if s == [] then 0 else s[0] as nat + 256 * FromLe(s[1..])
  }

  function Reversed(s: seq<byte>): (r: seq<byte>)
    ensures |r| == |s| && forall i :: 0 <= i < |s| ==> r[i] == s[|s| - 1 - i]
  {
    if s == [] then [] else Reversed(s[1..]) + [s[0]]
  }

  /** `to_ne_bytes` of a 64-bit integer on a platform of the given byte order. */
  function ToNe(bigEndian: bool, n: nat): (s: seq<byte>)
    ensures |s| == 8
  {
    if bigEndian then Reversed(ToLe(n, 8)) else ToLe(n, 8)
  }

  function FromNe(bigEndian: bool, s: seq<byte>): nat {
    FromLe(if bigEndian then Reversed(s) else s)
  }

  lemma {:induction false} LeRoundTrip(n: nat, k: nat)
    requires n < Pow256(k)
    ensures FromLe(ToLe(n, k)) == n
  {
    if k > 0 {
      LeRoundTrip(n / 256, k - 1);
    }
  }

  lemma NeRoundTrip(bigEndian: bool, n: nat)
    requires n < Pow256(8)
    ensures FromNe(bigEndian, ToNe(bigEndian, n)) == n
  {
    LeRoundTrip(n, 8);
    assert Reversed(Reversed(ToLe(n, 8))) == ToLe(n, 8);
  }

  lemma {:induction false} FromLeBound(s: seq<byte>)
    ensures FromLe(s) < Pow256(|s|)
  {
    if s != [] {
      FromLeBound(s[1..]);
    }
  }

  /** The ASCII decimal digits of a number, as `{}` prints it. */
  function Decimal(n: nat): (s: seq<byte>)
    ensures |s| > 0 && forall c :: c in s ==> 48 <= c <= 57
  {
    if n < 10 then [(48 + n) as byte] else Decimal(n / 10) + [(48 + n % 10) as byte]
  }

  function ParseDecimal(s: seq<byte>): int {
    if s == [] then 0 else 10 * ParseDecimal(s[..|s| - 1]) + (s[|s| - 1] as int - 48)
  }

  lemma {:induction false} DecimalRoundTrip(n: nat)
    ensures ParseDecimal(Decimal(n)) == n
  {
    if n >= 10 {
      DecimalRoundTrip(n / 10);
    }
  }

  function Pow10(k: nat): nat {
    if k == 0 then 1 else 10 * Pow10(k - 1)
  }

  lemma {:induction false} DecimalLength(n: nat, k: nat)
    requires k > 0 && n < Pow10(k)
    ensures |Decimal(n)| <= k
  {
    if n >= 10 {
      DecimalLength(n / 10, k - 1);
    }
  }

  lemma NeBound(bigEndian: bool, s: seq<byte>)
    requires |s| == 8
    ensures FromNe(bigEndian, s) < Pow256(8)
  {
    FromLeBound(if bigEndian then Reversed(s) else s);
  }

  /** A u64 prints in at most twenty digits. */
  lemma U64Digits(n: nat)
    requires n < Pow256(8)
    ensures |Decimal(n)| <= 20
  {
    assert Pow256(8) == 0x1_0000_0000_0000_0000;
    assert Pow10(10) == 10_000_000_000;
    assert Pow10(20) == 100_000_000_000_000_000_000;
    DecimalLength(n, 20);
  }
}
