/**
  * Reassembly of 1200-byte frames per sender, the drain loop over it, and the replies it sends
  * (examples/udp_high_test.rs).
  */
module LoopBuf {
  import opened Bytes
  import opened Retry
  import opened MapSum
  import opened Text

  const FRAME := 1200

  /** The eight bytes `u64::from_ne_bytes` is applied to. */
  type Head = h: seq<byte> | |h| == 8 witness seq(8, _ => 0 as byte)

  type Cache = map<SocketAddr, seq<byte>>

  function Held(cache: Cache, a: SocketAddr): seq<byte> {
    if a in cache then cache[a] else []
  }

  predicate HasFrame(cache: Cache, a: SocketAddr) {
    |Held(cache, a)| >= FRAME
  }

  function FirstHead(bytes: seq<byte>): Head
    requires |bytes| >= FRAME
  {
    bytes[..8]
  }

  // ---------- Any sequence of calls ----------

  /** A call with its result; `GetFirst` carries the address at which the map iteration stopped. */
  datatype Call =
    | Feed(from: SocketAddr, buf: seq<byte>)
    | Get(from: SocketAddr, head: Option<Head>)
    | GetFirst(found: Option<(SocketAddr, Head)>)

  /** The result is one the code can give, for some iteration order. */
  ghost predicate Gives(cache: Cache, c: Call) {
    match c
    case Feed(_, _) => true
    case Get(from, head) => head == if HasFrame(cache, from) then Some(FirstHead(Held(cache, from))) else None
    case GetFirst(None) => forall a :: !HasFrame(cache, a)
    case GetFirst(Some((a, head))) => HasFrame(cache, a) && head == FirstHead(Held(cache, a))
  }

  function Drop(cache: Cache, a: SocketAddr): Cache
    requires HasFrame(cache, a)
  {
    cache[a := cache[a][FRAME..]]
  }

  function After(cache: Cache, c: Call): Cache {
    match c
    case Feed(from, buf) => cache[from := Held(cache, from) + buf]
    case Get(from, _) => if HasFrame(cache, from) then Drop(cache, from) else cache
    case GetFirst(None) => cache
    case GetFirst(Some((a, _))) => if HasFrame(cache, a) then Drop(cache, a) else cache
  }

  function CacheAfter(calls: seq<Call>): Cache {
    if calls == [] then map[] else After(CacheAfter(calls[..|calls| - 1]), calls[|calls| - 1])
  }

  ghost predicate IsRun(calls: seq<Call>) {
    calls != [] ==> IsRun(calls[..|calls| - 1]) && Gives(CacheAfter(calls[..|calls| - 1]), calls[|calls| - 1])
  }

  function FedBy(c: Call, a: SocketAddr): seq<byte> {
    if c.Feed? && c.from == a then c.buf else []
  }

  /** All bytes fed for an address. */
  function Input(calls: seq<Call>, a: SocketAddr): seq<byte> {
    if calls == [] then []
    else
      var c := calls[|calls| - 1];
      Input(calls[..|calls| - 1], a) + FedBy(c, a)
  }

  function Yielded(c: Call, a: SocketAddr): seq<Head> {
    match c
    case Get(from, Some(h)) => if from == a then [h] else []
    case GetFirst(Some((from, h))) => if from == a then [h] else []
    case _ => []
  }

  /** All heads yielded for an address, in order. */
  function Output(calls: seq<Call>, a: SocketAddr): seq<Head> {
    if calls == [] then [] else Output(calls[..|calls| - 1], a) + Yielded(calls[|calls| - 1], a)
  }

  /** The heads of the successive whole frames of a byte stream. */
  function Heads(bytes: seq<byte>): seq<Head> {
    if |bytes| < FRAME then [] else [FirstHead(bytes)] + Heads(bytes[FRAME..])
  }

  lemma HeadsOfTaken(bytes: seq<byte>, more: seq<byte>)
    requires |bytes| >= FRAME
    ensures Heads(bytes + more) == [FirstHead(bytes)] + Heads(bytes[FRAME..] + more)
  {
    assert (bytes + more)[..8] == bytes[..8];
    assert (bytes + more)[FRAME..] == bytes[FRAME..] + more;
  }

  /** What one call does to the heads still to come for one address, whatever bytes follow. */
  lemma CallConserves(cache: Cache, c: Call, a: SocketAddr, more: seq<byte>)
    requires Gives(cache, c)
    ensures Heads(Held(cache, a) + (FedBy(c, a) + more)) == Yielded(c, a) + Heads(Held(After(cache, c), a) + more)
  {
    var bytes := Held(cache, a);
    assert [] + more == more;
    assert bytes + (FedBy(c, a) + more) == bytes + FedBy(c, a) + more;
    if |bytes| >= FRAME {
      HeadsOfTaken(bytes, more);
    }
  }

  /** One call takes whole frames off the front, one per head. */
  lemma CallTakesFrames(cache: Cache, c: Call, a: SocketAddr)
    requires Gives(cache, c)
    ensures var n := FRAME * |Yielded(c, a)|;
            && |Held(cache, a) + FedBy(c, a)| == n + |Held(After(cache, c), a)|
            && Held(After(cache, c), a) == (Held(cache, a) + FedBy(c, a))[n..]
  {
  }

  /** The algebra of one more call, for any function `h` of bytes. */
  lemma Regroup<T, U>(h: seq<T> -> seq<U>, input: seq<T>, fed: seq<T>, more: seq<T>, held: seq<T>, left: seq<T>,
                      output: seq<U>, yielded: seq<U>)
    requires h(input + (fed + more)) == output + h(held + (fed + more))
    requires h(held + (fed + more)) == yielded + h(left + more)
    ensures h(input + fed + more) == output + yielded + h(left + more)
  {
    assert input + fed + more == input + (fed + more);
  }

  /**
    * Reassembly: for any feeds, gets and get_firsts in any order, and whatever is still to come, the
    * heads of an address's whole input are those yielded so far followed by those still held.
    */
  lemma {:induction false} Reassembles(calls: seq<Call>, a: SocketAddr, more: seq<byte>)
    requires IsRun(calls)
    ensures Heads(Input(calls, a) + more) == Output(calls, a) + Heads(Held(CacheAfter(calls), a) + more)
  {
    if calls != [] {
      var before, c := calls[..|calls| - 1], calls[|calls| - 1];
      Reassembles(before, a, FedBy(c, a) + more);
      var cache := CacheAfter(before);
      CallConserves(cache, c, a, more);
      Regroup(Heads, Input(before, a), FedBy(c, a), more, Held(cache, a), Held(After(cache, c), a),
              Output(before, a), Yielded(c, a));
    }
  }

  lemma EndOfLonger<T>(input: seq<T>, fed: seq<T>, held: seq<T>, n: nat, m: nat)
    requires |input| == n + |held| && held == input[n..] && m <= |held + fed|
    ensures (input + fed)[n + m..] == (held + fed)[m..]
  {
  }

  /** The bytes still held are the input's last ones, after 1200 for each head yielded. */
  lemma {:induction false} HeldIsInputsEnd(calls: seq<Call>, a: SocketAddr)
    requires IsRun(calls)
    ensures var n := FRAME * |Output(calls, a)|;
            && |Input(calls, a)| == n + |Held(CacheAfter(calls), a)|
            && Held(CacheAfter(calls), a) == Input(calls, a)[n..]
  {
    if calls != [] {
      var before, c := calls[..|calls| - 1], calls[|calls| - 1];
      HeldIsInputsEnd(before, a);
      CallTakesFrames(CacheAfter(before), c, a);
      EndOfLonger(Input(before, a), FedBy(c, a), Held(CacheAfter(before), a),
                  FRAME * |Output(before, a)|, FRAME * |Yielded(c, a)|);
    }
  }

  /**
    * Once nothing more can be got, the output is exactly the heads of the input: chunking and
    * interleaving do not show.
    */
  lemma DrainedOutputIsInput(calls: seq<Call>, a: SocketAddr)
    requires IsRun(calls) && !HasFrame(CacheAfter(calls), a)
    ensures Output(calls, a) == Heads(Input(calls, a))
    ensures |Output(calls, a)| == |Input(calls, a)| / FRAME
  {
    Reassembles(calls, a, []);
    HeldIsInputsEnd(calls, a);
    assert Input(calls, a) + [] == Input(calls, a);
    assert Held(CacheAfter(calls), a) + [] == Held(CacheAfter(calls), a);
  }

  // ---------- The numbers in the frames ----------

  lemma {:induction false} HeadCount(bytes: seq<byte>)
    ensures |Heads(bytes)| == |bytes| / 1200
  {
    if |bytes| >= FRAME {
      HeadCount(bytes[FRAME..]);
    }
  }

  /** The head of frame i is the eight bytes at 1200 i. */
  lemma {:induction false} HeadAt(bytes: seq<byte>, i: nat)
    requires i < |Heads(bytes)|
    ensures 1200 * i + 8 <= |bytes| && Heads(bytes)[i] == bytes[1200 * i..1200 * i + 8]
  {
    if i > 0 {
      var rest := bytes[FRAME..];
      HeadAt(rest, i - 1);
      assert rest[1200 * (i - 1)..1200 * (i - 1) + 8] == bytes[1200 * i..1200 * i + 8];
    }
  }

  /** Frame i of the bytes is a client's frame: its number, then anything. */
  ghost predicate FrameOf(bigEndian: bool, bytes: seq<byte>, i: nat, no: nat) {
    no < Pow256(8) && 1200 * (i + 1) <= |bytes| && bytes[1200 * i..1200 * i + 8] == ToNe(bigEndian, no)
  }

  /** Round trip with the clients: however their frames are cut up and mixed, the numbers come out in the order sent. */
  lemma NumbersArrive(calls: seq<Call>, a: SocketAddr, bigEndian: bool, i: nat, no: nat)
    requires IsRun(calls) && FrameOf(bigEndian, Input(calls, a), i, no) && i < |Output(calls, a)|
    ensures FromNe(bigEndian, Output(calls, a)[i]) == no
  {
    var input := Input(calls, a);
    Reassembles(calls, a, []);
    assert input + [] == input;
    assert Heads(input)[i] == Output(calls, a)[i];
    HeadAt(input, i);
    NeRoundTrip(bigEndian, no);
  }

  /** The shortest round trip: one frame fed in one piece for an address that holds nothing, then `get`. */
  lemma FrameRoundTrip(cache: Cache, a: SocketAddr, bigEndian: bool, no: nat, pad: seq<byte>, head: Option<Head>)
    requires Held(cache, a) == [] && no < Pow256(8) && |pad| == 1192
    requires Gives(After(cache, Feed(a, ToNe(bigEndian, no) + pad)), Get(a, head))
    ensures head.Some? && FromNe(bigEndian, head.value) == no
  {
    var frame := ToNe(bigEndian, no) + pad;
    assert [] + frame == frame && frame[..8] == ToNe(bigEndian, no);
    NeRoundTrip(bigEndian, no);
  }

  // ---------- Draining ----------

  function FrameCount(bytes: seq<byte>): nat {
    |bytes| / FRAME
  }

  /** What is behind the whole frames. */
  function Residual(bytes: seq<byte>): seq<byte> {
    bytes[FRAME * FrameCount(bytes)..]
  }

  /** Whole frames held, over all addresses. */
  ghost function Frames(cache: Cache): nat {
    Sum(cache, FrameCount)
  }

  lemma TakingLowersFrames(cache: Cache, a: SocketAddr)
    requires HasFrame(cache, a)
    ensures Frames(cache) == Frames(Drop(cache, a)) + 1
  {
    SumUpdate(cache, FrameCount, a, cache[a][FRAME..]);
  }

  lemma {:induction false} NoFramesIff(cache: Cache)
    ensures Frames(cache) == 0 <==> forall a :: !HasFrame(cache, a)
    decreases |cache|
  {
    if cache != map[] {
      var k :| k in cache;
      SumRemove(cache, FrameCount, k);
      assert (cache - {k}).Keys == cache.Keys - {k};
      NoFramesIff(cache - {k});
      assert HasFrame(cache, k) <==> FrameCount(cache[k]) > 0;
      assert forall a :: a != k ==> (HasFrame(cache - {k}, a) <==> HasFrame(cache, a));
    }
  }

  function HeadsFor(taken: seq<(SocketAddr, Head)>, a: SocketAddr): seq<Head> {
    if taken == [] then []
    else
      var (from, h) := taken[|taken| - 1];
      HeadsFor(taken[..|taken| - 1], a) + (if from == a then [h] else [])
  }

  /** `held` is what stays of `bytes` when `n` frames are taken off the front. */
  ghost predicate Consumed(bytes: seq<byte>, held: seq<byte>, n: nat) {
    FRAME * n <= |bytes| && held == bytes[FRAME * n..]
  }

  /** Of what was held for the address, `taken` has the heads of the first frames, and the rest is still held. */
  ghost predicate TakenInOrder(start: Cache, cache: Cache, taken: seq<(SocketAddr, Head)>, a: SocketAddr) {
    && HeadsFor(taken, a) + Heads(Held(cache, a)) == Heads(Held(start, a))
    && Consumed(Held(start, a), Held(cache, a), |HeadsFor(taken, a)|)
  }

  ghost predicate DrainedSoFar(start: Cache, cache: Cache, taken: seq<(SocketAddr, Head)>) {
    && |taken| + Frames(cache) == Frames(start)
    && forall a :: TakenInOrder(start, cache, taken, a)
  }

  lemma Shift<T>(s: seq<T>, x: T, t: seq<T>)
    ensures s + [x] + t == s + ([x] + t)
  {
  }

  lemma TakeMovesHead(cache: Cache, taken: seq<(SocketAddr, Head)>, from: SocketAddr, a: SocketAddr)
    requires HasFrame(cache, from)
    ensures HeadsFor(taken + [(from, FirstHead(Held(cache, from)))], a) + Heads(Held(Drop(cache, from), a))
            == HeadsFor(taken, a) + Heads(Held(cache, a))
  {
    var head := FirstHead(Held(cache, from));
    var taken' := taken + [(from, head)];
    assert taken'[..|taken'| - 1] == taken;
    if a == from {
      Shift(HeadsFor(taken, a), head, Heads(Held(Drop(cache, from), a)));
    }
  }

  lemma TakeKeepsOrder(start: Cache, cache: Cache, taken: seq<(SocketAddr, Head)>, from: SocketAddr, a: SocketAddr)
    requires TakenInOrder(start, cache, taken, a) && HasFrame(cache, from)
    ensures TakenInOrder(start, Drop(cache, from), taken + [(from, FirstHead(Held(cache, from)))], a)
  {
    TakeMovesHead(cache, taken, from, a);
    assert (taken + [(from, FirstHead(Held(cache, from)))])[..|taken|] == taken;
  }

  lemma DrainStep(start: Cache, cache: Cache, taken: seq<(SocketAddr, Head)>, from: SocketAddr)
    requires DrainedSoFar(start, cache, taken) && HasFrame(cache, from)
    ensures DrainedSoFar(start, Drop(cache, from), taken + [(from, FirstHead(Held(cache, from)))])
    ensures Frames(Drop(cache, from)) < Frames(cache)
  {
    TakingLowersFrames(cache, from);
    forall a ensures TakenInOrder(start, Drop(cache, from), taken + [(from, FirstHead(Held(cache, from)))], a) {
      TakeKeepsOrder(start, cache, taken, from, a);
    }
  }

  lemma ResidualStays(start: Cache, cache: Cache, taken: seq<(SocketAddr, Head)>, a: SocketAddr)
    requires TakenInOrder(start, cache, taken, a) && !HasFrame(cache, a)
    ensures HeadsFor(taken, a) == Heads(Held(start, a)) && Held(cache, a) == Residual(Held(start, a))
  {
    assert |HeadsFor(taken, a)| == FrameCount(Held(start, a));
  }

  lemma DrainEnds(start: Cache, cache: Cache, taken: seq<(SocketAddr, Head)>)
    requires DrainedSoFar(start, cache, taken) && forall a :: !HasFrame(cache, a)
    ensures |taken| == Frames(start)
    ensures forall a :: HeadsFor(taken, a) == Heads(Held(start, a)) && Held(cache, a) == Residual(Held(start, a))
  {
    NoFramesIff(cache);
    forall a ensures HeadsFor(taken, a) == Heads(Held(start, a)) && Held(cache, a) == Residual(Held(start, a)) {
      ResidualStays(start, cache, taken, a);
    }
  }

  // ---------- Replies ----------

  const PREFIX: seq<byte> := Ascii("Reply: server recved ")

  function Message(no: nat): seq<byte> {
    PREFIX + Decimal(no)
  }

  /** How the client reads its buffer after receiving into it; `None` is the panic of slicing past its end. */
  function ReadReply(bigEndian: bool, buf: seq<byte>): Option<seq<byte>> {
    if |buf| < 8 || 8 + FromNe(bigEndian, buf[..8]) > |buf| then None
    else Some(buf[8..8 + FromNe(bigEndian, buf[..8])])
  }

  /** Received over the start of any buffer, the datagram reads as the message about `no`. */
  ghost predicate Says(bigEndian: bool, reply: seq<byte>, no: nat) {
    && |reply| == FRAME
    && forall rest: seq<byte> :: ReadReply(bigEndian, reply + rest) == Some(Message(no))
  }

  lemma SaysIfLaidOut(bigEndian: bool, reply: seq<byte>, no: nat)
    requires |reply| == FRAME && |Message(no)| <= FRAME - 8
    requires reply[..8] == ToNe(bigEndian, |Message(no)|)
    requires reply[8..8 + |Message(no)|] == Message(no)
    ensures Says(bigEndian, reply, no)
  {
    NeRoundTrip(bigEndian, |Message(no)|);
    forall rest: seq<byte> ensures ReadReply(bigEndian, reply + rest) == Some(Message(no)) {
      assert (reply + rest)[..8] == reply[..8];
      assert (reply + rest)[8..8 + |Message(no)|] == reply[8..8 + |Message(no)|];
    }
  }

  /** A reply names one number only. */
  lemma MessageNamesNumber(m: nat, n: nat)
    ensures Message(m) == Message(n) <==> m == n
  {
    assert Message(m)[|PREFIX|..] == Decimal(m) && Message(n)[|PREFIX|..] == Decimal(n);
    DecimalRoundTrip(m);
    DecimalRoundTrip(n);
  }

  /** Length and text of the reply, written over the start of a buffer that keeps whatever else it holds. */
  method EncodeReply(buf: array<byte>, bigEndian: bool, no: nat)
    requires buf.Length == 2048 && no < Pow256(8)
    modifies buf
    ensures Says(bigEndian, buf[..FRAME], no)
    ensures |Message(no)| <= 41
    ensures buf[..8] == ToNe(bigEndian, |Message(no)|)
    ensures buf[8..8 + |Message(no)|] == Ascii("Reply: server recved ") + Decimal(no)
    ensures buf[8 + |Message(no)|..] == old(buf[8 + |Message(no)|..])
  {
    var msg := Message(no);
    U64Digits(no);
    var len := ToNe(bigEndian, |msg|);
    forall i | 0 <= i < 8 {
      buf[i] := len[i];
    }
    forall i | 8 <= i < 8 + |msg| {
      buf[i] := msg[i - 8];
    }
    assert forall i :: 8 + |msg| <= i < buf.Length ==> buf[i] == old(buf[i]);
    assert buf[..FRAME][..8] == len;
    var text := buf[..FRAME][8..8 + |msg|];
    assert forall i :: 0 <= i < |msg| ==> text[i] == buf[8 + i] == msg[i];
    assert text == msg && buf[..8] == buf[..FRAME][..8] && buf[8..8 + |msg|] == text;
    SaysIfLaidOut(bigEndian, buf[..FRAME], no);
  }

  class LoopBuf {
    var cache: Cache

    constructor ()
      ensures cache == map[]
    {
      cache := map[];
    }

    method Feed(from: SocketAddr, buf: seq<byte>)
      modifies this
      ensures cache == After(old(cache), Call.Feed(from, buf))
      ensures cache == old(cache)[from := (if from in old(cache) then old(cache)[from] else []) + buf]
    {
      if from in cache {
        cache := cache[from := cache[from] + buf];
      } else {
        cache := cache[from := buf];
        assert [] + buf == buf;
      }
    }

    method Get(from: SocketAddr) returns (head: Option<Head>)
      modifies this
      ensures Gives(old(cache), Call.Get(from, head)) && cache == After(old(cache), Call.Get(from, head))
      ensures if from in old(cache) && |old(cache)[from]| >= 1200
              then head == Some(old(cache)[from][..8]) && cache == old(cache)[from := old(cache)[from][1200..]]
              else head == None && cache == old(cache)
    {
      if from in cache {
        var entry := cache[from];
        if |entry| >= FRAME {
          head := Some(entry[..8]);
          cache := cache[from := entry[FRAME..]];
        } else {
          head := None;
        }
      } else {
        head := None;
      }
    }

    /** The inner `get` always has a frame, so its result is never unwrapped in vain. */
    method GetFirst() returns (found: Option<(SocketAddr, Head)>)
      modifies this
      ensures Gives(old(cache), Call.GetFirst(found)) && cache == After(old(cache), Call.GetFirst(found))
      ensures found == None ==> cache == old(cache) && forall a :: a in cache ==> |cache[a]| < 1200
      ensures found.Some? ==>
                var (a, head) := found.value;
                && a in old(cache) && |old(cache)[a]| >= 1200
                && head == old(cache)[a][..8] && cache == old(cache)[a := old(cache)[a][1200..]]
    {
      var todo := cache.Keys;
      while todo != {}
        invariant cache == old(cache) && todo <= cache.Keys
        invariant forall a :: HasFrame(cache, a) ==> a in todo
        decreases todo
      {
        var k :| k in todo;
        if |cache[k]| >= FRAME {
          var head := Get(k);
          assert head.Some?;
          return Some((k, head.value));
        }
        todo := todo - {k};
      }
      assert forall a :: a in cache ==> !HasFrame(cache, a);
      return None;
    }

    /**
      * The drain loop: it ends after exactly as many replies as whole frames were held, in order for
      * each address, and leaves exactly the bytes behind them; each reply tells its client the number it sent.
      */
    method Drain(buf: array<byte>, bigEndian: bool)
        returns (taken: seq<(SocketAddr, Head)>, replies: seq<seq<byte>>)
      requires buf.Length == 2048
      modifies this, buf
      ensures |taken| == |replies| == Frames(old(cache))
      ensures forall a :: !HasFrame(cache, a)
      ensures forall a :: Held(cache, a) == Held(old(cache), a)[1200 * (|Held(old(cache), a)| / 1200)..]
      ensures forall a :: HeadsFor(taken, a) == Heads(Held(old(cache), a))
      ensures forall i :: 0 <= i < |taken| ==> Says(bigEndian, replies[i], FromNe(bigEndian, taken[i].1))
    {
      taken, replies := [], [];
      while true
        invariant |taken| == |replies| && DrainedSoFar(old(cache), cache, taken)
        invariant forall i :: 0 <= i < |taken| ==> Says(bigEndian, replies[i], FromNe(bigEndian, taken[i].1))
        decreases Frames(cache)
      {
        ghost var before := cache;
        var found := GetFirst();
        if found == None {
          DrainEnds(old(cache), cache, taken);
          break;
        }
        var (from, head) := found.value;
        DrainStep(old(cache), before, taken, from);
        NeBound(bigEndian, head);
        EncodeReply(buf, bigEndian, FromNe(bigEndian, head));
        taken := taken + [(from, head)];
        replies := replies + [buf[..FRAME]];
      }
    }
  }
}
