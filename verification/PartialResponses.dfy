/**
  * Responses written piecemeal to streams that accept any prefix (src/server.rs): the write part of
  * `handle_stream`, and `handle_writable`. The two locks `handle_stream` takes in turn are two steps.
  */
module PartialResponses {
  import opened Bytes
  import opened MapSum

  datatype Response = Response(body: seq<byte>, written: nat)

  /** What `stream_send` returns; it accepts at most what it is offered. */
  datatype SendResult = Sent(n: nat) | Done | Failed

  /**
    * `stored` is `partial_responses`. The rest is the history a peer would see: responses between
    * the two steps of `handle_stream`, all bodies given to it, bytes accepted, and stream errors.
    */
  datatype State = State(
    stored: map<nat, Response>,
    inflight: map<nat, Response>,
    bodies: map<nat, seq<byte>>,
    accepted: map<nat, seq<byte>>,
    failed: set<nat>)

  const INIT := State(map[], map[], map[], map[], {})

  datatype Label =
    | Respond(sid: nat, body: seq<byte>, result: SendResult)  // handle_stream: stream_send
    | Store(sid: nat)                                         // handle_stream: insert
    | Writable(sid: nat, result: SendResult)                  // handle_writable

  function Written(result: SendResult): nat {
    match result
    case Sent(n) => n
    case _ => 0
  }

  /** quiche accepts no more than it is offered. */
  predicate Possible(s: State, l: Label) {
    match l
    case Respond(_, body, result) => Written(result) <= |body|
    case Store(sid) => sid in s.inflight
    case Writable(sid, result) =>
      sid in s.stored ==>
        s.stored[sid].written <= |s.stored[sid].body|
        && Written(result) <= |s.stored[sid].body[s.stored[sid].written..]|
  }

  /** And one response per stream: an id is not used again after `fin`. */
  predicate Enabled(s: State, l: Label) {
    Possible(s, l) && (l.Respond? ==> l.sid !in s.bodies)
  }

  /** All that was to be sent on a stream, in order. */
  function Given(s: State, sid: nat): seq<byte> {
    if sid in s.bodies then s.bodies[sid] else []
  }

  /** All that was accepted on a stream, in order. */
  function Got(s: State, sid: nat): seq<byte> {
    if sid in s.accepted then s.accepted[sid] else []
  }

  function Apply(s: State, l: Label): State
    requires Possible(s, l)
  {
    match l
    case Respond(sid, body, result) =>
      var n := Written(result);
      var t := s.(bodies := s.bodies[sid := Given(s, sid) + body],
                  accepted := s.accepted[sid := Got(s, sid) + body[..n]]);
      if result.Failed? then t.(failed := s.failed + {sid})
      else if n < |body| then t.(inflight := s.inflight[sid := Response(body, n)])
      else t
    case Store(sid) =>
      s.(stored := s.stored[sid := s.inflight[sid]], inflight := s.inflight - {sid})
    case Writable(sid, result) =>
      if sid !in s.stored then s
      else if result.Failed? then s.(stored := s.stored - {sid}, failed := s.failed + {sid})
      else
        var resp := s.stored[sid];
        var n := Written(result);
        var t := s.(accepted := s.accepted[sid := Got(s, sid) + resp.body[resp.written..][..n]]);
        if resp.written + n == |resp.body| then t.(stored := s.stored - {sid})
        else t.(stored := s.stored[sid := resp.(written := resp.written + n)])
  }

  // ---------- Nothing is lost, repeated or reordered ----------

  /** A response still to be finished: the peer's side has exactly the written part of the body. */
  ghost predicate Unfinished(s: State, sid: nat, r: Response) {
    && sid in s.bodies && sid in s.accepted && sid !in s.failed
    && r.body == s.bodies[sid] && r.written < |r.body|
    && s.accepted[sid] == r.body[..r.written]
  }

  ghost predicate StreamOk(s: State, sid: nat) {
    && (sid in s.accepted <==> sid in s.bodies)
    && (sid in s.stored ==> Unfinished(s, sid, s.stored[sid]) && sid !in s.inflight)
    && (sid in s.inflight ==> Unfinished(s, sid, s.inflight[sid]) && sid !in s.stored)
    && (sid in s.failed ==> sid in s.bodies && s.accepted[sid] <= s.bodies[sid])
    && (sid in s.bodies && sid !in s.stored && sid !in s.inflight && sid !in s.failed ==>
          s.accepted[sid] == s.bodies[sid])
  }

  ghost predicate Inv(s: State) {
    forall sid :: StreamOk(s, sid)
  }

  /** A step about one stream leaves every other stream's bytes and entry alone. */
  lemma OtherStreamsUntouched(s: State, l: Label, sid: nat)
    requires Possible(s, l) && sid != l.sid
    ensures var t := Apply(s, l);
            && (sid in t.stored <==> sid in s.stored) && (sid in s.stored ==> t.stored[sid] == s.stored[sid])
            && (sid in t.inflight <==> sid in s.inflight) && (sid in s.inflight ==> t.inflight[sid] == s.inflight[sid])
            && (sid in t.accepted <==> sid in s.accepted) && (sid in s.accepted ==> t.accepted[sid] == s.accepted[sid])
            && (sid in t.bodies <==> sid in s.bodies) && (sid in s.bodies ==> t.bodies[sid] == s.bodies[sid])
            && (sid in t.failed <==> sid in s.failed)
  {
  }

  lemma RespondKeepsOk(s: State, sid: nat, body: seq<byte>, result: SendResult)
    requires StreamOk(s, sid) && Enabled(s, Respond(sid, body, result))
    ensures StreamOk(Apply(s, Respond(sid, body, result)), sid)
  {
    assert [] + body == body && [] + body[..Written(result)] == body[..Written(result)];
  }

  lemma StoreKeepsOk(s: State, sid: nat)
    requires StreamOk(s, sid) && Enabled(s, Store(sid))
    ensures StreamOk(Apply(s, Store(sid)), sid)
  {
  }

  lemma WritableKeepsOk(s: State, sid: nat, result: SendResult)
    requires StreamOk(s, sid) && Enabled(s, Writable(sid, result))
    ensures StreamOk(Apply(s, Writable(sid, result)), sid)
  {
    if sid in s.stored {
      var r, n := s.stored[sid], Written(result);
      assert r.body[..r.written] + r.body[r.written..][..n] == r.body[..r.written + n];
    }
  }

  lemma OwnStreamOk(s: State, l: Label)
    requires StreamOk(s, l.sid) && Enabled(s, l)
    ensures StreamOk(Apply(s, l), l.sid)
  {
    match l
    case Respond(sid, body, result) => RespondKeepsOk(s, sid, body, result);
    case Store(sid) => StoreKeepsOk(s, sid);
    case Writable(sid, result) => WritableKeepsOk(s, sid, result);
  }

  lemma StepKeepsInv(s: State, l: Label)
    requires Inv(s) && Enabled(s, l)
    ensures Inv(Apply(s, l))
  {
    assert StreamOk(s, l.sid);
    OwnStreamOk(s, l);
    forall sid | sid != l.sid ensures StreamOk(Apply(s, l), sid) {
      assert StreamOk(s, sid);
      OtherStreamsUntouched(s, l, sid);
    }
  }

  ghost predicate AllOut(s: State, sid: nat) {
    sid in s.bodies && sid in s.accepted && s.accepted[sid] == s.bodies[sid]
  }

  /** `handle_writable` drops an entry exactly on a stream error or when the whole body is out. */
  lemma DroppedIff(s: State, sid: nat, result: SendResult)
    requires Inv(s) && Enabled(s, Writable(sid, result)) && sid in s.stored
    ensures var t := Apply(s, Writable(sid, result));
            && (sid !in t.stored <==> result.Failed? || AllOut(t, sid))
            && (sid in t.failed <==> result.Failed?)
  {
    assert StreamOk(s, sid);
    OwnStreamOk(s, Writable(sid, result));
  }

  ghost predicate StepAt(states: seq<State>, labels: seq<Label>, i: nat)
    requires i < |labels| < |states|
  {
    Enabled(states[i], labels[i]) && states[i + 1] == Apply(states[i], labels[i])
  }

  ghost predicate IsTrace(states: seq<State>, labels: seq<Label>) {
    |states| == |labels| + 1 && forall i :: 0 <= i < |labels| ==> StepAt(states, labels, i)
  }

  ghost predicate IsRun(states: seq<State>, labels: seq<Label>) {
    IsTrace(states, labels) && states[0] == INIT
  }

  lemma {:induction false} RunInv(states: seq<State>, labels: seq<Label>, i: nat)
    requires IsRun(states, labels) && i < |states|
    ensures Inv(states[i])
  {
    if i > 0 {
      RunInv(states, labels, i - 1);
      assert StepAt(states, labels, i - 1);
      StepKeepsInv(states[i - 1], labels[i - 1]);
    }
  }

  /**
    * In every run: bytes accepted on a stream are a prefix of its body; a stored entry has something
    * left and records exactly how much is out; and a stream without an entry has all of its body out,
    * unless `handle_stream` is about to store one or the stream failed.
    */
  lemma RunsLoseNothing(states: seq<State>, labels: seq<Label>, i: nat, sid: nat)
    requires IsRun(states, labels) && i < |states| && sid in states[i].bodies
    ensures var s := states[i];
            && sid in s.accepted && s.accepted[sid] <= s.bodies[sid]
            && (sid in s.stored ==>
                  var r := s.stored[sid];
                  r.body == s.bodies[sid] && r.written == |s.accepted[sid]| < |r.body|)
            && (sid !in s.stored && sid !in s.inflight && sid !in s.failed ==> AllOut(s, sid))
  {
    RunInv(states, labels, i);
    assert StreamOk(states[i], sid);
  }

  // ---------- Progress ----------

  function Rest(r: Response): nat {
    if r.written <= |r.body| then |r.body| - r.written else 0
  }

  /** Bytes of all responses not yet accepted. */
  ghost function Remaining(s: State): nat {
    Sum(s.stored, Rest) + Sum(s.inflight, Rest)
  }

  /** Every byte is accounted for: accepting n lowers the remainder by n, an error by what the entry had left. */
  lemma RemainingFalls(s: State, l: Label)
    requires Inv(s) && Enabled(s, l)
    ensures match l
            case Respond(_, body, result) =>
              Remaining(Apply(s, l)) == Remaining(s) + (if result.Failed? then 0 else |body| - Written(result))
            case Store(_) => Remaining(Apply(s, l)) == Remaining(s)
            case Writable(sid, result) =>
              sid in s.stored ==>
                var lost := if result.Failed? then Rest(s.stored[sid]) else Written(result);
                Remaining(s) == Remaining(Apply(s, l)) + lost
  {
    assert StreamOk(s, l.sid);
    match l
    case Respond(sid, body, result) => SumUpdate(s.inflight, Rest, sid, Response(body, Written(result)));
    case Store(sid) =>
      SumRemove(s.inflight, Rest, sid);
      SumUpdate(s.stored, Rest, sid, s.inflight[sid]);
    case Writable(sid, result) =>
      if sid in s.stored {
        SumRemove(s.stored, Rest, sid);
        SumUpdate(s.stored, Rest, sid, s.stored[sid].(written := s.stored[sid].written + Written(result)));
      }
  }

  /** How many of the first `n` labels are calls of `handle_writable` that get something out on the stream. */
  function Useful(labels: seq<Label>, sid: nat, n: nat): nat
    requires n <= |labels|
  {
    if n == 0 then 0
    else
      var l := labels[n - 1];
      Useful(labels, sid, n - 1) + if l.Writable? && l.sid == sid && Written(l.result) > 0 then 1 else 0
  }

  ghost predicate FailsOn(labels: seq<Label>, sid: nat) {
    exists i :: 0 <= i < |labels| && labels[i] == Writable(sid, Failed)
  }

  /** The stream's response is complete, or each useful call took a byte at least off what is left. */
  ghost predicate Progressed(start: State, t: State, sid: nat, useful: nat) {
    && sid in start.bodies && sid in t.bodies && t.bodies[sid] == start.bodies[sid]
    && sid in start.stored && sid !in t.inflight
    && if sid in t.stored then Rest(t.stored[sid]) + useful <= Rest(start.stored[sid]) else AllOut(t, sid)
  }

  lemma StepProgresses(start: State, s: State, l: Label, sid: nat, useful: nat)
    requires Inv(s) && Enabled(s, l) && l != Writable(sid, Failed) && Progressed(start, s, sid, useful)
    ensures var one := if l.Writable? && l.sid == sid && Written(l.result) > 0 then 1 else 0;
            Progressed(start, Apply(s, l), sid, useful + one)
  {
    assert StreamOk(s, sid);
    if l.sid == sid {
      OwnStreamOk(s, l);
    } else {
      OtherStreamsUntouched(s, l, sid);
    }
  }

  lemma {:induction false} RunProgresses(states: seq<State>, labels: seq<Label>, sid: nat, n: nat)
    requires IsTrace(states, labels) && n <= |labels| && !FailsOn(labels, sid)
    requires Inv(states[0]) && sid in states[0].stored
    ensures Inv(states[n]) && Progressed(states[0], states[n], sid, Useful(labels, sid, n))
  {
    assert StreamOk(states[0], sid);
    if n > 0 {
      RunProgresses(states, labels, sid, n - 1);
      assert StepAt(states, labels, n - 1);
      StepKeepsInv(states[n - 1], labels[n - 1]);
      StepProgresses(states[0], states[n - 1], labels[n - 1], sid, Useful(labels, sid, n - 1));
    }
  }

  /**
    * Whatever else goes on in between, on this stream or others: unless the stream fails, each call
    * of `handle_writable` that gets something out leaves at least a byte less, so the response is
    * complete after at most as many such calls as it had bytes left.
    */
  lemma CompletesWithin(states: seq<State>, labels: seq<Label>, sid: nat)
    requires IsTrace(states, labels) && !FailsOn(labels, sid)
    requires Inv(states[0]) && sid in states[0].stored
    ensures var t, left, useful := states[|labels|], Rest(states[0].stored[sid]), Useful(labels, sid, |labels|);
            && Given(t, sid) == Given(states[0], sid)
            && (sid in t.stored ==> Rest(t.stored[sid]) + useful <= left)
            && (sid !in t.stored || useful >= left ==> sid !in t.stored && AllOut(t, sid))
  {
    RunProgresses(states, labels, sid, |labels|);
    assert StreamOk(states[|labels|], sid);
  }

  // ---------- A second response on one stream ----------

  /** What the entry of a stream, if any, has still to send. */
  function Unsent(s: State, sid: nat): seq<byte> {
    if sid in s.stored && s.stored[sid].written <= |s.stored[sid].body|
    then s.stored[sid].body[s.stored[sid].written..]
    else []
  }

  /** Accepted bytes and those still to be sent make up all that was to be sent, in order. */
  ghost predicate Conserved(s: State, sid: nat) {
    Got(s, sid) + Unsent(s, sid) == Given(s, sid)
  }

  lemma InvConserves(s: State, sid: nat)
    requires Inv(s) && sid !in s.inflight && sid !in s.failed
    ensures Conserved(s, sid)
  {
    assert StreamOk(s, sid);
    assert Got(s, sid) + [] == Got(s, sid);
  }

  /** The second step of `handle_stream`, if it comes to that. */
  function Inserted(s: State, sid: nat): State {
    if sid in s.inflight then Apply(s, Store(sid)) else s
  }

  /** `handle_stream` as a whole, when nothing comes between its steps. */
  function Responded(s: State, sid: nat, body: seq<byte>, result: SendResult): State
    requires Written(result) <= |body|
  {
    Inserted(Apply(s, Respond(sid, body, result)), sid)
  }

  /** What may come between the send and the insert: anything on other streams, and `handle_writable` on this one. */
  ghost predicate MayIntervene(s: State, l: Label, sid: nat) {
    Possible(s, l) && (l.sid == sid ==> l.Writable? && l.result != Failed)
  }

  ghost predicate IntervenesAt(states: seq<State>, labels: seq<Label>, i: nat, sid: nat)
    requires i < |labels| < |states|
  {
    MayIntervene(states[i], labels[i], sid) && states[i + 1] == Apply(states[i], labels[i])
  }

  ghost predicate Between(states: seq<State>, labels: seq<Label>, sid: nat) {
    && |states| == |labels| + 1
    && forall i :: 0 <= i < |labels| ==> IntervenesAt(states, labels, i, sid)
  }

  /**
    * A second response `r` has been sent up to `r.written` on a stream that had got `got` with `rest` to
    * follow, and then `k` bytes of that rest; what of `r` is left is still to be inserted.
    */
  ghost predicate Overtaken(s: State, sid: nat, got: seq<byte>, rest: seq<byte>, r: Response, k: nat) {
    && k <= |rest| && r.written <= |r.body|
    && Given(s, sid) == got + rest + r.body
    && Got(s, sid) == got + r.body[..r.written] + rest[..k]
    && Unsent(s, sid) == rest[k..]
    && (if r.written < |r.body| then sid in s.inflight && s.inflight[sid] == r else sid !in s.inflight)
  }

  /** One call of `handle_writable` moves bytes from the entry to what is accepted, and touches nothing else. */
  lemma WritableMoves(s: State, sid: nat, result: SendResult) returns (n: nat)
    requires Possible(s, Writable(sid, result)) && result != Failed
    ensures var t := Apply(s, Writable(sid, result));
            && n <= |Unsent(s, sid)|
            && Got(t, sid) == Got(s, sid) + Unsent(s, sid)[..n] && Unsent(t, sid) == Unsent(s, sid)[n..]
            && t.bodies == s.bodies && t.inflight == s.inflight
  {
    n := if sid in s.stored then Written(result) else 0;
    assert Got(s, sid) + [] == Got(s, sid);
  }

  lemma MoveBytes(before: seq<byte>, rest: seq<byte>, k: nat, n: nat)
    requires k + n <= |rest|
    ensures before + rest[..k] + rest[k..][..n] == before + rest[..k + n] && rest[k..][n..] == rest[k + n..]
  {
  }

  lemma WritableOvertaken(s: State, sid: nat, result: SendResult, got: seq<byte>, rest: seq<byte>, r: Response, k: nat)
      returns (k': nat)
    requires Overtaken(s, sid, got, rest, r, k) && Possible(s, Writable(sid, result)) && result != Failed
    ensures Overtaken(Apply(s, Writable(sid, result)), sid, got, rest, r, k')
  {
    var n := WritableMoves(s, sid, result);
    MoveBytes(got + r.body[..r.written], rest, k, n);
    k' := k + n;
  }

  lemma OthersOvertaken(s: State, l: Label, sid: nat, got: seq<byte>, rest: seq<byte>, r: Response, k: nat)
    requires Overtaken(s, sid, got, rest, r, k) && Possible(s, l) && l.sid != sid
    ensures Overtaken(Apply(s, l), sid, got, rest, r, k)
  {
    OtherStreamsUntouched(s, l, sid);
    var t := Apply(s, l);
    assert Got(t, sid) == Got(s, sid) && Given(t, sid) == Given(s, sid) && Unsent(t, sid) == Unsent(s, sid);
  }

  lemma StepOvertaken(s: State, l: Label, sid: nat, got: seq<byte>, rest: seq<byte>, r: Response, k: nat)
      returns (k': nat)
    requires Overtaken(s, sid, got, rest, r, k) && MayIntervene(s, l, sid)
    ensures Overtaken(Apply(s, l), sid, got, rest, r, k')
  {
    k' := k;
    if l.sid == sid {
      k' := WritableOvertaken(s, sid, l.result, got, rest, r, k);
    } else {
      OthersOvertaken(s, l, sid, got, rest, r, k);
    }
  }

  lemma {:induction false} StayOvertaken(states: seq<State>, labels: seq<Label>, n: nat, sid: nat,
                                         got: seq<byte>, rest: seq<byte>, r: Response) returns (k: nat)
    requires Between(states, labels, sid) && n <= |labels| && Overtaken(states[0], sid, got, rest, r, 0)
    ensures Overtaken(states[n], sid, got, rest, r, k)
  {
    k := 0;
    if n > 0 {
      k := StayOvertaken(states, labels, n - 1, sid, got, rest, r);
      assert IntervenesAt(states, labels, n - 1, sid);
      k := StepOvertaken(states[n - 1], labels[n - 1], sid, got, rest, r, k);
    }
  }

  /** The second response is inserted; the rest of the first, if any, is lost. */
  lemma InsertedIff(s: State, sid: nat, got: seq<byte>, rest: seq<byte>, r: Response, k: nat)
    requires Overtaken(s, sid, got, rest, r, k)
    ensures Conserved(Inserted(s, sid), sid) <==>
            got + r.body[..r.written] + rest[..k] + (if r.written < |r.body| then r.body[r.written..] else rest[k..])
            == got + rest + r.body
  {
  }

  /** Equal bytes around do not matter. */
  lemma Commutes(got: seq<byte>, rest: seq<byte>, first: seq<byte>, more: seq<byte>)
    ensures got + first + rest + more == got + rest + (first + more) <==> first + rest == rest + first
  {
    assert got + first + rest + more == got + (first + rest) + more;
    assert got + rest + (first + more) == got + (rest + first) + more;
    var n := |got|;
    var m := n + |first + rest|;
    assert (got + (first + rest) + more)[n..m] == first + rest;
    assert (got + (rest + first) + more)[n..m] == rest + first;
  }

  lemma KeptIff(got: seq<byte>, rest: seq<byte>, r: Response, k: nat)
    requires k <= |rest| && r.written <= |r.body|
    ensures var first := r.body[..r.written];
            got + first + rest[..k] + (if r.written < |r.body| then r.body[r.written..] else rest[k..])
            == got + rest + r.body
            <==> first + rest == rest + first && (r.written == |r.body| || k == |rest|)
  {
    var first, more := r.body[..r.written], r.body[r.written..];
    assert first + more == r.body;
    if r.written == |r.body| {
      assert got + first + rest[..k] + rest[k..] == got + first + (rest[..k] + rest[k..]);
      assert rest[..k] + rest[k..] == rest && more == [];
      assert got + first + rest + more == got + first + rest;
      Commutes(got, rest, first, more);
    } else if k == |rest| {
      assert rest[..k] == rest;
      Commutes(got, rest, first, more);
    } else {
      assert |got + first + rest[..k] + more| < |got + rest + r.body|;
    }
  }

  /**
    * What the rule of one response per stream is for. A second response, no step of it failing, may
    * have `handle_writable` get out more of the first between its send and its insert. All bytes are
    * kept in order exactly if what was sent at once happens to read the same before the rest of the
    * first as behind it, and nothing is inserted or by then nothing of the first is left. Otherwise
    * bytes are lost with the overwritten entry, or reordered.
    */
  lemma SecondResponseIff(s: State, sid: nat, body: seq<byte>, result: SendResult,
                          states: seq<State>, labels: seq<Label>)
    requires Inv(s) && sid !in s.inflight && sid !in s.failed
    requires !result.Failed? && Written(result) <= |body|
    requires Between(states, labels, sid) && states[0] == Apply(s, Respond(sid, body, result))
    ensures var t, first, rest := states[|labels|], body[..Written(result)], Unsent(s, sid);
            Conserved(Inserted(t, sid), sid) <==>
            first + rest == rest + first && (Written(result) == |body| || Unsent(t, sid) == [])
  {
    InvConserves(s, sid);
    assert StreamOk(s, sid);
    var r, rest := Response(body, Written(result)), Unsent(s, sid);
    assert Got(s, sid) + body[..r.written] + rest[..0] == Got(s, sid) + body[..r.written];
    var k := StayOvertaken(states, labels, |labels|, sid, Got(s, sid), rest, r);
    InsertedIff(states[|labels|], sid, Got(s, sid), rest, r, k);
    KeptIff(Got(s, sid), rest, r, k);
  }

  // ---------- The code ----------

  lemma RespondedKeepsInv(s: State, sid: nat, body: seq<byte>, result: SendResult)
    requires Written(result) <= |body|
    ensures Inv(s) && sid !in s.bodies ==> Inv(Responded(s, sid, body, result))
  {
    if Inv(s) && sid !in s.bodies {
      StepKeepsInv(s, Respond(sid, body, result));
      var t := Apply(s, Respond(sid, body, result));
      if sid in t.inflight {
        StepKeepsInv(t, Store(sid));
      }
    }
  }

  lemma WritableKeepsInv(s: State, sid: nat, result: SendResult)
    requires Possible(s, Writable(sid, result))
    ensures Inv(s) ==> Inv(Apply(s, Writable(sid, result)))
  {
    if Inv(s) {
      StepKeepsInv(s, Writable(sid, result));
    }
  }

  class Responder {
    var partialResponses: map<nat, Response>
    ghost var bodies: map<nat, seq<byte>>
    ghost var accepted: map<nat, seq<byte>>
    ghost var failed: set<nat>

    ghost function Abs(): State
      reads this
    {
      State(partialResponses, map[], bodies, accepted, failed)
    }

    /** No entry is complete. */
    ghost predicate Valid()
      reads this
    {
      forall sid :: sid in partialResponses ==> partialResponses[sid].written < |partialResponses[sid].body|
    }

    constructor ()
      ensures Valid() && Abs() == INIT && Inv(Abs())
    {
      partialResponses, bodies, accepted, failed := map[], map[], map[], {};
    }

    /** `result` is what quiche answers to the one `stream_send`. The id may have been used before. */
    method HandleStream(sid: nat, res: seq<byte>, result: SendResult)
      requires Valid() && Written(result) <= |res|
      modifies this
      ensures Valid() && Abs() == Responded(old(Abs()), sid, res, result)
      ensures partialResponses == if result.Failed? || Written(result) == |res| then old(partialResponses)
                                  else old(partialResponses)[sid := Response(res, Written(result))]
      ensures var before := if sid in old(accepted) then old(accepted)[sid] else [];
              accepted == old(accepted)[sid := before + res[..Written(result)]]
      ensures old(Inv(Abs())) && sid !in old(bodies) ==> Inv(Abs())
    {
      ghost var s := Abs();
      ghost var t := Apply(s, Respond(sid, res, result));
      RespondedKeepsInv(s, sid, res, result);
      var written: nat;
      bodies := bodies[sid := Given(s, sid) + res];
      accepted := accepted[sid := Got(s, sid) + res[..Written(result)]];
      match result {
        case Sent(v) => written := v;
        case Done => written := 0;
        case Failed =>
          failed := failed + {sid};
          return;
      }
      if written < |res| {
        partialResponses := partialResponses[sid := Response(res, written)];
        assert t.inflight - {sid} == map[];
      }
    }

    method HandleWritable(sid: nat, result: SendResult)
      requires Valid() && Possible(Abs(), Writable(sid, result))
      modifies this
      ensures Valid() && Abs() == Apply(old(Abs()), Writable(sid, result))
      ensures sid !in old(partialResponses) ==> Abs() == old(Abs())
      ensures sid in old(partialResponses) ==>
                var r := old(partialResponses)[sid];
                var out := r.written + Written(result);
                && out <= |r.body|
                && (partialResponses == if result.Failed? || out == |r.body| then old(partialResponses) - {sid}
                                        else old(partialResponses)[sid := Response(r.body, out)])
                && (!result.Failed? ==>
                      sid in accepted && accepted[sid] == old(Got(Abs(), sid)) + r.body[r.written..out])
      ensures old(Inv(Abs())) ==> Inv(Abs())
    {
      ghost var s := Abs();
      WritableKeepsInv(s, sid, result);
      if sid !in partialResponses {
        return;
      }
      var resp := partialResponses[sid];
      var body := resp.body[resp.written..];
      var written: nat;
      match result {
        case Sent(v) => written := v;
        case Done => written := 0;
        case Failed =>
          partialResponses := partialResponses - {sid};
          failed := failed + {sid};
          return;
      }
      accepted := accepted[sid := Got(s, sid) + body[..written]];
      resp := resp.(written := resp.written + written);
      partialResponses := partialResponses[sid := resp];
      if resp.written == |resp.body| {
        partialResponses := partialResponses - {sid};
      }
      assert partialResponses == Apply(s, Writable(sid, result)).stored;
    }
  }
}
