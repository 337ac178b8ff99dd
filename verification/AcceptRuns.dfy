/** Successive calls of `dtp_accept` with nothing in between. */
module AcceptRuns {
  import opened Bytes
  import opened Lifecycle

  function PendingIds(status: map<Id, Entry>): set<Id> {
    set k | k in status && status[k].status == Connected
  }

  /** One non-blocking accept; `None` is the null result. */
  ghost predicate AcceptCall(mac: Mac, s: State, result: Option<Id>, t: State) {
    match result
    case None => SharedFree(s) && PendingIds(s.status) == {} && t == s
    case Some(id) => Enabled(s, Accept(id)) && t == Apply(mac, s, Accept(id))
  }

  ghost predicate CallAt(mac: Mac, states: seq<State>, results: seq<Option<Id>>, i: nat)
    requires i < |results| < |states|
  {
    AcceptCall(mac, states[i], results[i], states[i + 1])
  }

  /** Successive accepts with no other thread in between. */
  ghost predicate AcceptCalls(mac: Mac, states: seq<State>, results: seq<Option<Id>>) {
    && |states| == |results| + 1
    && forall i :: 0 <= i < |results| ==> CallAt(mac, states, results, i)
  }

  function Ids(results: seq<Option<Id>>): set<Id> {
    if results == [] then {}
    else Ids(results[..|results| - 1]) + (match results[|results| - 1] case None => {} case Some(id) => {id})
  }

  function AcceptedIn(status: map<Id, Entry>, ids: set<Id>): map<Id, Entry> {
    map k | k in status :: if k in ids then status[k].(status := Accepted) else status[k]
  }

  ghost predicate Drained(s: State, t: State, ids: set<Id>) {
    && ids <= PendingIds(s.status)
    && t.status == AcceptedIn(s.status, ids)
    && t.clients == s.clients && t.conns == s.conns && t.server == s.server
    && t.issued == s.issued + |ids|
  }

  lemma AcceptOneMore(status: map<Id, Entry>, ids: set<Id>)
    requires ids <= PendingIds(status)
    ensures PendingIds(AcceptedIn(status, ids)) == PendingIds(status) - ids
    ensures forall id :: id in PendingIds(status) - ids ==>
              var u := AcceptedIn(status, ids);
              u[id := u[id].(status := Accepted)] == AcceptedIn(status, ids + {id})
  {
  }

  lemma DrainStep(mac: Mac, s: State, u: State, t: State, ids: set<Id>, result: Option<Id>)
    requires Drained(s, u, ids) && AcceptCall(mac, u, result, t)
    ensures match result
            case None => ids == PendingIds(s.status) && Drained(s, t, ids)
            case Some(id) => id in PendingIds(s.status) - ids && Drained(s, t, ids + {id})
  {
    AcceptOneMore(s.status, ids);
    assert PendingIds(u.status) == PendingIds(s.status) - ids;
    match result
    case None => assert forall k :: k in PendingIds(s.status) ==> k !in PendingIds(u.status);
    case Some(id) => assert id in PendingIds(u.status);
  }

  lemma CallsPrefix(mac: Mac, states: seq<State>, results: seq<Option<Id>>, n: nat)
    requires AcceptCalls(mac, states, results) && n <= |results|
    ensures AcceptCalls(mac, states[..n + 1], results[..n])
  {
    var states', results' := states[..n + 1], results[..n];
    forall i | 0 <= i < n ensures CallAt(mac, states', results', i) {
      assert CallAt(mac, states, results, i);
    }
  }

  lemma {:induction false} CallsDrain(mac: Mac, states: seq<State>, results: seq<Option<Id>>)
    requires AcceptCalls(mac, states, results)
    ensures Drained(states[0], states[|results|], Ids(results))
  {
    var n := |results|;
    if n > 0 {
      CallsPrefix(mac, states, results, n - 1);
      CallsDrain(mac, states[..n], results[..n - 1]);
      assert CallAt(mac, states, results, n - 1);
      DrainStep(mac, states[0], states[n - 1], states[n], Ids(results[..n - 1]), results[n - 1]);
    }
  }

  /** The last call: null exactly when all that was pending is taken, and otherwise something new. */
  lemma LastCall(mac: Mac, states: seq<State>, results: seq<Option<Id>>, n: nat)
    requires AcceptCalls(mac, states, results) && n < |results|
    ensures var ids, pending := Ids(results[..n]), PendingIds(states[0].status);
            && ids <= pending
            && (results[n] == None <==> ids == pending)
            && (results[n].Some? ==> results[n].value in pending - ids)
            && Ids(results[..n + 1]) == ids + (if results[n].Some? then {results[n].value} else {})
  {
    CallsPrefix(mac, states, results, n);
    CallsDrain(mac, states[..n + 1], results[..n]);
    assert CallAt(mac, states, results, n);
    DrainStep(mac, states[0], states[n], states[n + 1], Ids(results[..n]), results[n]);
    assert results[..n + 1][..n] == results[..n];
  }

  lemma {:induction false} InIds(results: seq<Option<Id>>, n: nat, i: nat)
    requires i < n <= |results| && results[i].Some?
    ensures results[i].value in Ids(results[..n])
  {
    assert results[..n][..n - 1] == results[..n - 1];
    if i < n - 1 {
      InIds(results, n - 1, i);
    }
  }

  lemma OneMore(ids: set<Id>, pending: set<Id>, last: Option<Id>, ids': set<Id>)
    requires ids <= pending
    requires last == None <==> ids == pending
    requires last.Some? ==> last.value in pending - ids
    requires ids' == ids + (if last.Some? then {last.value} else {})
    ensures ids' <= pending
    ensures |ids'| == if |ids| < |pending| then |ids| + 1 else |pending|
    ensures last.Some? <==> |ids| < |pending|
  {
    assert |pending - ids| == |pending| - |ids|;
  }

  lemma CountStep(mac: Mac, states: seq<State>, results: seq<Option<Id>>, n: nat)
    requires AcceptCalls(mac, states, results) && n < |results|
    ensures var i, j, m := |Ids(results[..n])|, |Ids(results[..n + 1])|, |PendingIds(states[0].status)|;
            j == (if i < m then i + 1 else m) && (results[n].Some? <==> i < m)
  {
    LastCall(mac, states, results, n);
    OneMore(Ids(results[..n]), PendingIds(states[0].status), results[n], Ids(results[..n + 1]));
  }

  lemma {:induction false} CallsCount(mac: Mac, states: seq<State>, results: seq<Option<Id>>, n: nat)
    requires AcceptCalls(mac, states, results) && n <= |results|
    ensures var m := |PendingIds(states[0].status)|;
            |Ids(results[..n])| == if n < m then n else m
  {
    if n > 0 {
      CallsCount(mac, states, results, n - 1);
      CountStep(mac, states, results, n - 1);
    }
  }

  /** The i-th call's box, when it gives one, is new and for the entry it found; earlier boxes are untouched. */
  ghost predicate BoxGiven(s: State, t: State, results: seq<Option<Id>>, i: nat)
    requires i < |results|
  {
    results[i].Some? ==>
      && results[i].value in s.status
      && s.issued + i in t.handles
      && t.handles[s.issued + i] == Handle(results[i].value, s.status[results[i].value].conn, Held)
  }

  ghost predicate BoxKept(s: State, t: State, h: nat) {
    h < s.issued ==> (h in t.handles <==> h in s.handles) && (h in s.handles ==> t.handles[h] == s.handles[h])
  }

  lemma CallGivesBox(mac: Mac, states: seq<State>, results: seq<Option<Id>>, n: nat)
    requires AcceptCalls(mac, states, results) && n < |results|
    ensures match results[n]
            case None => states[n + 1] == states[n]
            case Some(id) =>
              var s := states[0];
              && id in s.status
              && states[n + 1].handles == states[n].handles[s.issued + n := Handle(id, s.status[id].conn, Held)]
  {
    CallsPrefix(mac, states, results, n);
    CallsDrain(mac, states[..n + 1], results[..n]);
    CallsCount(mac, states, results, n);
    CountStep(mac, states, results, n);
    assert CallAt(mac, states, results, n);
  }

  lemma {:induction false} BoxesGiven(mac: Mac, states: seq<State>, results: seq<Option<Id>>, n: nat)
    requires AcceptCalls(mac, states, results) && n <= |results|
    ensures forall i :: 0 <= i < n ==> BoxGiven(states[0], states[n], results, i)
    ensures forall h :: BoxKept(states[0], states[n], h)
  {
    if n > 0 {
      BoxesGiven(mac, states, results, n - 1);
      CallGivesBox(mac, states, results, n - 1);
      forall i | 0 <= i < n ensures BoxGiven(states[0], states[n], results, i) {
        assert i < n - 1 ==> BoxGiven(states[0], states[n - 1], results, i);
      }
      forall h ensures BoxKept(states[0], states[n], h) {
        assert BoxKept(states[0], states[n - 1], h);
      }
    }
  }

  /**
    * n calls on m pending connections succeed min(n, m) times, first, on distinct connections; they
    * accept exactly those, in new boxes, and change no other entry or box, in whatever order the
    * map is scanned.
    */
  lemma AcceptsDrain(mac: Mac, states: seq<State>, results: seq<Option<Id>>)
    requires AcceptCalls(mac, states, results)
    ensures Drained(states[0], states[|results|], Ids(results))
    ensures forall i :: 0 <= i < |results| ==> (results[i].Some? <==> i < |PendingIds(states[0].status)|)
    ensures forall i, j :: 0 <= i < j < |results| && results[i].Some? && results[j].Some? ==> results[i] != results[j]
    ensures forall i :: 0 <= i < |results| ==> BoxGiven(states[0], states[|results|], results, i)
    ensures forall h :: BoxKept(states[0], states[|results|], h)
  {
    CallsDrain(mac, states, results);
    BoxesGiven(mac, states, results, |results|);
    forall j | 0 <= j < |results|
      ensures results[j].Some? <==> j < |PendingIds(states[0].status)|
      ensures forall i :: 0 <= i < j && results[i].Some? && results[j].Some? ==> results[i] != results[j]
    {
      CallsCount(mac, states, results, j);
      CountStep(mac, states, results, j);
      LastCall(mac, states, results, j);
      forall i | 0 <= i < j && results[i].Some? ensures results[i].value in Ids(results[..j]) {
        InIds(results, j, i);
      }
    }
  }
}
