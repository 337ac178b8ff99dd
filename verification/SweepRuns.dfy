/** One garbage collection pass of the server, whatever the application does meanwhile. */
module SweepRuns {
  import opened Bytes
  import opened Lifecycle
  import opened LifecycleRuns

  /** The `unreachable!()` arm is dead: every swept key is found in `client_status`, with the same connection. */
  lemma SweepFindsEntry(mac: Mac, r: Run, i: nat)
    requires IsRun(mac, r) && i < |r.states|
    ensures var s := r.states[i];
            && !s.server.Crashed?
            && (s.server.Sweeping? ==>
                  forall k :: k in s.server.todo ==>
                    && Enabled(s, Sweep(k)) && s.conns[s.clients[k]].sid == k
                    && k in s.status && s.status[k].conn == s.clients[k])
  {
    RunInv(mac, r, i);
    var s := r.states[i];
    if s.server.Sweeping? {
      forall k | k in s.server.todo
        ensures && Enabled(s, Sweep(k)) && s.conns[s.clients[k]].sid == k
                && k in s.status && s.status[k].conn == s.clients[k]
      {
        assert KeyInv(mac, s, k);
      }
    }
  }

  /** Labels i+1, ..., m-1 do not end the pass that label i began. */
  ghost predicate WithinPass(r: Run, i: nat, m: nat) {
    && i < m <= |r.labels|
    && r.labels[i].BeginSweep?
    && forall n :: i < n < m ==> !r.labels[n].EndSweep?
  }

  ghost predicate Keeps(s: State, t: State, k: Id)
    requires t.server.Sweeping?
  {
    k in s.clients && (k in t.server.todo || (k in s.status && s.status[k].status != Close))
  }

  ghost predicate PassState(s: State, t: State) {
    && t.server.Sweeping? && t.status == s.status
    && (forall k :: k in t.clients <==> Keeps(s, t, k))
    && (forall k :: k in t.clients ==> k in s.clients && t.clients[k] == s.clients[k])
  }

  lemma PassBegins(mac: Mac, s: State)
    requires Inv(mac, s) && Enabled(s, BeginSweep)
    ensures PassState(s, Apply(mac, s, BeginSweep))
  {
    var t := Apply(mac, s, BeginSweep);
    forall k ensures k in t.clients <==> Keeps(s, t, k) {
      assert KeyInv(mac, s, k);
    }
  }

  lemma PassStep(mac: Mac, s: State, u: State, l: Label)
    requires Inv(mac, u) && Enabled(u, l) && !l.EndSweep? && PassState(s, u)
    ensures PassState(s, Apply(mac, u, l))
  {
    if l.Sweep? {
      assert KeyInv(mac, u, l.key);
    }
  }

  /** The retain closure on one key whose entry is found. */
  function Visited(u: State, key: Id): State
    requires u.server.Sweeping? && key in u.clients && u.clients[key] < |u.conns| && key in u.status
  {
    var collect := u.conns[u.clients[key]].closed && u.status[key].status == Close;
    u.(clients := if collect then u.clients - {key} else u.clients, server := Sweeping(u.server.todo - {key}))
  }

  lemma VisitFindsEntry(mac: Mac, u: State, key: Id)
    requires Inv(mac, u) && u.server.Sweeping? && key in u.server.todo
    ensures key in u.clients && u.clients[key] < |u.conns| && u.conns[u.clients[key]].sid == key && key in u.status
    ensures Enabled(u, Sweep(key)) && Apply(mac, u, Sweep(key)) == Visited(u, key)
  {
    assert KeyInv(mac, u, key);
  }

  lemma SweepVisit(mac: Mac, s: State, u: State, key: Id)
    requires Inv(mac, u) && PassState(s, u) && key in u.server.todo
    ensures key in u.clients && u.clients[key] < |u.conns| && u.conns[u.clients[key]].sid == key && key in u.status
    ensures Inv(mac, Visited(u, key)) && PassState(s, Visited(u, key))
  {
    VisitFindsEntry(mac, u, key);
    StepKeepsInv(mac, u, Sweep(key));
    PassStep(mac, s, u, Sweep(key));
  }

  lemma RunPassStep(mac: Mac, r: Run, s: State, m: nat)
    requires IsRun(mac, r) && m < |r.labels| && !r.labels[m].EndSweep?
    requires (r.labels[m].BeginSweep? && s == r.states[m]) || PassState(s, r.states[m])
    ensures PassState(s, r.states[m + 1])
  {
    RunInv(mac, r, m);
    assert StepAt(mac, r, m);
    if r.labels[m].BeginSweep? {
      PassBegins(mac, s);
    } else {
      PassStep(mac, s, r.states[m], r.labels[m]);
    }
  }

  /** Midway through a pass: statuses are frozen, and what is gone is what was visited and marked. */
  lemma {:induction false} PassProgress(mac: Mac, r: Run, i: nat, m: nat)
    requires IsRun(mac, r) && WithinPass(r, i, m)
    ensures PassState(r.states[i], r.states[m])
  {
    if m > i + 1 {
      PassProgress(mac, r, i, m - 1);
    }
    RunPassStep(mac, r, r.states[i], m - 1);
  }

  /** The clients not marked `Close`. */
  function Survivors(clients: map<Id, nat>, status: map<Id, Entry>): map<Id, nat> {
    map k | k in clients && k in status && status[k].status != Close :: clients[k]
  }

  lemma PassEnds(s: State, t: State)
    requires PassState(s, t) && t.server == Sweeping({})
    ensures t.clients == Survivors(s.clients, s.status)
  {
  }

  /**
    * Exact sweep, whatever the application does meanwhile: one pass removes from `clients` precisely
    * the keys marked `Close` when it began, and leaves `client_status` as it was.
    */
  lemma PassIsExact(mac: Mac, r: Run, i: nat, j: nat)
    requires IsRun(mac, r) && WithinPass(r, i, j) && j < |r.labels| && r.labels[j].EndSweep?
    ensures r.states[j + 1].clients == Survivors(r.states[i].clients, r.states[i].status)
    ensures r.states[j + 1].status == r.states[i].status
  {
    PassProgress(mac, r, i, j);
    assert StepAt(mac, r, j);
    PassEnds(r.states[i], r.states[j]);
  }
}
