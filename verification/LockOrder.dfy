/**
  * Threads that take locks in the order of a rank cannot deadlock; a thread that takes a lock it
  * holds always does.
  */
module LockOrder {
  import opened MapSum

  datatype Lock =
    | ServerSocket
    | ServerConfig
    | SharedStreams
    | Connection(g: nat)
    | Partial(g: nat)      // the partial responses of connection g
    | Waker

  function Rank(l: Lock): nat {
    match l
    case ServerSocket => 0
    case ServerConfig => 1
    case SharedStreams => 2
    case Connection(_) => 3
    case Partial(_) => 4
    case Waker => 4
  }

  datatype Op = Acquire(lock: Lock) | Release(lock: Lock)

  datatype Result = Broken | Holds(held: set<Lock>)

  /** Every lock taken ranks above all held, locks released are held: the locks held at the end, if so. */
  function Follow(held: set<Lock>, ops: seq<Op>): Result
    decreases |ops|
  {
    if ops == [] then Holds(held)
    else
      match ops[0]
      case Acquire(l) =>
        if forall h :: h in held ==> Rank(h) < Rank(l) then Follow(held + {l}, ops[1..]) else Broken
      case Release(l) =>
        if l in held then Follow(held - {l}, ops[1..]) else Broken
  }

  ghost predicate Ordered(ops: seq<Op>) {
    Follow({}, ops) == Holds({})
  }

  /** Who holds each lock, and what each thread has still to do. */
  datatype State = State(owner: map<Lock, nat>, rest: map<nat, seq<Op>>)

  ghost predicate Enabled(s: State, t: nat) {
    && t in s.rest && s.rest[t] != []
    && match s.rest[t][0]
       case Acquire(l) => l !in s.owner
       case Release(l) => l in s.owner && s.owner[l] == t
  }

  function Step(s: State, t: nat): State
    requires t in s.rest && s.rest[t] != []
  {
    var op, later := s.rest[t][0], s.rest[t := s.rest[t][1..]];
    match op
    case Acquire(l) => State(s.owner[l := t], later)
    case Release(l) => State(s.owner - {l}, later)
  }

  function HeldBy(s: State, t: nat): set<Lock> {
    set l | l in s.owner && s.owner[l] == t
  }

  ghost predicate ThreadOk(s: State, t: nat) {
    t in s.rest ==> Follow(HeldBy(s, t), s.rest[t]) == Holds({})
  }

  ghost predicate Inv(s: State) {
    && (forall t :: ThreadOk(s, t))
    && (forall l :: l in s.owner ==> s.owner[l] in s.rest)
  }

  /** Any threads, each with an ordered program, before they start. */
  lemma StartInv(rest: map<nat, seq<Op>>)
    requires forall t :: t in rest ==> Ordered(rest[t])
    ensures Inv(State(map[], rest))
  {
    forall t ensures ThreadOk(State(map[], rest), t) {
      assert HeldBy(State(map[], rest), t) == {};
    }
  }

  lemma StepKeepsInv(s: State, t: nat)
    requires Inv(s) && Enabled(s, t)
    ensures Inv(Step(s, t))
  {
    var s' := Step(s, t);
    var op := s.rest[t][0];
    forall u ensures ThreadOk(s', u) {
      assert ThreadOk(s, u);
      if u == t {
        assert HeldBy(s', t) == if op.Acquire? then HeldBy(s, t) + {op.lock} else HeldBy(s, t) - {op.lock};
      } else {
        assert HeldBy(s', u) == HeldBy(s, u);
      }
    }
  }

  ghost predicate Waits(s: State, t: nat) {
    t in s.rest && s.rest[t] != [] && s.rest[t][0].Acquire? && s.rest[t][0].lock in s.owner
  }

  ghost predicate WaitsFor(s: State, t: nat, u: nat) {
    Waits(s, t) && s.owner[s.rest[t][0].lock] == u
  }

  /** The rank of the lock the thread is about to take. */
  function WantRank(s: State, t: nat): nat {
    if t in s.rest && s.rest[t] != [] then Rank(s.rest[t][0].lock) else 0
  }

  /** A thread that waits for a waiting thread wants a lock of lower rank than that one wants. */
  lemma RankRises(s: State, t: nat, u: nat)
    requires Inv(s) && WaitsFor(s, t, u) && Waits(s, u)
    ensures WantRank(s, t) < WantRank(s, u)
  {
    assert ThreadOk(s, u);
    assert s.rest[t][0].lock in HeldBy(s, u);
  }

  lemma {:induction false} RankRisesAlong(s: State, ts: seq<nat>, i: nat, j: nat)
    requires Inv(s) && i <= j < |ts|
    requires forall k :: 0 <= k < |ts| ==> Waits(s, ts[k])
    requires forall k :: 0 < k < |ts| ==> WaitsFor(s, ts[k - 1], ts[k])
    ensures WantRank(s, ts[i]) + (j - i) <= WantRank(s, ts[j])
  {
    if i < j {
      RankRisesAlong(s, ts, i, j - 1);
      assert WaitsFor(s, ts[j - 1], ts[j]);
      RankRises(s, ts[j - 1], ts[j]);
    }
  }

  /** No threads wait for one another in a circle. */
  lemma NoWaitCycle(s: State, ts: seq<nat>)
    requires Inv(s) && ts != []
    requires forall k :: 0 < k < |ts| ==> WaitsFor(s, ts[k - 1], ts[k])
    ensures !WaitsFor(s, ts[|ts| - 1], ts[0])
  {
    var last := |ts| - 1;
    if WaitsFor(s, ts[last], ts[0]) {
      forall k | 0 <= k < |ts| ensures Waits(s, ts[k]) {
        assert k < last ==> WaitsFor(s, ts[k + 1 - 1], ts[k + 1]);
      }
      RankRisesAlong(s, ts, 0, last);
      RankRises(s, ts[last], ts[0]);
    }
  }

  /** A thread that is not done goes on, or waits for another: it never gives back a lock it does not hold. */
  lemma RunsOrWaits(s: State, t: nat)
    requires Inv(s) && t in s.rest && s.rest[t] != []
    ensures Enabled(s, t) || Waits(s, t)
  {
    assert ThreadOk(s, t);
    assert s.rest[t][0].Release? ==> s.rest[t][0].lock in HeldBy(s, t);
  }

  /** Whoever holds a lock is not done: it has still to give it back. */
  lemma HolderIsNotDone(s: State, t: nat, o: nat)
    requires Inv(s) && WaitsFor(s, t, o)
    ensures o in s.rest && s.rest[o] != [] && (Enabled(s, o) || Waits(s, o))
  {
    assert ThreadOk(s, o) && s.rest[t][0].lock in HeldBy(s, o);
    RunsOrWaits(s, o);
  }

  /** Each thread of the chain waits for the next. */
  ghost predicate IsWaitChain(s: State, chain: seq<nat>) {
    forall k :: 0 < k < |chain| ==> WaitsFor(s, chain[k - 1], chain[k])
  }

  /** From any thread that is not done, following who waits for whom leads to one that can go on. */
  lemma {:induction false} SomeoneCanStep(s: State, t: nat) returns (chain: seq<nat>)
    requires Inv(s) && t in s.rest && s.rest[t] != []
    ensures chain != [] && chain[0] == t && IsWaitChain(s, chain) && Enabled(s, chain[|chain| - 1])
    decreases if s.rest[t][0].Acquire? then 5 - Rank(s.rest[t][0].lock) else 6
  {
    RunsOrWaits(s, t);
    chain := [t];
    if !Enabled(s, t) {
      var o := s.owner[s.rest[t][0].lock];
      assert WaitsFor(s, t, o);
      HolderIsNotDone(s, t, o);
      if Enabled(s, o) {
        chain := [t, o];
      } else {
        RankRises(s, t, o);
        var onward := SomeoneCanStep(s, o);
        chain := [t] + onward;
      }
    }
  }

  // ---------- Runs ----------

  ghost predicate StepAt(states: seq<State>, threads: seq<nat>, i: nat)
    requires i < |threads| < |states|
  {
    Enabled(states[i], threads[i]) && states[i + 1] == Step(states[i], threads[i])
  }

  /** Threads with any programs, started with no lock held and run in any interleaving. */
  ghost predicate IsTrace(states: seq<State>, threads: seq<nat>) {
    && |states| == |threads| + 1
    && states[0].owner == map[]
    && (forall i :: 0 <= i < |threads| ==> StepAt(states, threads, i))
  }

  /** The same for threads with ordered programs. */
  ghost predicate IsRun(states: seq<State>, threads: seq<nat>) {
    IsTrace(states, threads) && forall t :: t in states[0].rest ==> Ordered(states[0].rest[t])
  }

  ghost predicate AllDone(s: State) {
    forall t :: t in s.rest ==> s.rest[t] == []
  }

  /** No thread can go on: all are done, or the rest are deadlocked. */
  ghost predicate Halted(s: State) {
    forall t :: !Enabled(s, t)
  }

  lemma {:induction false} RunInv(states: seq<State>, threads: seq<nat>, i: nat)
    requires IsRun(states, threads) && i < |states|
    ensures Inv(states[i])
  {
    if i == 0 {
      StartInv(states[0].rest);
      assert states[0] == State(map[], states[0].rest);
    } else {
      RunInv(states, threads, i - 1);
      assert StepAt(states, threads, i - 1);
      StepKeepsInv(states[i - 1], threads[i - 1]);
    }
  }

  /** Deadlock freedom: a reachable state in which no thread can go on has all of them done and no lock held. */
  lemma NeverStuck(states: seq<State>, threads: seq<nat>, i: nat)
    requires IsRun(states, threads) && i < |states|
    ensures Halted(states[i]) ==> states[i].owner == map[] && AllDone(states[i])
  {
    RunInv(states, threads, i);
    var s := states[i];
    if t :| t in s.rest && s.rest[t] != [] {
      var chain := SomeoneCanStep(s, t);
      assert Enabled(s, chain[|chain| - 1]);
    } else {
      forall t | t in s.rest ensures HeldBy(s, t) == {} {
        assert ThreadOk(s, t);
      }
      assert forall l :: l in s.owner ==> l in HeldBy(s, s.owner[l]);
      assert s.owner == map[];
    }
  }

  // ---------- Threads that block themselves ----------

  /** A lock comes up to be taken while the thread itself holds it. */
  ghost predicate SelfBlocks(held: set<Lock>, ops: seq<Op>)
    decreases |ops|
  {
    ops != []
    && match ops[0]
       case Acquire(l) => l in held || SelfBlocks(held + {l}, ops[1..])
       case Release(l) => SelfBlocks(held - {l}, ops[1..])
  }

  /** Whatever any thread does, the lock still comes up. */
  lemma StepKeepsBlock(s: State, t: nat, u: nat)
    requires Enabled(s, u) && t in s.rest && SelfBlocks(HeldBy(s, t), s.rest[t])
    ensures t in Step(s, u).rest && SelfBlocks(HeldBy(Step(s, u), t), Step(s, u).rest[t])
  {
    var s', op := Step(s, u), s.rest[u][0];
    if t == u {
      assert HeldBy(s', t) == if op.Acquire? then HeldBy(s, t) + {op.lock} else HeldBy(s, t) - {op.lock};
      assert op.Acquire? ==> op.lock !in HeldBy(s, t);
    } else {
      assert HeldBy(s', t) == HeldBy(s, t);
    }
  }

  /** Such a thread is never done, in any run with any other threads. */
  lemma {:induction false} NeverDone(states: seq<State>, threads: seq<nat>, i: nat, t: nat)
    requires IsTrace(states, threads) && i < |states|
    requires t in states[0].rest && SelfBlocks({}, states[0].rest[t])
    ensures t in states[i].rest && SelfBlocks(HeldBy(states[i], t), states[i].rest[t])
  {
    if i == 0 {
      assert HeldBy(states[0], t) == {};
    } else {
      NeverDone(states, threads, i - 1, t);
      assert StepAt(states, threads, i - 1);
      StepKeepsBlock(states[i - 1], t, threads[i - 1]);
    }
  }

  function Length(ops: seq<Op>): nat {
    |ops|
  }

  /** Every run can be continued until no thread can go on. */
  lemma {:induction false} RunsToTheEnd(states: seq<State>, threads: seq<nat>)
      returns (states': seq<State>, threads': seq<nat>)
    requires IsTrace(states, threads)
    ensures IsTrace(states', threads') && states <= states' && threads <= threads' && Halted(states'[|threads'|])
    decreases Sum(states[|threads|].rest, Length)
  {
    var s := states[|threads|];
    if Halted(s) {
      states', threads' := states, threads;
    } else {
      var t :| Enabled(s, t);
      SumUpdate(s.rest, Length, t, s.rest[t][1..]);
      var longer, moves := states + [Step(s, t)], threads + [t];
      forall i | 0 <= i < |moves| ensures StepAt(longer, moves, i) {
        assert i < |threads| ==> StepAt(states, threads, i);
      }
      states', threads' := RunsToTheEnd(longer, moves);
    }
  }

  // ---------- Composing programs ----------

  /** `p` can run with `held` and gives back exactly what it takes. */
  ghost predicate Neutral(held: set<Lock>, p: seq<Op>) {
    Follow(held, p) == Holds(held)
  }

  /** `p` is neutral, or it blocks itself. */
  ghost predicate Balanced(held: set<Lock>, p: seq<Op>) {
    Neutral(held, p) || SelfBlocks(held, p)
  }

  /** `body` inside the critical section of `l`. */
  function With(l: Lock, body: seq<Op>): seq<Op> {
    [Acquire(l)] + (body + [Release(l)])
  }

  function Use(l: Lock): seq<Op> {
    With(l, [])
  }

  function Times(n: nat, p: seq<Op>): seq<Op> {
    if n == 0 then [] else p + Times(n - 1, p)
  }

  ghost predicate Below(held: set<Lock>, l: Lock) {
    forall h :: h in held ==> Rank(h) < Rank(l)
  }

  lemma {:induction false} FollowAppend(held: set<Lock>, p: seq<Op>, q: seq<Op>)
    ensures Follow(held, p + q) == match Follow(held, p) case Broken => Broken case Holds(h) => Follow(h, q)
    decreases |p|
  {
    if p == [] {
      assert p + q == q;
    } else {
      assert (p + q)[0] == p[0] && (p + q)[1..] == p[1..] + q;
      match p[0]
      case Acquire(l) => FollowAppend(held + {l}, p[1..], q);
      case Release(l) => FollowAppend(held - {l}, p[1..], q);
    }
  }

  lemma {:induction false} BlocksAppend(held: set<Lock>, p: seq<Op>, q: seq<Op>)
    ensures SelfBlocks(held, p) ==> SelfBlocks(held, p + q) && Follow(held, p) == Broken
    ensures Follow(held, p).Holds? && SelfBlocks(Follow(held, p).held, q) ==> SelfBlocks(held, p + q)
    decreases |p|
  {
    if p == [] {
      assert p + q == q;
    } else {
      assert (p + q)[0] == p[0] && (p + q)[1..] == p[1..] + q;
      match p[0]
      case Acquire(l) => BlocksAppend(held + {l}, p[1..], q);
      case Release(l) => BlocksAppend(held - {l}, p[1..], q);
    }
  }

  lemma SeqRule(held: set<Lock>, p: seq<Op>, q: seq<Op>)
    requires Balanced(held, p) && Balanced(held, q)
    ensures Balanced(held, p + q)
    ensures Neutral(held, p + q) <==> Neutral(held, p) && Neutral(held, q)
  {
    FollowAppend(held, p, q);
    BlocksAppend(held, p, q);
    BlocksAppend(held, q, []);
  }

  lemma WithRule(held: set<Lock>, l: Lock, body: seq<Op>)
    requires Below(held, l) || l in held
    requires Balanced(held + {l}, body)
    ensures Balanced(held, With(l, body))
    ensures Neutral(held, With(l, body)) <==> Below(held, l) && Neutral(held + {l}, body)
  {
    var rest := body + [Release(l)];
    assert With(l, body)[0] == Acquire(l) && With(l, body)[1..] == rest;
    FollowAppend(held + {l}, body, [Release(l)]);
    BlocksAppend(held + {l}, body, [Release(l)]);
    if Below(held, l) {
      assert l !in held;
      assert held + {l} - {l} == held;
    }
  }

  lemma UseRule(held: set<Lock>, l: Lock)
    requires Below(held, l) || l in held
    ensures Balanced(held, Use(l))
    ensures Neutral(held, Use(l)) <==> Below(held, l)
  {
    WithRule(held, l, []);
  }

  lemma {:induction false} TimesRule(held: set<Lock>, n: nat, p: seq<Op>)
    requires Neutral(held, p)
    ensures Neutral(held, Times(n, p))
  {
    if n > 0 {
      TimesRule(held, n - 1, p);
      SeqRule(held, p, Times(n - 1, p));
    }
  }
}
