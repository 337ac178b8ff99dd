/** Theorems about whole runs of the server's maps. */
module LifecycleRuns {
  import opened Bytes
  import opened Retry
  import opened Routing
  import opened Lifecycle

  datatype Run = Run(states: seq<State>, labels: seq<Label>)

  ghost predicate StepAt(mac: Mac, r: Run, i: nat)
    requires i < |r.labels| < |r.states|
  {
    Enabled(r.states[i], r.labels[i]) && r.states[i + 1] == Apply(mac, r.states[i], r.labels[i])
  }

  ghost predicate IsRun(mac: Mac, r: Run) {
    && |r.states| == |r.labels| + 1
    && r.states[0] == INIT
    && forall i :: 0 <= i < |r.labels| ==> StepAt(mac, r, i)
  }

  lemma {:induction false} RunInv(mac: Mac, r: Run, i: nat)
    requires IsRun(mac, r) && i < |r.states|
    ensures Inv(mac, r.states[i]) && AcceptedHeld(r.states[i].status, r.states[i].handles)
  {
    if i > 0 {
      RunInv(mac, r, i - 1);
      assert StepAt(mac, r, i - 1);
      StepKeepsInv(mac, r.states[i - 1], r.labels[i - 1]);
      StepKeepsHeld(mac, r.states[i - 1], r.labels[i - 1]);
    }
  }

  // ---------- Every generation goes through one life ----------

  /** The life of one connection object, as the maps show it. */
  datatype Phase = Unborn | Fresh | Pending | Taken | Released | Collected {
    function Rank(): nat {
      match this
      case Unborn => 0
      case Fresh => 1
      case Pending => 2
      case Taken => 3
      case Released => 4
      case Collected => 5
    }
  }

  function PhaseIn(conns: seq<Connection>, clients: map<Id, nat>, status: map<Id, Entry>, g: nat): Phase {
    if g >= |conns| then Unborn
    else
      var k := conns[g].sid;
      if k !in clients || clients[k] != g then Collected
      else if k !in status || status[k].conn != g then Fresh
      else if status[k].status == Accepted then Taken
      else if status[k].status == Close then Released
      else Pending
  }

  function PhaseOf(s: State, g: nat): Phase {
    PhaseIn(s.conns, s.clients, s.status, g)
  }

  /** The phase a label ends for the generation it concerns, if it ends one. */
  function Ends(mac: Mac, s: State, l: Label, g: nat): Option<Phase>
    requires Enabled(s, l)
  {
    match l
    case Packet(hdr, from) =>
      if Dispatch(mac, s.clients.Keys, hdr, from).Create? && g == |s.conns| then Some(Unborn) else None
    case Publish => if g == s.server.conn then Some(Fresh) else None
    case Accept(id) => if g == s.status[id].conn then Some(Pending) else None
    case CloseMark(h) => if g == s.handles[h].conn then Some(Taken) else None
    case Sweep(key) =>
      var c := s.clients[key];
      if g == c && key in s.status && s.status[key].status == Close && s.conns[c].closed then Some(Released) else None
    case _ => None
  }

  ghost predicate Refines(mac: Mac, s: State, l: Label, g: nat)
    requires Enabled(s, l)
  {
    var t := Apply(mac, s, l);
    match Ends(mac, s, l, g)
    case None => PhaseOf(t, g) == PhaseOf(s, g)
    case Some(p) => PhaseOf(s, g) == p && PhaseOf(t, g).Rank() == p.Rank() + 1
  }

  function SidOf(s: State, g: nat): Id {
    if g < |s.conns| then s.conns[g].sid else []
  }

  lemma CreateRefines(mac: Mac, s: State, hdr: Header, from: SocketAddr, g: nat)
    requires Inv(mac, s) && Enabled(s, Packet(hdr, from))
    ensures Refines(mac, s, Packet(hdr, from), g)
  {
    assert KeyInv(mac, s, SidOf(s, g)) && KeyInv(mac, s, hdr.dcid);
  }

  lemma PublishRefines(mac: Mac, s: State, g: nat)
    requires Inv(mac, s) && Enabled(s, Publish)
    ensures Refines(mac, s, Publish, g)
  {
    assert KeyInv(mac, s, SidOf(s, g)) && KeyInv(mac, s, s.server.id);
  }

  lemma SweepRefines(mac: Mac, s: State, key: Id, g: nat)
    requires Inv(mac, s) && Enabled(s, Sweep(key))
    ensures Refines(mac, s, Sweep(key), g)
  {
    assert KeyInv(mac, s, key) && KeyInv(mac, s, SidOf(s, g));
  }

  lemma AcceptRefines(mac: Mac, s: State, id: Id, g: nat)
    requires Inv(mac, s) && Enabled(s, Accept(id))
    ensures Refines(mac, s, Accept(id), g)
  {
    assert KeyInv(mac, s, SidOf(s, g)) && KeyInv(mac, s, id);
  }

  lemma MarkRefines(mac: Mac, s: State, h: nat, g: nat)
    requires Inv(mac, s) && Enabled(s, CloseMark(h))
    ensures Refines(mac, s, CloseMark(h), g)
  {
    assert KeyInv(mac, s, SidOf(s, g)) && HandleInv(mac, s, h) && Unreleased(s.handles, h);
  }

  /** Refinement: a step moves a generation exactly one phase on, exactly when it ends its current phase. */
  lemma StepRefines(mac: Mac, s: State, l: Label, g: nat)
    requires Inv(mac, s) && Enabled(s, l)
    ensures Refines(mac, s, l, g)
  {
    match l
    case Packet(hdr, from) => CreateRefines(mac, s, hdr, from, g);
    case Publish => PublishRefines(mac, s, g);
    case Sweep(key) => SweepRefines(mac, s, key, g);
    case Accept(id) => AcceptRefines(mac, s, id, g);
    case CloseMark(h) => MarkRefines(mac, s, h, g);
    case _ =>
  }

  lemma RunRefines(mac: Mac, r: Run, i: nat, g: nat)
    requires IsRun(mac, r) && i < |r.labels|
    ensures Enabled(r.states[i], r.labels[i])
    ensures match Ends(mac, r.states[i], r.labels[i], g)
            case None => PhaseOf(r.states[i + 1], g) == PhaseOf(r.states[i], g)
            case Some(p) => PhaseOf(r.states[i], g) == p && PhaseOf(r.states[i + 1], g).Rank() == p.Rank() + 1
  {
    RunInv(mac, r, i);
    assert StepAt(mac, r, i);
    StepRefines(mac, r.states[i], r.labels[i], g);
  }

  lemma RunRank(mac: Mac, r: Run, i: nat, g: nat)
    requires IsRun(mac, r) && i < |r.labels|
    ensures PhaseOf(r.states[i], g).Rank() <= PhaseOf(r.states[i + 1], g).Rank()
  {
    RunRefines(mac, r, i, g);
  }

  lemma {:induction false} PhasesNeverGoBack(mac: Mac, r: Run, g: nat, i: nat, j: nat)
    requires IsRun(mac, r) && i <= j < |r.states|
    ensures PhaseOf(r.states[i], g).Rank() <= PhaseOf(r.states[j], g).Rank()
  {
    if i < j {
      PhasesNeverGoBack(mac, r, g, i, j - 1);
      RunRank(mac, r, j - 1, g);
    }
  }

  ghost predicate EndsAt(mac: Mac, r: Run, g: nat, i: nat, p: Phase) {
    && i < |r.labels| < |r.states|
    && Enabled(r.states[i], r.labels[i]) && Ends(mac, r.states[i], r.labels[i], g) == Some(p)
  }

  /** No phase ends twice: a generation is published, accepted, released and collected at most once each. */
  lemma EachPhaseEndsOnce(mac: Mac, r: Run, g: nat, i: nat, j: nat, p: Phase)
    requires IsRun(mac, r) && EndsAt(mac, r, g, i, p) && EndsAt(mac, r, g, j, p)
    ensures i == j
  {
    var a, b := if i < j then i else j, if i < j then j else i;
    RunRefines(mac, r, a, g);
    RunRefines(mac, r, b, g);
    if a < b {
      PhasesNeverGoBack(mac, r, g, a + 1, b);
    }
  }

  /** A generation beyond phase `p` has ended `p` before. */
  lemma {:induction false} PhaseWasEnded(mac: Mac, r: Run, g: nat, j: nat, p: Phase) returns (i: nat)
    requires IsRun(mac, r) && j < |r.states| && p.Rank() < PhaseOf(r.states[j], g).Rank()
    ensures i < j && EndsAt(mac, r, g, i, p)
  {
    RunRefines(mac, r, j - 1, g);
    if p.Rank() < PhaseOf(r.states[j - 1], g).Rank() {
      i := PhaseWasEnded(mac, r, g, j - 1, p);
    } else {
      i := j - 1;
    }
  }

  ghost predicate LabelEnds(l: Label, p: Phase) {
    match p
    case Unborn => l.Packet?
    case Fresh => l.Publish?
    case Pending => l.Accept?
    case Taken => l.CloseMark?
    case Released => l.Sweep?
    case Collected => false
  }

  /** Label `i` is the one step at which generation `g` ends phase `p`, and it is of the right kind. */
  ghost predicate Ended(mac: Mac, r: Run, g: nat, i: nat, p: Phase) {
    EndsAt(mac, r, g, i, p) && LabelEnds(r.labels[i], p) && PhaseOf(r.states[i], g) == p
  }

  lemma WasEnded(mac: Mac, r: Run, g: nat, j: nat, p: Phase) returns (i: nat)
    requires IsRun(mac, r) && j < |r.states| && p.Rank() < PhaseOf(r.states[j], g).Rank()
    ensures i < j && Ended(mac, r, g, i, p)
  {
    i := PhaseWasEnded(mac, r, g, j, p);
    RunRefines(mac, r, i, g);
  }

  ghost predicate HandsOut(r: Run, i: nat, g: nat) {
    && i < |r.labels| < |r.states| && r.labels[i].Accept?
    && r.labels[i].id in r.states[i].status && r.states[i].status[r.labels[i].id].conn == g
  }

  /** Two accepts, by any two threads, never hand out the same connection object. */
  lemma AcceptedOnce(mac: Mac, r: Run, g: nat, i: nat, j: nat)
    requires IsRun(mac, r) && HandsOut(r, i, g) && HandsOut(r, j, g)
    ensures i == j
  {
    assert StepAt(mac, r, i) && StepAt(mac, r, j);
    EachPhaseEndsOnce(mac, r, g, i, j, Pending);
  }

  lemma IssuedGrows(mac: Mac, s: State, l: Label)
    requires Enabled(s, l)
    ensures s.issued <= Apply(mac, s, l).issued
  {
  }

  lemma StepBox(mac: Mac, s: State, l: Label, h: nat)
    requires Enabled(s, l) && h in Apply(mac, s, l).handles
    ensures var conn := Apply(mac, s, l).handles[h].conn;
            if h in s.handles && !(l.Accept? && h == s.issued) then s.handles[h].conn == conn
            else l.Accept? && h == s.issued && s.status[l.id].conn == conn
  {
  }

  /** Every handle was made by an accept, for the connection object it still names. */
  lemma {:induction false} BoxCameFromAccept(mac: Mac, r: Run, j: nat, h: nat) returns (i: nat)
    requires IsRun(mac, r) && j < |r.states| && h in r.states[j].handles
    ensures i < j && HandsOut(r, i, r.states[j].handles[h].conn) && r.states[i].issued == h
  {
    assert StepAt(mac, r, j - 1);
    var s, l := r.states[j - 1], r.labels[j - 1];
    StepBox(mac, s, l, h);
    if h in s.handles && !(l.Accept? && h == s.issued) {
      i := BoxCameFromAccept(mac, r, j - 1, h);
    } else {
      i := j - 1;
    }
  }

  /** A box freed by `dtp_close` is gone for good. */
  lemma {:induction false} FreedBoxStaysFreed(mac: Mac, r: Run, i: nat, j: nat, h: nat)
    requires IsRun(mac, r) && i < j < |r.states| && r.labels[i] == CloseFree(h)
    ensures h < r.states[j].issued && h !in r.states[j].handles
  {
    assert StepAt(mac, r, j - 1);
    var s, l := r.states[j - 1], r.labels[j - 1];
    if j == i + 1 {
      RunInv(mac, r, i);
      assert HandleInv(mac, s, h);
    } else {
      FreedBoxStaysFreed(mac, r, i, j - 1, h);
      if h in r.states[j].handles {
        StepBox(mac, s, l, h);
      }
      IssuedGrows(mac, s, l);
    }
  }

  /** A generation is released through the very handle that its accept gave out. */
  lemma ReleasedByItsAccepter(mac: Mac, r: Run, g: nat, accepted: nat, marked: nat)
    requires IsRun(mac, r) && Ended(mac, r, g, accepted, Pending) && Ended(mac, r, g, marked, Taken)
    ensures r.labels[marked] == CloseMark(r.states[accepted].issued)
  {
    var h := r.labels[marked].h;
    assert StepAt(mac, r, marked) && StepAt(mac, r, accepted);
    var i := BoxCameFromAccept(mac, r, marked, h);
    AcceptedOnce(mac, r, g, i, accepted);
  }

  /**
    * Nothing is collected early: a generation gone from `clients` was, in this order, created,
    * published, handed out by one accept, marked through the handle given out then, and swept.
    */
  lemma CollectedHadItsLife(mac: Mac, r: Run, g: nat, j: nat)
      returns (created: nat, published: nat, accepted: nat, marked: nat, swept: nat)
    requires IsRun(mac, r) && j < |r.states| && PhaseOf(r.states[j], g) == Collected
    ensures created < published < accepted < marked < swept < j
    ensures Ended(mac, r, g, created, Unborn) && Ended(mac, r, g, published, Fresh)
    ensures Ended(mac, r, g, accepted, Pending) && Ended(mac, r, g, marked, Taken)
    ensures Ended(mac, r, g, swept, Released)
    ensures r.labels[marked] == CloseMark(r.states[accepted].issued)
  {
    swept := WasEnded(mac, r, g, j, Released);
    marked := WasEnded(mac, r, g, swept, Taken);
    accepted := WasEnded(mac, r, g, marked, Pending);
    published := WasEnded(mac, r, g, accepted, Fresh);
    created := WasEnded(mac, r, g, published, Unborn);
    ReleasedByItsAccepter(mac, r, g, accepted, marked);
  }

  // ---------- No stale handle ----------

  /**
    * When `dtp_close` marks through a handle, the entry found under its id is the handle's own
    * generation, still a client, accepted and closed; and no other generation changes phase.
    */
  lemma NoStaleHandle(mac: Mac, r: Run, i: nat)
    requires IsRun(mac, r) && i < |r.labels| && r.labels[i].CloseMark?
    ensures var s := r.states[i];
            && r.labels[i].h in s.handles
            && var h := s.handles[r.labels[i].h];
            && h.id in s.status && s.status[h.id] == Entry(h.conn, Accepted)
            && h.id in s.clients && s.clients[h.id] == h.conn
            && h.conn < |s.conns| && s.conns[h.conn].closed
            && forall g :: g != h.conn ==> PhaseOf(r.states[i + 1], g) == PhaseOf(s, g)
  {
    RunInv(mac, r, i);
    assert StepAt(mac, r, i);
    var s, l := r.states[i], r.labels[i];
    assert HandleInv(mac, s, l.h) && Unreleased(s.handles, l.h);
    forall g | g != s.handles[l.h].conn ensures PhaseOf(r.states[i + 1], g) == PhaseOf(s, g) {
      RunRefines(mac, r, i, g);
    }
  }

  /** In every reachable state: an entry is `Accepted` exactly when one handle, and only one, is yet to release it. */
  lemma AcceptedIffOneHandle(mac: Mac, r: Run, i: nat, k: Id)
    requires IsRun(mac, r) && i < |r.states| && k in r.states[i].status
    ensures var s := r.states[i];
            && (s.status[k].status == Accepted <==> HasHandle(s.handles, k))
            && forall h, j :: (Unreleased(s.handles, h) && Unreleased(s.handles, j)
                               && s.handles[h].id == k && s.handles[j].id == k) ==> h == j
  {
    RunInv(mac, r, i);
    var s := r.states[i];
    if HasHandle(s.handles, k) {
      var h :| Unreleased(s.handles, h) && s.handles[h].id == k;
      assert HandleInv(mac, s, h);
    }
    forall h, j | Unreleased(s.handles, h) && Unreleased(s.handles, j) && s.handles[h].id == k && s.handles[j].id == k
      ensures h == j
    {
      assert Apart(s.handles, h, j);
    }
  }

  /** Publishing over an existing entry replaces a closed, released generation that no handle can still mark. */
  lemma OverwritesBuryTheDead(mac: Mac, r: Run, i: nat)
    requires IsRun(mac, r) && i < |r.labels| && r.labels[i].Publish?
    ensures var s := r.states[i];
            s.server.Inserted? && (s.server.id in s.status ==>
              var old' := s.status[s.server.id];
              && old'.status == Close && old'.conn != s.server.conn
              && old'.conn < |s.conns| && s.conns[old'.conn].closed && PhaseOf(s, old'.conn) == Collected
              && forall h :: Unreleased(s.handles, h) ==> s.handles[h].id != s.server.id)
  {
    RunInv(mac, r, i);
    assert StepAt(mac, r, i);
    var s := r.states[i];
    assert KeyInv(mac, s, s.server.id);
    forall h | Unreleased(s.handles, h) ensures s.handles[h].id == s.server.id ==> s.server.id !in s.status {
      assert HandleInv(mac, s, h);
    }
  }

  /** The first packet of a client under `id`, from an address of no consequence. */
  function CreatingPacket(id: Id): Label {
    var from := SocketAddr(V4([0, 0, 0, 0]), 0);
    Packet(Header(Initial(Token([], from)), true, id, []), from)
  }

  lemma CreatesAgain(mac: Mac, s: State, id: Id)
    requires s.server.Reading? && s.clients == map[] && |id| == MAX_CONN_ID_LEN
    ensures Apply(mac, s, CreatingPacket(id)) == Created(s, id, [])
  {
    var l := CreatingPacket(id);
    CreateIff(mac, {}, l.hdr, l.from, id, []);
    assert s.clients.Keys == {};
  }

  function Last(r: Run): State
    requires r.states != []
  {
    r.states[|r.states| - 1]
  }

  lemma Extend(mac: Mac, r: Run, l: Label) returns (r': Run)
    requires IsRun(mac, r) && Enabled(Last(r), l)
    ensures IsRun(mac, r') && r'.states == r.states + [Apply(mac, Last(r), l)] && r'.labels == r.labels + [l]
  {
    r' := Run(r.states + [Apply(mac, Last(r), l)], r.labels + [l]);
    forall i | 0 <= i < |r'.labels| ensures StepAt(mac, r', i) {
      assert i < |r.labels| ==> StepAt(mac, r, i);
    }
  }

  lemma OpenedAndAccepted(mac: Mac, id: Id) returns (r: Run)
    requires |id| == MAX_CONN_ID_LEN
    ensures IsRun(mac, r) && r.labels == [CreatingPacket(id), Publish, Accept(id)]
    ensures r.states[1].server == Inserted(id, 0)
    ensures Last(r) == State([Connection(id, [], false)], map[id := 0], map[id := Entry(0, Accepted)], Reading,
                             map[0 := Handle(id, 0, Held)], 1)
  {
    CreatesAgain(mac, INIT, id);
    r := Extend(mac, Run([INIT], []), CreatingPacket(id));
    r := Extend(mac, r, Publish);
    r := Extend(mac, r, Accept(id));
  }

  lemma ClosedAndReleased(mac: Mac, id: Id) returns (r: Run)
    requires |id| == MAX_CONN_ID_LEN
    ensures IsRun(mac, r) && |r.labels| == 6 && r.labels[1] == Publish && r.states[1].server == Inserted(id, 0)
    ensures Last(r) == State([Connection(id, [], true)], map[id := 0], map[id := Entry(0, Close)], Reading,
                             map[0 := Handle(id, 0, Marked)], 1)
  {
    r := OpenedAndAccepted(mac, id);
    r := Extend(mac, r, Closes(0));
    assert Last(r).conns == [Connection(id, [], true)];
    r := Extend(mac, r, CloseCheck(0));
    r := Extend(mac, r, CloseMark(0));
  }

  lemma Swept(mac: Mac, id: Id) returns (r: Run)
    requires |id| == MAX_CONN_ID_LEN
    ensures IsRun(mac, r) && |r.labels| == 9 && r.labels[1] == Publish && r.states[1].server == Inserted(id, 0)
    ensures Last(r) == State([Connection(id, [], true)], map[], map[id := Entry(0, Close)], Reading,
                             map[0 := Handle(id, 0, Marked)], 1)
  {
    r := ClosedAndReleased(mac, id);
    r := Extend(mac, r, BeginSweep);
    assert Last(r).server == Sweeping({id});
    r := Extend(mac, r, Sweep(id));
    assert Last(r).clients == map[] && Last(r).server == Sweeping({});
    r := Extend(mac, r, EndSweep);
  }

  /** Overwriting does happen: any id can come back, over the entry of its collected first generation. */
  lemma IdComesBack(mac: Mac, id: Id) returns (r: Run)
    requires |id| == MAX_CONN_ID_LEN
    ensures IsRun(mac, r) && |r.labels| == 11 && r.labels[1] == r.labels[10] == Publish
    ensures r.states[1].server == Inserted(id, 0) && r.states[10].server == Inserted(id, 1)
    ensures r.states[10].status == map[id := Entry(0, Close)] && PhaseOf(r.states[10], 0) == Collected
    ensures r.states[11].status == map[id := Entry(1, Connected)]
  {
    r := Swept(mac, id);
    CreatesAgain(mac, Last(r), id);
    r := Extend(mac, r, CreatingPacket(id));
    r := Extend(mac, r, Publish);
  }
}
