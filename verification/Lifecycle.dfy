/**
  * The server's shared maps under every interleaving of the server thread with any number of
  * application threads (src/server.rs `server_loop`, src/ffi.rs `dtp_accept` and `dtp_close`).
  *
  * A step is what one thread does under one lock. A connection object is named by its position in
  * `conns`, so an id that comes back after collection names a later generation.
  */
module Lifecycle {
  import opened Bytes
  import opened Retry
  import opened Routing

  datatype ClientStatus = NotConnected | Connected | Accepted | Close | Wait

  /** `sid` is the id given to `quiche::accept`; `closed` is what `is_closed` reports. */
  datatype Connection = Connection(sid: Id, odcid: Id, closed: bool)

  datatype Entry = Entry(conn: nat, status: ClientStatus)

  /** Where the server thread is: in its read loop, between its two inserts, or inside `retain`. */
  datatype ServerPc = Reading | Inserted(id: Id, conn: nat) | Sweeping(todo: set<Id>) | Crashed

  /** Where the owner of a handle is inside `dtp_close`; `Held` is outside of it. */
  datatype ClosePc = Held | SawClosed | Marked

  /** The part of a server-side `DtpConnection` that `dtp_close` uses. */
  datatype Handle = Handle(id: Id, conn: nat, pc: ClosePc)

  /** `handles` are the boxes given out by `dtp_accept` and not yet freed; `issued` counts all of them. */
  datatype State = State(
    conns: seq<Connection>,
    clients: map<Id, nat>,
    status: map<Id, Entry>,
    server: ServerPc,
    handles: map<nat, Handle>,
    issued: nat)

  const INIT := State([], map[], map[], Reading, map[], 0)

  datatype Label =
    | Packet(hdr: Header, from: SocketAddr)  // one packet, up to and including clients.insert
    | Publish                                // client_status.insert
    | BeginSweep                             // take the shared lock for garbage collection
    | Sweep(key: Id)                         // the retain closure on one entry
    | EndSweep                               // release the shared lock
    | Closes(conn: nat)                      // quiche: the connection becomes closed
    | Accept(id: Id)                         // the scan of dtp_accept stops at this entry
    | CloseCheck(h: nat)                     // dtp_close reads is_closed
    | CloseMark(h: nat)                      // dtp_close sets ClientStatus::Close
    | CloseFree(h: nat)                      // dtp_close frees the box

  /** The application can take the shared lock. */
  predicate SharedFree(s: State) {
    !s.server.Sweeping?
  }

  predicate Enabled(s: State, l: Label) {
    match l
    case Packet(_, _) => s.server.Reading?
    case Publish => s.server.Inserted?
    case BeginSweep => s.server.Reading?
    case Sweep(key) => s.server.Sweeping? && key in s.server.todo && key in s.clients && s.clients[key] < |s.conns|
    case EndSweep => s.server == Sweeping({})
    case Closes(conn) => conn < |s.conns|
    case Accept(id) => SharedFree(s) && id in s.status && s.status[id].status == Connected
    case CloseCheck(h) => h in s.handles && s.handles[h].pc == Held && s.handles[h].conn < |s.conns|
    case CloseMark(h) => SharedFree(s) && h in s.handles && s.handles[h].pc == SawClosed
    case CloseFree(h) => h in s.handles && s.handles[h].pc == Marked
  }

  /** `quiche::accept` makes the next connection object; clients.insert stores it. */
  function Created(s: State, id: Id, odcid: Id): State {
    s.(conns := s.conns + [Connection(id, odcid, false)],
       clients := s.clients[id := |s.conns|],
       server := Inserted(id, |s.conns|))
  }

  function Apply(mac: Mac, s: State, l: Label): State
    requires Enabled(s, l)
  {
    match l
    case Packet(hdr, from) =>
      (match Dispatch(mac, s.clients.Keys, hdr, from)
       case Create(id, odcid) => Created(s, id, odcid)
       case _ => s)
    case Publish =>
      s.(status := s.status[s.server.id := Entry(s.server.conn, Connected)], server := Reading)
    case BeginSweep => s.(server := Sweeping(s.clients.Keys))
    case Sweep(key) =>
      var c := s.conns[s.clients[key]];
      var todo := s.server.todo - {key};
      if c.sid !in s.status then s.(server := Crashed)
      else if c.closed && s.status[c.sid].status == Close then
        s.(clients := s.clients - {key}, server := Sweeping(todo))
      else s.(server := Sweeping(todo))
    case EndSweep => s.(server := Reading)
    case Closes(conn) => s.(conns := s.conns[conn := s.conns[conn].(closed := true)])
    case Accept(id) =>
      s.(status := s.status[id := s.status[id].(status := Accepted)],
         handles := s.handles[s.issued := Handle(id, s.status[id].conn, Held)],
         issued := s.issued + 1)
    case CloseCheck(h) =>
      if s.conns[s.handles[h].conn].closed
      then s.(handles := s.handles[h := s.handles[h].(pc := SawClosed)])
      else s
    case CloseMark(h) =>
      var id := s.handles[h].id;
      var marked := s.(handles := s.handles[h := s.handles[h].(pc := Marked)]);
      if id in s.status
      then marked.(status := s.status[id := s.status[id].(status := Close)])
      else marked
    case CloseFree(h) => s.(handles := s.handles - {h})
  }

  // ---------- The inductive invariant ----------
  // Its parts are stated over the components they read, so that a step keeps the others for free,
  // and one key or handle at a time, so that a proof names the ones it uses.

  /** What both maps hold about one id. */
  ghost predicate KeyOk(mac: Mac, conns: seq<Connection>, clients: map<Id, nat>, status: map<Id, Entry>,
                        server: ServerPc, k: Id)
  {
    // A client is an existing connection with this source id, of full length.
    && (k in clients ==> clients[k] < |conns| && conns[clients[k]].sid == k && |k| == MAX_CONN_ID_LEN)
    // So is the connection of an entry; only closed ones are marked Close, and two statuses are unused.
    && (k in status ==>
          && status[k].conn < |conns| && conns[status[k].conn].sid == k
          && !status[k].status.NotConnected? && !status[k].status.Wait?
          && (status[k].status == Close ==> conns[status[k].conn].closed))
    // A client is published under the same connection object, except between the two inserts.
    && (k in clients && server != Inserted(k, clients[k]) ==> k in status && status[k].conn == clients[k])
    // An entry whose connection is not a client is marked Close.
    && (k in status && (k !in clients || clients[k] != status[k].conn) ==> status[k].status == Close)
    // A live id is older than the live hash of it.
    && (k in clients && mac(k) in clients && mac(k) != k ==> clients[k] < clients[mac(k)])
  }

  ghost predicate KeysOk(mac: Mac, conns: seq<Connection>, clients: map<Id, nat>, status: map<Id, Entry>,
                         server: ServerPc)
  {
    forall k :: KeyOk(mac, conns, clients, status, server, k)
  }

  ghost predicate PcOk(clients: map<Id, nat>, status: map<Id, Entry>, server: ServerPc) {
    match server
    case Reading => true
    case Inserted(id, conn) =>
      id in clients && clients[id] == conn && (id in status ==> status[id].conn != conn)
    case Sweeping(todo) => todo <= clients.Keys
    case Crashed => false
  }

  ghost predicate Unreleased(handles: map<nat, Handle>, h: nat) {
    h in handles && handles[h].pc != Marked
  }

  /** A handle names an existing connection, closed once `dtp_close` has seen it so ... */
  ghost predicate HandleRef(conns: seq<Connection>, handles: map<nat, Handle>, issued: nat, h: nat) {
    h in handles ==>
      && h < issued && handles[h].conn < |conns| && conns[handles[h].conn].sid == handles[h].id
      && (handles[h].pc != Held ==> conns[handles[h].conn].closed)
  }

  ghost predicate HandleRefs(conns: seq<Connection>, handles: map<nat, Handle>, issued: nat) {
    forall h :: HandleRef(conns, handles, issued, h)
  }

  /** ... and until it is released its entry is `Accepted` and holds the handle's own connection object. */
  ghost predicate HandleEntry(status: map<Id, Entry>, handles: map<nat, Handle>, h: nat) {
    Unreleased(handles, h) ==>
      handles[h].id in status && status[handles[h].id] == Entry(handles[h].conn, Accepted)
  }

  ghost predicate HandleEntries(status: map<Id, Entry>, handles: map<nat, Handle>) {
    forall h :: HandleEntry(status, handles, h)
  }

  /** No two unreleased handles are for one id. */
  ghost predicate Apart(handles: map<nat, Handle>, h: nat, i: nat) {
    Unreleased(handles, h) && Unreleased(handles, i) && handles[h].id == handles[i].id ==> h == i
  }

  ghost predicate AllApart(handles: map<nat, Handle>) {
    forall h, i :: Apart(handles, h, i)
  }

  ghost predicate Inv(mac: Mac, s: State) {
    && PcOk(s.clients, s.status, s.server)
    && KeysOk(mac, s.conns, s.clients, s.status, s.server)
    && HandleRefs(s.conns, s.handles, s.issued)
    && HandleEntries(s.status, s.handles)
    && AllApart(s.handles)
  }

  ghost predicate KeyInv(mac: Mac, s: State, k: Id) {
    KeyOk(mac, s.conns, s.clients, s.status, s.server, k)
  }

  /** The invariant for one handle and the key it names. */
  ghost predicate HandleInv(mac: Mac, s: State, h: nat) {
    && HandleRef(s.conns, s.handles, s.issued, h)
    && HandleEntry(s.status, s.handles, h)
    && (h in s.handles ==> KeyInv(mac, s, s.handles[h].id))
  }

  // ---------- Every step keeps it ----------

  lemma CreateKeepsInv(mac: Mac, s: State, id: Id, odcid: Id)
    requires Inv(mac, s) && s.server.Reading?
    requires id !in s.clients && mac(id) !in s.clients && |id| == MAX_CONN_ID_LEN
    ensures Inv(mac, Created(s, id, odcid))
  {
    var t := Created(s, id, odcid);
    assert KeyInv(mac, s, id);
    forall k ensures KeyOk(mac, t.conns, t.clients, t.status, t.server, k) {
      assert KeyInv(mac, s, k) && KeyInv(mac, s, mac(k));
    }
    forall h ensures HandleRef(t.conns, t.handles, t.issued, h) {
      assert HandleRef(s.conns, s.handles, s.issued, h);
    }
  }

  lemma PublishKeepsInv(mac: Mac, s: State)
    requires Inv(mac, s) && Enabled(s, Publish)
    ensures Inv(mac, Apply(mac, s, Publish))
  {
    var t := Apply(mac, s, Publish);
    assert KeyInv(mac, s, s.server.id);
    forall k ensures KeyOk(mac, t.conns, t.clients, t.status, t.server, k) {
      assert KeyInv(mac, s, k);
    }
    forall h ensures HandleEntry(t.status, t.handles, h) {
      assert HandleEntry(s.status, s.handles, h);
    }
  }

  lemma SweepKeepsInv(mac: Mac, s: State, l: Label)
    requires l.BeginSweep? || l.Sweep? || l.EndSweep?
    requires Inv(mac, s) && Enabled(s, l)
    ensures Inv(mac, Apply(mac, s, l))
  {
    var t := Apply(mac, s, l);
    if l.Sweep? {
      assert KeyInv(mac, s, l.key);
    }
    forall k ensures KeyOk(mac, t.conns, t.clients, t.status, t.server, k) {
      assert KeyInv(mac, s, k);
    }
  }

  lemma ClosesKeepsInv(mac: Mac, s: State, conn: nat)
    requires Inv(mac, s) && Enabled(s, Closes(conn))
    ensures Inv(mac, Apply(mac, s, Closes(conn)))
  {
    var t := Apply(mac, s, Closes(conn));
    forall k ensures KeyOk(mac, t.conns, t.clients, t.status, t.server, k) {
      assert KeyInv(mac, s, k);
    }
    forall h ensures HandleRef(t.conns, t.handles, t.issued, h) {
      assert HandleRef(s.conns, s.handles, s.issued, h);
    }
  }

  /** Both marking steps rewrite the status of an entry in use. */
  lemma RestatusKeepsKeys(mac: Mac, s: State, k: Id, st: ClientStatus)
    requires Inv(mac, s) && k in s.status && s.status[k].status != Close && s.status[k].conn < |s.conns|
    requires st == Accepted || (st == Close && s.conns[s.status[k].conn].closed)
    ensures var status' := s.status[k := s.status[k].(status := st)];
            PcOk(s.clients, status', s.server) && KeysOk(mac, s.conns, s.clients, status', s.server)
  {
    var status' := s.status[k := s.status[k].(status := st)];
    assert KeyInv(mac, s, k);
    forall j ensures KeyOk(mac, s.conns, s.clients, status', s.server, j) {
      assert KeyInv(mac, s, j);
    }
  }

  lemma AcceptKeepsInv(mac: Mac, s: State, id: Id)
    requires Inv(mac, s) && Enabled(s, Accept(id))
    ensures Inv(mac, Apply(mac, s, Accept(id)))
  {
    var t := Apply(mac, s, Accept(id));
    assert KeyInv(mac, s, id);
    RestatusKeepsKeys(mac, s, id, Accepted);
    assert HandleInv(mac, s, s.issued);
    forall h ensures HandleRef(t.conns, t.handles, t.issued, h) && HandleEntry(t.status, t.handles, h) {
      assert HandleInv(mac, s, h);
    }
    forall h, i ensures Apart(t.handles, h, i) {
      assert Apart(s.handles, h, i) && HandleInv(mac, s, h) && HandleInv(mac, s, i);
    }
  }

  lemma CheckKeepsInv(mac: Mac, s: State, h: nat)
    requires Inv(mac, s) && Enabled(s, CloseCheck(h))
    ensures Inv(mac, Apply(mac, s, CloseCheck(h)))
  {
    var t := Apply(mac, s, CloseCheck(h));
    forall i ensures HandleRef(t.conns, t.handles, t.issued, i) && HandleEntry(t.status, t.handles, i) {
      assert HandleRef(s.conns, s.handles, s.issued, i) && HandleEntry(s.status, s.handles, i);
    }
    forall i, j ensures Apart(t.handles, i, j) {
      assert Apart(s.handles, i, j);
    }
  }

  lemma MarkKeepsInv(mac: Mac, s: State, h: nat)
    requires Inv(mac, s) && Enabled(s, CloseMark(h))
    ensures Inv(mac, Apply(mac, s, CloseMark(h)))
  {
    var t := Apply(mac, s, CloseMark(h));
    assert HandleInv(mac, s, h) && Unreleased(s.handles, h);
    RestatusKeepsKeys(mac, s, s.handles[h].id, Close);
    forall i ensures HandleRef(t.conns, t.handles, t.issued, i) && HandleEntry(t.status, t.handles, i) {
      assert HandleRef(s.conns, s.handles, s.issued, i) && HandleEntry(s.status, s.handles, i);
      assert Apart(s.handles, h, i);
    }
    forall i, j ensures Apart(t.handles, i, j) {
      assert Apart(s.handles, i, j);
    }
  }

  lemma FreeKeepsInv(mac: Mac, s: State, h: nat)
    requires Inv(mac, s) && Enabled(s, CloseFree(h))
    ensures Inv(mac, Apply(mac, s, CloseFree(h)))
  {
    var t := Apply(mac, s, CloseFree(h));
    forall i ensures HandleRef(t.conns, t.handles, t.issued, i) && HandleEntry(t.status, t.handles, i) {
      assert HandleRef(s.conns, s.handles, s.issued, i) && HandleEntry(s.status, s.handles, i);
    }
    forall i, j ensures Apart(t.handles, i, j) {
      assert Apart(s.handles, i, j);
    }
  }

  /** Every step keeps the invariant; in particular no step reaches `unreachable!()`. */
  lemma StepKeepsInv(mac: Mac, s: State, l: Label)
    requires Inv(mac, s) && Enabled(s, l)
    ensures Inv(mac, Apply(mac, s, l))
  {
    match l
    case Packet(hdr, from) =>
      var action := Dispatch(mac, s.clients.Keys, hdr, from);
      if action.Create? {
        CreateKeepsInv(mac, s, action.id, action.odcid);
      }
    case Publish => PublishKeepsInv(mac, s);
    case BeginSweep => SweepKeepsInv(mac, s, l);
    case Sweep(_) => SweepKeepsInv(mac, s, l);
    case EndSweep => SweepKeepsInv(mac, s, l);
    case Closes(conn) => ClosesKeepsInv(mac, s, conn);
    case Accept(id) => AcceptKeepsInv(mac, s, id);
    case CloseCheck(h) => CheckKeepsInv(mac, s, h);
    case CloseMark(h) => MarkKeepsInv(mac, s, h);
    case CloseFree(h) => FreeKeepsInv(mac, s, h);
  }

  // ---------- Accepted entries and handles correspond one to one ----------

  ghost predicate HasHandle(handles: map<nat, Handle>, k: Id) {
    exists h :: Unreleased(handles, h) && handles[h].id == k
  }

  /** With `HandleEntries` and `AllApart`: unreleased handles and accepted entries correspond one to one. */
  ghost predicate AcceptedHeld(status: map<Id, Entry>, handles: map<nat, Handle>) {
    forall k :: k in status && status[k].status == Accepted ==> HasHandle(handles, k)
  }

  lemma KeepsHandle(handles: map<nat, Handle>, handles': map<nat, Handle>, k: Id)
    requires HasHandle(handles, k)
    requires forall h :: Unreleased(handles, h) && handles[h].id == k ==> Unreleased(handles', h) && handles'[h].id == k
    ensures HasHandle(handles', k)
  {
    var h :| Unreleased(handles, h) && handles[h].id == k;
    assert Unreleased(handles', h);
  }

  lemma AcceptKeepsHeld(status: map<Id, Entry>, handles: map<nat, Handle>, issued: nat, k: Id)
    requires AcceptedHeld(status, handles) && issued !in handles && k in status
    ensures AcceptedHeld(status[k := status[k].(status := Accepted)],
                         handles[issued := Handle(k, status[k].conn, Held)])
  {
    var handles' := handles[issued := Handle(k, status[k].conn, Held)];
    forall j | j in status && status[j].status == Accepted && j != k ensures HasHandle(handles', j) {
      KeepsHandle(handles, handles', j);
    }
    assert Unreleased(handles', issued);
  }

  lemma PcKeepsHeld(status: map<Id, Entry>, handles: map<nat, Handle>, h: nat, pc: ClosePc)
    requires AcceptedHeld(status, handles) && Unreleased(handles, h)
    ensures var handles' := handles[h := handles[h].(pc := pc)];
            && (pc != Marked ==> AcceptedHeld(status, handles'))
            && (pc == Marked ==> AcceptedHeld(status[handles[h].id := Entry(handles[h].conn, Close)], handles'))
  {
    var handles' := handles[h := handles[h].(pc := pc)];
    forall j | j in status && status[j].status == Accepted && (pc == Marked ==> j != handles[h].id)
      ensures HasHandle(handles', j)
    {
      KeepsHandle(handles, handles', j);
    }
  }

  lemma FreeKeepsHeld(status: map<Id, Entry>, handles: map<nat, Handle>, h: nat)
    requires AcceptedHeld(status, handles) && !Unreleased(handles, h)
    ensures AcceptedHeld(status, handles - {h})
  {
    forall j | j in status && status[j].status == Accepted ensures HasHandle(handles - {h}, j) {
      KeepsHandle(handles, handles - {h}, j);
    }
  }

  /** No step drops the handle of an accepted connection without marking its entry. */
  lemma StepKeepsHeld(mac: Mac, s: State, l: Label)
    requires Inv(mac, s) && Enabled(s, l) && AcceptedHeld(s.status, s.handles)
    ensures AcceptedHeld(Apply(mac, s, l).status, Apply(mac, s, l).handles)
  {
    match l
    case Accept(id) =>
      assert HandleInv(mac, s, s.issued);
      AcceptKeepsHeld(s.status, s.handles, s.issued, id);
    case CloseCheck(h) =>
      assert Unreleased(s.handles, h);
      PcKeepsHeld(s.status, s.handles, h, SawClosed);
    case CloseMark(h) =>
      assert HandleInv(mac, s, h) && Unreleased(s.handles, h);
      PcKeepsHeld(s.status, s.handles, h, Marked);
      assert s.status[s.handles[h].id].(status := Close) == Entry(s.handles[h].conn, Close);
    case CloseFree(h) => FreeKeepsHeld(s.status, s.handles, h);
    case _ =>
  }
}
