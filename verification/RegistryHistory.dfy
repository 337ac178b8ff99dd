/**
  * The registry as its callers see it: what every call returns, told from the earlier calls and what
  * they returned, without the maps.
  */
module RegistryHistory {
  import opened Bytes
  import opened Ints
  import opened Registry
  import opened RegistryRuns

  /** What call number `i` returns. */
  function Answer(r: Run, i: nat): Result
    requires i < |r.labels| < |r.states|
  {
    if Enabled(r.states[i], r.labels[i]) then ResultOf(r.states[i], r.labels[i]) else Null
  }

  // ---------- What the first j calls amount to ----------

  function Sockets(r: Run, j: nat): nat
    requires j <= |r.labels|
  {
    if j == 0 then 0 else Sockets(r, j - 1) + if r.labels[j - 1].Socket? then 1 else 0
  }

  /** The descriptor has been returned, and not been closed since. */
  predicate Open(r: Run, j: nat, fd: int)
    requires j <= |r.labels| < |r.states|
  {
    j > 0
    && var l, answer := r.labels[j - 1], Answer(r, j - 1);
    if l == Socket && answer == Code(fd) then true
    else if l == SocketClose(fd) && answer == Code(0) then false
    else Open(r, j - 1, fd)
  }

  /** What the descriptor was bound to, with success. */
  function BoundTo(r: Run, j: nat, fd: int): Option<DtpServer>
    requires j <= |r.labels| < |r.states|
  {
    if j == 0 then None
    else
      match r.labels[j - 1]
      case Bind(sock, server) => if sock == fd && Answer(r, j - 1) == Code(1) then server else BoundTo(r, j - 1, fd)
      case _ => BoundTo(r, j - 1, fd)
  }

  /** A listen on the descriptor has succeeded. */
  predicate Listening(r: Run, j: nat, fd: int)
    requires j <= |r.labels| < |r.states|
  {
    j > 0
    && match r.labels[j - 1]
       case Listen(sock, _, _) => (sock == fd && Answer(r, j - 1).ServerConns?) || Listening(r, j - 1, fd)
       case _ => Listening(r, j - 1, fd)
  }

  /** How many connections have been given out. */
  function Connections(r: Run, j: nat): nat
    requires j <= |r.labels| < |r.states|
  {
    if j == 0 then 0 else Connections(r, j - 1) + if Answer(r, j - 1).ConnIo? then 1 else 0
  }

  /** The connection last given out for the descriptor, unless it has been joined since. */
  function ConnectedTo(r: Run, j: nat, fd: int): Option<nat>
    requires j <= |r.labels| < |r.states|
  {
    if j == 0 then None
    else
      var before := ConnectedTo(r, j - 1, fd);
      match r.labels[j - 1]
      case Connect(sock, _, _, _) =>
        if sock == fd && Answer(r, j - 1).ConnIo? then Some(Answer(r, j - 1).c) else before
      case CloseJoin(c) => if before == Some(c) then None else before
      case _ => before
  }

  // ---------- It is what the maps hold ----------

  lemma {:induction false} SocketsCounted(r: Run, j: nat)
    requires IsRun(r) && j <= |r.labels|
    ensures r.states[j].issued == Sockets(r, j) && r.states[j].nextFd == WrapI32(Sockets(r, j))
  {
    RunInv(r, j);
    if j > 0 {
      SocketsCounted(r, j - 1);
      assert StepAt(r, j - 1);
      IssuedStep(r.states[j - 1], r.labels[j - 1]);
    }
  }

  /** How one call changes which descriptors are known. */
  lemma KnownStep(s: State, l: Label, fd: int)
    requires Enabled(s, l)
    ensures fd in Apply(s, l).sockMap <==>
            (l.Socket? && s.nextFd == fd)
            || (fd in s.sockMap && !(l == SocketClose(fd) && ResultOf(s, l) == Code(0)))
  {
    match l
    case Bind(sock, server) =>
    case Connect(sock, hasConfig, socket, thread) =>
    case SocketClose(sock) =>
    case _ =>
  }

  lemma {:induction false} OpenIff(r: Run, j: nat, fd: int)
    requires IsRun(r) && j <= |r.labels|
    ensures Open(r, j, fd) <==> fd in r.states[j].sockMap
  {
    if j > 0 {
      OpenIff(r, j - 1, fd);
      assert StepAt(r, j - 1);
      KnownStep(r.states[j - 1], r.labels[j - 1], fd);
    }
  }

  /** The server maps hold what was bound, and say whether it runs. */
  ghost predicate ServerIs(s: State, fd: int, bound: Option<DtpServer>, listening: bool) {
    && (bound.Some? <==> HasServer(s.serverMap, s.serverHandles, fd))
    && (fd in s.serverMap ==> bound == Some(s.serverMap[fd]))
    && (listening <==> fd in s.serverHandles)
  }

  lemma {:induction false} ServersHeld(r: Run, j: nat, fd: int)
    requires IsRun(r) && j <= |r.labels|
    ensures ServerIs(r.states[j], fd, BoundTo(r, j, fd), Listening(r, j, fd))
  {
    if j > 0 {
      ServersHeld(r, j - 1, fd);
      var s, l := r.states[j - 1], r.labels[j - 1];
      assert StepAt(r, j - 1);
      RunInv(r, j - 1);
      assert FdOk(s, fd);
      match l
      case Bind(sock, server) =>
      case Listen(sock, config, thread) =>
      case _ => ServerFrame(s, l);
    }
  }

  /** A connected descriptor has its thread registered; a live connection is the last one of its descriptor. */
  ghost predicate ClientIs(s: State, fd: int, client: Option<nat>) {
    && (client.Some? <==> fd in s.clientHandles)
    && (client.Some? ==> client.value < s.made)
    && forall c :: c in s.conns && s.conns[c].sock == fd ==> client == Some(c)
  }

  lemma ConnectIs(s: State, sock: int, hasConfig: bool, socket: nat, thread: nat, fd: int, client: Option<nat>)
    requires FdOk(s, fd) && ClientIs(s, fd, client)
    ensures var l := Connect(sock, hasConfig, socket, thread);
            ClientIs(Apply(s, l), fd, if sock == fd && ResultOf(s, l).ConnIo? then Some(s.made) else client)
  {
  }

  lemma CheckIs(s: State, c: nat, closed: bool, established: bool, fd: int, client: Option<nat>)
    requires Enabled(s, CloseCheck(c, closed, established)) && ClientIs(s, fd, client)
    ensures ClientIs(Apply(s, CloseCheck(c, closed, established)), fd, client)
  {
  }

  lemma JoinIs(s: State, c: nat, fd: int, client: Option<nat>)
    requires Enabled(s, CloseJoin(c)) && ClientIs(s, fd, client)
    requires ConnOk(s.clientHandles, s.conns, s.made, c)
    requires client == Some(c) ==> s.conns[c].sock == fd
    ensures ClientIs(Apply(s, CloseJoin(c)), fd, if client == Some(c) then None else client)
  {
  }

  /** A connection stays on the descriptor it was given out for. */
  lemma {:induction false} ClientsHeld(r: Run, j: nat, fd: int)
    requires IsRun(r) && j <= |r.labels|
    ensures r.states[j].made == Connections(r, j)
    ensures ClientIs(r.states[j], fd, ConnectedTo(r, j, fd))
    ensures forall c :: ConnectedTo(r, j, fd) == Some(c) && c in r.states[j].conns ==> r.states[j].conns[c].sock == fd
  {
    if j > 0 {
      ClientsHeld(r, j - 1, fd);
      var s, l := r.states[j - 1], r.labels[j - 1];
      assert StepAt(r, j - 1);
      RunInv(r, j - 1);
      MadeStep(s, l);
      var client := ConnectedTo(r, j - 1, fd);
      match l
      case Connect(sock, hasConfig, socket, thread) =>
        assert FdOk(s, fd);
        ConnectIs(s, sock, hasConfig, socket, thread, fd, client);
      case CloseCheck(c, closed, established) => CheckIs(s, c, closed, established, fd, client);
      case CloseJoin(c) =>
        assert ConnOk(s.clientHandles, s.conns, s.made, c);
        JoinIs(s, c, fd, client);
      case _ => ConnFrame(s, l);
    }
  }

  // ---------- What every call returns ----------

  /** The answer to `l` after the first `j` calls. */
  function Expected(r: Run, j: nat, l: Label): Result
    requires j <= |r.labels| < |r.states|
  {
    match l
    case Socket => Code(WrapI32(Sockets(r, j)))
    case SocketClose(fd) =>
      Code(if Open(r, j, fd) && BoundTo(r, j, fd) == None && ConnectedTo(r, j, fd) == None then 0 else -1)
    case Bind(fd, server) => Code(if Open(r, j, fd) && BoundTo(r, j, fd) == None && server.Some? then 1 else -1)
    case Listen(fd, _, _) =>
      (match BoundTo(r, j, fd)
       case Some(b) => if Listening(r, j, fd) then Null else ServerConns(b.waker, b.streams, fd)
       case None => Null)
    case Connect(fd, hasConfig, _, _) =>
      if hasConfig && Open(r, j, fd) && ConnectedTo(r, j, fd) == None then ConnIo(Connections(r, j)) else Null
    case CloseCheck(_, closed, established) => if closed then Code(1) else if established then Continue else Code(-1)
    case CloseJoin(_) => Code(1)
  }

  /** The descriptor a call is about, if it names one. */
  function FdOf(l: Label): int {
    match l
    case Socket => 0
    case CloseCheck(_, _, _) => 0
    case CloseJoin(_) => 0
    case _ => l.sock
  }

  /**
    * In every run each answer follows from the calls before it and what they returned: a descriptor
    * closes if it is open, was never bound and is not connected; it binds if it is open and was not
    * bound; its one listen gives out the waker and the streams of its bind; it connects if it is open
    * and its last connection, if any, has been joined.
    */
  lemma AnswersFollow(r: Run, j: nat, l: Label)
    requires IsRun(r) && j <= |r.labels| && Enabled(r.states[j], l)
    ensures ResultOf(r.states[j], l) == Expected(r, j, l)
  {
    var s, fd := r.states[j], FdOf(l);
    RunInv(r, j);
    SocketsCounted(r, j);
    OpenIff(r, j, fd);
    ServersHeld(r, j, fd);
    ClientsHeld(r, j, fd);
    assert FdOk(s, fd);
    assert l.CloseJoin? ==> ConnOk(s.clientHandles, s.conns, s.made, l.c);
  }

  // ---------- Two consequences ----------

  /** The listen on a bound descriptor gives out the waker and the streams of its bind; so do the maps then. */
  lemma ListenGivesWhatWasBound(r: Run, i: nat, j: nat, fd: int)
    requires IsRun(r) && RaisesAt(r, i, fd, 0) && r.labels[i].Bind? && RaisesAt(r, j, fd, 1)
    ensures r.labels[i].server.Some? && i < j && Enabled(r.states[j], r.labels[j])
    ensures var b, t := r.labels[i].server.value, r.states[j + 1];
            && ResultOf(r.states[j], r.labels[j]) == ServerConns(b.waker, b.streams, fd)
            && fd in t.serverSharedMap && t.serverSharedMap[fd] == b.streams
            && fd in t.serverWakerMap && t.serverWakerMap[fd] == b.waker && fd in t.serverHandles
  {
    assert StepAt(r, i) && StepAt(r, j);
    RunInv(r, i);
    RunInv(r, j);
    StepRaises(r.states[i], r.labels[i], fd);
    StepRaises(r.states[j], r.labels[j], fd);
    if j <= i {
      RankGrows(r, j, i, fd);
    }
    ServesWhatWasBound(r, i, j, fd);
    ServesWhatWasBound(r, i, j + 1, fd);
  }

  /** A close answered 0 closes: until descriptors wrap around, every later call about it fails. */
  lemma ClosedIsClosed(r: Run, i: nat, j: nat, fd: int, l: Label)
    requires IsRun(r) && i < |r.labels| && r.labels[i] == SocketClose(fd) && Answer(r, i) == Code(0)
    requires i < j < |r.states| && r.states[j].issued <= ALL_FDS
    requires Enabled(r.states[j], l) && !l.Socket? && !l.CloseCheck? && !l.CloseJoin? && l.sock == fd
    ensures fd !in r.states[j].sockMap
    ensures ResultOf(r.states[j], l) == if l.SocketClose? || l.Bind? then Code(-1) else Null
  {
    RegistryRuns.IssuedGrows(r, i, j);
    RegistryRuns.IssuedGrows(r, i + 1, j);
    RunInv(r, i);
    assert StepAt(r, i);
    OpenIff(r, i, fd);
    OpenIff(r, i + 1, fd);
    IssuedStep(r.states[i], r.labels[i]);
    ClosedForever(r, i + 1, j, fd);
  }
}
