/**
  * The socket registry: `DtpApi` (src/lib.rs) and the calls that keep its maps consistent
  * (src/ffi.rs: `dtp_socket`, `dtp_socket_close`, `dtp_bind`, `dtp_listen`, `dtp_connect` and the
  * client side of `dtp_close`). Each label is what one thread does under the registry's lock, so a
  * client-side close that joins its thread is two labels. UDP sockets, wakers, shared streams,
  * configs and thread handles are named by numbers.
  */
module Registry {
  import opened Bytes
  import opened Ints

  datatype DtpServer = DtpServer(socket: nat, waker: nat, streams: nat, config: Option<nat>)

  /** The client side of a `DtpConnection`; `Closing` is between the state check and the join. */
  datatype ClientPc = Held | Closing
  datatype ClientConn = ClientConn(sock: int, pc: ClientPc)

  /** `issued` counts the calls of `dtp_socket`; `conns` are the connections given out and not freed. */
  datatype State = State(
    sockMap: map<int, Option<nat>>,
    clientMap: map<int, nat>,
    serverMap: map<int, DtpServer>,
    serverWakerMap: map<int, nat>,
    serverSharedMap: map<int, nat>,
    serverHandles: map<int, nat>,
    clientHandles: map<int, nat>,
    nextFd: int,
    issued: nat,
    conns: map<nat, ClientConn>,
    made: nat)

  const INIT := State(map[], map[], map[], map[], map[], map[], map[], 0, 0, map[], 0)

  datatype Label =
    | Socket
    | SocketClose(sock: int)
    | Bind(sock: int, server: Option<DtpServer>)                // what DtpServer::bind gives
    | Listen(sock: int, config: nat, thread: nat)
    | Connect(sock: int, hasConfig: bool, socket: nat, thread: nat)
    | CloseCheck(c: nat, closed: bool, established: bool)       // dtp_close looks at its connection
    | CloseJoin(c: nat)                                         // dtp_close takes and joins the thread

  datatype Result =
    | Code(code: int)
    | Null
    | ServerConns(waker: nat, streams: nat, sockid: int)
    | ConnIo(c: nat)
    | Continue     // dtp_close goes on to join
    | Panicked     // unwrap of a missing handle

  predicate HasServer(serverMap: map<int, DtpServer>, serverHandles: map<int, nat>, sock: int) {
    sock in serverMap || sock in serverHandles
  }

  predicate HasClient(clientMap: map<int, nat>, clientHandles: map<int, nat>, sock: int) {
    sock in clientMap || sock in clientHandles
  }

  /** Whether the call passes its guards. */
  predicate Succeeds(s: State, l: Label) {
    match l
    case Socket => true
    case SocketClose(sock) =>
      sock in s.sockMap
      && !HasClient(s.clientMap, s.clientHandles, sock) && !HasServer(s.serverMap, s.serverHandles, sock)
    case Bind(sock, server) => sock in s.sockMap && !HasServer(s.serverMap, s.serverHandles, sock) && server.Some?
    case Listen(sock, _, _) =>
      sock in s.sockMap && HasServer(s.serverMap, s.serverHandles, sock) && sock in s.serverMap
    case Connect(sock, hasConfig, _, _) =>
      hasConfig && sock in s.sockMap && !HasClient(s.clientMap, s.clientHandles, sock)
    case CloseCheck(_, closed, established) => closed || established
    case CloseJoin(c) => c in s.conns && s.conns[c].sock in s.clientHandles
  }

  /** A connection is passed to `dtp_close` by its owner only, and not again after it is freed. */
  predicate Enabled(s: State, l: Label) {
    match l
    case CloseCheck(c, _, _) => c in s.conns && s.conns[c].pc == Held
    case CloseJoin(c) => c in s.conns && s.conns[c].pc == Closing
    case Bind(_, server) => server.Some? ==> server.value.config == None
    case _ => true
  }

  function Apply(s: State, l: Label): State
    requires Enabled(s, l)
  {
    if !Succeeds(s, l) then s
    else
      match l
      case Socket =>
        s.(sockMap := s.sockMap[s.nextFd := None], nextFd := WrapI32(s.nextFd + 1), issued := s.issued + 1)
      case SocketClose(sock) => s.(sockMap := s.sockMap - {sock})
      case Bind(sock, server) =>
        s.(sockMap := s.sockMap[sock := Some(server.value.socket)], serverMap := s.serverMap[sock := server.value])
      case Listen(sock, config, thread) =>
        s.(serverMap := s.serverMap - {sock},
           serverHandles := s.serverHandles[sock := thread],
           serverSharedMap := s.serverSharedMap[sock := s.serverMap[sock].streams],
           serverWakerMap := s.serverWakerMap[sock := s.serverMap[sock].waker])
      case Connect(sock, _, socket, thread) =>
        s.(sockMap := s.sockMap[sock := Some(socket)],
           clientHandles := s.clientHandles[sock := thread],
           conns := s.conns[s.made := ClientConn(sock, Held)],
           made := s.made + 1)
      case CloseCheck(c, closed, established) =>
        if closed then s.(conns := s.conns - {c})
        else s.(conns := s.conns[c := s.conns[c].(pc := Closing)])
      case CloseJoin(c) =>
        s.(clientHandles := s.clientHandles - {s.conns[c].sock}, conns := s.conns - {c})
  }

  function ResultOf(s: State, l: Label): Result
    requires Enabled(s, l)
  {
    if !Succeeds(s, l) then
      match l
      case Listen(_, _, _) => Null
      case Connect(_, _, _, _) => Null
      case CloseJoin(_) => Panicked
      case _ => Code(-1)
    else
      match l
      case Socket => Code(s.nextFd)
      case SocketClose(_) => Code(0)
      case Bind(_, _) => Code(1)
      case Listen(sock, _, _) => ServerConns(s.serverMap[sock].waker, s.serverMap[sock].streams, sock)
      case Connect(_, _, _, _) => ConnIo(s.made)
      case CloseCheck(_, closed, _) => if closed then Code(1) else Continue
      case CloseJoin(_) => Code(1)
  }

  // ---------- The invariant ----------

  /** The number of calls after which `next_fd` has run through every 32-bit value. */
  const ALL_FDS := TWO_32

  /** The fd has been returned by one of the first `issued` calls, these being at most ALL_FDS. */
  predicate Issued(issued: nat, fd: int) {
    IsI32(fd) && fd % TWO_32 < issued
  }

  /** A server's fd is known; it is bound or running, and a running one is in all three maps. */
  ghost predicate ServerOk(sockMap: map<int, Option<nat>>, serverMap: map<int, DtpServer>, handles: map<int, nat>,
                           shared: map<int, nat>, wakers: map<int, nat>, fd: int)
  {
    && (fd in serverMap || fd in handles ==> fd in sockMap)
    && !(fd in serverMap && fd in handles)
    && (fd in handles <==> fd in shared)
    && (fd in handles <==> fd in wakers)
    && (fd in serverMap ==> serverMap[fd].config == None)
  }

  /** A client's fd is known; `client_map` is never filled. */
  ghost predicate ClientOk(sockMap: map<int, Option<nat>>, clientMap: map<int, nat>,
                           clientHandles: map<int, nat>, fd: int)
  {
    && (fd in clientHandles ==> fd in sockMap)
    && fd !in clientMap
  }

  /** What the maps hold about one fd. */
  ghost predicate FdOk(s: State, fd: int) {
    && ServerOk(s.sockMap, s.serverMap, s.serverHandles, s.serverSharedMap, s.serverWakerMap, fd)
    && ClientOk(s.sockMap, s.clientMap, s.clientHandles, fd)
  }

  /** Each connection has its thread's handle in the registry ... */
  ghost predicate ConnOk(clientHandles: map<int, nat>, conns: map<nat, ClientConn>, made: nat, c: nat) {
    c in conns ==> c < made && conns[c].sock in clientHandles
  }

  /** ... and shares its fd with no other connection. */
  ghost predicate Apart(conns: map<nat, ClientConn>, c: nat, d: nat) {
    c in conns && d in conns && conns[c].sock == conns[d].sock ==> c == d
  }

  /** A server or a client uses the fd. */
  predicate InUse(s: State, fd: int) {
    HasServer(s.serverMap, s.serverHandles, fd) || HasClient(s.clientMap, s.clientHandles, fd)
  }

  /** What has been bound or connected has its UDP socket. */
  ghost predicate SocketOk(s: State, fd: int) {
    InUse(s, fd) ==> fd in s.sockMap && s.sockMap[fd].Some?
  }

  ghost predicate FdsIssued(sockMap: map<int, Option<nat>>, issued: nat) {
    forall fd :: fd in sockMap ==> Issued(issued, fd)
  }

  ghost predicate MapsOk(s: State) {
    && (forall fd :: FdOk(s, fd))
    && (forall c :: ConnOk(s.clientHandles, s.conns, s.made, c))
    && (forall c, d :: Apart(s.conns, c, d))
  }

  /**
    * The maps are consistent for ever. Up to ALL_FDS calls of `dtp_socket`, moreover, fds are new when
    * issued; later ones may be issued over what they still stand for, which then loses its socket.
    */
  ghost predicate Inv(s: State) {
    && s.nextFd == WrapI32(s.issued)
    && MapsOk(s)
    && (s.issued <= ALL_FDS ==> FdsIssued(s.sockMap, s.issued) && forall fd :: SocketOk(s, fd))
  }

  lemma NextFdIsNew(issued: nat)
    requires issued < ALL_FDS
    ensures !Issued(issued, WrapI32(issued)) && Issued(issued + 1, WrapI32(issued))
  {
  }

  lemma SocketKeepsFd(s: State, fd: int)
    requires FdOk(s, fd)
    ensures FdOk(Apply(s, Socket), fd)
  {
  }

  lemma ServerKeepsFd(s: State, l: Label, fd: int)
    requires l.Bind? || l.Listen? || l.SocketClose?
    requires Enabled(s, l) && FdOk(s, fd)
    ensures FdOk(Apply(s, l), fd)
  {
  }

  lemma ConnectKeepsFd(s: State, l: Label, fd: int)
    requires l.Connect? && Enabled(s, l) && FdOk(s, fd)
    ensures FdOk(Apply(s, l), fd)
  {
  }

  lemma CheckKeepsFd(s: State, c: nat, closed: bool, established: bool, fd: int)
    requires Enabled(s, CloseCheck(c, closed, established)) && FdOk(s, fd)
    ensures FdOk(Apply(s, CloseCheck(c, closed, established)), fd)
  {
  }

  lemma JoinKeepsFd(s: State, c: nat, fd: int)
    requires Enabled(s, CloseJoin(c)) && FdOk(s, fd)
    ensures FdOk(Apply(s, CloseJoin(c)), fd)
  {
  }

  lemma FdKept(s: State, l: Label, fd: int)
    requires Enabled(s, l) && FdOk(s, fd)
    ensures FdOk(Apply(s, l), fd)
  {
    match l
    case Socket => SocketKeepsFd(s, fd);
    case Connect(_, _, _, _) => ConnectKeepsFd(s, l, fd);
    case CloseCheck(c, closed, established) => CheckKeepsFd(s, c, closed, established, fd);
    case CloseJoin(c) => JoinKeepsFd(s, c, fd);
    case _ => ServerKeepsFd(s, l, fd);
  }

  lemma IssuedGrows(sockMap: map<int, Option<nat>>, issued: nat)
    requires FdsIssued(sockMap, issued) && issued < ALL_FDS
    ensures FdsIssued(sockMap[WrapI32(issued) := None], issued + 1) && WrapI32(issued) !in sockMap
  {
    NextFdIsNew(issued);
  }

  lemma SocketKeepsIssued(s: State)
    requires FdsIssued(s.sockMap, s.issued) && s.nextFd == WrapI32(s.issued) && s.issued < ALL_FDS
    ensures var t := Apply(s, Socket);
            FdsIssued(t.sockMap, t.issued) && s.nextFd !in s.sockMap
  {
    IssuedGrows(s.sockMap, s.issued);
  }

  lemma NextFdCounts(issued: nat)
    ensures WrapI32(WrapI32(issued) + 1) == WrapI32(issued + 1)
  {
  }

  /** Other labels neither issue fds nor enter them. */
  lemma IssuedFrame(s: State, l: Label)
    requires Enabled(s, l) && !l.Socket?
    ensures var t := Apply(s, l);
            t.issued == s.issued && t.nextFd == s.nextFd && t.sockMap.Keys <= s.sockMap.Keys
  {
    match l
    case SocketClose(sock) =>
    case Bind(sock, _) =>
    case Connect(sock, _, _, _) =>
    case _ =>
  }

  /** Only connecting and closing touch client connections. */
  lemma ConnFrame(s: State, l: Label)
    requires Enabled(s, l) && !l.Connect? && !l.CloseCheck? && !l.CloseJoin?
    ensures var t := Apply(s, l);
            t.clientHandles == s.clientHandles && t.conns == s.conns && t.made == s.made
  {
  }

  ghost predicate PairOk(s: State, c: nat, d: nat) {
    && ConnOk(s.clientHandles, s.conns, s.made, c)
    && ConnOk(s.clientHandles, s.conns, s.made, d)
    && Apart(s.conns, c, d)
  }

  lemma ConnectKeepsPair(s: State, l: Label, c: nat, d: nat)
    requires l.Connect? && Enabled(s, l) && PairOk(s, c, d)
    ensures PairOk(Apply(s, l), c, d)
  {
  }

  lemma CheckKeepsPair(s: State, k: nat, closed: bool, established: bool, c: nat, d: nat)
    requires Enabled(s, CloseCheck(k, closed, established)) && PairOk(s, c, d)
    ensures PairOk(Apply(s, CloseCheck(k, closed, established)), c, d)
  {
  }

  lemma JoinKeepsPair(s: State, j: nat, c: nat, d: nat)
    requires Enabled(s, CloseJoin(j)) && PairOk(s, c, d) && Apart(s.conns, c, j) && Apart(s.conns, d, j)
    ensures PairOk(Apply(s, CloseJoin(j)), c, d)
  {
  }

  lemma PairKept(s: State, l: Label, c: nat, d: nat)
    requires MapsOk(s) && Enabled(s, l)
    ensures PairOk(Apply(s, l), c, d)
  {
    assert PairOk(s, c, d);
    match l
    case Connect(_, _, _, _) => ConnectKeepsPair(s, l, c, d);
    case CloseCheck(k, closed, established) => CheckKeepsPair(s, k, closed, established, c, d);
    case CloseJoin(j) =>
      assert Apart(s.conns, c, j) && Apart(s.conns, d, j);
      JoinKeepsPair(s, j, c, d);
    case _ => ConnFrame(s, l);
  }

  lemma MapsKept(s: State, l: Label)
    requires Enabled(s, l) && MapsOk(s)
    ensures MapsOk(Apply(s, l))
  {
    var t := Apply(s, l);
    forall fd ensures FdOk(t, fd) {
      assert FdOk(s, fd);
      FdKept(s, l, fd);
    }
    forall c ensures ConnOk(t.clientHandles, t.conns, t.made, c) {
      PairKept(s, l, c, c);
    }
    forall c, d ensures Apart(t.conns, c, d) {
      PairKept(s, l, c, d);
    }
  }

  lemma ListenKeepsSocket(s: State, sock: int, config: nat, thread: nat, fd: int)
    requires Enabled(s, Listen(sock, config, thread)) && SocketOk(s, fd)
    ensures SocketOk(Apply(s, Listen(sock, config, thread)), fd)
  {
  }

  lemma CheckKeepsSocket(s: State, c: nat, closed: bool, established: bool, fd: int)
    requires Enabled(s, CloseCheck(c, closed, established)) && SocketOk(s, fd)
    ensures SocketOk(Apply(s, CloseCheck(c, closed, established)), fd)
  {
  }

  lemma JoinKeepsSocket(s: State, c: nat, fd: int)
    requires Enabled(s, CloseJoin(c)) && SocketOk(s, fd)
    ensures SocketOk(Apply(s, CloseJoin(c)), fd)
  {
  }

  /** What is in use loses its socket exactly to a call of `dtp_socket` that issues its fd again. */
  lemma SocketLostIff(s: State, l: Label, fd: int)
    requires Enabled(s, l) && SocketOk(s, fd)
    ensures !SocketOk(Apply(s, l), fd) <==> l.Socket? && s.nextFd == fd && InUse(s, fd)
  {
    match l
    case Listen(sock, config, thread) => ListenKeepsSocket(s, sock, config, thread, fd);
    case CloseCheck(c, closed, established) => CheckKeepsSocket(s, c, closed, established, fd);
    case CloseJoin(c) => JoinKeepsSocket(s, c, fd);
    case _ =>
  }

  lemma StepKeepsInv(s: State, l: Label)
    requires Inv(s) && Enabled(s, l)
    ensures Inv(Apply(s, l))
  {
    var t := Apply(s, l);
    MapsKept(s, l);
    if l.Socket? {
      NextFdCounts(s.issued);
      if s.issued < ALL_FDS {
        SocketKeepsIssued(s);
        assert FdOk(s, s.nextFd);
      }
    } else {
      IssuedFrame(s, l);
    }
    forall fd ensures t.issued <= ALL_FDS ==> SocketOk(t, fd) {
      if t.issued <= ALL_FDS {
        SocketLostIff(s, l, fd);
      }
    }
  }
}
