/** Theorems about whole runs of the socket registry. */
module RegistryRuns {
  import opened Bytes
  import opened Ints
  import opened Registry

  datatype Run = Run(states: seq<State>, labels: seq<Label>)

  ghost predicate StepAt(r: Run, i: nat)
    requires i < |r.labels| < |r.states|
  {
    Enabled(r.states[i], r.labels[i]) && r.states[i + 1] == Apply(r.states[i], r.labels[i])
  }

  ghost predicate IsRun(r: Run) {
    && |r.states| == |r.labels| + 1 && r.states[0] == INIT
    && forall i :: 0 <= i < |r.labels| ==> StepAt(r, i)
  }

  lemma {:induction false} RunInv(r: Run, i: nat)
    requires IsRun(r) && i < |r.states|
    ensures Inv(r.states[i])
  {
    if i > 0 {
      RunInv(r, i - 1);
      assert StepAt(r, i - 1);
      StepKeepsInv(r.states[i - 1], r.labels[i - 1]);
    }
  }

  lemma IssuedStep(s: State, l: Label)
    requires Enabled(s, l)
    ensures Apply(s, l).issued == if l.Socket? then s.issued + 1 else s.issued
  {
    if !l.Socket? {
      IssuedFrame(s, l);
    }
  }

  lemma {:induction false} IssuedGrows(r: Run, i: nat, j: nat)
    requires IsRun(r) && i <= j < |r.states|
    ensures r.states[i].issued <= r.states[j].issued
  {
    if i < j {
      IssuedGrows(r, i, j - 1);
      assert StepAt(r, j - 1);
      IssuedStep(r.states[j - 1], r.labels[j - 1]);
    }
  }

  // ---------- Descriptors ----------

  /** Label `i` is a call of `dtp_socket` that returns `fd`. */
  ghost predicate Returns(r: Run, i: nat, fd: int) {
    i < |r.labels| < |r.states| && r.labels[i] == Socket && ResultOf(r.states[i], Socket) == Code(fd)
  }

  /**
    * Two calls return the same fd exactly when the number of calls from one to the other is a
    * multiple of 2^32; closing a socket in between makes no difference.
    */
  lemma ReissuedIff(r: Run, i: nat, j: nat, fd: int, fd': int)
    requires IsRun(r) && Returns(r, i, fd) && Returns(r, j, fd')
    ensures fd == fd' <==> (r.states[j].issued - r.states[i].issued) % TWO_32 == 0
  {
    RunInv(r, i);
    RunInv(r, j);
    WrapEqualIff(r.states[j].issued, r.states[i].issued);
  }

  lemma NeverReissued(r: Run, i: nat, j: nat, fd: int)
    requires IsRun(r) && Returns(r, i, fd) && Returns(r, j, fd) && r.states[j].issued < ALL_FDS && i <= j
    ensures i == j
  {
    ReissuedIff(r, i, j, fd, fd);
    if i < j {
      assert StepAt(r, i);
      IssuedGrows(r, i + 1, j);
    }
  }

  /** The first fd is 0; a returned fd is positive as documented exactly for these call numbers. */
  lemma FdPositiveIff(r: Run, i: nat, fd: int)
    requires IsRun(r) && Returns(r, i, fd)
    ensures fd > 0 <==> 0 < r.states[i].issued % TWO_32 < TWO_31
  {
    RunInv(r, i);
  }

  lemma StaysClosed(s: State, l: Label, fd: int)
    requires Enabled(s, l) && Apply(s, l).issued <= ALL_FDS
    requires s.nextFd == WrapI32(s.issued) && Issued(s.issued, fd) && fd !in s.sockMap
    ensures fd !in Apply(s, l).sockMap
  {
    if l.Socket? {
      NextFdIsNew(s.issued);
    } else {
      IssuedFrame(s, l);
    }
  }

  /** A descriptor closed once is dead: no call brings its entry back before fds wrap around. */
  lemma {:induction false} ClosedForever(r: Run, i: nat, j: nat, fd: int)
    requires IsRun(r) && i <= j < |r.states| && r.states[j].issued <= ALL_FDS
    requires Issued(r.states[i].issued, fd) && fd !in r.states[i].sockMap
    ensures fd !in r.states[j].sockMap
  {
    if i < j {
      IssuedGrows(r, j - 1, j);
      IssuedGrows(r, i, j - 1);
      ClosedForever(r, i, j - 1, fd);
      assert StepAt(r, j - 1);
      RunInv(r, j - 1);
      StaysClosed(r.states[j - 1], r.labels[j - 1], fd);
    }
  }

  // ---------- Servers ----------

  /** How far a descriptor's server has come: none, bound, running. */
  function ServerRank(s: State, fd: int): nat {
    if fd in s.serverHandles then 2 else if fd in s.serverMap then 1 else 0
  }

  /** The rank a call ends for `fd`, if it does. */
  function Raises(s: State, l: Label, fd: int): Option<nat> {
    if !Succeeds(s, l) then None
    else
      match l
      case Bind(sock, _) => if sock == fd then Some(0) else None
      case Listen(sock, _, _) => if sock == fd then Some(1) else None
      case _ => None
  }

  ghost predicate RaisesRight(s: State, l: Label, fd: int)
    requires Enabled(s, l)
  {
    match Raises(s, l, fd)
    case None => ServerRank(Apply(s, l), fd) == ServerRank(s, fd)
    case Some(n) => ServerRank(s, fd) == n && ServerRank(Apply(s, l), fd) == n + 1
  }

  lemma BindRaises(s: State, sock: int, server: Option<DtpServer>, fd: int)
    requires Enabled(s, Bind(sock, server)) && FdOk(s, fd)
    ensures RaisesRight(s, Bind(sock, server), fd)
  {
  }

  lemma ListenRaises(s: State, sock: int, config: nat, thread: nat, fd: int)
    requires Enabled(s, Listen(sock, config, thread)) && FdOk(s, fd)
    ensures RaisesRight(s, Listen(sock, config, thread), fd)
  {
  }

  lemma ServerFrame(s: State, l: Label)
    requires Enabled(s, l) && !l.Bind? && !l.Listen?
    ensures Apply(s, l).serverMap == s.serverMap && Apply(s, l).serverHandles == s.serverHandles
  {
    match l
    case Socket =>
    case SocketClose(sock) =>
    case Connect(sock, hasConfig, socket, thread) =>
    case CloseCheck(c, closed, established) =>
    case CloseJoin(c) =>
  }

  lemma StepRaises(s: State, l: Label, fd: int)
    requires Inv(s) && Enabled(s, l)
    ensures RaisesRight(s, l, fd)
  {
    assert FdOk(s, fd);
    match l
    case Bind(sock, server) => BindRaises(s, sock, server, fd);
    case Listen(sock, config, thread) => ListenRaises(s, sock, config, thread, fd);
    case _ => ServerFrame(s, l);
  }

  ghost predicate RaisesAt(r: Run, i: nat, fd: int, n: nat) {
    i < |r.labels| < |r.states| && Raises(r.states[i], r.labels[i], fd) == Some(n)
  }

  lemma {:induction false} RankGrows(r: Run, i: nat, j: nat, fd: int)
    requires IsRun(r) && i <= j < |r.states|
    ensures ServerRank(r.states[i], fd) <= ServerRank(r.states[j], fd)
  {
    if i < j {
      RankGrows(r, i, j - 1, fd);
      assert StepAt(r, j - 1);
      RunInv(r, j - 1);
      StepRaises(r.states[j - 1], r.labels[j - 1], fd);
    }
  }

  /** Each descriptor is bound at most once (n = 0) and listens at most once (n = 1), ever. */
  lemma BindsAndListensOnce(r: Run, i: nat, j: nat, fd: int, n: nat)
    requires IsRun(r) && RaisesAt(r, i, fd, n) && RaisesAt(r, j, fd, n) && i <= j
    ensures i == j
  {
    assert StepAt(r, i) && StepAt(r, j);
    RunInv(r, i);
    RunInv(r, j);
    StepRaises(r.states[i], r.labels[i], fd);
    StepRaises(r.states[j], r.labels[j], fd);
    if i < j {
      RankGrows(r, i + 1, j, fd);
    }
  }

  /** The descriptor's server, bound or running, is `server`: a running one left its own streams and waker. */
  ghost predicate Serves(s: State, fd: int, server: DtpServer) {
    && HasServer(s.serverMap, s.serverHandles, fd)
    && (fd in s.serverMap ==> s.serverMap[fd] == server)
    && (fd in s.serverHandles ==>
          && fd in s.serverSharedMap && s.serverSharedMap[fd] == server.streams
          && fd in s.serverWakerMap && s.serverWakerMap[fd] == server.waker)
  }

  lemma ListenServes(s: State, sock: int, config: nat, thread: nat, fd: int, server: DtpServer)
    requires Enabled(s, Listen(sock, config, thread)) && FdOk(s, fd) && Serves(s, fd, server)
    ensures Serves(Apply(s, Listen(sock, config, thread)), fd, server)
  {
  }

  lemma BindServes(s: State, sock: int, bound: Option<DtpServer>, fd: int, server: DtpServer)
    requires Enabled(s, Bind(sock, bound)) && Serves(s, fd, server)
    ensures Serves(Apply(s, Bind(sock, bound)), fd, server)
  {
  }

  /** Other calls leave the server maps alone. */
  lemma SharedFrame(s: State, l: Label)
    requires Enabled(s, l) && !l.Bind? && !l.Listen?
    ensures Apply(s, l).serverSharedMap == s.serverSharedMap && Apply(s, l).serverWakerMap == s.serverWakerMap
  {
    match l
    case Socket =>
    case SocketClose(sock) =>
    case Connect(sock, hasConfig, socket, thread) =>
    case CloseCheck(c, closed, established) =>
    case CloseJoin(c) =>
  }

  lemma StepServes(s: State, l: Label, fd: int, server: DtpServer)
    requires Inv(s) && Enabled(s, l) && Serves(s, fd, server)
    ensures Serves(Apply(s, l), fd, server)
  {
    assert FdOk(s, fd);
    match l
    case Listen(sock, config, thread) => ListenServes(s, sock, config, thread, fd, server);
    case Bind(sock, bound) => BindServes(s, sock, bound, fd, server);
    case _ => ServerFrame(s, l); SharedFrame(s, l);
  }

  /** Once bound, a descriptor serves with the objects of that one bind for ever, before and after it listens. */
  lemma {:induction false} ServesWhatWasBound(r: Run, i: nat, j: nat, fd: int)
    requires IsRun(r) && i < j < |r.states|
    requires r.labels[i].Bind? && RaisesAt(r, i, fd, 0)
    ensures r.labels[i].server.Some? && Serves(r.states[j], fd, r.labels[i].server.value)
  {
    RunInv(r, j - 1);
    assert StepAt(r, j - 1);
    if j == i + 1 {
      assert FdOk(r.states[i], fd);
    } else {
      ServesWhatWasBound(r, i, j - 1, fd);
      StepServes(r.states[j - 1], r.labels[j - 1], fd, r.labels[i].server.value);
    }
  }

  // ---------- Clients ----------

  /** Connection `c` is live, on `fd`, and its thread is the one registered for `fd`. */
  ghost predicate Runs(s: State, c: nat, fd: int, thread: nat) {
    c in s.conns && s.conns[c].sock == fd && fd in s.clientHandles && s.clientHandles[fd] == thread
  }

  lemma ConnectRuns(s: State, sock: int, hasConfig: bool, socket: nat, started: nat, c: nat, fd: int, thread: nat)
    requires Enabled(s, Connect(sock, hasConfig, socket, started)) && Runs(s, c, fd, thread)
    requires ConnOk(s.clientHandles, s.conns, s.made, c)
    ensures Runs(Apply(s, Connect(sock, hasConfig, socket, started)), c, fd, thread)
  {
  }

  lemma CheckRuns(s: State, k: nat, closed: bool, established: bool, c: nat, fd: int, thread: nat)
    requires Enabled(s, CloseCheck(k, closed, established)) && Runs(s, c, fd, thread)
    requires c in Apply(s, CloseCheck(k, closed, established)).conns
    ensures Runs(Apply(s, CloseCheck(k, closed, established)), c, fd, thread)
  {
  }

  lemma JoinRuns(s: State, k: nat, c: nat, fd: int, thread: nat)
    requires Enabled(s, CloseJoin(k)) && Runs(s, c, fd, thread) && Apart(s.conns, k, c)
    requires c in Apply(s, CloseJoin(k)).conns
    ensures Runs(Apply(s, CloseJoin(k)), c, fd, thread)
  {
  }

  lemma StepRuns(s: State, l: Label, c: nat, fd: int, thread: nat)
    requires Enabled(s, l) && Runs(s, c, fd, thread) && c in Apply(s, l).conns
    requires ConnOk(s.clientHandles, s.conns, s.made, c) && (l.CloseJoin? ==> Apart(s.conns, l.c, c))
    ensures Runs(Apply(s, l), c, fd, thread)
  {
    match l
    case Connect(sock, hasConfig, socket, started) => ConnectRuns(s, sock, hasConfig, socket, started, c, fd, thread);
    case CloseCheck(k, closed, established) => CheckRuns(s, k, closed, established, c, fd, thread);
    case CloseJoin(k) => JoinRuns(s, k, c, fd, thread);
    case _ => ConnFrame(s, l);
  }

  lemma ConnectMade(s: State, sock: int, hasConfig: bool, socket: nat, thread: nat)
    ensures Apply(s, Connect(sock, hasConfig, socket, thread)).conns.Keys <= s.conns.Keys + {s.made}
  {
  }

  lemma CheckMade(s: State, k: nat, closed: bool, established: bool)
    requires Enabled(s, CloseCheck(k, closed, established))
    ensures Apply(s, CloseCheck(k, closed, established)).conns.Keys <= s.conns.Keys
  {
  }

  lemma JoinMade(s: State, k: nat)
    requires Enabled(s, CloseJoin(k))
    ensures Apply(s, CloseJoin(k)).conns.Keys <= s.conns.Keys
  {
  }

  /** Only a connect makes a connection, and under the next number. */
  lemma StepMade(s: State, l: Label)
    requires Enabled(s, l)
    ensures Apply(s, l).conns.Keys <= s.conns.Keys + if l.Connect? then {s.made} else {}
  {
    match l
    case Connect(sock, hasConfig, socket, thread) => ConnectMade(s, sock, hasConfig, socket, thread);
    case CloseCheck(k, closed, established) => CheckMade(s, k, closed, established);
    case CloseJoin(k) => JoinMade(s, k);
    case _ => ConnFrame(s, l);
  }

  /** Label `i` connects `fd`, on a new thread, and gives out connection `c`. */
  ghost predicate Connects(r: Run, i: nat, c: nat) {
    && i < |r.labels| < |r.states| && r.labels[i].Connect?
    && Enabled(r.states[i], r.labels[i]) && ResultOf(r.states[i], r.labels[i]) == ConnIo(c)
  }

  lemma MadeStep(s: State, l: Label)
    requires Enabled(s, l)
    ensures Apply(s, l).made == if l.Connect? && Succeeds(s, l) then s.made + 1 else s.made
  {
    match l
    case Connect(sock, hasConfig, socket, thread) =>
    case CloseCheck(k, closed, established) =>
    case CloseJoin(k) =>
    case _ => ConnFrame(s, l);
  }

  lemma {:induction false} MadeGrows(r: Run, i: nat, j: nat)
    requires IsRun(r) && i < j < |r.states| && r.labels[i].Connect? && Succeeds(r.states[i], r.labels[i])
    ensures r.states[i].made < r.states[j].made
  {
    assert StepAt(r, j - 1);
    MadeStep(r.states[j - 1], r.labels[j - 1]);
    if j > i + 1 {
      MadeGrows(r, i, j - 1);
    }
  }

  /**
    * As long as a connection is live its descriptor's registered thread is the one its own connect
    * started; so that is the thread `dtp_close` joins.
    */
  lemma {:induction false} RunsOwnThread(r: Run, i: nat, j: nat, c: nat)
    requires IsRun(r) && Connects(r, i, c) && i < j < |r.states|
    requires c in r.states[j].conns
    ensures Runs(r.states[j], c, r.labels[i].sock, r.labels[i].thread)
  {
    RunInv(r, j - 1);
    assert StepAt(r, j - 1);
    if j > i + 1 {
      StepMade(r.states[j - 1], r.labels[j - 1]);
      MadeGrows(r, i, j - 1);
      RunsOwnThread(r, i, j - 1, c);
      var s := r.states[j - 1];
      assert ConnOk(s.clientHandles, s.conns, s.made, c);
      assert r.labels[j - 1].CloseJoin? ==> Apart(s.conns, r.labels[j - 1].c, c);
      StepRuns(r.states[j - 1], r.labels[j - 1], c, r.labels[i].sock, r.labels[i].thread);
    }
  }

  /** The unwrap in `dtp_close` never fails: the joining connection's handle is in the registry, for it alone. */
  lemma CloseNeverPanics(r: Run, i: nat)
    requires IsRun(r) && i < |r.labels| && r.labels[i].CloseJoin?
    ensures Enabled(r.states[i], r.labels[i]) && ResultOf(r.states[i], r.labels[i]) == Code(1)
    ensures var s, c := r.states[i], r.labels[i].c;
            forall d :: d in s.conns && s.conns[d].sock == s.conns[c].sock ==> d == c
  {
    var s, c := r.states[i], r.labels[i].c;
    assert StepAt(r, i);
    RunInv(r, i);
    assert ConnOk(s.clientHandles, s.conns, s.made, c);
    forall d | d in s.conns && s.conns[d].sock == s.conns[c].sock ensures d == c {
      assert Apart(s.conns, d, c);
    }
  }

  /** The descriptor counts as connected although no connection uses it. */
  ghost predicate Stranded(s: State, fd: int) {
    fd in s.clientHandles && forall c :: c in s.conns ==> s.conns[c].sock != fd
  }

  /** A connect with a config succeeds. */
  ghost predicate Free(s: State, fd: int) {
    forall socket, thread :: Succeeds(s, Connect(fd, true, socket, thread))
  }

  /**
    * What the state check of `dtp_close` leaves behind depends on the branch taken. The descriptor is
    * stranded exactly if the connection is closed by then. If it is established it can be joined at once.
    */
  lemma CloseReleasesIff(r: Run, i: nat)
    requires IsRun(r) && i < |r.labels| && r.labels[i].CloseCheck?
    ensures var s, l := r.states[i], r.labels[i];
            && l.c in s.conns
            && var fd := s.conns[l.c].sock;
            && (Stranded(r.states[i + 1], fd) <==> l.closed)
            && (!l.closed && l.established ==>
                  Enabled(r.states[i + 1], CloseJoin(l.c))
                  && var t := Apply(r.states[i + 1], CloseJoin(l.c));
                  Free(t, fd))
            && (!l.closed && !l.established ==> r.states[i + 1] == s)
  {
    var s, l := r.states[i], r.labels[i];
    assert StepAt(r, i);
    RunInv(r, i);
    var fd := s.conns[l.c].sock;
    assert ConnOk(s.clientHandles, s.conns, s.made, l.c) && FdOk(s, fd);
    if l.closed {
      var conns := r.states[i + 1].conns;
      forall c | c in conns ensures conns[c].sock != fd {
        assert Apart(s.conns, c, l.c);
      }
    } else {
      assert l.c in r.states[i + 1].conns && r.states[i + 1].conns[l.c].sock == fd;
    }
  }

  /** Whatever happens between the check and the join, the join leaves the descriptor free to be connected again. */
  lemma JoinFrees(r: Run, i: nat)
    requires IsRun(r) && i < |r.labels| && r.labels[i].CloseJoin?
    ensures r.labels[i].c in r.states[i].conns
    ensures Free(r.states[i + 1], r.states[i].conns[r.labels[i].c].sock)
  {
    var s, c := r.states[i], r.labels[i].c;
    assert StepAt(r, i);
    RunInv(r, i);
    assert ConnOk(s.clientHandles, s.conns, s.made, c) && FdOk(s, s.conns[c].sock);
  }

  /** Once `dtp_close` has seen its connection established, it can join at any time until it does. */
  lemma {:induction false} ClosingUntilJoined(r: Run, i: nat, j: nat, c: nat)
    requires IsRun(r) && i <= j < |r.states| && Enabled(r.states[i], CloseJoin(c))
    requires forall k :: i <= k < j ==> r.labels[k] != CloseJoin(c)
    ensures Enabled(r.states[j], CloseJoin(c)) && r.states[j].conns[c] == r.states[i].conns[c]
  {
    if i < j {
      ClosingUntilJoined(r, i, j - 1, c);
      assert StepAt(r, j - 1);
      RunInv(r, j - 1);
      var s, l := r.states[j - 1], r.labels[j - 1];
      assert ConnOk(s.clientHandles, s.conns, s.made, c);
      match l
      case Connect(_, _, _, _) =>
      case CloseCheck(_, _, _) =>
      case CloseJoin(_) =>
      case _ => ConnFrame(s, l);
    }
  }

  lemma JoinKeepsStranded(s: State, c: nat, fd: int)
    requires Enabled(s, CloseJoin(c)) && Stranded(s, fd)
    ensures Stranded(Apply(s, CloseJoin(c)), fd)
  {
  }

  lemma StrandedStep(s: State, l: Label, fd: int)
    requires Enabled(s, l) && Stranded(s, fd)
    ensures Stranded(Apply(s, l), fd)
  {
    match l
    case Connect(sock, hasConfig, socket, thread) =>
    case CloseCheck(c, closed, established) =>
    case CloseJoin(c) => JoinKeepsStranded(s, c, fd);
    case _ => ConnFrame(s, l);
  }

  /** A stranded descriptor stays so: from then on every connect and every `dtp_socket_close` of it fails. */
  lemma {:induction false} StrandedForever(r: Run, i: nat, j: nat, fd: int, l: Label)
    requires IsRun(r) && i <= j < |r.states| && Stranded(r.states[i], fd)
    requires (l.Connect? || l.SocketClose?) && l.sock == fd
    ensures Stranded(r.states[j], fd) && !Succeeds(r.states[j], l)
  {
    if i < j {
      StrandedForever(r, i, j - 1, fd, l);
      assert StepAt(r, j - 1);
      StrandedStep(r.states[j - 1], r.labels[j - 1], fd);
    }
  }

  /** A descriptor is stranded by the shortest run in which its connection closes before `dtp_close` looks at it. */
  lemma StrandsFd() returns (r: Run)
    ensures IsRun(r) && r.labels == [Socket, Connect(0, true, 4, 5), CloseCheck(0, true, false)]
    ensures Stranded(r.states[3], 0)
  {
    var connect, close := Connect(0, true, 4, 5), CloseCheck(0, true, false);
    var s1 := Apply(INIT, Socket);
    var s2 := Apply(s1, connect);
    var s3 := Apply(s2, close);
    r := Run([INIT, s1, s2, s3], [Socket, connect, close]);
    assert StepAt(r, 0) && StepAt(r, 1) && StepAt(r, 2);
  }

  /** Server and client use of one descriptor do not exclude each other. */
  lemma ServerAndClientAtOnce() returns (r: Run)
    ensures IsRun(r) && |r.states| == 4
    ensures var s := r.states[3];
            HasServer(s.serverMap, s.serverHandles, 0) && HasClient(s.clientMap, s.clientHandles, 0)
  {
    var bind := Bind(0, Some(DtpServer(1, 2, 3, None)));
    var connect := Connect(0, true, 4, 5);
    var s1 := Apply(INIT, Socket);
    var s2 := Apply(s1, bind);
    var s3 := Apply(s2, connect);
    r := Run([INIT, s1, s2, s3], [Socket, bind, connect]);
    assert StepAt(r, 0) && StepAt(r, 1) && StepAt(r, 2);
  }

  function Last(r: Run): State
    requires r.states != []
  {
    r.states[|r.states| - 1]
  }

  lemma Extend(r: Run, l: Label) returns (r': Run)
    requires IsRun(r) && Enabled(Last(r), l)
    ensures IsRun(r') && r'.states == r.states + [Apply(Last(r), l)] && r'.labels == r.labels + [l]
  {
    r' := Run(r.states + [Apply(Last(r), l)], r.labels + [l]);
    forall i | 0 <= i < |r'.labels| ensures StepAt(r', i) {
      assert i < |r.labels| ==> StepAt(r, i);
    }
  }

  lemma {:induction false} ManySockets(r: Run, n: nat) returns (r': Run)
    requires IsRun(r)
    ensures IsRun(r') && Last(r').issued == Last(r).issued + n && Last(r').serverMap == Last(r).serverMap
  {
    r' := r;
    if n > 0 {
      r' := ManySockets(r, n - 1);
      r' := Extend(r', Socket);
    }
  }

  /** Past ALL_FDS calls of `dtp_socket`, a bound server's descriptor is given out again as a new socket. */
  lemma BoundSocketLost() returns (r: Run)
    ensures IsRun(r) && Last(r).issued == ALL_FDS + 1
    ensures 0 in Last(r).serverMap && Inv(Last(r)) && !SocketOk(Last(r), 0)
  {
    r := Extend(Run([INIT], []), Socket);
    r := Extend(r, Bind(0, Some(DtpServer(1, 2, 3, None))));
    r := ManySockets(r, ALL_FDS - 1);
    RunInv(r, |r.states| - 1);
    r := Extend(r, Socket);
    RunInv(r, |r.states| - 1);
  }
}
