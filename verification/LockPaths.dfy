/** The locks taken by the server's threads and by the application's calls, and in which order. */
module LockPaths {
  import opened LockOrder

  /** Which log levels are on; log arguments take locks only when they are evaluated. */
  datatype Logging = Logging(error: bool, verbose: bool)

  /** One packet of the read loop and what becomes of it. */
  datatype Packet =
    | Unserved                                     // dropped, or answered by negotiation or retry
    | RecvFails(g: nat, created: bool)
    | Received(g: nat, created: bool, ready: bool, writable: nat)

  function Logged(l: Lock, on: bool): seq<Op> {
    if on then Use(l) else []
  }

  /** `accept` under the config lock, then publishing. */
  function Creation(created: bool): seq<Op> {
    if created then With(ServerConfig, Use(SharedStreams)) else []
  }

  /** A failed `recv` or `stream_send`: its error arm logs while the guard of the match scrutinee is still held. */
  function Failed(g: nat, log: Logging): seq<Op> {
    With(Connection(g), Logged(Connection(g), log.error))
  }

  function PacketOps(p: Packet, log: Logging): seq<Op> {
    match p
    case Unserved => []
    case RecvFails(g, created) => Creation(created) + Failed(g, log)
    case Received(g, created, ready, writable) =>
      Creation(created) + (Use(Connection(g)) + (Logged(Connection(g), log.verbose) +
      (Use(Connection(g)) + (Use(Connection(g)) +
      (if ready then Use(Connection(g)) + Times(writable, With(Connection(g), Use(Partial(g)))) else [])))))
  }

  function Packets(ps: seq<Packet>, log: Logging): seq<Op> {
    if ps == [] then [] else PacketOps(ps[0], log) + Packets(ps[1..], log)
  }

  /** One use of each connection, as in the timeout scan, `on_timeout` and `retain`. */
  function EachConn(gs: seq<nat>): seq<Op> {
    if gs == [] then [] else Use(Connection(gs[0])) + EachConn(gs[1..])
  }

  /** The write loop: for each client, its number of `send` calls. */
  function Writes(sends: seq<(nat, nat)>, log: Logging): seq<Op> {
    if sends == [] then []
    else
      var (g, n) := sends[0];
      Logged(Connection(g), log.verbose) + (Times(n, Use(Connection(g))) + Writes(sends[1..], log))
  }

  /** One turn of the outer loop of `server_loop`; the socket lock is held from the poll to the end of the turn. */
  datatype Turn = Turn(before: seq<nat>, timedOut: bool, packets: seq<Packet>, sends: seq<(nat, nat)>, after: seq<nat>)

  function Inside(turn: Turn, log: Logging): seq<Op> {
    (if turn.timedOut then EachConn(turn.before) else Packets(turn.packets, log)) +
    (Writes(turn.sends, log) + With(SharedStreams, EachConn(turn.after)))
  }

  function TurnOps(turn: Turn, log: Logging): seq<Op> {
    EachConn(turn.before) + With(ServerSocket, Inside(turn, log))
  }

  /** Receiving fails on some packet, with error logging on. */
  predicate LogsFailedRecv(turn: Turn, log: Logging) {
    !turn.timedOut && log.error && exists i :: 0 <= i < |turn.packets| && turn.packets[i].RecvFails?
  }

  const SOCKET: set<Lock> := {ServerSocket}

  lemma {:induction false} EachConnNeutral(held: set<Lock>, gs: seq<nat>)
    requires forall h :: h in held ==> Rank(h) < 3
    ensures Neutral(held, EachConn(gs))
  {
    if gs != [] {
      EachConnNeutral(held, gs[1..]);
      UseRule(held, Connection(gs[0]));
      SeqRule(held, Use(Connection(gs[0])), EachConn(gs[1..]));
    }
  }

  lemma CreationNeutral(created: bool)
    ensures Neutral(SOCKET, Creation(created))
  {
    if created {
      UseRule(SOCKET + {ServerConfig}, SharedStreams);
      WithRule(SOCKET, ServerConfig, Use(SharedStreams));
    }
  }

  /** Logging the failed call takes the connection's lock a second time. */
  lemma FailedIff(held: set<Lock>, g: nat, log: Logging)
    requires Below(held, Connection(g))
    ensures Balanced(held, Failed(g, log))
    ensures Neutral(held, Failed(g, log)) <==> !log.error
  {
    var inner := held + {Connection(g)};
    UseRule(inner, Connection(g));
    assert !Below(inner, Connection(g)) by {
      assert Connection(g) in inner;
    }
    WithRule(held, Connection(g), Logged(Connection(g), log.error));
  }

  lemma LoggedNeutral(g: nat, on: bool)
    ensures Neutral(SOCKET, Logged(Connection(g), on)) && Neutral(SOCKET, Use(Connection(g)))
  {
    UseRule(SOCKET, Connection(g));
  }

  lemma WritableNeutral(g: nat, n: nat)
    ensures Neutral(SOCKET, Times(n, With(Connection(g), Use(Partial(g)))))
  {
    UseRule(SOCKET + {Connection(g)}, Partial(g));
    WithRule(SOCKET, Connection(g), Use(Partial(g)));
    TimesRule(SOCKET, n, With(Connection(g), Use(Partial(g))));
  }

  lemma PacketIff(p: Packet, log: Logging)
    ensures Balanced(SOCKET, PacketOps(p, log))
    ensures Neutral(SOCKET, PacketOps(p, log)) <==> !(p.RecvFails? && log.error)
  {
    match p
    case Unserved =>
    case RecvFails(g, created) =>
      CreationNeutral(created);
      FailedIff(SOCKET, g, log);
      SeqRule(SOCKET, Creation(created), Failed(g, log));
    case Received(g, created, ready, writable) =>
      var c := Use(Connection(g));
      CreationNeutral(created);
      LoggedNeutral(g, log.verbose);
      WritableNeutral(g, writable);
      var each := Times(writable, With(Connection(g), Use(Partial(g))));
      SeqRule(SOCKET, c, each);
      var tail := if ready then c + each else [];
      SeqRule(SOCKET, c, tail);
      SeqRule(SOCKET, c, c + tail);
      SeqRule(SOCKET, Logged(Connection(g), log.verbose), c + (c + tail));
      SeqRule(SOCKET, c, Logged(Connection(g), log.verbose) + (c + (c + tail)));
      SeqRule(SOCKET, Creation(created), c + (Logged(Connection(g), log.verbose) + (c + (c + tail))));
  }

  lemma {:induction false} PacketsIff(ps: seq<Packet>, log: Logging)
    ensures Balanced(SOCKET, Packets(ps, log))
    ensures Neutral(SOCKET, Packets(ps, log)) <==>
            !(log.error && exists i :: 0 <= i < |ps| && ps[i].RecvFails?)
  {
    if ps != [] {
      PacketIff(ps[0], log);
      PacketsIff(ps[1..], log);
      SeqRule(SOCKET, PacketOps(ps[0], log), Packets(ps[1..], log));
      assert forall i :: 0 < i < |ps| ==> ps[1..][i - 1] == ps[i];
    }
  }

  lemma {:induction false} WritesNeutral(sends: seq<(nat, nat)>, log: Logging)
    ensures Neutral(SOCKET, Writes(sends, log))
  {
    if sends != [] {
      var (g, n) := sends[0];
      WritesNeutral(sends[1..], log);
      LoggedNeutral(g, log.verbose);
      TimesRule(SOCKET, n, Use(Connection(g)));
      SeqRule(SOCKET, Times(n, Use(Connection(g))), Writes(sends[1..], log));
      SeqRule(SOCKET, Logged(Connection(g), log.verbose), Times(n, Use(Connection(g))) + Writes(sends[1..], log));
    }
  }

  /**
    * A turn of the server loop keeps the lock order, whatever packets, timeouts, writes and
    * collections it has, exactly when it does not log a failed receive.
    */
  lemma TurnOrderedIff(turn: Turn, log: Logging)
    ensures Ordered(TurnOps(turn, log)) <==> !LogsFailedRecv(turn, log)
    ensures Balanced({}, TurnOps(turn, log))
  {
    var first := if turn.timedOut then EachConn(turn.before) else Packets(turn.packets, log);
    var gc := With(SharedStreams, EachConn(turn.after));
    EachConnNeutral({}, turn.before);
    EachConnNeutral(SOCKET, turn.before);
    PacketsIff(turn.packets, log);
    WritesNeutral(turn.sends, log);
    EachConnNeutral(SOCKET + {SharedStreams}, turn.after);
    WithRule(SOCKET, SharedStreams, EachConn(turn.after));
    SeqRule(SOCKET, Writes(turn.sends, log), gc);
    SeqRule(SOCKET, first, Writes(turn.sends, log) + gc);
    assert {} + {ServerSocket} == SOCKET;
    WithRule({}, ServerSocket, Inside(turn, log));
    SeqRule({}, EachConn(turn.before), With(ServerSocket, Inside(turn, log)));
  }

  /** `handle_stream`, run by any thread: logging, sending, storing what is left, waking. */
  function HandleStreamOps(g: nat, fails: bool, stores: bool, log: Logging): seq<Op> {
    var c := Connection(g);
    var send := if fails then Failed(g, log) else Use(c);
    var after := if fails then [] else (if stores then Use(Partial(g)) else []) + (Logged(c, log.verbose) + Use(Waker));
    Logged(c, log.verbose) + (Logged(c, log.verbose) + (send + after))
  }

  lemma HandleStreamOrderedIff(g: nat, fails: bool, stores: bool, log: Logging)
    ensures Ordered(HandleStreamOps(g, fails, stores, log)) <==> !(fails && log.error)
    ensures Balanced({}, HandleStreamOps(g, fails, stores, log))
  {
    var c := Connection(g);
    var logged := Logged(c, log.verbose);
    var send := if fails then Failed(g, log) else Use(c);
    var store := if stores then Use(Partial(g)) else [];
    var after := if fails then [] else store + (logged + Use(Waker));
    FailedIff({}, g, log);
    UseRule({}, c);
    UseRule({}, Partial(g));
    UseRule({}, Waker);
    SeqRule({}, logged, Use(Waker));
    SeqRule({}, store, logged + Use(Waker));
    SeqRule({}, send, after);
    SeqRule({}, logged, send + after);
    SeqRule({}, logged, logged + (send + after));
  }

  // ---------- The application's calls ----------

  datatype Call =
    | Accept(scans: nat)                // blocking or not: one critical section a scan
    | Recv(g: nat)
    | Send(g: nat, sendable: bool)
    | IsClosed(g: nat)
    | Close(g: nat, closed: bool)       // server side

  function CallOps(c: Call): seq<Op> {
    match c
    case Accept(scans) => Times(scans, Use(SharedStreams))
    case Recv(g) => Use(Connection(g))
    case Send(g, sendable) => With(Connection(g), if sendable then Use(Waker) else [])
    case IsClosed(g) => Use(Connection(g))
    case Close(g, closed) => Use(Connection(g)) + (if closed then Use(SharedStreams) else [])
  }

  lemma CallNeutral(c: Call)
    ensures Ordered(CallOps(c))
  {
    UseRule({}, SharedStreams);
    match c
    case Accept(scans) => TimesRule({}, scans, Use(SharedStreams));
    case Recv(g) => UseRule({}, Connection(g));
    case Send(g, sendable) =>
      UseRule({} + {Connection(g)}, Waker);
      WithRule({}, Connection(g), if sendable then Use(Waker) else []);
    case IsClosed(g) => UseRule({}, Connection(g));
    case Close(g, closed) =>
      UseRule({}, Connection(g));
      SeqRule({}, Use(Connection(g)), if closed then Use(SharedStreams) else []);
  }

  function Calls(cs: seq<Call>): seq<Op> {
    if cs == [] then [] else CallOps(cs[0]) + Calls(cs[1..])
  }

  lemma {:induction false} CallsOrdered(cs: seq<Call>)
    ensures Ordered(Calls(cs))
  {
    if cs != [] {
      CallNeutral(cs[0]);
      CallsOrdered(cs[1..]);
      SeqRule({}, CallOps(cs[0]), Calls(cs[1..]));
    }
  }

  // ---------- Any threads doing any of this ----------

  datatype Task =
    | ServerTurn(turn: Turn)
    | ApiCall(call: Call)
    | HandleStream(g: nat, fails: bool, stores: bool)

  function TaskOps(task: Task, log: Logging): seq<Op> {
    match task
    case ServerTurn(turn) => TurnOps(turn, log)
    case ApiCall(call) => CallOps(call)
    case HandleStream(g, fails, stores) => HandleStreamOps(g, fails, stores, log)
  }

  /** The task comes to an error arm that logs under the guard of its match scrutinee. */
  predicate LogsFailure(task: Task, log: Logging) {
    match task
    case ServerTurn(turn) => LogsFailedRecv(turn, log)
    case ApiCall(_) => false
    case HandleStream(_, fails, _) => fails && log.error
  }

  function Program(tasks: seq<Task>, log: Logging): seq<Op> {
    if tasks == [] then [] else TaskOps(tasks[0], log) + Program(tasks[1..], log)
  }

  ghost predicate LogsAnyFailure(tasks: seq<Task>, log: Logging) {
    exists k :: 0 <= k < |tasks| && LogsFailure(tasks[k], log)
  }

  /** A thread's program is ordered, or else it blocks itself: exactly if some task logs a failure. */
  lemma {:induction false} ProgramIff(tasks: seq<Task>, log: Logging)
    ensures Balanced({}, Program(tasks, log))
    ensures Ordered(Program(tasks, log)) <==> !LogsAnyFailure(tasks, log)
  {
    if tasks != [] {
      match tasks[0] {
        case ServerTurn(turn) => TurnOrderedIff(turn, log);
        case ApiCall(call) => CallNeutral(call);
        case HandleStream(g, fails, stores) => HandleStreamOrderedIff(g, fails, stores, log);
      }
      ProgramIff(tasks[1..], log);
      SeqRule({}, TaskOps(tasks[0], log), Program(tasks[1..], log));
      assert forall k :: 0 < k < |tasks| ==> tasks[1..][k - 1] == tasks[k];
    }
  }

  /** Before any thread starts; thread t has the tasks `work[t]` to do, the server its turns, say. */
  function Start(work: seq<seq<Task>>, log: Logging): State {
    State(map[], map t: nat | 0 <= t < |work| :: Program(work[t], log))
  }

  ghost predicate IsRunOf(states: seq<State>, threads: seq<nat>, work: seq<seq<Task>>, log: Logging) {
    IsTrace(states, threads) && states[0] == Start(work, log)
  }

  /** Some thread, sooner or later, logs a failure. */
  ghost predicate SomeFailureLogged(work: seq<seq<Task>>, log: Logging) {
    exists t :: 0 <= t < |work| && LogsAnyFailure(work[t], log)
  }

  /**
    * A thread that is to log a failure is never done, in any run and whatever the others do: a server
    * never gets through its turns.
    */
  lemma LoggedFailureStopsThread(states: seq<State>, threads: seq<nat>, i: nat,
                                 work: seq<seq<Task>>, log: Logging, t: nat)
    requires IsRunOf(states, threads, work, log) && i < |states|
    requires t < |work| && LogsAnyFailure(work[t], log)
    ensures t in states[i].rest && states[i].rest[t] != []
  {
    ProgramIff(work[t], log);
    NeverDone(states, threads, i, t);
  }

  /**
    * The server and any number of other threads, doing any tasks in any interleaving, never deadlock
    * if no failure is logged.
    */
  lemma ServerNeverDeadlocks(states: seq<State>, threads: seq<nat>, i: nat, work: seq<seq<Task>>, log: Logging)
    requires IsRunOf(states, threads, work, log) && i < |states|
    requires !SomeFailureLogged(work, log)
    ensures Halted(states[i]) ==> AllDone(states[i])
  {
    forall t | t in states[0].rest ensures Ordered(states[0].rest[t]) {
      ProgramIff(work[t], log);
    }
    NeverStuck(states, threads, i);
  }

  /** A run that is over is a deadlock exactly if some thread was to log a failure; and every run comes to its end. */
  lemma DeadlockIff(states: seq<State>, threads: seq<nat>, work: seq<seq<Task>>, log: Logging)
    requires IsRunOf(states, threads, work, log) && Halted(states[|threads|])
    ensures !AllDone(states[|threads|]) <==> SomeFailureLogged(work, log)
  {
    if SomeFailureLogged(work, log) {
      var t :| 0 <= t < |work| && LogsAnyFailure(work[t], log);
      LoggedFailureStopsThread(states, threads, |threads|, work, log, t);
    } else {
      ServerNeverDeadlocks(states, threads, |threads|, work, log);
    }
  }

  ghost predicate Deadlocks(states: seq<State>, threads: seq<nat>, work: seq<seq<Task>>, log: Logging) {
    IsRunOf(states, threads, work, log) && Halted(states[|threads|]) && !AllDone(states[|threads|])
  }

  /** Whether the threads can deadlock at all does not depend on their interleaving. */
  lemma CanDeadlockIff(work: seq<seq<Task>>, log: Logging)
    ensures (exists states, threads :: Deadlocks(states, threads, work, log)) <==> SomeFailureLogged(work, log)
  {
    var states, threads := RunsToTheEnd([Start(work, log)], []);
    DeadlockIff(states, threads, work, log);
    assert SomeFailureLogged(work, log) ==> Deadlocks(states, threads, work, log);
    forall states, threads | Deadlocks(states, threads, work, log) ensures SomeFailureLogged(work, log) {
      DeadlockIff(states, threads, work, log);
    }
  }

  /** The shortest case: a server alone, in one turn that logs the failure of one packet, waits for itself. */
  lemma LoggedFailureBlocksItself(g: nat)
    ensures var turn := Turn([], false, [RecvFails(g, false)], [], []);
            var s := Start([[ServerTurn(turn)]], Logging(true, false));
            && Enabled(s, 0) && Enabled(Step(s, 0), 0)
            && var t := Step(Step(s, 0), 0);
            WaitsFor(t, 0, 0) && Halted(t)
  {
    var log := Logging(true, false);
    var turn := Turn([], false, [RecvFails(g, false)], [], []);
    var s := Start([[ServerTurn(turn)]], log);
    assert Packets(turn.packets, log) == PacketOps(turn.packets[0], log) + Packets([], log);
    assert Program([ServerTurn(turn)], log) == TurnOps(turn, log) + Program([], log);
    assert s.rest[0] == TurnOps(turn, log);
    assert s.rest[0][..3] == [Acquire(ServerSocket), Acquire(Connection(g)), Acquire(Connection(g))];
  }
}
