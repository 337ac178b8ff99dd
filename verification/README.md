# Verified model of the DTP socket API

The repository wraps the quiche QUIC library in a socket-like C API. A server thread and any number
of application threads share maps of connections; a global registry hands out descriptors; two small
byte protocols (retry tokens, fixed-size frames) sit at the edges. This project models those parts in
Dafny 4.11 and proves what keeps them consistent. `dafny verify dfyconfig.toml` checks everything.

## How it is built

| files | what they model |
|---|---|
| `Retry`, `Routing` | retry tokens; what the read loop does with a packet, given the live connection ids (server side of sections 8.1.2 and 17.2.5 of RFC 9000) |
| `Lifecycle`, `LifecycleRuns`, `SweepRuns`, `AcceptRuns`, `RoutingRuns` | the server's maps as a step machine over locks, and theorems over all its runs |
| `ServerLoop` | the same maps as a class whose methods follow the code, each shown to be machine steps |
| `LockOrder`, `LockPaths` | threads that take locks by rank, and threads that lock what they hold; the lock sequences of the server loop, the calls and `handle_stream`, and exactly when they deadlock |
| `PartialResponses` | responses written piecemeal: machine, run theorems and class |
| `Registry`, `RegistryRuns`, `RegistryHistory`, `DtpApi` | the descriptor registry: machine, run theorems, what each call answers as its callers see it, and class |
| `Recv`, `Ints` | `dtp_recv`, its return codes and integer casts |
| `LoopBuf`, `Text` | frame reassembly, the drain loop and its replies |
| `Bytes`, `MapSum` | ids and the keyed hash; sums over maps |

A connection object is named by its position in the sequence of all connections ever created, so an
id that is used again after collection names a later *generation*. The keyed hash of the server (HMAC
cut to 20 bytes) is an arbitrary function parameter: every theorem holds for any such function, also
one with fixed points or collisions. Steps of the server machine are the critical sections of the
code, with `clients.insert` and `client_status.insert` as two steps, one step per entry of a garbage
collection pass, and the check, the mark and the free of `dtp_close` as three. The code does the last
two under one lock, so the machine has more interleavings than the code. A connection may become
closed at any moment.

## What the proofs rest on

- quiche: `source_id` stays the id given to `accept`, a closed connection stays closed, `stream_send`
  and `stream_recv` move at most the bytes offered, Initial packets carry a token field.
- Callers: a connection handle is used by one `dtp_close` at a time and not after one that freed it; a
  stream id is not given a second response (src/ffi.rs:455). The code does not check the latter;
  `PartialResponses.SecondResponseIff` says what then becomes of the bytes, `handle_writable` between
  its two locks included.
- The release build, in which `next_fd` wraps around; a debug build panics at the 2^31-st socket.
- Deadlocks: a thread that locks a mutex it holds waits for ever. The Rust standard library leaves open
  whether `std::sync::Mutex` then blocks or panics; where it panics, the thread ends instead.

## Where the code and its documentation differ

- `dtp_socket` is documented to return a positive number (src/ffi.rs:98-102). The first is 0, and they
  are negative after 2^31 calls: `RegistryRuns.FdPositiveIff`. After 2^32 calls they come again, over
  what is still bound or connected: `RegistryRuns.ReissuedIff`, `RegistryRuns.BoundSocketLost`.
- A token is documented to be checked against the client's address. Across address families the check
  is a prefix test, so every v6 token is good for one v4 address too, with a wrong original id:
  `Retry.MintedAcceptedIff`, `Retry.CrossFamilyToken`.
- `dtp_close` is documented to return 1 or -1. On the server side, with debug logging on, the branch
  for a connection that is not closed unwraps a socket id that is always absent:
  `ServerLoop.Server.DtpClose` states exactly when.
- `dtp_close` on a client connection that is already closed frees the connection but leaves the
  descriptor marked as connected for ever: `RegistryRuns.CloseReleasesIff`, `RegistryRuns.StrandedForever`,
  `RegistryRuns.StrandsFd`.
- The error arms after `recv` and after `stream_send` log while the guard in the match scrutinee is still
  held, and lock the same connection again. A thread that comes to log such a failure stops there for
  ever, and the threads end in a deadlock exactly if there is one: `LockPaths.DeadlockIff`,
  `LockPaths.CanDeadlockIff`, `LockPaths.LoggedFailureStopsThread`.
- `dtp_recv` is documented to return -1 on failure; it never does. Its code 0 also stands for "nothing
  readable", and stream ids are cut to 32 bits: `Recv.DtpRecv`, `Recv.NothingDeliveredIff`,
  `Recv.ZeroIsAmbiguous`, `Recv.StreamIdExactIff`. The header declares a 64-bit stream id pointer where the code writes 32 bits.
- The statuses `NotConnected` and `Wait` are never set; `client_map` is never filled.

## Model

| member | source | states |
|---|---|---|
| Retry.MintToken | src/server.rs:438-452 | a minted token is the tag, the address and the id, in this order, and validates, for its own address, to the id it was minted from |
| Retry.ValidateToken | src/server.rs:461-482 | a token gives an original id from an address if and only if it is the tag, that address and that id, in this order |
| Retry.MintedAcceptedIff | src/server.rs:472-479 | from which addresses, of either family, a minted token is accepted, and which original id it gives there |
| Retry.MintedForOneAddress | src/server.rs:454-482 | within a family a token is good for its own address only, from any port, and returns the id |
| Retry.CrossFamilyToken | src/server.rs:477-479 | every v6 token is accepted from the v4 address its own begins with, and gives a wrong original id |
| Routing.CreateIff | src/server.rs:151-239 | exactly which packets create a connection, with which ids |
| Routing.RetryHandshake | src/server.rs:175-228 | any supported Initial without token that addresses no live connection is answered with a Retry; a client that answers it gets its connection under the hash of its first id, with that id as original id, unless named ids are live |
| Lifecycle.StepKeepsInv | src/server.rs:145-425 | every step of every thread keeps the invariant of the shared maps and handles |
| Lifecycle.StepKeepsHeld | src/ffi.rs:244-258 | no step loses the handle of an accepted connection |
| LifecycleRuns.RunInv | src/server.rs:145-425 | the invariant holds in every state of every run |
| LifecycleRuns.StepRefines | src/server.rs:251-257 | each step moves each generation one phase on or not at all, exactly when its label says so |
| LifecycleRuns.PhasesNeverGoBack | src/server.rs:251-257 | over a run the phase of a generation only advances |
| LifecycleRuns.EachPhaseEndsOnce | src/ffi.rs:240-258 | a generation is created, published, accepted, released and collected at most once each |
| LifecycleRuns.CollectedHadItsLife | src/server.rs:401-424 | a collected generation was, in order, created, published, accepted, released through the handle given out then, and swept: no early collection |
| LifecycleRuns.ReleasedByItsAccepter | src/ffi.rs:248-256 | a generation is released through the very handle its accept gave out, and through no other |
| LifecycleRuns.FreedBoxStaysFreed | src/ffi.rs:606-611 | a handle freed by dtp_close is gone in every later state |
| LifecycleRuns.AcceptedOnce | src/ffi.rs:244-257 | no two accepts, by any threads, hand out one connection object |
| LifecycleRuns.NoStaleHandle | src/ffi.rs:599-607 | marking through a handle finds the handle's own generation, still a client, accepted and closed, and changes no other generation |
| LifecycleRuns.AcceptedIffOneHandle | src/ffi.rs:246-256 | in every reachable state an entry is accepted if and only if exactly one handle has still to release it |
| LifecycleRuns.OverwritesBuryTheDead | src/server.rs:251-257 | publishing over an entry replaces a closed, released and collected generation without unreleased handle |
| LifecycleRuns.IdComesBack | src/server.rs:251-257 | for any id and hash, a run that publishes a second generation over the entry of the collected first |
| SweepRuns.SweepFindsEntry | src/server.rs:400-423 | garbage collection finds every client's entry, with the same connection: the unreachable arm is dead |
| SweepRuns.PassIsExact | src/server.rs:400-425 | one pass removes exactly the clients marked Close when it began, under any interference |
| AcceptRuns.AcceptsDrain | src/ffi.rs:240-267 | n accepts on m pending connections give min(n, m) distinct ones first, then null, and touch nothing else |
| RoutingRuns.OwnsUntilCollected | src/server.rs:261-265 | a retried client's connection keeps both its ids until it is collected, whatever else is created or collected |
| RoutingRuns.RetriedClientIsServed | src/server.rs:145-265 | the whole handshake over a run, from the first packet on: the Retry sent, the connection made, and every later packet for either id delivered to it |
| RoutingRuns.DeliveredToOldest | src/server.rs:145-265 | in every reachable state a packet is delivered exactly if some live connection has its id, or the hash of it, as source id; and then to the oldest such one, which is published |
| RoutingRuns.AnswersIff | src/server.rs:151-239 | in every reachable state, exactly which packets get version negotiation, a Retry (and what is in it), a connection, or nothing |
| RoutingRuns.OlderTwinWins | src/server.rs:145-151 | live ids have full length; when an id and its hash are both live, the id's connection is older and gets its packets |
| ServerLoop.Server.OnPacket | src/server.rs:145-266 | the read loop's lookup and creation path performs the machine's steps, never misses the client it delivers to, and puts a new connection into both maps, pending |
| ServerLoop.Server.RetainEntry | src/server.rs:401-423 | the retain closure is the machine's sweep of one key |
| ServerLoop.Server.CollectGarbage | src/server.rs:400-425 | a pass in any order leaves exactly the clients not marked Close |
| ServerLoop.Server.DtpAccept | src/ffi.rs:241-259 | a scan in any order accepts one pending connection in a new box, or finds that there is none |
| ServerLoop.Server.DtpClose | src/ffi.rs:580-611 | the server-side close: result, when it panics, and the whole new state: own entry marked, own handle gone, nothing else |
| PartialResponses.StepKeepsInv | src/server.rs:522-595 | each step keeps, per stream, accepted bytes equal to the written part of the body |
| PartialResponses.OtherStreamsUntouched | src/server.rs:571-595 | a step about one stream leaves all others alone |
| PartialResponses.DroppedIff | src/server.rs:578-595 | an entry disappears if and only if the stream failed or the whole body is out |
| PartialResponses.RunsLoseNothing | src/server.rs:299-302 | over every run nothing is lost, repeated or reordered, and a stream without entry has its whole body out |
| PartialResponses.RemainingFalls | src/server.rs:541-595 | conservation: how each step changes the bytes still to be sent |
| PartialResponses.CompletesWithin | src/server.rs:299-302 | in any run on which the stream does not fail, whatever happens on other streams, a response is complete after as many calls that get something out as bytes were left |
| PartialResponses.SecondResponseIff | src/server.rs:522-550 | with any handle_writable calls between its send and its insert, a second response on a stream keeps all bytes in order if and only if its part sent at once commutes with the rest of the first, and nothing is inserted or nothing of the first is left by then |
| PartialResponses.Responder.HandleStream | src/server.rs:522-550 | the write part of handle_stream performs the machine's steps, also on a stream id used before; on a new one nothing is lost |
| PartialResponses.Responder.HandleWritable | src/server.rs:561-596 | handle_writable performs the machine's step |
| Registry.StepKeepsInv | src/lib.rs:137-171 | every call keeps the seven maps consistent, also after descriptors have wrapped around; until then issued descriptors are new and all in use have their socket |
| Registry.SocketLostIff | src/lib.rs:140-145 | a descriptor in use loses its socket entry if and only if dtp_socket issues it again |
| RegistryRuns.RunInv | src/lib.rs:137-171 | so they are consistent in every state of every run |
| RegistryRuns.BoundSocketLost | src/lib.rs:140-145 | a run in which the descriptor of a bound server is issued again |
| RegistryRuns.ReissuedIff | src/lib.rs:140-145 | two calls return one descriptor if and only if a multiple of 2^32 calls lies between them |
| RegistryRuns.NeverReissued | src/lib.rs:140-145 | before that no descriptor is returned twice, closed or not |
| RegistryRuns.FdPositiveIff | src/ffi.rs:98-107 | exactly which calls return a positive descriptor |
| RegistryRuns.ClosedForever | src/ffi.rs:116-132 | a descriptor once closed never comes back |
| RegistryRuns.BindsAndListensOnce | src/ffi.rs:144-216 | in every run, each descriptor is bound at most once and listens at most once |
| RegistryRuns.ServesWhatWasBound | src/ffi.rs:162-216 | once bound, a descriptor serves with the streams and waker of that one bind for ever, before and after it listens |
| RegistryRuns.RunsOwnThread | src/ffi.rs:309-317 | while a connection is live, the thread registered for its descriptor is the one its own connect started |
| RegistryRuns.CloseNeverPanics | src/ffi.rs:546-551 | the unwrap of the client handle succeeds in every interleaving, and no other connection has that descriptor |
| RegistryRuns.CloseReleasesIff | src/ffi.rs:524-579 | closing a client connection strands the descriptor if and only if the connection is closed by then; an established one can be joined, which frees it; else nothing changes |
| RegistryRuns.ClosingUntilJoined | src/ffi.rs:530-551 | between seeing the connection established and joining, no call of any thread takes the join away |
| RegistryRuns.JoinFrees | src/ffi.rs:546-566 | whatever happened since the check, the join leaves the descriptor free to be connected again |
| RegistryRuns.StrandedForever | src/ffi.rs:290-297 | a stranded descriptor can never be connected or closed again |
| RegistryRuns.StrandsFd | src/ffi.rs:524-529 | a run of three calls that strands a descriptor |
| RegistryRuns.ServerAndClientAtOnce | src/ffi.rs:144-151 | a run in which one descriptor is bound as a server and connected as a client |
| RegistryHistory.AnswersFollow | src/ffi.rs:98-346 | in every run, what each call returns, told from the earlier calls and their answers alone |
| RegistryHistory.OpenIff | src/lib.rs:140-145 | a descriptor has an entry if and only if it was returned and not closed since |
| RegistryHistory.ListenGivesWhatWasBound | src/ffi.rs:189-216 | a successful listen returns the waker and streams of the descriptor's bind, and so do the maps from then on |
| RegistryHistory.ClosedIsClosed | src/ffi.rs:116-132 | after a close answered 0 there is no entry, and close, bind, listen and connect of the descriptor fail, until descriptors wrap around |
| DtpApi.DtpApi.DtpSocket | src/lib.rs:140-145 | dtp_socket performs the machine's step: returns next_fd, enters it without socket, counts on with wrap-around |
| DtpApi.DtpApi.DtpSocketClose | src/ffi.rs:116-132 | exactly when it is answered 0, and then the entry is gone |
| DtpApi.DtpApi.DtpBind | src/ffi.rs:141-165 | exactly when it is answered 1, and the entries it then makes |
| DtpApi.DtpApi.DtpListen | src/ffi.rs:174-219 | exactly when it succeeds; it returns the bound server's waker and streams, keeps them, and runs that server with its config |
| DtpApi.DtpApi.DtpConnect | src/ffi.rs:274-346 | exactly when it succeeds, and the connection and entries it then makes |
| DtpApi.DtpApi.DtpCloseClient | src/ffi.rs:524-579 | the client-side close never panics, returns -1 exactly on a connection neither closed nor established, and otherwise joins the thread registered for its descriptor unless already closed |
| Recv.ErrorsDecode | include/quiche.h:69-117 | every quiche error code is the header's and reads back as its error |
| Recv.DtpRecv | src/ffi.rs:355-449 | which calls are refused with -404, -22 and -42; otherwise the first answer that is not Done, as count or header code, with its stream id and end exactly on delivery; the code reads back unambiguously and is never -1 |
| Recv.StreamIdExactIff | src/ffi.rs:425 | exactly which stream ids are reported unchanged, and which are reported alike |
| Recv.NothingDeliveredIff | src/ffi.rs:406-448 | a call that returns a count delivered nothing if and only if every readable stream answered Done; a positive count is always a delivery |
| Recv.ZeroIsAmbiguous | src/ffi.rs:406-448 | two calls with code 0, one of which delivered the end of a stream |
| LoopBuf.Reassembles | examples/udp_high_test.rs:17-50 | for any calls in any order, the heads of all input are those yielded followed by those still held |
| LoopBuf.HeldIsInputsEnd | examples/udp_high_test.rs:25-39 | held bytes are the end of the input; fed bytes are 1200 for each head yielded plus the rest |
| LoopBuf.DrainedOutputIsInput | examples/udp_high_test.rs:41-50 | after draining, output depends on the input bytes alone, not on chunks or interleaving |
| LoopBuf.HeadAt | examples/udp_high_test.rs:27-32 | head i of a byte stream is its eight bytes at 1200 i |
| LoopBuf.NumbersArrive | examples/udp_high_test.rs:17-50 | the i-th number that comes out for an address is the one in the i-th frame its client sent, however frames are cut up and mixed |
| LoopBuf.FrameRoundTrip | examples/udp_high_test.rs:134-136 | a client's frame, fed and got, gives its number |
| LoopBuf.NoFramesIff | examples/udp_high_test.rs:41-50 | the count of whole frames is zero if and only if no address has one |
| LoopBuf.LoopBuf.Feed | examples/udp_high_test.rs:17-23 | feed appends, for a known and for a new address |
| LoopBuf.LoopBuf.Get | examples/udp_high_test.rs:25-39 | get takes one frame off the front, or nothing |
| LoopBuf.LoopBuf.GetFirst | examples/udp_high_test.rs:41-50 | get_first finds a frame whenever there is one, in any order of iteration, and its unwrap never fails |
| LoopBuf.LoopBuf.Drain | examples/udp_high_test.rs:101-114 | the drain loop ends after exactly the whole frames held, in order for each address, leaves exactly the bytes behind them, and each reply reads back as the number of its frame |
| LoopBuf.EncodeReply | examples/udp_high_test.rs:103-106 | the length-prefixed reply reads back in any receive buffer; the rest of the buffer is untouched |
| LoopBuf.MessageNamesNumber | examples/udp_high_test.rs:103 | two replies are alike if and only if their numbers are |
| Text.NeRoundTrip | examples/udp_high_test.rs:104 | eight native-order bytes read back as the number, in either byte order |
| LockOrder.NoWaitCycle | src/server.rs:96 | threads that follow the rank order never wait in a circle |
| LockOrder.SomeoneCanStep | src/server.rs:96 | from any thread that is not done, a chain of threads, each waiting for the next, ends at one that can go on |
| LockOrder.NeverStuck | src/server.rs:96 | no reachable state of ordered threads is a deadlock |
| LockOrder.NeverDone | src/server.rs:274-284 | a thread that comes to take a lock it holds is not done in any state of any run with any other threads |
| LockOrder.RunsToTheEnd | src/server.rs:96 | every run can be continued until no thread can go on |
| LockPaths.TurnOrderedIff | src/server.rs:84-427 | a turn of the server loop follows the order if and only if it does not log a failed receive; otherwise it comes to a lock it holds |
| LockPaths.HandleStreamOrderedIff | src/server.rs:502-557 | handle_stream follows the order if and only if it does not log a failed send; otherwise it comes to a lock it holds |
| LockPaths.CallsOrdered | src/ffi.rs:226-611 | any sequence of accept, recv, send, is-closed and server-side close calls follows the order |
| LockPaths.ServerNeverDeadlocks | src/server.rs:84-427 | server, application and handle_stream threads never deadlock, unless a failure is logged |
| LockPaths.LoggedFailureStopsThread | src/server.rs:274-284 | a thread that has a failure to log is never done, in any run and whatever the others do |
| LockPaths.DeadlockIff | src/server.rs:84-427 | a run that cannot be continued is a deadlock if and only if some thread had a failure to log |
| LockPaths.CanDeadlockIff | src/server.rs:84-427 | the threads have a run into a deadlock if and only if some thread has a failure to log |
| LockPaths.LoggedFailureBlocksItself | src/server.rs:274-284 | the shortest such run: a server alone, one failed packet, waiting for itself |

## Left out

- quiche itself, HMAC, randomness, certificates and configuration: foreign code, present only as parameters and the assumptions above.
- Polling, timers, sleeping, UDP sockets and wakers: I/O; their results are parameters or free choices of a step.
- Bytes on the wire of Retry and version negotiation packets: made by quiche; only the ids and the token handed to it are modelled.
- The blocking form of `dtp_accept`: a repetition of the scan that is modelled, with sleeps in between.
- `dtp_send`: its return code is a single cast; its locks are in `LockPaths`.
- `dtp_config_*`, `debug_init`, and the calls that are disabled and return -1: forwarding only.
- Panics from failing foreign calls (`DtpClient::connect`, closing a connection that closes meanwhile) and poisoned mutexes: no step.
- JSON and UTF-8 handling in `handle_stream`: library work; only the response bytes matter here.
- src/client.rs, src/message.rs and the demo drivers: event-loop plumbing. The drivers also remove server handles behind the registry's back.
- The payloads of `InvalidStreamState`, `StreamStopped` and `StreamReset`: dropped by the code itself when it makes a return code.
- Connection objects are values in a sequence, not heap objects: sharing is by position, so aliasing is exact, but `Arc` reference counts are not modelled.
- PartialResponses.SecondResponseIff: does not cover two `handle_stream` calls on one stream id that overlap, because the model keeps one response per stream between send and insert.
