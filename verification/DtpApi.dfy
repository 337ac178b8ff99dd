/** The registry's calls as the code makes them, each on the maps of the one global `DtpApi`. */
module DtpApi {
  import opened Bytes
  import opened Ints
  import opened Registry

  class DtpApi {
    var sockMap: map<int, Option<nat>>
    var clientMap: map<int, nat>
    var serverMap: map<int, DtpServer>
    var serverWakerMap: map<int, nat>
    var serverSharedMap: map<int, nat>
    var serverHandles: map<int, nat>
    var clientHandles: map<int, nat>
    var nextFd: int

    /** The client-side connections given out and not freed yet. */
    var conns: map<nat, ClientConn>
    var made: nat
    ghost var issued: nat

    ghost function Abs(): State
      reads this
    {
      State(sockMap, clientMap, serverMap, serverWakerMap, serverSharedMap, serverHandles, clientHandles,
            nextFd, issued, conns, made)
    }

    ghost predicate Valid()
      reads this
    {
      Inv(Abs())
    }

    constructor ()
      ensures Valid() && Abs() == INIT
    {
      sockMap, clientMap, serverMap := map[], map[], map[];
      serverWakerMap, serverSharedMap, serverHandles, clientHandles := map[], map[], map[], map[];
      nextFd, issued, conns, made := 0, 0, map[], 0;
    }

    method DtpSocket() returns (r: Result)
      requires Valid()
      modifies `sockMap, `nextFd, `issued
      ensures Valid() && r == ResultOf(old(Abs()), Socket) && Abs() == Apply(old(Abs()), Socket)
      ensures r == Code(old(nextFd)) && sockMap == old(sockMap)[old(nextFd) := None]
      ensures IsI32(nextFd) && (nextFd - (old(nextFd) + 1)) % 0x1_0000_0000 == 0
    {
      StepKeepsInv(Abs(), Socket);
      var fd := nextFd;
      sockMap := sockMap[fd := None];
      nextFd := WrapI32(nextFd + 1);
      issued := issued + 1;
      return Code(fd);
    }

    method DtpSocketClose(sock: int) returns (r: Result)
      requires Valid()
      modifies `sockMap
      ensures Valid() && r == ResultOf(old(Abs()), SocketClose(sock)) && Abs() == Apply(old(Abs()), SocketClose(sock))
      ensures var idle := sock !in serverMap && sock !in serverHandles && sock !in clientMap && sock !in clientHandles;
              if sock in old(sockMap) && idle then r == Code(0) && sockMap == old(sockMap) - {sock}
              else r == Code(-1) && sockMap == old(sockMap)
    {
      StepKeepsInv(Abs(), SocketClose(sock));
      if sock !in sockMap {
        return Code(-1);
      }
      if HasClient(clientMap, clientHandles, sock) {
        return Code(-1);
      }
      if HasServer(serverMap, serverHandles, sock) {
        return Code(-1);
      }
      sockMap := sockMap - {sock};
      return Code(0);
    }

    /** `bound` is what `DtpServer::bind` gives for the address. */
    method DtpBind(sock: int, bound: Option<DtpServer>) returns (r: Result)
      requires Valid() && (bound.Some? ==> bound.value.config == None)
      modifies `sockMap, `serverMap
      ensures Valid() && r == ResultOf(old(Abs()), Bind(sock, bound)) && Abs() == Apply(old(Abs()), Bind(sock, bound))
      ensures if sock in old(sockMap) && sock !in old(serverMap) && sock !in serverHandles && bound.Some?
              then r == Code(1) && sockMap == old(sockMap)[sock := Some(bound.value.socket)]
                   && serverMap == old(serverMap)[sock := bound.value]
              else r == Code(-1) && sockMap == old(sockMap) && serverMap == old(serverMap)
    {
      StepKeepsInv(Abs(), Bind(sock, bound));
      if sock !in sockMap {
        return Code(-1);
      }
      if HasServer(serverMap, serverHandles, sock) {
        return Code(-1);
      }
      if bound == None {
        return Code(-1);
      }
      sockMap := sockMap[sock := Some(bound.value.socket)];
      serverMap := serverMap[sock := bound.value];
      return Code(1);
    }

    /** The server taken out of the map runs on `thread` with the config it is given here. */
    method DtpListen(sock: int, config: nat, thread: nat) returns (r: Result, running: Option<DtpServer>)
      requires Valid()
      modifies `serverMap, `serverHandles, `serverSharedMap, `serverWakerMap
      ensures Valid() && r == ResultOf(old(Abs()), Listen(sock, config, thread))
      ensures Abs() == Apply(old(Abs()), Listen(sock, config, thread))
      ensures if sock in sockMap && sock in old(serverMap)
              then var b := old(serverMap)[sock];
                   && r == ServerConns(b.waker, b.streams, sock) && serverMap == old(serverMap) - {sock}
                   && serverHandles == old(serverHandles)[sock := thread]
                   && serverSharedMap == old(serverSharedMap)[sock := b.streams]
                   && serverWakerMap == old(serverWakerMap)[sock := b.waker]
              else r == Null && Abs() == old(Abs())
      ensures running == if r.ServerConns? then Some(old(serverMap)[sock].(config := Some(config))) else None
    {
      StepKeepsInv(Abs(), Listen(sock, config, thread));
      running := None;
      if sock !in sockMap {
        return Null, running;
      } else if !HasServer(serverMap, serverHandles, sock) {
        return Null, running;
      }
      if sock in serverMap {
        var server := serverMap[sock].(config := Some(config));
        serverMap := serverMap - {sock};
        running := Some(server);
        serverHandles := serverHandles[sock := thread];
        serverSharedMap := serverSharedMap[sock := server.streams];
        serverWakerMap := serverWakerMap[sock := server.waker];
        return ServerConns(server.waker, server.streams, sock), running;
      } else {
        return Null, running;
      }
    }

    method DtpConnect(sock: int, hasConfig: bool, socket: nat, thread: nat) returns (r: Result)
      requires Valid()
      modifies `sockMap, `clientHandles, `conns, `made
      ensures Valid() && r == ResultOf(old(Abs()), Connect(sock, hasConfig, socket, thread))
      ensures Abs() == Apply(old(Abs()), Connect(sock, hasConfig, socket, thread))
      ensures if hasConfig && sock in old(sockMap) && sock !in clientMap && sock !in old(clientHandles)
              then r == ConnIo(old(made)) && made == old(made) + 1
                   && conns == old(conns)[old(made) := ClientConn(sock, Held)]
                   && sockMap == old(sockMap)[sock := Some(socket)]
                   && clientHandles == old(clientHandles)[sock := thread]
              else r == Null && Abs() == old(Abs())
    {
      ghost var s, l := Abs(), Connect(sock, hasConfig, socket, thread);
      StepKeepsInv(s, l);
      if !hasConfig {
        return Null;
      }
      if sock !in sockMap {
        return Null;
      }
      if HasClient(clientMap, clientHandles, sock) {
        return Null;
      }
      sockMap := sockMap[sock := Some(socket)];
      clientHandles := clientHandles[sock := thread];
      var c := made;
      conns := conns[c := ClientConn(sock, Held)];
      made := made + 1;
      assert Succeeds(s, l) && Abs() == Apply(s, l);
      return ConnIo(c);
    }

    /**
      * The client side of `dtp_close` on a connection of the caller's: never a panic, -1 exactly on a
      * connection neither closed nor established. `joined` is the thread waited for.
      */
    method DtpCloseClient(c: nat, closed: bool, established: bool) returns (r: Result, joined: Option<nat>)
      requires Valid() && c in conns && conns[c].pc == Held
      modifies `clientHandles, `conns
      ensures Valid()
      ensures r == Code(if closed || established then 1 else -1)
      ensures var sock := old(conns)[c].sock;
              sock in old(clientHandles)
              && joined == if !closed && established then Some(old(clientHandles)[sock]) else None
      ensures conns == if closed || established then old(conns) - {c} else old(conns)
      ensures clientHandles == if !closed && established then old(clientHandles) - {old(conns)[c].sock}
                               else old(clientHandles)
      ensures var t := Apply(old(Abs()), CloseCheck(c, closed, established));
              Abs() == if !closed && established then Apply(t, CloseJoin(c)) else t
    {
      ghost var s := Abs();
      ghost var t := Apply(s, CloseCheck(c, closed, established));
      StepKeepsInv(s, CloseCheck(c, closed, established));
      assert ConnOk(s.clientHandles, s.conns, s.made, c);
      joined := None;
      if closed {
        conns := conns - {c};
        return Code(1), joined;
      } else if established {
        StepKeepsInv(t, CloseJoin(c));
        var sock := conns[c].sock;
        if sock in clientHandles {
          joined := Some(clientHandles[sock]);
          clientHandles := clientHandles - {sock};
        } else {
          assert false;
        }
        conns := conns - {c};
        assert t.conns - {c} == conns;
        return Code(1), joined;
      } else {
        return Code(-1), joined;
      }
    }
  }
}
