/**
  * The server's maps as the code updates them: the read loop's creation path and garbage collection
  * (src/server.rs), and `dtp_accept` and the server side of `dtp_close` (src/ffi.rs). Each method is
  * shown to be steps of the machine in module Lifecycle.
  */
module ServerLoop {
  import opened Bytes
  import opened Retry
  import opened Routing
  import opened Lifecycle
  import opened SweepRuns
  import opened AcceptRuns

  datatype Outcome = Returned(code: int) | Panicked

  /** `s` with the entry of handle `h` marked and the handle gone. */
  function Closed(s: State, h: nat): State
    requires h in s.handles
  {
    var own := s.handles[h];
    s.(status := s.status[own.id := Entry(own.conn, Close)], handles := s.handles - {h})
  }

  /** The three steps of a successful `dtp_close`, run without interruption. */
  lemma CloseSteps(mac: Mac, s: State, h: nat)
    requires SharedFree(s) && Enabled(s, CloseCheck(h)) && s.conns[s.handles[h].conn].closed
    requires s.handles[h].id in s.status && s.status[s.handles[h].id].conn == s.handles[h].conn
    ensures var t := Apply(mac, s, CloseCheck(h));
            && Enabled(t, CloseMark(h))
            && var u := Apply(mac, t, CloseMark(h));
            && Enabled(u, CloseFree(h))
            && Apply(mac, u, CloseFree(h)) == Closed(s, h)
  {
    var t := Apply(mac, s, CloseCheck(h));
    var u := Apply(mac, t, CloseMark(h));
    assert u.handles - {h} == s.handles - {h};
  }

  lemma CloseKeepsInv(mac: Mac, s: State, h: nat)
    requires Inv(mac, s) && SharedFree(s) && Enabled(s, CloseCheck(h)) && s.conns[s.handles[h].conn].closed
    ensures s.handles[h].id in s.status && s.status[s.handles[h].id].conn == s.handles[h].conn
    ensures Inv(mac, Closed(s, h))
  {
    assert HandleInv(mac, s, h) && Unreleased(s.handles, h);
    CloseSteps(mac, s, h);
    var t := Apply(mac, s, CloseCheck(h));
    StepKeepsInv(mac, s, CloseCheck(h));
    var u := Apply(mac, t, CloseMark(h));
    StepKeepsInv(mac, t, CloseMark(h));
    StepKeepsInv(mac, u, CloseFree(h));
  }

  class Server {
    const mac: Mac

    /** Connection objects in order of creation; elsewhere they are referred to by position. */
    var conns: seq<Connection>
    var clients: map<Id, nat>
    var clientStatus: map<Id, Entry>
    var handles: map<nat, Handle>
    var issued: nat
    ghost var pc: ServerPc

    ghost function Abs(): State
      reads this
    {
      State(conns, clients, clientStatus, pc, handles, issued)
    }

    ghost predicate Valid()
      reads this
    {
      Inv(mac, Abs())
    }

    constructor (mac: Mac)
      ensures Valid() && this.mac == mac && Abs() == INIT
    {
      this.mac := mac;
      conns, clients, clientStatus, handles, issued := [], map[], map[], map[], 0;
      pc := Reading;
    }

    /** One packet of the read loop, up to finding or making its client. */
    method OnPacket(hdr: Header, from: SocketAddr) returns (action: Action)
      requires Valid() && pc.Reading?
      modifies this
      ensures Valid() && pc.Reading?
      ensures action == Dispatch(mac, old(clients.Keys), hdr, from)
      ensures Abs() == if action.Create?
                       then Apply(mac, Apply(mac, old(Abs()), Packet(hdr, from)), Publish)
                       else old(Abs())
      ensures action.Deliver? ==> action.key in clients
      ensures action.Create? ==>
                && conns == old(conns) + [Connection(hdr.dcid, action.odcid, false)]
                && clients == old(clients)[hdr.dcid := |old(conns)|]
                && clientStatus == old(clientStatus)[hdr.dcid := Entry(|old(conns)|, Connected)]
    {
      ghost var s := Abs();
      var connId := mac(hdr.dcid);
      if hdr.dcid !in clients && connId !in clients {
        if hdr.ty != NotInitial {
          if !hdr.supported {
            return Negotiate;
          }
          var token := hdr.ty.token;
          if token == [] {
            var newToken := MintToken(hdr.dcid, from);
            return SendRetry(connId, newToken);
          }
          var odcid := ValidateToken(from, token);
          if odcid == None {
            return Drop;
          }
          if |connId| != |hdr.dcid| {
            return Drop;
          }
          var scid := hdr.dcid;
          var conn := |conns|;
          StepKeepsInv(mac, s, Packet(hdr, from));
          StepKeepsInv(mac, Apply(mac, s, Packet(hdr, from)), Publish);
          conns := conns + [Connection(scid, odcid.value, false)];
          clients := clients[scid := conn];
          clientStatus := clientStatus[scid := Entry(conn, Connected)];
          return Create(scid, odcid.value);
        }
        return Drop;
      } else if hdr.dcid in clients {
        return Deliver(hdr.dcid);
      } else {
        return Deliver(connId);
      }
    }

    /** The closure `retain` runs on one client, and the removal that follows it. */
    method RetainEntry(key: Id)
      requires Valid() && pc.Sweeping? && key in pc.todo
      modifies `clients, `pc
      ensures Valid()
      ensures Enabled(old(Abs()), Sweep(key)) && Abs() == Apply(mac, old(Abs()), Sweep(key))
      ensures key in old(clients) && old(clients)[key] < |conns| && key in clientStatus
      ensures var collect := conns[old(clients)[key]].closed && clientStatus[key].status == Close;
              clients == if collect then old(clients) - {key} else old(clients)
    {
      VisitFindsEntry(mac, Abs(), key);
      StepKeepsInv(mac, Abs(), Sweep(key));
      ghost var todo := pc.todo;
      var c := conns[clients[key]];
      if c.sid in clientStatus {
        var keep := !c.closed || clientStatus[c.sid].status != Close;
        if !keep {
          clients := clients - {key};
        }
      } else {
        assert false;
      }
      pc := Sweeping(todo - {key});
    }

    /** `retain` under the shared lock, visiting the clients in any order. */
    method CollectGarbage()
      requires Valid() && pc.Reading?
      modifies `clients, `pc
      ensures Valid() && pc.Reading?
      ensures clients == Survivors(old(clients), clientStatus)
      ensures forall k :: k in old(clients) ==>
                && k in clientStatus && old(clients)[k] < |conns|
                && if conns[old(clients)[k]].closed && clientStatus[k].status == Close then k !in clients
                   else k in clients && clients[k] == old(clients)[k]
    {
      ghost var s := Abs();
      StepKeepsInv(mac, s, BeginSweep);
      PassBegins(mac, s);
      var todo := clients.Keys;
      pc := Sweeping(todo);
      while todo != {}
        invariant Valid() && pc == Sweeping(todo) && PassState(s, Abs())
        decreases todo
      {
        var key :| key in todo;
        SweepVisit(mac, s, Abs(), key);
        RetainEntry(key);
        todo := todo - {key};
      }
      PassEnds(s, Abs());
      forall k | k in s.clients ensures KeyInv(mac, s, k) {
        assert KeyOk(mac, s.conns, s.clients, s.status, s.server, k);
      }
      StepKeepsInv(mac, Abs(), EndSweep);
      pc := Reading;
    }

    /** One scan of `dtp_accept`; `None` is the null pointer. */
    method DtpAccept() returns (box: Option<nat>)
      requires Valid() && SharedFree(Abs())
      modifies `clientStatus, `handles, `issued
      ensures Valid()
      ensures box == None ==> PendingIds(old(clientStatus)) == {} && Abs() == old(Abs())
      ensures box.Some? ==> box.value == old(issued) && box.value in handles
      ensures box.Some? ==> AcceptCall(mac, old(Abs()), Some(handles[box.value].id), Abs())
      ensures box == None ==> forall k :: k in clientStatus ==> clientStatus[k].status != Connected
      ensures box.Some? ==>
                var id := handles[box.value].id;
                && id in old(clientStatus) && old(clientStatus)[id].status == Connected
                && clientStatus == old(clientStatus)[id := Entry(old(clientStatus)[id].conn, Accepted)]
                && handles == old(handles)[old(issued) := Handle(id, old(clientStatus)[id].conn, Held)]
                && issued == old(issued) + 1
    {
      var todo := clientStatus.Keys;
      while todo != {}
        invariant Abs() == old(Abs()) && todo <= clientStatus.Keys
        invariant forall k :: k in clientStatus && clientStatus[k].status == Connected ==> k in todo
        decreases todo
      {
        var scid :| scid in todo;
        var entry := clientStatus[scid];
        if entry.status == Connected {
          StepKeepsInv(mac, Abs(), Accept(scid));
          clientStatus := clientStatus[scid := entry.(status := Accepted)];
          handles := handles[issued := Handle(scid, entry.conn, Held)];
          box := Some(issued);
          issued := issued + 1;
          return;
        }
        todo := todo - {scid};
      }
      return None;
    }

    /**
      * The server side of `dtp_close` on a live handle nobody else is closing. On a connection that
      * is not closed yet it returns -1 and changes nothing, except that with debug logging on it
      * unwraps the socket id a server-side handle does not have. On a closed one it marks the
      * handle's own entry, gives up the handle, and changes nothing else.
      */
    method DtpClose(h: nat, debugLog: bool) returns (o: Outcome)
      requires Valid() && SharedFree(Abs())
      requires h in handles && handles[h].pc == Held && handles[h].conn < |conns|
      modifies `clientStatus, `handles
      ensures Valid()
      ensures o == Panicked <==> !old(conns[handles[h].conn].closed) && debugLog
      ensures o.Returned? ==> o.code == if old(conns[handles[h].conn].closed) then 1 else -1
      ensures !old(conns[handles[h].conn].closed) ==> Abs() == old(Abs())
      ensures old(conns[handles[h].conn].closed) ==>
                var own := old(handles[h]);
                && own.id in old(clientStatus) && old(clientStatus)[own.id].conn == own.conn
                && Abs() == Closed(old(Abs()), h)
                && clientStatus == old(clientStatus)[own.id := Entry(own.conn, Close)]
                && handles.Keys == old(handles.Keys) - {h}
                && forall i :: i in handles ==> handles[i] == old(handles)[i]
    {
      if !conns[handles[h].conn].closed {
        if debugLog {
          return Panicked;
        }
        return Returned(-1);
      }
      CloseKeepsInv(mac, Abs(), h);
      var connId := handles[h].id;
      if connId in clientStatus {
        clientStatus := clientStatus[connId := clientStatus[connId].(status := Close)];
      }
      handles := handles - {h};
      return Returned(1);
    }
  }
}
