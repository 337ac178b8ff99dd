/** Where packets of a retried client go, over whole runs of the server. */
module RoutingRuns {
  import opened Bytes
  import opened Retry
  import opened Routing
  import opened Lifecycle
  import opened LifecycleRuns

  /** Packets for `d` and for the hash of `d` both reach generation `g`. */
  ghost predicate Owns(mac: Mac, s: State, d: Id, g: nat) {
    && mac(d) in s.clients && s.clients[mac(d)] == g
    && (d in s.clients ==> d == mac(d))
  }

  lemma OwnsStep(mac: Mac, s: State, l: Label, d: Id, g: nat)
    requires Inv(mac, s) && Enabled(s, l) && Owns(mac, s, d, g)
    requires PhaseOf(Apply(mac, s, l), g) != Collected
    ensures Owns(mac, Apply(mac, s, l), d, g)
  {
    assert KeyInv(mac, s, mac(d));
  }

  /** While a client owns both ids, no packet for either creates a connection or goes elsewhere. */
  lemma OwnerGetsPackets(mac: Mac, s: State, d: Id, g: nat, hdr: Header, from: SocketAddr)
    requires Owns(mac, s, d, g) && hdr.dcid in {d, mac(d)}
    ensures Dispatch(mac, s.clients.Keys, hdr, from) == Deliver(mac(d))
  {
  }

  /** Label `i` creates generation `g` for the answered Retry of a client whose first id was `d`. */
  ghost predicate CreatesFor(mac: Mac, r: Run, i: nat, d: Id, g: nat) {
    && i < |r.labels| < |r.states|
    && r.labels[i].Packet?
    && Dispatch(mac, r.states[i].clients.Keys, r.labels[i].hdr, r.labels[i].from) == Create(mac(d), d)
    && g == |r.states[i].conns|
  }

  lemma RunOwnsStart(mac: Mac, r: Run, i: nat, d: Id, g: nat)
    requires IsRun(mac, r) && CreatesFor(mac, r, i, d, g) && d !in r.states[i].clients
    ensures Owns(mac, r.states[i + 1], d, g)
  {
    assert StepAt(mac, r, i);
  }

  lemma RunOwnsStep(mac: Mac, r: Run, m: nat, d: Id, g: nat)
    requires IsRun(mac, r) && m < |r.labels| && PhaseOf(r.states[m + 1], g) != Collected
    requires Owns(mac, r.states[m], d, g)
    ensures Owns(mac, r.states[m + 1], d, g)
  {
    RunInv(mac, r, m);
    assert StepAt(mac, r, m);
    OwnsStep(mac, r.states[m], r.labels[m], d, g);
  }

  /** From creation until collection the client keeps both ids, if its first id was free at creation. */
  lemma {:induction false} OwnsUntilCollected(mac: Mac, r: Run, i: nat, j: nat, d: Id, g: nat)
    requires IsRun(mac, r) && CreatesFor(mac, r, i, d, g) && d !in r.states[i].clients
    requires i < j < |r.states| && PhaseOf(r.states[j], g) != Collected
    ensures Owns(mac, r.states[j], d, g)
  {
    if j == i + 1 {
      RunOwnsStart(mac, r, i, d, g);
    } else {
      PhasesNeverGoBack(mac, r, g, j - 1, j);
      OwnsUntilCollected(mac, r, i, j - 1, d, g);
      RunOwnsStep(mac, r, j - 1, d, g);
    }
  }

  /**
    * The whole retry handshake. A client's first Initial (label i) is answered with a Retry; at any
    * later time the Initial that answers it (label j) arrives from the same IP address. If neither its
    * first id, nor the hash, nor the hash of the hash is a key then, the connection made has the
    * hash as source id and the first id as original id; and as long as it is not collected every
    * packet for either id, from anywhere, is delivered to it.
    */
  lemma RetriedClientIsServed(mac: Mac, r: Run, i: nat, j: nat, k: nat, hdr: Header, from: SocketAddr)
    requires IsRun(mac, r) && i < j < |r.labels| && j < k < |r.states|
    requires r.labels[i].Packet? && r.labels[j].Packet?
    requires AsksForRetry(mac, r.states[i].clients.Keys, r.labels[i].hdr)
    requires var d := r.labels[i].hdr.dcid;
             AnswersRetry(mac(d), Token(d, r.labels[i].from), r.labels[j].hdr)
    requires r.labels[j].from.ip == r.labels[i].from.ip
    requires var d, live := r.labels[i].hdr.dcid, r.states[j].clients.Keys;
             d !in live && mac(d) !in live && mac(mac(d)) !in live
    requires PhaseOf(r.states[k], |r.states[j].conns|) != Collected
    requires hdr.dcid in {r.labels[i].hdr.dcid, mac(r.labels[i].hdr.dcid)}
    ensures var d, g := r.labels[i].hdr.dcid, |r.states[j].conns|;
            && Dispatch(mac, r.states[i].clients.Keys, r.labels[i].hdr, r.labels[i].from)
               == SendRetry(mac(d), Token(d, r.labels[i].from))
            && r.states[j + 1].conns == r.states[j].conns + [Connection(mac(d), d, false)]
            && Dispatch(mac, r.states[k].clients.Keys, hdr, from) == Deliver(mac(d))
            && mac(d) in r.states[k].clients && r.states[k].clients[mac(d)] == g
  {
    var d := r.labels[i].hdr.dcid;
    RetryHandshake(mac, r.states[i].clients.Keys, r.labels[i].hdr, r.labels[i].from,
                   r.states[j].clients.Keys, r.labels[j].hdr, r.labels[j].from);
    assert StepAt(mac, r, j);
    OwnsUntilCollected(mac, r, j, k, d, |r.states[j].conns|);
    OwnerGetsPackets(mac, r.states[k], d, |r.states[j].conns|, hdr, from);
  }

  /** Generation `g` is a client of the server, published or about to be. */
  ghost predicate Live(s: State, g: nat) {
    PhaseOf(s, g) != Unborn && PhaseOf(s, g) != Collected
  }

  /** Generation `g` is live under the packet's id or the hash of it. */
  ghost predicate Addressed(mac: Mac, s: State, hdr: Header, g: nat) {
    Live(s, g) && s.conns[g].sid in {hdr.dcid, mac(hdr.dcid)}
  }

  /**
    * Live ids have full length. If an id and a different hash of it are both live, packets for the
    * id go to the older connection.
    */
  lemma OlderTwinWins(mac: Mac, r: Run, i: nat, d: Id)
    requires IsRun(mac, r) && i < |r.states|
    ensures var live := r.states[i].clients;
            (forall k :: k in live ==> |k| == MAX_CONN_ID_LEN)
            && (d in live && mac(d) in live && mac(d) != d ==>
                  live[d] < live[mac(d)]
                  && forall hdr: Header, from :: hdr.dcid == d ==> Dispatch(mac, live.Keys, hdr, from) == Deliver(d))
  {
    RunInv(mac, r, i);
    assert KeyInv(mac, r.states[i], d);
    forall k | k in r.states[i].clients ensures |k| == MAX_CONN_ID_LEN {
      assert KeyInv(mac, r.states[i], k);
    }
  }

  /** The live generations are the values of `clients`, each under its own source id. */
  lemma LiveIff(mac: Mac, s: State, g: nat)
    requires Inv(mac, s)
    ensures Live(s, g) <==> exists k :: k in s.clients && s.clients[k] == g
    ensures Live(s, g) ==> s.conns[g].sid in s.clients && s.clients[s.conns[g].sid] == g
  {
    forall k | k in s.clients && s.clients[k] == g ensures Live(s, g) {
      assert KeyInv(mac, s, k);
    }
  }

  /**
    * In every run a packet is delivered exactly if some live connection has its id, or the hash of
    * it, as source id; and then to the oldest such connection, which the application can see.
    */
  lemma DeliveredToOldest(mac: Mac, r: Run, i: nat, hdr: Header, from: SocketAddr)
    requires IsRun(mac, r) && i < |r.states|
    ensures var s := r.states[i];
            match Dispatch(mac, s.clients.Keys, hdr, from)
            case Deliver(key) =>
              && key in s.clients && Addressed(mac, s, hdr, s.clients[key])
              && (forall g :: Addressed(mac, s, hdr, g) ==> s.clients[key] <= g)
              && (s.server.Reading? ==> key in s.status && s.status[key].conn == s.clients[key])
            case _ => forall g :: !Addressed(mac, s, hdr, g)
  {
    RunInv(mac, r, i);
    OlderTwinWins(mac, r, i, hdr.dcid);
    var s := r.states[i];
    forall g: nat ensures Live(s, g) ==> s.conns[g].sid in s.clients && s.clients[s.conns[g].sid] == g {
      LiveIff(mac, s, g);
    }
    var action := Dispatch(mac, s.clients.Keys, hdr, from);
    if action.Deliver? {
      LiveIff(mac, s, s.clients[action.key]);
      assert KeyInv(mac, s, action.key);
    }
  }

  /** No live connection has the packet's id, or the hash of it, as source id. */
  ghost predicate NobodyAddressed(mac: Mac, s: State, hdr: Header) {
    forall g :: !Addressed(mac, s, hdr, g)
  }

  /** The token is what the server mints for this source, for some original id. */
  ghost predicate MintedFor(token: seq<byte>, from: SocketAddr) {
    exists odcid :: token == TAG + from.ip.Octets() + odcid
  }

  /** In every run, which packets get which answer; each gets one. */
  lemma AnswersIff(mac: Mac, r: Run, i: nat, hdr: Header, from: SocketAddr)
    requires IsRun(mac, r) && i < |r.states|
    ensures var s, none := r.states[i], NobodyAddressed(mac, r.states[i], hdr);
            var action := Dispatch(mac, s.clients.Keys, hdr, from);
            && (action.Deliver? <==> !none)
            && (action == Negotiate <==> none && hdr.ty.Initial? && !hdr.supported)
            && (action.SendRetry? <==> none && hdr.ty == Initial([]) && hdr.supported)
            && (action.SendRetry? ==> action == SendRetry(mac(hdr.dcid), TAG + from.ip.Octets() + hdr.dcid))
            && (action.Create? <==>
                  none && hdr.ty.Initial? && hdr.supported && MintedFor(hdr.ty.token, from) && |hdr.dcid| == 20)
            && (action == Drop <==>
                  none && (hdr.ty.NotInitial?
                           || (hdr.supported && hdr.ty.token != []
                               && !(MintedFor(hdr.ty.token, from) && |hdr.dcid| == 20))))
  {
    var s := r.states[i];
    var action := Dispatch(mac, s.clients.Keys, hdr, from);
    DeliveredToOldest(mac, r, i, hdr, from);
    assert action.Deliver? ==> Addressed(mac, s, hdr, s.clients[action.key]);
    if hdr.ty.Initial? {
      assert forall odcid :: ValidateToken(from, hdr.ty.token) == Some(odcid) <==> hdr.ty.token == Token(odcid, from);
      assert MintedFor(hdr.ty.token, from) <==> ValidateToken(from, hdr.ty.token).Some?;
    }
  }
}
