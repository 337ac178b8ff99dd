/** What the server's read loop does with one parsed packet, given the ids of its live connections. */
module Routing {
  import opened Bytes
  import opened Retry

  /** quiche guarantees a token (possibly empty) in every Initial packet, and none elsewhere is looked at. */
  datatype PacketType = Initial(token: seq<byte>) | NotInitial

  /** `supported` is quiche's verdict on the version field. */
  datatype Header = Header(ty: PacketType, supported: bool, dcid: Id, scid: Id)

  datatype Action =
    | Drop
    | Negotiate
    | SendRetry(newScid: Id, newToken: seq<byte>)
    | Create(id: Id, odcid: Id)
    | Deliver(key: Id)

  function Dispatch(mac: Mac, live: set<Id>, hdr: Header, from: SocketAddr): Action {
    if hdr.dcid !in live && mac(hdr.dcid) !in live then
      match hdr.ty
      case NotInitial => Drop
      case Initial(token) =>
        if !hdr.supported then Negotiate
        else if token == [] then SendRetry(mac(hdr.dcid), Token(hdr.dcid, from))
        else
          match ValidateToken(from, token)
          case None => Drop
          case Some(odcid) =>
            if MAX_CONN_ID_LEN != |hdr.dcid| then Drop
            else Create(hdr.dcid, odcid)
    else if hdr.dcid in live then Deliver(hdr.dcid)
    else Deliver(mac(hdr.dcid))
  }

  /**
    * A connection is created exactly by a supported Initial that addresses no live connection by
    * its id or the hash of it, whose id has full length, and whose token is well formed for the
    * source. The token's original id is not compared with the packet's id.
    */
  lemma CreateIff(mac: Mac, live: set<Id>, hdr: Header, from: SocketAddr, id: Id, odcid: Id)
    ensures Dispatch(mac, live, hdr, from) == Create(id, odcid) <==>
            && id == hdr.dcid && |id| == MAX_CONN_ID_LEN
            && id !in live && mac(id) !in live
            && hdr.supported
            && hdr.ty == Initial(Token(odcid, from))
  {
    if hdr.ty.Initial? {
      assert ValidateToken(from, hdr.ty.token) == Some(odcid) <==> hdr.ty.token == Token(odcid, from);
      assert Token(odcid, from) != [];
    }
  }

  /** A version the server knows, an empty token, and no live connection under the id or the hash of it. */
  ghost predicate AsksForRetry(mac: Mac, live: set<Id>, hdr: Header) {
    hdr.ty == Initial([]) && hdr.supported && hdr.dcid !in live && mac(hdr.dcid) !in live
  }

  /** Section 17.2.5.2 of RFC 9000: the next Initial is sent to the Retry's source id and repeats its token. */
  ghost predicate AnswersRetry(newScid: Id, newToken: seq<byte>, next: Header) {
    next.ty == Initial(newToken) && next.dcid == newScid && next.supported
  }

  /**
    * Two-packet handshake, with any number of connections coming and going in between. A client's
    * first Initial, whatever the length of its id, is answered with a Retry that names the hash of
    * the id and carries a token. If the client, at an unchanged IP address, answers it, it gets a
    * connection under that hash, with its first id as original id, unless the hash is already a key
    * (then the packet goes there) or the hash of the hash is.
    */
  lemma RetryHandshake(mac: Mac, live: set<Id>, first: Header, from: SocketAddr,
                       live': set<Id>, next: Header, from': SocketAddr)
    requires AsksForRetry(mac, live, first)
    requires AnswersRetry(mac(first.dcid), Token(first.dcid, from), next)
    requires from'.ip == from.ip
    ensures Dispatch(mac, live, first, from) == SendRetry(mac(first.dcid), Token(first.dcid, from))
    ensures var h := mac(first.dcid);
            Dispatch(mac, live', next, from') ==
            if h in live' then Deliver(h)
            else if mac(h) in live' then Deliver(mac(h))
            else Create(h, first.dcid)
  {
    var h := mac(first.dcid);
    if h !in live' && mac(h) !in live' {
      CreateIff(mac, live', next, from', h, first.dcid);
      assert Token(first.dcid, from') == Token(first.dcid, from);
    }
  }
}
