/** Stateless retry tokens: `mint_token` and `validate_token` of src/server.rs. */
module Retry {
  import opened Bytes

  type Octets4 = s: seq<byte> | |s| == 4 witness [0, 0, 0, 0]
  type Octets16 = s: seq<byte> | |s| == 16 witness seq(16, _ => 0 as byte)

  datatype IpAddr = V4(a4: Octets4) | V6(a6: Octets16) {
    function Octets(): seq<byte> {
      match this
      case V4(a) => a
      case V6(a) => a
    }
  }

  datatype SocketAddr = SocketAddr(ip: IpAddr, port: nat)

  const TAG: seq<byte> := Ascii("quiche")

  function Token(dcid: Id, src: SocketAddr): seq<byte> {
    TAG + src.ip.Octets() + dcid
  }

  /** A token is accepted from `src`, with an original id, exactly when it is laid out as minting lays it out. */
  function ValidateToken(src: SocketAddr, token: seq<byte>): (r: Option<Id>)
    ensures forall odcid :: r == Some(odcid) <==> token == Token(odcid, src)
  {
    if |token| < 6 then None
    else if token[..6] != TAG then
      assert forall odcid :: Token(odcid, src)[..6] == TAG;
      None
    else
      var rest := token[6..];
      var addr := src.ip.Octets();
      assert forall odcid :: Token(odcid, src)[6..] == addr + odcid;
      if |rest| < |addr| || rest[..|addr|] != addr then
        assert forall odcid :: (addr + odcid)[..|addr|] == addr;
        None
      else
        assert token == TAG + addr + rest[|addr|..];
        assert forall odcid :: (addr + odcid)[|addr|..] == odcid;
        Some(rest[|addr|..])
  }

  /** Builds the token by appending to an empty vector; it validates for the address it was minted for. */
  method MintToken(dcid: Id, src: SocketAddr) returns (token: seq<byte>)
    ensures token == Token(dcid, src) == Ascii("quiche") + src.ip.Octets() + dcid
    ensures ValidateToken(src, token) == Some(dcid)
  {
    token := [];
    token := token + TAG;
    var addr := src.ip.Octets();
    token := token + addr;
    token := token + dcid;
  }

  /** From which addresses a minted token is accepted, across address families, and what id it gives there. */
  lemma MintedAcceptedIff(dcid: Id, minter: SocketAddr, user: SocketAddr)
    ensures var body, addr := minter.ip.Octets() + dcid, user.ip.Octets();
            ValidateToken(user, Token(dcid, minter)) == if addr <= body then Some(body[|addr|..]) else None
  {
    var token := Token(dcid, minter);
    var body, addr := minter.ip.Octets() + dcid, user.ip.Octets();
    assert token[..6] == TAG && token[6..] == body;
    if addr <= body {
      assert body[..|addr|] == addr;
    }
  }

  /** Within one address family a token is good for its own address only, from any port, and gives back the id. */
  lemma MintedForOneAddress(dcid: Id, minter: SocketAddr, user: SocketAddr)
    requires minter.ip.V4? == user.ip.V4?
    ensures ValidateToken(user, Token(dcid, minter)).Some? <==> user.ip == minter.ip
    ensures user.ip == minter.ip ==> ValidateToken(user, Token(dcid, minter)) == Some(dcid)
  {
    MintedAcceptedIff(dcid, minter, user);
    var a, b := user.ip.Octets(), minter.ip.Octets();
    if a <= b + dcid {
      assert a == (b + dcid)[..|a|] == b;
    }
    assert user.ip == minter.ip ==> Token(dcid, minter) == Token(dcid, user);
  }

  /**
    * Across families the check is only a prefix test: every v6 token is accepted from the v4 source
    * whose address begins the v6 one, and gives a wrong original id there.
    */
  lemma CrossFamilyToken(dcid: Id, a: Octets4, rest: seq<byte>, p: nat, q: nat)
    requires |rest| == 12
    ensures ValidateToken(SocketAddr(V4(a), q), Token(dcid, SocketAddr(V6(a + rest), p))) == Some(rest + dcid)
    ensures rest + dcid != dcid
  {
    MintedAcceptedIff(dcid, SocketAddr(V6(a + rest), p), SocketAddr(V4(a), q));
    assert (a + rest + dcid)[4..] == rest + dcid;
    assert (a + rest + dcid)[..4] == a;
  }
}
