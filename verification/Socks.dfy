/** SOCKS5 datagram framing and password authentication (internal/amneziawgnet/relay.go,
    internal/amneziawgnet/egress.go; section 7 of RFC 1928, section 2 of RFC 1929). */
module Socks {
  import opened Text

  newtype byte = x: int | 0 <= x < 256

  type Bytes = seq<byte>

  /** An address without a zone: 4 bytes, or 16. */
  datatype Addr = V4(b4: Bytes) | V6(b6: Bytes)

  predicate ValidAddr(a: Addr) {
    match a
    case V4(b) => |b| == 4
    case V6(b) => |b| == 16
  }

  datatype AddrPort = AddrPort(addr: Addr, port: int)

  predicate ValidAddrPort(a: AddrPort) { ValidAddr(a.addr) && 0 <= a.port < 0x1_0000 }

  const IPV4: byte := 1
  const DOMAIN: byte := 3
  const IPV6: byte := 4

  // ---- Big-endian ports ------------------------------------------------------

  function PortBytes(port: int): (b: Bytes)
    requires 0 <= port < 0x1_0000
  {
    [(port / 256) as byte, (port % 256) as byte]
  }

  function PortOf(b: Bytes): (port: int)
    requires |b| == 2
    ensures 0 <= port < 0x1_0000
  {
    b[0] as int * 256 + b[1] as int
  }

  lemma PortRoundTrip(port: int)
    requires 0 <= port < 0x1_0000
    ensures PortOf(PortBytes(port)) == port
  {
  }

  // ---- Datagrams -------------------------------------------------------------

  function AddrType(a: Addr): byte { if a.V4? then IPV4 else IPV6 }

  function AddrBytes(a: Addr): Bytes { if a.V4? then a.b4 else a.b6 }

  /** RSV RSV FRAG ATYP ADDR PORT, then the payload. */
  function Framed(dest: AddrPort, payload: Bytes): Bytes
    requires ValidAddrPort(dest)
  {
    [0, 0, 0, AddrType(dest.addr)] + AddrBytes(dest.addr) + PortBytes(dest.port) + payload
  }

  /** The buffer sendTo and pumpUDPEgress write. */
  method Frame(dest: AddrPort, payload: Bytes) returns (hdr: Bytes)
    requires ValidAddrPort(dest)
    ensures hdr == Framed(dest, payload)
  {
    hdr := [0, 0, 0];
    if dest.addr.V4? {
      hdr := hdr + [IPV4];
      hdr := hdr + dest.addr.b4;
    } else {
      hdr := hdr + [IPV6];
      hdr := hdr + dest.addr.b6;
    }
    hdr := hdr + PortBytes(dest.port);
    hdr := hdr + payload;
  }

  /** addrLen: the wire length of an address, -1 when the type has none. */
  function AddrLen(atyp: byte): int { if atyp == IPV4 then 4 else if atyp == IPV6 then 16 else -1 }

  /** parseDatagramHeader. */
  function ParseHeader(hdr: Bytes): (r: Option<AddrPort>)
    ensures r.Some? ==> ValidAddrPort(r.value)
  {
    if |hdr| < 4 then None
    else
      var atyp, body := hdr[3], hdr[4..];
      if atyp == IPV4 then
        if |body| < 6 then None else Some(AddrPort(V4(body[..4]), PortOf(body[4..6])))
      else if atyp == IPV6 then
        if |body| < 18 then None else Some(AddrPort(V6(body[..16]), PortOf(body[16..18])))
      else None
  }

  /** splitSocks5Addr: an address, then the rest of b; a name is accepted only when it reads as
      an address. */
  function SplitAddr(b: Bytes, atyp: byte, literal: Bytes -> Option<Addr>): (r: Option<(Addr, Bytes)>) {
    if atyp == IPV4 then
      if |b| < 4 then None else Some((V4(b[..4]), b[4..]))
    else if atyp == IPV6 then
      if |b| < 16 then None else Some((V6(b[..16]), b[16..]))
    else if atyp == DOMAIN then
      if |b| < 1 || |b| < 1 + b[0] as int then None
      else
        var addr := literal(b[1..1 + b[0] as int]);
        if addr.None? then None else Some((addr.value, b[1 + b[0] as int..]))
    else None
  }

  /** receive, on the datagram that was read. */
  function Received(data: Bytes, literal: Bytes -> Option<Addr>): (r: Option<(AddrPort, Bytes)>) {
    if |data| < 4 then None
    else
      match SplitAddr(data[4..], data[3], literal)
      case None => None
      case Some((addr, rest)) =>
        if |rest| < 2 then None else Some((AddrPort(addr, PortOf(rest[..2])), rest[2..]))
  }

  lemma FramedParts(dest: AddrPort, payload: Bytes)
    requires ValidAddrPort(dest)
    ensures var data, n := Framed(dest, payload), |AddrBytes(dest.addr)|;
      && |data| == 4 + n + 2 + |payload| && data[3] == AddrType(dest.addr)
      && data[4..] == AddrBytes(dest.addr) + PortBytes(dest.port) + payload
      && data[4..][..n] == AddrBytes(dest.addr) && data[4..][n..n + 2] == PortBytes(dest.port)
      && data[4..][n..] == PortBytes(dest.port) + payload
  {
    var data, n := Framed(dest, payload), |AddrBytes(dest.addr)|;
    assert data[4..] == AddrBytes(dest.addr) + PortBytes(dest.port) + payload;
  }

  /** The bytes of a framed datagram: two reserved ones, the fragment 0, the type 1 or 4, the
      address, the port with its high byte first, and the payload. */
  lemma FramedLayout(dest: AddrPort, payload: Bytes)
    requires ValidAddrPort(dest)
    ensures var data, n := Framed(dest, payload), if dest.addr.V4? then 4 else 16;
      && |data| == n + 6 + |payload|
      && data[..3] == [0, 0, 0] && data[3] == (if dest.addr.V4? then 1 else 4)
      && data[4..4 + n] == (if dest.addr.V4? then dest.addr.b4 else dest.addr.b6)
      && data[4 + n] as int * 256 + data[5 + n] as int == dest.port
      && data[6 + n..] == payload
  {
    var data, n := Framed(dest, payload), |AddrBytes(dest.addr)|;
    FramedParts(dest, payload);
    assert data[4..4 + n] == data[4..][..n];
    assert data[4 + n] == PortBytes(dest.port)[0] && data[5 + n] == PortBytes(dest.port)[1];
    assert data[6 + n..] == payload;
  }

  /** Every framed datagram is read back with its address, port and payload, by the egress
      server's header parser and by the relay's receiver, whatever literals it knows. */
  lemma DatagramRoundTrip(dest: AddrPort, payload: Bytes, literal: Bytes -> Option<Addr>)
    requires ValidAddrPort(dest)
    ensures var data := Framed(dest, payload);
      && ParseHeader(data) == Some(dest)
      && data[4 + AddrLen(data[3]) + 2..] == payload
      && Received(data, literal) == Some((dest, payload))
  {
    FramedParts(dest, payload);
    PortRoundTrip(dest.port);
    var data, n := Framed(dest, payload), |AddrBytes(dest.addr)|;
    hide Framed, PortBytes, PortOf;
    assert data[4 + n + 2..] == payload by {
      assert data[4 + n + 2..] == data[4..][n + 2..];
      assert (AddrBytes(dest.addr) + PortBytes(dest.port) + payload)[n + 2..] == payload;
    }
    assert data[4..][n..][..2] == PortBytes(dest.port) && data[4..][n..][2..] == payload;
  }

  /** So two datagrams that look the same carry the same. */
  lemma FramedInjective(a: AddrPort, b: AddrPort, p: Bytes, q: Bytes)
    requires ValidAddrPort(a) && ValidAddrPort(b) && Framed(a, p) == Framed(b, q)
    ensures a == b && p == q
  {
    hide Framed, ParseHeader, Received;
    DatagramRoundTrip(a, p, _ => None);
    DatagramRoundTrip(b, q, _ => None);
  }

  /** A header is parsed exactly when it has a known type and is long enough for it. */
  lemma HeaderParsed(hdr: Bytes)
    ensures ParseHeader(hdr).Some? <==> |hdr| >= 4 && AddrLen(hdr[3]) > 0 && |hdr| >= 4 + AddrLen(hdr[3]) + 2
  {
  }

  // ---- Domain datagrams ------------------------------------------------------

  /** parseDatagramDomainHeader: the name, the port and where the payload starts. */
  function ParseDomainHeader(data: Bytes): (r: Option<(Bytes, int, nat)>) {
    if |data| < 5 then None
    else
      var l := data[4] as int;
      var hdrLen := 4 + 1 + l + 2;
      if l == 0 || |data| < hdrLen then None
      else Some((data[5..5 + l], PortOf(data[5 + l..7 + l]), hdrLen))
  }

  /** A datagram to a name, framed as the standard has it, is read back whole. */
  lemma DomainRoundTrip(name: Bytes, port: int, payload: Bytes)
    requires 0 < |name| < 256 && 0 <= port < 0x1_0000
    ensures var data := [0, 0, 0, 3, |name| as byte] + name + PortBytes(port) + payload;
      ParseDomainHeader(data) == Some((name, port, 7 + |name|)) && data[7 + |name|..] == payload
  {
    PortRoundTrip(port);
    hide PortBytes, PortOf;
    var head: Bytes := [0, 0, 0, 3, |name| as byte];
    var data := head + name + PortBytes(port) + payload;
    var l := |name|;
    assert data[4] as int == l;
    assert data[5..5 + l] == name;
    assert data[5 + l..7 + l] == PortBytes(port);
    assert data[7 + l..] == payload;
  }

  // ---- Password authentication -----------------------------------------------

  /** The request socks5Handshake sends: each length is cut to one byte. */
  function AuthRequest(user: Bytes, password: Bytes): Bytes {
    [1, (|user| % 256) as byte] + user + [(|password| % 256) as byte] + password
  }

  /** The server's reader: the user, the password and what is left of the stream. */
  function ReadAuth(stream: Bytes): (r: Option<(Bytes, Bytes, Bytes)>) {
    if |stream| < 2 || |stream| < 2 + stream[1] as int + 1 then None
    else
      var u := stream[1] as int;
      var p := stream[2 + u] as int;
      if |stream| < 3 + u + p then None
      else Some((stream[2..2 + u], stream[3 + u..3 + u + p], stream[3 + u + p..]))
  }

  /** The server recovers exactly what the client meant, and reads no further, if and only if
      both texts are at most 255 bytes long. */
  lemma AuthExact(user: Bytes, password: Bytes, rest: Bytes)
    ensures ReadAuth(AuthRequest(user, password) + rest) == Some((user, password, rest)) <==>
      |user| < 256 && |password| < 256
  {
    var u, p := |user| % 256, |password| % 256;
    var stream := AuthRequest(user, password) + rest;
    assert stream[1] as int == u;
    if |user| < 256 {
      assert stream[2..2 + u] == user;
      assert stream[2 + u] as int == p;
      if |password| < 256 {
        assert stream[3 + u..3 + u + p] == password;
        assert stream[3 + u + p..] == rest;
      }
    }
  }
}
