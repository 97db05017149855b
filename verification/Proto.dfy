/** The SOCKS5 wire format: addresses (section 5 of RFC 1928), UDP relay headers
    (section 7) and the in-place response header of the relay. */
module Proto {
  import opened Words

  datatype Ip = V4(b4: Bytes) | V6(b16: Bytes) {
    predicate Valid() {
      if V4? then |b4| == 4 else |b16| == 16
    }
  }

  type Port = p: nat | p < 0x1_0000

  datatype Address = Socket(ip: Ip, port: Port) | Domain(name: Bytes, dport: Port) {
    predicate Valid() {
      Socket? ==> ip.Valid()
    }
  }

  datatype Error = UnexpectedEof | UnsupportedType(atyp: Byte)

  datatype Result<T> = Ok(value: T) | Err(error: Error)

  const ATYP_IPV4: Byte := 1
  const ATYP_DOMAIN: Byte := 3
  const ATYP_IPV6: Byte := 4
  const UDP_HEADER_MAX_LEN: nat := 3 + 1 + 1 + 255 + 2

  function PutPort(p: Port): Bytes {
    [p / 256, p % 256]
  }

  function GetPort(b: Bytes): Port
    requires |b| == 2
  {
    var hi: nat, lo: nat := b[0], b[1];
    hi * 256 + lo
  }

  // ---- addresses ----

  /** AppendTo fails for a domain that does not fit its length byte. */
  function AppendAddress(b: Bytes, a: Address): Result<Bytes> {
    match a
    case Socket(V4(ip), port) => Ok(b + [ATYP_IPV4] + ip + PutPort(port))
    case Socket(V6(ip), port) => Ok(b + [ATYP_IPV6] + ip + PutPort(port))
    case Domain(name, port) =>
      if |name| > 255 then Err(UnexpectedEof) else Ok(b + [ATYP_DOMAIN, |name|] + name + PutPort(port))
  }

  predicate Encodable(a: Address) {
    a.Valid() && (a.Domain? ==> |a.name| <= 255)
  }

  function AddressLen(a: Address): nat {
    match a
    case Socket(V4(_), _) => 1 + 4 + 2
    case Socket(V6(_), _) => 1 + 16 + 2
    case Domain(name, _) => 1 + 1 + |name| + 2
  }

  function ParseAddress(buf: Bytes): Result<(Address, nat)> {
    if |buf| < 1 then Err(UnexpectedEof)
    else if buf[0] == ATYP_IPV4 then
      if |buf| < 7 then Err(UnexpectedEof) else Ok((Socket(V4(buf[1..5]), GetPort(buf[5..7])), 7))
    else if buf[0] == ATYP_IPV6 then
      if |buf| < 19 then Err(UnexpectedEof) else Ok((Socket(V6(buf[1..17]), GetPort(buf[17..19])), 19))
    else if buf[0] == ATYP_DOMAIN then
      if |buf| < 2 then Err(UnexpectedEof)
      else
        var n: nat := buf[1];
        if |buf| < 2 + n + 2 then Err(UnexpectedEof)
        else Ok((Domain(buf[2..2 + n], GetPort(buf[2 + n..2 + n + 2])), 2 + n + 2))
    else Err(UnsupportedType(buf[0]))
  }

  function Encoded(a: Address): Bytes
    requires Encodable(a)
  {
    AppendAddress([], a).value
  }

  lemma PortBytes(b: Bytes)
    requires |b| == 2
    ensures PutPort(GetPort(b)) == b
  {
  }

  /** The wire format in numbers: type byte, address bytes or counted name, big-endian port. */
  lemma WireLayout(a: Address)
    requires Encodable(a)
    ensures a.Socket? && a.ip.V4? ==> Encoded(a) == [1] + a.ip.b4 + [a.port / 256, a.port % 256]
    ensures a.Socket? && a.ip.V6? ==> Encoded(a) == [4] + a.ip.b16 + [a.port / 256, a.port % 256]
    ensures a.Domain? ==> Encoded(a) == [3, |a.name|] + a.name + [a.dport / 256, a.dport % 256]
  {
    assert [] + [1] == [1] && [] + [4] == [4];
    if a.Domain? {
      assert [] + [3, |a.name|] == [3, |a.name|];
    }
  }

  lemma EncodedLen(a: Address)
    requires Encodable(a)
    ensures |Encoded(a)| == AddressLen(a)
  {
  }

  /** Parsing an encoded address followed by anything returns it and its exact length. */
  lemma ParseEncoded(a: Address, rest: Bytes)
    requires Encodable(a)
    ensures ParseAddress(Encoded(a) + rest) == Ok((a, AddressLen(a)))
  {
    var buf := Encoded(a) + rest;
    match a
    case Socket(V4(ip), port) =>
      assert buf == [ATYP_IPV4] + ip + PutPort(port) + rest;
      assert buf[1..5] == ip && buf[5..7] == PutPort(port);
    case Socket(V6(ip), port) =>
      assert buf == [ATYP_IPV6] + ip + PutPort(port) + rest;
      assert buf[1..17] == ip && buf[17..19] == PutPort(port);
    case Domain(name, port) =>
      var n := |name|;
      assert buf == [ATYP_DOMAIN, n] + name + PutPort(port) + rest;
      assert buf[2..2 + n] == name && buf[2 + n..2 + n + 2] == PutPort(port);
  }

  /** A successful parse consumed exactly the encoding of what it returned. */
  lemma ParsedIsEncoded(buf: Bytes)
    requires ParseAddress(buf).Ok?
    ensures var (a, n) := ParseAddress(buf).value;
            Encodable(a) && n == AddressLen(a) <= |buf| && buf[..n] == Encoded(a)
  {
    var (a, n) := ParseAddress(buf).value;
    PortBytes(buf[n - 2..n]);
    match a
    case Socket(V4(ip), port) =>
      assert buf[..n] == [] + [ATYP_IPV4] + buf[1..5] + buf[5..7];
    case Socket(V6(ip), port) =>
      assert buf[..n] == [] + [ATYP_IPV6] + buf[1..17] + buf[17..19];
    case Domain(name, port) =>
      assert buf[..n] == [] + [ATYP_DOMAIN, |name|] + buf[2..n - 2] + buf[n - 2..n];
  }

  // ---- UDP relay packets ----

  datatype UdpHeader = UdpHeader(frag: Byte, address: Address)

  function ParseUdpHeader(buf: Bytes): Result<(UdpHeader, nat)> {
    if |buf| < 3 then Err(UnexpectedEof)
    else
      match ParseAddress(buf[3..])
      case Err(e) => Err(e)
      case Ok((a, n)) => Ok((UdpHeader(buf[2], a), 3 + n))
  }

  /** BuildUdpPacket writes the low byte of an over-long domain's length. */
  function BuildUdpPacket(frag: Byte, from: Address, payload: Bytes): Bytes {
    var head: Bytes := [0, 0, frag];
    var body :=
      match from
      case Socket(V4(ip), port) => [ATYP_IPV4] + ip + PutPort(port)
      case Socket(V6(ip), port) => [ATYP_IPV6] + ip + PutPort(port)
      case Domain(name, port) => [ATYP_DOMAIN, |name| % 256] + name + PutPort(port);
    head + body + payload
  }

  lemma BuildEncodes(frag: Byte, from: Address, payload: Bytes)
    requires Encodable(from)
    ensures BuildUdpPacket(frag, from, payload) == [0, 0, frag] + Encoded(from) + payload
  {
    match from
    case Socket(V4(ip), port) => assert [] + [ATYP_IPV4] == [ATYP_IPV4];
    case Socket(V6(ip), port) => assert [] + [ATYP_IPV6] == [ATYP_IPV6];
    case Domain(name, port) => assert [] + [ATYP_DOMAIN, |name|] == [ATYP_DOMAIN, |name| % 256];
  }

  lemma ParseBuiltPacket(frag: Byte, from: Address, payload: Bytes)
    requires Encodable(from)
    ensures ParseUdpHeader(BuildUdpPacket(frag, from, payload)) == Ok((UdpHeader(frag, from), 3 + AddressLen(from)))
    ensures |BuildUdpPacket(frag, from, payload)| == 3 + AddressLen(from) + |payload|
    ensures BuildUdpPacket(frag, from, payload)[3 + AddressLen(from)..] == payload
  {
    var packet := BuildUdpPacket(frag, from, payload);
    BuildEncodes(frag, from, payload);
    EncodedLen(from);
    ParseEncoded(from, payload);
    hide ParseAddress, Encoded, BuildUdpPacket;
    assert packet[3..] == Encoded(from) + payload;
  }

  /** A built packet parses back exactly when the domain fits its length byte. */
  lemma UdpRoundTripIff(frag: Byte, from: Address, payload: Bytes)
    requires from.Valid()
    ensures ParseUdpHeader(BuildUdpPacket(frag, from, payload)) == Ok((UdpHeader(frag, from), 3 + AddressLen(from)))
       <==> Encodable(from)
  {
    if Encodable(from) {
      ParseBuiltPacket(frag, from, payload);
    } else {
      var packet := BuildUdpPacket(frag, from, payload);
      assert packet[3..][0] == ATYP_DOMAIN && packet[3..][1] == |from.name| % 256;
    }
  }

  // ---- responses ----

  const MAPPED_PREFIX: Bytes := [0, 0, 0, 0, 0, 0, 0, 0, 0, 0, 255, 255]

  /** An IPv4-in-IPv6 address becomes its IPv4 address. */
  function Unmap(ip: Ip): (r: Ip)
    requires ip.Valid()
    ensures r.Valid()
  {
    if ip.V6? && ip.b16[..12] == MAPPED_PREFIX then V4(ip.b16[12..]) else ip
  }

  function Overwrite(b: Bytes, at: nat, src: Bytes): Bytes
    requires at + |src| <= |b|
  {
    b[..at] + src + b[at + |src|..]
  }

  /** Go's copy of src into the buffer at an offset. */
  method CopyInto(buffer: array<Byte>, at: nat, src: Bytes)
    requires at + |src| <= buffer.Length
    modifies buffer
    ensures buffer[..] == Overwrite(old(buffer[..]), at, src)
  {
    for i := 0 to |src|
      invariant forall k | 0 <= k < i :: buffer[at + k] == src[k]
      invariant forall k | 0 <= k < buffer.Length && !(at <= k < at + i) :: buffer[k] == old(buffer[k])
    {
      buffer[at + i] := src[i];
    }
    assert buffer[..at] == old(buffer[..at]) && buffer[at..at + |src|] == src;
  }

  lemma OverwriteTwice(b: Bytes, at: nat, x: Bytes, y: Bytes)
    requires at + |x| + |y| <= |b|
    ensures Overwrite(Overwrite(b, at, x), at + |x|, y) == Overwrite(b, at, x + y)
  {
  }

  lemma OverwriteWindow(b: Bytes, at: nat, src: Bytes, end: nat)
    requires at + |src| <= end <= |b|
    ensures Overwrite(b, at, src)[at..end] == src + b[at + |src|..end]
  {
  }

  function IpBytes(ip: Ip): Bytes {
    if ip.V4? then ip.b4 else ip.b16
  }

  function IpType(ip: Ip): Byte {
    if ip.V4? then ATYP_IPV4 else ATYP_IPV6
  }

  /** prepareUDPResponse. A pooled buffer holds the payload from UDP_HEADER_MAX_LEN on;
      the header is then written right before it, so the packet is a window of the
      buffer. A buffer too short for that makes a copy and keeps the remote as it is. */
  method PrepareUdpResponse(buffer: array<Byte>, payload: Bytes, remote: Ip, port: Port) returns (packet: Bytes)
    requires remote.Valid()
    requires UDP_HEADER_MAX_LEN + |payload| <= buffer.Length ==>
               buffer[UDP_HEADER_MAX_LEN..UDP_HEADER_MAX_LEN + |payload|] == payload
    modifies buffer
    ensures packet == BuildUdpPacket(0, Socket(Answerer(buffer.Length, |payload|, remote), port), payload)
    ensures UDP_HEADER_MAX_LEN <= buffer.Length ==>
              buffer[UDP_HEADER_MAX_LEN..] == old(buffer[UDP_HEADER_MAX_LEN..])
    ensures UDP_HEADER_MAX_LEN + |payload| > buffer.Length ==> buffer[..] == old(buffer[..])
  {
    if buffer.Length < UDP_HEADER_MAX_LEN + |payload| {
      return BuildUdpPacket(0, Socket(remote, port), payload);
    }
    var ip := Unmap(remote);
    var addr := IpBytes(ip);
    var start := UDP_HEADER_MAX_LEN - (3 + 1 + |addr| + 2);
    ghost var before := buffer[..];
    CopyInto(buffer, start, [0, 0, 0, IpType(ip)]);
    CopyInto(buffer, start + 4, addr);
    CopyInto(buffer, start + 4 + |addr|, PutPort(port));
    ghost var header := [0, 0, 0, IpType(ip)] + addr + PutPort(port);
    OverwriteTwice(before, start, [0, 0, 0, IpType(ip)], addr);
    OverwriteTwice(before, start, [0, 0, 0, IpType(ip)] + addr, PutPort(port));
    assert buffer[..] == Overwrite(before, start, header);
    OverwriteWindow(before, start, header, UDP_HEADER_MAX_LEN + |payload|);
    HeaderIsBuilt(ip, port, payload);
    packet := buffer[start..UDP_HEADER_MAX_LEN + |payload|];
    assert packet == buffer[..][start..UDP_HEADER_MAX_LEN + |payload|];
    assert buffer[UDP_HEADER_MAX_LEN..] == buffer[..][UDP_HEADER_MAX_LEN..] == before[UDP_HEADER_MAX_LEN..];
  }

  /** The address a response names: unmapped only when the header goes in place. */
  function Answerer(bufferLen: nat, payloadLen: nat, remote: Ip): Ip
    requires remote.Valid()
  {
    if UDP_HEADER_MAX_LEN + payloadLen <= bufferLen then Unmap(remote) else remote
  }

  lemma HeaderIsBuilt(ip: Ip, port: Port, payload: Bytes)
    ensures [0, 0, 0, IpType(ip)] + IpBytes(ip) + PutPort(port) + payload == BuildUdpPacket(0, Socket(ip, port), payload)
  {
    assert [0, 0, 0] + ([IpType(ip)] + IpBytes(ip) + PutPort(port)) + payload
        == [0, 0, 0, IpType(ip)] + IpBytes(ip) + PutPort(port) + payload;
  }

  const MAX_UDP_RESPONSE_HEADER_LEN: nat := 3 + 1 + 16 + 2

  /** What the relay promises for an untruncated datagram read into a pooled buffer: the
      in-place path is taken, the response fits the packet limit and a client parses
      back the unmapped sender and exactly the payload. */
  lemma PooledResponse(maxPacketSize: nat, payload: Bytes, remote: Ip, port: Port)
    requires remote.Valid() && |payload| + MAX_UDP_RESPONSE_HEADER_LEN <= maxPacketSize
    ensures var from := Socket(Answerer(maxPacketSize + UDP_HEADER_MAX_LEN, |payload|, remote), port);
            var packet := BuildUdpPacket(0, from, payload);
            && from == Socket(Unmap(remote), port)
            && |packet| <= maxPacketSize
            && ParseUdpHeader(packet) == Ok((UdpHeader(0, from), 3 + AddressLen(from)))
            && packet[3 + AddressLen(from)..] == payload
  {
    ParseBuiltPacket(0, Socket(Unmap(remote), port), payload);
    hide ParseUdpHeader, BuildUdpPacket;
  }

  // ---- source check ----

  predicate Is4In6(ip: Ip)
    requires ip.Valid()
  {
    ip.V6? && ip.b16[..12] == MAPPED_PREFIX
  }

  predicate IsAuthorized(src: Ip, expected: Ip)
    requires src.Valid() && expected.Valid()
  {
    || src == expected
    || (Is4In6(src) && expected.V4? && Unmap(src) == expected)
    || (src.V4? && Is4In6(expected) && Unmap(expected) == src)
  }

  /** A client packet is accepted exactly when both addresses unmap to the same one. */
  lemma AuthorizedIffSameAddress(src: Ip, expected: Ip)
    requires src.Valid() && expected.Valid()
    ensures IsAuthorized(src, expected) <==> Unmap(src) == Unmap(expected)
  {
    if Is4In6(src) && Is4In6(expected) && Unmap(src) == Unmap(expected) {
      assert src.b16 == src.b16[..12] + src.b16[12..];
      assert expected.b16 == expected.b16[..12] + expected.b16[12..];
    }
  }
}
