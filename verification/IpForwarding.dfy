/** What the router does to IP packets (lab1/router/router/sr_router.c), on byte strings. */
module IpForwarding {
  import opened Bytes
  import opened InternetChecksum
  import opened Routes
  import opened ArpModel

  const IP_AT: nat := 14
  const IP_HDR: nat := 20
  /** Where the checksum field ends within the IP header. */
  const SUM_END: nat := 12
  const LEN_AT: nat := 16
  const TTL_AT: nat := 22
  const PROTOCOL_AT: nat := 23
  const SUM_AT: nat := 24
  const SRC_AT: nat := 26
  const DST_AT: nat := 30
  const ICMP_DATA_SIZE: nat := 28

  const ICMP: byte := 1
  const ICMP_HDR: nat := 4
  const ICMP_ECHO_REPLY: byte := 0
  const ICMP_ECHO_REQUEST: byte := 8
  const ICMP_PORT_UNREACH: byte := 3
  const ICMP_HOST_UNREACH: byte := 1
  const ICMP_TTL: byte := 11
  const ICMP_UNREACH: byte := 3
  const ICMP_NETWORK_UNREACH: byte := 0
  const ICMP_TTL_CODE: byte := 0

  /** An address in network order. */
  type Quad = s: seq<byte> | |s| == 4 witness [0, 0, 0, 0]

  datatype Interface = Interface(name: string, addr: Mac, ip: Quad)

  function FromOctets(a: bv8, b: bv8, c: bv8, d: bv8): Ip {
    ((a as bv32) << 24) | ((b as bv32) << 16) | ((c as bv32) << 8) | (d as bv32)
  }

  function ToIp(q: Quad): Ip {
    FromOctets(q[0] as bv8, q[1] as bv8, q[2] as bv8, q[3] as bv8)
  }

  /** The first interface of that name, or the number of interfaces. */
  function Named(ifaces: seq<Interface>, name: string): (i: nat)
    ensures i <= |ifaces|
    ensures i < |ifaces| ==> ifaces[i].name == name
    ensures i == |ifaces| ==> forall j :: 0 <= j < |ifaces| ==> ifaces[j].name != name
  {
    if ifaces == [] then 0 else if ifaces[0].name == name then 0 else 1 + Named(ifaces[1..], name)
  }

  predicate IsMine(ifaces: seq<Interface>, ip: Quad) {
    exists i :: 0 <= i < |ifaces| && ifaces[i].ip == ip
  }

  // ---------------------------------------------------------------------------------------------
  // Forwarding
  // ---------------------------------------------------------------------------------------------

  /** At least an Ethernet and an IP header without options. */
  predicate HasHeaders(p: seq<byte>) {
    IP_AT + IP_HDR <= |p|
  }

  /** The header length field, in octets. */
  function HeaderLength(p: seq<byte>): nat
    requires HasHeaders(p)
  {
    p[IP_AT] % 16 * 4
  }

  function Destination(p: seq<byte>): Quad
    requires HasHeaders(p)
  {
    p[DST_AT..DST_AT + 4]
  }

  function Source(p: seq<byte>): Quad
    requires HasHeaders(p)
  {
    p[SRC_AT..SRC_AT + 4]
  }

  /** The header that the header length field announces lies within the packet. */
  predicate InBounds(p: seq<byte>) {
    HasHeaders(p) && IP_AT + HeaderLength(p) <= |p|
  }

  function Header(p: seq<byte>): seq<byte>
    requires InBounds(p)
  {
    p[IP_AT..IP_AT + HeaderLength(p)]
  }

  /** One less, in eight bits. */
  function NextTtl(ttl: byte): byte {
    if ttl == 0 then 255 else ttl - 1
  }

  /** With the time to live decremented and the checksum zeroed. */
  function Aged(p: seq<byte>): (q: seq<byte>)
    requires HasHeaders(p)
    ensures |q| == |p| && q[IP_AT] == p[IP_AT]
  {
    Patch(p[TTL_AT := NextTtl(p[TTL_AT])], SUM_AT, [0, 0])
  }

  /** The packet with the time to live decremented and the header checksum computed anew. */
  function Forwarded(p: seq<byte>): (q: seq<byte>)
    requires InBounds(p)
    ensures |q| == |p| && q[IP_AT] == p[IP_AT]
  {
    Patch(Aged(p), SUM_AT, LE16(Checksum(Header(Aged(p)))))
  }

  lemma ForwardedBytes(p: seq<byte>)
    requires InBounds(p)
    ensures var q := Forwarded(p);
            && q[TTL_AT] == NextTtl(p[TTL_AT])
            && InBounds(q) && HeaderLength(q) == HeaderLength(p)
            && forall i :: 0 <= i < |p| && i != TTL_AT && i != SUM_AT && i != SUM_AT + 1 ==> q[i] == p[i]
  {
    hide Checksum, LE16;
  }

  /** A header that holds its checksum field is valid when the packet leaves, whatever it was before. */
  lemma ForwardedHeaderChecks(p: seq<byte>)
    requires InBounds(p) && HeaderLength(p) >= SUM_END
    ensures InBounds(Forwarded(p)) && Checksum(Header(Forwarded(p))) == 0xffff
  {
    hide Checksum, LE16;
    var h := Header(Aged(p));
    var field := LE16(Checksum(h));
    StoredChecksumChecks(h, 10);
    assert Header(Forwarded(p)) == Patch(h, 10, field);
  }

  /** `q` comes out of a router that forwarded `p`; only the Ethernet addresses may differ from `Forwarded(p)`. */
  predicate Hop(p: seq<byte>, q: seq<byte>) {
    && InBounds(p) && HeaderLength(p) >= SUM_END && NextTtl(p[TTL_AT]) != 0
    && |q| == |p| && q[12..] == Forwarded(p)[12..]
  }

  ghost predicate Path(path: seq<seq<byte>>) {
    && path != []
    && (forall i, j :: 0 <= i && j == i + 1 && j < |path| ==> Hop(path[i], path[j]))
  }

  /** How often a packet can be forwarded, plus one; a time to live of zero wraps around. */
  function HopLimit(ttl: byte): nat {
    if ttl == 0 then 256 else ttl
  }

  lemma HopIsForwarded(p: seq<byte>, q: seq<byte>, i: nat)
    requires Hop(p, q) && 12 <= i < |p|
    ensures q[i] == Forwarded(p)[i]
  {
    hide Forwarded, InBounds, NextTtl;
    assert q[i] == q[12..][i - 12];
    assert Forwarded(p)[i] == Forwarded(p)[12..][i - 12];
  }

  lemma HopKeeps(p: seq<byte>, q: seq<byte>)
    requires Hop(p, q)
    ensures InBounds(q) && Checksum(Header(q)) == 0xffff
    ensures HopLimit(q[TTL_AT]) == HopLimit(p[TTL_AT]) - 1
    ensures forall i :: 12 <= i < |p| && i != TTL_AT && i != SUM_AT && i != SUM_AT + 1 ==> q[i] == p[i]
  {
    ForwardedBytes(p);
    ForwardedHeaderChecks(p);
    hide Forwarded, Checksum, Hop;
    assert InBounds(p) && |q| == |p| by {
      assert Hop(p, q);
    }
    forall i | 12 <= i < |p|
      ensures q[i] == Forwarded(p)[i]
    {
      HopIsForwarded(p, q, i);
    }
    assert HeaderLength(q) == HeaderLength(p);
    assert Header(q) == Header(Forwarded(p));
  }

  /** A packet is forwarded fewer times than its time to live says, every forwarded header is valid, and at
      every hop all but the time to live and the checksum is as it was sent. */
  lemma {:induction false} PathTheorem(path: seq<seq<byte>>)
    requires Path(path) && HasHeaders(path[0])
    ensures |path| - 1 < HopLimit(path[0][22])
    ensures forall k :: 0 < k < |path| ==>
              && InBounds(path[k]) && |path[k]| == |path[0]|
              && Checksum(Header(path[k])) == 0xffff
              && HopLimit(path[k][22]) == HopLimit(path[0][22]) - k
              && forall i :: 12 <= i < |path[0]| && i != 22 && i != 24 && i != 25 ==>
                   path[k][i] == path[0][i]
  {
    hide Checksum, Hop, HopLimit;
    var n := |path| - 1;
    if n > 0 {
      var shorter := path[..n];
      assert Path(shorter);
      PathTheorem(shorter);
      HopKeeps(path[n - 1], path[n]);
      HopLengths(path[n - 1], path[n]);
    }
    LimitPositive(path[n][22]);
  }

  lemma HopLengths(p: seq<byte>, q: seq<byte>)
    requires Hop(p, q)
    ensures |p| == |q|
  {
  }

  lemma LimitPositive(ttl: byte)
    ensures HopLimit(ttl) > 0
  {
  }

  /** The frame as it is handed to the cache, with the address of the interface it leaves on. */
  function WithSource(addr: Mac, p: seq<byte>): (q: seq<byte>)
    requires ETHER_HDR <= |p|
    ensures |q| == |p|
  {
    Patch(p, 6, addr)
  }

  /** Whatever addresses the forwarded frame gets, its way on the wire is one hop. */
  lemma ForwardingIsHop(p: seq<byte>, addr: Mac, dest: Mac)
    requires InBounds(p) && HeaderLength(p) >= SUM_END && NextTtl(p[TTL_AT]) != 0
    ensures Hop(p, Stamped(dest, WithSource(addr, Forwarded(p))))
  {
    assert HasHeaders(p);
    hide Forwarded, InBounds, NextTtl, Checksum;
    var f := Forwarded(p);
    var q := Stamped(dest, WithSource(addr, f));
    assert q == dest + addr + f[12..];
    assert q[12..] == f[12..];
  }

  // ---------------------------------------------------------------------------------------------
  // What becomes of a packet
  // ---------------------------------------------------------------------------------------------

  datatype Verdict = TooShort | ForMe | TimeExceeded | Unroutable | Forward(route: Route)

  ghost function Decide(p: seq<byte>, ifaces: seq<Interface>, routes: seq<Route>): (v: Verdict)
    ensures v.Forward? ==> v.route in routes && IsGateway(routes, v.route.gw)
    ensures v != TooShort ==> HasHeaders(p)
  {
    if !HasHeaders(p) then TooShort
    else if IsMine(ifaces, Destination(p)) then ForMe
    else if NextTtl(p[TTL_AT]) == 0 then TimeExceeded
    else match LongestMatch(routes, ToIp(Destination(p)))
         case None => Unroutable
         case Some(k) => RouteIsGateway(routes, k); Forward(routes[k])
  }

  /** An ICMP message with its checksum. */
  function IcmpMessage(kind: byte, code: byte, body: seq<byte>): seq<byte> {
    [kind, code] + LE16(Checksum([kind, code, 0, 0] + body)) + body
  }

  lemma IcmpMessageChecks(kind: byte, code: byte, body: seq<byte>)
    requires |body| + 4 <= MAX_DATA
    ensures Checksum(IcmpMessage(kind, code, body)) == 0xffff
  {
    hide Checksum, LE16;
    var bare := [kind, code, 0, 0] + body;
    StoredChecksumChecks(bare, 2);
    assert IcmpMessage(kind, code, body) == Patch(bare, 2, LE16(Checksum(bare)));
  }

  /** The body of an ICMP message of type 3: unused, MTU and the quoted data. */
  function UnreachBody(data: seq<byte>): seq<byte>
    requires |data| <= ICMP_DATA_SIZE
  {
    Zeros(4) + data + Zeros(ICMP_DATA_SIZE - |data|)
  }

  /** The header and the first eight octets behind it. */
  function Quoted(p: seq<byte>): seq<byte>
    requires HasHeaders(p) && IP_AT + HeaderLength(p) + 8 <= |p|
  {
    p[IP_AT..IP_AT + HeaderLength(p) + 8]
  }

  /** An ICMP message that the router sends from one of its addresses. */
  datatype Notice = Notice(src: Quad, dst: Quad, message: seq<byte>)

  /** The length field of the IP header. */
  function TotalLength(p: seq<byte>): nat
    requires HasHeaders(p)
  {
    Word(p[LEN_AT], p[LEN_AT + 1])
  }

  /** A packet for the router itself holds what the code reads of it: the type of an ICMP message and all of an
      echo request, or the header and eight octets, which fit into the error about the port. */
  predicate LocalBounds(p: seq<byte>) {
    && InBounds(p)
    && var at := IP_AT + HeaderLength(p);
       if p[PROTOCOL_AT] == ICMP
       then at < |p| && (p[at] == ICMP_ECHO_REQUEST ==>
                           HeaderLength(p) + ICMP_HDR <= TotalLength(p) && IP_AT + TotalLength(p) <= |p|)
       else at + 8 <= |p| && HeaderLength(p) + 8 <= ICMP_DATA_SIZE
  }

  /** `sr_handle_my_ip_packet`: an echo request is answered with its own data, another ICMP message not at all,
      and anything else with an error about the port. */
  function LocalReply(p: seq<byte>): Option<Notice>
    requires LocalBounds(p)
  {
    var at := IP_AT + HeaderLength(p);
    if p[PROTOCOL_AT] != ICMP
    then Some(Notice(Destination(p), Source(p), IcmpMessage(ICMP_UNREACH, ICMP_PORT_UNREACH, UnreachBody(Quoted(p)))))
    else if p[at] == ICMP_ECHO_REQUEST
    then Some(Notice(Destination(p), Source(p),
        IcmpMessage(ICMP_ECHO_REPLY, 0, p[at + ICMP_HDR..IP_AT + TotalLength(p)])))
    else None
  }

  function BareIpHeader(protocol: byte, length: nat, src: Quad, dst: Quad): (h: seq<byte>)
    ensures |h| == IP_HDR && h[10] == 0 && h[11] == 0
  {
    [0x45, 0] + BE16((IP_HDR + length) % 0x1_0000) + [0, 0, 0x40, 0, 64, protocol, 0, 0] + src + dst
  }

  function IpHeader(protocol: byte, length: nat, src: Quad, dst: Quad): (h: seq<byte>)
    ensures |h| == IP_HDR
  {
    var h := BareIpHeader(protocol, length, src, dst);
    Patch(h, 10, LE16(Checksum(h)))
  }

  /** An IP packet of the router's own, in a frame without a destination address. */
  function IpFrame(addr: Mac, protocol: byte, src: Quad, dst: Quad, buf: seq<byte>): (f: seq<byte>)
    ensures |f| == IP_AT + IP_HDR + |buf|
  {
    Zeros(6) + addr + [8, 0] + IpHeader(protocol, |buf|, src, dst) + buf
  }

  /** The router's own packets have a valid header that announces its length, and carry their data behind it. */
  lemma IpFrameChecks(addr: Mac, protocol: byte, src: Quad, dst: Quad, buf: seq<byte>)
    ensures var f := IpFrame(addr, protocol, src, dst, buf);
            && InBounds(f) && HeaderLength(f) == IP_HDR && Checksum(Header(f)) == 0xffff
            && Source(f) == src && Destination(f) == dst && f[IP_AT + IP_HDR..] == buf
  {
    hide Checksum, LE16;
    var f := IpFrame(addr, protocol, src, dst, buf);
    var bare := BareIpHeader(protocol, |buf|, src, dst);
    StoredChecksumChecks(bare, 10);
    var h := IpHeader(protocol, |buf|, src, dst);
    assert f == (Zeros(6) + addr + [8, 0]) + h + buf;
    assert f[IP_AT..IP_AT + IP_HDR] == h;
    assert f[IP_AT] == h[0] == 0x45;
    assert bare[12..16] == src && bare[16..20] == dst;
    assert h[12..] == bare[12..];
    assert h[12..16] == h[12..][..4] && h[16..20] == h[12..][4..];
    assert Source(f) == h[12..16];
    assert Destination(f) == h[16..20];
  }

  lemma RouteIsGateway(routes: seq<Route>, k: nat)
    requires k < |routes|
    ensures IsGateway(routes, routes[k].gw)
  {
  }

  /** `sr_send_ip`. */
  ghost function SendIp(r: Router, ifaces: seq<Interface>, routes: seq<Route>, protocol: byte,
                        src: Quad, dst: Quad, buf: seq<byte>, now: int): Router
  {
    match LongestMatch(routes, ToIp(dst))
    case None => r
    case Some(k) =>
      var i := Named(ifaces, routes[k].iface);
      RouteIsGateway(routes, k);
      if i == |ifaces| then r
      else
        var packet := Packet(IpFrame(ifaces[i].addr, protocol, src, dst, buf), ifaces[i].name);
        Attempt(r, routes, Item(routes[k].gw, packet), now)
  }

  /** Whoever pings the router gets the same data back, from the address that was pinged. */
  lemma EchoIsAnswered(addr: Mac, src: Quad, dst: Quad, code: byte, data: seq<byte>)
    requires IP_HDR + ICMP_HDR + |data| < 0x1_0000
    ensures var p := IpFrame(addr, ICMP, src, dst, IcmpMessage(ICMP_ECHO_REQUEST, code, data));
            && LocalBounds(p)
            && LocalReply(p) == Some(Notice(dst, src, IcmpMessage(ICMP_ECHO_REPLY, 0, data)))
  {
    var message := IcmpMessage(ICMP_ECHO_REQUEST, code, data);
    var p := IpFrame(addr, ICMP, src, dst, message);
    hide Checksum, LE16;
    assert message[0] == ICMP_ECHO_REQUEST && message[ICMP_HDR..] == data && |message| == ICMP_HDR + |data|;
    IpFrameChecks(addr, ICMP, src, dst, message);
    IpFrameFields(addr, ICMP, src, dst, message);
    hide IpFrame, IcmpMessage, Destination, Source, HeaderLength;
    var at := IP_AT + IP_HDR;
    assert p[at..] == message;
    assert p[at] == p[at..][0];
    assert p[at + ICMP_HDR..IP_AT + TotalLength(p)] == p[at..][ICMP_HDR..];
  }

  lemma IpFrameProtocol(addr: Mac, protocol: byte, src: Quad, dst: Quad, buf: seq<byte>)
    ensures IpFrame(addr, protocol, src, dst, buf)[PROTOCOL_AT] == protocol
  {
    hide Checksum, LE16;
    var f := IpFrame(addr, protocol, src, dst, buf);
    var h := IpHeader(protocol, |buf|, src, dst);
    assert f == (Zeros(6) + addr + [8, 0]) + h + buf;
    assert f[PROTOCOL_AT] == h[9];
  }

  /** The constant fields of the router's own packets: IPv4 in Ethernet, a header without options, no fragments and
      not to be fragmented, 64 hops, and the length of header and data. */
  lemma IpFrameFields(addr: Mac, protocol: byte, src: Quad, dst: Quad, buf: seq<byte>)
    requires IP_HDR + |buf| < 0x1_0000
    ensures var f := IpFrame(addr, protocol, src, dst, buf);
            && f[12] == 0x08 && f[13] == 0x00 && f[14] == 0x45 && f[15] == 0
            && f[16] as int * 256 + f[17] == 20 + |buf| && TotalLength(f) == IP_HDR + |buf|
            && f[18] == 0 && f[19] == 0 && f[20] == 0x40 && f[21] == 0 && f[22] == 64 && f[PROTOCOL_AT] == protocol
  {
    hide Checksum, LE16;
    var f := IpFrame(addr, protocol, src, dst, buf);
    var h := IpHeader(protocol, |buf|, src, dst);
    assert f == (Zeros(6) + addr + [8, 0]) + h + buf;
    assert forall k :: 0 <= k < 20 ==> f[14 + k] == h[k];
    assert f[14] == f[14 + 0] && f[15] == f[14 + 1] && f[16] == f[14 + 2] && f[17] == f[14 + 3] && f[18] == f[14 + 4];
    assert f[19] == f[14 + 5] && f[20] == f[14 + 6] && f[21] == f[14 + 7] && f[22] == f[14 + 8] && f[23] == f[14 + 9];
  }
}
