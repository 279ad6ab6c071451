/** The router's handling of IP packets, in the buffers that it edits. */
module IpRouter {
  import opened Bytes
  import opened InternetChecksum
  import opened Routes
  import opened ArpModel
  import opened ArpCache
  import opened IpForwarding
  import WireBuffers

  class Instance {
    const ifaces: seq<Interface>
    const table: RoutingTable
    const cache: Cache

    constructor (ifaces: seq<Interface>, table: RoutingTable, cache: Cache)
      ensures this.ifaces == ifaces && this.table == table && this.cache == cache
    {
      this.ifaces := ifaces;
      this.table := table;
      this.cache := cache;
    }

    /** Every route leads out on an interface of the router. */
    ghost predicate Valid()
      reads table, table.nodes, cache, cache.table, cache.table.nodes
    {
      && cache.Valid() && cache.table == table && table.Valid()
      && forall k :: 0 <= k < |table.table| ==> Named(ifaces, table.table[k].iface) < |ifaces|
    }

    /** `sr_get_interface`. */
    method GetInterface(name: string) returns (i: nat)
      ensures i == Named(ifaces, name)
    {
      i := 0;
      assert ifaces[0..] == ifaces;
      while i < |ifaces| && ifaces[i].name != name
        invariant 0 <= i <= |ifaces|
        invariant Named(ifaces, name) == i + Named(ifaces[i..], name)
      {
        assert ifaces[i..][1..] == ifaces[i + 1..];
        i := i + 1;
      }
    }

    /** `sr_check_packet`. */
    method CheckPacket(ip: Quad) returns (mine: bool)
      ensures mine == IsMine(ifaces, ip)
    {
      var i := 0;
      while i < |ifaces|
        invariant 0 <= i <= |ifaces|
        invariant forall j :: 0 <= j < i ==> ifaces[j].ip != ip
      {
        if ifaces[i].ip == ip {
          return true;
        }
        i := i + 1;
      }
      mine := false;
    }

    /** Fills an allocated ICMP message and stores its checksum. */
    method FillIcmp(kind: byte, code: byte, body: seq<byte>) returns (icmp: array<byte>)
      ensures fresh(icmp) && icmp[..] == IcmpMessage(kind, code, body)
    {
      hide Checksum, LE16;
      icmp := new byte[4 + |body|](_ => 0);
      WireBuffers.Store(icmp, 4, body);
      WireBuffers.Store(icmp, 0, [kind, code]);
      assert icmp[..] == [kind, code, 0, 0] + body;
      var sum := Cksum(icmp[..]);
      WireBuffers.Store(icmp, 2, LE16(sum));
    }

    /** `sr_send_ip`. */
    method SendIpPacket(protocol: byte, src: Quad, dst: Quad, buf: seq<byte>, now: int)
      requires Valid()
      modifies cache
      ensures Valid()
      ensures cache.State() == SendIp(old(cache.State()), ifaces, table.table, protocol, src, dst, buf, now)
    {
      hide Attempt, IsGateway, Cache.Valid, RoutingTable.Valid, ToIp, Checksum, IpFrame, IpHeader, BareIpHeader;
      var lpm := table.LongestPrefixMatch(ToIp(dst));
      if lpm != null {
        var i := GetInterface(lpm.route.iface);
        if i < |ifaces| {
          RouteIsGateway(table.table, LongestMatch(table.table, ToIp(dst)).value);
          var eth := FillFrame(ifaces[i].addr, protocol, src, dst, buf);
          cache.AttemptSend(Item(lpm.route.gw, Packet(eth[..], ifaces[i].name)), now);
        }
      }
    }

    /** The assignments to the frame that `sr_send_ip` allocates. */
    method FillFrame(addr: Mac, protocol: byte, src: Quad, dst: Quad, buf: seq<byte>) returns (eth: array<byte>)
      ensures fresh(eth) && eth[..] == IpFrame(addr, protocol, src, dst, buf)
    {
      hide Checksum, Patch;
      eth := new byte[IP_AT + IP_HDR + |buf|](_ => 0);
      assert eth[..] == Zeros(IP_AT + IP_HDR + |buf|);
      WireBuffers.Store(eth, IP_AT + IP_HDR, buf);
      var bare := BareIpHeader(protocol, |buf|, src, dst);
      WireBuffers.Store(eth, IP_AT, bare);
      var sum := Cksum(bare);
      WireBuffers.Store(eth, SUM_AT, LE16(sum));
      WireBuffers.Store(eth, 6, addr + [8, 0]);
      FrameIsFilled(addr, protocol, src, dst, buf);
    }

    /** The time to live and the checksum are edited in the buffer. */
    method AgeHeader(packet: array<byte>)
      requires InBounds(packet[..])
      modifies packet
      ensures packet[..] == Forwarded(old(packet[..]))
    {
      hide Checksum, LE16, Patch;
      ghost var p := packet[..];
      var length := HeaderLength(packet[..]);
      packet[TTL_AT] := NextTtl(packet[TTL_AT]);
      WireBuffers.Store(packet, SUM_AT, [0, 0]);
      assert packet[..] == Aged(p);
      var sum := Cksum(packet[IP_AT..IP_AT + length]);
      WireBuffers.Store(packet, SUM_AT, LE16(sum));
    }

    /** `sr_send_icmp`. */
    method SendIcmp(kind: byte, code: byte, src: Quad, dst: Quad, body: seq<byte>, now: int)
      requires Valid()
      modifies cache
      ensures Valid()
      ensures cache.State() == Send(old(cache.State()), ifaces, table.table,
          Notice(src, dst, IcmpMessage(kind, code, body)), now)
    {
      hide SendIp, Cache.Valid, IcmpMessage;
      var icmp := FillIcmp(kind, code, body);
      SendIpPacket(ICMP, src, dst, icmp[..], now);
    }

    /** `sr_send_icmp3`. */
    method SendIcmp3(code: byte, src: Quad, dst: Quad, data: seq<byte>, now: int)
      requires Valid() && |data| <= ICMP_DATA_SIZE
      modifies cache
      ensures Valid()
      ensures cache.State() == Send(old(cache.State()), ifaces, table.table,
                                    Notice(src, dst, IcmpMessage(ICMP_UNREACH, code, UnreachBody(data))), now)
    {
      hide Send, Cache.Valid, IcmpMessage, UnreachBody;
      SendIcmp(ICMP_UNREACH, code, src, dst, UnreachBody(data), now);
    }

    /** `sr_send_icmp_to_waiting`. */
    method SendIcmpToWaiting(packets: seq<Packet>, now: int)
      requires Valid() && forall i :: 0 <= i < |packets| ==> Reportable(packets[i], ifaces)
      modifies cache
      ensures Valid()
      ensures cache.State() == ReportAll(old(cache.State()), ifaces, table.table, packets, |packets|, now)
    {
      hide Send, Cache.Valid, Cache.State, RoutingTable.Valid, IcmpMessage, UnreachBody;
      var n := 0;
      while n < |packets|
        invariant 0 <= n <= |packets| && Valid()
        invariant cache.State() == ReportAll(old(cache.State()), ifaces, table.table, packets, n, now)
      {
        var packet := packets[n];
        var node := GetInterface(packet.iface);
        SendIcmp3(ICMP_HOST_UNREACH, ifaces[node].ip, Source(packet.frame), Quoted(packet.frame), now);
        n := n + 1;
      }
    }

    /** `sr_handle_my_ip_packet`. */
    method HandleMyIpPacket(packet: array<byte>, now: int)
      requires Valid() && LocalBounds(packet[..])
      modifies cache
      ensures Valid()
      ensures var n := LocalReply(packet[..]);
              cache.State() ==
                  if n.Some? then Send(old(cache.State()), ifaces, table.table, n.value, now) else old(cache.State())
    {
      hide Send, Cache.Valid, Cache.State, IcmpMessage, UnreachBody;
      var at := IP_AT + HeaderLength(packet[..]);
      if packet[PROTOCOL_AT] == ICMP {
        if packet[at] == ICMP_ECHO_REQUEST {
          var size := TotalLength(packet[..]) - HeaderLength(packet[..]) - ICMP_HDR;
          SendIcmp(ICMP_ECHO_REPLY, 0, Destination(packet[..]), Source(packet[..]),
                   packet[at + ICMP_HDR..at + ICMP_HDR + size], now);
        }
      } else {
        SendIcmp3(ICMP_PORT_UNREACH, Destination(packet[..]), Source(packet[..]), packet[IP_AT..at + 8], now);
      }
    }

    /** `sr_handle_ip_packet`. */
    method HandleIpPacket(packet: array<byte>, iface: string, now: int) returns (v: Verdict)
      requires Valid() && Named(ifaces, iface) < |ifaces|
      requires Handleable(packet[..], ifaces, table.table)
      modifies cache, packet
      ensures Valid()
      ensures v == Decide(old(packet[..]), ifaces, table.table)
      ensures v.TooShort? || v.ForMe? || v.TimeExceeded? ==> packet[..] == old(packet[..])
      ensures v.Unroutable? || v.Forward? ==> packet[..] == Forwarded(old(packet[..]))
      ensures cache.State() == Response(old(cache.State()), old(packet[..]), ifaces, table.table, iface, now)
    {
      hide Attempt, Send, IsGateway, Cache.Valid, Cache.State, ToIp, IcmpMessage, UnreachBody, Forwarded, IsMine,
           WithSource, LocalReply, Zeros, RoutingTable.Valid;
      ghost var p := packet[..];
      if packet.Length < IP_AT + IP_HDR {
        return TooShort;
      }
      var mine := CheckPacket(Destination(packet[..]));
      if mine {
        HandleMyIpPacket(packet, now);
        return ForMe;
      }
      if NextTtl(packet[TTL_AT]) == 0 {
        var back := GetInterface(iface);
        SendIcmp(ICMP_TTL, ICMP_TTL_CODE, ifaces[back].ip, Source(packet[..]), Zeros(4) + Quoted(packet[..]), now);
        return TimeExceeded;
      }
      AgeHeader(packet);
      v := RouteAged(p, packet, iface, now);
    }

    /** The end of `sr_handle_ip_packet`, after the header was edited. */
    method RouteAged(ghost p: seq<byte>, packet: array<byte>, iface: string, now: int) returns (v: Verdict)
      requires Valid() && Named(ifaces, iface) < |ifaces|
      requires Handleable(p, ifaces, table.table) && packet.Length == |p|
      requires !Decide(p, ifaces, table.table).TooShort? && !Decide(p, ifaces, table.table).ForMe?
      requires !Decide(p, ifaces, table.table).TimeExceeded? && packet[..] == Forwarded(p)
      modifies cache
      ensures Valid()
      ensures v == Decide(p, ifaces, table.table)
      ensures cache.State() == Response(old(cache.State()), p, ifaces, table.table, iface, now)
    {
      hide Attempt, Send, IsGateway, Cache.Valid, Cache.State, RoutingTable.Valid, ToIp, IcmpMessage, UnreachBody,
           Forwarded, IsMine, WithSource, LocalReply;
      ForwardedAddresses(p);
      var lpm := table.LongestPrefixMatch(ToIp(Destination(packet[..])));
      if lpm != null {
        var node := GetInterface(lpm.route.iface);
        cache.AttemptSend(Item(lpm.route.gw, Packet(WithSource(ifaces[node].addr, packet[..]), lpm.route.iface)), now);
        return Forward(lpm.route);
      }
      var back := GetInterface(iface);
      SendIcmp3(ICMP_NETWORK_UNREACH, ifaces[back].ip, Source(packet[..]), Quoted(packet[..]), now);
      return Unroutable;
    }
  }

  /** A waiting frame holds what the code reads of it: a header without options and eight octets more. */
  predicate Reportable(packet: Packet, ifaces: seq<Interface>) {
    && Named(ifaces, packet.iface) < |ifaces| && HasHeaders(packet.frame)
    && IP_AT + HeaderLength(packet.frame) + 8 <= |packet.frame|
    && HeaderLength(packet.frame) + 8 <= ICMP_DATA_SIZE
  }

  /** The ICMP error about one frame whose next hop did not answer. */
  function HostUnreachable(packet: Packet, ifaces: seq<Interface>): Notice
    requires Reportable(packet, ifaces)
  {
    Notice(ifaces[Named(ifaces, packet.iface)].ip, Source(packet.frame),
           IcmpMessage(ICMP_UNREACH, ICMP_HOST_UNREACH, UnreachBody(Quoted(packet.frame))))
  }

  /** The errors about the first `n` frames of a request that was given up. */
  ghost function ReportAll(r: Router, ifaces: seq<Interface>, routes: seq<Route>,
      packets: seq<Packet>, n: nat, now: int): Router
    requires n <= |packets| && forall i :: 0 <= i < |packets| ==> Reportable(packets[i], ifaces)
  {
    if n == 0 then r
    else Send(ReportAll(r, ifaces, routes, packets, n - 1, now),
        ifaces, routes, HostUnreachable(packets[n - 1], ifaces), now)
  }

  /** A packet with headers holds what the code reads of it: the whole header, and eight octets more where an
      ICMP error quotes it; the error for a missing route has room for a header without options. */
  ghost predicate Handleable(p: seq<byte>, ifaces: seq<Interface>, routes: seq<Route>) {
    var v := Decide(p, ifaces, routes);
    && (HasHeaders(p) ==> InBounds(p))
    && (v.ForMe? ==> LocalBounds(p))
    && (v.TimeExceeded? || v.Unroutable? ==> IP_AT + HeaderLength(p) + 8 <= |p|)
    && (v.Unroutable? ==> HeaderLength(p) + 8 <= ICMP_DATA_SIZE)
  }

  ghost function Send(r: Router, ifaces: seq<Interface>, routes: seq<Route>, n: Notice, now: int): Router {
    SendIp(r, ifaces, routes, ICMP, n.src, n.dst, n.message, now)
  }

  /** The ICMP message with which the router answers a packet that it does not forward; `back` is its address on
      the interface that the packet came from. */
  ghost function Answer(p: seq<byte>, ifaces: seq<Interface>, routes: seq<Route>, back: Quad): Option<Notice>
    requires Handleable(p, ifaces, routes)
  {
    match Decide(p, ifaces, routes)
    case TooShort => None
    case ForMe => LocalReply(p)
    case TimeExceeded => Some(Notice(back, Source(p), IcmpMessage(ICMP_TTL, ICMP_TTL_CODE, Zeros(4) + Quoted(p))))
    case Unroutable =>
      ForwardedAddresses(p);
      Some(Notice(back, Source(p), IcmpMessage(ICMP_UNREACH, ICMP_NETWORK_UNREACH, UnreachBody(Quoted(Forwarded(p))))))
    case Forward(_) => None
  }

  /** What handling a packet makes of the cache and the frames. */
  ghost function Response(r: Router, p: seq<byte>, ifaces: seq<Interface>,
      routes: seq<Route>, iface: string, now: int): Router
    requires Handleable(p, ifaces, routes)
    requires Named(ifaces, iface) < |ifaces|
    requires forall k :: 0 <= k < |routes| ==> Named(ifaces, routes[k].iface) < |ifaces|
  {
    match Decide(p, ifaces, routes)
    case Forward(route) =>
      var out := ifaces[Named(ifaces, route.iface)];
      Attempt(r, routes, Item(route.gw, Packet(WithSource(out.addr, Forwarded(p)), route.iface)), now)
    case _ =>
      match Answer(p, ifaces, routes, ifaces[Named(ifaces, iface)].ip)
      case None => r
      case Some(n) => Send(r, ifaces, routes, n, now)
  }

  lemma ForwardedAddresses(p: seq<byte>)
    requires InBounds(p)
    ensures var q := Forwarded(p);
            Source(q) == Source(p) && Destination(q) == Destination(p) && HeaderLength(q) == HeaderLength(p)
  {
    hide Checksum, LE16;
    ForwardedBytes(p);
    hide Forwarded;
  }

  lemma FrameIsFilled(addr: Mac, protocol: byte, src: Quad, dst: Quad, buf: seq<byte>)
    ensures var bare := BareIpHeader(protocol, |buf|, src, dst);
            var f0 := Patch(Zeros(IP_AT + IP_HDR + |buf|), IP_AT + IP_HDR, buf);
            Patch(Patch(Patch(f0, IP_AT, bare), SUM_AT, LE16(Checksum(bare))), 6, addr + [8, 0])
            == IpFrame(addr, protocol, src, dst, buf)
  {
    hide Checksum, BareIpHeader, LE16;
    var bare := BareIpHeader(protocol, |buf|, src, dst);
    var field := LE16(Checksum(bare));
    var f0 := Patch(Zeros(IP_AT + IP_HDR + |buf|), IP_AT + IP_HDR, buf);
    assert f0 == Zeros(IP_AT + IP_HDR) + buf;
    var f1 := Patch(f0, IP_AT, bare);
    assert f1 == Zeros(IP_AT) + bare + buf;
    var f2 := Patch(f1, SUM_AT, field);
    assert f2 == Zeros(IP_AT) + Patch(bare, 10, field) + buf;
  }
}
