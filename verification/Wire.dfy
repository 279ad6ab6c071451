/** The translation between cTCP segments and TCP packets (`convert_to_datagram` and `convert_to_ctcp` in
    lab4/ctcp/ctcp_sys_internal.c) over the Unix socket, byte by byte on a little-endian machine. */
module Wire {
  import opened Bytes
  import opened InternetChecksum

  const IP_HDR_SIZE: nat := 20
  const TCP_HDR_SIZE: nat := 20
  const FULL_HDR_SIZE: nat := 40
  const SEGMENT_HDR_SIZE: nat := 48
  const IP_ID: u16 := 144
  const DEFAULT_TTL: byte := 64
  const IPPROTO_TCP: byte := 6
  /** The most data for which the lengths of a segment and of its packet fit in 16 bits. */
  const MAX_DATA_LEN: nat := 0xffff - SEGMENT_HDR_SIZE

  type u64 = x: int | 0 <= x < 0x1_0000_0000_0000_0000

  function BE32(v: u32): (s: seq<byte>)
    ensures |s| == 4
  {
    BE16(v / 0x1_0000) + BE16(v % 0x1_0000)
  }

  function LE32(v: u32): (s: seq<byte>)
    ensures |s| == 4
  {
    LE16(v % 0x1_0000) + LE16(v / 0x1_0000)
  }

  function LE64(v: u64): (s: seq<byte>)
    ensures |s| == 8
  {
    LE32(v % 0x1_0000_0000) + LE32(v / 0x1_0000_0000)
  }

  /** `ctcp_segment_t`. Sequence numbers, length and window are given as the host reads them after `ntohl` and
      `ntohs`; flags, checksum and the timing fields as they lie in memory. */
  datatype Segment = Segment(seqno: u32, ackno: u32, len: u16, flags: u32, window: u16, cksum: u16,
                             sendTime: u64, delivered: u64, deliveredTime: u64, data: seq<byte>)

  /** What a host knows of a connection: its own and the peer's address and port, and both initial numbers. */
  datatype Conn = Conn(ip: u32, peerIp: u32, port: u16, peerPort: u16, initSeqno: u32, theirInitSeqno: u32)

  /** The bytes of the structure in memory, with its padding. */
  function SegmentBytes(s: Segment): (b: seq<byte>) {
    BE32(s.seqno) + BE32(s.ackno) + BE16(s.len) + Zeros(2) + LE32(s.flags) + BE16(s.window) + LE16(s.cksum)
    + Zeros(4) + LE64(s.sendTime) + LE64(s.delivered) + LE64(s.deliveredTime) + s.data
  }

  /** The checksum of a segment whose checksum field is zero. */
  function CorrectSum(s: Segment): u16 {
    Checksum(SegmentBytes(s.(cksum := 0)))
  }

  function IpHeader(total: u16, src: u32, dst: u32, check: u16): (b: seq<byte>)
    ensures |b| == IP_HDR_SIZE
  {
    [0x45] + [0] + BE16(total) + BE16(IP_ID) + BE16(0) + [DEFAULT_TTL] + [IPPROTO_TCP] + LE16(check)
    + BE32(src) + BE32(dst)
  }

  function TcpHeader(sport: u16, dport: u16, seqno: u32, ackno: u32, flags: byte, window: u16, sum: u16): (b: seq<byte>)
    ensures |b| == TCP_HDR_SIZE
  {
    BE16(sport) + BE16(dport) + BE32(seqno) + BE32(ackno) + [0x50] + [flags] + BE16(window) + LE16(sum) + Zeros(2)
  }

  function IpPart(c: Conn, total: u16): (b: seq<byte>)
    ensures |b| == IP_HDR_SIZE
  {
    IpHeader(total, c.ip, c.peerIp, Checksum(IpHeader(total, c.ip, c.peerIp, 0)))
  }

  function TcpPart(c: Conn, s: Segment, sum: u16): (b: seq<byte>)
    ensures |b| == TCP_HDR_SIZE
  {
    TcpHeader(c.port, c.peerPort, (s.seqno + c.initSeqno) % 0x1_0000_0000,
              (s.ackno + c.theirInitSeqno) % 0x1_0000_0000, s.flags % 256, s.window, sum)
  }

  function Packet(c: Conn, s: Segment, sum: u16): (b: seq<byte>)
    requires |s.data| <= MAX_DATA_LEN
    ensures |b| == FULL_HDR_SIZE + |s.data|
  {
    IpPart(c, FULL_HDR_SIZE + |s.data|) + TcpPart(c, s, sum) + s.data
  }

  /** `cksum_tcp`: the checksum over the pseudo-header and the TCP part of a packet with `len` data bytes. */
  function TcpSum(packet: seq<byte>, len: nat): u16
    requires FULL_HDR_SIZE + len <= |packet| && len <= MAX_DATA_LEN
  {
    Checksum(PseudoPacket(packet, len))
  }

  function PseudoPacket(packet: seq<byte>, len: nat): seq<byte>
    requires FULL_HDR_SIZE + len <= |packet| && len <= MAX_DATA_LEN
  {
    packet[12..16] + packet[16..20] + [0] + [IPPROTO_TCP] + BE16(TCP_HDR_SIZE + len)
    + packet[IP_HDR_SIZE..FULL_HDR_SIZE + len]
  }

  /** Subtraction and addition of `uint16_t`. */
  function Sub16(x: u16, y: u16): u16 {
    (x - y) % 0x1_0000
  }

  function Add16(x: u16, y: u16): u16 {
    (x + y) % 0x1_0000
  }

  /** `convert_to_datagram`: the TCP checksum is off by as much as the segment's own checksum is. */
  function ToDatagram(c: Conn, s: Segment): seq<byte>
    requires |s.data| <= MAX_DATA_LEN
  {
    Packet(c, s, Add16(TcpSum(Packet(c, s, 0), |s.data|), Sub16(CorrectSum(s), s.cksum)))
  }

  function Get16(b: seq<byte>, k: nat): u16
    requires k + 2 <= |b|
  {
    Word(b[k], b[k + 1])
  }

  function Word32(hi: int, lo: int): int {
    hi * 0x1_0000 + lo
  }

  function Get32(b: seq<byte>, k: nat): u32
    requires k + 4 <= |b|
  {
    Word32(Get16(b, k), Get16(b, k + 2))
  }

  /** What `convert_to_ctcp` relies on: the packet is as long as its header says, and the length of the segment
      fits in 16 bits. */
  predicate WellSized(b: seq<byte>) {
    FULL_HDR_SIZE <= |b| && FULL_HDR_SIZE <= Get16(b, 2) <= |b| && Get16(b, 2) <= FULL_HDR_SIZE + MAX_DATA_LEN
  }

  function ClearSum(b: seq<byte>): seq<byte>
    requires FULL_HDR_SIZE <= |b|
  {
    Patch(b, 36, LE16(0))
  }

  /** `convert_to_ctcp`. */
  function ToSegment(c: Conn, b: seq<byte>): Segment
    requires WellSized(b)
  {
    var len := Get16(b, 2) - FULL_HDR_SIZE;
    var s := Segment((Get32(b, 24) - c.theirInitSeqno) % 0x1_0000_0000, (Get32(b, 28) - c.initSeqno) % 0x1_0000_0000,
                     len + SEGMENT_HDR_SIZE, b[33], Get16(b, 34), 0, 0, 0, 0, b[FULL_HDR_SIZE..FULL_HDR_SIZE + len]);
    s.(cksum := Add16(CorrectSum(s), Sub16(TcpSum(ClearSum(b), len), Swap(Get16(b, 36)))))
  }

  // ---------------------------------------------------------------------------------------------
  // The round trip
  // ---------------------------------------------------------------------------------------------

  /** The two ends agree on both initial sequence numbers. */
  predicate Joined(a: Conn, b: Conn) {
    a.initSeqno == b.theirInitSeqno && a.theirInitSeqno == b.initSeqno
  }

  /** What of a segment the TCP packet carries: the low byte of the flags, no timing, the true length. */
  function Carried(s: Segment): Segment
    requires |s.data| <= MAX_DATA_LEN
  {
    s.(len := SEGMENT_HDR_SIZE + |s.data|, flags := s.flags % 256, sendTime := 0, delivered := 0, deliveredTime := 0)
  }

  /** The fields of a packet with any checksum. */
  lemma PacketFields(c: Conn, s: Segment, sum: u16)
    requires |s.data| <= MAX_DATA_LEN
    ensures var b := Packet(c, s, sum);
            && |b| == FULL_HDR_SIZE + |s.data| == Get16(b, 2)
            && Get32(b, 24) == (s.seqno + c.initSeqno) % 0x1_0000_0000
            && Get32(b, 28) == (s.ackno + c.theirInitSeqno) % 0x1_0000_0000
            && b[33] == s.flags % 256 && Get16(b, 34) == s.window && Swap(Get16(b, 36)) == sum
            && b[FULL_HDR_SIZE..] == s.data
  {
    var b := Packet(c, s, sum);
    IpFields(c, FULL_HDR_SIZE + |s.data|);
    TcpFields(c, s, sum);
    hide IpPart, TcpPart;
    var t := TcpPart(c, s, sum);
    assert b[20..40] == t;
    assert forall k {:trigger b[k]} :: 20 <= k < 40 ==> b[k] == t[k - 20];
    assert Get32(b, 24) == Get32(t, 4) && Get32(b, 28) == Get32(t, 8);
  }

  lemma IpFields(c: Conn, total: u16)
    ensures Get16(IpPart(c, total), 2) == total
  {
    hide Checksum;
  }

  lemma TcpFields(c: Conn, s: Segment, sum: u16)
    ensures var t := TcpPart(c, s, sum);
            && Get32(t, 4) == (s.seqno + c.initSeqno) % 0x1_0000_0000
            && Get32(t, 8) == (s.ackno + c.theirInitSeqno) % 0x1_0000_0000
            && t[13] == s.flags % 256 && Get16(t, 14) == s.window && Swap(Get16(t, 16)) == sum
  {
    hide TcpHeader, Get16, Get32, Swap;
    HeaderFields(c.port, c.peerPort, (s.seqno + c.initSeqno) % 0x1_0000_0000,
                 (s.ackno + c.theirInitSeqno) % 0x1_0000_0000, s.flags % 256, s.window, sum);
  }

  lemma HeaderFields(sport: u16, dport: u16, seqno: u32, ackno: u32, flags: byte, window: u16, sum: u16)
    ensures var t := TcpHeader(sport, dport, seqno, ackno, flags, window, sum);
            && Get32(t, 4) == seqno && Get32(t, 8) == ackno
            && t[13] == flags && Get16(t, 14) == window && Swap(Get16(t, 16)) == sum
  {
    var t := TcpHeader(sport, dport, seqno, ackno, flags, window, sum);
    assert t[4..8] == BE32(seqno) && t[8..12] == BE32(ackno);
    assert t[14..16] == BE16(window) && t[16..18] == LE16(sum);
    assert t[13] == flags;
    hide TcpHeader, Get16, Get32, BE32, BE16, LE16, Swap;
    Get32At(t, 4, seqno);
    Get32At(t, 8, ackno);
    Get16At(t, 14, window);
    SwapTwice(sum);
    Get16At(t, 16, Swap(sum));
  }

  lemma Get16At(b: seq<byte>, k: nat, v: u16)
    requires k + 2 <= |b| && b[k..k + 2] == BE16(v)
    ensures Get16(b, k) == v
  {
    assert b[k] == b[k..k + 2][0] && b[k + 1] == b[k..k + 2][1];
  }

  lemma Get32At(b: seq<byte>, k: nat, v: u32)
    requires k + 4 <= |b| && b[k..k + 4] == BE32(v)
    ensures Get32(b, k) == v
  {
    assert b[k..k + 2] == b[k..k + 4][..2] && b[k + 2..k + 4] == b[k..k + 4][2..];
    Get16At(b, k, v / 0x1_0000);
    Get16At(b, k + 2, v % 0x1_0000);
  }

  /** Clearing the checksum of a packet gives the packet with a zero checksum. */
  lemma ClearedPacket(c: Conn, s: Segment, sum: u16)
    requires |s.data| <= MAX_DATA_LEN
    ensures ClearSum(Packet(c, s, sum)) == Packet(c, s, 0)
  {
    var t, t0 := TcpPart(c, s, sum), TcpPart(c, s, 0);
    assert t[..16] == t0[..16] && t[18..] == t0[18..] && t0[16..18] == LE16(0);
    hide IpPart, TcpPart;
    var b, b0 := Packet(c, s, sum), Packet(c, s, 0);
    assert b[..36] == IpPart(c, FULL_HDR_SIZE + |s.data|) + t[..16];
    assert b0[..36] == IpPart(c, FULL_HDR_SIZE + |s.data|) + t0[..16];
    assert b[38..] == t[18..] + s.data && b0[38..] == t0[18..] + s.data;
    assert b0[36..38] == t0[16..18];
    assert b0 == b0[..36] + b0[36..38] + b0[38..];
  }

  /** What `convert_to_ctcp` reads from the fields of a packet. */
  lemma SegmentFields(c: Conn, b: seq<byte>)
    requires WellSized(b)
    ensures var s := ToSegment(c, b);
            var len := Get16(b, 2) - FULL_HDR_SIZE;
            && s.seqno == (Get32(b, 24) - c.theirInitSeqno) % 0x1_0000_0000
            && s.ackno == (Get32(b, 28) - c.initSeqno) % 0x1_0000_0000
            && s.len == len + SEGMENT_HDR_SIZE && s.flags == b[33] && s.window == Get16(b, 34)
            && s.sendTime == s.delivered == s.deliveredTime == 0
            && s.data == b[FULL_HDR_SIZE..FULL_HDR_SIZE + len]
            && s.cksum == Add16(CorrectSum(s), Sub16(TcpSum(ClearSum(b), len), Swap(Get16(b, 36))))
  {
    var s := ToSegment(c, b);
    SumOfCarried(s, s.(cksum := 0));
    hide CorrectSum, TcpSum, Add16, Sub16, Swap;
  }

  lemma SumOfCarried(s: Segment, s': Segment)
    requires s.(cksum := 0) == s'.(cksum := 0)
    ensures CorrectSum(s) == CorrectSum(s')
  {
  }

  lemma OffsetCancels(x: u32, offset: u32)
    ensures ((x + offset) % 0x1_0000_0000 - offset) % 0x1_0000_0000 == x
  {
  }

  /** Everything but the checksum comes back, the sequence numbers through both offsets. */
  lemma RoundTripFields(a: Conn, b: Conn, s: Segment)
    requires Joined(a, b) && |s.data| <= MAX_DATA_LEN
    ensures WellSized(ToDatagram(a, s))
    ensures ToSegment(b, ToDatagram(a, s)).(cksum := 0) == Carried(s).(cksum := 0)
  {
    hide CorrectSum, TcpSum, ToSegment, Packet, Get32, Get16, Add16, Sub16, ClearSum, Swap;
    var d := ToDatagram(a, s);
    PacketFields(a, s, Add16(TcpSum(Packet(a, s, 0), |s.data|), Sub16(CorrectSum(s), s.cksum)));
    SegmentFields(b, d);
    OffsetCancels(s.seqno, a.initSeqno);
    OffsetCancels(s.ackno, a.theirInitSeqno);
  }

  lemma CorrectionsCancel(carried: u16, t: u16, correct: u16, given: u16)
    ensures Add16(carried, Sub16(t, Add16(t, Sub16(correct, given)))) == Add16(given, Sub16(carried, correct))
  {
    DifferenceBack(t, correct, given);
    hide Add16, Sub16;
    DifferenceMoves(carried, given, correct);
  }

  lemma DifferenceBack(t: u16, x: u16, y: u16)
    ensures Sub16(t, Add16(t, Sub16(x, y))) == Sub16(y, x)
  {
    var d := Sub16(x, y);
    assert d == x - y || d == x - y + 0x1_0000;
    assert Add16(t, d) == t + d || Add16(t, d) == t + d - 0x1_0000;
  }

  lemma DifferenceMoves(x: u16, y: u16, z: u16)
    ensures Add16(x, Sub16(y, z)) == Add16(y, Sub16(x, z))
  {
    var d, e := Sub16(y, z), Sub16(x, z);
    assert d == y - z || d == y - z + 0x1_0000;
    assert e == x - z || e == x - z + 0x1_0000;
  }

  /** The two corrections cancel: the checksum comes back off by as much as the carried segment's correct
      checksum differs from that of the segment that was sent. */
  lemma RoundTripChecksum(a: Conn, b: Conn, s: Segment)
    requires Joined(a, b) && |s.data| <= MAX_DATA_LEN
    ensures WellSized(ToDatagram(a, s))
    ensures ToSegment(b, ToDatagram(a, s)).cksum == Add16(s.cksum, Sub16(CorrectSum(Carried(s)), CorrectSum(s)))
  {
    hide CorrectSum, TcpSum, ToSegment, Packet, Get32, Get16, Add16, Sub16, ClearSum, Swap, Carried;
    var t := TcpSum(Packet(a, s, 0), |s.data|);
    var sum := Add16(t, Sub16(CorrectSum(s), s.cksum));
    RoundTripFields(a, b, s);
    PacketFields(a, s, sum);
    ClearedPacket(a, s, sum);
    SegmentFields(b, ToDatagram(a, s));
    SumOfCarried(ToSegment(b, ToDatagram(a, s)), Carried(s));
    CorrectionsCancel(CorrectSum(Carried(s)), t, CorrectSum(s), s.cksum);
  }

  lemma SameCorrection(given: u16, x: u16, y: u16)
    ensures Add16(given, Sub16(x, y)) == given <==> x == y
  {
  }

  /** The checksum comes back if and only if what the packet does not carry made no difference to it. */
  lemma ChecksumSurvives(a: Conn, b: Conn, s: Segment)
    requires Joined(a, b) && |s.data| <= MAX_DATA_LEN
    ensures WellSized(ToDatagram(a, s))
    ensures ToSegment(b, ToDatagram(a, s)).cksum == s.cksum <==> CorrectSum(Carried(s)) == CorrectSum(s)
  {
    hide ToSegment, ToDatagram, CorrectSum, Carried, Add16, Sub16, WellSized;
    RoundTripChecksum(a, b, s);
    SameCorrection(s.cksum, CorrectSum(Carried(s)), CorrectSum(s));
  }

  /** A segment whose flags fit in a byte, whose length is true and which carries no timing comes back exactly,
      with whatever checksum the sender put in. */
  lemma RoundTrip(a: Conn, b: Conn, s: Segment)
    requires Joined(a, b) && |s.data| <= MAX_DATA_LEN && Carried(s) == s
    ensures WellSized(ToDatagram(a, s)) && ToSegment(b, ToDatagram(a, s)) == s
  {
    hide ToSegment, ToDatagram, CorrectSum, Carried, WellSized;
    RoundTripFields(a, b, s);
    ChecksumSurvives(a, b, s);
  }

  // ---------------------------------------------------------------------------------------------
  // Valid packets
  // ---------------------------------------------------------------------------------------------

  /** The IP header of every packet checks. */
  lemma IpHeaderChecks(c: Conn, total: u16)
    ensures Checksum(IpPart(c, total)) == 0xffff
  {
    var h := IpHeader(total, c.ip, c.peerIp, 0);
    assert h[10] == 0 && h[11] == 0;
    hide Checksum;
    StoredChecksumChecks(h, 10);
    assert IpPart(c, total) == Patch(h, 10, LE16(Checksum(h)));
  }

  /** A correct cTCP checksum becomes a TCP checksum under which the packet checks. */
  lemma CorrectSegmentChecks(c: Conn, s: Segment)
    requires |s.data| <= MAX_DATA_LEN && s.cksum == CorrectSum(s)
    ensures Checksum(PseudoPacket(ToDatagram(c, s), |s.data|)) == 0xffff
  {
    hide Checksum, CorrectSum;
    var n := |s.data|;
    var p0 := PseudoPacket(Packet(c, s, 0), n);
    var sum := TcpSum(Packet(c, s, 0), n);
    assert ToDatagram(c, s) == Packet(c, s, sum);
    PseudoOfPacket(c, s, 0);
    PseudoOfPacket(c, s, sum);
    hide PseudoPacket, Packet;
    StoredChecksumChecks(p0, 28);
  }

  /** The pseudo-header of a packet does not depend on the checksum, which stands at offset 28 behind it. */
  lemma PseudoOfPacket(c: Conn, s: Segment, sum: u16)
    requires |s.data| <= MAX_DATA_LEN
    ensures var p0 := PseudoPacket(Packet(c, s, 0), |s.data|);
            && |p0| == 32 + |s.data| && p0[28] == 0 && p0[29] == 0
            && PseudoPacket(Packet(c, s, sum), |s.data|) == Patch(p0, 28, LE16(sum))
  {
    var n := |s.data|;
    var b, b0 := Packet(c, s, sum), Packet(c, s, 0);
    var t, t0 := TcpPart(c, s, sum), TcpPart(c, s, 0);
    assert t[..16] == t0[..16] && t[18..] == t0[18..] && t0[16..18] == LE16(0) && t[16..18] == LE16(sum);
    assert b[20..40 + n] == t + s.data && b0[20..40 + n] == t0 + s.data;
    assert b[12..16] == b0[12..16] && b[16..20] == b0[16..20];
    hide TcpPart, IpPart, Packet;
    var head := b0[12..16] + b0[16..20] + [0] + [IPPROTO_TCP] + BE16(TCP_HDR_SIZE + n);
    assert |head| == 12;
    assert t == t[..16] + LE16(sum) + t[18..] && t0 == t0[..16] + LE16(0) + t0[18..];
    assert PseudoPacket(b0, n) == (head + t0[..16]) + LE16(0) + (t0[18..] + s.data);
    assert PseudoPacket(b, n) == (head + t0[..16]) + LE16(sum) + (t0[18..] + s.data);
  }
}
