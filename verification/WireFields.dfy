/** Every field of the datagrams that a host sends, by its octets, and which of them the peer's filter lets in
    (`recv_filter` in lab4/ctcp/ctcp_sys_internal.c, over the Unix socket). */
module WireFields {
  import opened Bytes
  import opened InternetChecksum
  import opened Wire

  /** The 16-bit and 32-bit numbers in network order at an offset. */
  function At16(b: seq<byte>, k: nat): int
    requires k + 2 <= |b|
  {
    b[k] as int * 0x100 + b[k + 1]
  }

  function At32(b: seq<byte>, k: nat): int
    requires k + 4 <= |b|
  {
    b[k] as int * 0x100_0000 + b[k + 1] as int * 0x1_0000 + b[k + 2] as int * 0x100 + b[k + 3]
  }

  lemma BE16At(b: seq<byte>, k: nat, v: u16)
    requires k + 2 <= |b| && b[k..k + 2] == BE16(v)
    ensures At16(b, k) == v
  {
    assert b[k] == b[k..k + 2][0] && b[k + 1] == b[k..k + 2][1];
  }

  lemma BE32At(b: seq<byte>, k: nat, v: u32)
    requires k + 4 <= |b| && b[k..k + 4] == BE32(v)
    ensures At32(b, k) == v
  {
    var q := b[k..k + 4];
    assert b[k] == q[0] && b[k + 1] == q[1] && b[k + 2] == q[2] && b[k + 3] == q[3];
    assert q[..2] == BE16(v / 0x1_0000) && q[2..] == BE16(v % 0x1_0000);
    BE16At(q, 0, v / 0x1_0000);
    BE16At(q, 2, v % 0x1_0000);
  }

  /** The IP header: version 4 and five words without options, the total length, TCP, and both addresses. */
  predicate IpFields(b: seq<byte>, total: int, src: u32, dst: u32) {
    && 20 <= |b| && b[0] == 0x45 && b[1] == 0 && At16(b, 2) == total && At16(b, 4) == 144 && At16(b, 6) == 0
    && b[8] == 64 && b[9] == 6 && At32(b, 12) == src && At32(b, 16) == dst
  }

  /** The TCP header of five words: both ports, both numbers, flags, window, and no urgent data. */
  predicate TcpFields(b: seq<byte>, sport: u16, dport: u16, seqno: int, ackno: int, flags: int, window: int) {
    && 40 <= |b| && At16(b, 20) == sport && At16(b, 22) == dport && At32(b, 24) == seqno && At32(b, 28) == ackno
    && b[32] == 0x50 && b[33] == flags && At16(b, 34) == window && At16(b, 38) == 0
  }

  lemma IpPartFields(c: Conn, total: u16)
    ensures IpFields(IpPart(c, total), total, c.ip, c.peerIp)
  {
    hide Checksum, BE16, BE32, LE16;
    var sum := Checksum(IpHeader(total, c.ip, c.peerIp, 0));
    var b := IpPart(c, total);
    assert b == [0x45] + [0] + BE16(total) + BE16(IP_ID) + BE16(0) + [DEFAULT_TTL] + [IPPROTO_TCP] + LE16(sum)
                + BE32(c.ip) + BE32(c.peerIp);
    assert b[2..4] == BE16(total) && b[4..6] == BE16(144) && b[6..8] == BE16(0);
    assert b[12..16] == BE32(c.ip) && b[16..20] == BE32(c.peerIp);
    hide IpPart;
    BE16At(b, 2, total);
    BE16At(b, 4, 144);
    BE16At(b, 6, 0);
    BE32At(b, 12, c.ip);
    BE32At(b, 16, c.peerIp);
  }

  /** The fields of a TCP header by itself. */
  lemma HeaderFields(sport: u16, dport: u16, seqno: u32, ackno: u32, flags: byte, window: u16, sum: u16)
    ensures var t := TcpHeader(sport, dport, seqno, ackno, flags, window, sum);
            && At16(t, 0) == sport && At16(t, 2) == dport && At32(t, 4) == seqno && At32(t, 8) == ackno
            && t[12] == 0x50 && t[13] == flags && At16(t, 14) == window && At16(t, 18) == 0
  {
    hide BE16, BE32, LE16, At16, At32;
    var t := TcpHeader(sport, dport, seqno, ackno, flags, window, sum);
    assert t[0..2] == BE16(sport) && t[2..4] == BE16(dport) && t[4..8] == BE32(seqno) && t[8..12] == BE32(ackno);
    assert t[14..16] == BE16(window);
    assert t[18] == 0 && t[19] == 0;
    BE16At(t, 0, sport);
    BE16At(t, 2, dport);
    BE32At(t, 4, seqno);
    BE32At(t, 8, ackno);
    BE16At(t, 14, window);
    ZeroAt(t, 18);
  }

  lemma ZeroAt(b: seq<byte>, k: nat)
    requires k + 2 <= |b| && b[k] == 0 && b[k + 1] == 0
    ensures At16(b, k) == 0
  {
  }

  lemma Behind(front: seq<byte>, t: seq<byte>, data: seq<byte>, k: nat)
    requires k < |t|
    ensures (front + t + data)[|front| + k] == t[k]
    ensures k + 2 <= |t| ==> At16(front + t + data, |front| + k) == At16(t, k)
    ensures k + 4 <= |t| ==> At32(front + t + data, |front| + k) == At32(t, k)
  {
  }

  lemma TcpPartFields(c: Conn, s: Segment, sum: u16, front: seq<byte>, data: seq<byte>)
    requires |front| == 20
    ensures TcpFields(front + TcpPart(c, s, sum) + data, c.port, c.peerPort,
                      (s.seqno + c.initSeqno) % 0x1_0000_0000, (s.ackno + c.theirInitSeqno) % 0x1_0000_0000,
                      s.flags % 256, s.window)
  {
    hide TcpHeader, At16, At32;
    HeaderFields(c.port, c.peerPort, (s.seqno + c.initSeqno) % 0x1_0000_0000,
                 (s.ackno + c.theirInitSeqno) % 0x1_0000_0000, s.flags % 256, s.window, sum);
    var t := TcpPart(c, s, sum);
    Behind(front, t, data, 0);
    Behind(front, t, data, 2);
    Behind(front, t, data, 4);
    Behind(front, t, data, 8);
    Behind(front, t, data, 12);
    Behind(front, t, data, 13);
    Behind(front, t, data, 14);
    Behind(front, t, data, 18);
  }

  /** What is in a datagram: who sends it to whom, from which port to which, the numbers moved by the initial ones,
      and the data behind both headers. */
  lemma DatagramFields(c: Conn, s: Segment)
    requires |s.data| <= MAX_DATA_LEN
    ensures var b := ToDatagram(c, s);
            && |b| == 40 + |s.data| && b[40..] == s.data
            && IpFields(b, 40 + |s.data|, c.ip, c.peerIp)
            && TcpFields(b, c.port, c.peerPort, (s.seqno + c.initSeqno) % 0x1_0000_0000,
                         (s.ackno + c.theirInitSeqno) % 0x1_0000_0000, s.flags % 256, s.window)
  {
    hide TcpPart, IpPart, Checksum, CorrectSum, TcpSum, Add16, Sub16, TcpFields;
    var sum := Add16(TcpSum(Packet(c, s, 0), |s.data|), Sub16(CorrectSum(s), s.cksum));
    var b, ip := ToDatagram(c, s), IpPart(c, FULL_HDR_SIZE + |s.data|);
    assert b == ip + TcpPart(c, s, sum) + s.data;
    IpPartFields(c, FULL_HDR_SIZE + |s.data|);
    TcpPartFields(c, s, sum, ip, s.data);
    assert forall k :: 0 <= k < 20 ==> b[k] == ip[k];
  }

  /** A 32-bit and a 64-bit number as they lie in the memory of a little-endian machine. */
  function Memory32(b: seq<byte>, k: nat): int
    requires k + 4 <= |b|
  {
    b[k] as int + b[k + 1] as int * 0x100 + b[k + 2] as int * 0x1_0000 + b[k + 3] as int * 0x100_0000
  }

  function Memory64(b: seq<byte>, k: nat): int
    requires k + 8 <= |b|
  {
    Memory32(b, k) + Memory32(b, k + 4) * 0x1_0000_0000
  }

  lemma LE32At(b: seq<byte>, k: nat, v: u32)
    requires k + 4 <= |b| && b[k..k + 4] == LE32(v)
    ensures Memory32(b, k) == v
  {
    var q := b[k..k + 4];
    assert b[k] == q[0] && b[k + 1] == q[1] && b[k + 2] == q[2] && b[k + 3] == q[3];
  }

  lemma LE64At(b: seq<byte>, k: nat, v: u64)
    requires k + 8 <= |b| && b[k..k + 8] == LE64(v)
    ensures Memory64(b, k) == v
  {
    hide LE32;
    var q := b[k..k + 8];
    assert b[k..k + 4] == q[..4] == LE32(v % 0x1_0000_0000) && b[k + 4..k + 8] == q[4..] == LE32(v / 0x1_0000_0000);
    LE32At(b, k, v % 0x1_0000_0000);
    LE32At(b, k + 4, v / 0x1_0000_0000);
  }

  /** The structure over which a cTCP checksum is computed: numbers, length and window in network order, flags and
      timing as they lie in memory, and zeros where the compiler pads. */
  lemma SegmentFields(s: Segment)
    ensures var b := SegmentBytes(s);
            && |b| == 48 + |s.data| && b[48..] == s.data
            && At32(b, 0) == s.seqno && At32(b, 4) == s.ackno && At16(b, 8) == s.len && At16(b, 10) == 0
            && Memory32(b, 12) == s.flags && At16(b, 16) == s.window && b[18..20] == LE16(s.cksum)
            && At32(b, 20) == 0
            && Memory64(b, 24) == s.sendTime && Memory64(b, 32) == s.delivered && Memory64(b, 40) == s.deliveredTime
  {
    hide BE16, BE32, LE16, LE32, LE64;
    var b := SegmentBytes(s);
    assert b[0..4] == BE32(s.seqno) && b[4..8] == BE32(s.ackno) && b[8..10] == BE16(s.len);
    assert b[12..16] == LE32(s.flags) && b[16..18] == BE16(s.window) && b[18..20] == LE16(s.cksum);
    assert b[10] == 0 && b[11] == 0 && b[20] == 0 && b[21] == 0 && b[22] == 0 && b[23] == 0;
    assert b[24..32] == LE64(s.sendTime) && b[32..40] == LE64(s.delivered) && b[40..48] == LE64(s.deliveredTime);
    hide SegmentBytes;
    BE32At(b, 0, s.seqno);
    BE32At(b, 4, s.ackno);
    BE16At(b, 8, s.len);
    LE32At(b, 12, s.flags);
    BE16At(b, 16, s.window);
    LE64At(b, 24, s.sendTime);
    LE64At(b, 32, s.delivered);
    LE64At(b, 40, s.deliveredTime);
  }

  /** The pseudo-header: both addresses, zero, TCP, and the length of the TCP part, which follows it. */
  lemma PseudoFields(d: seq<byte>, len: nat)
    requires FULL_HDR_SIZE + len <= |d| && len <= MAX_DATA_LEN
    ensures var b := PseudoPacket(d, len);
            && |b| == 32 + len && b[0..8] == d[12..20] && b[8] == 0 && b[9] == 6
            && At16(b, 10) == 20 + len && b[12..] == d[20..40 + len]
  {
    hide BE16;
    var b := PseudoPacket(d, len);
    assert b[10..12] == BE16(20 + len);
    BE16At(b, 10, 20 + len);
  }

  // ---------------------------------------------------------------------------------------------
  // The peer's filter
  // ---------------------------------------------------------------------------------------------

  datatype Verdict = Dropped | Reset | Handshake | Established

  /** `recv_filter` for a host with one connection. */
  function RecvFilter(c: Conn, d: seq<byte>): Verdict {
    if |d| < FULL_HDR_SIZE then Dropped
    else if At16(d, 22) != c.port then Dropped
    else if d[33] / 4 % 2 == 1 then Reset
    else if d[33] / 2 % 2 == 1 then Handshake
    else if At16(d, 20) == c.peerPort && At32(d, 24) >= c.theirInitSeqno && At32(d, 28) >= c.initSeqno then Established
    else Dropped
  }

  /** Both ends of one connection. */
  predicate Met(a: Conn, b: Conn) {
    Joined(a, b) && a.port == b.peerPort && a.peerPort == b.port
  }

  lemma SumWraps(x: u32, init: u32)
    ensures (x + init) % 0x1_0000_0000 >= init <==> x + init < 0x1_0000_0000
  {
  }

  /** A segment without SYN and RST reaches the peer's connection if and only if neither of its numbers wraps
      around when the initial one is added; otherwise it is dropped. */
  lemma PeerAccepts(a: Conn, b: Conn, s: Segment)
    requires Met(a, b) && |s.data| <= MAX_DATA_LEN && s.flags / 2 % 2 == 0 && s.flags / 4 % 2 == 0
    ensures RecvFilter(b, ToDatagram(a, s)) ==
            if s.seqno + a.initSeqno < 0x1_0000_0000 && s.ackno + a.theirInitSeqno < 0x1_0000_0000
            then Established else Dropped
  {
    DatagramFields(a, s);
    hide ToDatagram, At32, At16;
    SumWraps(s.seqno, a.initSeqno);
    SumWraps(s.ackno, a.theirInitSeqno);
    LowFlags(s.flags);
  }

  lemma LowFlags(flags: u32)
    ensures flags % 256 / 2 % 2 == flags / 2 % 2 && flags % 256 / 4 % 2 == flags / 4 % 2
  {
    var q, r := flags / 256, flags % 256;
    assert flags == q * 256 + r;
    LowFlag(q, r, 2, 128);
    LowFlag(q, r, 4, 64);
    EvenShift(q * 64, r / 2);
    EvenShift(q * 32, r / 4);
  }

  lemma LowFlag(q: nat, r: nat, d: nat, k: nat)
    requires d * k == 256 && d > 0 && (d == 2 || d == 4)
    ensures (q * 256 + r) / d == q * k + r / d
  {
  }

  lemma EvenShift(q: nat, r: nat)
    ensures (2 * q + r) % 2 == r % 2
  {
  }
}
