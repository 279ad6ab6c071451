/** The same translation in buffers that are allocated and filled step by step. */
module WireBuffers {
  import opened Bytes
  import opened InternetChecksum
  import opened Wire

  /** `memcpy` or the assignment of a field: `field` replaces the bytes from `offset` on. */
  method Store(a: array<byte>, offset: nat, field: seq<byte>)
    requires offset + |field| <= a.Length
    modifies a
    ensures a[..] == Patch(old(a[..]), offset, field)
  {
    hide Patch;
    var i := 0;
    PatchNothing(a[..], offset, field);
    while i < |field|
      invariant 0 <= i <= |field|
      invariant a[..] == Patch(old(a[..]), offset, field[..i])
    {
      PatchOneMore(old(a[..]), offset, field, i);
      ghost var before := a[..];
      a[offset + i] := field[i];
      assert a[..] == before[offset + i := field[i]];
      i := i + 1;
    }
    assert field[..i] == field;
  }

  lemma PatchNothing(data: seq<byte>, offset: nat, field: seq<byte>)
    requires offset + |field| <= |data|
    ensures Patch(data, offset, field[..0]) == data
  {
  }

  lemma PatchOneMore(data: seq<byte>, offset: nat, field: seq<byte>, i: nat)
    requires offset + |field| <= |data| && i < |field|
    ensures Patch(data, offset, field[..i])[offset + i := field[i]] == Patch(data, offset, field[..i + 1])
  {
  }

  /** Filling a buffer from the front: the next field goes right behind what is there. */
  method StoreNext(a: array<byte>, ghost front: seq<byte>, ghost rest: seq<byte>, offset: nat, field: seq<byte>)
    requires a[..] == front + rest && offset == |front| && |field| <= |rest|
    modifies a
    ensures a[..] == (front + field) + rest[|field|..]
  {
    Store(a, offset, field);
  }

  /** The assignments to the fields of the IP header, whose checksum stays zero. */
  method FillIpHeader(d: array<byte>, total: u16, src: u32, dst: u32)
    requires IP_HDR_SIZE <= d.Length && d[..] == Zeros(d.Length)
    modifies d
    ensures d[..] == IpHeader(total, src, dst, 0) + Zeros(d.Length - IP_HDR_SIZE)
  {
    hide BE16, BE32, LE16, IpHeader, Zeros;
    var first := [0x45] + [0] + BE16(total) + BE16(IP_ID);
    var second := BE16(0) + [DEFAULT_TTL] + [IPPROTO_TCP] + LE16(0);
    var third := BE32(src) + BE32(dst);
    ghost var z := Zeros(d.Length);
    assert d[..] == [] + z;
    StoreNext(d, [], z, 0, first);
    assert [] + first == first;
    StoreNext(d, first, z[6..], 6, second);
    assert z[6..][6..] == z[12..];
    StoreNext(d, first + second, z[12..], 12, third);
    ZerosAfter(d.Length, 12, 8);
    IpHeaderParts(total, src, dst);
  }

  lemma ZerosAfter(n: nat, k: nat, l: nat)
    requires k + l <= n
    ensures Zeros(n)[k..][l..] == Zeros(n - k - l)
  {
  }

  lemma IpHeaderParts(total: u16, src: u32, dst: u32)
    ensures ([0x45] + [0] + BE16(total) + BE16(IP_ID)) + (BE16(0) + [DEFAULT_TTL] + [IPPROTO_TCP] + LE16(0))
            + (BE32(src) + BE32(dst)) == IpHeader(total, src, dst, 0)
  {
    hide BE16, BE32, LE16;
  }

  /** `create_datagram`. */
  method CreateDatagram(c: Wire.Conn, len: nat) returns (d: array<byte>)
    requires IP_HDR_SIZE + len <= 0xffff
    ensures fresh(d) && d[..] == IpPart(c, IP_HDR_SIZE + len) + Zeros(len)
  {
    hide IpHeader, Checksum;
    var total := IP_HDR_SIZE + len;
    d := new byte[total](_ => 0);
    assert d[..] == Zeros(total);
    FillIpHeader(d, total, c.ip, c.peerIp);
    ghost var ip := IpHeader(total, c.ip, c.peerIp, 0);
    assert d[..IP_HDR_SIZE] == ip;
    var check := Cksum(d[..IP_HDR_SIZE]);
    Store(d, 10, LE16(check));
    ChecksumPatched(total, c.ip, c.peerIp, check);
    assert Patch(ip + Zeros(len), 10, LE16(check)) == Patch(ip, 10, LE16(check)) + Zeros(len);
  }

  lemma ChecksumPatched(total: u16, src: u32, dst: u32, check: u16)
    ensures Patch(IpHeader(total, src, dst, 0), 10, LE16(check)) == IpHeader(total, src, dst, check)
  {
  }

  /** `cksum_tcp`. */
  method CksumTcp(d: array<byte>, len: nat) returns (sum: u16)
    requires FULL_HDR_SIZE + len <= d.Length && len <= MAX_DATA_LEN
    ensures sum == TcpSum(d[..], len)
  {
    var phdr := new byte[32 + len](_ => 0);
    ghost var z := Zeros(32 + len);
    var src, dst, segment := d[12..16], d[16..20], d[IP_HDR_SIZE..FULL_HDR_SIZE + len];
    assert phdr[..] == [] + z;
    StoreNext(phdr, [], z, 0, src + dst);
    StoreNext(phdr, src + dst, z[8..], 8, [0] + [IPPROTO_TCP] + BE16(TCP_HDR_SIZE + len));
    ghost var h := (src + dst) + ([0] + [IPPROTO_TCP] + BE16(TCP_HDR_SIZE + len));
    assert z[8..][4..] == z[12..];
    StoreNext(phdr, h, z[12..], 12, segment);
    assert phdr[..] == h + segment;
    assert d[..][12..16] == src && d[..][16..20] == dst && d[..][IP_HDR_SIZE..FULL_HDR_SIZE + len] == segment;
    assert phdr[..] == PseudoPacket(d[..], len);
    hide PseudoPacket, Checksum;
    sum := Cksum(phdr[..]);
  }

  /** `convert_to_datagram`. */
  method ConvertToDatagram(c: Wire.Conn, s: Segment) returns (d: array<byte>)
    requires |s.data| <= MAX_DATA_LEN
    ensures fresh(d) && d[..] == ToDatagram(c, s)
  {
    hide IpPart, CorrectSum, TcpSum, Add16, Sub16, Checksum, TcpHeader, SegmentBytes, Zeros;
    var n := |s.data|;
    d := CreateDatagram(c, TCP_HDR_SIZE + n);
    ghost var ip := IpPart(c, FULL_HDR_SIZE + n);
    Store(d, FULL_HDR_SIZE, s.data);
    ZerosThenData(ip, s.data);
    assert d[..] == ip + (Zeros(20) + s.data);
    var seqno: u32 := (s.seqno + c.initSeqno) % 0x1_0000_0000;
    var ackno: u32 := (s.ackno + c.theirInitSeqno) % 0x1_0000_0000;
    FillTcpHeader(d, c.port, c.peerPort, seqno, ackno, s.flags % 256, s.window, ip, s.data);
    var correct := Cksum(SegmentBytes(s.(cksum := 0)));
    assert correct == CorrectSum(s) by { SumOfSegment(s); }
    assert d[..] == Packet(c, s, 0);
    var sum := CksumTcp(d, n);
    sum := Add16(sum, Sub16(correct, s.cksum));
    Store(d, 36, LE16(sum));
    SumPatched(c, s, sum);
  }

  lemma ZerosThenData(ip: seq<byte>, data: seq<byte>)
    requires |ip| == IP_HDR_SIZE
    ensures Patch(ip + Zeros(TCP_HDR_SIZE + |data|), FULL_HDR_SIZE, data) == ip + (Zeros(20) + data)
  {
  }

  lemma SumOfSegment(s: Segment)
    ensures Checksum(SegmentBytes(s.(cksum := 0))) == CorrectSum(s)
  {
  }

  lemma SumPatched(c: Wire.Conn, s: Segment, sum: u16)
    requires |s.data| <= MAX_DATA_LEN
    ensures Patch(Packet(c, s, 0), 36, LE16(sum)) == Packet(c, s, sum)
  {
    var ip := IpPart(c, FULL_HDR_SIZE + |s.data|);
    hide IpPart;
    var t, t0 := TcpPart(c, s, sum), TcpPart(c, s, 0);
    assert t == Patch(t0, 16, LE16(sum));
    hide TcpPart;
    assert Patch(ip + t0 + s.data, 36, LE16(sum)) == ip + Patch(t0, 16, LE16(sum)) + s.data;
  }

  /** The assignments to the fields of the TCP header, whose checksum stays zero. */
  method FillTcpHeader(d: array<byte>, sport: u16, dport: u16, seqno: u32, ackno: u32, flags: byte, window: u16,
                       ghost front: seq<byte>, ghost data: seq<byte>)
    requires |front| == IP_HDR_SIZE && d[..] == front + (Zeros(20) + data)
    modifies d
    ensures d[..] == front + TcpHeader(sport, dport, seqno, ackno, flags, window, 0) + data
  {
    hide BE16, BE32, LE16, Zeros;
    ghost var r := Zeros(20) + data;
    StoreNext(d, front, r, 20, BE16(sport) + BE16(dport));
    ghost var h := front + (BE16(sport) + BE16(dport));
    StoreNext(d, h, r[4..], 24, BE32(seqno) + BE32(ackno));
    ghost var h2 := h + (BE32(seqno) + BE32(ackno));
    assert r[4..][8..] == r[12..];
    StoreNext(d, h2, r[12..], 32, [0x50] + [flags] + BE16(window) + LE16(0));
    assert r[12..][6..] == r[18..];
    LastZeros(data);
    HeaderConcat(front, sport, dport, seqno, ackno, flags, window, data);
  }

  lemma LastZeros(data: seq<byte>)
    ensures (Zeros(20) + data)[18..] == Zeros(2) + data
  {
  }

  lemma HeaderConcat(front: seq<byte>, sport: u16, dport: u16, seqno: u32, ackno: u32, flags: byte, window: u16,
                     data: seq<byte>)
    ensures ((front + (BE16(sport) + BE16(dport))) + (BE32(seqno) + BE32(ackno))
             + ([0x50] + [flags] + BE16(window) + LE16(0))) + (Zeros(2) + data)
         == front + TcpHeader(sport, dport, seqno, ackno, flags, window, 0) + data
  {
    hide BE16, BE32, LE16, Zeros;
  }

  /** `convert_to_ctcp`, which clears the checksum of the packet it is given. */
  method ConvertToCtcp(c: Wire.Conn, d: array<byte>) returns (s: Segment)
    requires WellSized(d[..])
    modifies d
    ensures s == ToSegment(c, old(d[..]))
    ensures d[..] == ClearSum(old(d[..]))
  {
    hide CorrectSum, TcpSum, Add16, Sub16, Checksum, Get32, Get16;
    ghost var b := d[..];
    var len := Get16(d[..], 2) - FULL_HDR_SIZE;
    s := Segment((Get32(d[..], 24) - c.theirInitSeqno) % 0x1_0000_0000,
                 (Get32(d[..], 28) - c.initSeqno) % 0x1_0000_0000,
                 len + SEGMENT_HDR_SIZE, d[33], Get16(d[..], 34), 0, 0, 0, 0,
                 d[FULL_HDR_SIZE..FULL_HDR_SIZE + len]);
    assert s.data == b[FULL_HDR_SIZE..FULL_HDR_SIZE + len];
    var own := Cksum(SegmentBytes(s));
    assert own == CorrectSum(s) by { SumOfSegment(s); assert s.(cksum := 0) == s; }
    var sum := Swap(Get16(d[..], 36));
    Store(d, 36, LE16(0));
    var correct := CksumTcp(d, len);
    s := s.(cksum := Add16(own, Sub16(correct, sum)));
  }
}
