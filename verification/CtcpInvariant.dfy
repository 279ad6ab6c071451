/** The invariant of the two ends and of every packet on the way between them. */
module CtcpInvariant {
  import opened Bytes
  import opened OutputQueue
  import opened CtcpHost
  import opened CtcpNetwork
  import B = BbrModel

  /** The queued segments follow each other from sequence number `lo` to the end of the input, and each
      carries the bytes of the input that its sequence number stands for. */
  predicate Contiguous(segs: seq<Segment>, lo: int, input: seq<byte>) {
    if segs == [] then lo == 1 + |input|
    else
      && segs[0].packet.seqno == lo
      && SliceAt(input, lo - 1, segs[0].packet.data)
      && Contiguous(segs[1..], lo + |segs[0].packet.data|, input)
  }

  /** A packet sent by `h` carries bytes of its input at their place, acknowledges no more than was received,
      and is a FIN only at the end of an input that is complete. */
  predicate PacketOk(h: Host, p: Packet) {
    && p.ackno <= h.ackno
    && SliceAt(h.input, p.seqno - 1, p.data)
    && (p.fin ==> p.data == [] && h.finSent && p.seqno == 1 + |h.input|)
  }

  predicate PacketsOk(h: Host, net: set<Packet>) {
    forall p :: p in net ==> PacketOk(h, p)
  }

  /** What one end guarantees about its own retransmission queue. */
  predicate QueueOk(h: Host) {
    && 1 <= h.seqno && h.nextSeqno == 1 + |h.input|
    && Contiguous(h.segments, h.seqno, h.input)
    && (forall i :: 0 <= i < |h.segments| ==> PacketOk(h, h.segments[i].packet))
    && (h.finSent ==> h.readFinish && h.seqno == h.nextSeqno && |h.segments| <= 1)
    && (!h.finSent ==> forall i :: 0 <= i < |h.segments| ==> h.segments[i].packet.data != [])
    && (h.getAllAck ==> h.segments == [])
    && h.output == []
  }

  /** How many bytes of the peer's input were taken and acknowledged; a FIN counts for one number. */
  function Received(r: Host): int {
    r.ackno - 1 - if r.allRecvOutput then 1 else 0
  }

  /** What the sender `s` and the receiver `r` of one direction agree on. */
  predicate Link(s: Host, r: Host) {
    && s.seqno <= r.ackno
    && (if r.allRecvOutput then s.finSent && r.ackno == s.nextSeqno + 1 && r.sink.eof else r.ackno <= s.nextSeqno)
    && 0 <= Received(r) <= |s.input|
    && Accepted(r.sink) <= s.input[..Received(r)]
    && (!r.sink.eof && !r.sink.err ==> Accepted(r.sink) == s.input[..Received(r)])
  }

  predicate Inv(s: Sys) {
    && QueueOk(s.left) && QueueOk(s.right)
    && PacketsOk(s.left, s.fromLeft) && PacketsOk(s.right, s.fromRight)
    && Link(s.left, s.right) && Link(s.right, s.left)
  }

  /** How an end may change: its input and its acknowledgements only grow, and its input ends with the FIN. */
  predicate Grows(h: Host, h': Host) {
    && h.input <= h'.input
    && h.ackno <= h'.ackno
    && (h.finSent ==> h'.finSent && h'.input == h.input)
  }

  // ---------------------------------------------------------------------------------------------
  // The queue
  // ---------------------------------------------------------------------------------------------

  lemma SliceGrows<T>(s: seq<T>, s': seq<T>, start: int, sub: seq<T>)
    requires SliceAt(s, start, sub) && s <= s'
    ensures SliceAt(s', start, sub)
  {
  }

  lemma SliceAppend<T>(s: seq<T>, n: nat, k: nat)
    requires n + k <= |s|
    ensures s[..n + k] == s[..n] + s[n..n + k]
  {
  }

  lemma PacketOkGrows(h: Host, h': Host, p: Packet)
    requires PacketOk(h, p) && Grows(h, h')
    ensures PacketOk(h', p)
  {
    SliceGrows(h.input, h'.input, p.seqno - 1, p.data);
  }

  lemma PacketsOkGrow(h: Host, h': Host, net: set<Packet>, sent: seq<Packet>)
    requires PacketsOk(h, net) && Grows(h, h')
    requires forall i :: 0 <= i < |sent| ==> PacketOk(h', sent[i])
    ensures PacketsOk(h', net + (set p | p in sent))
  {
    forall p | p in net + (set q | q in sent)
      ensures PacketOk(h', p)
    {
      if p in net {
        PacketOkGrows(h, h', p);
      }
    }
  }

  lemma {:induction false} ContiguousAppend(segs: seq<Segment>, lo: int, input: seq<byte>, s: Segment)
    requires Contiguous(segs, lo, input) && 1 <= lo
    requires s.packet.seqno == 1 + |input|
    ensures Contiguous(segs + [s], lo, input + s.packet.data)
  {
    var input' := input + s.packet.data;
    if segs == [] {
      assert segs + [s] == [s] && [s][1..] == [];
      assert input'[lo - 1..] == s.packet.data;
    } else {
      hide SliceAt;
      SliceGrows(input, input', lo - 1, segs[0].packet.data);
      ContiguousAppend(segs[1..], lo + |segs[0].packet.data|, input, s);
      assert (segs + [s])[1..] == segs[1..] + [s];
    }
  }

  /** Only the packet of a segment matters to its place in the queue. */
  lemma {:induction false} ContiguousStamp(segs: seq<Segment>, lo: int, input: seq<byte>, front: Segment)
    requires segs != [] && Contiguous(segs, lo, input) && front.packet == segs[0].packet
    ensures Contiguous([front] + segs[1..], lo, input)
  {
    assert ([front] + segs[1..])[1..] == segs[1..];
  }

  // ---------------------------------------------------------------------------------------------
  // What each callback keeps at the end where it runs
  // ---------------------------------------------------------------------------------------------

  /** The receiving half of an end is untouched. */
  predicate SameReceiver(h: Host, h': Host) {
    h'.ackno == h.ackno && h'.allRecvOutput == h.allRecvOutput && h'.sink == h.sink
  }

  /** The sending half of an end is untouched. */
  predicate SameSender(h: Host, h': Host) {
    && h'.seqno == h.seqno && h'.nextSeqno == h.nextSeqno && h'.input == h.input && h'.segments == h.segments
    && h'.finSent == h.finSent && h'.readFinish == h.readFinish && h'.getAllAck == h.getAllAck
  }

  /** What a callback promises locally: a good queue, growth, and good packets. */
  predicate Keeps(h: Host, o: Outcome) {
    && QueueOk(o.host) && Grows(h, o.host)
    && (forall i :: 0 <= i < |o.sent| ==> PacketOk(o.host, o.sent[i]))
  }

  lemma SameSenderKeeps(h: Host, h': Host)
    requires QueueOk(h) && SameSender(h, h') && h.ackno <= h'.ackno && h'.output == []
    ensures QueueOk(h') && Grows(h, h')
  {
    forall i | 0 <= i < |h'.segments|
      ensures PacketOk(h', h'.segments[i].packet)
    {
      PacketOkGrows(h, h', h.segments[i].packet);
    }
  }

  /** Queueing the next bytes of the input. */
  lemma EnqueueKeeps(h: Host, data: seq<byte>, s: Segment, h': Host)
    requires QueueOk(h) && !h.finSent && data != []
    requires s.packet == Packet(h.nextSeqno, h.ackno, true, false, s.packet.window, data)
    requires h'.segments == h.segments + [s] && h'.input == h.input + data && h'.nextSeqno == h.nextSeqno + |data|
    requires h'.seqno == h.seqno && h'.finSent == h.finSent && !h'.getAllAck && h'.output == h.output
    requires h'.ackno == h.ackno
    ensures QueueOk(h') && Grows(h, h') && PacketOk(h', s.packet)
  {
    ContiguousAppend(h.segments, h.seqno, h.input, s);
    forall i | 0 <= i < |h'.segments|
      ensures PacketOk(h', h'.segments[i].packet)
    {
      if i < |h.segments| {
        PacketOkGrows(h, h', h.segments[i].packet);
      }
    }
  }

  /** The second reading of the clock is not before the first, so nothing that was read is dropped. */
  lemma ReadKeeps(h: Host, t0: int, t1: int, input: InputResult)
    requires QueueOk(h) && t0 <= t1 && (input.Data? ==> input.bytes != [])
    ensures Keeps(h, Read(h, t0, t1, input))
    ensures var h' := Read(h, t0, t1, input).host; SameReceiver(h, h') && h'.seqno == h.seqno
  {
    hide Contiguous, B.CwndFull, B.NextSendTime;
    var o := Read(h, t0, t1, input);
    if WantsInput(h, t0) && input.Data? {
      var data := input.bytes;
      var k := |h.segments|;
      EnqueueKeeps(h, data, o.host.segments[k], o.host);
    } else {
      SameSenderReadFinish(h, o.host);
    }
  }

  lemma SameSenderReadFinish(h: Host, h': Host)
    requires QueueOk(h) && (h' == h || h' == h.(readFinish := true))
    ensures QueueOk(h') && Grows(h, h')
  {
    hide Contiguous;
    forall i | 0 <= i < |h'.segments|
      ensures PacketOk(h', h'.segments[i].packet)
    {
      PacketOkGrows(h, h', h.segments[i].packet);
    }
  }

  lemma AckPacketOk(h: Host)
    requires h.nextSeqno == 1 + |h.input|
    ensures PacketOk(h, AckPacket(h))
  {
  }

  /** Taking data changes the receiving half only. */
  lemma ReceiveDataKeeps(h: Host, p: Packet, w: WriteResult)
    requires QueueOk(h)
    ensures Keeps(h, ReceiveData(h, p, w))
    ensures SameSender(h, ReceiveData(h, p, w).host)
  {
    var o := ReceiveData(h, p, w);
    ReceiveDataShape(h, p, w);
    hide ReceiveData, QueueOk, PacketOk, AckPacket;
    QueueOkOutput(h);
    QueueOkNumbers(h);
    SameSenderKeeps(h, o.host);
    AckPacketOk(o.host);
  }

  lemma ReceiveDataShape(h: Host, p: Packet, w: WriteResult)
    ensures var o := ReceiveData(h, p, w);
            && SameSender(h, o.host)
            && (o.host.output == h.output || o.host.output == [])
            && h.ackno <= o.host.ackno
            && (o.sent == [] || o.sent == [AckPacket(o.host)])
  {
    hide Output, BufSpace, AckPacket;
    if TakesData(h, p) {
      var h1 := h.(output := p.data, ackno := h.ackno + |p.data|);
      assert FlushOutput(h1, w) == h1.(sink := Output(h.sink, p.data, w), output := []);
      hide FlushOutput;
    }
  }

  lemma QueueOkOutput(h: Host)
    requires QueueOk(h)
    ensures h.output == []
  {
  }

  lemma QueueOkNumbers(h: Host)
    requires QueueOk(h)
    ensures h.nextSeqno == 1 + |h.input|
  {
  }

  /** Removing the first segment of the queue. */
  lemma PopKeeps(h: Host, h': Host)
    requires QueueOk(h) && h.segments != []
    requires h'.segments == h.segments[1..] && h'.seqno == Expected(h.segments[0])
    requires h'.nextSeqno == h.nextSeqno && h'.input == h.input && h'.finSent == h.finSent
    requires h'.readFinish == h.readFinish && h'.getAllAck == h.getAllAck && h'.ackno == h.ackno
    requires h'.output == h.output
    ensures QueueOk(h') && Grows(h, h')
  {
    forall i | 0 <= i < |h'.segments|
      ensures PacketOk(h', h'.segments[i].packet)
    {
      PacketOkGrows(h, h', h.segments[i + 1].packet);
    }
  }

  lemma AckedKeeps(h: Host, window: nat, now: int)
    requires QueueOk(h) && h.segments != [] && h.bbr.Shaped()
    ensures QueueOk(Acked(h, window, now)) && Grows(h, Acked(h, window, now))
    ensures SameReceiver(h, Acked(h, window, now)) && Acked(h, window, now).seqno == Expected(h.segments[0])
  {
    hide B.OnAck, QueueOk;
    PopKeeps(h, Acked(h, window, now));
  }

  lemma PassedKeeps(h: Host)
    requires QueueOk(h) && h.segments != []
    ensures QueueOk(Passed(h)) && Grows(h, Passed(h))
    ensures SameReceiver(h, Passed(h)) && Passed(h).seqno == Expected(h.segments[0])
  {
    hide QueueOk;
    PopKeeps(h, Passed(h));
  }

  /** The queue of an end that sent its FIN holds at most the FIN, which takes no sequence number there. */
  lemma FinAckKeeps(h: Host, p: Packet, now: int)
    requires QueueOk(h) && AcksFin(h, p) && h.bbr.Shaped()
    ensures Keeps(h, ReceiveAck(h, p, now))
    ensures SameReceiver(h, ReceiveAck(h, p, now).host) && ReceiveAck(h, p, now).host.seqno == h.seqno
  {
    var h' := ReceiveAck(h, p, now).host;
    if h.segments == [] {
      SameSenderKeeps(h, h');
    } else {
      assert Expected(h.segments[0]) == h.seqno;
      PopKeeps(h, h');
    }
  }

  lemma ReceiveAckKeeps(h: Host, p: Packet, now: int)
    requires QueueOk(h) && h.bbr.Shaped()
    ensures Keeps(h, ReceiveAck(h, p, now))
    ensures var h' := ReceiveAck(h, p, now).host;
            SameReceiver(h, h') && (h'.seqno != h.seqno ==> p.ack && h'.seqno <= p.ackno)
  {
    if AcksFin(h, p) {
      FinAckKeeps(h, p, now);
    } else if p.ack && h.segments != [] && Expected(h.segments[0]) == p.ackno {
      hide QueueOk;
      AckedKeeps(h, p.window, now);
    } else if p.ack && h.segments != [] && Expected(h.segments[0]) < p.ackno {
      hide QueueOk;
      PassedKeeps(h);
    } else {
      SameSenderKeeps(h, h);
    }
  }

  lemma ReceiveFinShape(h: Host, p: Packet)
    ensures var o := ReceiveFin(h, p);
            && SameSender(h, o.host) && o.host.output == h.output && h.ackno <= o.host.ackno
            && (o.sent == [] || o.sent == [AckPacket(o.host)])
  {
    hide Output;
    var o := ReceiveFin(h, p);
    if p.fin && p.seqno == h.ackno {
      assert AckPacket(h.(finReceived := true, ackno := h.ackno + 1)) == AckPacket(o.host);
    }
  }

  lemma ReceiveFinKeeps(h: Host, p: Packet)
    requires QueueOk(h)
    ensures Keeps(h, ReceiveFin(h, p))
    ensures SameSender(h, ReceiveFin(h, p).host)
  {
    var o := ReceiveFin(h, p);
    ReceiveFinShape(h, p);
    hide ReceiveFin, QueueOk, PacketOk, AckPacket;
    QueueOkOutput(h);
    QueueOkNumbers(h);
    SameSenderKeeps(h, o.host);
    AckPacketOk(o.host);
  }

  lemma SendFinKeeps(h: Host, now: int)
    requires QueueOk(h)
    ensures Keeps(h, MaybeSendFin(h, now))
    ensures var h' := MaybeSendFin(h, now).host; SameReceiver(h, h') && h'.seqno == h.seqno
    ensures var h' := MaybeSendFin(h, now).host; h'.input == h.input && h'.bbr == h.bbr
  {
    var o := MaybeSendFin(h, now);
    if h.readFinish && h.getAllAck && !h.finSent {
      assert o.host.segments == [Segment(FinPacket(h), 0, 0, now)];
      assert o.host.segments[1..] == [];
    } else {
      SameSenderKeeps(h, h);
    }
  }

  /** Sending the FIN touches only the queue and its flags. */
  lemma SendFinFrame(h: Host, now: int)
    ensures var h' := MaybeSendFin(h, now).host;
            && h'.alive == h.alive && h'.seqno == h.seqno && h'.nextSeqno == h.nextSeqno && h'.bbr == h.bbr
            && h'.retransCount == h.retransCount && h'.lastTimeout == h.lastTimeout && h'.rtTimeout == h.rtTimeout
            && (Finished(h') <==> Finished(h))
  {
  }

  lemma RetransmitKeeps(h: Host, c: TimerClock)
    requires QueueOk(h) && h.segments != []
    ensures Keeps(h, Retransmit(h, c))
    ensures var h' := Retransmit(h, c).host; SameReceiver(h, h') && h'.seqno == h.seqno
  {
    var o := Retransmit(h, c);
    if h.retransCount <= RETRANSMIT_LIMIT {
      var front := o.host.segments[0];
      assert front.packet == h.segments[0].packet;
      ContiguousStamp(h.segments, h.seqno, h.input, front);
      forall i | 0 <= i < |o.host.segments|
        ensures PacketOk(o.host, o.host.segments[i].packet)
      {
        PacketOkGrows(h, o.host, h.segments[i].packet);
      }
    } else {
      SameSenderKeeps(h, o.host);
    }
  }

  lemma KeepsTrans(h: Host, o1: Outcome, o2: Outcome, h': Host)
    requires Keeps(h, o1) && Keeps(o1.host, o2)
    requires h' == o2.host
    ensures Keeps(h, Outcome(h', o1.sent + o2.sent))
  {
    hide QueueOk;
    forall i | 0 <= i < |o1.sent + o2.sent|
      ensures PacketOk(h', (o1.sent + o2.sent)[i])
    {
      if i < |o1.sent| {
        PacketOkGrows(o1.host, h', o1.sent[i]);
      }
    }
  }

  lemma TimerKeeps(h: Host, c: TimerClock)
    requires QueueOk(h)
    ensures Keeps(h, Timer(h, c))
    ensures var h' := Timer(h, c).host; SameReceiver(h, h') && h'.seqno == h.seqno
  {
    if h.alive {
      var o := MaybeSendFin(h, c.fin);
      SendFinKeeps(h, c.fin);
      hide MaybeSendFin, Retransmit, Contiguous, PacketOk;
      if !Finished(o.host) && o.host.segments != [] && c.check - o.host.lastTimeout > o.host.rtTimeout {
        hide QueueOk, Keeps;
        RetransmitKeeps(o.host, c);
        KeepsTrans(h, o, Retransmit(o.host, c), Retransmit(o.host, c).host);
      } else {
        TimerEndKeeps(h, o, Timer(h, c).host);
      }
    } else {
      SameSenderKeeps(h, h);
    }
  }

  lemma TimerEndKeeps(h: Host, o: Outcome, h': Host)
    requires Keeps(h, o)
    requires h' == o.host || h' == o.host.(alive := false)
        || (o.host.segments == [] && h' == o.host.(getAllAck := true))
    ensures Keeps(h, o.(host := h'))
  {
    forall i | 0 <= i < |h'.segments|
      ensures PacketOk(h', h'.segments[i].packet)
    {
      PacketOkGrows(o.host, h', h'.segments[i].packet);
    }
    forall i | 0 <= i < |o.sent|
      ensures PacketOk(h', o.sent[i])
    {
      PacketOkGrows(o.host, h', o.sent[i]);
    }
  }

  lemma DrainShape(h: Host, ws: seq<WriteResult>)
    requires h.output == []
    ensures var h' := DrainOutput(h, ws);
            SameSender(h, h') && h'.ackno == h.ackno && h'.output == []
  {
    hide Output, Drain, Queued;
  }

  lemma DrainKeeps(h: Host, ws: seq<WriteResult>)
    requires QueueOk(h)
    ensures QueueOk(DrainOutput(h, ws)) && Grows(h, DrainOutput(h, ws))
    ensures SameSender(h, DrainOutput(h, ws))
  {
    hide DrainOutput, QueueOk, Grows, SameSender;
    QueueOkOutput(h);
    DrainShape(h, ws);
    SameSenderKeeps(h, DrainOutput(h, ws));
  }

  /** Only the receiving half of an end has changed. */
  predicate OnlyReceives(h: Host, h': Host) {
    SameSender(h, h') && h'.bbr == h.bbr && h'.retransCount == h.retransCount
  }

  lemma ReceiveDataOnly(h: Host, p: Packet, w: WriteResult)
    ensures OnlyReceives(h, ReceiveData(h, p, w).host)
  {
    hide Output, BufSpace, AckPacket;
  }

  lemma ReceiveFinOnly(h: Host, p: Packet)
    ensures OnlyReceives(h, ReceiveFin(h, p).host)
  {
    hide Output, AckPacket;
  }

  /** For its sending half, a segment that is not ignored is its acknowledgement part. */
  lemma ReceiveIsAck(h: Host, p: Packet, now: int, w: WriteResult) returns (d: Host)
    requires h.bbr.Shaped() && h.alive && !Ignored(h, p)
    ensures OnlyReceives(h, d)
    ensures OnlyReceives(ReceiveAck(d, p, now).host, Receive(h, p, now, w).host)
  {
    d := ReceiveData(h, p, w).host;
    ReceiveDataOnly(h, p, w);
    hide ReceiveData, ReceiveAck, Ignored;
    ReceiveFinOnly(ReceiveAck(d, p, now).host, p);
    hide ReceiveFin;
  }

  // ---------------------------------------------------------------------------------------------
  // What each callback keeps between the two ends
  // ---------------------------------------------------------------------------------------------

  /** A sender that grows without overtaking the receiver's acknowledgements. */
  lemma LinkSenderGrows(h: Host, h': Host, r: Host)
    requires Link(h, r) && QueueOk(h) && QueueOk(h') && Grows(h, h')
    requires h'.seqno <= r.ackno
    ensures Link(h', r)
  {
    hide Contiguous, PacketOk, Accepted;
    assert h'.input[..Received(r)] == h.input[..Received(r)];
  }

  lemma LinkSameReceiver(s: Host, h: Host, h': Host)
    requires Link(s, h) && SameReceiver(h, h')
    ensures Link(s, h')
  {
    hide Accepted;
  }

  /** Data is taken at its place, after everything before it; what a closed sink refuses ends the output. */
  lemma LinkReceiveData(s: Host, h: Host, p: Packet, w: WriteResult)
    requires Link(s, h) && QueueOk(s) && PacketOk(s, p) && QueueOk(h)
    ensures Link(s, ReceiveData(h, p, w).host)
  {
    if TakesData(h, p) {
      var h1 := h.(output := p.data, ackno := h.ackno + |p.data|);
      var h' := h1.(sink := Output(h.sink, p.data, w), output := []);
      assert ReceiveData(h, p, w).host == h' by {
        hide Output, BufSpace, AckPacket, QueueOk;
      }
      TakenData(s, h, p, w);
      hide Output, BufSpace, AckPacket, QueueOk, Accepted, ReceiveData;
      LinkTaken(s, h, h', p.data);
    } else {
      hide QueueOk, Accepted;
      LinkSameReceiver(s, h, ReceiveData(h, p, w).host);
    }
  }

  /** How the sink answers the bytes of a segment that is taken. */
  lemma TakenData(s: Host, h: Host, p: Packet, w: WriteResult)
    requires TakesData(h, p)
    ensures var sink' := Output(h.sink, p.data, w);
            if OutputQueue.Keeps(h.sink, p.data, w)
            then Accepted(sink') == Accepted(h.sink) + p.data && !h.sink.eof && !h.sink.err
                 && sink'.eof == h.sink.eof && sink'.err == h.sink.err
            else Accepted(sink') == Accepted(h.sink) && (sink'.eof || sink'.err)
  {
    OutputAppends(h.sink, p.data, w);
    hide Accepted;
    assert Accepted(h.sink) + [] == Accepted(h.sink);
  }

  lemma LinkTaken(s: Host, h: Host, h': Host, data: seq<byte>)
    requires Link(s, h) && s.nextSeqno == 1 + |s.input|
    requires SliceAt(s.input, h.ackno - 1, data) && data != []
    requires h'.ackno == h.ackno + |data| && h'.allRecvOutput == h.allRecvOutput
    requires (Accepted(h'.sink) == Accepted(h.sink) + data && !h.sink.eof && !h.sink.err)
             || (Accepted(h'.sink) == Accepted(h.sink) && (h'.sink.eof || h'.sink.err))
    ensures Link(s, h')
  {
    hide Accepted;
    var t := Received(h);
    assert !h.allRecvOutput;
    SliceAppend(s.input, t, |data|);
  }

  lemma LinkReceiveFin(s: Host, h: Host, p: Packet)
    requires Link(s, h) && QueueOk(s) && PacketOk(s, p)
    ensures Link(s, ReceiveFin(h, p).host)
  {
    if p.fin && p.seqno == h.ackno {
      EndOfOutput(h.sink);
      hide Output, Accepted, QueueOk;
      QueueOkNumbers(s);
      assert Received(ReceiveFin(h, p).host) == Received(h);
    } else {
      hide Accepted, QueueOk;
      LinkSameReceiver(s, h, ReceiveFin(h, p).host);
    }
  }

  /** Recording the end of the output changes nothing that was accepted. */
  lemma EndOfOutput(s: Sink)
    ensures var s' := Output(s, [], WouldBlock);
            s'.eof && s'.err == s.err && Accepted(s') == Accepted(s)
  {
    hide Queued;
  }

  lemma LinkDrain(s: Host, h: Host, ws: seq<WriteResult>)
    requires Link(s, h) && h.output == []
    ensures Link(s, DrainOutput(h, ws))
  {
    if h.alive {
      var (sink1, outputted) := Drain(h.sink, ws);
      DrainConserves(h.sink, ws);
      assert h.sink.err ==> sink1.err;
      assert h.sink.eof ==> sink1.eof;
      var h1 := h.(sink := sink1);
      hide Drain, Accepted;
      EndOfOutput(sink1);
      hide Output, BufSpace;
      if outputted {
        assert FlushOutput(h1, WouldBlock) == h1.(sink := Output(sink1, [], WouldBlock), output := []);
      }
    }
  }

  // ---------------------------------------------------------------------------------------------
  // Every move keeps the invariant
  // ---------------------------------------------------------------------------------------------

  /** A callback at `h` is safe towards the other end `r`. */
  predicate Safe(h: Host, r: Host, o: Outcome) {
    Keeps(h, o) && Link(o.host, r) && Link(r, o.host)
  }

  lemma ReceiveSafe(h: Host, r: Host, p: Packet, now: int, w: WriteResult)
    requires QueueOk(h) && QueueOk(r) && Link(h, r) && Link(r, h) && PacketOk(r, p) && h.bbr.Shaped()
    ensures Safe(h, r, Receive(h, p, now, w))
  {
    hide QueueOk, Link, Accepted;
    if !h.alive || Ignored(h, p) {
      SameSenderKeeps(h, h) by { QueueOkOutput(h); }
      return;
    }
    var d := ReceiveData(h, p, w);
    ReceiveDataKeeps(h, p, w);
    LinkReceiveData(r, h, p, w);
    SameSenderLink(h, d.host, r);
    hide ReceiveData;
    var a := ReceiveAck(d.host, p, now);
    ReceiveAckKeeps(d.host, p, now);
    LinkReceiveAck(d.host, r, p, now);
    hide ReceiveAck;
    KeepsTrans(h, d, a, a.host);
    if !AcksFin(d.host, p) {
      var f := ReceiveFin(a.host, p);
      ReceiveFinKeeps(a.host, p);
      LinkReceiveFin(r, a.host, p);
      SameSenderLink(a.host, f.host, r);
      hide ReceiveFin;
      KeepsTrans(h, Outcome(a.host, d.sent + a.sent), f, f.host);
    }
  }

  lemma SameSenderLink(h: Host, h': Host, r: Host)
    requires Link(h, r) && SameSender(h, h')
    ensures Link(h', r)
  {
  }

  /** An acknowledgement moves the sender forward only as far as the receiver has come. */
  lemma LinkReceiveAck(h: Host, r: Host, p: Packet, now: int)
    requires QueueOk(h) && Link(h, r) && Link(r, h) && PacketOk(r, p) && h.bbr.Shaped()
    ensures Link(ReceiveAck(h, p, now).host, r) && Link(r, ReceiveAck(h, p, now).host)
  {
    ReceiveAckKeeps(h, p, now);
    hide ReceiveAck, QueueOk;
    var h' := ReceiveAck(h, p, now).host;
    assert h'.seqno <= r.ackno;
    LinkSenderGrows(h, h', r);
    LinkSameReceiver(r, h, h');
  }

  lemma ActSafe(h: Host, r: Host, incoming: set<Packet>, clock: int, e: Callback)
    requires QueueOk(h) && QueueOk(r) && Link(h, r) && Link(r, h) && PacketsOk(r, incoming) && h.bbr.Shaped()
    requires Possible(incoming, clock, e)
    ensures Safe(h, r, Act(h, e))
  {
    hide Accepted, Contiguous;
    match e
    case Reading(t0, t1, input) =>
      ReadKeeps(h, t0, t1, input);
      hide Read;
      SenderStepSafe(h, r, Read(h, t0, t1, input));
    case Receiving(p, now, w) =>
      ReceiveSafe(h, r, p, now, w);
    case Ticking(c) =>
      TimerKeeps(h, c);
      hide Timer;
      SenderStepSafe(h, r, Timer(h, c));
    case Draining(ws) =>
      DrainKeeps(h, ws);
      LinkDrain(r, h, ws);
      SameSenderLink(h, DrainOutput(h, ws), r);
  }

  lemma SenderStepSafe(h: Host, r: Host, o: Outcome)
    requires Keeps(h, o) && SameReceiver(h, o.host) && o.host.seqno == h.seqno
    requires QueueOk(h) && Link(h, r) && Link(r, h)
    ensures Safe(h, r, o)
  {
    LinkSenderGrows(h, o.host, r) by { assert Link(h, r); }
    LinkSameReceiver(r, h, o.host);
  }

  lemma StepLeftKeepsInv(s: Sys, e: Callback)
    requires Shaped(s) && Inv(s) && Possible(s.fromRight, s.leftClock, e)
    ensures Inv(StepLeft(s, e))
  {
    hide QueueOk, Link;
    ActSafe(s.left, s.right, s.fromRight, s.leftClock, e);
    hide Act;
    PacketsOkGrow(s.left, Act(s.left, e).host, s.fromLeft, Act(s.left, e).sent);
  }

  lemma StepKeepsInv(s: Sys, m: Move)
    requires Shaped(s) && Inv(s)
    ensures Inv(Step(s, m))
  {
    hide QueueOk, Link, PacketsOk;
    if Enabled(s, m) {
      match m.side
      case LeftEnd => StepLeftKeepsInv(s, m.event);
      case RightEnd => StepLeftKeepsInv(Flip(s), m.event);
    }
  }

  /** The invariant holds in every state that a run reaches from a state in which it holds. */
  lemma {:induction false} RunFromKeepsInv(s: Sys, moves: seq<Move>)
    requires Shaped(s) && Inv(s)
    ensures Inv(RunFrom(s, moves))
  {
    if moves == [] {
    } else {
      RunFromKeepsInv(s, moves[..|moves| - 1]);
      hide Inv;
      StepKeepsInv(RunFrom(s, moves[..|moves| - 1]), moves[|moves| - 1]);
    }
  }

  lemma RunKeepsInv(c: Config, moves: seq<Move>)
    ensures Inv(Run(c, moves))
  {
    RunFromKeepsInv(Begin(c), moves);
  }
}
