/** What the callbacks of an end do, read off the fields before the call: who is answered with what, what joins
    or leaves the retransmission queue, and with which stamps. */
module CtcpCallbacks {
  import opened Bytes
  import opened Doubles
  import opened OutputQueue
  import opened CtcpHost
  import opened CtcpInvariant
  import B = BbrModel

  // ---------------------------------------------------------------------------------------------
  // Reading
  // ---------------------------------------------------------------------------------------------

  /** Input is asked for when the pacing clock and the window in force allow it. */
  predicate MayRead(h: Host, now: int) {
    h.alive && !h.readFinish && now > h.bbr.nextSendTime && h.nextSeqno - h.seqno < h.sendWindow
  }

  /** What is read is queued with the next number, the current acknowledgement and the window in force. It is sent
      at once, with the stamps of the congestion control block, unless more is in flight than the congestion window
      allows. */
  lemma ReadPlainly(h: Host, t0: int, t1: int, bytes: seq<byte>)
    requires t0 <= t1
    ensures var o, p := Read(h, t0, t1, Data(bytes)), Packet(h.nextSeqno, h.ackno, true, false, h.sendWindow, bytes);
            var full := h.bbr.inflight > h.bbr.cwndGain * ToLong(Times(h.bbr.minRtt as real, h.bbr.maxBw));
            if !MayRead(h, t0) then o == Outcome(h, [])
            else
              && o.sent == (if full then [] else [p])
              && o.host.segments == h.segments + [if full then Segment(p, 0, 0, h.bbr.deliveredTime)
                                                  else Segment(p, t1, h.bbr.delivered, h.bbr.deliveredTime)]
              && o.host.bbr.inflight == h.bbr.inflight + (if full then 0 else |bytes|)
              && o.host == h.(segments := o.host.segments, nextSeqno := h.nextSeqno + |bytes|, getAllAck := false,
                              input := h.input + bytes, bbr := o.host.bbr)
  {
    hide ToLong, Times, B.NextSendTime;
  }

  /** The end of the input is recorded; without input nothing happens. */
  lemma ReadNothingPlainly(h: Host, t0: int, t1: int)
    ensures Read(h, t0, t1, NoData) == Outcome(h, [])
    ensures Read(h, t0, t1, Eof) == Outcome(h.(readFinish := h.readFinish || MayRead(h, t0)), [])
  {
    hide BbrSend;
  }

  // ---------------------------------------------------------------------------------------------
  // Receiving
  // ---------------------------------------------------------------------------------------------

  /** A segment is considered unless its data lies before what was acknowledged or beyond the receive window. */
  predicate Heard(h: Host, p: Packet) {
    h.alive && (p.data == [] || h.ackno <= p.seqno <= h.ackno + h.recvWindow)
  }

  /** Data is taken when it is the next expected and fits into the 8192 bytes of the output queue. */
  predicate Takes(h: Host, p: Packet) {
    p.data != [] && p.seqno == h.ackno && |p.data| + |Queued(h.sink.queue)| <= 8192
  }

  predicate CountsFin(h: Host, p: Packet) {
    p.ack && h.finSent && p.ackno == h.seqno + 1
  }

  /** The number that follows the first segment of the queue. */
  function AfterHead(h: Host): nat
    requires h.segments != []
  {
    h.segments[0].packet.seqno + |h.segments[0].packet.data|
  }

  /** An acknowledgement that is looked at against the head of the queue. */
  predicate AcksQueue(h: Host, p: Packet) {
    p.ack && h.segments != [] && !CountsFin(h, p)
  }

  /** The number acknowledged after the data of a segment. */
  function NextAckno(h: Host, p: Packet): nat {
    h.ackno + if Takes(h, p) then |p.data| else 0
  }

  predicate TakesFin(h: Host, p: Packet) {
    p.fin && !CountsFin(h, p) && p.seqno == NextAckno(h, p)
  }

  function AckOf(h: Host, ackno: nat): Packet {
    Packet(h.nextSeqno, ackno, true, false, h.recvWindow, [])
  }

  lemma DataPlainly(h: Host, p: Packet, w: WriteResult)
    ensures var o := ReceiveData(h, p, w);
            && o.sent == (if p.data == [] then [] else [AckOf(h, NextAckno(h, p))])
            && o.host.sink == (if Takes(h, p) then Output(h.sink, p.data, w) else h.sink)
            && o.host == h.(ackno := NextAckno(h, p), sink := o.host.sink, output := o.host.output)
            && (h.output == [] ==> o.host.output == [])
  {
    hide Output, Queued;
    if TakesData(h, p) {
      var h1 := h.(output := p.data, ackno := h.ackno + |p.data|);
      assert FlushOutput(h1, w) == h1.(sink := Output(h.sink, p.data, w), output := []);
    }
  }

  /** The head of the queue leaves: it, or the FIN that it is, was acknowledged. */
  predicate HeadLeaves(h: Host, p: Packet) {
    h.segments != [] && (CountsFin(h, p) || (AcksQueue(h, p) && AfterHead(h) <= p.ackno))
  }

  /** What is sent again: the head, for an acknowledgement below it. */
  function Again(h: Host, p: Packet): seq<Packet> {
    if AcksQueue(h, p) && p.ackno < AfterHead(h) then [h.segments[0].packet] else []
  }

  function SegmentsAfter(h: Host, p: Packet): seq<Segment> {
    if HeadLeaves(h, p) then h.segments[1..] else h.segments
  }

  function SeqnoAfter(h: Host, p: Packet): nat {
    if AcksQueue(h, p) && AfterHead(h) <= p.ackno then AfterHead(h) else h.seqno
  }

  /** The window in force after a segment: its own if it acknowledges exactly the head of the queue. */
  function WindowAfter(h: Host, p: Packet): nat {
    if AcksQueue(h, p) && AfterHead(h) == p.ackno then p.window else h.sendWindow
  }

  /** The acknowledgement part. */
  lemma AckPlainly(h: Host, p: Packet, now: int)
    requires h.bbr.Shaped()
    ensures var o := ReceiveAck(h, p, now);
            && o.sent == Again(h, p) && o.host.segments == SegmentsAfter(h, p) && o.host.seqno == SeqnoAfter(h, p)
            && o.host.sendWindow == WindowAfter(h, p) && o.host.finReceived == (h.finReceived || CountsFin(h, p))
            && SameElsewhere(h, o.host)
  {
    hide B.OnAck;
    if AcksQueue(h, p) {
      assert !AcksFin(h, p);
      assert Expected(h.segments[0]) == AfterHead(h);
      AckedPlainly(h, p.window, now);
      hide Acked, Passed;
      assert Passed(h) == PopSegment(h).(bbr := Passed(h).bbr) by {
        PassedPlainly(h);
      }
    } else {
      assert AcksFin(h, p) == CountsFin(h, p);
      hide Acked, Passed;
    }
  }

  lemma AckedPlainly(h: Host, window: nat, now: int)
    requires h.segments != [] && h.bbr.Shaped()
    ensures Acked(h, window, now) == PopSegment(h).(bbr := Acked(h, window, now).bbr, sendWindow := window)
  {
    hide B.OnAck;
  }

  lemma PassedPlainly(h: Host)
    requires h.segments != []
    ensures Passed(h) == PopSegment(h).(bbr := Passed(h).bbr)
  {
  }

  /** All fields that an acknowledgement does not touch. */
  predicate SameElsewhere(h: Host, h': Host) {
    && h'.alive == h.alive && h'.nextSeqno == h.nextSeqno && h'.ackno == h.ackno && h'.recvWindow == h.recvWindow
    && h'.rtTimeout == h.rtTimeout && h'.readFinish == h.readFinish && h'.output == h.output
    && h'.lastTimeout == h.lastTimeout && h'.finSent == h.finSent && h'.getAllAck == h.getAllAck
    && h'.allRecvOutput == h.allRecvOutput && h'.sink == h.sink && h'.input == h.input
  }

  lemma FinPlainly(h: Host, p: Packet)
    ensures var o, takes := ReceiveFin(h, p), p.fin && p.seqno == h.ackno;
            && o.sent == (if takes then [AckOf(h, h.ackno + 1)] else [])
            && o.host == h.(ackno := h.ackno + (if takes then 1 else 0), finReceived := h.finReceived || p.fin,
                            allRecvOutput := h.allRecvOutput || takes,
                            sink := if takes then Output(h.sink, [], WouldBlock) else h.sink)
  {
    hide Output;
  }

  /** A segment with data that is considered is always answered, with the number of the next byte expected; an
      acknowledgement below the head of the queue has the head sent again; a FIN in its place is answered. An exact
      acknowledgement of the head brings the window that is in force from then on. */
  lemma ReceivePlainly(h: Host, p: Packet, now: int, w: WriteResult)
    requires h.bbr.Shaped()
    ensures var o := Receive(h, p, now, w);
            if !Heard(h, p) then o == Outcome(h, [])
            else
              && o.sent == (if p.data == [] then [] else [AckOf(h, NextAckno(h, p))]) + Again(h, p)
                           + (if TakesFin(h, p) then [AckOf(h, NextAckno(h, p) + 1)] else [])
              && o.host.ackno == NextAckno(h, p) + (if TakesFin(h, p) then 1 else 0)
              && o.host.allRecvOutput == (h.allRecvOutput || TakesFin(h, p))
              && o.host.finReceived == (h.finReceived || p.fin || CountsFin(h, p))
              && o.host.segments == SegmentsAfter(h, p) && o.host.seqno == SeqnoAfter(h, p)
              && o.host.sendWindow == WindowAfter(h, p)
              && o.host.alive && o.host.nextSeqno == h.nextSeqno && o.host.recvWindow == h.recvWindow
              && o.host.finSent == h.finSent && o.host.readFinish == h.readFinish && o.host.input == h.input
  {
    hide Takes, CountsFin, ReceiveData, ReceiveAck, ReceiveFin, Output, Heard, Ignored, AcksFin, Again, SegmentsAfter,
         SeqnoAfter, WindowAfter;
    HeardPlainly(h, p);
    if Heard(h, p) {
      DataPlainly(h, p, w);
      var d := ReceiveData(h, p, w).host;
      SameQueue(h, d, p);
      AckPlainly(d, p, now);
      FinPlainly(ReceiveAck(d, p, now).host, p);
      CountsFinPlainly(d, p);
    }
  }

  lemma HeardPlainly(h: Host, p: Packet)
    ensures Heard(h, p) <==> h.alive && !Ignored(h, p)
  {
  }

  lemma CountsFinPlainly(h: Host, p: Packet)
    ensures CountsFin(h, p) <==> AcksFin(h, p)
  {
  }

  lemma SameQueue(h: Host, d: Host, p: Packet)
    requires d.segments == h.segments && d.seqno == h.seqno && d.finSent == h.finSent && d.sendWindow == h.sendWindow
    ensures CountsFin(d, p) == CountsFin(h, p) && Again(d, p) == Again(h, p)
    ensures SegmentsAfter(d, p) == SegmentsAfter(h, p) && SeqnoAfter(d, p) == SeqnoAfter(h, p)
    ensures WindowAfter(d, p) == WindowAfter(h, p)
  {
  }

  // ---------------------------------------------------------------------------------------------
  // Ticking
  // ---------------------------------------------------------------------------------------------

  /** The FIN leaves when the input has ended and everything was acknowledged. */
  predicate SendsFin(h: Host) {
    h.readFinish && h.getAllAck && !h.finSent
  }

  /** A tick ends a finished connection, or sends the FIN when it is due, or notes that everything is acknowledged,
      or sends the head of the queue again with new stamps when its time is up, or gives up. */
  lemma TimerPlainly(h: Host, c: TimerClock)
    requires h.alive
    ensures var o, fin := Timer(h, c), Packet(h.nextSeqno, h.ackno, false, true, h.recvWindow, []);
            var first := if SendsFin(h) then [fin] else [];
            var segs := h.segments + if SendsFin(h) then [Segment(fin, 0, 0, c.fin)] else [];
            var h1 := h.(segments := segs, finSent := h.finSent || SendsFin(h),
                         getAllAck := h.getAllAck && !SendsFin(h));
            if h.finReceived && h.finSent && h.readFinish && h.getAllAck && h.allRecvOutput
            then o == Outcome(h.(alive := false), [])
            else if segs == [] then o == Outcome(h1.(getAllAck := true), [])
            else if c.check - h.lastTimeout <= h.rtTimeout then o == Outcome(h1, first)
            else if h.retransCount <= 5
            then
              var again := segs[0].(sendTime := c.stamp, delivered := h.bbr.delivered,
                                    deliveredTime := h.bbr.deliveredTime);
              && o.sent == first + [segs[0].packet]
              && o.host == h1.(segments := [again] + segs[1..], retransCount := h.retransCount + 1,
                               lastTimeout := c.store,
                               bbr := h.bbr.(inflight := h.bbr.inflight + 48 + |segs[0].packet.data|))
            else o == Outcome(h1.(alive := false), first)
  {
    MaybeSendFinPlainly(h, c.fin);
    hide MaybeSendFin;
  }

  lemma MaybeSendFinPlainly(h: Host, now: int)
    ensures var fin := Packet(h.nextSeqno, h.ackno, false, true, h.recvWindow, []);
            MaybeSendFin(h, now) ==
            if SendsFin(h)
            then Outcome(h.(segments := h.segments + [Segment(fin, 0, 0, now)], finSent := true, getAllAck := false),
                         [fin])
            else Outcome(h, [])
  {
  }
}
