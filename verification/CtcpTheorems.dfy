/** What two cTCP ends guarantee over every run. The statements speak of the left end's input and the right
    end's output or of the left end alone; `FlippedRun` carries each of them to the other direction. */
module CtcpTheorems {
  import opened Bytes
  import opened OutputQueue
  import opened CtcpHost
  import opened CtcpNetwork
  import opened CtcpInvariant
  import B = BbrModel

  // ---------------------------------------------------------------------------------------------
  // Both directions are alike
  // ---------------------------------------------------------------------------------------------

  function FlipConfig(c: Config): Config {
    Config(c.rightWindow, c.leftWindow, c.rightSend, c.leftSend, c.rightTimeout, c.leftTimeout,
           c.rightStart, c.leftStart)
  }

  function FlipMoves(moves: seq<Move>): seq<Move> {
    seq(|moves|, i requires 0 <= i < |moves| =>
      moves[i].(side := if moves[i].side == LeftEnd then RightEnd else LeftEnd))
  }

  /** Exchanging the two ends of a run gives the run of the exchanged ends. */
  lemma {:induction false} FlippedRun(c: Config, moves: seq<Move>)
    ensures Run(FlipConfig(c), FlipMoves(moves)) == Flip(Run(c, moves))
  {
    if moves == [] {
    } else {
      var front, m := moves[..|moves| - 1], moves[|moves| - 1];
      FlippedRun(c, front);
      assert FlipMoves(moves)[..|moves| - 1] == FlipMoves(front);
      hide StepLeft;
      assert Flip(Flip(Run(c, front))) == Run(c, front);
    }
  }

  // ---------------------------------------------------------------------------------------------
  // Safety of the stream
  // ---------------------------------------------------------------------------------------------

  /** In order, without duplicates, without gaps: whatever the network does, what one end has accepted for
      its output is a prefix of what the other end has read, and so is what it has written. */
  lemma PrefixDelivery(c: Config, moves: seq<Move>)
    ensures var s := Run(c, moves);
            && s.right.sink.written <= Accepted(s.right.sink) <= s.left.input
            && s.left.sink.written <= Accepted(s.left.sink) <= s.right.input
  {
    RunKeepsInv(c, moves);
    hide QueueOk, PacketsOk;
    var s := Run(c, moves);
    PrefixTrans(Accepted(s.right.sink), s.left.input, Received(s.right));
    PrefixTrans(Accepted(s.left.sink), s.right.input, Received(s.left));
  }

  lemma PrefixTrans(a: seq<byte>, b: seq<byte>, n: int)
    requires 0 <= n <= |b| && a <= b[..n]
    ensures a <= b
  {
  }

  function Concatenated(segs: seq<Segment>): seq<byte> {
    if segs == [] then [] else segs[0].packet.data + Concatenated(segs[1..])
  }

  lemma {:induction false} ContiguousIsSlice(segs: seq<Segment>, lo: int, input: seq<byte>)
    requires Contiguous(segs, lo, input) && 1 <= lo
    ensures lo <= 1 + |input| && Concatenated(segs) == input[lo - 1..]
  {
    if segs == [] {
    } else {
      var data := segs[0].packet.data;
      ContiguousIsSlice(segs[1..], lo + |data|, input);
      assert input[lo - 1..] == input[lo - 1..lo - 1 + |data|] + input[lo - 1 + |data|..];
    }
  }

  /** The retransmission queue is exactly the part of the input that is not acknowledged, nothing leaves it
      before the peer has taken it, and a FIN is queued only alone. */
  lemma NoEarlyDiscard(c: Config, moves: seq<Move>)
    ensures var s := Run(c, moves);
            var h := s.left;
            && 1 <= h.seqno <= h.nextSeqno == 1 + |h.input|
            && Concatenated(h.segments) == h.input[h.seqno - 1..]
            && (forall i :: 0 <= i < |h.segments| && h.segments[i].packet.fin ==> |h.segments| == 1)
            && h.seqno <= s.right.ackno <= h.nextSeqno + (if s.right.allRecvOutput then 1 else 0)
            && (s.right.allRecvOutput ==> h.finSent && h.readFinish)
            && h.seqno - 1 <= Received(s.right) <= |h.input|
  {
    RunKeepsInv(c, moves);
    var s := Run(c, moves);
    ContiguousIsSlice(s.left.segments, s.left.seqno, s.left.input);
    hide Accepted, Contiguous;
    forall i | 0 <= i < |s.left.segments| && s.left.segments[i].packet.fin
      ensures |s.left.segments| == 1
    {
      assert PacketOk(s.left, s.left.segments[i].packet);
    }
  }

  // ---------------------------------------------------------------------------------------------
  // Exact delivery
  // ---------------------------------------------------------------------------------------------

  /** How many bytes a callback takes and acknowledges although the sink does not keep them: the guards of
      `conn_output` refuse them, because an end or an error was recorded or because `write` fails. */
  function RefusedBy(h: Host, e: Callback): nat {
    match e
    case Receiving(p, _, w) =>
        if h.alive && TakesData(h, p) && !OutputQueue.Keeps(h.sink, p.data, w) then |p.data| else 0
    case _ => 0
  }

  /** The refused bytes of a whole run at the right end. */
  function Refused(c: Config, moves: seq<Move>): nat {
    if moves == [] then 0
    else
      var front, m := moves[..|moves| - 1], moves[|moves| - 1];
      var s := Run(c, front);
      Refused(c, front) + if m.side == RightEnd && Enabled(s, m) then RefusedBy(s.right, m.event) else 0
  }

  /** Bytes acknowledged but not accepted. */
  function Missing(h: Host): int {
    Received(h) - |Accepted(h.sink)|
  }

  /** A FIN is taken once: the number that follows it is never that of a FIN again. */
  lemma FinTakenOnce(r: Host, h: Host, p: Packet)
    requires Link(r, h) && QueueOk(r) && PacketOk(r, p)
    ensures p.fin ==> p.data == [] && (h.allRecvOutput ==> p.seqno != h.ackno)
  {
    hide Accepted, Contiguous;
  }

  lemma ReceiveMissing(r: Host, h: Host, p: Packet, now: int, w: WriteResult)
    requires h.bbr.Shaped() && h.output == [] && QueueOk(h)
    requires Link(r, h) && QueueOk(r) && PacketOk(r, p)
    ensures Missing(Receive(h, p, now, w).host) == Missing(h) + RefusedBy(h, Receiving(p, now, w))
  {
    if !h.alive || Ignored(h, p) {
      return;
    }
    var d := ReceiveData(h, p, w);
    ReceiveDataMissing(h, p, w);
    ReceiveDataKeeps(h, p, w);
    FinTakenOnce(r, h, p);
    assert p.fin ==> d.host == h;
    hide ReceiveData, OutputQueue.Keeps, Accepted, QueueOk, Link, PacketOk;
    var a := ReceiveAck(d.host, p, now);
    ReceiveAckKeeps(d.host, p, now);
    hide ReceiveAck;
    ReceiveFinMissing(a.host, p);
    hide ReceiveFin;
  }

  lemma ReceiveDataMissing(h: Host, p: Packet, w: WriteResult)
    ensures Missing(ReceiveData(h, p, w).host)
         == Missing(h) + if TakesData(h, p) && !OutputQueue.Keeps(h.sink, p.data, w) then |p.data| else 0
  {
    if TakesData(h, p) {
      var h1 := h.(output := p.data, ackno := h.ackno + |p.data|);
      assert ReceiveData(h, p, w).host == h1.(sink := Output(h.sink, p.data, w), output := []) by {
        hide Output, BufSpace, AckPacket;
      }
      OutputAppends(h.sink, p.data, w);
      hide Output, BufSpace, OutputQueue.Keeps, ReceiveData, Accepted;
    }
  }

  lemma ReceiveFinMissing(h: Host, p: Packet)
    requires h.allRecvOutput ==> p.seqno != h.ackno || !p.fin
    ensures Missing(ReceiveFin(h, p).host) == Missing(h)
  {
    EndOfOutput(h.sink);
    hide Output, Accepted;
  }

  lemma DrainMissing(h: Host, ws: seq<WriteResult>)
    requires h.output == []
    ensures Missing(DrainOutput(h, ws)) == Missing(h)
  {
    if h.alive {
      var (sink1, outputted) := Drain(h.sink, ws);
      DrainConserves(h.sink, ws);
      EndOfOutput(sink1);
      var h1 := h.(sink := sink1);
      hide Drain, Accepted, Output, BufSpace;
      if outputted {
        assert FlushOutput(h1, WouldBlock) == h1.(sink := Output(sink1, [], WouldBlock), output := []);
      }
    }
  }

  lemma ActMissing(r: Host, h: Host, incoming: set<Packet>, clock: int, e: Callback)
    requires h.bbr.Shaped() && QueueOk(h) && QueueOk(r) && Link(r, h) && PacketsOk(r, incoming)
    requires Possible(incoming, clock, e)
    ensures Missing(Act(h, e).host) == Missing(h) + RefusedBy(h, e)
  {
    hide Missing, Link, Contiguous, PacketOk;
    match e
    case Reading(t0, t1, input) =>
      ReadKeeps(h, t0, t1, input);
      SameReceiverMissing(h, Act(h, e).host);
    case Ticking(c) =>
      TimerKeeps(h, c);
      SameReceiverMissing(h, Act(h, e).host);
    case Draining(ws) =>
      DrainMissing(h, ws);
    case Receiving(p, now, w) =>
      ReceiveMissing(r, h, p, now, w);
  }

  lemma SameReceiverMissing(h: Host, h': Host)
    requires SameReceiver(h, h')
    ensures Missing(h') == Missing(h)
  {
  }

  /** The account of one direction: what was acknowledged is what was accepted plus what was refused. */
  lemma {:induction false} DeliveryAccount(c: Config, moves: seq<Move>)
    ensures Missing(Run(c, moves).right) == Refused(c, moves)
  {
    if moves == [] {
    } else {
      var front, m := moves[..|moves| - 1], moves[|moves| - 1];
      DeliveryAccount(c, front);
      RunKeepsInv(c, front);
      var s := Run(c, front);
      hide QueueOk, Link, PacketsOk, Act, Missing, Accepted, RefusedBy;
      if m.side == RightEnd && Enabled(s, m) {
        ActMissing(s.left, s.right, s.fromLeft, s.rightClock, m.event);
      }
    }
  }

  /** Delivery is exact if and only if the sink refused nothing that was taken. */
  lemma {:induction false} ExactDelivery(c: Config, moves: seq<Move>)
    ensures var s := Run(c, moves);
            0 <= Received(s.right) <= |s.left.input|
            && (Accepted(s.right.sink) == s.left.input[..Received(s.right)] <==> Refused(c, moves) == 0)
  {
    RunKeepsInv(c, moves);
    DeliveryAccount(c, moves);
    hide QueueOk, PacketsOk, Accepted;
  }

  // ---------------------------------------------------------------------------------------------
  // A sink that takes whole writes
  // ---------------------------------------------------------------------------------------------

  /** `write` takes all the bytes of every segment that arrives. */
  predicate WholeWrite(e: Callback) {
    e.Receiving? ==> e.w.Wrote? && e.w.count >= |e.packet.data|
  }

  predicate WholeWrites(moves: seq<Move>, side: Side) {
    forall i :: 0 <= i < |moves| && moves[i].side == side ==> WholeWrite(moves[i].event)
  }

  /** Nothing waits in the output queue, and only the peer's FIN closes the output. */
  predicate Open(h: Host) {
    h.sink.queue == [] && (h.sink.err ==> h.sink.eof) && (h.sink.eof ==> h.allRecvOutput)
  }

  lemma OpenKeeps(r: Host, h: Host, p: Packet, w: WriteResult)
    requires Open(h) && Link(r, h) && QueueOk(r) && PacketOk(r, p) && TakesData(h, p)
    requires w.Wrote? && w.count >= |p.data|
    ensures OutputQueue.Keeps(h.sink, p.data, w)
    ensures Output(h.sink, p.data, w) == h.sink.(written := h.sink.written + p.data)
  {
    hide Accepted, Contiguous;
    assert !h.allRecvOutput;
  }

  lemma ReceiveOpen(r: Host, h: Host, p: Packet, now: int, w: WriteResult)
    requires h.bbr.Shaped() && QueueOk(h) && QueueOk(r) && Link(r, h) && PacketOk(r, p)
    requires w.Wrote? && w.count >= |p.data| && Open(h)
    ensures Open(Receive(h, p, now, w).host) && RefusedBy(h, Receiving(p, now, w)) == 0
  {
    var d := ReceiveData(h, p, w);
    if TakesData(h, p) {
      OpenKeeps(r, h, p, w);
      ReceiveDataOpen(h, p, w);
    }
    ReceiveDataKeeps(h, p, w);
    assert Open(d.host);
    hide ReceiveData, QueueOk, Link, PacketOk, Open, OutputQueue.Keeps, TakesData;
    var a := ReceiveAck(d.host, p, now);
    ReceiveAckKeeps(d.host, p, now);
    hide ReceiveAck;
    SameReceiverOpen(d.host, a.host);
    ReceiveFinOpen(a.host, p);
    hide ReceiveFin;
  }

  lemma SameReceiverOpen(h: Host, h': Host)
    requires SameReceiver(h, h') && Open(h)
    ensures Open(h')
  {
  }

  lemma ReceiveFinOpen(h: Host, p: Packet)
    requires Open(h)
    ensures Open(ReceiveFin(h, p).host)
  {
  }

  lemma DrainOpen(h: Host, ws: seq<WriteResult>)
    requires Open(h)
    ensures Open(DrainOutput(h, ws))
  {
    if h.alive {
      assert DrainLoop(h.sink.queue, ws) == Drained([], [], false, false);
      assert Drain(h.sink, ws) == (h.sink, false)
          || Drain(h.sink, ws) == (h.sink.(err := h.sink.eof, written := h.sink.written + []), false);
    }
  }

  lemma ActOpen(r: Host, h: Host, incoming: set<Packet>, clock: int, e: Callback)
    requires h.bbr.Shaped() && QueueOk(h) && QueueOk(r) && Link(r, h) && PacketsOk(r, incoming)
    requires Possible(incoming, clock, e) && WholeWrite(e) && Open(h)
    ensures Open(Act(h, e).host) && RefusedBy(h, e) == 0
  {
    hide Link, Contiguous, PacketOk, Open;
    match e
    case Reading(t0, t1, input) =>
      ReadKeeps(h, t0, t1, input);
      SameReceiverOpen(h, Act(h, e).host);
    case Ticking(c) =>
      TimerKeeps(h, c);
      SameReceiverOpen(h, Act(h, e).host);
    case Draining(ws) =>
      DrainOpen(h, ws);
    case Receiving(p, now, w) =>
      ReceiveOpen(r, h, p, now, w);
  }

  lemma ReceiveDataOpen(h: Host, p: Packet, w: WriteResult)
    requires TakesData(h, p) && Open(h)
    requires Output(h.sink, p.data, w) == h.sink.(written := h.sink.written + p.data)
    ensures Open(ReceiveData(h, p, w).host)
  {
    hide Output, BufSpace, AckPacket;
  }

  lemma {:induction false} WholeWritesStayOpen(c: Config, moves: seq<Move>)
    requires WholeWrites(moves, RightEnd)
    ensures Open(Run(c, moves).right) && Refused(c, moves) == 0
  {
    if moves == [] {
    } else {
      var front, m := moves[..|moves| - 1], moves[|moves| - 1];
      assert forall i :: 0 <= i < |front| ==> front[i] == moves[i];
      WholeWritesStayOpen(c, front);
      RunKeepsInv(c, front);
      var s := Run(c, front);
      hide QueueOk, Link, PacketsOk, Act, RefusedBy, Open;
      if m.side == RightEnd && Enabled(s, m) {
        ActOpen(s.left, s.right, s.fromLeft, s.rightClock, m.event);
      }
    }
  }

  /** With a sink that takes whole writes everything acknowledged has been written, in order. */
  lemma WholeWritesDeliver(c: Config, moves: seq<Move>)
    requires WholeWrites(moves, RightEnd)
    ensures var s := Run(c, moves);
            0 <= Received(s.right) <= |s.left.input|
            && s.right.sink.written == s.left.input[..Received(s.right)]
  {
    WholeWritesStayOpen(c, moves);
    ExactDelivery(c, moves);
    var sink := Run(c, moves).right.sink;
    assert Accepted(sink) == sink.written + [];
  }

  // ---------------------------------------------------------------------------------------------
  // Teardown
  // ---------------------------------------------------------------------------------------------

  /** When `ctcp_timer` tears a connection down: either the close is complete, or the first segment timed out
      after it had been sent again more than `RETRANSMIT_LIMIT` times. */
  lemma TeardownCases(h: Host, clock: TimerClock)
    requires h.alive
    ensures var h1 := MaybeSendFin(h, clock.fin).host;
            !Timer(h, clock).host.alive <==>
              Finished(h) || (h1.segments != [] && clock.check - h.lastTimeout > h.rtTimeout
                              && h.retransCount > RETRANSMIT_LIMIT)
  {
    SendFinFrame(h, clock.fin);
    hide MaybeSendFin, Finished;
  }

  // ---------------------------------------------------------------------------------------------
  // The window
  // ---------------------------------------------------------------------------------------------

  lemma ReadWindow(h: Host, t0: int, t1: int, input: InputResult, bound: nat)
    requires h.sendWindow <= bound && (input.Data? ==> 0 < |input.bytes| <= MAX_SEG_DATA_SIZE)
    requires h.nextSeqno - h.seqno < bound + MAX_SEG_DATA_SIZE
    ensures var h' := Read(h, t0, t1, input).host; h'.nextSeqno - h'.seqno < bound + MAX_SEG_DATA_SIZE
  {
  }

  /** What a callback other than `ctcp_read` does to the unacknowledged numbers: they can only become fewer. */
  lemma ActWindow(h: Host, e: Callback)
    requires h.bbr.Shaped() && QueueOk(h) && !e.Reading?
    ensures var h' := Act(h, e).host; h'.nextSeqno - h'.seqno <= h.nextSeqno - h.seqno
  {
    match e
    case Ticking(c) => TimerWindow(h, c);
    case Draining(ws) => DrainKeeps(h, ws);
    case Receiving(p, now, w) => ReceiveWindow(h, p, now, w);
  }

  lemma TimerWindow(h: Host, c: TimerClock)
    ensures var h' := Timer(h, c).host; h'.nextSeqno == h.nextSeqno && h'.seqno == h.seqno
  {
    SendFinFrame(h, c.fin);
    hide MaybeSendFin, Finished;
  }

  lemma ReceiveWindow(h: Host, p: Packet, now: int, w: WriteResult)
    requires h.bbr.Shaped() && QueueOk(h)
    ensures var h' := Receive(h, p, now, w).host; h'.nextSeqno - h'.seqno <= h.nextSeqno - h.seqno
  {
    hide QueueOk;
    var d := ReceiveData(h, p, w);
    ReceiveDataKeeps(h, p, w);
    hide ReceiveData;
    var a := ReceiveAck(d.host, p, now);
    ReceiveAckWindow(d.host, p, now);
    ReceiveAckKeeps(d.host, p, now);
    hide ReceiveAck;
    ReceiveFinKeeps(a.host, p);
    hide ReceiveFin;
  }

  lemma ReceiveAckWindow(h: Host, p: Packet, now: int)
    requires h.bbr.Shaped() && QueueOk(h)
    ensures var h' := ReceiveAck(h, p, now).host; h'.nextSeqno == h.nextSeqno && h'.seqno >= h.seqno
  {
    if p.ack && !AcksFin(h, p) && h.segments != [] {
      assert Expected(h.segments[0]) >= h.seqno;
      hide QueueOk, B.OnAck;
    } else {
      hide QueueOk;
    }
  }

  /** The same for the field that holds the window. */
  lemma {:induction false} OvershootOfField(c: Config, moves: seq<Move>, bound: nat)
    requires forall k :: 0 <= k <= |moves| ==> Run(c, moves[..k]).left.sendWindow <= bound
    ensures var h := Run(c, moves).left; h.nextSeqno - h.seqno < bound + MAX_SEG_DATA_SIZE
  {
    if moves == [] {
    } else {
      var front, m := moves[..|moves| - 1], moves[|moves| - 1];
      assert forall k :: 0 <= k <= |front| ==> front[..k] == moves[..k];
      OvershootOfField(c, front, bound);
      RunKeepsInv(c, front);
      var s := Run(c, front);
      assert moves[..|front|] == front && s.left.sendWindow <= bound;
      hide QueueOk, Link, PacketsOk, Read;
      if ActsLeft(s, m) {
        match m.event
        case Reading(t0, t1, input) => ReadWindow(s.left, t0, t1, input, bound);
        case _ => hide Act; ActWindow(s.left, m.event);
      }
    }
  }
}
