/** When nothing that was acknowledged is refused by the output, in terms of what the program behind the output
    answered: whether a late drain wrote anything and whether a write failed. The statements speak of the right
    end's output. */
module CtcpDelivery {
  import opened OutputQueue
  import opened CtcpHost
  import opened CtcpNetwork
  import opened CtcpInvariant
  import opened CtcpTheorems
  import B = BbrModel

  /** The library's drain wrote something, so that it calls `ctcp_output` with nothing pending. */
  predicate DrainWrites(h: Host, e: Callback) {
    e.Draining? && h.alive && Drain(h.sink, e.ws).1
  }

  /** A call of `write` fails, for data that is taken or in a drain. */
  predicate WriteFails(h: Host, e: Callback) {
    match e
    case Receiving(p, _, w) => h.alive && TakesData(h, p) && !Closed(h.sink) && h.sink.queue == [] && w == Failed
    case Draining(ws) => h.alive && !h.sink.err && DrainLoop(h.sink.queue, ws).failed
    case _ => false
  }

  predicate Closed(s: Sink) {
    s.eof || s.err
  }

  /** Some drain at the right end wrote something. */
  predicate WroteLate(c: Config, moves: seq<Move>) {
    moves != [] &&
    var front, m := moves[..|moves| - 1], moves[|moves| - 1];
    WroteLate(c, front)
        || (m.side == RightEnd && Enabled(Run(c, front), m) && DrainWrites(Run(c, front).right, m.event))
  }

  /** Some write at the right end failed. */
  predicate WriteFailed(c: Config, moves: seq<Move>) {
    moves != [] &&
    var front, m := moves[..|moves| - 1], moves[|moves| - 1];
    WriteFailed(c, front)
        || (m.side == RightEnd && Enabled(Run(c, front), m) && WriteFails(Run(c, front).right, m.event))
  }

  /** The right end took data after a late drain had written or a write had failed, or with a write that fails. */
  predicate TakenTooLate(c: Config, moves: seq<Move>) {
    moves != [] &&
    var front, m := moves[..|moves| - 1], moves[|moves| - 1];
    var s := Run(c, front);
    || TakenTooLate(c, front)
    || (m.side == RightEnd && Enabled(s, m) && m.event.Receiving? && s.right.alive && TakesData(s.right, m.event.packet)
        && (WroteLate(c, front) || WriteFailed(c, moves)))
  }

  lemma ReceiveDataCloses(h: Host, p: Packet, now: int, w: WriteResult)
    requires h.alive
    ensures var h' := ReceiveData(h, p, w).host;
            && h'.allRecvOutput == h.allRecvOutput
            && (Closed(h'.sink) <==> Closed(h.sink) || WriteFails(h, Receiving(p, now, w)))
  {
    hide Queued, AckPacket;
    if TakesData(h, p) {
      var h1 := h.(output := p.data, ackno := h.ackno + |p.data|);
      assert ReceiveData(h, p, w).host == h1.(sink := Output(h.sink, p.data, w), output := []) by {
        hide Output, BufSpace;
      }
      hide ReceiveData;
      assert BufSpace(h.sink) > 0;
      hide BufSpace, TakesData;
    }
  }

  lemma ReceiveAckSame(h: Host, p: Packet, now: int)
    requires h.bbr.Shaped()
    ensures SameReceiver(h, ReceiveAck(h, p, now).host)
  {
    hide B.OnAck;
    if p.ack && !AcksFin(h, p) && h.segments != [] {
      hide AcksFin;
      assert SameReceiver(h, Acked(h, p.window, now));
      assert SameReceiver(h, Passed(h));
      hide Acked, Passed, SameReceiver;
    }
  }

  /** Taking the FIN closes the output. */
  lemma ReceiveFinCloses(h: Host, p: Packet)
    requires h.allRecvOutput ==> Closed(h.sink)
    ensures var h' := ReceiveFin(h, p).host;
            && (h.allRecvOutput ==> h'.allRecvOutput)
            && (Closed(h'.sink) <==> Closed(h.sink) || h'.allRecvOutput)
  {
    EndOfOutput(h.sink);
    hide Output;
  }

  lemma ReceiveCloses(h: Host, p: Packet, now: int, w: WriteResult)
    requires h.bbr.Shaped() && (h.allRecvOutput ==> Closed(h.sink))
    ensures var h' := Receive(h, p, now, w).host;
            && (h.allRecvOutput ==> h'.allRecvOutput)
            && (Closed(h'.sink) <==> Closed(h.sink) || h'.allRecvOutput || WriteFails(h, Receiving(p, now, w)))
  {
    hide ReceiveData, ReceiveAck, ReceiveFin, BufSpace;
    if h.alive && !Ignored(h, p) {
      ReceiveDataCloses(h, p, now, w);
      var d := ReceiveData(h, p, w).host;
      ReceiveAckSame(d, p, now);
      ReceiveFinCloses(ReceiveAck(d, p, now).host, p);
    }
  }

  lemma DrainCloses(h: Host, ws: seq<WriteResult>)
    requires h.output == []
    ensures var h' := DrainOutput(h, ws);
            && h'.allRecvOutput == h.allRecvOutput
            && (Closed(h'.sink) <==> Closed(h.sink) || DrainWrites(h, Draining(ws)) || WriteFails(h, Draining(ws)))
  {
    if h.alive {
      var (sink1, outputted) := Drain(h.sink, ws);
      assert Closed(sink1) <==> Closed(h.sink) || WriteFails(h, Draining(ws));
      hide DrainLoop, Drain;
      EndOfOutput(sink1);
      hide Output, BufSpace, WriteFails;
      if outputted {
        var h1 := h.(sink := sink1);
        assert FlushOutput(h1, WouldBlock) == h1.(sink := Output(sink1, [], WouldBlock), output := []);
      }
    }
  }

  lemma ActCloses(h: Host, incoming: set<Packet>, clock: int, e: Callback)
    requires h.bbr.Shaped() && QueueOk(h) && Possible(incoming, clock, e) && (h.allRecvOutput ==> Closed(h.sink))
    ensures var h' := Act(h, e).host;
            && (h.allRecvOutput ==> h'.allRecvOutput)
            && (Closed(h'.sink) <==> Closed(h.sink) || h'.allRecvOutput || DrainWrites(h, e) || WriteFails(h, e))
  {
    match e
    case Reading(t0, t1, input) => ReadKeeps(h, t0, t1, input);
    case Ticking(c) => TimerKeeps(h, c);
    case Draining(ws) => DrainCloses(h, ws);
    case Receiving(p, now, w) => ReceiveCloses(h, p, now, w);
  }

  /** The output takes nothing more exactly if the peer's FIN was taken, a drain wrote something late, or a write
      failed. */
  lemma {:induction false} ClosedBecause(c: Config, moves: seq<Move>)
    ensures var r := Run(c, moves).right;
            Closed(r.sink) <==> r.allRecvOutput || WroteLate(c, moves) || WriteFailed(c, moves)
  {
    if moves == [] {
    } else {
      var front, m := moves[..|moves| - 1], moves[|moves| - 1];
      ClosedBecause(c, front);
      RunKeepsInv(c, front);
      var s := Run(c, front);
      hide Link, PacketsOk, Act, DrainWrites, WriteFails, Closed, QueueOk;
      if m.side == RightEnd && Enabled(s, m) {
        ActCloses(s.right, s.fromLeft, s.rightClock, m.event);
      }
    }
  }

  /** Data that is taken is refused exactly if the output was closed before or its write fails. */
  lemma RefusedWhen(h: Host, p: Packet, now: int, w: WriteResult)
    ensures RefusedBy(h, Receiving(p, now, w)) > 0 <==>
              h.alive && TakesData(h, p) && (Closed(h.sink) || WriteFails(h, Receiving(p, now, w)))
  {
  }

  /** Behind the FIN there is no data. */
  lemma NoDataAfterFin(s: Host, r: Host, p: Packet)
    requires Link(s, r) && QueueOk(s) && PacketOk(s, p) && TakesData(r, p)
    ensures !r.allRecvOutput
  {
    hide Accepted, Contiguous;
  }

  lemma {:induction false} RefusedIfTakenTooLate(c: Config, moves: seq<Move>)
    ensures Refused(c, moves) > 0 <==> TakenTooLate(c, moves)
  {
    if moves == [] {
    } else {
      var front, m := moves[..|moves| - 1], moves[|moves| - 1];
      RefusedIfTakenTooLate(c, front);
      RunKeepsInv(c, front);
      ClosedBecause(c, front);
      var s := Run(c, front);
      hide Link, PacketOk, Run, TakesData, QueueOk, WriteFails, Closed, RefusedBy;
      if m.side == RightEnd && Enabled(s, m) && m.event.Receiving? {
        var p := m.event.packet;
        RefusedWhen(s.right, p, m.event.now, m.event.w);
        if s.right.alive && TakesData(s.right, p) {
          NoDataAfterFin(s.left, s.right, p);
        }
      }
    }
  }

  /** All that was acknowledged was written or still waits in the output queue if and only if no data was taken
      after a late drain had written or a write had failed. */
  lemma {:induction false} ExactUnlessTakenTooLate(c: Config, moves: seq<Move>)
    ensures var s := Run(c, moves);
            0 <= Received(s.right) <= |s.left.input|
            && (Accepted(s.right.sink) == s.left.input[..Received(s.right)] <==> !TakenTooLate(c, moves))
  {
    ExactDelivery(c, moves);
    RefusedIfTakenTooLate(c, moves);
    hide Run, Refused, TakenTooLate, Accepted;
  }
}
