/** What a graceful close guarantees, and what it leaves behind: the teardown frees the bytes that still wait in
    the output queue. */
module CtcpClose {
  import opened Bytes
  import opened OutputQueue
  import opened CtcpHost
  import opened CtcpNetwork
  import opened CtcpInvariant
  import opened CtcpFin
  import opened CtcpTheorems
  import opened CtcpDelivery

  // ---------------------------------------------------------------------------------------------
  // Written in full
  // ---------------------------------------------------------------------------------------------

  lemma {:induction false} NothingQueued(q: Queue)
    ensures Queued(q) == [] <==> q == []
  {
    if q != [] {
      assert q[0].Left() != [];
    }
  }

  lemma SamePrefix(written: seq<byte>, queued: seq<byte>, taken: seq<byte>)
    requires written + queued <= taken
    ensures written == taken <==> queued == [] && written + queued == taken
  {
  }

  /** Everything that was acknowledged has been written if and only if nothing waits in the output queue and no
      data was taken after a late drain had written or a write had failed. */
  lemma {:induction false} WrittenUnlessWaiting(c: Config, moves: seq<Move>)
    ensures var r, input := Run(c, moves).right, Run(c, moves).left.input;
            0 <= Received(r) <= |input|
            && (r.sink.written == input[..Received(r)] <==> r.sink.queue == [] && !TakenTooLate(c, moves))
  {
    RunKeepsInv(c, moves);
    ExactUnlessTakenTooLate(c, moves);
    hide QueueOk, PacketsOk, TakenTooLate, Run, Queued;
    var s := Run(c, moves);
    NothingQueued(s.right.sink.queue);
    SamePrefix(s.right.sink.written, Queued(s.right.sink.queue), s.left.input[..Received(s.right)]);
  }

  /** Once the FIN was taken, the whole input of the peer has been written on the same condition. */
  lemma {:induction false} WrittenInFull(c: Config, moves: seq<Move>)
    ensures var s := Run(c, moves);
            s.right.allRecvOutput ==>
              (s.right.sink.written == s.left.input <==> s.right.sink.queue == [] && !TakenTooLate(c, moves))
  {
    RunKeepsInv(c, moves);
    WrittenUnlessWaiting(c, moves);
    hide PacketsOk, Contiguous, TakenTooLate, Run, Accepted;
    var s := Run(c, moves);
    if s.right.allRecvOutput {
      assert Received(s.right) == |s.left.input|;
      assert s.left.input[..|s.left.input|] == s.left.input;
    }
  }

  /** The left end took data too late. */
  predicate LeftTakenTooLate(c: Config, moves: seq<Move>) {
    TakenTooLate(FlipConfig(c), FlipMoves(moves))
  }

  lemma LeftWrittenInFull(c: Config, moves: seq<Move>)
    ensures var s := Run(c, moves);
            s.left.allRecvOutput ==>
              (s.left.sink.written == s.right.input <==> s.left.sink.queue == [] && !LeftTakenTooLate(c, moves))
  {
    WrittenInFull(FlipConfig(c), FlipMoves(moves));
    FlippedRun(c, moves);
    hide Run, TakenTooLate;
  }

  /** No callback changes an end that was torn down; what waits in its output queue is never written. */
  lemma {:induction false} DeadStaysDead(s: Sys, moves: seq<Move>)
    requires Shaped(s) && !s.right.alive
    ensures RunFrom(s, moves).right == s.right
  {
    if moves != [] {
      var front, m := moves[..|moves| - 1], moves[|moves| - 1];
      DeadStaysDead(s, front);
      var s' := RunFrom(s, front);
      hide RunFrom, Act;
      if m.side == RightEnd && Enabled(s', m) {
        DeadIsStill(s'.right, m.event);
      }
    }
  }

  lemma DeadIsStill(h: Host, e: Callback)
    requires h.bbr.Shaped() && !h.alive
    ensures Act(h, e) == Outcome(h, [])
  {
  }

  // ---------------------------------------------------------------------------------------------
  // Closing
  // ---------------------------------------------------------------------------------------------

  /** Graceful close: once the conditions of the teardown hold at an end, both inputs are complete, this end
      has taken all of the peer's input and recorded its end, and the peer has taken all of this end's. The FIN
      of this end was acknowledged, and so the peer took it, unless it was forgotten. All that this end took has
      been written, as lab4/ctcp/ctcp.h asks, unless some of it waits or was taken too late. */
  lemma {:induction false} GracefulClose(c: Config, moves: seq<Move>)
    ensures var s := Run(c, moves);
            Finished(s.left) ==>
            && s.left.readFinish && s.right.readFinish && s.right.finSent
            && Received(s.left) == |s.right.input| && s.left.sink.eof
            && Received(s.right) == |s.left.input|
            && (Acknowledged(c, moves) <==> !Forgotten(c, moves))
            && (Acknowledged(c, moves) ==> s.right.allRecvOutput)
            && (s.left.sink.written == s.right.input <==> s.left.sink.queue == [] && !LeftTakenTooLate(c, moves))
  {
    RunKeepsInv(c, moves);
    hide Accepted, PacketsOk, PacketOk, Acknowledged, Forgotten, Run, LeftTakenTooLate;
    AcknowledgedUnlessForgotten(c, moves);
    LeftWrittenInFull(c, moves);
  }

  lemma FlippedWholeWrites(moves: seq<Move>)
    requires WholeWrites(moves, LeftEnd)
    ensures WholeWrites(FlipMoves(moves), RightEnd)
  {
    var moves' := FlipMoves(moves);
    forall i | 0 <= i < |moves'| && moves'[i].side == RightEnd
      ensures WholeWrite(moves'[i].event)
    {
      assert moves[i].side == LeftEnd;
    }
  }

  /** At a graceful close the output of either end is the whole input of the other if and only if nothing waits in
      its queue and it took nothing too late; so it is if its sink takes whole writes. */
  lemma {:induction false} GracefulCloseDelivers(c: Config, moves: seq<Move>)
    ensures var s := Run(c, moves);
            Finished(s.left) ==>
            && (s.left.sink.written == s.right.input <==> s.left.sink.queue == [] && !LeftTakenTooLate(c, moves))
            && (s.right.sink.written == s.left.input <==> s.right.sink.queue == [] && !TakenTooLate(c, moves))
            && (WholeWrites(moves, RightEnd) ==> s.right.sink.written == s.left.input)
            && (WholeWrites(moves, LeftEnd) ==> s.left.sink.written == s.right.input)
  {
    GracefulClose(c, moves);
    WrittenUnlessWaiting(c, moves);
    if WholeWrites(moves, RightEnd) {
      WholeWritesDeliver(c, moves);
    }
    if WholeWrites(moves, LeftEnd) {
      FlippedWholeWrites(moves);
      WholeWritesDeliver(FlipConfig(c), FlipMoves(moves));
      FlippedRun(c, moves);
    }
    hide Run, Received, WholeWrites, TakenTooLate, LeftTakenTooLate;
    var s := Run(c, moves);
    assert s.left.input[..|s.left.input|] == s.left.input;
  }

  // ---------------------------------------------------------------------------------------------
  // The output queue is bounded
  // ---------------------------------------------------------------------------------------------

  predicate Bounded(s: Sink) {
    |Queued(s.queue)| <= 8192
  }

  lemma OutputBounded(s: Sink, data: seq<byte>, w: WriteResult)
    requires Bounded(s) && |data| <= BufSpace(s)
    ensures Bounded(Output(s, data, w))
  {
    OutputAppends(s, data, w);
    hide Output, OutputQueue.Keeps, Queued;
  }

  lemma DrainBounded(s: Sink, ws: seq<WriteResult>)
    requires Bounded(s)
    ensures Bounded(Drain(s, ws).0)
  {
    DrainConserves(s, ws);
    hide Drain, Queued;
  }

  lemma FlushBounded(h: Host, w: WriteResult)
    requires Bounded(h.sink)
    ensures Bounded(FlushOutput(h, w).sink)
  {
    hide Output, Bounded;
    if BufSpace(h.sink) >= |h.output| {
      OutputBounded(h.sink, h.output, w);
    }
  }

  lemma ReceiveBounded(h: Host, p: Packet, now: int, w: WriteResult)
    requires h.bbr.Shaped() && Bounded(h.sink)
    ensures Bounded(Receive(h, p, now, w).host.sink)
  {
    hide Bounded, FlushOutput, BufSpace, ReceiveAck, Output;
    if h.alive && !Ignored(h, p) {
      FlushBounded(h.(output := p.data, ackno := h.ackno + |p.data|), w);
      var d := ReceiveData(h, p, w).host;
      assert Bounded(d.sink);
      hide ReceiveData;
      ReceiveAckSame(d, p, now);
      OutputBounded(d.sink, [], WouldBlock);
    }
  }

  lemma ActBounded(h: Host, incoming: set<Packet>, clock: int, e: Callback)
    requires h.bbr.Shaped() && QueueOk(h) && Possible(incoming, clock, e) && Bounded(h.sink)
    ensures Bounded(Act(h, e).host.sink)
  {
    match e
    case Reading(t0, t1, input) => ReadKeeps(h, t0, t1, input);
    case Ticking(c) => TimerKeeps(h, c);
    case Receiving(p, now, w) => ReceiveBounded(h, p, now, w);
    case Draining(ws) =>
      hide Bounded, FlushOutput, Drain;
      if h.alive {
        DrainBounded(h.sink, ws);
        FlushBounded(h.(sink := Drain(h.sink, ws).0), WouldBlock);
      }
  }

  /** The transport respects the space of the output queue: in every run of the two ends it never holds more than
      `MAX_BUF_SPACE` bytes. */
  lemma {:induction false} QueueStaysBounded(c: Config, moves: seq<Move>)
    ensures Bounded(Run(c, moves).right.sink)
  {
    hide Bounded, Act, QueueOk, Link, PacketsOk;
    if moves == [] {
      EmptyBounded();
    } else {
      var front, m := moves[..|moves| - 1], moves[|moves| - 1];
      QueueStaysBounded(c, front);
      RunKeepsInv(c, front);
      var s := Run(c, front);
      if m.side == RightEnd && Enabled(s, m) {
        ActBounded(s.right, s.fromLeft, s.rightClock, m.event);
      }
    }
  }

  lemma EmptyBounded()
    ensures Bounded(EMPTY)
  {
  }
}
