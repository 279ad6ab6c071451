/** Runs that show where the two ends fall short of what the documentation promises, and that the close
    which `CtcpTheorems.GracefulClose` speaks of is reached. */
module CtcpWitness {
  import opened Bytes
  import opened OutputQueue
  import opened CtcpHost
  import opened CtcpNetwork
  import opened CtcpInvariant
  import opened CtcpFin
  import opened CtcpTheorems
  import opened CtcpDelivery
  import opened CtcpTiming
  import B = BbrModel

  const SETUP := Config(4, 4, 4, 4, 0, 0, 0, 0)

  /** The run of a sequence of moves is a step from the run of all moves but the last. */
  lemma {:induction false} RunStep(c: Config, moves: seq<Move>, m: Move)
    ensures Run(c, moves + [m]) == Step(Run(c, moves), m)
    ensures Refused(c, moves + [m])
         == Refused(c, moves) + if m.side == RightEnd && Enabled(Run(c, moves), m)
                                then RefusedBy(Run(c, moves).right, m.event) else 0
    ensures Repeats(c, moves + [m])
         == var h := Run(c, moves).left;
            if !ActsLeft(Run(c, moves), m) then Repeats(c, moves)
            else if |Act(h, m.event).host.segments| < |h.segments| then []
            else Repeats(c, moves) + SentAgain(h, m.event)
  {
    assert (moves + [m])[..|moves|] == moves;
  }

  // ---------------------------------------------------------------------------------------------
  // Acknowledged bytes that never come out
  // ---------------------------------------------------------------------------------------------

  const FIRST := Packet(1, 1, true, false, 4, [7])
  const SECOND := Packet(2, 1, true, false, 4, [8])
  const ACK_FIRST := Packet(1, 2, true, false, 4, [])

  /** Two bytes are read; the second waits for the congestion window. The output of the first is written
      late, by the library, which then records the end of the output; the second byte is taken and dropped. */
  const LOSING_MOVES: seq<Move> := [
    Move(LeftEnd, Reading(1, 1, Data([7]))),
    Move(LeftEnd, Reading(2, 2, Data([8]))),
    Move(RightEnd, Receiving(FIRST, 1, WouldBlock)),
    Move(RightEnd, Draining([Wrote(1)])),
    Move(LeftEnd, Receiving(ACK_FIRST, 3, WouldBlock)),
    Move(LeftEnd, Ticking(TimerClock(4, 4, 4, 4))),
    Move(RightEnd, Receiving(SECOND, 2, WouldBlock))]

  predicate Sender(h: Host, segs: seq<Packet>, seqno: nat, input: seq<byte>) {
    && h.alive && !h.readFinish && !h.finSent && !h.getAllAck && !h.finReceived && !h.allRecvOutput
    && h.seqno == seqno && h.nextSeqno == 1 + |input| && h.input == input && h.ackno == 1
    && h.sendWindow == 4 && h.recvWindow == 4 && h.rtTimeout == 0 && h.lastTimeout == 0 && h.retransCount == 0
    && |h.segments| == |segs| && (forall i :: 0 <= i < |segs| ==> h.segments[i].packet == segs[i])
  }

  predicate Receiver(h: Host, ackno: nat, sink: Sink) {
    && h.alive && !h.finSent && h.segments == [] && h.seqno == 1 && h.nextSeqno == 1
    && h.ackno == ackno && h.sink == sink && h.recvWindow == 4 && h.output == [] && !h.allRecvOutput
  }

  lemma FirstRead(h: Host)
    requires h == Start(4, 4, 0, 0)
    ensures var o := Read(h, 1, 1, Data([7]));
            && Sender(o.host, [FIRST], 1, [7]) && o.sent == [FIRST]
            && o.host.bbr.inflight == 1 && o.host.bbr.cwndGain == 0 && o.host.bbr.nextSendTime == 1
  {
    assert !B.CwndFull(h.bbr);
    assert B.PacingRate(h.bbr).r == 0.0;
    assert h.input + [7] == [7];
  }

  lemma SecondRead(h: Host)
    requires Sender(h, [FIRST], 1, [7])
    requires h.bbr.inflight == 1 && h.bbr.cwndGain == 0 && h.bbr.nextSendTime == 1
    ensures var o := Read(h, 2, 2, Data([8]));
            Sender(o.host, [FIRST, SECOND], 1, [7, 8]) && o.sent == []
  {
    assert B.CwndFull(h.bbr);
    hide B.CwndFull;
    assert h.input + [8] == [7, 8];
  }

  lemma TakeFirst(h: Host)
    requires Receiver(h, 1, EMPTY) && h.bbr.Shaped()
    ensures var o := Receive(h, FIRST, 1, WouldBlock);
            Receiver(o.host, 2, Sink([Chunk([7], 0)], false, false, [])) && o.sent == [ACK_FIRST]
  {
    var sink := Sink([Chunk([7], 0)], false, false, []);
    assert Output(EMPTY, [7], WouldBlock) == sink;
    hide Output;
  }

  lemma DrainFirst(h: Host)
    requires Receiver(h, 2, Sink([Chunk([7], 0)], false, false, []))
    ensures Receiver(DrainOutput(h, [Wrote(1)]), 2, Sink([], true, false, [7]))
  {
    var q: Queue := [Chunk([7], 0)];
    assert q[0].Left() == [7];
    assert q[1..] == [];
    assert [Wrote(1)][1..] == [];
    assert DrainLoop(q, [Wrote(1)]) == Drained([], [7], false, true);
    hide DrainLoop;
    assert [] + [7] == [7];
    assert Drain(Sink(q, false, false, []), [Wrote(1)]) == (Sink([], false, false, [7]), true);
  }

  lemma FirstAcked(h: Host)
    requires Sender(h, [FIRST, SECOND], 1, [7, 8]) && h.bbr.Shaped()
    ensures var o := Receive(h, ACK_FIRST, 3, WouldBlock);
            Sender(o.host, [SECOND], 2, [7, 8]) && o.sent == []
  {
    hide B.OnAck;
    assert ReceiveData(h, ACK_FIRST, WouldBlock) == Outcome(h, []);
    assert Expected(h.segments[0]) == 2;
  }

  lemma SecondTimesOut(h: Host)
    requires Sender(h, [SECOND], 2, [7, 8])
    ensures Timer(h, TimerClock(4, 4, 4, 4)).sent == [SECOND]
    ensures Timer(h, TimerClock(4, 4, 4, 4)).host.input == [7, 8]
  {
    assert MaybeSendFin(h, 4) == Outcome(h, []);
  }

  lemma RefuseSecond(h: Host)
    requires Receiver(h, 2, Sink([], true, false, [7])) && h.bbr.Shaped()
    ensures var o := Receive(h, SECOND, 2, WouldBlock);
            Receiver(o.host, 3, Sink([], true, false, [7]))
            && RefusedBy(h, Receiving(SECOND, 2, WouldBlock)) == 1
  {
  }

  lemma {:induction false} LeftMove(c: Config, moves: seq<Move>, e: Callback)
    requires Possible(Run(c, moves).fromRight, Run(c, moves).leftClock, e)
    ensures var s, s' := Run(c, moves), Run(c, moves + [Move(LeftEnd, e)]);
            var o := Act(s.left, e);
            && s'.left == o.host && s'.right == s.right && s'.fromRight == s.fromRight
            && s'.fromLeft == s.fromLeft + (set p | p in o.sent)
            && s'.leftClock == LastReading(s.leftClock, e) && s'.rightClock == s.rightClock
    ensures Refused(c, moves + [Move(LeftEnd, e)]) == Refused(c, moves)
  {
    hide Act, Refused, Repeats, SentAgain;
    RunStep(c, moves, Move(LeftEnd, e));
  }

  lemma {:induction false} RightMove(c: Config, moves: seq<Move>, e: Callback)
    requires Possible(Run(c, moves).fromLeft, Run(c, moves).rightClock, e)
    ensures var s, s' := Run(c, moves), Run(c, moves + [Move(RightEnd, e)]);
            var o := Act(s.right, e);
            && s'.right == o.host && s'.left == s.left && s'.fromLeft == s.fromLeft
            && s'.fromRight == s.fromRight + (set p | p in o.sent)
            && s'.rightClock == LastReading(s.rightClock, e) && s'.leftClock == s.leftClock
    ensures Refused(c, moves + [Move(RightEnd, e)])
         == Refused(c, moves) + RefusedBy(Run(c, moves).right, e)
  {
    hide Act, Refused, Repeats, SentAgain, RefusedBy;
    RunStep(c, moves, Move(RightEnd, e));
  }

  lemma AfterReads()
    ensures var s := Run(SETUP, LOSING_MOVES[..2]);
            && Sender(s.left, [FIRST, SECOND], 1, [7, 8]) && Receiver(s.right, 1, EMPTY)
            && s.fromLeft == {FIRST} && s.fromRight == {} && s.leftClock == 2 && s.rightClock == 0
            && Refused(SETUP, LOSING_MOVES[..2]) == 0
  {
    hide Read;
    var m0, m1 := LOSING_MOVES[..0], LOSING_MOVES[..1];
    assert m1 == m0 + [LOSING_MOVES[0]] && LOSING_MOVES[..2] == m1 + [LOSING_MOVES[1]];
    LeftMove(SETUP, m0, LOSING_MOVES[0].event);
    FirstRead(Run(SETUP, m0).left);
    assert Run(SETUP, m1).fromLeft == {FIRST};
    LeftMove(SETUP, m1, LOSING_MOVES[1].event);
    SecondRead(Run(SETUP, m1).left);
    assert Run(SETUP, LOSING_MOVES[..2]).fromLeft == {FIRST};
  }

  lemma AfterDrain()
    ensures var s := Run(SETUP, LOSING_MOVES[..4]);
            && Sender(s.left, [FIRST, SECOND], 1, [7, 8]) && Receiver(s.right, 2, Sink([], true, false, [7]))
            && s.fromLeft == {FIRST} && s.fromRight == {ACK_FIRST} && s.leftClock == 2 && s.rightClock == 1
            && Refused(SETUP, LOSING_MOVES[..4]) == 0
  {
    hide Receive, DrainOutput, Refused, Run;
    AfterReads();
    var m2, m3 := LOSING_MOVES[..2], LOSING_MOVES[..3];
    assert m3 == m2 + [LOSING_MOVES[2]] && LOSING_MOVES[..4] == m3 + [LOSING_MOVES[3]];
    RightMove(SETUP, m2, LOSING_MOVES[2].event);
    TakeFirst(Run(SETUP, m2).right);
    assert Run(SETUP, m3).fromRight == {ACK_FIRST};
    RightMove(SETUP, m3, LOSING_MOVES[3].event);
    DrainFirst(Run(SETUP, m3).right);
    assert Run(SETUP, LOSING_MOVES[..4]).fromRight == {ACK_FIRST};
  }

  lemma AfterTimeout()
    ensures var s := Run(SETUP, LOSING_MOVES[..6]);
            && s.left.input == [7, 8] && Receiver(s.right, 2, Sink([], true, false, [7]))
            && SECOND in s.fromLeft && s.rightClock == 1
            && Refused(SETUP, LOSING_MOVES[..6]) == 0
  {
    hide Receive, Timer, Refused, Run;
    AfterDrain();
    var m4, m5 := LOSING_MOVES[..4], LOSING_MOVES[..5];
    assert m5 == m4 + [LOSING_MOVES[4]] && LOSING_MOVES[..6] == m5 + [LOSING_MOVES[5]];
    LeftMove(SETUP, m4, LOSING_MOVES[4].event);
    FirstAcked(Run(SETUP, m4).left);
    LeftMove(SETUP, m5, LOSING_MOVES[5].event);
    SecondTimesOut(Run(SETUP, m5).left);
  }

  /** Acknowledged bytes can be lost: here two bytes are acknowledged and only the first ever comes out. */
  lemma AcknowledgedBytesCanBeLost()
    ensures var s := Run(SETUP, LOSING_MOVES);
            && s.left.input == [7, 8] && Received(s.right) == 2
            && Accepted(s.right.sink) == [7]
            && Refused(SETUP, LOSING_MOVES) == 1
  {
    hide Receive, Refused, Run, RefusedBy;
    AfterTimeout();
    var m6 := LOSING_MOVES[..6];
    assert LOSING_MOVES == m6 + [LOSING_MOVES[6]];
    RightMove(SETUP, m6, LOSING_MOVES[6].event);
    RefuseSecond(Run(SETUP, m6).right);
  }

  // ---------------------------------------------------------------------------------------------
  // Six retransmissions
  // ---------------------------------------------------------------------------------------------

  function Tick(t: int): Callback {
    Ticking(TimerClock(t, t, t, t))
  }

  /** One byte is read and then the timer fires `n` times without any reply. */
  function UnansweredMoves(n: nat): seq<Move> {
    if n == 0 then LOSING_MOVES[..1] else UnansweredMoves(n - 1) + [Move(LeftEnd, Tick(n + 1))]
  }

  /** The first byte is waiting for its acknowledgement and has been sent again `n` times. */
  predicate Waiting(h: Host, n: nat) {
    && h.alive && !h.readFinish && !h.finReceived
    && |h.segments| == 1 && h.segments[0].packet == FIRST
    && h.rtTimeout == 0 && h.retransCount == n && h.lastTimeout <= n + 1
  }

  lemma TickWaits(h: Host, n: nat)
    requires Waiting(h, n) && h.bbr.Shaped()
    ensures n < 6 ==> Waiting(Timer(h, TimerClock(n + 2, n + 2, n + 2, n + 2)).host, n + 1)
                      && Timer(h, TimerClock(n + 2, n + 2, n + 2, n + 2)).sent == [FIRST]
                      && SentAgain(h, Tick(n + 2)) == [FIRST]
    ensures n == 6 ==> !Timer(h, TimerClock(n + 2, n + 2, n + 2, n + 2)).host.alive
  {
    assert MaybeSendFin(h, n + 2) == Outcome(h, []);
  }

  lemma UnansweredStart()
    ensures var s := Run(SETUP, UnansweredMoves(0));
            Waiting(s.left, 0) && s.leftClock == 1 && Repeats(SETUP, UnansweredMoves(0)) == []
  {
    hide Read;
    assert LOSING_MOVES[..1] == [] + [LOSING_MOVES[0]];
    LeftMove(SETUP, [], LOSING_MOVES[0].event);
    RunStep(SETUP, [], LOSING_MOVES[0]);
    FirstRead(Run(SETUP, []).left);
    assert Repeats(SETUP, []) == [];
    hide Run, Repeats;
  }

  lemma {:induction false} Unanswered(n: nat)
    requires n <= 6
    ensures var s := Run(SETUP, UnansweredMoves(n));
            Waiting(s.left, n) && s.leftClock == n + 1 && Repeats(SETUP, UnansweredMoves(n)) == seq(n, _ => FIRST)
  {
    hide Timer, SentAgain, Run, Repeats;
    if n == 0 {
      UnansweredStart();
    } else {
      Unanswered(n - 1);
      var front := UnansweredMoves(n - 1);
      TickWaits(Run(SETUP, front).left, n - 1);
      LeftMove(SETUP, front, Tick(n + 1));
      RunStep(SETUP, front, Move(LeftEnd, Tick(n + 1)));
      assert seq(n - 1, _ => FIRST) + [FIRST] == seq(n, _ => FIRST);
    }
  }

  /** Without any reply the first segment is put on the wire six more times, and the seventh time-out tears
      down. */
  lemma SixResendsHappen()
    ensures var h := Run(SETUP, UnansweredMoves(6)).left;
            && Repeats(SETUP, UnansweredMoves(6)) == [FIRST, FIRST, FIRST, FIRST, FIRST, FIRST]
            && h.alive && !Finished(h) && !Timer(h, TimerClock(8, 8, 8, 8)).host.alive
  {
    hide Timer, Repeats, Run;
    Unanswered(6);
    TickWaits(Run(SETUP, UnansweredMoves(6)).left, 6);
    assert seq(6, _ => FIRST) == [FIRST, FIRST, FIRST, FIRST, FIRST, FIRST];
  }

  /** The time-out is 100 milliseconds. The byte is first sent long after the connection was set up, and again at
      the next tick, one millisecond later. */
  lemma FreshSegmentIsSentAgain()
    ensures var moves := [Move(LeftEnd, Reading(200, 200, Data([7])))];
            var s := Run(PATIENT, moves);
            && s.fromLeft == {FIRST} && s.left.rtTimeout == 100
            && Possible(s.fromRight, s.leftClock, Tick(201))
            && SentAgain(s.left, Tick(201)) == [FIRST] && TimerResends(s.left, Tick(201))
  {
    hide Read, Run, Repeats, SentAgain, TimerResends;
    var e := Reading(200, 200, Data([7]));
    assert [Move(LeftEnd, e)] == [] + [Move(LeftEnd, e)];
    EmptyRun();
    LeftMove(PATIENT, [], e);
    LateRead(Run(PATIENT, []).left);
    assert Run(PATIENT, [Move(LeftEnd, e)]).fromLeft == {FIRST};
  }

  lemma EmptyRun()
    ensures Run(PATIENT, []) == Begin(PATIENT)
  {
  }

  lemma LateRead(h: Host)
    requires h == Start(4, 4, 100, 0)
    ensures var o := Read(h, 200, 200, Data([7]));
            && o.sent == [FIRST] && o.host.rtTimeout == 100
            && SentAgain(o.host, Tick(201)) == [FIRST] && TimerResends(o.host, Tick(201))
  {
    assert !B.CwndFull(h.bbr);
    var h' := Read(h, 200, 200, Data([7])).host;
    assert h'.segments[0].packet == FIRST && |h'.segments| == 1;
    assert MaybeSendFin(h', 201) == Outcome(h', []);
  }

  // ---------------------------------------------------------------------------------------------
  // A complete close
  // ---------------------------------------------------------------------------------------------

  const PATIENT := Config(4, 4, 4, 4, 100, 100, 0, 0)
  const LEFT_FIN := Packet(2, 1, false, true, 4, [])
  const ACK_LEFT_FIN := Packet(1, 3, true, false, 4, [])
  const RIGHT_FIN := Packet(1, 3, false, true, 4, [])

  /** One byte goes from left to right, then both sides end their input; `w` is how the right end's output
      answers when the byte is written. */
  function ClosingMoves(w: WriteResult): seq<Move> {
    [Move(LeftEnd, Reading(1, 1, Data([7]))), Move(RightEnd, Receiving(FIRST, 1, w))] + AFTER_FIRST
  }

  const CLOSING_MOVES: seq<Move> := ClosingMoves(Wrote(1))

  const AFTER_FIRST: seq<Move> := [
    Move(LeftEnd, Receiving(ACK_FIRST, 3, WouldBlock)),
    Move(LeftEnd, Reading(4, 4, Eof)),
    Move(LeftEnd, Tick(5)),
    Move(LeftEnd, Tick(6)),
    Move(RightEnd, Receiving(LEFT_FIN, 2, WouldBlock)),
    Move(RightEnd, Reading(3, 3, Eof)),
    Move(RightEnd, Tick(4)),
    Move(RightEnd, Tick(5)),
    Move(LeftEnd, Receiving(RIGHT_FIN, 7, WouldBlock)),
    Move(LeftEnd, Receiving(ACK_LEFT_FIN, 8, WouldBlock)),
    Move(LeftEnd, Tick(9))]

  /** The parts of an end on which the close depends. */
  datatype View = View(segs: seq<Packet>, seqno: nat, nextSeqno: nat, ackno: nat, readFinish: bool,
                       finReceived: bool, finSent: bool, getAllAck: bool, allRecvOutput: bool)

  predicate Looks(h: Host, v: View) {
    && h.alive && h.sendWindow == 4 && h.recvWindow == 4 && h.rtTimeout == 100 && h.lastTimeout == 0
    && h.output == [] && h.bbr.nextSendTime <= 1 && h.bbr.Shaped()
    && |h.segments| == |v.segs| && (forall i :: 0 <= i < |v.segs| ==> h.segments[i].packet == v.segs[i])
    && h.seqno == v.seqno && h.nextSeqno == v.nextSeqno && h.ackno == v.ackno && h.readFinish == v.readFinish
    && h.finReceived == v.finReceived && h.finSent == v.finSent && h.getAllAck == v.getAllAck
    && h.allRecvOutput == v.allRecvOutput
  }

  /** What the output of the right end holds after the first byte. */
  function FirstSink(w: WriteResult): Sink {
    if w == WouldBlock then Sink([Chunk([7], 0)], false, false, []) else Sink([], false, false, [7])
  }

  const L0 := View([FIRST], 1, 2, 1, false, false, false, false, false)
  const RIGHT_CLOSING := View([RIGHT_FIN], 1, 1, 3, true, true, true, false, true)
  const L1 := View([], 2, 2, 1, false, false, false, false, false)
  const R0 := View([], 1, 1, 1, false, false, false, false, false)

  lemma CloseFirstRead(h: Host)
    requires h == Start(4, 4, 100, 0)
    ensures var o := Read(h, 1, 1, Data([7])); Looks(o.host, L0) && o.sent == [FIRST]
  {
    assert !B.CwndFull(h.bbr);
    assert B.PacingRate(h.bbr).r == 0.0;
  }

  lemma CloseTakeFirst(h: Host, w: WriteResult)
    requires h == Start(4, 4, 100, 0) && (w == WouldBlock || w == Wrote(1))
    ensures var o := Receive(h, FIRST, 1, w);
            Looks(o.host, R0.(ackno := 2)) && o.sent == [ACK_FIRST] && o.host.sink == FirstSink(w)
  {
    assert Output(EMPTY, [7], w) == FirstSink(w);
    hide Output;
  }

  lemma CloseFirstAcked(h: Host)
    requires Looks(h, L0)
    ensures var o := Receive(h, ACK_FIRST, 3, WouldBlock); Looks(o.host, L1) && o.sent == []
  {
    hide B.OnAck;
    KeepsSendTime(h.bbr.(inflight := h.bbr.inflight - 1), 1, h.segments[0].delivered, h.segments[0].deliveredTime, 3);
    assert ReceiveData(h, ACK_FIRST, WouldBlock) == Outcome(h, []);
    assert Expected(h.segments[0]) == 2;
  }

  lemma KeepsSendTime(b: B.Bbr, size: int, delivered: int, deliveredTime: int, now: int)
    requires b.Shaped()
    ensures B.OnAck(b, size, delivered, deliveredTime, now).nextSendTime == b.nextSendTime
  {
  }

  lemma CloseEof(h: Host, v: View, now: int)
    requires Looks(h, v) && !v.readFinish && now > 1 && v.seqno == v.nextSeqno
    ensures var o := Read(h, now, now, Eof);
            Looks(o.host, v.(readFinish := true)) && o.sent == [] && o.host.sink == h.sink
  {
  }

  lemma CloseAllAcked(h: Host, v: View, t: int)
    requires Looks(h, v) && v.segs == [] && v.readFinish && !v.getAllAck
    ensures var o := Timer(h, TimerClock(t, t, t, t));
            Looks(o.host, v.(getAllAck := true)) && o.sent == [] && o.host.sink == h.sink
  {
    assert MaybeSendFin(h, t) == Outcome(h, []);
  }

  lemma CloseSendFin(h: Host, v: View, t: int)
    requires Looks(h, v) && v.segs == [] && v.readFinish && v.getAllAck && !v.finSent && t <= 100
    ensures var p := Packet(v.nextSeqno, v.ackno, false, true, 4, []);
            var o := Timer(h, TimerClock(t, t, t, t));
            Looks(o.host, v.(segs := [p], finSent := true, getAllAck := false))
                && o.sent == [p] && o.host.sink == h.sink
  {
  }

  lemma CloseTakeFin(h: Host, v: View, p: Packet, now: int)
    requires Looks(h, v) && p.fin && !p.ack && p.data == [] && p.seqno == v.ackno
    ensures var o := Receive(h, p, now, WouldBlock);
            Looks(o.host, v.(ackno := v.ackno + 1, finReceived := true, allRecvOutput := true))
            && o.sent == [Packet(v.nextSeqno, v.ackno + 1, true, false, 4, [])]
            && o.host.sink == h.sink.(eof := true)
  {
    assert ReceiveData(h, p, WouldBlock) == Outcome(h, []);
    assert ReceiveAck(h, p, now) == Outcome(h, []);
  }

  lemma CloseFinAcked(h: Host, v: View, p: Packet, now: int)
    requires Looks(h, v) && |v.segs| == 1 && v.finSent && p.ack && p.data == [] && p.ackno == v.seqno + 1
    ensures var o := Receive(h, p, now, WouldBlock);
            Looks(o.host, v.(segs := [], finReceived := true)) && o.sent == [] && o.host.sink == h.sink
  {
    assert ReceiveData(h, p, WouldBlock) == Outcome(h, []);
  }

  lemma CloseData(w: WriteResult)
    requires w == WouldBlock || w == Wrote(1)
    ensures var s := Run(PATIENT, ClosingMoves(w)[..3]);
            && Looks(s.left, L1) && Looks(s.right, R0.(ackno := 2)) && s.right.sink == FirstSink(w)
            && s.leftClock == 3 && s.rightClock == 1
  {
    hide Read, Receive, FirstSink;
    var all := ClosingMoves(w);
    var m0, m1, m2 := all[..0], all[..1], all[..2];
    assert m1 == m0 + [all[0]] && m2 == m1 + [all[1]];
    assert all[..3] == m2 + [all[2]];
    CloseFirstRead(Run(PATIENT, m0).left);
    CloseTakeFirst(Run(PATIENT, m0).right, w);
    LeftMove(PATIENT, m0, all[0].event);
    hide Run, Looks;
    RightMove(PATIENT, m1, all[1].event);
    LeftMove(PATIENT, m2, all[2].event);
    CloseFirstAcked(Run(PATIENT, m2).left);
  }

  lemma CloseLeftFin(w: WriteResult)
    requires w == WouldBlock || w == Wrote(1)
    ensures var s := Run(PATIENT, ClosingMoves(w)[..6]);
            && Looks(s.left, L1.(segs := [LEFT_FIN], readFinish := true, finSent := true))
            && Looks(s.right, R0.(ackno := 2)) && s.right.sink == FirstSink(w) && LEFT_FIN in s.fromLeft
            && s.leftClock == 6 && s.rightClock == 1
  {
    hide Read, Timer, Run, Looks, FirstSink;
    var all := ClosingMoves(w);
    CloseData(w);
    var m3, m4, m5 := all[..3], all[..4], all[..5];
    assert m4 == m3 + [all[3]] && m5 == m4 + [all[4]];
    assert all[..6] == m5 + [all[5]];
    LeftMove(PATIENT, m3, all[3].event);
    CloseEof(Run(PATIENT, m3).left, L1, 4);
    LeftMove(PATIENT, m4, all[4].event);
    CloseAllAcked(Run(PATIENT, m4).left, L1.(readFinish := true), 5);
    LeftMove(PATIENT, m5, all[5].event);
    CloseSendFin(Run(PATIENT, m5).left, L1.(readFinish := true, getAllAck := true), 6);
  }

  lemma CloseRightFin(w: WriteResult)
    requires w == WouldBlock || w == Wrote(1)
    ensures var s := Run(PATIENT, ClosingMoves(w)[..10]);
            && Looks(s.left, L1.(segs := [LEFT_FIN], readFinish := true, finSent := true))
            && Looks(s.right, RIGHT_CLOSING) && s.right.sink == FirstSink(w).(eof := true) && s.rightClock == 5
            && RIGHT_FIN in s.fromRight && ACK_LEFT_FIN in s.fromRight && s.leftClock == 6
  {
    hide Read, Receive, Timer, Run, Looks, FirstSink;
    var all := ClosingMoves(w);
    CloseLeftFin(w);
    var m6, m7, m8, m9 := all[..6], all[..7], all[..8], all[..9];
    assert m7 == m6 + [all[6]] && m8 == m7 + [all[7]] && m9 == m8 + [all[8]];
    assert all[..10] == m9 + [all[9]];
    RightMove(PATIENT, m6, all[6].event);
    var v := R0.(ackno := 3, finReceived := true, allRecvOutput := true);
    CloseTakeFin(Run(PATIENT, m6).right, R0.(ackno := 2), LEFT_FIN, 2);
    RightMove(PATIENT, m7, all[7].event);
    CloseEof(Run(PATIENT, m7).right, v, 3);
    RightMove(PATIENT, m8, all[8].event);
    CloseAllAcked(Run(PATIENT, m8).right, v.(readFinish := true), 4);
    RightMove(PATIENT, m9, all[9].event);
    CloseSendFin(Run(PATIENT, m9).right, v.(readFinish := true, getAllAck := true), 5);
  }

  /** The conditions of the teardown are reached, after one byte went across and the FIN was acknowledged. If the
      acknowledgement of the FIN arrives once more before the teardown, the source reads through null. */
  lemma CloseIsReached()
    ensures Acknowledged(PATIENT, CLOSING_MOVES)
    ensures var s, again := Run(PATIENT, CLOSING_MOVES), Receiving(ACK_LEFT_FIN, 10, WouldBlock);
            Possible(s.fromRight, s.leftClock, again) && ReadsNull(s.left, again)
    ensures var s := Run(PATIENT, CLOSING_MOVES);
            s.left.alive && Finished(s.left) && !Timer(s.left, TimerClock(10, 10, 10, 10)).host.alive
  {
    hide Receive, Timer, Run, Looks, Acknowledged, Acknowledges, ReadsNull;
    CloseRightFin(Wrote(1));
    var m10, m11, m12 := CLOSING_MOVES[..10], CLOSING_MOVES[..11], CLOSING_MOVES[..12];
    assert m11 == m10 + [CLOSING_MOVES[10]] && m12 == m11 + [CLOSING_MOVES[11]];
    assert CLOSING_MOVES == m12 + [CLOSING_MOVES[12]];
    var v := L1.(segs := [LEFT_FIN], readFinish := true, finSent := true);
    var w := v.(ackno := 2, finReceived := true, allRecvOutput := true);
    LeftMove(PATIENT, m10, CLOSING_MOVES[10].event);
    CloseTakeFin(Run(PATIENT, m10).left, v, RIGHT_FIN, 7);
    LooksAcknowledged(Run(PATIENT, m11).left, w, ACK_LEFT_FIN, 8);
    AcknowledgedNow(PATIENT, m11, CLOSING_MOVES[11]);
    AcknowledgedBefore(PATIENT, m12, CLOSING_MOVES[12]);
    LeftMove(PATIENT, m11, CLOSING_MOVES[11].event);
    CloseFinAcked(Run(PATIENT, m11).left, w, ACK_LEFT_FIN, 8);
    LeftMove(PATIENT, m12, CLOSING_MOVES[12].event);
    CloseAllAcked(Run(PATIENT, m12).left, w.(segs := []), 9);
    LooksFinished(Run(PATIENT, CLOSING_MOVES).left, w.(segs := [], getAllAck := true));
    LooksNull(Run(PATIENT, CLOSING_MOVES).left, w.(segs := [], getAllAck := true), ACK_LEFT_FIN, 10);
    TeardownCases(Run(PATIENT, CLOSING_MOVES).left, TimerClock(10, 10, 10, 10));
  }

  lemma LooksAcknowledged(h: Host, v: View, p: Packet, now: int)
    requires Looks(h, v) && v.finSent && v.segs != [] && p.ack && p.data == [] && p.ackno == v.seqno + 1
    ensures Acknowledges(h, Receiving(p, now, WouldBlock))
  {
  }

  lemma LooksNull(h: Host, v: View, p: Packet, now: int)
    requires Looks(h, v) && v.finSent && v.segs == [] && p.ack && p.data == [] && p.ackno == v.seqno + 1
    ensures ReadsNull(h, Receiving(p, now, WouldBlock))
  {
  }

  lemma {:induction false} AcknowledgedNow(c: Config, moves: seq<Move>, m: Move)
    requires ActsLeft(Run(c, moves), m) && Acknowledges(Run(c, moves).left, m.event)
    ensures Acknowledged(c, moves + [m])
  {
    assert (moves + [m])[..|moves|] == moves;
  }

  lemma {:induction false} AcknowledgedBefore(c: Config, moves: seq<Move>, m: Move)
    requires Acknowledged(c, moves)
    ensures Acknowledged(c, moves + [m])
  {
    assert (moves + [m])[..|moves|] == moves;
  }

  // ---------------------------------------------------------------------------------------------
  // A complete close that loses a byte
  // ---------------------------------------------------------------------------------------------

  const ACK_RIGHT_FIN := Packet(2, 2, true, false, 4, [])

  /** The right end's output would block when the first byte arrives, and has not been drained at the close. */
  const STALLED_MOVES: seq<Move> := ClosingMoves(WouldBlock)[..11] + [
    Move(RightEnd, Receiving(ACK_RIGHT_FIN, 6, WouldBlock)),
    Move(RightEnd, Tick(7))]

  lemma AfterRightFin()
    ensures var s := Run(PATIENT, STALLED_MOVES[..11]);
            && Looks(s.right, RIGHT_CLOSING) && s.right.sink == FirstSink(WouldBlock).(eof := true) && s.rightClock == 5
            && ACK_RIGHT_FIN in s.fromLeft && s.left.nextSeqno == 2
  {
    hide Receive, Run, Looks, FirstSink;
    var all := ClosingMoves(WouldBlock);
    CloseRightFin(WouldBlock);
    var m10 := all[..10];
    assert STALLED_MOVES[..11] == all[..11] == m10 + [all[10]];
    var v := L1.(segs := [LEFT_FIN], readFinish := true, finSent := true);
    LeftMove(PATIENT, m10, all[10].event);
    CloseTakeFin(Run(PATIENT, m10).left, v, RIGHT_FIN, 7);
    LooksOpen(Act(Run(PATIENT, m10).left, all[10].event).host,
        v.(ackno := 2, finReceived := true, allRecvOutput := true));
  }

  /** All conditions of the teardown hold, nothing was refused or taken too late, and yet the byte that the right
      end acknowledged still waits in its output queue, which the teardown frees. */
  lemma CloseLosesWaitingBytes()
    ensures var s := Run(PATIENT, STALLED_MOVES);
            && s.right.alive && Finished(s.right) && !Timer(s.right, TimerClock(8, 8, 8, 8)).host.alive
            && s.left.input == [7] && Received(s.right) == 1
            && s.right.sink.written == [] && Queued(s.right.sink.queue) == [7]
    ensures Refused(PATIENT, STALLED_MOVES) == 0 && !TakenTooLate(PATIENT, STALLED_MOVES)
  {
    hide Receive, Timer, Run, Looks, Refused, TakenTooLate;
    AfterRightFin();
    var m11, m12 := STALLED_MOVES[..11], STALLED_MOVES[..12];
    assert m12 == m11 + [STALLED_MOVES[11]] && STALLED_MOVES == m12 + [STALLED_MOVES[12]];
    var v := RIGHT_CLOSING.(segs := []);
    RightMove(PATIENT, m11, STALLED_MOVES[11].event);
    CloseFinAcked(Run(PATIENT, m11).right, RIGHT_CLOSING, ACK_RIGHT_FIN, 6);
    RightMove(PATIENT, m12, STALLED_MOVES[12].event);
    CloseAllAcked(Run(PATIENT, m12).right, v, 7);
    LooksFinished(Run(PATIENT, STALLED_MOVES).right, v.(getAllAck := true));
    TeardownCases(Run(PATIENT, STALLED_MOVES).right, TimerClock(8, 8, 8, 8));
    StalledByte(STALLED_MOVES, v.(getAllAck := true));
  }

  lemma {:induction false} StalledByte(moves: seq<Move>, v: View)
    requires var s := Run(PATIENT, moves);
             Looks(s.right, v) && s.right.sink == FirstSink(WouldBlock).(eof := true) && s.left.nextSeqno == 2
    requires v.ackno == 3 && v.allRecvOutput
    ensures var s := Run(PATIENT, moves);
            && s.left.input == [7] && Received(s.right) == 1
            && s.right.sink.written == [] && Queued(s.right.sink.queue) == [7]
    ensures Refused(PATIENT, moves) == 0 && !TakenTooLate(PATIENT, moves)
  {
    var q: Queue := [Chunk([7], 0)];
    assert q[1..] == [] && q[0].Left() == [7];
    assert Queued(q) == [7];
    hide Run, Refused, TakenTooLate, Queued;
    var s := Run(PATIENT, moves);
    RunKeepsInv(PATIENT, moves);
    assert Accepted(s.right.sink) == [7];
    hide Accepted;
    PrefixDelivery(PATIENT, moves);
    assert |s.left.input| == 1;
    assert s.left.input[..1] == s.left.input == [7];
    ExactDelivery(PATIENT, moves);
    ExactUnlessTakenTooLate(PATIENT, moves);
  }

  lemma LooksFinished(h: Host, v: View)
    requires Looks(h, v) && v.finReceived && v.finSent && v.readFinish && v.getAllAck && v.allRecvOutput
    ensures h.alive && Finished(h)
  {
  }

  // ---------------------------------------------------------------------------------------------
  // A close whose FIN the peer never saw
  // ---------------------------------------------------------------------------------------------

  const EARLY_RIGHT_FIN := Packet(1, 2, false, true, 4, [])

  /** After the left end's FIN was queued, the acknowledgement of its last byte arrives once more. */
  const FORGETFUL_MOVES: seq<Move> := CLOSING_MOVES[..6] + [
    Move(LeftEnd, Receiving(ACK_FIRST, 7, WouldBlock)),
    Move(LeftEnd, Tick(8)),
    Move(RightEnd, Reading(2, 2, Eof)),
    Move(RightEnd, Tick(3)),
    Move(RightEnd, Tick(4)),
    Move(LeftEnd, Receiving(EARLY_RIGHT_FIN, 9, WouldBlock))]

  /** A repeated acknowledgement of the last byte removes the FIN from the queue. */
  lemma FinForgotten(h: Host, v: View)
    requires Looks(h, v) && v.segs == [LEFT_FIN] && v.finSent && v.seqno == 2 && v.ackno == 1
    ensures var o := Receive(h, ACK_FIRST, 7, WouldBlock); Looks(o.host, v.(segs := [])) && o.sent == []
  {
    hide B.OnAck;
    KeepsSendTime(h.bbr.(inflight := h.bbr.inflight - 0), 0, h.segments[0].delivered, h.segments[0].deliveredTime, 7);
    assert ReceiveData(h, ACK_FIRST, WouldBlock) == Outcome(h, []);
    assert Expected(h.segments[0]) == 2;
  }

  lemma AfterForgetting()
    ensures var s := Run(PATIENT, FORGETFUL_MOVES[..8]);
            && Looks(s.left, L1.(readFinish := true, finSent := true, getAllAck := true))
            && Looks(s.right, R0.(ackno := 2)) && s.leftClock == 8 && s.rightClock == 1
  {
    hide Receive, Timer, Run, Looks;
    CloseLeftFin(Wrote(1));
    AckFirstSent();
    var m6, m7 := FORGETFUL_MOVES[..6], FORGETFUL_MOVES[..7];
    assert m6 == CLOSING_MOVES[..6] && m7 == m6 + [FORGETFUL_MOVES[6]];
    assert FORGETFUL_MOVES[..8] == m7 + [FORGETFUL_MOVES[7]];
    var v := L1.(segs := [LEFT_FIN], readFinish := true, finSent := true);
    LeftMove(PATIENT, m6, FORGETFUL_MOVES[6].event);
    FinForgotten(Run(PATIENT, m6).left, v);
    LeftMove(PATIENT, m7, FORGETFUL_MOVES[7].event);
    CloseAllAcked(Run(PATIENT, m7).left, v.(segs := []), 8);
  }

  lemma AckFirstSent()
    ensures ACK_FIRST in Run(PATIENT, CLOSING_MOVES[..6]).fromRight
  {
    hide Read, Receive, Timer;
    var m0, m1 := CLOSING_MOVES[..0], CLOSING_MOVES[..1];
    assert m1 == m0 + [CLOSING_MOVES[0]] && CLOSING_MOVES[..2] == m1 + [CLOSING_MOVES[1]];
    CloseFirstRead(Run(PATIENT, m0).left);
    CloseTakeFirst(Run(PATIENT, m0).right, Wrote(1));
    LeftMove(PATIENT, m0, CLOSING_MOVES[0].event);
    RightMove(PATIENT, m1, CLOSING_MOVES[1].event);
    hide Run;
    assert CLOSING_MOVES[..6][..2] == CLOSING_MOVES[..2];
    SentStays(PATIENT, CLOSING_MOVES[..6], 2, ACK_FIRST);
  }

  /** What was sent stays available. */
  lemma {:induction false} SentStays(c: Config, moves: seq<Move>, k: nat, p: Packet)
    requires k <= |moves| && p in Run(c, moves[..k]).fromRight
    ensures p in Run(c, moves).fromRight
    decreases |moves| - k
  {
    if k == |moves| {
      assert moves[..k] == moves;
    } else {
      assert moves[..k + 1] == moves[..k] + [moves[k]];
      hide Act, Refused, Repeats, SentAgain;
      RunStep(c, moves[..k], moves[k]);
      hide Run;
      SentStays(c, moves, k + 1, p);
    }
  }

  /** The teardown does not wait for the FIN to be acknowledged, although lab4/ctcp/ctcp.h lists that among
      its conditions: here they all hold and the peer has not seen a FIN. */
  lemma CloseWithoutFinAcknowledged()
    ensures Forgotten(PATIENT, FORGETFUL_MOVES)
    ensures var s := Run(PATIENT, FORGETFUL_MOVES);
            s.left.alive && Finished(s.left) && !s.right.finReceived && !s.right.allRecvOutput
  {
    hide Read, Receive, Timer, Run, Looks;
    AfterForgetting();
    var m8, m9 := FORGETFUL_MOVES[..8], FORGETFUL_MOVES[..9];
    var m10, m11 := FORGETFUL_MOVES[..10], FORGETFUL_MOVES[..11];
    assert m9 == m8 + [FORGETFUL_MOVES[8]] && m10 == m9 + [FORGETFUL_MOVES[9]];
    assert m11 == m10 + [FORGETFUL_MOVES[10]] && FORGETFUL_MOVES == m11 + [FORGETFUL_MOVES[11]];
    var r, v := R0.(ackno := 2), L1.(readFinish := true, finSent := true, getAllAck := true);
    RightMove(PATIENT, m8, FORGETFUL_MOVES[8].event);
    CloseEof(Run(PATIENT, m8).right, r, 2);
    RightMove(PATIENT, m9, FORGETFUL_MOVES[9].event);
    CloseAllAcked(Run(PATIENT, m9).right, r.(readFinish := true), 3);
    RightMove(PATIENT, m10, FORGETFUL_MOVES[10].event);
    CloseSendFin(Run(PATIENT, m10).right, r.(readFinish := true, getAllAck := true), 4);
    LeftMove(PATIENT, m11, FORGETFUL_MOVES[11].event);
    CloseTakeFin(Run(PATIENT, m11).left, v, EARLY_RIGHT_FIN, 9);
    LooksFinished(Run(PATIENT, FORGETFUL_MOVES).left, v.(ackno := 2, finReceived := true, allRecvOutput := true));
    LooksOpen(Run(PATIENT, FORGETFUL_MOVES).right,
              r.(segs := [EARLY_RIGHT_FIN], readFinish := true, finSent := true));
    AcknowledgedUnlessForgotten(PATIENT, FORGETFUL_MOVES);
  }

  lemma LooksOpen(h: Host, v: View)
    requires Looks(h, v)
    ensures h.finReceived == v.finReceived && h.allRecvOutput == v.allRecvOutput && h.nextSeqno == v.nextSeqno
  {
  }
}
