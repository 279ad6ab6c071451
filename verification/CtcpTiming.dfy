/** Retransmission counts and the congestion control of an end, over every run of the two ends. The
    statements speak of the left end; `CtcpTheorems.FlippedRun` carries them to the right. */
module CtcpTiming {
  import opened Bytes
  import opened OutputQueue
  import opened CtcpHost
  import opened CtcpNetwork
  import opened CtcpInvariant
  import opened CtcpTheorems
  import B = BbrModel
  import BbrRuns

  // ---------------------------------------------------------------------------------------------
  // Retransmission
  // ---------------------------------------------------------------------------------------------

  /** An acknowledgement removes the first segment (or is taken for that of the FIN). */
  predicate AckMoves(h: Host, e: Callback) {
    match e
    case Receiving(p, _, w) =>
      h.alive && !Ignored(h, p) && p.ack
      && (AcksFin(h, p) || (h.segments != [] && Expected(h.segments[0]) <= p.ackno))
    case _ => false
  }

  /** The timer sends the first segment again. */
  predicate TimerResends(h: Host, e: Callback) {
    match e
    case Ticking(c) =>
      h.alive && !Finished(h) && MaybeSendFin(h, c.fin).host.segments != []
      && c.check - h.lastTimeout > h.rtTimeout && h.retransCount <= RETRANSMIT_LIMIT
    case _ => false
  }

  /** The packets that a tick sends again: what it hands to `conn_send`, without the first transmission of a
      segment that it has just queued. */
  function SentAgain(h: Host, e: Callback): seq<Packet>
    requires h.bbr.Shaped()
  {
    if !e.Ticking? then []
    else
      var o := Timer(h, e.clock);
      if |o.host.segments| > |h.segments| && o.sent != [] then o.sent[1..] else o.sent
  }

  /** The packets that the timer of the left end has sent again since its queue last became shorter. */
  function Repeats(c: Config, moves: seq<Move>): seq<Packet> {
    if moves == [] then []
    else
      var front, m := moves[..|moves| - 1], moves[|moves| - 1];
      var s := Run(c, front);
      if !ActsLeft(s, m) then Repeats(c, front)
      else if |Act(s.left, m.event).host.segments| < |s.left.segments| then []
      else Repeats(c, front) + SentAgain(s.left, m.event)
  }

  /** All of `ps` are the packet at the head of the queue. */
  predicate AllHead(h: Host, ps: seq<Packet>) {
    ps != [] ==> h.segments != [] && forall i :: 0 <= i < |ps| ==> ps[i] == h.segments[0].packet
  }

  predicate AllIn(ps: seq<Packet>, net: set<Packet>) {
    forall i :: 0 <= i < |ps| ==> ps[i] in net
  }

  /** The head of the queue is still there. */
  predicate SameHead(h: Host, h': Host) {
    h.segments != [] ==> h'.segments != [] && h'.segments[0].packet == h.segments[0].packet
  }

  /** The timer sends exactly the packet at the head of the queue again, or nothing. */
  lemma TimerSendsAgain(h: Host, c: TimerClock)
    requires h.bbr.Shaped() && QueueOk(h)
    ensures TimerResends(h, Ticking(c)) ==> MaybeSendFin(h, c.fin).host.segments != []
    ensures SentAgain(h, Ticking(c)) ==
            if TimerResends(h, Ticking(c)) then [MaybeSendFin(h, c.fin).host.segments[0].packet] else []
    ensures TimerResends(h, Ticking(c)) <==>
            h.alive && !Finished(h) && MaybeSendFin(h, c.fin).host.segments != []
            && Timer(h, c).sent
               == MaybeSendFin(h, c.fin).sent + [MaybeSendFin(h, c.fin).host.segments[0].packet]
  {
    var o := MaybeSendFin(h, c.fin);
    SendFinFrame(h, c.fin);
    SendFinSent(h, c.fin);
    hide MaybeSendFin, Finished, QueueOk;
    assert [] + o.sent == o.sent;
    assert |o.sent| == 1 ==> (o.sent + [o.sent[0]])[1..] == [o.sent[0]];
  }

  /** A FIN that the timer queues is queued alone and sent once. */
  lemma SendFinSent(h: Host, now: int)
    requires QueueOk(h)
    ensures var o := MaybeSendFin(h, now);
            if |o.host.segments| > |h.segments|
            then h.segments == [] && |o.host.segments| == 1 && o.sent == [o.host.segments[0].packet]
            else o.host.segments == h.segments && o.sent == []
  {
  }

  /** What a callback does to the head of the queue. */
  lemma ActHead(h: Host, e: Callback)
    requires h.bbr.Shaped() && QueueOk(h)
    ensures var h' := Act(h, e).host;
            && (|h'.segments| >= |h.segments| ==> SameHead(h, h'))
            && AllHead(h', SentAgain(h, e))
            && (|h'.segments| < |h.segments| <==> AckMoves(h, e) && h.segments != [])
  {
    hide AllHead;
    NothingAgain(Act(h, e).host);
    match e
    case Reading(t0, t1, input) => ReadHead(h, t0, t1, input);
    case Ticking(c) => TimerHead(h, c);
    case Draining(ws) => DrainKeeps(h, ws);
    case Receiving(p, now, w) =>
      if h.alive && !Ignored(h, p) {
        var d := ReceiveIsAck(h, p, now, w);
        hide Receive, QueueOk;
        AckHead(d, p, now);
      }
  }

  lemma NothingAgain(h: Host)
    ensures AllHead(h, [])
  {
  }

  lemma ReadHead(h: Host, t0: int, t1: int, input: InputResult)
    ensures h.segments <= Read(h, t0, t1, input).host.segments
  {
    hide B.CwndFull, B.NextSendTime;
  }

  lemma TimerHead(h: Host, c: TimerClock)
    requires h.bbr.Shaped() && QueueOk(h)
    ensures var h' := Timer(h, c).host;
            && |h'.segments| >= |h.segments|
            && SameHead(h, h') && AllHead(h', SentAgain(h, Ticking(c)))
  {
    TimerSendsAgain(h, c);
    SendFinSent(h, c.fin);
    hide MaybeSendFin, Finished, QueueOk, SentAgain;
  }

  lemma AckHead(h: Host, p: Packet, now: int)
    requires h.bbr.Shaped()
    ensures var h' := ReceiveAck(h, p, now).host;
            && (|h'.segments| >= |h.segments| ==> h'.segments == h.segments)
            && (|h'.segments| < |h.segments| <==>
                  p.ack && h.segments != [] && (AcksFin(h, p) || Expected(h.segments[0]) <= p.ackno))
  {
    hide B.OnAck;
    if p.ack && !AcksFin(h, p) && h.segments != [] {
      hide AcksFin;
      assert Acked(h, p.window, now).segments == h.segments[1..];
      assert Passed(h).segments == h.segments[1..];
      hide Acked, Passed;
    }
  }

  lemma ActResends(h: Host, e: Callback)
    requires h.bbr.Shaped() && QueueOk(h)
    ensures Act(h, e).host.retransCount
         == if AckMoves(h, e) then 0 else if TimerResends(h, e) then h.retransCount + 1 else h.retransCount
  {
    match e
    case Reading(t0, t1, input) => ReadCount(h, t0, t1, input);
    case Ticking(c) => TimerCount(h, c);
    case Draining(ws) => DrainCount(h, ws);
    case Receiving(p, now, w) => ReceiveCount(h, p, now, w);
  }

  lemma ReadCount(h: Host, t0: int, t1: int, input: InputResult)
    ensures Read(h, t0, t1, input).host.retransCount == h.retransCount
  {
  }

  lemma DrainCount(h: Host, ws: seq<WriteResult>)
    ensures DrainOutput(h, ws).retransCount == h.retransCount
  {
    hide Output, Drain;
  }

  lemma TimerCount(h: Host, c: TimerClock)
    ensures Timer(h, c).host.retransCount == h.retransCount + if TimerResends(h, Ticking(c)) then 1 else 0
  {
    SendFinFrame(h, c.fin);
    hide MaybeSendFin, Finished;
  }

  lemma ReceiveCount(h: Host, p: Packet, now: int, w: WriteResult)
    requires h.bbr.Shaped()
    ensures Receive(h, p, now, w).host.retransCount
         == if AckMoves(h, Receiving(p, now, w)) then 0 else h.retransCount
  {
    if h.alive && !Ignored(h, p) {
      var d := ReceiveIsAck(h, p, now, w);
      hide Receive;
      AckCount(d, p, now);
    }
  }

  lemma AckCount(h: Host, p: Packet, now: int)
    requires h.bbr.Shaped()
    ensures ReceiveAck(h, p, now).host.retransCount
         == if p.ack && (AcksFin(h, p) || (h.segments != [] && Expected(h.segments[0]) <= p.ackno))
            then 0 else h.retransCount
  {
    hide B.OnAck;
    if p.ack && !AcksFin(h, p) && h.segments != [] {
      hide AcksFin;
      if Expected(h.segments[0]) == p.ackno {
        assert Acked(h, p.window, now).retransCount == 0;
      } else if Expected(h.segments[0]) < p.ackno {
        assert Passed(h).retransCount == 0;
      }
      hide Acked, Passed;
    }
  }

  /** `retrans_count` is the number of packets that the timer put on the wire again since the queue last became
      shorter. They all are the packet that is still at its head, and there are at most six of them. */
  lemma {:induction false} ResendsCounted(c: Config, moves: seq<Move>)
    ensures var s := Run(c, moves);
            && s.left.retransCount == |Repeats(c, moves)| <= 6
            && AllHead(s.left, Repeats(c, moves)) && AllIn(Repeats(c, moves), s.fromLeft)
  {
    if moves == [] {
    } else {
      var front, m := moves[..|moves| - 1], moves[|moves| - 1];
      ResendsCounted(c, front);
      RunKeepsInv(c, front);
      var s := Run(c, front);
      hide QueueOk, Link, PacketsOk, Act, AckMoves, SentAgain, TimerResends, AllHead, AllIn, SameHead;
      if ActsLeft(s, m) {
        var h, h', again := s.left, Act(s.left, m.event).host, SentAgain(s.left, m.event);
        ActResends(h, m.event);
        ActHead(h, m.event);
        ActSendsAgain(h, m.event);
        if |h'.segments| >= |h.segments| {
          MoreHeads(h, h', Repeats(c, front), again);
          MoreSent(Repeats(c, front), again, s.fromLeft, Act(h, m.event).sent);
        } else {
          NothingAgain(h');
          MoreSent([], [], s.fromLeft, Act(h, m.event).sent);
        }
        NoCountWithoutHead(h, Repeats(c, front));
      } else {
        SentStaysIn(s, m, Repeats(c, front));
      }
    }
  }

  lemma NoCountWithoutHead(h: Host, ps: seq<Packet>)
    requires AllHead(h, ps)
    ensures h.segments == [] ==> ps == []
  {
  }

  lemma MoreHeads(h: Host, h': Host, ps: seq<Packet>, qs: seq<Packet>)
    requires AllHead(h, ps) && SameHead(h, h') && AllHead(h', qs)
    ensures AllHead(h', ps + qs)
  {
    forall i | 0 <= i < |ps + qs|
      ensures h'.segments != [] && (ps + qs)[i] == h'.segments[0].packet
    {
      if i < |ps| {
        assert (ps + qs)[i] == ps[i];
      } else {
        assert (ps + qs)[i] == qs[i - |ps|];
      }
    }
  }

  lemma MoreSent(ps: seq<Packet>, qs: seq<Packet>, net: set<Packet>, sent: seq<Packet>)
    requires ps == [] || AllIn(ps, net)
    requires forall i :: 0 <= i < |qs| ==> qs[i] in sent
    ensures AllIn(ps + qs, net + set p | p in sent)
  {
    forall i | 0 <= i < |ps + qs|
      ensures (ps + qs)[i] in net + set p | p in sent
    {
      if i < |ps| {
        assert (ps + qs)[i] == ps[i];
      } else {
        assert (ps + qs)[i] == qs[i - |ps|];
      }
    }
  }

  lemma SentStaysIn(s: Sys, m: Move, ps: seq<Packet>)
    requires Shaped(s) && AllIn(ps, s.fromLeft) && !ActsLeft(s, m)
    ensures AllIn(ps, Step(s, m).fromLeft)
  {
    hide Act;
  }

  lemma ActSendsAgain(h: Host, e: Callback)
    requires h.bbr.Shaped() && QueueOk(h)
    ensures |SentAgain(h, e)| == if TimerResends(h, e) then 1 else 0
    ensures AckMoves(h, e) ==> !TimerResends(h, e)
    ensures forall i :: 0 <= i < |SentAgain(h, e)| ==> SentAgain(h, e)[i] in Act(h, e).sent
  {
    hide QueueOk, Timer;
    if e.Ticking? {
      TimerSendsAgain(h, e.clock);
    }
  }

  /** The timer gives a connection up only after it sent one and the same packet again six times, one more than
      the five that the assignment and lab4/ctcp/ctcp.h ask for. */
  lemma {:induction false} GivesUpAfterSix(c: Config, moves: seq<Move>, clock: TimerClock)
    requires var h := Run(c, moves).left; h.alive && !Finished(h) && !Timer(h, clock).host.alive
    ensures var s := Run(c, moves);
            && s.left.segments != []
            && Repeats(c, moves) == seq(6, _ => s.left.segments[0].packet)
            && s.left.segments[0].packet in s.fromLeft
  {
    ResendsCounted(c, moves);
    RunKeepsInv(c, moves);
    TeardownCases(Run(c, moves).left, clock);
    hide Timer, Run, QueueOk, Link, PacketsOk, Repeats;
    assert |Repeats(c, moves)| == 6;
    assert Repeats(c, moves)[0] in Run(c, moves).fromLeft;
  }

  // ---------------------------------------------------------------------------------------------
  // When the timer sends again
  // ---------------------------------------------------------------------------------------------

  /** The time-out clock and its length are untouched. */
  predicate SameTimeout(h: Host, h': Host) {
    h'.lastTimeout == h.lastTimeout && h'.rtTimeout == h.rtTimeout
  }

  lemma ReceiveDataTimeout(h: Host, p: Packet, w: WriteResult)
    ensures SameTimeout(h, ReceiveData(h, p, w).host)
  {
    hide Output, BufSpace, AckPacket;
  }

  lemma ReceiveAckTimeout(h: Host, p: Packet, now: int)
    requires h.bbr.Shaped()
    ensures SameTimeout(h, ReceiveAck(h, p, now).host)
  {
    hide B.OnAck;
    if p.ack && !AcksFin(h, p) && h.segments != [] {
      hide AcksFin;
      assert SameTimeout(h, Acked(h, p.window, now));
      assert SameTimeout(h, Passed(h));
      hide Acked, Passed, SameTimeout;
    }
  }

  lemma ReceiveFinTimeout(h: Host, p: Packet)
    ensures SameTimeout(h, ReceiveFin(h, p).host)
  {
    hide Output, AckPacket;
  }

  lemma ReceiveTimeout(h: Host, p: Packet, now: int, w: WriteResult)
    requires h.bbr.Shaped()
    ensures SameTimeout(h, Receive(h, p, now, w).host)
  {
    hide ReceiveData, ReceiveAck, ReceiveFin;
    if h.alive && !Ignored(h, p) {
      ReceiveDataTimeout(h, p, w);
      var d := ReceiveData(h, p, w).host;
      ReceiveAckTimeout(d, p, now);
      ReceiveFinTimeout(ReceiveAck(d, p, now).host, p);
    }
  }

  lemma TimerTimeout(h: Host, c: TimerClock)
    ensures var h' := Timer(h, c).host;
            && h'.rtTimeout == h.rtTimeout
            && h'.lastTimeout == if TimerResends(h, Ticking(c)) then c.store else h.lastTimeout
  {
    SendFinFrame(h, c.fin);
    hide MaybeSendFin, Finished;
  }

  /** Only a tick that sends again sets the time-out clock. */
  lemma ActTimeout(h: Host, e: Callback)
    requires h.bbr.Shaped()
    ensures var h' := Act(h, e).host;
            && h'.rtTimeout == h.rtTimeout
            && h'.lastTimeout == if TimerResends(h, e) then e.clock.store else h.lastTimeout
  {
    match e
    case Reading(t0, t1, input) => ReadTimeout(h, t0, t1, input);
    case Ticking(c) => TimerTimeout(h, c);
    case Draining(ws) => DrainTimeout(h, ws);
    case Receiving(p, now, w) => ReceiveTimeout(h, p, now, w);
  }

  lemma ReadTimeout(h: Host, t0: int, t1: int, input: InputResult)
    ensures SameTimeout(h, Read(h, t0, t1, input).host)
  {
    hide B.CwndFull, B.NextSendTime;
  }

  lemma DrainTimeout(h: Host, ws: seq<WriteResult>)
    ensures SameTimeout(h, DrainOutput(h, ws))
  {
    hide Output, Drain, Queued;
  }

  /** When the timer of the left end last sent a segment again, or else when the connection was set up. */
  function LastResend(c: Config, moves: seq<Move>): int {
    if moves == [] then c.leftStart
    else
      var front, m := moves[..|moves| - 1], moves[|moves| - 1];
      var s := Run(c, front);
      if ActsLeft(s, m) && TimerResends(s.left, m.event) then m.event.clock.store else LastResend(c, front)
  }

  /** The clock against which the time-out runs is not that of the segment's last transmission. */
  lemma {:induction false} TimeoutSinceLastResend(c: Config, moves: seq<Move>)
    ensures var s := Run(c, moves);
            s.left.lastTimeout == LastResend(c, moves) <= s.leftClock && s.left.rtTimeout == c.leftTimeout
  {
    if moves == [] {
    } else {
      var front, m := moves[..|moves| - 1], moves[|moves| - 1];
      TimeoutSinceLastResend(c, front);
      var s := Run(c, front);
      hide Act, TimerResends;
      if ActsLeft(s, m) {
        ActTimeout(s.left, m.event);
        if TimerResends(s.left, m.event) {
          ResendsTicking(s.left, m.event);
        }
      }
    }
  }

  lemma ResendsTicking(h: Host, e: Callback)
    requires TimerResends(h, e)
    ensures e.Ticking? && e.clock.check - h.lastTimeout > h.rtTimeout
  {
  }

  /** The last time never goes back. */
  lemma {:induction false} LastResendGrows(c: Config, moves: seq<Move>, i: nat)
    requires i <= |moves|
    ensures LastResend(c, moves[..i]) <= LastResend(c, moves)
    decreases |moves|
  {
    if i == |moves| {
      assert moves[..i] == moves;
    } else {
      var front, m := moves[..|moves| - 1], moves[|moves| - 1];
      LastResendGrows(c, front, i);
      assert front[..i] == moves[..i];
      TimeoutSinceLastResend(c, front);
      var s := Run(c, front);
      hide TimerResends, Run;
      if ActsLeft(s, m) && TimerResends(s.left, m.event) {
        ResendsTicking(s.left, m.event);
      }
    }
  }

  lemma SentAgainResends(c: Config, moves: seq<Move>, e: Callback)
    requires SentAgain(Run(c, moves).left, e) != []
    ensures var h := Run(c, moves).left; TimerResends(h, e) && e.Ticking? && e.clock.check - h.lastTimeout > h.rtTimeout
  {
    hide Run, SentAgain, TimerResends, QueueOk, Link, PacketsOk;
    RunKeepsInv(c, moves);
    ActSendsAgain(Run(c, moves).left, e);
    ResendsTicking(Run(c, moves).left, e);
  }

  /** A segment that was last sent at `t` is sent again too early, within the time-out that lab4/ctcp/ctcp.h asks
      for, exactly if the tick comes after the time-out of the last resend and not after that of `t`. */
  lemma {:induction false} ResendsTooEarly(c: Config, moves: seq<Move>, clock: TimerClock, t: int)
    requires var h := Run(c, moves).left;
             && h.alive && !Finished(h) && h.retransCount <= RETRANSMIT_LIMIT
             && MaybeSendFin(h, clock.fin).host.segments != []
    ensures SentAgain(Run(c, moves).left, Ticking(clock)) != [] && clock.check - t <= c.leftTimeout
       <==> LastResend(c, moves) + c.leftTimeout < clock.check <= t + c.leftTimeout
  {
    hide Run, SentAgain, QueueOk, Link, PacketsOk, MaybeSendFin, Finished, LastResend;
    RunKeepsInv(c, moves);
    TimeoutSinceLastResend(c, moves);
    ActSendsAgain(Run(c, moves).left, Ticking(clock));
  }

  /** Two times at which the timer sends a segment again are more than the time-out apart. */
  lemma ResendsAreSpaced(c: Config, moves: seq<Move>, i: nat, j: nat)
    requires i < j < |moves|
    requires ActsLeft(Run(c, moves[..i]), moves[i]) && SentAgain(Run(c, moves[..i]).left, moves[i].event) != []
    requires ActsLeft(Run(c, moves[..j]), moves[j]) && SentAgain(Run(c, moves[..j]).left, moves[j].event) != []
    ensures moves[i].event.Ticking? && moves[j].event.Ticking?
    ensures moves[j].event.clock.check - moves[i].event.clock.store > c.leftTimeout
  {
    hide TimerResends, Run, SentAgain;
    SentAgainResends(c, moves[..i], moves[i].event);
    SentAgainResends(c, moves[..j], moves[j].event);
    TimeoutSinceLastResend(c, moves[..j]);
    assert moves[..j][..i + 1] == moves[..i + 1];
    assert moves[..i + 1][..i] == moves[..i];
    LastResendGrows(c, moves[..j], i + 1);
  }

  // ---------------------------------------------------------------------------------------------
  // Congestion control
  // ---------------------------------------------------------------------------------------------

  /** The first segment leaves the queue; an acknowledgement of exactly this segment is also sampled. */
  function AckEvents(front: Segment, ackno: nat, now: int): seq<BbrRuns.Event> {
    var size := |front.packet.data|;
    [BbrRuns.Adjust(-size)] +
    if Expected(front) == ackno then [BbrRuns.Ack(size, front.delivered, front.deliveredTime, now)] else []
  }

  function AckedBbr(b: B.Bbr, front: Segment, ackno: nat, now: int): B.Bbr
    requires b.Shaped()
  {
    var size := |front.packet.data|;
    var less := b.(inflight := b.inflight - size);
    if Expected(front) == ackno then B.OnAck(less, size, front.delivered, front.deliveredTime, now) else less
  }

  /** What a callback does to the congestion control block. */
  function BbrEvents(h: Host, e: Callback): seq<BbrRuns.Event> {
    match e
    case Reading(t0, t1, input) =>
      if WantsInput(h, t0) && input.Data? then [BbrRuns.Send(|input.bytes|, t1)] else []
    case Receiving(p, now, _) =>
      if AckMoves(h, e) && !AcksFin(h, p) then AckEvents(h.segments[0], p.ackno, now) else []
    case Ticking(c) =>
      if TimerResends(h, e)
      then [BbrRuns.Adjust(HEADER_SIZE + |MaybeSendFin(h, c.fin).host.segments[0].packet.data|)] else []
    case Draining(_) => []
  }

  lemma {:induction false} RunOne(b: B.Bbr, e: BbrRuns.Event)
    requires b.Shaped()
    ensures BbrRuns.Run(b, [e]) == BbrRuns.Apply(b, e)
  {
    assert [e][..0] == [];
    assert BbrRuns.Run(b, []) == b;
  }

  lemma {:induction false} RunTwo(b: B.Bbr, e: BbrRuns.Event, f: BbrRuns.Event)
    requires b.Shaped()
    ensures BbrRuns.Run(b, [e] + [f]) == BbrRuns.Apply(BbrRuns.Apply(b, e), f)
  {
    hide BbrRuns.Apply;
    assert ([e] + [f])[..1] == [e];
    RunOne(b, e);
  }

  lemma {:induction false} RunAppend(b: B.Bbr, es: seq<BbrRuns.Event>, fs: seq<BbrRuns.Event>)
    requires b.Shaped()
    ensures BbrRuns.Run(b, es + fs) == BbrRuns.Run(BbrRuns.Run(b, es), fs)
  {
    hide BbrRuns.Apply;
    if fs == [] {
      assert es + fs == es;
    } else {
      RunAppend(b, es, fs[..|fs| - 1]);
      assert (es + fs)[..|es + fs| - 1] == es + fs[..|fs| - 1];
    }
  }

  lemma ReadBbr(h: Host, t0: int, t1: int, input: InputResult)
    requires h.bbr.Shaped() && t0 <= t1
    ensures var es := BbrEvents(h, Reading(t0, t1, input));
            Read(h, t0, t1, input).host.bbr == BbrRuns.Run(h.bbr, es)
  {
    hide B.CwndFull;
    if WantsInput(h, t0) && input.Data? {
      RunOne(h.bbr, BbrRuns.Send(|input.bytes|, t1));
    }
  }

  lemma TimerBbr(h: Host, c: TimerClock)
    requires h.bbr.Shaped()
    ensures Timer(h, c).host.bbr == BbrRuns.Run(h.bbr, BbrEvents(h, Ticking(c)))
  {
    var h1 := MaybeSendFin(h, c.fin).host;
    SendFinFrame(h, c.fin);
    hide MaybeSendFin, Finished;
    if TimerResends(h, Ticking(c)) {
      RunOne(h.bbr, BbrRuns.Adjust(HEADER_SIZE + |h1.segments[0].packet.data|));
    }
  }

  lemma {:induction false} AckEventsRun(b: B.Bbr, front: Segment, ackno: nat, now: int)
    requires b.Shaped()
    ensures BbrRuns.Run(b, AckEvents(front, ackno, now)) == AckedBbr(b, front, ackno, now)
  {
    hide B.OnAck, BbrRuns.Run;
    var size := |front.packet.data|;
    var adjust := BbrRuns.Adjust(-size);
    if Expected(front) == ackno {
      RunTwo(b, adjust, BbrRuns.Ack(size, front.delivered, front.deliveredTime, now));
    } else {
      assert [adjust] + [] == [adjust];
      RunOne(b, adjust);
    }
  }

  lemma AckBbr(h: Host, p: Packet, now: int)
    requires h.bbr.Shaped()
    ensures ReceiveAck(h, p, now).host.bbr
         == if p.ack && !AcksFin(h, p) && h.segments != [] && Expected(h.segments[0]) <= p.ackno
            then AckedBbr(h.bbr, h.segments[0], p.ackno, now) else h.bbr
  {
    hide B.OnAck;
  }

  lemma ReceiveBbr(h: Host, p: Packet, now: int, w: WriteResult)
    requires h.bbr.Shaped()
    ensures Receive(h, p, now, w).host.bbr == BbrRuns.Run(h.bbr, BbrEvents(h, Receiving(p, now, w)))
  {
    hide B.OnAck, BbrRuns.Run, AckEvents, AckedBbr;
    RunNone(h.bbr);
    if h.alive && !Ignored(h, p) {
      var d := ReceiveIsAck(h, p, now, w);
      hide Receive;
      AckBbr(d, p, now);
      hide ReceiveAck;
      if AckMoves(h, Receiving(p, now, w)) && !AcksFin(h, p) {
        AckEventsRun(h.bbr, h.segments[0], p.ackno, now);
      }
    }
  }

  lemma {:induction false} RunNone(b: B.Bbr)
    requires b.Shaped()
    ensures BbrRuns.Run(b, []) == b
  {
  }

  /** Every callback changes the congestion control block by a run of its own operations. */
  lemma ActBbr(h: Host, e: Callback)
    requires h.bbr.Shaped() && (e.Reading? ==> e.t0 <= e.t1)
    ensures Act(h, e).host.bbr == BbrRuns.Run(h.bbr, BbrEvents(h, e))
  {
    hide BbrRuns.Run;
    match e
    case Reading(t0, t1, input) => ReadBbr(h, t0, t1, input);
    case Ticking(c) => TimerBbr(h, c);
    case Receiving(p, now, w) => ReceiveBbr(h, p, now, w);
    case Draining(ws) => RunNone(h.bbr);
  }

  /** The operations on the left end's block during a stretch of a run that starts in `s`. */
  function History(s: Sys, moves: seq<Move>): seq<BbrRuns.Event>
    requires Shaped(s)
  {
    if moves == [] then []
    else
      var front, m := moves[..|moves| - 1], moves[|moves| - 1];
      var s' := RunFrom(s, front);
      History(s, front) + if ActsLeft(s', m) then BbrEvents(s'.left, m.event) else []
  }

  lemma {:induction false} HistoryIsRun(s: Sys, moves: seq<Move>)
    requires Shaped(s)
    ensures RunFrom(s, moves).left.bbr == BbrRuns.Run(s.left.bbr, History(s, moves))
  {
    if moves == [] {
    } else {
      var front, m := moves[..|moves| - 1], moves[|moves| - 1];
      HistoryIsRun(s, front);
      var s' := RunFrom(s, front);
      hide BbrRuns.Run, Act, BbrEvents;
      if ActsLeft(s', m) {
        ActBbr(s'.left, m.event);
        RunAppend(s.left.bbr, History(s, front), BbrEvents(s'.left, m.event));
      } else {
        assert History(s, front) + [] == History(s, front);
      }
    }
  }

  /** What `bbr_send` puts on the wire is exactly what the pacing log records. */
  lemma DepartureIsPacket(h: Host, t0: int, t1: int, bytes: seq<byte>)
    requires h.bbr.Shaped() && t0 <= t1
    ensures var sent := Read(h, t0, t1, Data(bytes)).sent;
            var log := BbrRuns.Departures(h.bbr, BbrEvents(h, Reading(t0, t1, Data(bytes))));
            |sent| == |log| <= 1 && (log != [] ==> |sent[0].data| == log[0].bytes && log[0].time == t1)
  {
    hide B.CwndFull, B.NextSendTime;
    if WantsInput(h, t0) {
      var es := [BbrRuns.Send(|bytes|, t1)];
      assert es[..0] == [];
      assert BbrRuns.Departures(h.bbr, es[..0]) == [];
      RunNone(h.bbr);
    }
  }

  /** Pacing of an end: in any stretch of a run during which the pacing rate at each departure but the last is
      positive and at most `bound`, the bytes of all departures but the last are fewer than `bound` times the
      time between the first and the last. */
  lemma {:induction false} EndpointPacing(s: Sys, moves: seq<Move>, bound: real)
    requires Shaped(s)
    requires var log := BbrRuns.Departures(s.left.bbr, History(s, moves));
             |log| >= 2 && forall i :: 0 <= i < |log| - 1 ==> BbrRuns.PositiveAtMost(log[i].rate, bound)
    ensures BbrRuns.WithinRate(BbrRuns.Departures(s.left.bbr, History(s, moves)), bound)
  {
    hide History, BbrRuns.Departures, BbrRuns.WithinRate, BbrRuns.PositiveAtMost;
    HistorySends(s, moves);
    DeparturesNonNegative(s.left.bbr, History(s, moves));
    assert BbrRuns.PacedBy(BbrRuns.Departures(s.left.bbr, History(s, moves)), bound);
    BbrRuns.PacingBound(s.left.bbr, History(s, moves), bound);
  }

  predicate SendsNonNegative(es: seq<BbrRuns.Event>) {
    forall i :: 0 <= i < |es| && es[i].Send? ==> 0 <= es[i].bytes
  }

  lemma {:induction false} HistorySends(s: Sys, moves: seq<Move>)
    requires Shaped(s)
    ensures SendsNonNegative(History(s, moves))
  {
    if moves == [] {
    } else {
      HistorySends(s, moves[..|moves| - 1]);
      hide RunFrom;
    }
  }

  lemma {:induction false} DeparturesNonNegative(b: B.Bbr, es: seq<BbrRuns.Event>)
    requires b.Shaped() && SendsNonNegative(es)
    ensures forall d :: d in BbrRuns.Departures(b, es) ==> 0 <= d.bytes
  {
    if es == [] {
    } else {
      hide BbrRuns.SendsNow, BbrRuns.Run, B.PacingRate;
      DeparturesNonNegative(b, es[..|es| - 1]);
    }
  }
}
