/** What becomes of an end's FIN, over every run of the two ends. The statements speak of the left end;
    `CtcpTheorems.FlippedRun` carries them to the right. */
module CtcpFin {
  import opened Bytes
  import opened OutputQueue
  import opened CtcpHost
  import opened CtcpNetwork
  import opened CtcpInvariant
  import B = BbrModel

  /** While the FIN waits in the queue, a segment that is not ignored acknowledges up to `ackno`. */
  predicate BringsAck(h: Host, e: Callback, ackno: nat) {
    match e
    case Receiving(p, _, _) =>
      h.alive && !Ignored(h, p) && h.finSent && h.segments != [] && p.ack && p.ackno == ackno
    case _ => false
  }

  /** The acknowledgement of the last data byte comes once more: it is taken for that of the FIN, which
      carries the same sequence number and no bytes. */
  predicate Forgets(h: Host, e: Callback) {
    BringsAck(h, e, h.seqno)
  }

  /** The acknowledgement counts the FIN. */
  predicate Acknowledges(h: Host, e: Callback) {
    BringsAck(h, e, h.seqno + 1)
  }

  /** Some callback of the left end forgot the FIN. */
  predicate Forgotten(c: Config, moves: seq<Move>) {
    moves != [] &&
    var front, m := moves[..|moves| - 1], moves[|moves| - 1];
    var s := Run(c, front);
    Forgotten(c, front) || (ActsLeft(s, m) && Forgets(s.left, m.event))
  }

  /** Some callback of the left end took the acknowledgement of the FIN. */
  predicate Acknowledged(c: Config, moves: seq<Move>) {
    moves != [] &&
    var front, m := moves[..|moves| - 1], moves[|moves| - 1];
    var s := Run(c, front);
    Acknowledged(c, front) || (ActsLeft(s, m) && Acknowledges(s.left, m.event))
  }

  /** The FIN was sent and is not waiting any more. */
  predicate FinGone(h: Host) {
    h.finSent && h.segments == []
  }

  lemma ReadFin(h: Host, t0: int, t1: int, input: InputResult)
    requires QueueOk(h)
    ensures FinGone(Read(h, t0, t1, input).host) <==> FinGone(h)
  {
  }

  lemma TimerFin(h: Host, c: TimerClock)
    ensures FinGone(Timer(h, c).host) <==> FinGone(h)
  {
    hide Finished;
  }

  /** The queue of an end that sent its FIN: empty, or the FIN, which takes no number there. */
  predicate OnlyFin(h: Host) {
    h.finSent ==> |h.segments| <= 1 && forall i :: 0 <= i < |h.segments| ==> Expected(h.segments[i]) == h.seqno
  }

  lemma QueueOnlyFin(h: Host)
    requires QueueOk(h)
    ensures OnlyFin(h)
  {
  }

  /** Nothing but the numbers `seqno` and `seqno + 1` can remove the FIN. */
  lemma AckFin(h: Host, p: Packet, now: int)
    requires h.bbr.Shaped() && OnlyFin(h) && (h.finSent ==> p.ackno <= h.seqno + 1)
    ensures FinGone(ReceiveAck(h, p, now).host) <==>
              FinGone(h) || (h.finSent && h.segments != [] && p.ack && (p.ackno == h.seqno || p.ackno == h.seqno + 1))
  {
    hide B.OnAck;
  }

  /** No packet of the peer acknowledges more than the FIN, and none acknowledges the FIN before it was taken. */
  lemma AckBounds(h: Host, r: Host, p: Packet)
    requires QueueOk(h) && Link(h, r) && PacketOk(r, p) && h.finSent
    ensures p.ackno <= h.seqno + 1
    ensures p.ackno == h.seqno + 1 ==> r.allRecvOutput
  {
    hide Accepted, Contiguous;
  }

  lemma ActFin(h: Host, r: Host, incoming: set<Packet>, clock: int, e: Callback)
    requires h.bbr.Shaped() && QueueOk(h) && Link(h, r) && PacketsOk(r, incoming)
    requires Possible(incoming, clock, e)
    ensures FinGone(Act(h, e).host) <==> FinGone(h) || Forgets(h, e) || Acknowledges(h, e)
    ensures Acknowledges(h, e) ==> r.allRecvOutput
  {
    hide Contiguous, Link, PacketOk;
    match e
    case Reading(t0, t1, input) => ReadFin(h, t0, t1, input);
    case Ticking(c) => TimerFin(h, c);
    case Draining(ws) => DrainKeeps(h, ws);
    case Receiving(p, now, w) =>
      if h.alive && !Ignored(h, p) {
        var d := ReceiveIsAck(h, p, now, w);
        QueueOnlyFin(h);
        hide Receive, ReceiveAck, QueueOk;
        if h.finSent {
          AckBounds(h, r, p);
        }
        AckFin(d, p, now);
      }
  }

  /** A receiver that took the FIN has taken it for good. */
  lemma FinStaysTaken(h: Host, r: Host, h': Host, r': Host)
    requires Link(h, r) && Link(h', r') && Grows(h, h') && Grows(r, r')
    requires QueueOk(h) && QueueOk(h') && r.allRecvOutput
    ensures r'.allRecvOutput
  {
    hide Accepted, Contiguous, PacketOk;
  }

  lemma StepGrows(s: Sys, m: Move)
    requires Shaped(s) && Inv(s)
    ensures Grows(s.left, Step(s, m).left) && Grows(s.right, Step(s, m).right)
  {
    hide QueueOk, Link, PacketsOk, Act;
    if Enabled(s, m) {
      match m.side
      case LeftEnd => ActSafe(s.left, s.right, s.fromRight, s.leftClock, m.event);
      case RightEnd => ActSafe(s.right, s.left, s.fromLeft, s.rightClock, m.event);
    }
  }

  /** The FIN leaves the queue by exactly one of two ways, and once it does it is gone for good: its
      acknowledgement, which comes only after the peer took it, or a repeated acknowledgement of the last
      byte. */
  lemma {:induction false} FinLeavesOnce(c: Config, moves: seq<Move>)
    ensures var s := Run(c, moves);
            && (Forgotten(c, moves) || Acknowledged(c, moves) <==> FinGone(s.left))
            && !(Forgotten(c, moves) && Acknowledged(c, moves))
            && (Acknowledged(c, moves) ==> s.right.allRecvOutput)
  {
    if moves == [] {
    } else {
      var front, m := moves[..|moves| - 1], moves[|moves| - 1];
      FinLeavesOnce(c, front);
      RunKeepsInv(c, front);
      var s := Run(c, front);
      StepKeepsInv(s, m);
      StepGrows(s, m);
      hide QueueOk, Link, PacketsOk, Act;
      if s.right.allRecvOutput {
        FinStaysTaken(s.left, s.right, Step(s, m).left, Step(s, m).right);
      }
      if ActsLeft(s, m) {
        ActFin(s.left, s.right, s.fromRight, s.leftClock, m.event);
      }
    }
  }

  /** When the conditions of the teardown hold, the FIN was acknowledged if and only if it was not forgotten. */
  lemma {:induction false} AcknowledgedUnlessForgotten(c: Config, moves: seq<Move>)
    ensures Finished(Run(c, moves).left) ==>
              && (Acknowledged(c, moves) <==> !Forgotten(c, moves))
              && (Acknowledged(c, moves) ==> Run(c, moves).right.allRecvOutput)
  {
    FinLeavesOnce(c, moves);
    RunKeepsInv(c, moves);
    hide Link, PacketsOk, Contiguous, PacketOk, Run;
  }

  /** An end whose FIN has left the queue never sends a FIN again: a FIN that was forgotten and lost stays lost. */
  lemma {:induction false} FinNotSentAgain(c: Config, moves: seq<Move>, e: Callback)
    requires Forgotten(c, moves) || Acknowledged(c, moves)
    ensures var sent := Act(Run(c, moves).left, e).sent;
            forall i :: 0 <= i < |sent| ==> !sent[i].fin
  {
    FinLeavesOnce(c, moves);
    RunKeepsInv(c, moves);
    hide Link, PacketsOk, Contiguous, PacketOk, Run, Forgotten, Acknowledged;
    GoneFinIsSilent(Run(c, moves).left, e);
  }

  lemma GoneFinIsSilent(h: Host, e: Callback)
    requires h.bbr.Shaped() && FinGone(h) && QueueOk(h)
    ensures forall i :: 0 <= i < |Act(h, e).sent| ==> !Act(h, e).sent[i].fin
  {
    hide Contiguous, PacketOk, B.OnAck;
    match e
    case Reading(t0, t1, input) =>
    case Ticking(c) =>
    case Draining(ws) =>
    case Receiving(p, now, w) =>
      if h.alive && !Ignored(h, p) {
        ReceiveDataShape(h, p, w);
        hide ReceiveData;
        var d := ReceiveData(h, p, w);
        var a := ReceiveAck(d.host, p, now);
        assert a.sent == [];
        hide ReceiveAck;
        ReceiveFinShape(a.host, p);
        hide ReceiveFin;
      }
  }

  // ---------------------------------------------------------------------------------------------
  // Where the source reads through a null pointer
  // ---------------------------------------------------------------------------------------------

  /** The source looks for the FIN at the head of an empty queue; `ReceiveAck` guards against it. */
  predicate ReadsNull(h: Host, e: Callback)
    requires h.bbr.Shaped()
  {
    match e
    case Receiving(p, _, w) =>
      h.alive && !Ignored(h, p) && var d := ReceiveData(h, p, w).host; AcksFin(d, p) && d.segments == []
    case _ => false
  }

  /** It does so exactly when the FIN has left the queue, acknowledged or forgotten, and a segment that counts the
      FIN arrives. */
  lemma {:induction false} ReadsNullOnceFinIsGone(c: Config, moves: seq<Move>, e: Callback)
    ensures var h := Run(c, moves).left;
            ReadsNull(h, e) <==>
              && (Forgotten(c, moves) || Acknowledged(c, moves))
              && e.Receiving? && h.alive && !Ignored(h, e.packet) && e.packet.ack && e.packet.ackno == h.seqno + 1
  {
    FinLeavesOnce(c, moves);
    hide Run, Forgotten, Acknowledged, Ignored, ReceiveData;
    if e.Receiving? {
      ReceiveDataOnly(Run(c, moves).left, e.packet, e.w);
    }
  }

  /** From the moment the peer has taken the FIN, every segment of data and every acknowledgement that it sends
      counts the FIN. */
  lemma LaterSegmentsCountFin(c: Config, moves: seq<Move>, data: seq<byte>)
    requires Run(c, moves).right.allRecvOutput
    ensures var s := Run(c, moves);
            && DataPacket(s.right, data).ack && DataPacket(s.right, data).ackno == s.left.seqno + 1
            && AckPacket(s.right).ack && AckPacket(s.right).ackno == s.left.seqno + 1
  {
    RunKeepsInv(c, moves);
    hide Run, Contiguous, PacketOk, PacketsOk, Accepted;
  }
}
