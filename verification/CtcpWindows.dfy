/** The window in force and the windows advertised, over every run of the two ends. The statements speak of the
    left end; `CtcpTheorems.FlippedRun` carries them to the right. */
module CtcpWindows {
  import opened OutputQueue
  import opened CtcpHost
  import opened CtcpNetwork
  import opened CtcpInvariant
  import opened CtcpTheorems
  import opened CtcpCallbacks

  /** The window that the left end has to respect: the configured one, until a segment that it hears acknowledges
      exactly the head of its queue, not as the acknowledgement of its FIN; then the window of the last such
      segment. */
  function WindowInForce(c: Config, moves: seq<Move>): nat {
    if moves == [] then c.leftSend
    else
      var front, m := moves[..|moves| - 1], moves[|moves| - 1];
      var h := Run(c, front).left;
      if m.side == LeftEnd && Enabled(Run(c, front), m) && m.event.Receiving?
         && Heard(h, m.event.packet) && AcksQueue(h, m.event.packet) && m.event.packet.ackno == AfterHead(h)
      then m.event.packet.window
      else WindowInForce(c, front)
  }

  lemma DrainPlainly(h: Host, ws: seq<WriteResult>)
    ensures var h' := DrainOutput(h, ws);
            h' == h.(sink := h'.sink, output := h'.output)
  {
    hide Output, Drain, Queued;
  }

  /** How a callback changes the two windows. */
  lemma ActWindows(h: Host, e: Callback)
    requires h.bbr.Shaped() && (e.Reading? ==> e.t0 <= e.t1)
    ensures var h' := Act(h, e).host;
            && h'.recvWindow == h.recvWindow
            && h'.sendWindow ==
               if e.Receiving? && Heard(h, e.packet) && AcksQueue(h, e.packet) && e.packet.ackno == AfterHead(h)
               then e.packet.window else h.sendWindow
  {
    hide Read, Receive, Timer, DrainOutput, MayRead, Heard, CountsFin;
    match e
    case Reading(t0, t1, input) =>
      if input.Data? {
        ReadPlainly(h, t0, t1, input.bytes);
      } else {
        ReadNothingPlainly(h, t0, t1);
      }
    case Ticking(c) =>
      if h.alive {
        TimerPlainly(h, c);
      } else {
        DeadTimer(h, c);
      }
    case Draining(ws) => DrainPlainly(h, ws);
    case Receiving(p, now, w) => ReceivePlainly(h, p, now, w);
  }

  lemma DeadTimer(h: Host, c: TimerClock)
    requires !h.alive
    ensures Timer(h, c) == Outcome(h, [])
  {
  }

  /** In every run the left end respects exactly the window in force. */
  lemma {:induction false} WindowOverRun(c: Config, moves: seq<Move>)
    ensures var h := Run(c, moves).left;
            h.sendWindow == WindowInForce(c, moves) && h.recvWindow == c.leftWindow
  {
    hide Act, Heard, AcksQueue;
    if moves == [] {
    } else {
      var front, m := moves[..|moves| - 1], moves[|moves| - 1];
      WindowOverRun(c, front);
      var s := Run(c, front);
      if ActsLeft(s, m) {
        ActWindows(s.left, m.event);
      }
    }
  }

  /** If no window in force during a run was above `bound`, the numbers sent and not acknowledged never exceed
      `bound` by a whole segment, however the advertised window moves. */
  lemma {:induction false} WindowOvershoot(c: Config, moves: seq<Move>, bound: nat)
    requires forall k :: 0 <= k <= |moves| ==> WindowInForce(c, moves[..k]) <= bound
    ensures var h := Run(c, moves).left; h.nextSeqno - h.seqno < bound + 1440
  {
    hide Run, WindowInForce;
    forall k | 0 <= k <= |moves|
      ensures Run(c, moves[..k]).left.sendWindow <= bound
    {
      WindowOverRun(c, moves[..k]);
    }
    OvershootOfField(c, moves, bound);
  }

  /** No window that the left end was configured with or received is above `bound`. */
  predicate WindowsAtMost(c: Config, moves: seq<Move>, bound: nat) {
    c.leftSend <= bound
    && forall i :: 0 <= i < |moves| && moves[i].side == LeftEnd && moves[i].event.Receiving? ==>
         moves[i].event.packet.window <= bound
  }

  lemma {:induction false} InForceAtMost(c: Config, moves: seq<Move>, bound: nat)
    requires WindowsAtMost(c, moves, bound)
    ensures WindowInForce(c, moves) <= bound
  {
    if moves != [] {
      InForceAtMost(c, moves[..|moves| - 1], bound);
      hide Run, Heard, AcksQueue, AfterHead;
    }
  }

  /** The same for windows that were received. */
  lemma OvershootOfReceived(c: Config, moves: seq<Move>, bound: nat)
    requires WindowsAtMost(c, moves, bound)
    ensures var h := Run(c, moves).left; h.nextSeqno - h.seqno < bound + 1440
  {
    hide Run, WindowInForce;
    forall k | 0 <= k <= |moves|
      ensures WindowInForce(c, moves[..k]) <= bound
    {
      InForceAtMost(c, moves[..k], bound);
    }
    WindowOvershoot(c, moves, bound);
  }

  // ---------------------------------------------------------------------------------------------
  // What segments say
  // ---------------------------------------------------------------------------------------------

  /** All windows that were in force at the left end. */
  function WindowsSoFar(c: Config, moves: seq<Move>): set<nat> {
    {WindowInForce(c, moves)} + if moves == [] then {} else WindowsSoFar(c, moves[..|moves| - 1])
  }

  /** Data carries an acknowledgement and a window that was in force; everything else advertises the receive window,
      and carries an acknowledgement exactly if it is not a FIN. */
  predicate Marked(p: Packet, receive: nat, windows: set<nat>) {
    p.ack == !p.fin && if p.data != [] then p.ack && p.window in windows else p.window == receive
  }

  predicate AllMarked(ps: seq<Packet>, receive: nat, windows: set<nat>) {
    forall i :: 0 <= i < |ps| ==> Marked(ps[i], receive, windows)
  }

  predicate QueueMarked(segs: seq<Segment>, receive: nat, windows: set<nat>) {
    forall i :: 0 <= i < |segs| ==> Marked(segs[i].packet, receive, windows)
  }

  /** What a callback sends and queues is marked. */
  predicate OutcomeMarked(o: Outcome, receive: nat, windows: set<nat>) {
    AllMarked(o.sent, receive, windows) && QueueMarked(o.host.segments, receive, windows)
  }

  lemma ReadMarked(h: Host, t0: int, t1: int, input: InputResult, windows: set<nat>)
    requires t0 <= t1 && (input.Data? ==> input.bytes != [])
    requires QueueMarked(h.segments, h.recvWindow, windows) && h.sendWindow in windows
    ensures OutcomeMarked(Read(h, t0, t1, input), h.recvWindow, windows)
  {
    hide Read, MayRead;
    if input.Data? {
      ReadPlainly(h, t0, t1, input.bytes);
    } else {
      ReadNothingPlainly(h, t0, t1);
    }
  }

  lemma TimerMarked(h: Host, c: TimerClock, windows: set<nat>)
    requires QueueMarked(h.segments, h.recvWindow, windows)
    ensures OutcomeMarked(Timer(h, c), h.recvWindow, windows)
  {
    hide Timer, SendsFin;
    if h.alive {
      TimerPlainly(h, c);
    } else {
      DeadTimer(h, c);
    }
  }

  lemma ReceiveMarked(h: Host, p: Packet, now: int, w: WriteResult, windows: set<nat>)
    requires h.bbr.Shaped() && QueueMarked(h.segments, h.recvWindow, windows)
    ensures OutcomeMarked(Receive(h, p, now, w), h.recvWindow, windows)
  {
    hide Receive, Heard, HeadLeaves, AcksQueue, TakesFin, NextAckno, SeqnoAfter, WindowAfter;
    ReceivePlainly(h, p, now, w);
    AgainMarked(h, p, windows);
    hide Again, SegmentsAfter;
  }

  lemma AgainMarked(h: Host, p: Packet, windows: set<nat>)
    requires QueueMarked(h.segments, h.recvWindow, windows)
    ensures AllMarked(Again(h, p), h.recvWindow, windows) && QueueMarked(SegmentsAfter(h, p), h.recvWindow, windows)
  {
  }

  lemma ActMarked(h: Host, e: Callback, windows: set<nat>)
    requires h.bbr.Shaped() && (e.Reading? ==> e.t0 <= e.t1 && (e.input.Data? ==> e.input.bytes != []))
    requires QueueMarked(h.segments, h.recvWindow, windows) && h.sendWindow in windows
    ensures OutcomeMarked(Act(h, e), h.recvWindow, windows)
  {
    match e
    case Reading(t0, t1, input) => ReadMarked(h, t0, t1, input, windows);
    case Ticking(c) => TimerMarked(h, c, windows);
    case Draining(ws) => DrainPlainly(h, ws);
    case Receiving(p, now, w) => ReceiveMarked(h, p, now, w, windows);
  }

  lemma MoreWindows(ps: seq<Packet>, segs: seq<Segment>, net: set<Packet>, receive: nat, windows: set<nat>,
                    more: set<nat>)
    requires windows <= more && AllMarked(ps, receive, windows) && QueueMarked(segs, receive, windows)
    requires forall p :: p in net ==> Marked(p, receive, windows)
    ensures QueueMarked(segs, receive, more)
    ensures forall p :: p in net + (set q | q in ps) ==> Marked(p, receive, more)
  {
  }

  /** Every segment that the left end ever sent or has queued is marked so. */
  lemma {:induction false} SegmentsMarked(c: Config, moves: seq<Move>)
    ensures var s, windows := Run(c, moves), WindowsSoFar(c, moves);
            && QueueMarked(s.left.segments, c.leftWindow, windows)
            && forall p :: p in s.fromLeft ==> Marked(p, c.leftWindow, windows)
  {
    hide Act, WindowInForce, Marked, AllMarked, QueueMarked;
    if moves == [] {
      MoreWindows([], [], {}, c.leftWindow, {}, WindowsSoFar(c, [])) by {
        NothingMarked(c.leftWindow);
      }
    } else {
      var front, m := moves[..|moves| - 1], moves[|moves| - 1];
      SegmentsMarked(c, front);
      WindowOverRun(c, front);
      var s, windows := Run(c, front), WindowsSoFar(c, front);
      if ActsLeft(s, m) {
        ActMarked(s.left, m.event, windows);
        MoreWindows(Act(s.left, m.event).sent, Act(s.left, m.event).host.segments, s.fromLeft, c.leftWindow, windows,
                    WindowsSoFar(c, moves));
      } else {
        NothingMarked(c.leftWindow);
        MoreWindows([], s.left.segments, s.fromLeft, c.leftWindow, windows, WindowsSoFar(c, moves)) by {
          AllMarkedMore(c.leftWindow, windows);
        }
      }
    }
  }

  lemma NothingMarked(receive: nat)
    ensures AllMarked([], receive, {}) && QueueMarked([], receive, {})
  {
  }

  lemma AllMarkedMore(receive: nat, windows: set<nat>)
    ensures AllMarked([], receive, windows)
  {
  }
}
