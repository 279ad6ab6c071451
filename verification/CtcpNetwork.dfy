/** Two cTCP ends joined by a network that may drop, repeat, delay and reorder packets: everything ever sent
    stays available for delivery, any number of times and in any order. Packets are not corrupted. */
module CtcpNetwork {
  import opened OutputQueue
  import opened CtcpHost

  /** A callback of the library at one end, with the answers of the outside world. */
  datatype Callback =
    | Reading(t0: int, t1: int, input: InputResult)
    | Receiving(packet: Packet, now: int, w: WriteResult)
    | Ticking(clock: TimerClock)
    | Draining(ws: seq<WriteResult>)

  datatype Side = LeftEnd | RightEnd

  datatype Move = Move(side: Side, event: Callback)

  /** `fromLeft` and `fromRight` are the packets each end ever sent; the clocks are the last readings. */
  datatype Sys = Sys(left: Host, right: Host, fromLeft: set<Packet>, fromRight: set<Packet>,
                     leftClock: int, rightClock: int)

  datatype Config = Config(leftWindow: nat, rightWindow: nat, leftSend: nat, rightSend: nat,
                           leftTimeout: int, rightTimeout: int, leftStart: int, rightStart: int)

  function Act(h: Host, e: Callback): Outcome
    requires h.bbr.Shaped()
  {
    match e
    case Reading(t0, t1, input) => Read(h, t0, t1, input)
    case Receiving(p, now, w) => Receive(h, p, now, w)
    case Ticking(c) => Timer(h, c)
    case Draining(ws) => Outcome(DrainOutput(h, ws), [])
  }

  /** What the outside world may do: the clock of an end does not go back, `conn_input` returns at most a
      segment's worth of bytes, and what arrives was sent by the other end. */
  predicate Possible(incoming: set<Packet>, clock: int, e: Callback) {
    match e
    case Reading(t0, t1, input) =>
      clock <= t0 <= t1 && (input.Data? ==> 0 < |input.bytes| <= MAX_SEG_DATA_SIZE)
    case Receiving(p, now, _) => p in incoming && clock <= now
    case Ticking(c) => clock <= c.fin <= c.check <= c.store <= c.stamp
    case Draining(_) => true
  }

  function LastReading(clock: int, e: Callback): int {
    match e
    case Reading(_, t1, _) => t1
    case Receiving(_, now, _) => now
    case Ticking(c) => c.stamp
    case Draining(_) => clock
  }

  predicate Shaped(s: Sys) {
    s.left.bbr.Shaped() && s.right.bbr.Shaped()
  }

  lemma ActShaped(h: Host, e: Callback)
    requires h.bbr.Shaped()
    ensures Act(h, e).host.bbr.Shaped()
  {
    hide Read, Receive, Timer, DrainOutput;
  }

  function StepLeft(s: Sys, e: Callback): (s': Sys)
    requires Shaped(s)
    ensures Shaped(s')
  {
    ActShaped(s.left, e);
    var o := Act(s.left, e);
    s.(left := o.host, fromLeft := s.fromLeft + (set p | p in o.sent), leftClock := LastReading(s.leftClock, e))
  }

  function Flip(s: Sys): Sys {
    Sys(s.right, s.left, s.fromRight, s.fromLeft, s.rightClock, s.leftClock)
  }

  predicate Enabled(s: Sys, m: Move) {
    match m.side
    case LeftEnd => Possible(s.fromRight, s.leftClock, m.event)
    case RightEnd => Possible(s.fromLeft, s.rightClock, m.event)
  }

  /** One move; a move that the outside world cannot make changes nothing. */
  function Step(s: Sys, m: Move): (s': Sys)
    requires Shaped(s)
    ensures Shaped(s')
  {
    if !Enabled(s, m) then s
    else
      match m.side
      case LeftEnd => StepLeft(s, m.event)
      case RightEnd => Flip(StepLeft(Flip(s), m.event))
  }

  function Begin(c: Config): (s: Sys)
    ensures Shaped(s)
  {
    Sys(Start(c.leftWindow, c.leftSend, c.leftTimeout, c.leftStart),
        Start(c.rightWindow, c.rightSend, c.rightTimeout, c.rightStart), {}, {}, c.leftStart, c.rightStart)
  }

  function RunFrom(s: Sys, moves: seq<Move>): (s': Sys)
    requires Shaped(s)
    ensures Shaped(s')
  {
    if moves == [] then s else Step(RunFrom(s, moves[..|moves| - 1]), moves[|moves| - 1])
  }

  function Run(c: Config, moves: seq<Move>): (s: Sys)
    ensures Shaped(s)
  {
    RunFrom(Begin(c), moves)
  }

  /** The state of the left end in which a move of the left end finds it, if the move is made at all. */
  predicate ActsLeft(s: Sys, m: Move) {
    m.side == LeftEnd && Enabled(s, m)
  }
}
