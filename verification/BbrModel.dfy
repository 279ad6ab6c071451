/** The state of the congestion control block and what each of its operations does to it
    (lab4/ctcp/ctcp_bbr.c), on values. `BbrControl` is the object that works in place. */
module BbrModel {
  import opened Doubles

  const FILTER_SIZE: nat := 10
  const NO_RTT: int := 0x7fffffff
  /** 5/4, 3/4, 1, ... in C's integer division. */
  const PROBE_GAINS: seq<int> := [1, 0, 1, 1, 1, 1, 1, 1]
  const STARTUP_GAIN: int := 2
  const DRAIN_GAIN: int := 0
  const NOT_GROWN_LIMIT: nat := 3

  datatype Mode = Startup | Drain | ProbeBw | ProbeRtt

  datatype Bbr = Bbr(
    mode: Mode,
    pacingGain: int,
    cwndGain: int,
    rtFilter: seq<int>,
    minRtt: int,
    delivered: int,
    deliveredTime: int,
    rate: Num,
    bwFilter: seq<int>,
    maxBw: Num,
    notGrown: int,
    maxBwLast: Num,
    inflight: int,
    nextSendTime: int,
    gainIndex: int)
  {
    predicate Shaped() {
      |rtFilter| == FILTER_SIZE && |bwFilter| == FILTER_SIZE && 0 <= gainIndex
    }
  }

  /** The block right after allocation and `init_bbr`; the smallest RTT is still the zero of `calloc`. */
  function Fresh(now: int): (b: Bbr)
    ensures b.Shaped()
  {
    Bbr(Startup, STARTUP_GAIN, 0, seq(FILTER_SIZE, _ => NO_RTT), 0, 0, now, Fin(0.0),
        seq(FILTER_SIZE, _ => 0), Fin(0.0), 0, Fin(0.0), 0, 0, 0)
  }

  /** The smallest element of a sequence of samples and of `x`. */
  function MinWith(x: int, s: seq<int>): int {
    if s == [] then x
    else var m := MinWith(x, s[..|s| - 1]); if m > s[|s| - 1] then s[|s| - 1] else m
  }

  /** The largest of a rate and of the truncated rates in a window. */
  function MaxWith(x: Num, s: seq<int>): Num
  {
    if s == [] then x
    else var m := MaxWith(x, s[..|s| - 1]);
         if Gt(Fin(s[|s| - 1] as real), m) then Fin(s[|s| - 1] as real) else m
  }

  predicate NoGrowth(b: Bbr) {
    Gt(Times(1.25, b.maxBwLast), b.maxBw)
  }

  function EnterDrain(b: Bbr): Bbr {
    b.(pacingGain := DRAIN_GAIN)
  }

  function ProbeBandwidth(b: Bbr): Bbr
    requires 0 <= b.gainIndex
  {
    var k := b.gainIndex % 8;
    b.(pacingGain := PROBE_GAINS[k], gainIndex := k + 1)
  }

  /** The state machine that runs at the start of every `bbr_onAck`. */
  function ModeStep(b: Bbr): (b': Bbr)
    requires 0 <= b.gainIndex
    ensures 0 <= b'.gainIndex
  {
    match b.mode
    case Startup =>
      var s := b.(pacingGain := STARTUP_GAIN, cwndGain := STARTUP_GAIN,
                  notGrown := if NoGrowth(b) then b.notGrown + 1 else b.notGrown);
      if s.notGrown == NOT_GROWN_LIMIT then EnterDrain(s.(mode := Drain, notGrown := 0)) else s
    case Drain =>
      var d := EnterDrain(b);
      if Le(Fin(b.inflight as real), Times(b.minRtt as real, b.maxBw))
      then ProbeBandwidth(d.(mode := ProbeBw, gainIndex := 0)) else d
    case ProbeBw => ProbeBandwidth(b)
    case ProbeRtt => b
  }

  /** A new RTT sample pushes the oldest out of the window; the minimum is over the new window. */
  function MinFilter(b: Bbr, rtt: int): Bbr
    requires b.Shaped()
  {
    b.(rtFilter := b.rtFilter[1..] + [rtt], minRtt := MinWith(rtt, b.rtFilter[1..]))
  }

  /** A new delivery rate enters the window truncated; the maximum uses the rate itself. */
  function MaxFilter(b: Bbr, rate: Num): Bbr
    requires b.Shaped()
  {
    b.(bwFilter := b.bwFilter[1..] + [ToLong(rate)], maxBw := MaxWith(rate, b.bwFilter[1..]))
  }

  /** The delivery rate that the acknowledgement of a segment measures. */
  function DeliveryRate(b: Bbr, size: int, delivered: int, deliveredTime: int, now: int): Num {
    Quotient(b.delivered + size - delivered, now - deliveredTime)
  }

  /** `bbr_onAck` for a segment of `size` data bytes stamped with `delivered` and `deliveredTime`. */
  function OnAck(b: Bbr, size: int, delivered: int, deliveredTime: int, now: int): (b': Bbr)
    requires b.Shaped()
    ensures b'.Shaped()
  {
    var m := MinFilter(ModeStep(b), now - deliveredTime);
    var r := DeliveryRate(b, size, delivered, deliveredTime, now);
    var d := m.(delivered := m.delivered + size, deliveredTime := now, rate := r, maxBwLast := m.maxBw);
    if Gt(r, d.maxBw) then MaxFilter(d, r) else d
  }

  /** Bandwidth-delay product, cast to `long`. */
  function Bdp(b: Bbr): int {
    ToLong(Times(b.minRtt as real, b.maxBw))
  }

  /** The congestion window is full: the segment is queued but not sent. */
  predicate CwndFull(b: Bbr) {
    b.inflight > b.cwndGain * Bdp(b)
  }

  function PacingRate(b: Bbr): Num {
    Times(b.pacingGain as real, b.maxBw)
  }

  /** The earliest time after which the next segment may leave, once `bytes` left at `now`. */
  function NextSendTime(b: Bbr, bytes: int, now: int): int {
    match PacingRate(b)
    case Fin(r) => if r == 0.0 then now else ToLong(Fin(now as real + bytes as real / r))
    case NaN => LONG_MIN
    case _ => now
  }
}
