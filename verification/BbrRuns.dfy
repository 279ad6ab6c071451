/** What the congestion control block guarantees over every run: the two filters, the order of the modes,
    the gain cycle and the pacing bound. */
module BbrRuns {
  import opened Doubles
  import opened BbrModel

  /** Everything that touches the block: an acknowledgement, a call of `bbr_send`, and the changes that
      the transport makes to the number of bytes in flight. */
  datatype Event =
    | Ack(size: int, delivered: int, deliveredTime: int, now: int)
    | Send(bytes: int, now: int)
    | Adjust(delta: int)

  predicate SendsNow(b: Bbr, now: int) {
    !CwndFull(b) && now > b.nextSendTime
  }

  function Apply(b: Bbr, e: Event): (b': Bbr)
    requires b.Shaped()
    ensures b'.Shaped()
  {
    match e
    case Ack(size, delivered, deliveredTime, now) => OnAck(b, size, delivered, deliveredTime, now)
    case Send(bytes, now) =>
      if SendsNow(b, now)
      then b.(inflight := b.inflight + bytes, nextSendTime := NextSendTime(b, bytes, now))
      else b
    case Adjust(delta) => b.(inflight := b.inflight + delta)
  }

  function Run(b: Bbr, evs: seq<Event>): (b': Bbr)
    requires b.Shaped()
    ensures b'.Shaped()
  {
    if evs == [] then b else Apply(Run(b, evs[..|evs| - 1]), evs[|evs| - 1])
  }

  // ---------------------------------------------------------------------------------------------
  // The minimum-RTT window
  // ---------------------------------------------------------------------------------------------

  /** The round-trip times measured by the acknowledgements of a run, oldest first. */
  function Rtts(evs: seq<Event>): seq<int> {
    if evs == [] then []
    else Rtts(evs[..|evs| - 1]) +
         match evs[|evs| - 1] { case Ack(_, _, sent, now) => [now - sent] case _ => [] }
  }

  /** The last ten samples, padded on the left with the initial value. */
  function LastTen(samples: seq<int>): seq<int> {
    (seq(10, _ => 0x7fffffff) + samples)[|samples|..]
  }

  predicate IsLeast(x: int, s: seq<int>) {
    x in s && forall y :: y in s ==> x <= y
  }

  lemma {:induction false} MinWithIsLeast(x: int, s: seq<int>)
    ensures IsLeast(MinWith(x, s), s + [x])
  {
    if s == [] {
    } else {
      var front := s[..|s| - 1];
      MinWithIsLeast(x, front);
      assert forall y :: y in s + [x] <==> y in front + [x] || y == s[|s| - 1];
    }
  }

  lemma SlideWindow(samples: seq<int>, rtt: int)
    ensures LastTen(samples)[1..] + [rtt] == LastTen(samples + [rtt])
  {
    var padded := seq(10, _ => 0x7fffffff) + samples;
    assert seq(10, _ => 0x7fffffff) + (samples + [rtt]) == padded + [rtt];
  }

  lemma FiltersAfterEvent(b: Bbr, e: Event)
    requires b.Shaped()
    ensures var b' := Apply(b, e);
            if e.Ack?
            then b'.rtFilter == b.rtFilter[1..] + [e.now - e.deliveredTime]
                 && b'.minRtt == MinWith(e.now - e.deliveredTime, b.rtFilter[1..])
            else b'.rtFilter == b.rtFilter && b'.minRtt == b.minRtt
                 && b'.bwFilter == b.bwFilter && b'.maxBw == b.maxBw
  {
  }

  /** One more round-trip time goes through the window. */
  lemma SampleRtt(b: Bbr, samples: seq<int>, e: Event)
    requires b.Shaped() && b.rtFilter == LastTen(samples) && e.Ack?
    ensures var b', all := Apply(b, e), samples + [e.now - e.deliveredTime];
            b'.rtFilter == LastTen(all) && IsLeast(b'.minRtt, LastTen(all))
  {
    hide Apply, MinWith, LastTen, IsLeast;
    FiltersAfterEvent(b, e);
    SlideWindow(samples, e.now - e.deliveredTime);
    MinWithIsLeast(e.now - e.deliveredTime, b.rtFilter[1..]);
  }

  lemma NoSamples(start: int)
    ensures Fresh(start).rtFilter == LastTen([])
  {
  }

  /** `min_rtt_us` is the least of the last ten round-trip times of the run. */
  lemma {:induction false} MinRttOverRun(start: int, evs: seq<Event>)
    ensures Run(Fresh(start), evs).rtFilter == LastTen(Rtts(evs))
    ensures Rtts(evs) != [] ==> IsLeast(Run(Fresh(start), evs).minRtt, LastTen(Rtts(evs)))
  {
    hide Apply, LastTen, IsLeast, Fresh;
    if evs == [] {
      NoSamples(start);
    } else {
      var front, e := evs[..|evs| - 1], evs[|evs| - 1];
      MinRttOverRun(start, front);
      var b := Run(Fresh(start), front);
      if e.Ack? {
        SampleRtt(b, Rtts(front), e);
      } else {
        FiltersAfterEvent(b, e);
        assert Rtts(front) + [] == Rtts(front);
      }
    }
  }

  // ---------------------------------------------------------------------------------------------
  // The maximum-bandwidth window
  // ---------------------------------------------------------------------------------------------

  /** The delivery rates measured over a run that starts in `b`. */
  function Rates(b: Bbr, evs: seq<Event>): seq<Num>
    requires b.Shaped()
  {
    if evs == [] then []
    else
      var front := evs[..|evs| - 1];
      Rates(b, front) +
      match evs[|evs| - 1] {
        case Ack(size, delivered, sent, now) => [DeliveryRate(Run(b, front), size, delivered, sent, now)]
        case _ => []
      }
  }

  predicate IsGreatest(x: Num, s: seq<Num>) {
    x in s && forall y :: y in s ==> !Gt(y, x)
  }

  /** No entry of the truncated window is above the maximum. */
  predicate WindowBelow(b: Bbr) {
    NonNegative(b.maxBw) && AllBelow(b.bwFilter, b.maxBw)
  }

  predicate AllBelow(s: seq<int>, x: Num) {
    forall i :: 0 <= i < |s| ==> !Gt(Fin(s[i] as real), x)
  }

  /** A window that lies below the new rate does not change the maximum. */
  lemma {:induction false} MaxWithBelow(x: Num, s: seq<int>)
    requires AllBelow(s, x)
    ensures MaxWith(x, s) == x
  {
    if s == [] {
    } else {
      MaxWithBelow(x, s[..|s| - 1]);
    }
  }

  lemma GtTransitive(x: Num, y: Num, z: Num)
    requires NonNegative(y) && Gt(x, y)
    ensures NonNegative(x)
    ensures Gt(z, x) ==> Gt(z, y)
  {
  }

  lemma WindowBelowAfterAck(b: Bbr, size: int, delivered: int, sent: int, now: int)
    requires b.Shaped() && WindowBelow(b)
    ensures var r := DeliveryRate(b, size, delivered, sent, now);
            var b' := OnAck(b, size, delivered, sent, now);
            WindowBelow(b') && b'.maxBw == if Gt(r, b.maxBw) then r else b.maxBw
  {
    var r := DeliveryRate(b, size, delivered, sent, now);
    var b' := OnAck(b, size, delivered, sent, now);
    if Gt(r, b.maxBw) {
      GtTransitive(r, b.maxBw, r);
      forall i | 0 <= i < |b.bwFilter|
        ensures !Gt(Fin(b.bwFilter[i] as real), r)
      {
        GtTransitive(r, b.maxBw, Fin(b.bwFilter[i] as real));
      }
      MaxWithBelow(r, b.bwFilter[1..]);
      TruncationBounds(r);
      assert b'.bwFilter == b.bwFilter[1..] + [ToLong(r)] && b'.maxBw == r;
    } else {
      assert b'.bwFilter == b.bwFilter && b'.maxBw == b.maxBw;
    }
  }

  /** `max_btlbw` is the largest delivery rate of the whole run, not only of the window. */
  lemma {:induction false} MaxBandwidthOverRun(start: int, evs: seq<Event>)
    ensures WindowBelow(Run(Fresh(start), evs))
    ensures IsGreatest(Run(Fresh(start), evs).maxBw, [Fin(0.0)] + Rates(Fresh(start), evs))
  {
    if evs == [] {
    } else {
      var front, e := evs[..|evs| - 1], evs[|evs| - 1];
      MaxBandwidthOverRun(start, front);
      var b := Run(Fresh(start), front);
      if e.Ack? {
        WindowBelowAfterAck(b, e.size, e.delivered, e.deliveredTime, e.now);
        var r := DeliveryRate(b, e.size, e.delivered, e.deliveredTime, e.now);
        forall y | y in [Fin(0.0)] + Rates(Fresh(start), evs)
          ensures !Gt(y, Run(Fresh(start), evs).maxBw)
        {
          assert y in [Fin(0.0)] + Rates(Fresh(start), front) || y == r;
          if Gt(r, b.maxBw) {
            GtTransitive(r, b.maxBw, y);
          }
        }
      }
    }
  }

  // ---------------------------------------------------------------------------------------------
  // The mode machine
  // ---------------------------------------------------------------------------------------------

  /** How many acknowledgements of the run found the bandwidth estimate grown by less than a quarter. */
  function NoGrowthAcks(b: Bbr, evs: seq<Event>): nat
    requires b.Shaped()
  {
    if evs == [] then 0
    else
      var front := evs[..|evs| - 1];
      var s := Run(b, front);
      NoGrowthAcks(b, front) + if evs[|evs| - 1].Ack? && Gt(Times(1.25, s.maxBwLast), s.maxBw) then 1 else 0
  }

  /** How many acknowledgements of the run left the block probing for bandwidth. */
  function ProbeAcks(b: Bbr, evs: seq<Event>): nat
    requires b.Shaped()
  {
    if evs == [] then 0
    else
      ProbeAcks(b, evs[..|evs| - 1]) + if evs[|evs| - 1].Ack? && Run(b, evs).mode == ProbeBw then 1 else 0
  }

  function Rank(m: Mode): nat {
    match m case Startup => 0 case Drain => 1 case ProbeBw => 2 case ProbeRtt => 3
  }

  /** The mode as a function of what was counted: startup lasts until the third acknowledgement without
      growth, and the k-th probing acknowledgement uses entry (k - 1) mod 8 of the gain table. The gains are those
      of C's integer division. */
  ghost predicate ModeAgrees(b: Bbr, noGrowth: nat, probes: nat) {
    && (b.mode == Startup <==> noGrowth < 3)
    && (b.mode == Startup ==> b.notGrown == noGrowth)
    && b.mode != ProbeRtt
    && (b.mode == ProbeBw <==> probes > 0)
    && (b.mode == ProbeBw ==> b.gainIndex == (probes - 1) % 8 + 1
                              && b.pacingGain == [1, 0, 1, 1, 1, 1, 1, 1][(probes - 1) % 8])
    && (b.mode == Startup ==> b.pacingGain == 2)
    && (b.mode == Drain ==> b.pacingGain == 0)
  }

  predicate SameMode(b: Bbr, b': Bbr) {
    b'.mode == b.mode && b'.gainIndex == b.gainIndex && b'.pacingGain == b.pacingGain && b'.notGrown == b.notGrown
  }

  /** Only the state machine at the start of `bbr_onAck` touches the mode. */
  lemma ModeAfterEvent(b: Bbr, e: Event)
    requires b.Shaped()
    ensures SameMode(if e.Ack? then ModeStep(b) else b, Apply(b, e))
  {
  }

  lemma ModeAgreesAfterStep(b: Bbr, noGrowth: nat, probes: nat)
    requires b.Shaped() && ModeAgrees(b, noGrowth, probes)
    ensures var m := ModeStep(b);
            && Rank(b.mode) <= Rank(m.mode) <= Rank(b.mode) + 1
            && ModeAgrees(m, if NoGrowth(b) then noGrowth + 1 else noGrowth,
                          if m.mode == ProbeBw then probes + 1 else probes)
  {
    hide NoGrowth, ModeStep, ModeAgrees;
    match b.mode
    case ProbeBw => ProbingGoesOn(b, noGrowth, probes);
    case _ => NotYetProbing(b, noGrowth, probes);
  }

  lemma ProbingGoesOn(b: Bbr, noGrowth: nat, probes: nat)
    requires b.Shaped() && ModeAgrees(b, noGrowth, probes) && b.mode == ProbeBw
    ensures ModeStep(b).mode == ProbeBw
    ensures ModeAgrees(ModeStep(b), if NoGrowth(b) then noGrowth + 1 else noGrowth, probes + 1)
  {
    hide NoGrowth;
    assert ((probes - 1) % 8 + 1) % 8 == probes % 8;
  }

  lemma NotYetProbing(b: Bbr, noGrowth: nat, probes: nat)
    requires b.Shaped() && ModeAgrees(b, noGrowth, probes) && b.mode != ProbeBw
    ensures var m := ModeStep(b);
            && Rank(b.mode) <= Rank(m.mode) <= Rank(b.mode) + 1
            && ModeAgrees(m, if NoGrowth(b) then noGrowth + 1 else noGrowth,
                          if m.mode == ProbeBw then probes + 1 else probes)
  {
    hide NoGrowth, Le, Times;
    assert probes == 0;
  }

  lemma ModeAgreesAfterAck(b: Bbr, noGrowth: nat, probes: nat, e: Event)
    requires b.Shaped() && ModeAgrees(b, noGrowth, probes) && e.Ack?
    ensures var b' := Apply(b, e);
            && Rank(b.mode) <= Rank(b'.mode) <= Rank(b.mode) + 1
            && ModeAgrees(b', if NoGrowth(b) then noGrowth + 1 else noGrowth,
                          if b'.mode == ProbeBw then probes + 1 else probes)
  {
    hide Apply, ModeStep, NoGrowth;
    ModeAfterEvent(b, e);
    ModeAgreesAfterStep(b, noGrowth, probes);
  }

  lemma ModeAgreesAtStart(start: int)
    ensures ModeAgrees(Fresh(start), 0, 0)
  {
  }

  lemma SameModeAgrees(b: Bbr, b': Bbr, noGrowth: nat, probes: nat)
    requires ModeAgrees(b, noGrowth, probes) && SameMode(b, b')
    ensures ModeAgrees(b', noGrowth, probes)
  {
  }

  lemma {:induction false} ModeOverRun(start: int, evs: seq<Event>)
    ensures ModeAgrees(Run(Fresh(start), evs), NoGrowthAcks(Fresh(start), evs), ProbeAcks(Fresh(start), evs))
  {
    hide Apply, ModeAgrees, SameMode, ModeStep, Fresh, Times, Gt;
    if evs == [] {
      ModeAgreesAtStart(start);
    } else {
      var front, e := evs[..|evs| - 1], evs[|evs| - 1];
      var b, noGrowth, probes :=
          Run(Fresh(start), front), NoGrowthAcks(Fresh(start), front), ProbeAcks(Fresh(start), front);
      ModeOverRun(start, front);
      if e.Ack? {
        ModeAgreesAfterAck(b, noGrowth, probes, e);
      } else {
        ModeAfterEvent(b, e);
        SameModeAgrees(b, Apply(b, e), noGrowth, probes);
      }
    }
  }

  /** The mode never goes back and never skips one. */
  lemma {:induction false} ModesMoveForward(start: int, evs: seq<Event>, i: nat)
    requires i < |evs|
    ensures var before, after := Run(Fresh(start), evs[..i]).mode, Run(Fresh(start), evs[..i + 1]).mode;
            Rank(before) <= Rank(after) <= Rank(before) + 1 && after != ProbeRtt
  {
    ModeOverRun(start, evs[..i]);
    ModeOverRun(start, evs[..i + 1]);
    assert evs[..i + 1][..i] == evs[..i];
    if evs[i].Ack? {
      ModeAgreesAfterAck(Run(Fresh(start), evs[..i]), NoGrowthAcks(Fresh(start), evs[..i]),
                         ProbeAcks(Fresh(start), evs[..i]), evs[i]);
    }
  }

  // ---------------------------------------------------------------------------------------------
  // Pacing
  // ---------------------------------------------------------------------------------------------

  /** One segment that `bbr_send` put on the wire, and the pacing rate in force. */
  datatype Departure = Departure(time: int, bytes: int, rate: Num)

  function Departures(b: Bbr, evs: seq<Event>): seq<Departure>
    requires b.Shaped()
  {
    if evs == [] then []
    else
      var front := evs[..|evs| - 1];
      var s := Run(b, front);
      Departures(b, front) +
      match evs[|evs| - 1] {
        case Send(bytes, now) =>
          if SendsNow(s, now) then [Departure(now, bytes, Times(s.pacingGain as real, s.maxBw))] else []
        case _ => []
      }
  }

  predicate PositiveAtMost(rate: Num, bound: real) {
    rate.Fin? && 0.0 < rate.r <= bound
  }

  function TotalBytes(log: seq<Departure>): int {
    if log == [] then 0 else TotalBytes(log[..|log| - 1]) + log[|log| - 1].bytes
  }

  lemma ScaleQuotient(bytes: real, rate: real, bound: real, elapsed: real)
    requires 0.0 < rate <= bound && elapsed >= 0.0
    requires elapsed > bytes / rate
    ensures bound * elapsed > bytes
  {
    assert rate * elapsed > bytes by {
      assert rate * (bytes / rate) == bytes;
      assert rate * (elapsed - bytes / rate) > 0.0;
    }
    assert (bound - rate) * elapsed >= 0.0;
  }

  /** After a paced departure, anything that leaves later leaves strictly more than `bytes / rate` later,
      although the earliest time is cut to a whole millisecond. */
  lemma GapAfterDeparture(b: Bbr, bytes: int, now: int, later: int, bound: real)
    requires PositiveAtMost(PacingRate(b), bound) && 0 <= bytes
    requires later > NextSendTime(b, bytes, now)
    ensures later > now && bound * (later - now) as real > bytes as real
  {
    var rate := PacingRate(b).r;
    var earliest := now as real + bytes as real / rate;
    TruncationBounds(Fin(earliest));
    assert later as real > earliest;
    assert bytes as real / rate >= 0.0;
    ScaleQuotient(bytes as real, rate, bound, (later - now) as real);
  }

  /** What the last departure of a run leaves behind in the block. */
  lemma {:induction false} LastDepartureSetsClock(b: Bbr, evs: seq<Event>) returns (s: Bbr)
    requires b.Shaped() && Departures(b, evs) != []
    ensures var last := Departures(b, evs)[|Departures(b, evs)| - 1];
            PacingRate(s) == last.rate && Run(b, evs).nextSendTime == NextSendTime(s, last.bytes, last.time)
  {
    var front, e := evs[..|evs| - 1], evs[|evs| - 1];
    var before := Run(b, front);
    if e.Send? && SendsNow(before, e.now) {
      s := before;
    } else {
      s := LastDepartureSetsClock(b, front);
      OnlyDeparturesSetClock(before, e);
    }
  }

  lemma OnlyDeparturesSetClock(b: Bbr, e: Event)
    requires b.Shaped() && !(e.Send? && SendsNow(b, e.now))
    ensures Apply(b, e).nextSendTime == b.nextSendTime
  {
  }

  /** The wait between two departures pays for the bytes of the first at rate `bound`. */
  ghost predicate Pays(d: Departure, next: Departure, bound: real) {
    bound * (next.time - d.time) as real > d.bytes as real
  }

  ghost predicate Spaced(log: seq<Departure>, bound: real) {
    forall i, j :: 0 <= i < |log| - 1 && j == i + 1 ==> Pays(log[i], log[j], bound)
  }

  /** Each departure but the last leaves at a positive rate of at most `bound`. */
  ghost predicate PacedBy(log: seq<Departure>, bound: real) {
    forall i :: 0 <= i < |log| - 1 ==> PositiveAtMost(log[i].rate, bound) && 0 <= log[i].bytes
  }

  lemma {:induction false} DeparturesAreSpaced(b: Bbr, evs: seq<Event>, bound: real)
    requires b.Shaped() && PacedBy(Departures(b, evs), bound)
    ensures Spaced(Departures(b, evs), bound)
  {
    hide CwndFull, NextSendTime, PacingRate, Run, Apply;
    if evs == [] {
    } else {
      var front, e := evs[..|evs| - 1], evs[|evs| - 1];
      var early, log := Departures(b, front), Departures(b, evs);
      if e.Send? && SendsNow(Run(b, front), e.now) {
        assert log == early + [Departure(e.now, e.bytes, log[|early|].rate)];
        assert forall i :: 0 <= i < |early| ==> early[i] == log[i];
        DeparturesAreSpaced(b, front, bound);
        if early != [] {
          NextDeparturePays(b, front, e, bound);
        }
      } else {
        assert log == early + [] == early;
        DeparturesAreSpaced(b, front, bound);
      }
    }
  }

  lemma {:induction false} NextDeparturePays(b: Bbr, evs: seq<Event>, e: Event, bound: real)
    requires b.Shaped() && Departures(b, evs) != []
    requires e.Send? && SendsNow(Run(b, evs), e.now)
    requires var last := Departures(b, evs)[|Departures(b, evs)| - 1];
             PositiveAtMost(last.rate, bound) && 0 <= last.bytes
    ensures var last := Departures(b, evs)[|Departures(b, evs)| - 1];
            bound * (e.now - last.time) as real > last.bytes as real
  {
    hide CwndFull, NextSendTime, PacingRate, Run, Apply;
    var last := Departures(b, evs)[|Departures(b, evs)| - 1];
    var s := LastDepartureSetsClock(b, evs);
    GapAfterDeparture(s, last.bytes, last.time, e.now, bound);
  }

  lemma AddSpan(bound: real, t0: int, t1: int, t2: int)
    ensures bound * (t2 - t0) as real == bound * (t1 - t0) as real + bound * (t2 - t1) as real
  {
    assert (t2 - t0) as real == (t1 - t0) as real + (t2 - t1) as real;
  }

  /** The bytes of all departures but the last are fewer than `bound` times the time from first to last. */
  ghost predicate WithinRate(log: seq<Departure>, bound: real)
    requires log != []
  {
    TotalBytes(log[..|log| - 1]) as real < bound * (log[|log| - 1].time - log[0].time) as real
  }

  lemma {:induction false} SpacedTotal(log: seq<Departure>, bound: real)
    requires Spaced(log, bound) && |log| >= 2
    ensures WithinRate(log, bound)
  {
    var n := |log|;
    assert log[..n - 1][..n - 2] == log[..n - 2];
    assert Pays(log[n - 2], log[n - 1], bound);
    if n > 2 {
      SpacedTotal(log[..n - 1], bound);
      AddSpan(bound, log[0].time, log[n - 2].time, log[n - 1].time);
    }
  }

  /** Pacing: over any stretch of a run during which the pacing rate at each departure but the last is positive
      and at most `bound`, the bytes that left before the last departure are fewer than `bound` times the time
      that passed. */
  lemma {:induction false} PacingBound(b: Bbr, evs: seq<Event>, bound: real)
    requires b.Shaped() && PacedBy(Departures(b, evs), bound)
    requires |Departures(b, evs)| >= 2
    ensures WithinRate(Departures(b, evs), bound)
  {
    hide Departures, Spaced, WithinRate, PacedBy;
    DeparturesAreSpaced(b, evs, bound);
    SpacedTotal(Departures(b, evs), bound);
  }
}
