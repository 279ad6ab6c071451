/** What the congestion control block has measured, and what follows from it, in terms of the acknowledgements and
    departures of a run. */
module BbrRates {
  import opened Doubles
  import opened BbrModel
  import opened BbrRuns

  // ---------------------------------------------------------------------------------------------
  // Delivery rates
  // ---------------------------------------------------------------------------------------------

  /** The bytes that the acknowledgements of a run were for. */
  function AckedBytes(evs: seq<Event>): int {
    if evs == [] then 0
    else AckedBytes(evs[..|evs| - 1]) + match evs[|evs| - 1] { case Ack(size, _, _, _) => size case _ => 0 }
  }

  /** When the last acknowledgement of a run came. */
  function LastAck(start: int, evs: seq<Event>): int {
    if evs == [] then start
    else match evs[|evs| - 1] case Ack(_, _, _, now) => now case _ => LastAck(start, evs[..|evs| - 1])
  }

  /** What a segment measures with its stamps: the bytes acknowledged since, itself included, over the time since. */
  function Measured(acked: int, delivered: int, sent: int, now: int): Num {
    if now != sent then Fin((acked - delivered) as real / (now - sent) as real)
    else if acked > delivered then PosInf
    else if acked < delivered then NegInf
    else NaN
  }

  /** The rates measured by the acknowledgements of a run, oldest first. */
  function MeasuredRates(evs: seq<Event>): seq<Num> {
    if evs == [] then []
    else
      MeasuredRates(evs[..|evs| - 1]) +
      match evs[|evs| - 1] {
        case Ack(_, delivered, sent, now) => [Measured(AckedBytes(evs), delivered, sent, now)]
        case _ => []
      }
  }

  lemma AppliedDelivery(b: Bbr, e: Event)
    requires b.Shaped()
    ensures var b' := Apply(b, e);
            if e.Ack? then b'.delivered == b.delivered + e.size && b'.deliveredTime == e.now && b'.maxBwLast == b.maxBw
            else b'.delivered == b.delivered && b'.deliveredTime == b.deliveredTime && b'.maxBwLast == b.maxBwLast
  {
  }

  /** `delivered` counts the acknowledged bytes and `delivered_time` is the time of the last acknowledgement. */
  lemma {:induction false} DeliveredOverRun(start: int, evs: seq<Event>)
    ensures var b := Run(Fresh(start), evs);
            b.delivered == AckedBytes(evs) && b.deliveredTime == LastAck(start, evs)
  {
    hide Apply;
    if evs != [] {
      var front, e := evs[..|evs| - 1], evs[|evs| - 1];
      DeliveredOverRun(start, front);
      AppliedDelivery(Run(Fresh(start), front), e);
    }
  }

  lemma MeasuredRate(b: Bbr, size: int, delivered: int, sent: int, now: int)
    ensures DeliveryRate(b, size, delivered, sent, now) == Measured(b.delivered + size, delivered, sent, now)
  {
  }

  lemma {:induction false} RatesAreMeasured(start: int, evs: seq<Event>)
    ensures Rates(Fresh(start), evs) == MeasuredRates(evs)
  {
    hide Run, DeliveryRate, Measured;
    if evs != [] {
      var front, e := evs[..|evs| - 1], evs[|evs| - 1];
      RatesAreMeasured(start, front);
      DeliveredOverRun(start, front);
      if e.Ack? {
        MeasuredRate(Run(Fresh(start), front), e.size, e.delivered, e.deliveredTime, e.now);
      }
    }
  }

  /** `max_btlbw` is the greatest of zero and all rates measured during the run. */
  lemma {:induction false} BandwidthIsGreatestMeasured(start: int, evs: seq<Event>)
    ensures IsGreatest(Run(Fresh(start), evs).maxBw, [Fin(0.0)] + MeasuredRates(evs))
  {
    MaxBandwidthOverRun(start, evs);
    RatesAreMeasured(start, evs);
  }

  /** The rates of a run that were greater than all before them, truncated, oldest first. */
  function Records(start: int, evs: seq<Event>): seq<int> {
    if evs == [] then []
    else
      var front := evs[..|evs| - 1];
      Records(start, front) +
      match evs[|evs| - 1] {
        case Ack(_, delivered, sent, now) =>
          var rate := Measured(AckedBytes(evs), delivered, sent, now);
          if Gt(rate, Run(Fresh(start), front).maxBw) then [ToLong(rate)] else []
        case _ => []
      }
  }

  lemma AppliedWindow(b: Bbr, size: int, delivered: int, sent: int, now: int)
    requires b.Shaped()
    ensures var rate := Measured(b.delivered + size, delivered, sent, now);
            OnAck(b, size, delivered, sent, now).bwFilter ==
            if Gt(rate, b.maxBw) then b.bwFilter[1..] + [ToLong(rate)] else b.bwFilter
  {
    MeasuredRate(b, size, delivered, sent, now);
    hide DeliveryRate, Measured, ToLong, Gt;
  }

  /** The last ten records, padded on the left with zeros. */
  function LastRecords(records: seq<int>): seq<int> {
    (seq(10, _ => 0) + records)[|records|..]
  }

  lemma NoRecords(start: int)
    ensures Fresh(start).bwFilter == LastRecords([])
  {
  }

  /** The bandwidth window holds the last ten records of the run. */
  lemma {:induction false} WindowOfRecords(start: int, evs: seq<Event>)
    ensures Run(Fresh(start), evs).bwFilter == LastRecords(Records(start, evs))
  {
    hide OnAck, Measured, ToLong, Gt, LastRecords, Fresh;
    if evs == [] {
      NoRecords(start);
    } else {
      var front, e := evs[..|evs| - 1], evs[|evs| - 1];
      WindowOfRecords(start, front);
      DeliveredOverRun(start, front);
      var b, records := Run(Fresh(start), front), Records(start, front);
      if e.Ack? {
        AppliedWindow(b, e.size, e.delivered, e.deliveredTime, e.now);
        var rate := Measured(AckedBytes(evs), e.delivered, e.deliveredTime, e.now);
        if Gt(rate, b.maxBw) {
          SlideRecords(records, ToLong(rate));
        } else {
          assert records + [] == records;
        }
      } else {
        assert records + [] == records;
      }
    }
  }

  lemma SlideRecords(records: seq<int>, next: int)
    ensures LastRecords(records)[1..] + [next] == LastRecords(records + [next])
  {
    assert seq(10, _ => 0) + (records + [next]) == (seq(10, _ => 0) + records) + [next];
  }

  /** The run without its last acknowledgement and what came after it. */
  function BeforeLastAck(evs: seq<Event>): seq<Event> {
    if evs == [] then [] else if evs[|evs| - 1].Ack? then evs[..|evs| - 1] else BeforeLastAck(evs[..|evs| - 1])
  }

  lemma {:induction false} LastIsBefore(start: int, evs: seq<Event>)
    ensures Run(Fresh(start), evs).maxBwLast == Run(Fresh(start), BeforeLastAck(evs)).maxBw
  {
    hide Apply;
    if evs == [] {
      assert Run(Fresh(start), []) == Fresh(start);
    } else {
      var front, e := evs[..|evs| - 1], evs[|evs| - 1];
      AppliedDelivery(Run(Fresh(start), front), e);
      if !e.Ack? {
        LastIsBefore(start, front);
      }
    }
  }

  /** The estimate with which growth is measured is that of before the last acknowledgement. */
  lemma {:induction false} LastBandwidth(start: int, evs: seq<Event>)
    ensures IsGreatest(Run(Fresh(start), evs).maxBwLast, [Fin(0.0)] + MeasuredRates(BeforeLastAck(evs)))
  {
    hide Run, MeasuredRates, IsGreatest;
    LastIsBefore(start, evs);
    BandwidthIsGreatestMeasured(start, BeforeLastAck(evs));
  }

  // ---------------------------------------------------------------------------------------------
  // Flight, gains and the pacing clock
  // ---------------------------------------------------------------------------------------------

  function Adjustments(evs: seq<Event>): int {
    if evs == [] then 0
    else Adjustments(evs[..|evs| - 1]) + match evs[|evs| - 1] { case Adjust(delta) => delta case _ => 0 }
  }

  lemma AppliedFlight(b: Bbr, e: Event)
    requires b.Shaped()
    ensures Apply(b, e).inflight == b.inflight +
            match e
            case Send(bytes, now) => (if SendsNow(b, now) then bytes else 0)
            case Adjust(delta) => delta
            case _ => 0
  {
  }

  /** `inflight` is the sum of the departures and of what the transport added or took off. */
  lemma {:induction false} FlightOverRun(start: int, evs: seq<Event>)
    ensures Run(Fresh(start), evs).inflight == TotalBytes(Departures(Fresh(start), evs)) + Adjustments(evs)
  {
    hide Apply, SendsNow, Times;
    if evs == [] {
      assert Run(Fresh(start), []) == Fresh(start);
    } else {
      var front, e := evs[..|evs| - 1], evs[|evs| - 1];
      FlightOverRun(start, front);
      AppliedFlight(Run(Fresh(start), front), e);
      var early, log := Departures(Fresh(start), front), Departures(Fresh(start), evs);
      if e.Send? && SendsNow(Run(Fresh(start), front), e.now) {
        assert log[..|log| - 1] == early && log[|log| - 1].bytes == e.bytes;
      } else {
        assert log == early + [] == early;
      }
    }
  }

  /** A segment departs exactly when no more is in flight than the congestion window allows and the pacing clock
      has run out. */
  lemma DepartsWhen(b: Bbr, now: int)
    ensures SendsNow(b, now) <==>
              b.inflight <= b.cwndGain * ToLong(Times(b.minRtt as real, b.maxBw)) && now > b.nextSendTime
  {
  }

  lemma AppliedCwnd(b: Bbr, e: Event)
    requires b.Shaped()
    ensures Apply(b, e).cwndGain == if e.Ack? && b.mode == Startup then 2 else b.cwndGain
  {
  }

  /** The congestion window is closed until the first acknowledgement, and then twice the bandwidth-delay product. */
  lemma {:induction false} CwndGainOverRun(start: int, evs: seq<Event>)
    ensures var b := Run(Fresh(start), evs);
            && (b.cwndGain == if exists i :: 0 <= i < |evs| && evs[i].Ack? then 2 else 0)
            && (b.mode != Startup ==> b.cwndGain == 2)
  {
    hide Apply, ModeStep;
    if evs == [] {
      assert Run(Fresh(start), []) == Fresh(start);
    } else {
      var front, e := evs[..|evs| - 1], evs[|evs| - 1];
      CwndGainOverRun(start, front);
      var b := Run(Fresh(start), front);
      AppliedCwnd(b, e);
      ModeAfterEvent(b, e);
      assert forall i :: 0 <= i < |front| ==> evs[i] == front[i];
      assert e == evs[|evs| - 1];
    }
  }

  /** Draining ends at the first acknowledgement that finds no more in flight than the bandwidth-delay product. */
  lemma DrainEndsWhen(b: Bbr, size: int, delivered: int, sent: int, now: int)
    requires b.Shaped() && b.mode == Drain
    ensures OnAck(b, size, delivered, sent, now).mode ==
            if Le(Fin(b.inflight as real), Times(b.minRtt as real, b.maxBw)) then ProbeBw else Drain
  {
    hide Le, Times;
  }

  /** Where a departure sets the clock: to its own time without a rate, and otherwise to the last whole millisecond
      at which its bytes have not yet left at the rate. */
  lemma ClockAfterDeparture(b: Bbr, bytes: int, now: int)
    requires b.Shaped() && SendsNow(b, now) && 0 <= bytes && 0 <= now
    ensures var next := Apply(b, Send(bytes, now)).nextSendTime;
            match Times(b.pacingGain as real, b.maxBw)
            case Fin(r) =>
              && (r == 0.0 ==> next == now)
              && (r > 0.0 ==> (next - now) as real <= bytes as real / r < (next + 1 - now) as real)
            case _ => true
  {
    hide CwndFull, Times;
    match Times(b.pacingGain as real, b.maxBw)
    case Fin(r) =>
      if r > 0.0 {
        assert bytes as real / r >= 0.0;
      }
    case _ =>
  }
}
