/** The congestion control block as an object: the two windows are arrays shifted in place. */
module BbrControl {
  import opened Doubles
  import opened BbrModel

  class Control {
    var mode: Mode
    var pacingGain: int
    var cwndGain: int
    const rtFilter: array<int>
    var minRtt: int
    var delivered: int
    var deliveredTime: int
    var rate: Num
    const bwFilter: array<int>
    var maxBw: Num
    var notGrown: int
    var maxBwLast: Num
    var inflight: int
    var nextSendTime: int
    var gainIndex: int

    ghost const Repr: set<object>

    ghost predicate Valid()
      reads this, rtFilter, bwFilter
      ensures Valid() ==> this in Repr && rtFilter in Repr && bwFilter in Repr
    {
      && rtFilter.Length == FILTER_SIZE && bwFilter.Length == FILTER_SIZE
      && rtFilter != bwFilter && 0 <= gainIndex
      && Repr == {this, rtFilter, bwFilter}
    }

    ghost function State(): (b: Bbr)
      reads this, rtFilter, bwFilter
      ensures b.delivered == delivered && b.deliveredTime == deliveredTime
      ensures b.inflight == inflight && b.nextSendTime == nextSendTime
    {
      Bbr(mode, pacingGain, cwndGain, rtFilter[..], minRtt, delivered, deliveredTime, rate,
          bwFilter[..], maxBw, notGrown, maxBwLast, inflight, nextSendTime, gainIndex)
    }

    /** Allocation with `calloc` followed by `init_bbr`. */
    constructor (now: int)
      ensures Valid() && fresh(Repr)
      ensures State() == Fresh(now)
    {
      mode := Startup;
      rate := Fin(0.0);
      pacingGain := 2885 / 1000;
      cwndGain := 0;
      minRtt := 0;
      delivered := 0;
      deliveredTime := now;
      maxBw := Fin(0.0);
      maxBwLast := Fin(0.0);
      inflight := 0;
      nextSendTime := 0;
      notGrown := 0;
      gainIndex := 0;
      rtFilter := new int[FILTER_SIZE];
      bwFilter := new int[FILTER_SIZE](_ => 0);
      Repr := {this, rtFilter, bwFilter};
      new;
      var i := 0;
      while i < FILTER_SIZE
        modifies rtFilter
        invariant 0 <= i <= FILTER_SIZE
        invariant forall k :: 0 <= k < i ==> rtFilter[k] == NO_RTT
        invariant forall k :: 0 <= k < FILTER_SIZE ==> bwFilter[k] == 0
      {
        rtFilter[i] := NO_RTT;
        i := i + 1;
      }
      assert rtFilter[..] == Fresh(now).rtFilter;
      assert bwFilter[..] == Fresh(now).bwFilter;
    }

    method ProbeGain()
      requires Valid()
      modifies this`gainIndex, this`pacingGain
      ensures Valid() && State() == ProbeBandwidth(old(State()))
    {
      gainIndex := gainIndex % 8;
      pacingGain := PROBE_GAINS[gainIndex];
      gainIndex := gainIndex + 1;
    }

    /** The mode switch of `bbr_onAck`. */
    method AdvanceMode()
      requires Valid()
      modifies this
      ensures Valid() && State() == ModeStep(old(State()))
    {
      hide Fresh, Times, Gt, Le;
      match mode {
        case Startup =>
          pacingGain := 2885 / 1000;
          cwndGain := 2885 / 1000;
          if Gt(Times(1.25, maxBwLast), maxBw) {
            notGrown := notGrown + 1;
          }
          if notGrown == 3 {
            mode := Drain;
            notGrown := 0;
            pacingGain := 1000 / 2885;
          }
        case Drain =>
          pacingGain := 1000 / 2885;
          if Le(Fin(inflight as real), Times(minRtt as real, maxBw)) {
            mode := ProbeBw;
            gainIndex := 0;
            ProbeGain();
          }
        case ProbeBw =>
          ProbeGain();
        case ProbeRtt =>
      }
    }

    method UpdateMinFilter(rtt: int)
      requires Valid()
      modifies this`minRtt, rtFilter
      ensures Valid() && State() == MinFilter(old(State()), rtt)
    {
      ghost var was := rtFilter[..];
      minRtt := rtt;
      var i := 0;
      while i < FILTER_SIZE - 1
        invariant 0 <= i <= FILTER_SIZE - 1
        invariant forall k :: 0 <= k < i ==> rtFilter[k] == was[k + 1]
        invariant forall k :: i <= k < FILTER_SIZE ==> rtFilter[k] == was[k]
        invariant minRtt == MinWith(rtt, was[1..][..i])
      {
        rtFilter[i] := rtFilter[i + 1];
        assert was[1..][..i + 1][..i] == was[1..][..i];
        if minRtt > rtFilter[i] {
          minRtt := rtFilter[i];
        }
        i := i + 1;
      }
      rtFilter[i] := rtt;
      assert was[1..][..FILTER_SIZE - 1] == was[1..];
      assert rtFilter[..] == was[1..] + [rtt];
    }

    method UpdateMaxFilter(r: Num)
      requires Valid()
      modifies this`maxBw, bwFilter
      ensures Valid() && State() == MaxFilter(old(State()), r)
    {
      ghost var was := bwFilter[..];
      maxBw := r;
      var i := 0;
      while i < FILTER_SIZE - 1
        invariant 0 <= i <= FILTER_SIZE - 1
        invariant forall k :: 0 <= k < i ==> bwFilter[k] == was[k + 1]
        invariant forall k :: i <= k < FILTER_SIZE ==> bwFilter[k] == was[k]
        invariant maxBw == MaxWith(r, was[1..][..i])
      {
        bwFilter[i] := bwFilter[i + 1];
        assert was[1..][..i + 1][..i] == was[1..][..i];
        if Gt(Fin(bwFilter[i] as real), maxBw) {
          maxBw := Fin(bwFilter[i] as real);
        }
        i := i + 1;
      }
      bwFilter[i] := ToLong(r);
      assert was[1..][..FILTER_SIZE - 1] == was[1..];
      assert bwFilter[..] == was[1..] + [ToLong(r)];
    }

    /** `bbr_onAck`. */
    method HandleAck(size: int, segDelivered: int, segDeliveredTime: int, now: int)
      requires Valid()
      modifies Repr
      ensures Valid() && State() == OnAck(old(State()), size, segDelivered, segDeliveredTime, now)
    {
      hide MinWith, MaxWith, Quotient, Gt, Le, Times, NoGrowth;
      AdvanceMode();
      var rtt := now - segDeliveredTime;
      UpdateMinFilter(rtt);
      delivered := delivered + size;
      deliveredTime := now;
      rate := Quotient(delivered - segDelivered, now - segDeliveredTime);
      maxBwLast := maxBw;
      if Gt(rate, maxBw) {
        UpdateMaxFilter(rate);
      }
    }

    /** The transport has put `bytes` more bytes in flight, or fewer if it is negative. */
    method Fly(bytes: int)
      requires Valid()
      modifies this`inflight
      ensures Valid() && State() == old(State()).(inflight := old(State()).inflight + bytes)
    {
      inflight := inflight + bytes;
    }

    /** The test at the start of `bbr_send`: more bytes in flight than the congestion window allows. */
    method WindowFull() returns (full: bool)
      requires Valid()
      ensures full == CwndFull(State())
    {
      hide Times, ToLong;
      var bdp := ToLong(Times(minRtt as real, maxBw));
      full := inflight > cwndGain * bdp;
    }

    /** The end of `bbr_send`: the next segment waits until these bytes have left at the pacing rate. */
    method Pace(bytes: nat, now: int)
      requires Valid()
      modifies this`nextSendTime
      ensures Valid()
      ensures State() == old(State()).(nextSendTime := NextSendTime(old(State()), bytes, now))
    {
      hide Times, ToLong;
      var pacing := Times(pacingGain as real, maxBw);
      if pacing == Fin(0.0) {
        nextSendTime := now;
      } else {
        nextSendTime := match pacing
          case Fin(r) => ToLong(Fin(now as real + bytes as real / r))
          case NaN => LONG_MIN
          case _ => now;
      }
    }
  }
}
