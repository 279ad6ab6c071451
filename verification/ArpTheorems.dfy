/** What every run of the router's ARP code guarantees. */
module ArpTheorems {
  import opened Routes
  import opened ArpModel
  import opened ArpRuns
  import opened ArpHistory

  // ---------------------------------------------------------------------------------------------
  // ARP requests
  // ---------------------------------------------------------------------------------------------

  lemma {:induction false} OrderlyAsks(log: seq<Event>, routes: seq<Route>, ip: Ip)
    requires Orderly(log, routes)
    ensures |Asks(log, ip)| <= 5 && Spaced(Asks(log, ip))
  {
    if log != [] {
      var n := |log| - 1;
      OrderlyPrefix(log, routes, n);
      OrderlyAsks(log[..n], routes, ip);
      assert log == log[..n] + [log[n]];
      AsksAppend(log[..n], log[n], ip);
      assert MayFollow(log[..n], routes, log[n]);
    }
  }

  lemma OrderlyPrefix(log: seq<Event>, routes: seq<Route>, n: nat)
    requires Orderly(log, routes) && n <= |log|
    ensures Orderly(log[..n], routes)
  {
    hide MayFollow;
    forall k | 0 <= k < n
      ensures MayFollow(log[..n][..k], routes, log[..n][k])
    {
      assert log[..n][..k] == log[..k];
      assert log[..n][k] == log[k];
    }
  }

  /** At every point of every run an address that is neither resolved nor given up has been asked for at most
      five times, with at least two seconds between one time and the next. */
  lemma {:induction false} AtMostFiveAsks(routes: seq<Route>, ops: seq<Op>, n: nat, ip: Ip)
    requires AllAllowed(ops, routes) && n <= |Run(routes, ops).log|
    ensures var times := Asks(Run(routes, ops).log[..n], ip);
            |times| <= 5 && Spaced(times)
  {
    hide Run, Asks, Spaced;
    RunInv(routes, ops);
    OrderlyPrefix(Run(routes, ops).log, routes, n);
    OrderlyAsks(Run(routes, ops).log[..n], routes, ip);
  }

  /** Waiting packets are reported unreachable only when five requests were sent and at least ten seconds have
      passed since the first. */
  lemma {:induction false} GivesUpAfterFiveAsks(routes: seq<Route>, ops: seq<Op>, n: nat)
    requires AllAllowed(ops, routes) && n < |Run(routes, ops).log| && Run(routes, ops).log[n].Unreachable?
    ensures var e := Run(routes, ops).log[n];
            var times := Asks(Run(routes, ops).log[..n], e.ip);
            |times| == 5 && e.at - times[0] >= 10
  {
    hide Run, Asks;
    RunInv(routes, ops);
    var log := Run(routes, ops).log;
    AtMostFiveAsks(routes, ops, n, log[n].ip);
    assert MayFollow(log[..n], routes, log[n]);
    var times := Asks(log[..n], log[n].ip);
    assert times[1] - times[0] >= 2 && times[2] - times[1] >= 2 && times[3] - times[2] >= 2 && times[4] - times[3] >= 2;
  }

  /** An ARP request is for the gateway of a route and leaves on the interface of the first such route. */
  lemma {:induction false} AsksForGateways(routes: seq<Route>, ops: seq<Op>, n: nat)
    requires AllAllowed(ops, routes) && n < |Run(routes, ops).log| && Run(routes, ops).log[n].Asked?
    ensures var e := Run(routes, ops).log[n];
            exists k :: 0 <= k < |routes| && routes[k].gw == e.ip && routes[k].iface == e.iface
                        && forall j :: 0 <= j < k ==> routes[j].gw != e.ip
  {
    hide Run, Asks;
    RunInv(routes, ops);
    var log := Run(routes, ops).log;
    assert MayFollow(log[..n], routes, log[n]);
  }

  /** Pending requests have different addresses, each the gateway of a route, and each has been sent as often,
      and last at the time, that it says. */
  lemma {:induction false} PendingRequests(routes: seq<Route>, ops: seq<Op>)
    requires AllAllowed(ops, routes)
    ensures var r := Run(routes, ops);
            && (forall i, j :: 0 <= i < j < |r.requests| ==> r.requests[i].ip != r.requests[j].ip)
            && (forall i :: 0 <= i < |r.requests| ==>
                  var q := r.requests[i];
                  var times := Asks(r.log, q.ip);
                  && IsGateway(routes, q.ip)
                  && q.times == |times| <= 5 && Spaced(times)
                  && (times != [] ==> q.sent == times[|times| - 1]))
            && (forall ip :: !Pending(r.requests, ip) ==> Asks(r.log, ip) == [])
  {
    hide Run, Asks, Spaced, AllKnown, NoneWaits, Find, Pending;
    RunInv(routes, ops);
    var r := Run(routes, ops);
    forall i | 0 <= i < |r.requests|
      ensures Counted(Some(r.requests[i]), Asks(r.log, r.requests[i].ip))
      ensures Spaced(Asks(r.log, r.requests[i].ip))
    {
      PositionAt(r.requests, routes, i);
      OrderlyAsks(r.log, routes, r.requests[i].ip);
      assert Counted(Find(r.requests, r.requests[i].ip), Asks(r.log, r.requests[i].ip));
    }
    forall ip | !Pending(r.requests, ip)
      ensures Asks(r.log, ip) == []
    {
      NotPending(r.requests, ip);
      assert Counted(Find(r.requests, ip), Asks(r.log, ip));
    }
  }

  // ---------------------------------------------------------------------------------------------
  // The cache
  // ---------------------------------------------------------------------------------------------

  /** A frame leaves with an address that an earlier ARP packet gave for its own next hop, and that was not
      older than fifteen seconds at any tick in between. */
  lemma {:induction false} SendsToKnownAddresses(routes: seq<Route>, ops: seq<Op>, n: nat)
    requires AllAllowed(ops, routes) && n < |Run(routes, ops).log| && Run(routes, ops).log[n].Transmitted?
    ensures var log := Run(routes, ops).log;
            var frame := log[n].item.packet.frame;
            ETHER_HDR <= |frame| && |log[n].wire| == |frame| && log[n].wire[6..] == frame[6..]
    ensures var log := Run(routes, ops).log;
            exists m: nat :: m < n && log[m].Arrived? && log[m].ip == log[n].item.ip && log[m].mac == log[n].wire[..6]
                             && forall k :: m < k < n && log[k].Ticked? ==> log[k].at - log[m].at <= 15
  {
    hide Run;
    RunInv(routes, ops);
    var log := Run(routes, ops).log;
    assert MayFollow(log[..n], routes, log[n]);
    var mac, at :| Known(log[..n], log[n].item.ip, mac, at) && log[n].wire == Stamped(mac, log[n].item.packet.frame);
    var m: nat :| Current(log[..n], m, log[n].item.ip, mac, at);
    assert log[m] == log[..n][m];
    forall k | m < k < n && log[k].Ticked?
      ensures log[k].at - at <= 15
    {
      assert log[k] == log[..n][k];
    }
  }

  /** The address that a lookup returns was given for that address by an ARP packet, and none that is looked up
      has a request pending. */
  lemma {:induction false} LookupIsKnown(routes: seq<Route>, ops: seq<Op>, ip: Ip)
    requires AllAllowed(ops, routes) && Lookup(Run(routes, ops).entries, ip).Some?
    ensures var r := Run(routes, ops);
            var e := r.entries[Lookup(r.entries, ip).value];
            Known(r.log, ip, e.mac, e.added) && !Pending(r.requests, ip)
  {
    hide Run, Known, Pending;
    RunInv(routes, ops);
  }

  lemma {:induction false} SweepKeepsEntries(r: Router, routes: seq<Route>, i: nat, now: int)
    requires Sound(r.requests, routes) && i <= |r.requests|
    ensures SweepFrom(r, routes, i, now).entries == r.entries
    decreases |r.requests| - i
  {
    if i < |r.requests| {
      var r1 := Handle(r, routes, i, now);
      HandleSound(r, routes, i, now);
      SweepKeepsEntries(r1, routes, if |r1.requests| < |r.requests| then i else i + 1, now);
    }
  }

  lemma AttemptKeepsEntries(r: Router, routes: seq<Route>, item: Item, now: int)
    requires IsGateway(routes, item.ip) && ETHER_HDR <= |item.packet.frame|
    ensures Attempt(r, routes, item, now).entries == r.entries
  {
    hide Lookup, Enqueue, Stamped;
  }

  lemma {:induction false} ResubmitKeepsEntries(r: Router, routes: seq<Route>, ip: Ip,
      packets: seq<Packet>, n: nat, now: int)
    requires IsGateway(routes, ip) && Framed(packets) && n <= |packets|
    ensures Resubmit(r, routes, ip, packets, n, now).entries == r.entries
  {
    hide Attempt;
    if n > 0 {
      AttemptKeepsEntries(Resubmit(r, routes, ip, packets, n - 1, now), routes, Item(ip, packets[n - 1]), now);
      ResubmitKeepsEntries(r, routes, ip, packets, n - 1, now);
    }
  }

  /** After a tick exactly the entries that are at most fifteen seconds old are valid, and nothing else about
      the cache has changed. */
  lemma TickExpires(r: Router, routes: seq<Route>, now: int)
    requires Sound(r.requests, routes)
    ensures var after := Tick(r, routes, now).entries;
            |after| == |r.entries|
            && forall k :: 0 <= k < |after| ==>
                 && after[k].(valid := true) == r.entries[k].(valid := true)
                 && (after[k].valid <==> r.entries[k].valid && now - r.entries[k].added <= 15)
  {
    hide SweepFrom;
    SweepKeepsEntries(r.(entries := ExpireAll(r.entries, now)).Log(Ticked(now)), routes, 0, now);
  }

  /** Between ticks no valid slot changes, and only an ARP packet fills one: the first free slot. */
  lemma SlotsAreKept(r: Router, routes: seq<Route>, op: Op)
    requires Sound(r.requests, routes) && Allowed(op, routes) && !op.Timer?
    ensures var after := Step(r, routes, op).entries;
            |after| == |r.entries|
            && forall k :: 0 <= k < |after| ==>
                 after[k] == if op.Arrive? && k == FirstFree(r.entries) then Entry(op.mac, op.ip, op.at, true)
                             else r.entries[k]
  {
    if op.Arrive? {
      InsertSound(r, routes, op.mac, op.ip, op.at);
      var packets := WaitingFor(r.requests, op.ip);
      if packets != [] {
        hide Resubmit;
        ResubmitKeepsEntries(Insert(r, op.mac, op.ip, op.at).Log(Arrived(op.ip, op.mac, op.at)),
            routes, op.ip, packets, |packets|, op.at);
      }
    }
  }

  /** The cache has a hundred slots in every run. */
  lemma {:induction false} HundredSlots(routes: seq<Route>, ops: seq<Op>)
    requires AllAllowed(ops, routes)
    ensures |Run(routes, ops).entries| == 100
  {
    if ops != [] {
      var front, op := ops[..|ops| - 1], ops[|ops| - 1];
      HundredSlots(routes, front);
      var r := Run(routes, front);
      hide Step, Sound, Allowed;
      if op.Timer? {
        TickStep(r, routes, op.at);
      } else {
        SlotsAreKept(r, routes, op);
      }
    }
  }

  lemma TickStep(r: Router, routes: seq<Route>, now: int)
    requires Sound(r.requests, routes)
    ensures |Step(r, routes, Timer(now)).entries| == |r.entries|
  {
    TickExpires(r, routes, now);
  }

  /** What a lookup finds after an ARP packet: the new address in the slot it filled, unless an older one for the
      same address is in a later slot; a full cache stays as it is. */
  lemma {:induction false} FillResolves(entries: seq<Entry>, mac: Mac, ip: Ip, now: int)
    ensures Lookup(Fill(entries, mac, ip, now), ip) ==
            var f, before := FirstFree(entries), Lookup(entries, ip);
            if f == |entries| || (before.Some? && before.value > f) then before else Some(f)
  {
    hide FirstFree;
    var f, before := FirstFree(entries), Lookup(entries, ip);
    var after := Fill(entries, mac, ip, now);
    if f < |entries| {
      hide Fill;
      assert forall j :: 0 <= j < |entries| && j != f ==> after[j] == entries[j];
      var k := if before.Some? && before.value > f then before.value else f;
      LookupIs(after, ip, k);
    }
  }

  /** A lookup returns the last valid slot for its address. */
  lemma LookupIs(entries: seq<Entry>, ip: Ip, k: nat)
    requires k < |entries| && entries[k].valid && entries[k].ip == ip
    requires forall j :: k < j < |entries| && entries[j].valid ==> entries[j].ip != ip
    ensures Lookup(entries, ip) == Some(k)
  {
    hide LastValid;
  }

  /** The frames of a released request as they are transmitted, head first. */
  function Releases(ip: Ip, mac: Mac, packets: seq<Packet>): seq<Event>
    requires Framed(packets)
  {
    seq(|packets|, i requires 0 <= i < |packets| =>
      Transmitted(Item(ip, packets[i]), Stamped(mac, packets[i].frame)))
  }

  lemma {:induction false} ResubmitReleases(r: Router, routes: seq<Route>, ip: Ip, mac: Mac,
      packets: seq<Packet>, n: nat, now: int)
    requires IsGateway(routes, ip) && Framed(packets) && n <= |packets|
    requires Lookup(r.entries, ip).Some? && r.entries[Lookup(r.entries, ip).value].mac == mac
    ensures Resubmit(r, routes, ip, packets, n, now) == r.(log := r.log + Releases(ip, mac, packets)[..n])
  {
    hide Lookup;
    if n > 0 {
      ResubmitReleases(r, routes, ip, mac, packets, n - 1, now);
      assert Releases(ip, mac, packets)[..n]
          == Releases(ip, mac, packets)[..n - 1] + [Releases(ip, mac, packets)[n - 1]];
    }
  }

  /** An ARP packet that finds a free slot sends everything that waits for its address, to the address it
      brings, and nothing else: the request is gone and all other requests stay. */
  lemma {:induction false} ArrivalReleases(routes: seq<Route>, ops: seq<Op>, mac: Mac, ip: Ip, now: int)
    requires AllAllowed(ops, routes)
    requires var r := Run(routes, ops); FirstFree(r.entries) < |r.entries| && Pending(r.requests, ip)
    ensures var r := Run(routes, ops);
            var i := Position(r.requests, ip);
            && Framed(r.requests[i].packets)
            && Receive(r, routes, mac, ip, now) ==
               Router(Fill(r.entries, mac, ip, now), Without(r.requests, i),
                      r.log + [Arrived(ip, mac, now)] + Releases(ip, mac, r.requests[i].packets))
  {
    hide Run, Resubmit, Releases, AllCounted, AllKnown, Orderly, Position;
    RunInv(routes, ops);
    var r := Run(routes, ops);
    var i := Position(r.requests, ip);
    var packets := r.requests[i].packets;
    assert Lookup(r.entries, ip).None?;
    FillResolves(r.entries, mac, ip, now);
    ReleasesLength(ip, mac, packets);
    if packets != [] {
      ResubmitReleases(Insert(r, mac, ip, now).Log(Arrived(ip, mac, now)), routes, ip, mac, packets, |packets|, now);
    }
  }

  lemma ReleasesLength(ip: Ip, mac: Mac, packets: seq<Packet>)
    requires Framed(packets)
    ensures |Releases(ip, mac, packets)| == |packets|
    ensures Releases(ip, mac, packets)[..|packets|] == Releases(ip, mac, packets)
  {
  }
}
