/** The order of events over every run: how often and how far apart the router asks, when it gives up, and
    which addresses it sends to. */
module ArpHistory {
  import opened Routes
  import opened ArpModel
  import opened ArpRuns

  function AsksAfter(before: seq<int>, e: Event, ip: Ip): seq<int> {
    match e
    case Asked(asked, _, at) => if asked == ip then before + [at] else before
    case Arrived(learnt, _, _) => if learnt == ip then [] else before
    case Unreachable(lost, _, _) => if lost == ip then [] else before
    case _ => before
  }

  /** The times of the ARP requests for `ip` since it last was resolved or given up. */
  function Asks(log: seq<Event>, ip: Ip): seq<int> {
    if log == [] then [] else AsksAfter(Asks(log[..|log| - 1], ip), log[|log| - 1], ip)
  }

  ghost predicate Spaced(times: seq<int>) {
    forall a, b :: 0 <= a && b == a + 1 && b < |times| ==> times[b] - times[a] >= 2
  }

  /** At least two seconds have passed since the last of `times`. */
  predicate Due(times: seq<int>, now: int) {
    times != [] ==> now - times[|times| - 1] >= 2
  }

  /** Event `m` taught the router an address that no later tick found older than the timeout. */
  predicate Current(log: seq<Event>, m: nat, ip: Ip, mac: Mac, at: int) {
    && m < |log| && log[m] == Arrived(ip, mac, at)
    && forall k :: m < k < |log| && log[k].Ticked? ==> log[k].at - at <= CACHE_TIMEOUT
  }

  ghost predicate Known(log: seq<Event>, ip: Ip, mac: Mac, at: int) {
    exists m :: Current(log, m, ip, mac, at)
  }

  /** What may follow `log`: asking for a gateway, on its route's interface, fewer than five times before and
      two seconds after the last time; giving up after five times; sending to an address that is current. */
  ghost predicate MayFollow(log: seq<Event>, routes: seq<Route>, e: Event) {
    match e
    case Asked(ip, iface, at) =>
      && IsGateway(routes, ip) && iface == routes[FirstVia(routes, ip)].iface
      && |Asks(log, ip)| < MAX_SENDS && Due(Asks(log, ip), at)
    case Unreachable(ip, _, at) => |Asks(log, ip)| == MAX_SENDS && Due(Asks(log, ip), at)
    case Transmitted(item, wire) =>
      ETHER_HDR <= |item.packet.frame|
      && exists mac, at :: Known(log, item.ip, mac, at) && wire == Stamped(mac, item.packet.frame)
    case _ => true
  }

  ghost predicate Orderly(log: seq<Event>, routes: seq<Route>) {
    forall n :: 0 <= n < |log| ==> MayFollow(log[..n], routes, log[n])
  }

  function Find(requests: seq<Request>, ip: Ip): Option<Request> {
    var i := Position(requests, ip);
    if i < |requests| then Some(requests[i]) else None
  }

  /** The counter and the time of a pending request are those of the requests sent for it. */
  predicate Counted(q: Option<Request>, times: seq<int>) {
    match q
    case None => times == []
    case Some(q) => q.times == |times| <= MAX_SENDS && (times != [] ==> times[|times| - 1] == q.sent)
  }

  ghost predicate AllCounted(requests: seq<Request>, log: seq<Event>) {
    forall ip: Ip :: Counted(Find(requests, ip), Asks(log, ip))
  }

  ghost predicate AllKnown(entries: seq<Entry>, log: seq<Event>) {
    forall k :: 0 <= k < |entries| && entries[k].valid ==> Known(log, entries[k].ip, entries[k].mac, entries[k].added)
  }

  /** Nothing waits for an address that the cache holds. */
  predicate NoneWaits(entries: seq<Entry>, requests: seq<Request>) {
    forall k :: 0 <= k < |entries| && entries[k].valid ==> !Pending(requests, entries[k].ip)
  }

  ghost predicate Inv(r: Router, routes: seq<Route>) {
    && Sound(r.requests, routes)
    && AllCounted(r.requests, r.log)
    && AllKnown(r.entries, r.log)
    && NoneWaits(r.entries, r.requests)
    && Orderly(r.log, routes)
  }

  // ---------------------------------------------------------------------------------------------
  // One more event
  // ---------------------------------------------------------------------------------------------

  lemma {:induction false} AsksAppend(log: seq<Event>, e: Event, ip: Ip)
    ensures Asks(log + [e], ip) == AsksAfter(Asks(log, ip), e, ip)
  {
    assert (log + [e])[..|log|] == log;
  }

  lemma OrderlyAppend(log: seq<Event>, routes: seq<Route>, e: Event)
    requires Orderly(log, routes) && MayFollow(log, routes, e)
    ensures Orderly(log + [e], routes)
  {
    hide MayFollow;
    forall n | 0 <= n < |log| + 1
      ensures MayFollow((log + [e])[..n], routes, (log + [e])[n])
    {
      assert (log + [e])[..n] == log[..n];
      assert n == |log| ==> log[..n] == log;
    }
  }

  lemma KnownAppend(log: seq<Event>, e: Event, ip: Ip, mac: Mac, at: int)
    requires Known(log, ip, mac, at)
    requires e.Ticked? ==> e.at - at <= CACHE_TIMEOUT
    ensures Known(log + [e], ip, mac, at)
  {
    var m :| Current(log, m, ip, mac, at);
    assert Current(log + [e], m, ip, mac, at);
  }

  lemma AllKnownAppend(entries: seq<Entry>, log: seq<Event>, e: Event)
    requires AllKnown(entries, log) && !e.Ticked?
    ensures AllKnown(entries, log + [e])
  {
    forall k | 0 <= k < |entries| && entries[k].valid
      ensures Known(log + [e], entries[k].ip, entries[k].mac, entries[k].added)
    {
      KnownAppend(log, e, entries[k].ip, entries[k].mac, entries[k].added);
    }
  }

  // ---------------------------------------------------------------------------------------------
  // The requests seen by address
  // ---------------------------------------------------------------------------------------------

  lemma {:induction false} PositionAt(requests: seq<Request>, routes: seq<Route>, i: nat)
    requires Sound(requests, routes) && i < |requests|
    ensures Position(requests, requests[i].ip) == i
    ensures Find(requests, requests[i].ip) == Some(requests[i])
  {
    hide IsGateway, Framed;
  }

  lemma {:induction false} PositionUpdate(requests: seq<Request>, i: nat, q: Request, ip: Ip)
    requires i < |requests| && q.ip == requests[i].ip
    ensures Position(requests[i := q], ip) == Position(requests, ip)
  {
    if i > 0 {
      PositionUpdate(requests[1..], i - 1, q, ip);
      assert requests[i := q][1..] == requests[1..][i - 1 := q];
    } else {
      assert requests[i := q][1..] == requests[1..];
    }
  }

  lemma FindUpdate(requests: seq<Request>, routes: seq<Route>, i: nat, q: Request, ip: Ip)
    requires Sound(requests, routes) && i < |requests| && q.ip == requests[i].ip
    ensures Find(requests[i := q], ip) == if ip == q.ip then Some(q) else Find(requests, ip)
  {
    hide Sound, Position;
    PositionUpdate(requests, i, q, ip);
    PositionAt(requests, routes, i);
  }

  lemma {:induction false} FindWithoutOther(requests: seq<Request>, i: nat, ip: Ip)
    requires i < |requests| && requests[i].ip != ip
    ensures Find(Without(requests, i), ip) == Find(requests, ip)
  {
    hide Without, Position, Find;
    FindTail(requests, ip);
    if i > 0 {
      FindWithoutOther(requests[1..], i - 1, ip);
      WithoutTail(requests, i);
      FindTail(Without(requests, i), ip);
    } else {
      WithoutHead(requests);
    }
  }

  lemma FindTail(requests: seq<Request>, ip: Ip)
    requires requests != []
    ensures Find(requests, ip) == if requests[0].ip == ip then Some(requests[0]) else Find(requests[1..], ip)
  {
  }

  lemma WithoutHead(requests: seq<Request>)
    requires requests != []
    ensures Without(requests, 0) == requests[1..]
  {
  }

  lemma FindWithout(requests: seq<Request>, routes: seq<Route>, i: nat, ip: Ip)
    requires Sound(requests, routes) && i < |requests|
    ensures Find(Without(requests, i), ip) == if ip == requests[i].ip then None else Find(requests, ip)
  {
    hide Position, Sound, Without;
    if ip == requests[i].ip {
      WithoutSound(requests, routes, i);
    } else {
      FindWithoutOther(requests, i, ip);
    }
  }

  lemma FindEnqueue(requests: seq<Request>, routes: seq<Route>, ip: Ip, packet: Packet, other: Ip)
    requires Sound(requests, routes)
    ensures other != ip ==> Find(Enqueue(requests, ip, packet), other) == Find(requests, other)
    ensures var q := Find(Enqueue(requests, ip, packet), ip);
            q.Some? && match Find(requests, ip)
                       case Some(old_) => q.value.times == old_.times && q.value.sent == old_.sent
                       case None => q.value.times == 0 && q.value.sent == 0
  {
    hide Sound, Stack;
    EnqueuePending(requests, ip, packet);
    var i := Position(requests, ip);
    if i < |requests| {
      var q := requests[i].(packets := Stack(packet, requests[i].packets));
      FindUpdate(requests, routes, i, q, other);
    } else {
      var q := Request(ip, 0, 0, Stack(packet, []));
      assert Enqueue(requests, ip, packet)[1..] == requests;
    }
  }

  // ---------------------------------------------------------------------------------------------
  // The steps of an operation
  // ---------------------------------------------------------------------------------------------

  lemma NotPending(requests: seq<Request>, ip: Ip)
    ensures Find(requests, ip).None? <==> !Pending(requests, ip)
  {
  }

  lemma AskedCounted(r: Router, routes: seq<Route>, i: nat, iface: string, now: int)
    requires Sound(r.requests, routes) && AllCounted(r.requests, r.log) && i < |r.requests|
    requires r.requests[i].times < MAX_SENDS
    ensures var q := r.requests[i].(sent := now, times := r.requests[i].times + 1);
            AllCounted(r.requests[i := q], r.log + [Asked(q.ip, iface, now)])
  {
    hide Find, Asks, Sound;
    var q := r.requests[i].(sent := now, times := r.requests[i].times + 1);
    var e := Asked(q.ip, iface, now);
    PositionAt(r.requests, routes, i);
    forall ip: Ip
      ensures Counted(Find(r.requests[i := q], ip), Asks(r.log + [e], ip))
    {
      AsksAppend(r.log, e, ip);
      FindUpdate(r.requests, routes, i, q, ip);
      assert Counted(Find(r.requests, ip), Asks(r.log, ip));
    }
  }

  lemma GoneCounted(r: Router, routes: seq<Route>, i: nat, e: Event)
    requires Sound(r.requests, routes) && AllCounted(r.requests, r.log) && i < |r.requests|
    requires (e.Arrived? || e.Unreachable?) && e.ip == r.requests[i].ip
    ensures AllCounted(Without(r.requests, i), r.log + [e])
  {
    hide Find, Asks, Sound, Without;
    forall ip: Ip
      ensures Counted(Find(Without(r.requests, i), ip), Asks(r.log + [e], ip))
    {
      AsksAppend(r.log, e, ip);
      FindWithout(r.requests, routes, i, ip);
      assert Counted(Find(r.requests, ip), Asks(r.log, ip));
    }
  }

  /** An event that leaves the requests alone, or resolves an address that nothing waits for. */
  lemma OtherCounted(r: Router, e: Event)
    requires AllCounted(r.requests, r.log)
    requires e.Ticked? || e.Transmitted? || (e.Arrived? && !Pending(r.requests, e.ip))
    ensures AllCounted(r.requests, r.log + [e])
  {
    hide Find, Asks, Pending;
    forall ip: Ip
      ensures Counted(Find(r.requests, ip), Asks(r.log + [e], ip))
    {
      AsksAppend(r.log, e, ip);
      NotPending(r.requests, ip);
      assert Counted(Find(r.requests, ip), Asks(r.log, ip));
    }
  }

  lemma UpdateWaits(entries: seq<Entry>, requests: seq<Request>, i: nat, q: Request)
    requires NoneWaits(entries, requests) && i < |requests| && q.ip == requests[i].ip
    ensures NoneWaits(entries, requests[i := q])
  {
    hide Position;
    forall k | 0 <= k < |entries| && entries[k].valid
      ensures !Pending(requests[i := q], entries[k].ip)
    {
      PositionUpdate(requests, i, q, entries[k].ip);
    }
  }

  lemma WithoutWaits(entries: seq<Entry>, requests: seq<Request>, routes: seq<Route>, i: nat)
    requires NoneWaits(entries, requests) && Sound(requests, routes) && i < |requests|
    ensures NoneWaits(entries, Without(requests, i))
  {
    hide Find, Pending, Sound, Without;
    forall k | 0 <= k < |entries| && entries[k].valid
      ensures !Pending(Without(requests, i), entries[k].ip)
    {
      FindWithout(requests, routes, i, entries[k].ip);
      NotPending(requests, entries[k].ip);
      NotPending(Without(requests, i), entries[k].ip);
    }
  }

  lemma EnqueueInv(r: Router, routes: seq<Route>, item: Item)
    requires Inv(r, routes) && IsGateway(routes, item.ip) && ETHER_HDR <= |item.packet.frame|
    requires Lookup(r.entries, item.ip).None?
    ensures Inv(r.(requests := Enqueue(r.requests, item.ip, item.packet)), routes)
  {
    hide Find, Asks, Sound, AllKnown, Orderly, Pending, Enqueue;
    var requests := Enqueue(r.requests, item.ip, item.packet);
    EnqueueSound(r.requests, routes, item.ip, item.packet);
    forall ip: Ip
      ensures Counted(Find(requests, ip), Asks(r.log, ip))
    {
      FindEnqueue(r.requests, routes, item.ip, item.packet, ip);
      assert Counted(Find(r.requests, ip), Asks(r.log, ip));
    }
    forall k | 0 <= k < |r.entries| && r.entries[k].valid
      ensures !Pending(requests, r.entries[k].ip)
    {
      FindEnqueue(r.requests, routes, item.ip, item.packet, r.entries[k].ip);
      NotPending(r.requests, r.entries[k].ip);
      NotPending(requests, r.entries[k].ip);
    }
  }

  lemma HandleInv(r: Router, routes: seq<Route>, i: nat, now: int)
    requires Inv(r, routes) && i < |r.requests|
    ensures Inv(Handle(r, routes, i, now), routes)
  {
    var q := r.requests[i];
    HandleSound(r, routes, i, now);
    PositionAt(r.requests, routes, i);
    assert IsGateway(routes, q.ip);
    hide Sound, Find, Asks, AllKnown, NoneWaits, Orderly, Without, IsGateway;
    assert Counted(Find(r.requests, q.ip), Asks(r.log, q.ip));
    if now - q.sent > 1 {
      if q.times >= MAX_SENDS {
        var e := Unreachable(q.ip, q.packets, now);
        GoneCounted(r, routes, i, e);
        WithoutWaits(r.entries, r.requests, routes, i);
        AllKnownAppend(r.entries, r.log, e);
        OrderlyAppend(r.log, routes, e);
      } else {
        var e := Asked(q.ip, routes[FirstVia(routes, q.ip)].iface, now);
        AskedCounted(r, routes, i, e.iface, now);
        UpdateWaits(r.entries, r.requests, i, q.(sent := now, times := q.times + 1));
        AllKnownAppend(r.entries, r.log, e);
        OrderlyAppend(r.log, routes, e);
      }
    }
  }

  lemma AttemptInv(r: Router, routes: seq<Route>, item: Item, now: int)
    requires Inv(r, routes) && IsGateway(routes, item.ip) && ETHER_HDR <= |item.packet.frame|
    ensures Inv(Attempt(r, routes, item, now), routes)
  {
    hide Sound, AllCounted, Orderly, IsGateway, Handle, Enqueue, NoneWaits, Pending, Stamped;
    match Lookup(r.entries, item.ip)
    case Some(k) =>
      var e := Transmitted(item, Stamped(r.entries[k].mac, item.packet.frame));
      assert Known(r.log, item.ip, r.entries[k].mac, r.entries[k].added);
      hide AllKnown, Known;
      assert MayFollow(r.log, routes, e);
      OtherCounted(r, e);
      AllKnownAppend(r.entries, r.log, e);
      OrderlyAppend(r.log, routes, e);
    case None =>
      hide Inv;
      EnqueueInv(r, routes, item);
      EnqueuePending(r.requests, item.ip, item.packet);
      var q := Enqueue(r.requests, item.ip, item.packet);
      HandleInv(r.(requests := q), routes, Position(q, item.ip), now);
  }

  lemma FillKnown(entries: seq<Entry>, log: seq<Event>, mac: Mac, ip: Ip, now: int)
    requires AllKnown(entries, log)
    ensures AllKnown(Fill(entries, mac, ip, now), log + [Arrived(ip, mac, now)])
  {
    hide Known, FirstFree;
    var e := Arrived(ip, mac, now);
    AllKnownAppend(entries, log, e);
    LastIsKnown(log, ip, mac, now);
  }

  lemma LastIsKnown(log: seq<Event>, ip: Ip, mac: Mac, now: int)
    ensures Known(log + [Arrived(ip, mac, now)], ip, mac, now)
  {
    assert Current(log + [Arrived(ip, mac, now)], |log|, ip, mac, now);
  }

  lemma InsertInv(r: Router, routes: seq<Route>, mac: Mac, ip: Ip, now: int)
    requires Inv(r, routes)
    ensures Inv(Insert(r, mac, ip, now).Log(Arrived(ip, mac, now)), routes)
  {
    hide Sound, AllCounted, AllKnown, Orderly, Without;
    var r1 := Insert(r, mac, ip, now);
    var e := Arrived(ip, mac, now);
    var i := Position(r.requests, ip);
    InsertSound(r, routes, mac, ip, now);
    FillKnown(r.entries, r.log, mac, ip, now);
    OrderlyAppend(r.log, routes, e);
    if i < |r.requests| {
      GoneCounted(r, routes, i, e);
      WithoutWaits(r.entries, r.requests, routes, i);
    } else {
      OtherCounted(r, e);
    }
    hide Pending;
    assert NoneWaits(r.entries, r1.requests);
    assert NoneWaits(r1.entries, r1.requests);
  }

  lemma ExpireInv(r: Router, routes: seq<Route>, now: int)
    requires Inv(r, routes)
    ensures Inv(r.(entries := ExpireAll(r.entries, now)).Log(Ticked(now)), routes)
  {
    hide Sound, AllCounted, Known, Orderly, Pending;
    var e := Ticked(now);
    var entries := ExpireAll(r.entries, now);
    OtherCounted(r, e);
    OrderlyAppend(r.log, routes, e);
    forall k | 0 <= k < |entries| && entries[k].valid
      ensures Known(r.log + [e], entries[k].ip, entries[k].mac, entries[k].added)
    {
      KnownAppend(r.log, e, entries[k].ip, entries[k].mac, entries[k].added);
    }
  }

  // ---------------------------------------------------------------------------------------------
  // Whole operations and runs
  // ---------------------------------------------------------------------------------------------

  lemma {:induction false} ResubmitInv(r: Router, routes: seq<Route>, ip: Ip, packets: seq<Packet>, n: nat, now: int)
    requires Inv(r, routes) && IsGateway(routes, ip) && Framed(packets) && n <= |packets|
    ensures Inv(Resubmit(r, routes, ip, packets, n, now), routes)
  {
    hide Inv, Attempt, IsGateway;
    if n > 0 {
      ResubmitInv(r, routes, ip, packets, n - 1, now);
      AttemptInv(Resubmit(r, routes, ip, packets, n - 1, now), routes, Item(ip, packets[n - 1]), now);
    }
  }

  lemma {:induction false} SweepInv(r: Router, routes: seq<Route>, i: nat, now: int)
    requires Inv(r, routes) && i <= |r.requests|
    ensures Inv(SweepFrom(r, routes, i, now), routes)
    decreases |r.requests| - i
  {
    hide AllCounted, AllKnown, NoneWaits, Orderly;
    if i < |r.requests| {
      var r1 := Handle(r, routes, i, now);
      HandleInv(r, routes, i, now);
      SweepInv(r1, routes, if |r1.requests| < |r.requests| then i else i + 1, now);
    }
  }

  lemma StepInv(r: Router, routes: seq<Route>, op: Op)
    requires Inv(r, routes) && Allowed(op, routes)
    ensures Inv(Step(r, routes, op), routes)
  {
    hide AllCounted, AllKnown, NoneWaits, Orderly, Sound, Attempt, Insert, SweepFrom, WaitingFor;
    match op
    case Submit(item, at) => AttemptInv(r, routes, item, at);
    case Arrive(mac, ip, at) =>
      InsertSound(r, routes, mac, ip, at);
      InsertInv(r, routes, mac, ip, at);
      var packets := WaitingFor(r.requests, ip);
      if packets != [] {
        ResubmitInv(Insert(r, mac, ip, at).Log(Arrived(ip, mac, at)), routes, ip, packets, |packets|, at);
      }
    case Timer(at) =>
      ExpireInv(r, routes, at);
      SweepInv(r.(entries := ExpireAll(r.entries, at)).Log(Ticked(at)), routes, 0, at);
  }

  lemma {:induction false} RunInv(routes: seq<Route>, ops: seq<Op>)
    requires AllAllowed(ops, routes)
    ensures Inv(Run(routes, ops), routes)
  {
    hide Step, Inv;
    if ops == [] {
      EmptyInv(routes);
    } else {
      RunInv(routes, ops[..|ops| - 1]);
      StepInv(Run(routes, ops[..|ops| - 1]), routes, ops[|ops| - 1]);
    }
  }

  lemma EmptyInv(routes: seq<Route>)
    ensures Inv(Empty(), routes)
  {
  }
}
