/** What the router keeps over every run of submitted frames, ARP arrivals and timer ticks. */
module ArpRuns {
  import opened Routes
  import opened ArpModel

  /** The ICMP errors that `Unreachable` stands for reach the router again as frames that it submits. */
  datatype Op =
    | Submit(item: Item, at: int)
    | Arrive(mac: Mac, ip: Ip, at: int)
    | Timer(at: int)

  /** Frames are submitted for the gateway of a route and hold an Ethernet header. */
  predicate Allowed(op: Op, routes: seq<Route>) {
    op.Submit? ==> IsGateway(routes, op.item.ip) && ETHER_HDR <= |op.item.packet.frame|
  }

  predicate AllAllowed(ops: seq<Op>, routes: seq<Route>) {
    forall i :: 0 <= i < |ops| ==> Allowed(ops[i], routes)
  }

  function Step(r: Router, routes: seq<Route>, op: Op): (r': Router)
    requires Sound(r.requests, routes) && Allowed(op, routes)
  {
    match op
    case Submit(item, at) => Attempt(r, routes, item, at)
    case Arrive(mac, ip, at) => Receive(r, routes, mac, ip, at)
    case Timer(at) => Tick(r, routes, at)
  }

  function Run(routes: seq<Route>, ops: seq<Op>): (r: Router)
    requires AllAllowed(ops, routes)
    ensures Sound(r.requests, routes)
  {
    if ops == [] then Empty()
    else
      StepSound(Run(routes, ops[..|ops| - 1]), routes, ops[|ops| - 1]);
      Step(Run(routes, ops[..|ops| - 1]), routes, ops[|ops| - 1])
  }

  // ---------------------------------------------------------------------------------------------
  // Requests stay sound
  // ---------------------------------------------------------------------------------------------

  lemma AttemptSound(r: Router, routes: seq<Route>, item: Item, now: int)
    requires Sound(r.requests, routes) && IsGateway(routes, item.ip) && ETHER_HDR <= |item.packet.frame|
    ensures Sound(Attempt(r, routes, item, now).requests, routes)
  {
    hide Sound, Handle, Enqueue, Position;
    if Lookup(r.entries, item.ip).None? {
      EnqueueSound(r.requests, routes, item.ip, item.packet);
      EnqueuePending(r.requests, item.ip, item.packet);
      var q := Enqueue(r.requests, item.ip, item.packet);
      HandleSound(r.(requests := q), routes, Position(q, item.ip), now);
    }
  }

  lemma InsertSound(r: Router, routes: seq<Route>, mac: Mac, ip: Ip, now: int)
    requires Sound(r.requests, routes)
    ensures Sound(Insert(r, mac, ip, now).requests, routes)
    ensures !Pending(Insert(r, mac, ip, now).requests, ip)
    ensures Framed(WaitingFor(r.requests, ip))
    ensures WaitingFor(r.requests, ip) != [] ==> IsGateway(routes, ip)
  {
    hide IsGateway;
    var i := Position(r.requests, ip);
    if i < |r.requests| {
      WithoutSound(r.requests, routes, i);
    }
  }

  lemma {:induction false} ResubmitSound(r: Router, routes: seq<Route>, ip: Ip, packets: seq<Packet>, n: nat, now: int)
    requires Sound(r.requests, routes) && IsGateway(routes, ip) && Framed(packets) && n <= |packets|
    ensures Sound(Resubmit(r, routes, ip, packets, n, now).requests, routes)
  {
    hide Attempt, Sound;
    if n > 0 {
      ResubmitSound(r, routes, ip, packets, n - 1, now);
      AttemptSound(Resubmit(r, routes, ip, packets, n - 1, now), routes, Item(ip, packets[n - 1]), now);
    }
  }

  lemma {:induction false} SweepSound(r: Router, routes: seq<Route>, i: nat, now: int)
    requires Sound(r.requests, routes) && i <= |r.requests|
    ensures Sound(SweepFrom(r, routes, i, now).requests, routes)
    decreases |r.requests| - i
  {
    if i < |r.requests| {
      var r1 := Handle(r, routes, i, now);
      HandleSound(r, routes, i, now);
      SweepSound(r1, routes, if |r1.requests| < |r.requests| then i else i + 1, now);
    }
  }

  lemma StepSound(r: Router, routes: seq<Route>, op: Op)
    requires Sound(r.requests, routes) && Allowed(op, routes)
    ensures Sound(Step(r, routes, op).requests, routes)
  {
    hide Sound, Attempt, Insert, SweepFrom, WaitingFor;
    match op
    case Submit(item, at) => AttemptSound(r, routes, item, at);
    case Arrive(mac, ip, at) =>
      InsertSound(r, routes, mac, ip, at);
      var packets := WaitingFor(r.requests, ip);
      if packets != [] {
        ResubmitSound(Insert(r, mac, ip, at).Log(Arrived(ip, mac, at)), routes, ip, packets, |packets|, at);
      }
    case Timer(at) => SweepSound(r.(entries := ExpireAll(r.entries, at)).Log(Ticked(at)), routes, 0, at);
  }

  // ---------------------------------------------------------------------------------------------
  // Frames are conserved
  // ---------------------------------------------------------------------------------------------

  function Items(ip: Ip, packets: seq<Packet>): multiset<Item> {
    if packets == [] then multiset{} else multiset{Item(ip, packets[0])} + Items(ip, packets[1..])
  }

  function Waiting(requests: seq<Request>): multiset<Item> {
    if requests == [] then multiset{} else Items(requests[0].ip, requests[0].packets) + Waiting(requests[1..])
  }

  function Transmissions(log: seq<Event>): multiset<Item> {
    if log == [] then multiset{}
    else
      var e := log[|log| - 1];
      Transmissions(log[..|log| - 1]) + if e.Transmitted? then multiset{e.item} else multiset{}
  }

  function Reports(log: seq<Event>): multiset<Item> {
    if log == [] then multiset{}
    else
      var e := log[|log| - 1];
      Reports(log[..|log| - 1]) + if e.Unreachable? then Items(e.ip, e.packets) else multiset{}
  }

  /** Everything that was sent, reported or still waits. */
  function Account(r: Router): multiset<Item> {
    Transmissions(r.log) + Reports(r.log) + Waiting(r.requests)
  }

  function Submissions(ops: seq<Op>): multiset<Item> {
    if ops == [] then multiset{}
    else
      var op := ops[|ops| - 1];
      Submissions(ops[..|ops| - 1]) + if op.Submit? then multiset{op.item} else multiset{}
  }

  lemma AccountLog(r: Router, e: Event)
    ensures Account(r.Log(e)) == Account(r)
            + (if e.Transmitted? then multiset{e.item} else multiset{})
            + (if e.Unreachable? then Items(e.ip, e.packets) else multiset{})
  {
    assert (r.log + [e])[..|r.log|] == r.log;
  }

  lemma {:induction false} WaitingWithout(requests: seq<Request>, i: nat)
    requires i < |requests|
    ensures Waiting(requests) == Waiting(Without(requests, i)) + Items(requests[i].ip, requests[i].packets)
  {
    hide Items;
    if i == 0 {
      assert Without(requests, 0) == requests[1..];
    } else {
      WaitingWithout(requests[1..], i - 1);
      WithoutTail(requests, i);
    }
  }

  lemma WithoutTail(requests: seq<Request>, i: nat)
    requires 0 < i < |requests|
    ensures Without(requests, i) == [requests[0]] + Without(requests[1..], i - 1)
    ensures Without(requests, i)[1..] == Without(requests[1..], i - 1)
  {
  }

  lemma WaitingUpdate(requests: seq<Request>, i: nat, q: Request)
    requires i < |requests|
    ensures Waiting(requests[i := q]) + Items(requests[i].ip, requests[i].packets)
            == Waiting(requests) + Items(q.ip, q.packets)
  {
    WaitingWithout(requests, i);
    WaitingWithout(requests[i := q], i);
    assert Without(requests[i := q], i) == Without(requests, i);
  }

  lemma {:induction false} ItemsStack(ip: Ip, packet: Packet, packets: seq<Packet>)
    requires packet.frame != []
    ensures Items(ip, Stack(packet, packets)) == multiset{Item(ip, packet)} + Items(ip, packets)
  {
    assert Stack(packet, packets)[1..] == packets;
  }

  lemma {:induction false} NoItems(ip: Ip)
    ensures Items(ip, []) == multiset{}
  {
  }

  lemma {:induction false} WaitingFront(q: Request, requests: seq<Request>)
    ensures Waiting([q] + requests) == Items(q.ip, q.packets) + Waiting(requests)
  {
    hide Items;
    assert ([q] + requests)[1..] == requests;
  }

  lemma {:induction false} WaitingEnqueue(requests: seq<Request>, ip: Ip, packet: Packet)
    requires packet.frame != []
    ensures Waiting(Enqueue(requests, ip, packet)) == Waiting(requests) + multiset{Item(ip, packet)}
  {
    hide Items, Stack, Waiting, Position;
    var i := Position(requests, ip);
    if i < |requests| {
      var waiting := requests[i].packets;
      WaitingUpdate(requests, i, requests[i].(packets := Stack(packet, waiting)));
      ItemsStack(ip, packet, waiting);
      Cancel(Waiting(Enqueue(requests, ip, packet)), Waiting(requests) + multiset{Item(ip, packet)},
          Items(ip, waiting));
    } else {
      WaitingFront(Request(ip, 0, 0, Stack(packet, [])), requests);
      ItemsStack(ip, packet, []);
      NoItems(ip);
    }
  }

  lemma Cancel(a: multiset<Item>, b: multiset<Item>, c: multiset<Item>)
    requires a + c == b + c
    ensures a == b
  {
    assert a == a + c - c;
  }

  lemma HandleAccount(r: Router, routes: seq<Route>, i: nat, now: int)
    requires i < |r.requests| && IsGateway(routes, r.requests[i].ip)
    ensures Account(Handle(r, routes, i, now)) == Account(r)
  {
    hide Waiting, Items, Transmissions, Reports, Without;
    var q := r.requests[i];
    if now - q.sent > 1 {
      if q.times >= MAX_SENDS {
        WaitingWithout(r.requests, i);
        AccountLog(r.(requests := Without(r.requests, i)), Unreachable(q.ip, q.packets, now));
      } else {
        var asked := q.(sent := now, times := q.times + 1);
        WaitingUpdate(r.requests, i, asked);
        Cancel(Waiting(r.requests[i := asked]), Waiting(r.requests), Items(q.ip, q.packets));
        AccountLog(r.(requests := r.requests[i := asked]), Asked(q.ip, routes[FirstVia(routes, q.ip)].iface, now));
      }
    }
  }

  lemma AttemptAccount(r: Router, routes: seq<Route>, item: Item, now: int)
    requires IsGateway(routes, item.ip) && ETHER_HDR <= |item.packet.frame|
    ensures Account(Attempt(r, routes, item, now)) == Account(r) + multiset{item}
  {
    hide Waiting, Items, Transmissions, Reports, Handle, Enqueue;
    match Lookup(r.entries, item.ip)
    case Some(k) => AccountLog(r, Transmitted(item, Stamped(r.entries[k].mac, item.packet.frame)));
    case None =>
      var q := Enqueue(r.requests, item.ip, item.packet);
      EnqueuePending(r.requests, item.ip, item.packet);
      WaitingEnqueue(r.requests, item.ip, item.packet);
      HandleAccount(r.(requests := q), routes, Position(q, item.ip), now);
  }

  lemma {:induction false} ResubmitAccount(r: Router, routes: seq<Route>, ip: Ip,
      packets: seq<Packet>, n: nat, now: int)
    requires IsGateway(routes, ip) && Framed(packets) && n <= |packets|
    ensures Account(Resubmit(r, routes, ip, packets, n, now)) + Items(ip, packets[n..])
        == Account(r) + Items(ip, packets)
  {
    hide Account, Attempt;
    if n == 0 {
      assert packets[0..] == packets;
    } else {
      ResubmitAccount(r, routes, ip, packets, n - 1, now);
      AttemptAccount(Resubmit(r, routes, ip, packets, n - 1, now), routes, Item(ip, packets[n - 1]), now);
      assert packets[n - 1..][1..] == packets[n..];
    }
  }

  lemma ReceiveAccount(r: Router, routes: seq<Route>, mac: Mac, ip: Ip, now: int)
    requires Sound(r.requests, routes)
    ensures Account(Receive(r, routes, mac, ip, now)) == Account(r)
  {
    hide Sound, Transmissions, Reports, Waiting, Items, Resubmit;
    var packets := WaitingFor(r.requests, ip);
    var inserted := Insert(r, mac, ip, now);
    AccountLog(inserted, Arrived(ip, mac, now));
    if Pending(r.requests, ip) {
      WaitingWithout(r.requests, Position(r.requests, ip));
    }
    InsertSound(r, routes, mac, ip, now);
    NoItems(ip);
    if packets != [] {
      var logged := inserted.Log(Arrived(ip, mac, now));
      ResubmitAccount(logged, routes, ip, packets, |packets|, now);
      assert packets[|packets|..] == [];
      hide Account, Position, Insert, WaitingFor;
      assert Account(logged) + Items(ip, packets) == Account(r);
    }
  }

  lemma {:induction false} SweepAccount(r: Router, routes: seq<Route>, i: nat, now: int)
    requires Sound(r.requests, routes) && i <= |r.requests|
    ensures Account(SweepFrom(r, routes, i, now)) == Account(r)
    decreases |r.requests| - i
  {
    hide Account;
    if i < |r.requests| {
      var r1 := Handle(r, routes, i, now);
      HandleSound(r, routes, i, now);
      HandleAccount(r, routes, i, now);
      SweepAccount(r1, routes, if |r1.requests| < |r.requests| then i else i + 1, now);
    }
  }

  /** Whatever happens, also with a full cache, every submitted frame was transmitted, still waits on the
      request for its next hop, or was reported unreachable, and each as often as it was submitted. */
  lemma {:induction false} FramesConserved(routes: seq<Route>, ops: seq<Op>)
    requires AllAllowed(ops, routes)
    ensures var r := Run(routes, ops);
            Submissions(ops) == Transmissions(r.log) + Reports(r.log) + Waiting(r.requests)
  {
    if ops != [] {
      var op := ops[|ops| - 1];
      FramesConserved(routes, ops[..|ops| - 1]);
      var r := Run(routes, ops[..|ops| - 1]);
      hide Sound, Waiting, Transmissions, Reports, SweepFrom, Attempt, Receive;
      match op
      case Submit(item, at) => AttemptAccount(r, routes, item, at);
      case Arrive(mac, ip, at) => ReceiveAccount(r, routes, mac, ip, at);
      case Timer(at) =>
        AccountLog(r.(entries := ExpireAll(r.entries, at)), Ticked(at));
        SweepAccount(r.(entries := ExpireAll(r.entries, at)).Log(Ticked(at)), routes, 0, at);
    }
  }
}
