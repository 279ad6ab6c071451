/** What a tick and a submitted frame do to the waiting requests, request by request: a request is asked when it is
    due, and only then. */
module ArpSweep {
  import opened Routes
  import opened ArpModel
  import opened ArpRuns

  /** More than one second has passed since a request was last sent. */
  predicate IsDue(q: Request, now: int) {
    now - q.sent > 1
  }

  /** What becomes of a request: nothing until it is due; then it is sent up to five times and dropped after that. */
  function Kept(q: Request, now: int): (kept: seq<Request>)
    ensures |kept| <= 1
  {
    if !IsDue(q, now) then [q] else if q.times < 5 then [Request(q.ip, now, q.times + 1, q.packets)] else []
  }

  /** What goes out for a request. */
  function Said(q: Request, routes: seq<Route>, now: int): seq<Event>
    requires IsGateway(routes, q.ip)
  {
    if !IsDue(q, now) then []
    else if q.times < 5 then [Asked(q.ip, routes[FirstVia(routes, q.ip)].iface, now)]
    else [Unreachable(q.ip, q.packets, now)]
  }

  function AllKept(requests: seq<Request>, now: int): seq<Request> {
    if requests == [] then [] else Kept(requests[0], now) + AllKept(requests[1..], now)
  }

  function AllSaid(requests: seq<Request>, routes: seq<Route>, now: int): seq<Event>
    requires forall i :: 0 <= i < |requests| ==> IsGateway(routes, requests[i].ip)
  {
    if requests == [] then [] else Said(requests[0], routes, now) + AllSaid(requests[1..], routes, now)
  }

  lemma HandlePlainly(r: Router, routes: seq<Route>, i: nat, now: int)
    requires Sound(r.requests, routes) && i < |r.requests|
    ensures Handle(r, routes, i, now) ==
            Router(r.entries, r.requests[..i] + Kept(r.requests[i], now) + r.requests[i + 1..],
                   r.log + Said(r.requests[i], routes, now))
  {
    hide IsGateway, FirstVia, Position;
    assert IsGateway(routes, r.requests[i].ip);
    var q := r.requests[i];
    var asked := Request(q.ip, now, q.times + 1, q.packets);
    assert r.requests == r.requests[..i] + [q] + r.requests[i + 1..];
    assert r.requests[i := asked] == r.requests[..i] + [asked] + r.requests[i + 1..];
    assert r.requests[..i] + [] + r.requests[i + 1..] == Without(r.requests, i);
    assert r.log + [] == r.log;
  }

  /** From some request on, the sweep does to each request what is due for it, in order. */
  lemma {:induction false} SweepPlainly(r: Router, routes: seq<Route>, i: nat, now: int)
    requires Sound(r.requests, routes) && i <= |r.requests|
    ensures SweepFrom(r, routes, i, now) ==
            Router(r.entries, r.requests[..i] + AllKept(r.requests[i..], now),
                   r.log + AllSaid(r.requests[i..], routes, now))
    decreases |r.requests| - i
  {
    hide IsGateway, Handle, Kept, Said, AllKept, AllSaid;
    assert forall k :: 0 <= k < |r.requests| ==> IsGateway(routes, r.requests[k].ip);
    TailPlainly(r.requests, routes, i, now);
    if i == |r.requests| {
      assert r.requests[..i] + [] == r.requests && r.log + [] == r.log;
    } else {
      var r1 := Handle(r, routes, i, now);
      HandleSound(r, routes, i, now);
      HandlePlainly(r, routes, i, now);
      hide Sound;
      var kept := Kept(r.requests[i], now);
      var j := if |r1.requests| < |r.requests| then i else i + 1;
      SweepPlainly(r1, routes, j, now);
      Spliced(r.requests, i, kept);
      assert r1.requests[j..] == r.requests[i + 1..];
      assert r.requests[..i] + kept + AllKept(r.requests[i + 1..], now)
          == r.requests[..i] + (kept + AllKept(r.requests[i + 1..], now));
    }
  }

  lemma {:induction false} TailPlainly(requests: seq<Request>, routes: seq<Route>, i: nat, now: int)
    requires i <= |requests| && forall k :: 0 <= k < |requests| ==> IsGateway(routes, requests[k].ip)
    ensures i == |requests| ==> AllKept(requests[i..], now) == [] && AllSaid(requests[i..], routes, now) == []
    ensures i < |requests| ==>
              && AllKept(requests[i..], now) == Kept(requests[i], now) + AllKept(requests[i + 1..], now)
              && AllSaid(requests[i..], routes, now)
                 == Said(requests[i], routes, now) + AllSaid(requests[i + 1..], routes, now)
  {
    hide IsGateway, Kept, Said;
    if i < |requests| {
      assert requests[i..][0] == requests[i] && requests[i..][1..] == requests[i + 1..];
    }
  }

  lemma Spliced(requests: seq<Request>, i: nat, kept: seq<Request>)
    requires i < |requests| && |kept| <= 1
    ensures var all, j := requests[..i] + kept + requests[i + 1..], i + |kept|;
            && |all| == |requests| - 1 + |kept| && all[..j] == requests[..i] + kept && all[j..] == requests[i + 1..]
  {
  }

  /** A tick: every request that is due is sent again or given up, at once and in order, and nothing else is sent. */
  lemma {:induction false} TickPlainly(r: Router, routes: seq<Route>, now: int)
    requires Sound(r.requests, routes)
    ensures var after := Tick(r, routes, now);
            && after.entries == ExpireAll(r.entries, now)
            && after.requests == AllKept(r.requests, now)
            && after.log == r.log + [Ticked(now)] + AllSaid(r.requests, routes, now)
  {
    hide SweepFrom, IsGateway;
    var r1 := r.(entries := ExpireAll(r.entries, now)).Log(Ticked(now));
    SweepPlainly(r1, routes, 0, now);
    assert r1.requests[0..] == r.requests;
  }

  /** After a tick no request is due. */
  lemma {:induction false} NoneDue(requests: seq<Request>, now: int)
    ensures forall i :: 0 <= i < |AllKept(requests, now)| ==> !IsDue(AllKept(requests, now)[i], now)
  {
    if requests != [] {
      NoneDue(requests[1..], now);
    }
  }

  /** A frame for a next hop that is neither known nor waited for is kept by a new request in front, which is sent at
      once (the clock is past its first second). */
  lemma {:induction false} FirstFrame(r: Router, routes: seq<Route>, item: Item, now: int)
    requires IsGateway(routes, item.ip) && ETHER_HDR <= |item.packet.frame|
    requires Lookup(r.entries, item.ip).None? && !Pending(r.requests, item.ip) && now > 1
    ensures Attempt(r, routes, item, now) ==
            Router(r.entries, [Request(item.ip, now, 1, [item.packet])] + r.requests,
                   r.log + [Asked(item.ip, routes[FirstVia(routes, item.ip)].iface, now)])
  {
    hide Lookup, FirstVia;
    EnqueuePending(r.requests, item.ip, item.packet);
    var q := Enqueue(r.requests, item.ip, item.packet);
    assert [item.packet] + [] == [item.packet];
    assert q == [Request(item.ip, 0, 0, [item.packet])] + r.requests;
    assert q[0 := Request(item.ip, now, 1, [item.packet])] == [Request(item.ip, now, 1, [item.packet])] + r.requests;
  }

  /** A frame for a next hop that is waited for joins its request in front of the other frames. */
  lemma MoreFrames(r: Router, routes: seq<Route>, item: Item, now: int)
    requires Sound(r.requests, routes) && IsGateway(routes, item.ip) && ETHER_HDR <= |item.packet.frame|
    requires Lookup(r.entries, item.ip).None? && Pending(r.requests, item.ip)
    ensures var i := Position(r.requests, item.ip);
            var q := r.requests[i].(packets := [item.packet] + r.requests[i].packets);
            Attempt(r, routes, item, now) ==
            Router(r.entries, r.requests[..i] + Kept(q, now) + r.requests[i + 1..], r.log + Said(q, routes, now))
  {
    hide Lookup, IsGateway, Kept, Said, Position, FirstVia;
    var i := Position(r.requests, item.ip);
    var q := r.requests[i].(packets := [item.packet] + r.requests[i].packets);
    var requests := Enqueue(r.requests, item.ip, item.packet);
    EnqueuePending(r.requests, item.ip, item.packet);
    EnqueueSound(r.requests, routes, item.ip, item.packet);
    hide Handle, Sound;
    assert requests == r.requests[i := q];
    HandlePlainly(r.(requests := requests), routes, i, now);
    assert requests[..i] == r.requests[..i] && requests[i + 1..] == r.requests[i + 1..];
  }
}
