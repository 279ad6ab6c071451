/** The same operations on the cache's array of slots and its list of requests, changed in place. */
module ArpCache {
  import opened Routes
  import opened ArpModel
  import opened ArpRuns

  class Cache {
    const table: RoutingTable
    const entries: array<Entry>
    var requests: seq<Request>
    var log: seq<Event>

    ghost predicate Valid()
      reads this, table, table.nodes
    {
      entries.Length == CACHE_SIZE && table.Valid() && Sound(requests, table.table)
    }

    ghost function State(): Router
      reads this, entries
    {
      Router(entries[..], requests, log)
    }

    /** `sr_arpcache_init`. */
    constructor (table: RoutingTable)
      requires table.Valid()
      ensures Valid() && fresh(entries) && this.table == table
      ensures State() == Empty()
    {
      this.table := table;
      entries := new Entry[CACHE_SIZE](_ => Entry(NO_MAC, 0, 0, false));
      requests := [];
      log := [];
      new;
      assert entries[..] == NoEntries(CACHE_SIZE);
    }

    /** `sr_arpcache_lookup`: a copy of the entry. */
    method Find(ip: Ip) returns (e: Option<Entry>)
      ensures var k := Lookup(entries[..], ip); e == if k.Some? then Some(entries[k.value]) else None
    {
      hide LastValid;
      var entry: Option<nat> := None;
      var i := 0;
      NoneValid(entries[..], ip);
      while i < entries.Length
        invariant 0 <= i <= entries.Length
        invariant entry == LastValid(entries[..], i, ip)
      {
        NextValid(entries[..], i, ip);
        if entries[i].valid && entries[i].ip == ip {
          entry := Some(i);
        }
        i := i + 1;
      }
      e := match entry case Some(k) => Some(entries[k]) case None => None;
    }

    /** The loops that search the list of requests for an address. */
    method Search(ip: Ip) returns (i: nat)
      ensures i == Position(requests, ip)
    {
      i := 0;
      assert requests[0..] == requests;
      while i < |requests| && requests[i].ip != ip
        invariant 0 <= i <= |requests|
        invariant Position(requests, ip) == i + Position(requests[i..], ip)
      {
        assert requests[i..][1..] == requests[i + 1..];
        i := i + 1;
      }
    }

    /** `sr_arpcache_queuereq`; the result is the position of the request. */
    method QueueReq(ip: Ip, packet: Packet) returns (i: nat)
      modifies this`requests
      ensures requests == Enqueue(old(requests), ip, packet)
      ensures i == Position(requests, ip) < |requests|
    {
      hide Position, Stack;
      EnqueuePending(requests, ip, packet);
      i := Search(ip);
      if i == |requests| {
        requests := [Request(ip, 0, 0, [])] + requests;
        i := 0;
      }
      requests := requests[i := requests[i].(packets := Stack(packet, requests[i].packets))];
    }

    /** `sr_arpcache_insert`: takes the request for `ip` off the list and returns it. */
    method Insert(mac: Mac, ip: Ip, now: int) returns (req: Option<Request>)
      modifies this`requests, entries
      ensures State() == ArpModel.Insert(old(State()), mac, ip, now)
      ensures req == var i := Position(old(requests), ip);
                     if i < |old(requests)| then Some(old(requests)[i]) else None
    {
      hide Position, FirstFree;
      var at := Search(ip);
      req := None;
      if at < |requests| {
        req := Some(requests[at]);
        requests := Without(requests, at);
      }
      var i := 0;
      assert entries[0..] == entries[..];
      while i < entries.Length && entries[i].valid
        invariant 0 <= i <= entries.Length
        invariant FirstFree(entries[..]) == i + FirstFree(entries[i..])
        modifies {}
      {
        NextFree(entries[i..]);
        assert entries[i..][1..] == entries[i + 1..];
        i := i + 1;
      }
      NextFree(entries[i..]);
      ghost var before := entries[..];
      assert FirstFree(before) == i;
      if i != entries.Length {
        entries[i] := Entry(mac, ip, now, true);
        assert entries[..] == before[i := Entry(mac, ip, now, true)];
      }
      assert before == old(entries[..]);
      assert entries[..] == Fill(before, mac, ip, now);
      assert at < |old(requests)| ==> requests == Without(old(requests), at);
      assert at == |old(requests)| ==> requests == old(requests);
    }

    /** `sr_arpreq_destroy` for a request on the list. */
    method Destroy(i: nat)
      requires i < |requests|
      modifies this`requests
      ensures requests == Without(old(requests), i)
    {
      requests := Without(requests, i);
    }

    /** `sr_send_arp_req`: the interface is that of the first route through the gateway. */
    method SendArpReq(ip: Ip, now: int)
      requires table.Valid() && IsGateway(table.table, ip)
      modifies this`log
      ensures log == old(log) + [Asked(ip, table.table[FirstVia(table.table, ip)].iface, now)]
    {
      hide FirstVia;
      ghost var routes := table.table;
      var curr := table.head;
      ghost var i := 0;
      assert routes[0..] == routes;
      NextVia(routes, ip);
      while curr != null && curr.route.gw != ip
        invariant 0 <= i <= FirstVia(routes, ip) < |routes|
        invariant FirstVia(routes, ip) == i + FirstVia(routes[i..], ip)
        invariant curr == table.nodes[i]
        decreases |routes| - i
        modifies {}
      {
        NextVia(routes[i..], ip);
        assert routes[i..][1..] == routes[i + 1..];
        i := i + 1;
        curr := curr.next;
      }
      assert routes[i..][0] == routes[i];
      NextVia(routes[i..], ip);
      log := log + [Asked(ip, curr.route.iface, now)];
    }

    /** `sr_handle_arpreq`. */
    method HandleArpReq(i: nat, now: int)
      requires Valid() && i < |requests|
      modifies this
      ensures Valid() && State() == Handle(old(State()), table.table, i, now)
    {
      hide IsGateway, Without;
      HandleSound(State(), table.table, i, now);
      assert IsGateway(table.table, requests[i].ip);
      hide Sound;
      var q := requests[i];
      if now - q.sent > 1 {
        if q.times >= MAX_SENDS {
          log := log + [Unreachable(q.ip, q.packets, now)];
          Destroy(i);
        } else {
          SendArpReq(q.ip, now);
          requests := requests[i := q.(sent := now, times := q.times + 1)];
        }
      }
    }

    /** `sr_attempt_send`. */
    method AttemptSend(item: Item, now: int)
      requires Valid() && IsGateway(table.table, item.ip) && ETHER_HDR <= |item.packet.frame|
      modifies this
      ensures Valid() && State() == Attempt(old(State()), table.table, item, now)
    {
      hide IsGateway, Sound, Lookup, Enqueue, Position, Handle;
      var entry := Find(item.ip);
      if entry.Some? {
        log := log + [Transmitted(item, Stamped(entry.value.mac, item.packet.frame))];
      } else {
        EnqueueSound(requests, table.table, item.ip, item.packet);
        EnqueuePending(requests, item.ip, item.packet);
        var i := QueueReq(item.ip, item.packet);
        HandleArpReq(i, now);
      }
    }

    /** `sr_recv_arp`. */
    method RecvArp(mac: Mac, ip: Ip, now: int)
      requires Valid()
      modifies this, entries
      ensures Valid() && State() == Receive(old(State()), table.table, mac, ip, now)
    {
      hide Sound, ArpModel.Insert, Position, Attempt;
      InsertSound(State(), table.table, mac, ip, now);
      var req := Insert(mac, ip, now);
      log := log + [Arrived(ip, mac, now)];
      if req.Some? {
        ghost var inserted := State();
        var packets := req.value.packets;
        var n := 0;
        while n < |packets|
          invariant 0 <= n <= |packets| && Valid()
          invariant packets != [] ==> State() == Resubmit(inserted, table.table, ip, packets, n, now)
          invariant packets == [] ==> State() == inserted
        {
          AttemptSend(Item(ip, packets[n]), now);
          n := n + 1;
        }
      }
    }

    /** `sr_arpcache_sweepreqs`, with the next request fixed before one is handled. */
    method SweepReqs(now: int)
      requires Valid()
      modifies this
      ensures Valid() && State() == SweepFrom(old(State()), table.table, 0, now)
    {
      hide Handle, Sound;
      var i := 0;
      while i < |requests|
        invariant 0 <= i <= |requests| && Valid()
        invariant SweepFrom(State(), table.table, i, now) == SweepFrom(old(State()), table.table, 0, now)
        decreases |requests| - i
      {
        var left := |requests| - i - 1;
        HandleLength(State(), table.table, i, now);
        HandleArpReq(i, now);
        i := |requests| - left;
      }
    }

    /** One turn of `sr_arpcache_timeout`. */
    method TimeoutTurn(now: int)
      requires Valid()
      modifies this, entries
      ensures Valid() && State() == Tick(old(State()), table.table, now)
    {
      hide Sound, SweepFrom, Expired;
      ghost var before := entries[..];
      log := log + [Ticked(now)];
      var i := 0;
      while i < entries.Length
        invariant 0 <= i <= entries.Length
        invariant forall k :: 0 <= k < i ==> entries[k] == Expired(before[k], now)
        invariant forall k :: i <= k < entries.Length ==> entries[k] == before[k]
        modifies entries
      {
        entries[i] := Expired(entries[i], now);
        i := i + 1;
      }
      assert entries[..] == ExpireAll(before, now);
      SweepReqs(now);
    }
  }

  lemma {:induction false} NoneValid(entries: seq<Entry>, ip: Ip)
    ensures LastValid(entries, 0, ip) == None
  {
  }

  lemma NextValid(entries: seq<Entry>, i: nat, ip: Ip)
    requires i < |entries|
    ensures LastValid(entries, i + 1, ip) ==
            if entries[i].valid && entries[i].ip == ip then Some(i) else LastValid(entries, i, ip)
  {
  }

  lemma {:induction false} NextFree(entries: seq<Entry>)
    ensures FirstFree(entries) == if entries == [] || !entries[0].valid then 0 else 1 + FirstFree(entries[1..])
  {
  }

  lemma {:induction false} NextVia(routes: seq<Route>, ip: Ip)
    ensures FirstVia(routes, ip) == if routes == [] || routes[0].gw == ip then 0 else 1 + FirstVia(routes[1..], ip)
  {
  }

  /** Handling removes the request or leaves all of them in place. */
  lemma HandleLength(r: Router, routes: seq<Route>, i: nat, now: int)
    requires Sound(r.requests, routes) && i < |r.requests|
    ensures var n := |Handle(r, routes, i, now).requests|; n == |r.requests| || n == |r.requests| - 1
  {
  }
}
