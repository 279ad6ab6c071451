/** The ARP cache and the frames that wait for it (lab1/router/router/sr_arpcache.c), on values.
    Every operation is one atomic step with one clock reading. */
module ArpModel {
  import opened Bytes
  import opened Routes

  const CACHE_SIZE: nat := 100
  const CACHE_TIMEOUT: int := 15
  const MAX_SENDS: nat := 5
  const ETHER_HDR: nat := 14

  type Mac = s: seq<byte> | |s| == 6 witness [0, 0, 0, 0, 0, 0]

  datatype Packet = Packet(frame: seq<byte>, iface: string)

  /** A packet and the next hop it is meant for. */
  datatype Item = Item(ip: Ip, packet: Packet)

  datatype Entry = Entry(mac: Mac, ip: Ip, added: int, valid: bool)

  datatype Request = Request(ip: Ip, sent: int, times: nat, packets: seq<Packet>)

  /** What the cache sees (`Arrived`, `Ticked`) and what goes out (`Transmitted` with the bytes on the wire,
      `Asked` for an ARP request, `Unreachable` for the ICMP errors about all waiting packets). */
  datatype Event =
    | Arrived(ip: Ip, mac: Mac, at: int)
    | Ticked(at: int)
    | Transmitted(item: Item, wire: seq<byte>)
    | Asked(ip: Ip, iface: string, at: int)
    | Unreachable(ip: Ip, packets: seq<Packet>, at: int)

  datatype Router = Router(entries: seq<Entry>, requests: seq<Request>, log: seq<Event>) {
    function Log(e: Event): Router {
      this.(log := log + [e])
    }
  }

  const NO_MAC: Mac := [0, 0, 0, 0, 0, 0]

  function NoEntries(n: nat): (entries: seq<Entry>)
    ensures |entries| == n
    ensures forall i :: 0 <= i < n ==> entries[i] == Entry(NO_MAC, 0, 0, false)
  {
    if n == 0 then [] else NoEntries(n - 1) + [Entry(NO_MAC, 0, 0, false)]
  }

  function Empty(): Router {
    Router(NoEntries(CACHE_SIZE), [], [])
  }

  /** The last of the first `n` slots that is valid for `ip`. */
  function LastValid(entries: seq<Entry>, n: nat, ip: Ip): (k: Option<nat>)
    requires n <= |entries|
    ensures k.Some? ==> k.value < n && entries[k.value].valid && entries[k.value].ip == ip
    ensures k.Some? ==> forall j :: k.value < j < n && entries[j].valid ==> entries[j].ip != ip
    ensures k.None? ==> forall j :: 0 <= j < n && entries[j].valid ==> entries[j].ip != ip
  {
    if n == 0 then None
    else if entries[n - 1].valid && entries[n - 1].ip == ip then Some(n - 1)
    else LastValid(entries, n - 1, ip)
  }

  function Lookup(entries: seq<Entry>, ip: Ip): (k: Option<nat>)
    ensures k.Some? ==> k.value < |entries| && entries[k.value].valid && entries[k.value].ip == ip
    ensures k.None? ==> forall j :: 0 <= j < |entries| && entries[j].valid ==> entries[j].ip != ip
  {
    LastValid(entries, |entries|, ip)
  }

  /** The first request for `ip`, or the number of requests. */
  function Position(requests: seq<Request>, ip: Ip): (i: nat)
    ensures i <= |requests|
    ensures i < |requests| ==> requests[i].ip == ip
    ensures forall j :: 0 <= j < i ==> requests[j].ip != ip
  {
    if requests == [] then 0 else if requests[0].ip == ip then 0 else 1 + Position(requests[1..], ip)
  }

  predicate Pending(requests: seq<Request>, ip: Ip) {
    Position(requests, ip) < |requests|
  }

  function FirstFree(entries: seq<Entry>): (i: nat)
    ensures i <= |entries|
    ensures i < |entries| ==> !entries[i].valid
    ensures forall j :: 0 <= j < i ==> entries[j].valid
  {
    if entries == [] then 0 else if !entries[0].valid then 0 else 1 + FirstFree(entries[1..])
  }

  /** The first route through the gateway `ip`, or the number of routes. */
  function FirstVia(routes: seq<Route>, ip: Ip): (i: nat)
    ensures i <= |routes|
    ensures i < |routes| ==> routes[i].gw == ip
    ensures forall j :: 0 <= j < i ==> routes[j].gw != ip
  {
    if routes == [] then 0 else if routes[0].gw == ip then 0 else 1 + FirstVia(routes[1..], ip)
  }

  predicate IsGateway(routes: seq<Route>, ip: Ip) {
    FirstVia(routes, ip) < |routes|
  }

  /** `frame` with its destination address replaced. */
  function Stamped(mac: Mac, frame: seq<byte>): seq<byte>
    requires ETHER_HDR <= |frame|
  {
    mac + frame[|mac|..]
  }

  function Without(requests: seq<Request>, i: nat): (r: seq<Request>)
    requires i < |requests|
    ensures |r| == |requests| - 1
    ensures forall j :: 0 <= j < i ==> r[j] == requests[j]
    ensures forall j :: i <= j < |r| ==> r[j] == requests[j + 1]
  {
    requests[..i] + requests[i + 1..]
  }

  // ---------------------------------------------------------------------------------------------
  // The operations
  // ---------------------------------------------------------------------------------------------

  /** A packet without bytes is not kept. */
  function Stack(packet: Packet, packets: seq<Packet>): seq<Packet> {
    if packet.frame == [] then packets else [packet] + packets
  }

  /** `sr_arpcache_queuereq`. */
  function Enqueue(requests: seq<Request>, ip: Ip, packet: Packet): (r: seq<Request>) {
    var i := Position(requests, ip);
    if i < |requests| then requests[i := requests[i].(packets := Stack(packet, requests[i].packets))]
    else [Request(ip, 0, 0, Stack(packet, []))] + requests
  }

  /** `sr_handle_arpreq` for the request at position `i`. */
  function Handle(r: Router, routes: seq<Route>, i: nat, now: int): (r': Router)
    requires i < |r.requests| && IsGateway(routes, r.requests[i].ip)
  {
    var q := r.requests[i];
    if now - q.sent <= 1 then r
    else if q.times >= MAX_SENDS
    then r.(requests := Without(r.requests, i)).Log(Unreachable(q.ip, q.packets, now))
    else r.(requests := r.requests[i := q.(sent := now, times := q.times + 1)])
         .Log(Asked(q.ip, routes[FirstVia(routes, q.ip)].iface, now))
  }

  /** `sr_attempt_send`. */
  function Attempt(r: Router, routes: seq<Route>, item: Item, now: int): (r': Router)
    requires IsGateway(routes, item.ip) && ETHER_HDR <= |item.packet.frame|
  {
    match Lookup(r.entries, item.ip)
    case Some(k) => r.Log(Transmitted(item, Stamped(r.entries[k].mac, item.packet.frame)))
    case None =>
      var requests := Enqueue(r.requests, item.ip, item.packet);
      EnqueuePending(r.requests, item.ip, item.packet);
      Handle(r.(requests := requests), routes, Position(requests, item.ip), now)
  }

  lemma {:induction false} EnqueuePending(requests: seq<Request>, ip: Ip, packet: Packet)
    ensures Position(Enqueue(requests, ip, packet), ip) ==
            if Pending(requests, ip) then Position(requests, ip) else 0
    ensures Pending(Enqueue(requests, ip, packet), ip)
  {
    var after := Enqueue(requests, ip, packet);
    var i, k := Position(requests, ip), Position(after, ip);
    if i < |requests| {
      assert forall j :: 0 <= j < |requests| ==> after[j].ip == requests[j].ip;
      assert after[i].ip == ip;
    }
  }

  /** The part of `sr_arpcache_insert` that fills the cache. */
  function Fill(entries: seq<Entry>, mac: Mac, ip: Ip, now: int): (r: seq<Entry>)
    ensures |r| == |entries|
  {
    var f := FirstFree(entries);
    if f < |entries| then entries[f := Entry(mac, ip, now, true)] else entries
  }

  /** `sr_arpcache_insert`. */
  function Insert(r: Router, mac: Mac, ip: Ip, now: int): Router {
    var i := Position(r.requests, ip);
    r.(requests := if i < |r.requests| then Without(r.requests, i) else r.requests,
       entries := Fill(r.entries, mac, ip, now))
  }

  function WaitingFor(requests: seq<Request>, ip: Ip): seq<Packet> {
    var i := Position(requests, ip);
    if i < |requests| then requests[i].packets else []
  }

  predicate Framed(packets: seq<Packet>) {
    forall i :: 0 <= i < |packets| ==> ETHER_HDR <= |packets[i].frame|
  }

  /** Every packet of a request that an arrival released, head first. */
  function Resubmit(r: Router, routes: seq<Route>, ip: Ip, packets: seq<Packet>, n: nat, now: int): (r': Router)
    requires IsGateway(routes, ip) && Framed(packets) && n <= |packets|
  {
    if n == 0 then r
    else Attempt(Resubmit(r, routes, ip, packets, n - 1, now), routes, Item(ip, packets[n - 1]), now)
  }

  /** `sr_recv_arp`. */
  function Receive(r: Router, routes: seq<Route>, mac: Mac, ip: Ip, now: int): (r': Router)
    requires Sound(r.requests, routes)
  {
    var packets := WaitingFor(r.requests, ip);
    var inserted := Insert(r, mac, ip, now).Log(Arrived(ip, mac, now));
    if packets == [] then inserted else Resubmit(inserted, routes, ip, packets, |packets|, now)
  }

  function Expired(e: Entry, now: int): Entry {
    if e.valid && now - e.added > CACHE_TIMEOUT then e.(valid := false) else e
  }

  function ExpireAll(entries: seq<Entry>, now: int): (r: seq<Entry>)
    ensures |r| == |entries|
    ensures forall i :: 0 <= i < |entries| ==> r[i] == Expired(entries[i], now)
  {
    seq(|entries|, i requires 0 <= i < |entries| => Expired(entries[i], now))
  }

  /** `sr_arpcache_sweepreqs` from position `i` on; the request behind one that is removed is not skipped. */
  function SweepFrom(r: Router, routes: seq<Route>, i: nat, now: int): (r': Router)
    requires Sound(r.requests, routes) && i <= |r.requests|
    decreases |r.requests| - i
  {
    if i == |r.requests| then r
    else
      var r1 := Handle(r, routes, i, now);
      HandleSound(r, routes, i, now);
      SweepFrom(r1, routes, if |r1.requests| < |r.requests| then i else i + 1, now)
  }

  /** One turn of `sr_arpcache_timeout`. */
  function Tick(r: Router, routes: seq<Route>, now: int): (r': Router)
    requires Sound(r.requests, routes)
  {
    SweepFrom(r.(entries := ExpireAll(r.entries, now)).Log(Ticked(now)), routes, 0, now)
  }

  /** The requests ask for different gateways of routes and hold whole frames. */
  predicate Sound(requests: seq<Request>, routes: seq<Route>) {
    && (forall i, j :: 0 <= i < j < |requests| ==> requests[i].ip != requests[j].ip)
    && (forall i :: 0 <= i < |requests| ==> IsGateway(routes, requests[i].ip) && Framed(requests[i].packets))
  }

  lemma EnqueueSound(requests: seq<Request>, routes: seq<Route>, ip: Ip, packet: Packet)
    requires Sound(requests, routes) && IsGateway(routes, ip) && ETHER_HDR <= |packet.frame|
    ensures Sound(Enqueue(requests, ip, packet), routes)
  {
    hide IsGateway;
  }

  lemma WithoutSound(requests: seq<Request>, routes: seq<Route>, i: nat)
    requires Sound(requests, routes) && i < |requests|
    ensures Sound(Without(requests, i), routes)
    ensures !Pending(Without(requests, i), requests[i].ip)
  {
    hide IsGateway;
  }

  lemma HandleSound(r: Router, routes: seq<Route>, i: nat, now: int)
    requires Sound(r.requests, routes) && i < |r.requests|
    ensures Sound(Handle(r, routes, i, now).requests, routes)
  {
    hide IsGateway, Position;
    WithoutSound(r.requests, routes, i);
  }
}
