/** A run after which the router keeps sending to the older of two addresses. */
module ArpWitness {
  import opened Routes
  import opened ArpModel
  import opened ArpRuns
  import opened ArpTheorems

  const A: Ip := 1
  const B: Ip := 2
  const MAC_A: Mac := [1, 0, 0, 0, 0, 0]
  const OLD_B: Mac := [2, 0, 0, 0, 0, 0]
  const NEW_B: Mac := [3, 0, 0, 0, 0, 0]
  const VIA_B: seq<Route> := [Route(B, B, 0xFFFF_FFFF, "eth1")]
  const FRAME: Packet := Packet([0, 0, 0, 0, 0, 0, 9, 9, 9, 9, 9, 9, 8, 0], "eth1")

  /** A fills the first slot and B, ten seconds later, the second. A expires, and then B sends its new address,
      which fills the first slot again. */
  const MOVED: seq<Op> := [
    Arrive(MAC_A, A, 0),
    Arrive(OLD_B, B, 10),
    Timer(16),
    Arrive(NEW_B, B, 17)]

  /** The first two slots; nothing else is in the cache and nothing waits. */
  predicate Holds(r: Router, first: Entry, second: Entry) {
    && r.requests == [] && |r.entries| == CACHE_SIZE && r.entries[0] == first && r.entries[1] == second
    && forall k :: 2 <= k < CACHE_SIZE ==> !r.entries[k].valid
  }

  lemma ArriveAt(r: Router, mac: Mac, ip: Ip, now: int, first: Entry, second: Entry)
    requires Holds(r, first, second) && (first.valid ==> !second.valid)
    ensures var e, r' := Entry(mac, ip, now, true), Receive(r, VIA_B, mac, ip, now);
            if first.valid then Holds(r', first, e) else Holds(r', e, second)
  {
    var f := FirstFree(r.entries);
    assert f == if first.valid then 1 else 0;
    hide FirstFree;
  }

  lemma TickAt(r: Router, now: int, first: Entry, second: Entry)
    requires Holds(r, first, second)
    ensures Holds(Tick(r, VIA_B, now), Expired(first, now), Expired(second, now))
  {
  }

  lemma {:induction false} LastStep(ops: seq<Op>, op: Op)
    requires AllAllowed(ops + [op], VIA_B)
    ensures AllAllowed(ops, VIA_B) && Run(VIA_B, ops + [op]) == Step(Run(VIA_B, ops), VIA_B, op)
  {
    assert (ops + [op])[..|ops|] == ops;
    assert forall i :: 0 <= i < |ops| ==> ops[i] == (ops + [op])[i];
  }

  lemma AfterMoved()
    ensures AllAllowed(MOVED, VIA_B)
    ensures Holds(Run(VIA_B, MOVED), Entry(NEW_B, B, 17, true), Entry(OLD_B, B, 10, true))
  {
    hide Step, Holds, Run;
    var none := Entry(NO_MAC, 0, 0, false);
    var m1, m2, m3 := MOVED[..1], MOVED[..2], MOVED[..3];
    assert m1 == [] + [MOVED[0]] && m2 == m1 + [MOVED[1]] && m3 == m2 + [MOVED[2]] && MOVED == m3 + [MOVED[3]];
    LastStep([], MOVED[0]);
    LastStep(m1, MOVED[1]);
    LastStep(m2, MOVED[2]);
    LastStep(m3, MOVED[3]);
    EmptyHolds();
    ArriveStep([], MOVED[0], none, none);
    ArriveStep(m1, MOVED[1], Entry(MAC_A, A, 0, true), none);
    TickStep(m2, 16, Entry(MAC_A, A, 0, true), Entry(OLD_B, B, 10, true));
    ArriveStep(m3, MOVED[3], Entry(MAC_A, A, 0, false), Entry(OLD_B, B, 10, true));
  }

  lemma EmptyHolds()
    ensures AllAllowed([], VIA_B)
    ensures Holds(Run(VIA_B, []), Entry(NO_MAC, 0, 0, false), Entry(NO_MAC, 0, 0, false))
  {
    assert |NoEntries(CACHE_SIZE)| == CACHE_SIZE;
    hide NoEntries;
  }

  lemma {:induction false} ArriveStep(ops: seq<Op>, op: Op, first: Entry, second: Entry)
    requires AllAllowed(ops, VIA_B) && op.Arrive?
    requires Holds(Run(VIA_B, ops), first, second) && (first.valid ==> !second.valid)
    ensures var e, r' := Entry(op.mac, op.ip, op.at, true), Step(Run(VIA_B, ops), VIA_B, op);
            if first.valid then Holds(r', first, e) else Holds(r', e, second)
  {
    hide Receive, Run, Holds;
    ArriveAt(Run(VIA_B, ops), op.mac, op.ip, op.at, first, second);
  }

  lemma {:induction false} TickStep(ops: seq<Op>, now: int, first: Entry, second: Entry)
    requires AllAllowed(ops, VIA_B) && Holds(Run(VIA_B, ops), first, second)
    ensures Holds(Step(Run(VIA_B, ops), VIA_B, Timer(now)), Expired(first, now), Expired(second, now))
  {
    hide Tick, Run, Holds;
    TickAt(Run(VIA_B, ops), now, first, second);
  }

  /** The cache holds both addresses of B, a lookup returns the older one, and a frame leaves to it. */
  lemma OlderAddressIsUsed()
    ensures AllAllowed(MOVED, VIA_B)
    ensures var r := Run(VIA_B, MOVED);
            && |r.entries| == CACHE_SIZE && r.entries[0] == Entry(NEW_B, B, 17, true)
            && Lookup(r.entries, B) == Some(1) && r.entries[1] == Entry(OLD_B, B, 10, true)
            && IsGateway(VIA_B, B)
            && Step(r, VIA_B, Submit(Item(B, FRAME), 18)).log
                == r.log + [Transmitted(Item(B, FRAME), OLD_B + FRAME.frame[6..])]
  {
    AfterMoved();
    var r := Run(VIA_B, MOVED);
    hide Run;
    LookupIs(r.entries, B, 1);
    assert VIA_B[0].gw == B;
    assert Stamped(OLD_B, FRAME.frame) == OLD_B + FRAME.frame[6..];
    hide LastValid;
  }
}
