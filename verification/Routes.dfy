/** The routing table (lab1/router/router/sr_rt.c). Addresses and masks are in host order. */
module Routes {

  type Ip = bv32

  datatype Route = Route(dest: Ip, gw: Ip, mask: Ip, iface: string)

  datatype Option<T> = None | Some(value: T)

  function Masked(mask: Ip, target: Ip): Ip {
    mask & target
  }

  predicate Matches(r: Route, target: Ip) {
    Masked(r.mask, target) == r.dest
  }

  predicate AtLeast(m: Ip, n: Ip) {
    m >= n
  }

  /**
   * Among the first `n` routes, position `k` holds a match that no match has a greater mask than,
   * and no later match an equal one.
   */
  predicate IsBest(table: seq<Route>, n: nat, target: Ip, k: nat)
    requires n <= |table|
  {
    && k < n && Matches(table[k], target)
    && (forall j :: 0 <= j < n && Matches(table[j], target) ==> AtLeast(table[k].mask, table[j].mask))
    && (forall j :: k < j < n && Matches(table[j], target) ==> !AtLeast(table[j].mask, table[k].mask))
  }

  lemma AtLeastZero(a: Ip)
    ensures AtLeast(a, 0)
  {
  }

  lemma AtLeastReflexive(a: Ip)
    ensures AtLeast(a, a)
  {
  }

  lemma AtLeastTransitive(a: Ip, b: Ip, c: Ip)
    requires AtLeast(a, b) && AtLeast(b, c)
    ensures AtLeast(a, c)
  {
  }

  lemma AtLeastTotal(a: Ip, b: Ip)
    ensures AtLeast(a, b) || AtLeast(b, a)
  {
  }

  /** The next route changes the best one exactly when it matches and its mask is at least as great. */
  lemma NextIsBest(table: seq<Route>, i: nat, target: Ip, k: nat)
    requires i < |table| && IsBest(table, i, target, k)
    ensures !Matches(table[i], target) || !AtLeast(table[i].mask, table[k].mask) ==> IsBest(table, i + 1, target, k)
    ensures Matches(table[i], target) && AtLeast(table[i].mask, table[k].mask) ==> IsBest(table, i + 1, target, i)
  {
    hide AtLeast, Matches;
    AtLeastReflexive(table[i].mask);
    AtLeastTotal(table[i].mask, table[k].mask);
    forall j | 0 <= j < i && Matches(table[j], target) && AtLeast(table[i].mask, table[k].mask)
      ensures AtLeast(table[i].mask, table[j].mask)
    {
      AtLeastTransitive(table[i].mask, table[k].mask, table[j].mask);
    }
  }

  /** No two positions are best. */
  lemma BestIsUnique(table: seq<Route>, target: Ip, k: nat, k': nat)
    requires IsBest(table, |table|, target, k) && IsBest(table, |table|, target, k')
    ensures k == k'
  {
    hide AtLeast, Matches;
  }

  /** The longest match by its description: the best position, if there is one. */
  ghost function LongestMatch(table: seq<Route>, target: Ip): (lpm: Option<nat>)
    ensures lpm.Some? ==> IsBest(table, |table|, target, lpm.value)
  {
    if k: nat :| IsBest(table, |table|, target, k) then Some(k) else None
  }

  lemma {:induction false} BestExists(table: seq<Route>, n: nat, target: Ip) returns (k: Option<nat>)
    requires n <= |table|
    ensures k.Some? ==> IsBest(table, n, target, k.value)
    ensures k.None? ==> forall j :: 0 <= j < n ==> !Matches(table[j], target)
  {
    hide AtLeast, Matches;
    if n == 0 {
      return None;
    }
    var before := BestExists(table, n - 1, target);
    AtLeastReflexive(table[n - 1].mask);
    match before
    case None => k := if Matches(table[n - 1], target) then Some(n - 1) else None;
    case Some(b) =>
      NextIsBest(table, n - 1, target, b);
      k := if Matches(table[n - 1], target) && AtLeast(table[n - 1].mask, table[b].mask) then Some(n - 1) else Some(b);
  }

  /** What another route at the end changes: it becomes the longest match if it matches and no match has a
      greater mask. */
  lemma AppendedRoute(table: seq<Route>, r: Route, target: Ip)
    ensures var k, all := LongestMatch(table, target), table + [r];
            LongestMatch(all, target) ==
            if Matches(r, target) && (k.None? || AtLeast(r.mask, table[k.value].mask)) then Some(|table|) else k
  {
    hide AtLeast, Matches;
    var all := table + [r];
    var k := BestExists(table, |table|, target);
    AtLeastReflexive(r.mask);
    if k.Some? {
      BestIsUnique(table, target, k.value, LongestMatch(table, target).value);
      assert IsBest(all, |table|, target, k.value);
      NextIsBest(all, |table|, target, k.value);
    }
    var best := if Matches(r, target) && (k.None? || AtLeast(r.mask, table[k.value].mask)) then Some(|table|) else k;
    if best.Some? {
      assert IsBest(all, |all|, target, best.value);
      BestIsUnique(all, target, best.value, LongestMatch(all, target).value);
    }
  }

  class RouteNode {
    const route: Route
    var next: RouteNode?

    constructor (route: Route)
      ensures this.route == route && next == null
    {
      this.route := route;
      next := null;
    }
  }

  /** The list of routes from `head` on; `nodes` and `table` say what is in it. */
  class RoutingTable {
    var head: RouteNode?
    ghost var nodes: seq<RouteNode>
    ghost var table: seq<Route>

    ghost predicate Valid()
      reads this, nodes
    {
      && |nodes| == |table|
      && head == (if nodes == [] then null else nodes[0])
      && (forall i :: 0 <= i < |nodes| ==> nodes[i].route == table[i])
      && (forall i, j :: 0 <= i && j == i + 1 && j < |nodes| ==> nodes[i].next == nodes[j])
      && (nodes != [] ==> nodes[|nodes| - 1].next == null)
      && (forall i, j :: 0 <= i < j < |nodes| ==> nodes[i] != nodes[j])
    }

    constructor ()
      ensures Valid() && table == [] && nodes == []
    {
      head := null;
      nodes := [];
      table := [];
    }

    /** `sr_add_rt_entry`: walks to the last entry. */
    method AddEntry(dest: Ip, gw: Ip, mask: Ip, iface: string)
      requires Valid()
      modifies this, if nodes == [] then {} else {nodes[|nodes| - 1]}
      ensures Valid() && table == old(table) + [Route(dest, gw, mask, iface)]
      ensures |nodes| == |old(nodes)| + 1 && nodes[..|old(nodes)|] == old(nodes) && fresh(nodes[|old(nodes)|])
    {
      var entry := new RouteNode(Route(dest, gw, mask, iface));
      if head == null {
        head := entry;
      } else {
        var walker: RouteNode := head;
        ghost var i := 0;
        while walker.next != null
          invariant 0 <= i < |nodes| && walker == nodes[i]
          invariant walker.next == if i + 1 < |nodes| then nodes[i + 1] else null
          decreases |nodes| - i
        {
          walker := walker.next;
          i := i + 1;
        }
        walker.next := entry;
      }
      nodes := nodes + [entry];
      table := table + [entry.route];
    }

    /** `longest_prefix_match`. */
    method LongestPrefixMatch(target: Ip) returns (lpm: RouteNode?)
      requires Valid()
      ensures var k := LongestMatch(table, target);
              if k.None? then lpm == null else lpm == nodes[k.value] && lpm.route == table[k.value]
      ensures lpm == null <==> forall j :: 0 <= j < |table| ==> !Matches(table[j], target)
    {
      hide AtLeast, Matches;
      var largest: Ip := 0;
      lpm := null;
      var route := head;
      ghost var i := 0;
      ghost var k: nat := 0;
      while route != null
        invariant 0 <= i <= |nodes| && route == if i < |nodes| then nodes[i] else null
        invariant lpm == null ==> largest == 0 && forall j :: 0 <= j < i ==> !Matches(table[j], target)
        invariant lpm != null ==> IsBest(table, i, target, k) && lpm == nodes[k] && largest == table[k].mask
        decreases |nodes| - i
      {
        AtLeastZero(table[i].mask);
        AtLeastReflexive(table[i].mask);
        if lpm != null {
          NextIsBest(table, i, target, k);
        }
        if Matches(route.route, target) && AtLeast(route.route.mask, largest) {
          largest := route.route.mask;
          lpm := route;
          k := i;
        }
        route := route.next;
        i := i + 1;
      }
      if lpm != null {
        BestIsUnique(table, target, k, LongestMatch(table, target).value);
      }
    }
  }

  // ---------------------------------------------------------------------------------------------
  // Prefix lengths
  // ---------------------------------------------------------------------------------------------

  function ShiftedOnce(m: Ip): Ip {
    m << 1
  }

  /** All ones shifted left by `k`. */
  function Shifted(k: nat): Ip {
    if k == 0 then 0xFFFF_FFFF else ShiftedOnce(Shifted(k - 1))
  }

  /** The contiguous mask with `n` leading ones. */
  function PrefixMask(n: nat): Ip
    requires n <= 32
  {
    Shifted(32 - n)
  }

  /** Shifted right by `k`, and back again. */
  function RightBy(x: Ip, k: nat): Ip {
    if k == 0 then x else RightBy(Halved(x), k - 1)
  }

  function LeftBy(x: Ip, k: nat): Ip {
    if k == 0 then x else ShiftedOnce(LeftBy(x, k - 1))
  }

  function Halved(x: Ip): Ip {
    x >> 1
  }

  lemma MaskShifts(m: Ip, x: Ip)
    ensures Masked(ShiftedOnce(m), x) == ShiftedOnce(Masked(m, Halved(x)))
  {
  }

  lemma AllOnes(x: Ip)
    ensures Masked(0xFFFF_FFFF, x) == x
  {
  }

  /** Masking with `k` zeros at the end clears the last `k` bits. */
  lemma {:induction false} MaskClears(k: nat, x: Ip)
    ensures Masked(Shifted(k), x) == LeftBy(RightBy(x, k), k)
  {
    hide Masked, ShiftedOnce, Halved;
    if k == 0 {
      AllOnes(x);
    } else {
      MaskClears(k - 1, Halved(x));
      MaskShifts(Shifted(k - 1), x);
    }
  }

  /** A route with an `n`-bit prefix matches exactly the addresses whose first `n` bits are those of its destination,
      which has zeros behind them. */
  lemma {:induction false} MatchesPrefix(r: Route, n: nat, target: Ip)
    requires n <= 32 && r.mask == PrefixMask(n)
    ensures Matches(r, target) <==> r.dest == LeftBy(RightBy(target, 32 - n), 32 - n)
  {
    hide Shifted, LeftBy, RightBy, Masked;
    MaskClears(32 - n, target);
  }

  /** Ones followed by zeros: adding the lowest one carries out of the word. */
  predicate Contiguous(m: Ip) {
    m == 0 || (!m & (!m + 1)) == 0
  }

  lemma ShiftShrinks(m: Ip)
    requires Contiguous(m)
    ensures Contiguous(ShiftedOnce(m))
    ensures m != 0 ==> !AtLeast(ShiftedOnce(m), m)
  {
  }

  lemma OnesContiguous()
    ensures Contiguous(0xFFFF_FFFF)
  {
  }

  lemma {:induction false} ShiftedContiguous(k: nat)
    ensures Contiguous(Shifted(k))
  {
    hide Contiguous, ShiftedOnce;
    if k == 0 {
      OnesContiguous();
    } else {
      ShiftedContiguous(k - 1);
      ShiftShrinks(Shifted(k - 1));
    }
  }

  lemma LastShift()
    ensures Shifted(31) == 0x8000_0000
  {
    assert Shifted(4) == 0xFFFF_FFF0;
    assert Shifted(8) == 0xFFFF_FF00;
    assert Shifted(12) == 0xFFFF_F000;
    assert Shifted(16) == 0xFFFF_0000;
    assert Shifted(20) == 0xFFF0_0000;
    assert Shifted(24) == 0xFF00_0000;
    assert Shifted(28) == 0xF000_0000;
  }

  lemma {:induction false} ZeroStays(k: nat, j: nat)
    requires Shifted(k) == 0 && k <= j
    ensures Shifted(j) == 0
  {
    if k < j {
      ZeroStays(k, j - 1);
    }
  }

  /** Up to the last bit every further shift makes the mask smaller. */
  lemma {:induction false} ShiftedDecreases(j: nat, k: nat)
    requires j < k <= 32
    ensures !AtLeast(Shifted(k), Shifted(j))
  {
    var before := Shifted(k - 1);
    if before == 0 {
      ZeroStays(k - 1, 31);
      LastShift();
      assert false;
    }
    ShiftedContiguous(k - 1);
    ShiftShrinks(before);
    hide AtLeast, ShiftedOnce;
    if j < k - 1 {
      ShiftedDecreases(j, k - 1);
      AtLeastTotal(before, Shifted(j));
      if AtLeast(Shifted(k), Shifted(j)) {
        AtLeastTransitive(Shifted(k), Shifted(j), before);
      }
    }
  }

  /** For contiguous masks the numeric order is the order of the prefix lengths. */
  lemma MaskOrderIsPrefixOrder(m: nat, n: nat)
    requires m <= 32 && n <= 32
    ensures AtLeast(PrefixMask(m), PrefixMask(n)) <==> m >= n
    ensures PrefixMask(m) == PrefixMask(n) <==> m == n
  {
    hide AtLeast, Shifted;
    AtLeastReflexive(PrefixMask(m));
    AtLeastTotal(PrefixMask(m), PrefixMask(n));
    if m < n {
      ShiftedDecreases(32 - n, 32 - m);
    } else if n < m {
      ShiftedDecreases(32 - m, 32 - n);
    }
  }

  /** With contiguous masks the longest match is a match of the longest prefix, the last one among equals, and
      it is missing exactly if nothing matches. */
  lemma LongestMatchIsLongestPrefix(table: seq<Route>, lens: seq<nat>, target: Ip)
    requires |lens| == |table| && forall i :: 0 <= i < |table| ==> lens[i] <= 32 && table[i].mask == PrefixMask(lens[i])
    ensures match LongestMatch(table, target)
            case None => forall j :: 0 <= j < |table| ==> !Matches(table[j], target)
            case Some(k) =>
              && k < |table| && Matches(table[k], target)
              && (forall j :: 0 <= j < |table| && Matches(table[j], target) ==> lens[j] <= lens[k])
              && (forall j :: k < j < |table| && Matches(table[j], target) ==> lens[j] < lens[k])
  {
    hide Matches, AtLeast, PrefixMask;
    var best := BestExists(table, |table|, target);
    match LongestMatch(table, target)
    case None =>
    case Some(k) =>
      forall j | 0 <= j < |table| && Matches(table[j], target)
        ensures lens[j] <= lens[k] && (k < j ==> lens[j] < lens[k])
      {
        MaskOrderIsPrefixOrder(lens[k], lens[j]);
        MaskOrderIsPrefixOrder(lens[j], lens[k]);
      }
  }
}
