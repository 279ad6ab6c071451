/** Where the router sends what it sends: next hops and interfaces of forwarded packets and of its own, and which
    packets are answered how. */
module RouterHops {
  import opened Bytes
  import opened InternetChecksum
  import opened Routes
  import opened ArpModel
  import opened ArpRuns
  import opened IpForwarding
  import opened IpRouter
  import opened RouterRuns

  // ---------------------------------------------------------------------------------------------
  // Next hops
  // ---------------------------------------------------------------------------------------------

  /** The octets of an address are those of the number, the first one leftmost. */
  lemma OctetsOfIp(q: Quad)
    ensures ToIp(q) >> 24 == q[0] as bv8 as bv32 && (ToIp(q) >> 16) & 0xFF == q[1] as bv8 as bv32
    ensures (ToIp(q) >> 8) & 0xFF == q[2] as bv8 as bv32 && ToIp(q) & 0xFF == q[3] as bv8 as bv32
  {
    OctetsOfNumber(q[0] as bv8, q[1] as bv8, q[2] as bv8, q[3] as bv8);
    hide FromOctets;
  }

  lemma OctetsOfNumber(a: bv8, b: bv8, c: bv8, d: bv8)
    ensures var n := FromOctets(a, b, c, d);
            && n >> 24 == a as bv32 && (n >> 16) & 0xFF == b as bv32
            && (n >> 8) & 0xFF == c as bv32 && n & 0xFF == d as bv32
  {
  }

  /** The frame carries the address of the interface that it leaves on, the first one of its name. */
  predicate LeavesOn(ifaces: seq<Interface>, packet: Packet) {
    && 12 <= |packet.frame|
    && exists i :: 0 <= i < |ifaces| && ifaces[i].name == packet.iface && packet.frame[6..12] == ifaces[i].addr
                   && forall j :: 0 <= j < i ==> ifaces[j].name != packet.iface
  }

  /** A frame goes to the gateway, and out on the interface, of a route that matches its destination, octets 30 to
      33, such that no matching route has a greater mask and no later one an equal mask. */
  ghost predicate GoesBy(setup: Setup, item: Item, k: nat) {
    && 34 <= |item.packet.frame|
    && IsBest(setup.routes, |setup.routes|, ToIp(item.packet.frame[30..34]), k)
    && item.ip == setup.routes[k].gw && item.packet.iface == setup.routes[k].iface
    && LeavesOn(setup.ifaces, item.packet)
  }

  lemma {:induction false} NamedFirst(ifaces: seq<Interface>, name: string)
    ensures forall j :: 0 <= j < Named(ifaces, name) ==> ifaces[j].name != name
  {
    if ifaces != [] && ifaces[0].name != name {
      NamedFirst(ifaces[1..], name);
    }
  }

  lemma SourceIs(addr: Mac, p: seq<byte>)
    requires 34 <= |p|
    ensures WithSource(addr, p)[6..12] == addr && WithSource(addr, p)[30..34] == p[30..34]
  {
  }

  lemma ForwardGoesBy(setup: Setup, p: seq<byte>, iface: string, at: int, k: nat)
    requires setup.Valid() && Fits(setup, Frame(p, iface, at)) && HasHeaders(p)
    requires IsBest(setup.routes, |setup.routes|, ToIp(p[30..34]), k)
    requires p[22] != 1 && forall i :: 0 <= i < |setup.ifaces| ==> setup.ifaces[i].ip != p[30..34]
    ensures var item := Outgoing(setup, Frame(p, iface, at));
            item.Some? && GoesBy(setup, item.value, k) && IsForward(p, item.value.packet.frame)
  {
    hide ToIp, Checksum, LE16, IsGateway, Answer, WithSource, Matches, AtLeast;
    BestIsUnique(setup.routes, ToIp(p[30..34]), k, LongestMatch(setup.routes, ToIp(p[30..34])).value);
    ForwardedBytes(p);
    hide Forwarded;
    var route := setup.routes[k];
    var i := Named(setup.ifaces, route.iface);
    NamedFirst(setup.ifaces, route.iface);
    var frame := WithSource(setup.ifaces[i].addr, Forwarded(p));
    SourceKeepsRest(setup.ifaces[i].addr, Forwarded(p));
    SourceIs(setup.ifaces[i].addr, Forwarded(p));
    assert Forwarded(p)[30..34] == p[30..34];
    assert Decide(p, setup.ifaces, setup.routes) == Verdict.Forward(route);
    assert Outgoing(setup, Frame(p, iface, at)) == Some(Item(route.gw, Packet(frame, route.iface)));
  }

  lemma OwnGoesBy(setup: Setup, n: Notice) returns (k: nat)
    requires setup.Valid() && FrameFor(setup, n).Some?
    ensures GoesBy(setup, FrameFor(setup, n).value, k)
    ensures var frame := FrameFor(setup, n).value.packet.frame;
            && frame[26..30] == n.src && frame[30..34] == n.dst && frame[34..] == n.message && frame[23] == 1
  {
    hide ToIp, IsGateway, IpHeader;
    k := LongestMatch(setup.routes, ToIp(n.dst)).value;
    var i := Named(setup.ifaces, setup.routes[k].iface);
    NamedFirst(setup.ifaces, setup.routes[k].iface);
    var frame := FrameFor(setup, n).value.packet.frame;
    assert frame == IpFrame(setup.ifaces[i].addr, ICMP, n.src, n.dst, n.message);
    IpFrameChecks(setup.ifaces[i].addr, ICMP, n.src, n.dst, n.message);
    IpFrameProtocol(setup.ifaces[i].addr, ICMP, n.src, n.dst, n.message);
    assert frame[6..12] == setup.ifaces[i].addr;
  }

  /** Every frame that the router submits goes by the longest match for its destination. */
  lemma OutgoingGoesBy(setup: Setup, input: Input) returns (k: nat)
    requires setup.Valid() && Fits(setup, input) && Outgoing(setup, input).Some?
    ensures GoesBy(setup, Outgoing(setup, input).value, k)
  {
    hide GoesBy, FrameFor, ToIp, LongestMatch, IsGateway, Forwarded, HostUnreachable;
    match input
    case Frame(p, iface, at) =>
      if Decide(p, setup.ifaces, setup.routes).Forward? {
        k := ForwardRoute(setup, p);
        ForwardGoesBy(setup, p, iface, at, k);
      } else {
        hide Decide;
        k := OwnGoesBy(setup, Answer(p, setup.ifaces, setup.routes, setup.ifaces[Named(setup.ifaces, iface)].ip).value);
      }
    case Report(packet, _) => k := OwnGoesBy(setup, HostUnreachable(packet, setup.ifaces));
    case _ =>
  }

  lemma ForwardRoute(setup: Setup, p: seq<byte>) returns (k: nat)
    requires Decide(p, setup.ifaces, setup.routes).Forward?
    ensures IsBest(setup.routes, |setup.routes|, ToIp(p[30..34]), k)
    ensures p[22] != 1 && forall i :: 0 <= i < |setup.ifaces| ==> setup.ifaces[i].ip != p[30..34]
  {
    hide ToIp;
    k := LongestMatch(setup.routes, ToIp(p[30..34])).value;
  }

  /** Next hops: in every run of the router, every frame that was transmitted, waits or was reported unreachable goes
      by the longest match for its destination. */
  lemma NextHops(setup: Setup, inputs: seq<Input>, item: Item) returns (k: nat)
    requires setup.Valid() && AllFit(setup, inputs)
    requires var r := RouterRun(setup, inputs); item in Transmissions(r.log) + Reports(r.log) + Waiting(r.requests)
    ensures GoesBy(setup, item, k)
  {
    hide RouterRun, Operation, Outgoing, Fits, Run, Transmissions, Reports, Waiting, GoesBy, Submissions;
    RouterRunIsRun(setup, inputs);
    var ops := Operations(setup, inputs);
    FramesConserved(setup.routes, ops);
    var j := SubmittedIsOp(ops, item);
    var i := OperationHasInput(setup, inputs, j);
    hide Operations;
    OperationIsOutgoing(setup, inputs[i], ops[j]);
    k := OutgoingGoesBy(setup, inputs[i]);
  }

  /** Conversely, a packet that is not for an address of the router, whose time to live is not one, and for which
      there is a route, is submitted exactly so, once, and nothing else with it. */
  lemma ForwardIsSubmitted(setup: Setup, inputs: seq<Input>, p: seq<byte>, iface: string, at: int, k: nat)
    returns (item: Item)
    requires setup.Valid() && AllFit(setup, inputs) && Fits(setup, Frame(p, iface, at)) && HasHeaders(p)
    requires IsBest(setup.routes, |setup.routes|, ToIp(p[30..34]), k)
    requires p[22] != 1 && forall i :: 0 <= i < |setup.ifaces| ==> setup.ifaces[i].ip != p[30..34]
    ensures AllFit(setup, inputs + [Frame(p, iface, at)])
    ensures GoesBy(setup, item, k) && IsForward(p, item.packet.frame)
    ensures Account(RouterRun(setup, inputs + [Frame(p, iface, at)]))
         == Account(RouterRun(setup, inputs)) + multiset{item}
  {
    hide Outgoing, Fits, RouterRun, Account, IsForward, GoesBy;
    ForwardGoesBy(setup, p, iface, at, k);
    item := Outgoing(setup, Frame(p, iface, at)).value;
    OneMoreInput(setup, inputs, Frame(p, iface, at));
  }

  /** What one more packet or report adds to what is transmitted, waits or is reported. */
  lemma {:induction false} OneMoreInput(setup: Setup, inputs: seq<Input>, input: Input)
    requires setup.Valid() && AllFit(setup, inputs) && Fits(setup, input) && (input.Frame? || input.Report?)
    ensures AllFit(setup, inputs + [input])
    ensures var item := Outgoing(setup, input);
            Account(RouterRun(setup, inputs + [input])) ==
            Account(RouterRun(setup, inputs)) + if item.Some? then multiset{item.value} else multiset{}
  {
    hide Outgoing, Fits, Account, Handled, Sound, Attempt;
    var all := inputs + [input];
    assert all[..|all| - 1] == inputs && all[|all| - 1] == input;
    assert AllFit(setup, all);
    var r := RouterRun(setup, inputs);
    assert RouterRun(setup, all) == Handled(r, setup, input);
    hide RouterRun;
    HandledIsOperation(r, setup, input);
    var item := Outgoing(setup, input);
    if item.Some? {
      AttemptAccount(r, setup.routes, item.value, input.at);
    }
  }

  // ---------------------------------------------------------------------------------------------
  // Answers
  // ---------------------------------------------------------------------------------------------

  /** An ICMP message of a type and a code, with `body` behind the checksum, that checks. */
  predicate IsIcmp(message: seq<byte>, kind: byte, code: byte, body: seq<byte>) {
    && |message| == 4 + |body| && message[0] == kind && message[1] == code && message[4..] == body
    && (|message| <= MAX_DATA ==> Checksum(message) == 0xffff)
  }

  lemma IcmpMessageIs(kind: byte, code: byte, body: seq<byte>)
    ensures IsIcmp(IcmpMessage(kind, code, body), kind, code, body)
  {
    hide Checksum;
    if |body| + 4 <= MAX_DATA {
      IcmpMessageChecks(kind, code, body);
    }
  }

  /** The IP header and the first eight octets of the payload. */
  function Quote(p: seq<byte>): seq<byte>
    requires HasHeaders(p) && 14 + HeaderLength(p) + 8 <= |p|
  {
    p[14..14 + HeaderLength(p) + 8]
  }

  predicate ForMyself(p: seq<byte>, ifaces: seq<Interface>)
    requires HasHeaders(p)
  {
    exists i :: 0 <= i < |ifaces| && ifaces[i].ip == p[30..34]
  }

  /** A packet for the router itself: an echo request is answered with an echo reply and the data up to the packet's
      total length, another ICMP message not at all, and anything else with port unreachable; always from the
      address that it was for, and to where it came from. */
  lemma LocalAnswers(p: seq<byte>)
    requires LocalBounds(p)
    ensures var reply, at := LocalReply(p), 14 + HeaderLength(p);
            if p[23] == 1 && p[at] != 8 then reply.None?
            else
              && reply.Some? && reply.value.src == p[30..34] && reply.value.dst == p[26..30]
              && if p[23] == 1
                 then IsIcmp(reply.value.message, 0, 0, p[at + 4..14 + p[16] as int * 256 + p[17]])
                 else IsIcmp(reply.value.message, 3, 3, [0, 0, 0, 0] + Quote(p) + Zeros(28 - |Quote(p)|))
  {
    hide IcmpMessage, IsIcmp;
    var at := 14 + HeaderLength(p);
    if p[23] != 1 {
      assert Zeros(4) == [0, 0, 0, 0];
      IcmpMessageIs(3, 3, UnreachBody(Quoted(p)));
    } else if p[at] == 8 {
      IcmpMessageIs(0, 0, p[at + 4..14 + TotalLength(p)]);
    }
  }

  /** A packet for somebody else: time exceeded when its time to live is one, network unreachable when no route
      matches, from the router's address on the interface that it came from, and to where it came from; no answer
      when it is forwarded. */
  lemma TransitAnswers(p: seq<byte>, ifaces: seq<Interface>, routes: seq<Route>, back: Quad)
    requires Handleable(p, ifaces, routes) && HasHeaders(p) && !ForMyself(p, ifaces)
    ensures var answer := Answer(p, ifaces, routes, back);
            if p[22] == 1
            then
              && answer.Some? && answer.value.src == back && answer.value.dst == p[26..30]
              && 14 + HeaderLength(p) + 8 <= |p|
              && IsIcmp(answer.value.message, 11, 0, [0, 0, 0, 0] + Quote(p))
            else if forall j :: 0 <= j < |routes| ==> !Matches(routes[j], ToIp(p[30..34]))
            then
              && answer.Some? && answer.value.src == back && answer.value.dst == p[26..30]
              && 14 + HeaderLength(p) + 8 <= |p| && HeaderLength(p) <= 20
              && IsIcmp(answer.value.message, 3, 0,
                        [0, 0, 0, 0] + Forwarded(p)[14..14 + HeaderLength(p) + 8] + Zeros(20 - HeaderLength(p)))
            else answer.None?
  {
    hide IcmpMessage, IsIcmp, ToIp, Matches, AtLeast, Forwarded;
    var none := BestExists(routes, |routes|, ToIp(p[30..34]));
    assert Zeros(4) == [0, 0, 0, 0];
    ForwardedAddresses(p);
    if p[22] == 1 {
      IcmpMessageIs(11, 0, Zeros(4) + Quoted(p));
    } else if LongestMatch(routes, ToIp(p[30..34])).None? {
      IcmpMessageIs(3, 0, UnreachBody(Quoted(Forwarded(p))));
    }
  }

  /** A frame whose next hop did not answer: host unreachable, to where it came from, from the router's address on
      the interface that it was to leave on. */
  lemma {:induction false} ReportAnswers(packet: Packet, ifaces: seq<Interface>)
    requires Reportable(packet, ifaces)
    ensures var n, p := HostUnreachable(packet, ifaces), packet.frame;
            && n.src == ifaces[Named(ifaces, packet.iface)].ip && n.dst == p[26..30]
            && IsIcmp(n.message, 3, 1, [0, 0, 0, 0] + Quote(p) + Zeros(28 - |Quote(p)|))
  {
    hide IcmpMessage, IsIcmp;
    assert Zeros(4) == [0, 0, 0, 0];
    IcmpMessageIs(3, 1, UnreachBody(Quoted(packet.frame)));
  }

  /** An answer for whose receiver there is a route is submitted once, to the next hop for that receiver, between the
      addresses that it names and with its message. */
  lemma AnswerIsSubmitted(setup: Setup, inputs: seq<Input>, p: seq<byte>, iface: string, at: int, n: Notice)
    returns (item: Item, k: nat)
    requires setup.Valid() && AllFit(setup, inputs) && Fits(setup, Frame(p, iface, at))
    requires Answer(p, setup.ifaces, setup.routes, setup.ifaces[Named(setup.ifaces, iface)].ip) == Some(n)
    requires exists j :: 0 <= j < |setup.routes| && Matches(setup.routes[j], ToIp(n.dst))
    ensures AllFit(setup, inputs + [Frame(p, iface, at)])
    ensures GoesBy(setup, item, k)
    ensures var f := item.packet.frame; f[26..30] == n.src && f[30..34] == n.dst && f[34..] == n.message && f[23] == 1
    ensures Account(RouterRun(setup, inputs + [Frame(p, iface, at)]))
         == Account(RouterRun(setup, inputs)) + multiset{item}
  {
    hide RouterRun, Account, GoesBy, IpFrame, ToIp, Matches, AtLeast, IsGateway, Forwarded;
    var best := BestExists(setup.routes, |setup.routes|, ToIp(n.dst));
    assert LongestMatch(setup.routes, ToIp(n.dst)).Some?;
    assert FrameFor(setup, n).Some?;
    AnswerIsOutgoing(setup, p, iface, at, n);
    hide Outgoing, Fits, FrameFor, Answer;
    item := FrameFor(setup, n).value;
    k := OwnGoesBy(setup, n);
    OneMoreInput(setup, inputs, Frame(p, iface, at));
  }

  lemma {:induction false} AnswerIsOutgoing(setup: Setup, p: seq<byte>, iface: string, at: int, n: Notice)
    requires setup.Valid() && Fits(setup, Frame(p, iface, at))
    requires Answer(p, setup.ifaces, setup.routes, setup.ifaces[Named(setup.ifaces, iface)].ip) == Some(n)
    ensures Outgoing(setup, Frame(p, iface, at)) == FrameFor(setup, n)
  {
    hide FrameFor, IcmpMessage, Forwarded;
  }
}
