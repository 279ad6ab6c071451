/** Runs of the whole router: packets, ARP packets and ticks come in, frames go out. */
module RouterRuns {
  import opened Bytes
  import opened InternetChecksum
  import opened Routes
  import opened ArpModel
  import opened ArpRuns
  import opened ArpTheorems
  import opened IpForwarding
  import opened IpRouter

  /** What reaches the router. `Report` is the ICMP error about one frame of a request that was given up. */
  datatype Input =
    | Frame(p: seq<byte>, iface: string, at: int)
    | Arp(mac: Mac, ip: Ip, at: int)
    | Second(at: int)
    | Report(packet: Packet, at: int)

  /** Every route leads out on an interface of the router. */
  datatype Setup = Setup(ifaces: seq<Interface>, routes: seq<Route>) {
    predicate Valid() {
      forall k :: 0 <= k < |routes| ==> Named(ifaces, routes[k].iface) < |ifaces|
    }
  }

  /** What comes in holds what the code reads of it. */
  ghost predicate Fits(setup: Setup, input: Input) {
    match input
    case Frame(p, iface, _) => Named(setup.ifaces, iface) < |setup.ifaces| && Handleable(p, setup.ifaces, setup.routes)
    case Report(packet, _) => Reportable(packet, setup.ifaces)
    case _ => true
  }

  ghost predicate AllFit(setup: Setup, inputs: seq<Input>) {
    forall i :: 0 <= i < |inputs| ==> Fits(setup, inputs[i])
  }

  ghost function Handled(r: Router, setup: Setup, input: Input): Router
    requires setup.Valid() && Fits(setup, input) && Sound(r.requests, setup.routes)
  {
    match input
    case Frame(p, iface, at) => Response(r, p, setup.ifaces, setup.routes, iface, at)
    case Arp(mac, ip, at) => Receive(r, setup.routes, mac, ip, at)
    case Second(at) => Tick(r, setup.routes, at)
    case Report(packet, at) => Send(r, setup.ifaces, setup.routes, HostUnreachable(packet, setup.ifaces), at)
  }

  ghost function RouterRun(setup: Setup, inputs: seq<Input>): (r: Router)
    requires setup.Valid() && AllFit(setup, inputs)
    ensures Sound(r.requests, setup.routes)
  {
    if inputs == [] then Empty()
    else
      HandledSound(RouterRun(setup, inputs[..|inputs| - 1]), setup, inputs[|inputs| - 1]);
      Handled(RouterRun(setup, inputs[..|inputs| - 1]), setup, inputs[|inputs| - 1])
  }

  // ---------------------------------------------------------------------------------------------
  // Runs of the router are runs of the ARP code
  // ---------------------------------------------------------------------------------------------

  /** The frame in which a message leaves, if there is a route and an interface for it. */
  ghost function FrameFor(setup: Setup, n: Notice): (item: Option<Item>)
    ensures item.Some? ==> IsGateway(setup.routes, item.value.ip) && ETHER_HDR <= |item.value.packet.frame|
  {
    match LongestMatch(setup.routes, ToIp(n.dst))
    case None => None
    case Some(k) =>
      var i := Named(setup.ifaces, setup.routes[k].iface);
      RouteIsGateway(setup.routes, k);
      if i == |setup.ifaces| then None
      else Some(Item(setup.routes[k].gw,
          Packet(IpFrame(setup.ifaces[i].addr, ICMP, n.src, n.dst, n.message), setup.ifaces[i].name)))
  }

  /** The frame that the router submits for what came in, whatever its cache holds. */
  ghost function Outgoing(setup: Setup, input: Input): (item: Option<Item>)
    requires setup.Valid() && Fits(setup, input)
    ensures item.Some? ==> IsGateway(setup.routes, item.value.ip) && ETHER_HDR <= |item.value.packet.frame|
  {
    match input
    case Frame(p, iface, _) =>
      (match Decide(p, setup.ifaces, setup.routes)
       case Forward(route) =>
         var out := setup.ifaces[Named(setup.ifaces, route.iface)];
         Some(Item(route.gw, Packet(WithSource(out.addr, Forwarded(p)), route.iface)))
       case _ =>
         match Answer(p, setup.ifaces, setup.routes, setup.ifaces[Named(setup.ifaces, iface)].ip)
         case None => None
         case Some(n) => FrameFor(setup, n))
    case Report(packet, _) => FrameFor(setup, HostUnreachable(packet, setup.ifaces))
    case _ => None
  }

  /** The step of the ARP code that an input causes, if any. */
  ghost function Operation(setup: Setup, input: Input): (ops: seq<Op>)
    requires setup.Valid() && Fits(setup, input)
    ensures |ops| <= 1 && AllAllowed(ops, setup.routes)
  {
    match input
    case Arp(mac, ip, at) => [Arrive(mac, ip, at)]
    case Second(at) => [Timer(at)]
    case _ => match Outgoing(setup, input) case None => [] case Some(item) => [Submit(item, input.at)]
  }

  lemma SendIsAttempt(r: Router, setup: Setup, n: Notice, now: int)
    ensures var item := FrameFor(setup, n);
            Send(r, setup.ifaces, setup.routes, n, now) ==
            if item.None? then r else Attempt(r, setup.routes, item.value, now)
  {
    hide Attempt, IpFrame, ToIp, Named, IsGateway;
  }

  /** Whatever the router does with an input is the step that `Operation` says, or nothing. */
  lemma HandledIsOperation(r: Router, setup: Setup, input: Input)
    requires setup.Valid() && Fits(setup, input) && Sound(r.requests, setup.routes)
    ensures var ops := Operation(setup, input);
            Handled(r, setup, input) == if ops == [] then r else Step(r, setup.routes, ops[0])
  {
    hide Attempt, Send, Sound, Forwarded, FrameFor, Answer, Receive, Tick, IsGateway, HostUnreachable;
    match input
    case Frame(p, iface, at) =>
      if !Decide(p, setup.ifaces, setup.routes).Forward? {
        var n := Answer(p, setup.ifaces, setup.routes, setup.ifaces[Named(setup.ifaces, iface)].ip);
        if n.Some? {
          SendIsAttempt(r, setup, n.value, at);
        }
      }
    case Report(packet, at) => SendIsAttempt(r, setup, HostUnreachable(packet, setup.ifaces), at);
    case Arp(mac, ip, at) =>
    case Second(at) =>
  }

  lemma HandledSound(r: Router, setup: Setup, input: Input)
    requires setup.Valid() && Fits(setup, input) && Sound(r.requests, setup.routes)
    ensures Sound(Handled(r, setup, input).requests, setup.routes)
  {
    hide Handled, Sound, Operation, Step;
    HandledIsOperation(r, setup, input);
    var ops := Operation(setup, input);
    if ops != [] {
      StepSound(r, setup.routes, ops[0]);
    }
  }

  ghost function Operations(setup: Setup, inputs: seq<Input>): (ops: seq<Op>)
    requires setup.Valid() && AllFit(setup, inputs)
    ensures AllAllowed(ops, setup.routes)
  {
    if inputs == [] then []
    else Operations(setup, inputs[..|inputs| - 1]) + Operation(setup, inputs[|inputs| - 1])
  }

  /** A run of the router is a run of the steps of the ARP code, each of them allowed, so everything that holds
      over runs of those steps holds over runs of the router. */
  lemma {:induction false} RouterRunIsRun(setup: Setup, inputs: seq<Input>)
    requires setup.Valid() && AllFit(setup, inputs)
    ensures RouterRun(setup, inputs) == Run(setup.routes, Operations(setup, inputs))
  {
    hide Handled, Operation, Step, Sound, Fits;
    if inputs == [] {
    } else {
      var front, input := inputs[..|inputs| - 1], inputs[|inputs| - 1];
      RouterRunIsRun(setup, front);
      HandledIsOperation(RouterRun(setup, front), setup, input);
      RunOneMore(setup.routes, Operations(setup, front), Operation(setup, input));
    }
  }

  lemma {:induction false} RunOneMore(routes: seq<Route>, ops: seq<Op>, more: seq<Op>)
    requires AllAllowed(ops, routes) && AllAllowed(more, routes) && |more| <= 1
    ensures AllAllowed(ops + more, routes)
    ensures Run(routes, ops + more) == if more == [] then Run(routes, ops) else Step(Run(routes, ops), routes, more[0])
  {
    hide Step, Sound, Allowed;
    if more == [] {
      assert ops + more == ops;
    } else {
      assert (ops + more)[..|ops + more| - 1] == ops;
    }
  }

  // ---------------------------------------------------------------------------------------------
  // Where transmitted frames come from
  // ---------------------------------------------------------------------------------------------

  /** Behind the Ethernet addresses, `wire` is a packet that came in, decremented and with its checksum renewed. */
  predicate IsForward(p: seq<byte>, wire: seq<byte>) {
    InBounds(p) && NextTtl(p[TTL_AT]) != 0 && |wire| == |p| && wire[12..] == Forwarded(p)[12..]
  }

  /** Behind the Ethernet addresses, `wire` is an ICMP packet of the router's own. */
  predicate IsOwn(wire: seq<byte>, addr: Mac, src: Quad, dst: Quad, message: seq<byte>) {
    var own := IpFrame(addr, ICMP, src, dst, message);
    |wire| == |own| && wire[12..] == own[12..]
  }

  lemma {:induction false} SubmittedIsOp(ops: seq<Op>, item: Item) returns (k: nat)
    requires item in Submissions(ops)
    ensures k < |ops| && ops[k].Submit? && ops[k].item == item
  {
    var n := |ops| - 1;
    if ops[n].Submit? && ops[n].item == item {
      k := n;
    } else {
      k := SubmittedIsOp(ops[..n], item);
    }
  }

  lemma {:induction false} TransmittedIsCounted(log: seq<Event>, n: nat)
    requires n < |log| && log[n].Transmitted?
    ensures log[n].item in Transmissions(log)
  {
    if n < |log| - 1 {
      TransmittedIsCounted(log[..|log| - 1], n);
    }
  }

  lemma {:induction false} OperationHasInput(setup: Setup, inputs: seq<Input>, j: nat) returns (k: nat)
    requires setup.Valid() && AllFit(setup, inputs) && j < |Operations(setup, inputs)|
    ensures k < |inputs| && Operation(setup, inputs[k]) == [Operations(setup, inputs)[j]]
  {
    hide Operation, Fits;
    var front, input := inputs[..|inputs| - 1], inputs[|inputs| - 1];
    if j < |Operations(setup, front)| {
      k := OperationHasInput(setup, front, j);
    } else {
      k := |inputs| - 1;
    }
  }

  /** A submitted frame is a forwarded packet or one of the router's own. */
  lemma OutgoingKinds(setup: Setup, input: Input)
    requires setup.Valid() && Fits(setup, input) && Outgoing(setup, input).Some?
    ensures var frame := Outgoing(setup, input).value.packet.frame;
            || (input.Frame? && IsForward(input.p, frame))
            || exists addr: Mac, src: Quad, dst: Quad, message :: IsOwn(frame, addr, src, dst, message)
  {
    hide Answer, HostUnreachable, Forwarded, IpFrame;
    match input
    case Frame(p, iface, _) =>
      var v := Decide(p, setup.ifaces, setup.routes);
      if v.Forward? {
        SourceKeepsRest(setup.ifaces[Named(setup.ifaces, v.route.iface)].addr, Forwarded(p));
      } else {
        FrameForIsOwn(setup, Answer(p, setup.ifaces, setup.routes, setup.ifaces[Named(setup.ifaces, iface)].ip).value);
      }
    case Report(packet, _) => FrameForIsOwn(setup, HostUnreachable(packet, setup.ifaces));
    case _ =>
  }

  lemma SourceKeepsRest(addr: Mac, p: seq<byte>)
    requires ETHER_HDR <= |p|
    ensures WithSource(addr, p)[12..] == p[12..]
  {
  }

  lemma FrameForIsOwn(setup: Setup, n: Notice)
    requires FrameFor(setup, n).Some?
    ensures exists addr: Mac, src: Quad, dst: Quad, message ::
              IsOwn(FrameFor(setup, n).value.packet.frame, addr, src, dst, message)
  {
    hide IpFrame, ToIp;
    var k := LongestMatch(setup.routes, ToIp(n.dst)).value;
    var i := Named(setup.ifaces, setup.routes[k].iface);
    assert IsOwn(FrameFor(setup, n).value.packet.frame, setup.ifaces[i].addr, n.src, n.dst, n.message);
  }

  /** Every frame on the wire is a packet that the router received, one hop further, or an ICMP packet of its
      own. */
  lemma {:induction false} TransmittedFrames(setup: Setup, inputs: seq<Input>, n: nat)
    requires setup.Valid() && AllFit(setup, inputs)
    requires n < |RouterRun(setup, inputs).log| && RouterRun(setup, inputs).log[n].Transmitted?
    ensures var wire := RouterRun(setup, inputs).log[n].wire;
            || (exists k :: 0 <= k < |inputs| && inputs[k].Frame? && IsForward(inputs[k].p, wire))
            || (exists addr: Mac, src: Quad, dst: Quad, message :: IsOwn(wire, addr, src, dst, message))
  {
    hide RouterRun, Operation, Fits, Run, Transmissions, Reports, Waiting, IsForward, IsOwn;
    RouterRunIsRun(setup, inputs);
    var ops := Operations(setup, inputs);
    var log := RouterRun(setup, inputs).log;
    TransmittedIsCounted(log, n);
    FramesConserved(setup.routes, ops);
    SendsToKnownAddresses(setup.routes, ops, n);
    var j := SubmittedIsOp(ops, log[n].item);
    var k := OperationHasInput(setup, inputs, j);
    hide Operations;
    OperationIsOutgoing(setup, inputs[k], ops[j]);
    OutgoingKinds(setup, inputs[k]);
    var frame, wire := log[n].item.packet.frame, log[n].wire;
    assert wire[12..] == wire[6..][6..] && frame[12..] == frame[6..][6..];
    SameRest(frame, wire);
  }

  lemma OperationIsOutgoing(setup: Setup, input: Input, op: Op)
    requires setup.Valid() && Fits(setup, input) && Operation(setup, input) == [op] && op.Submit?
    ensures Outgoing(setup, input) == Some(op.item)
  {
    hide Outgoing, Fits;
  }

  /** The destination address does not matter to where a frame comes from. */
  lemma SameRest(frame: seq<byte>, wire: seq<byte>)
    requires |wire| == |frame| && 12 <= |frame| && wire[12..] == frame[12..]
    ensures forall p :: IsForward(p, frame) ==> IsForward(p, wire)
    ensures forall addr, src, dst, message ::
        IsOwn(frame, addr, src, dst, message) ==> IsOwn(wire, addr, src, dst, message)
  {
  }

  /** Every IP header that the router puts on the wire and that holds its checksum field is valid. */
  lemma {:induction false} TransmittedHeadersCheck(setup: Setup, inputs: seq<Input>, n: nat)
    requires setup.Valid() && AllFit(setup, inputs)
    requires n < |RouterRun(setup, inputs).log| && RouterRun(setup, inputs).log[n].Transmitted?
    ensures var wire := RouterRun(setup, inputs).log[n].wire;
            InBounds(wire) && (HeaderLength(wire) >= SUM_END ==> Checksum(Header(wire)) == 0xffff)
  {
    TransmittedFrames(setup, inputs, n);
    hide RouterRun, Fits, Checksum, IsForward, IsOwn;
    var wire := RouterRun(setup, inputs).log[n].wire;
    if k :| 0 <= k < |inputs| && inputs[k].Frame? && IsForward(inputs[k].p, wire) {
      ForwardChecks(inputs[k].p, wire);
    } else {
      var addr: Mac, src: Quad, dst: Quad, message :| IsOwn(wire, addr, src, dst, message);
      OwnChecks(wire, addr, src, dst, message);
    }
  }

  /** A forwarded frame whose header holds its checksum field is one hop of a path. */
  lemma ForwardIsHop(p: seq<byte>, wire: seq<byte>)
    requires IsForward(p, wire) && HeaderLength(p) >= SUM_END
    ensures Hop(p, wire)
  {
  }

  lemma ForwardChecks(p: seq<byte>, wire: seq<byte>)
    requires IsForward(p, wire)
    ensures InBounds(wire) && (HeaderLength(wire) >= SUM_END ==> Checksum(Header(wire)) == 0xffff)
  {
    hide Checksum, Forwarded, Hop;
    ForwardedBytes(p);
    assert wire[IP_AT] == wire[12..][2] == Forwarded(p)[12..][2] == Forwarded(p)[IP_AT];
    if HeaderLength(p) >= SUM_END {
      ForwardIsHop(p, wire);
      HopKeeps(p, wire);
    }
  }

  lemma OwnChecks(wire: seq<byte>, addr: Mac, src: Quad, dst: Quad, message: seq<byte>)
    requires IsOwn(wire, addr, src, dst, message)
    ensures InBounds(wire) && Checksum(Header(wire)) == 0xffff
  {
    hide Checksum, IpFrame;
    var own := IpFrame(addr, ICMP, src, dst, message);
    IpFrameChecks(addr, ICMP, src, dst, message);
    assert wire[IP_AT] == wire[12..][2] && own[IP_AT] == own[12..][2];
    assert HeaderLength(wire) == HeaderLength(own) == IP_HDR;
    var w, o := wire[12..], own[12..];
    assert wire[IP_AT..IP_AT + IP_HDR] == w[2..2 + IP_HDR];
    assert own[IP_AT..IP_AT + IP_HDR] == o[2..2 + IP_HDR];
  }
}
