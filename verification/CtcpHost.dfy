/** One end of a cTCP connection (lab4/ctcp/ctcp.c with `bbr_send` of lab4/ctcp/ctcp_bbr.c) on values:
    the state of `ctcp_state_t` and what each callback of the library makes of it. `CtcpEndpoint` is the
    object that works in place. */
module CtcpHost {
  import opened Bytes
  import opened OutputQueue
  import B = BbrModel

  const MAX_SEG_DATA_SIZE: nat := 1440
  const RETRANSMIT_LIMIT: int := 5
  /** sizeof(ctcp_segment_t) on the lab's 64-bit machines. */
  const HEADER_SIZE: nat := 48

  /** What a segment says on the wire. Sequence numbers do not wrap during a connection. */
  datatype Packet = Packet(seqno: nat, ackno: nat, ack: bool, fin: bool, window: nat, data: seq<byte>)

  /** A segment that waits for its acknowledgement, with its timing fields. */
  datatype Segment = Segment(packet: Packet, sendTime: int, delivered: int, deliveredTime: int)

  datatype InputResult = Eof | NoData | Data(bytes: seq<byte>)

  /** The readings of the clock that one call of `ctcp_timer` takes, in order. */
  datatype TimerClock = TimerClock(fin: int, check: int, store: int, stamp: int)

  /** `input` is all that `conn_input` has handed out; the rest are the fields of `ctcp_state_t`. */
  datatype Host = Host(
    alive: bool,
    segments: seq<Segment>,
    seqno: nat,
    nextSeqno: nat,
    ackno: nat,
    recvWindow: nat,
    sendWindow: nat,
    rtTimeout: int,
    readFinish: bool,
    output: seq<byte>,
    lastTimeout: int,
    finReceived: bool,
    finSent: bool,
    getAllAck: bool,
    allRecvOutput: bool,
    retransCount: int,
    bbr: B.Bbr,
    sink: Sink,
    input: seq<byte>)

  /** The state after a callback and the packets it handed to `conn_send`, in order. */
  datatype Outcome = Outcome(host: Host, sent: seq<Packet>)

  /** `ctcp_init`. */
  function Start(recvWindow: nat, sendWindow: nat, rtTimeout: int, now: int): (h: Host)
    ensures h.bbr.Shaped()
  {
    Host(true, [], 1, 1, 1, recvWindow, sendWindow, rtTimeout, false, [], now, false, false, false, false, 0,
         B.Fresh(now), EMPTY, [])
  }

  function AckPacket(h: Host): Packet {
    Packet(h.nextSeqno, h.ackno, true, false, h.recvWindow, [])
  }

  function DataPacket(h: Host, data: seq<byte>): Packet {
    Packet(h.nextSeqno, h.ackno, true, false, h.sendWindow, data)
  }

  function FinPacket(h: Host): Packet {
    Packet(h.nextSeqno, h.ackno, false, true, h.recvWindow, [])
  }

  /** A new segment joins the retransmission queue. */
  function Enqueue(h: Host, s: Segment): Host {
    h.(segments := h.segments + [s], nextSeqno := h.nextSeqno + |s.packet.data|, getAllAck := false)
  }

  /** `ctcp_send_data`. */
  function SendData(h: Host, data: seq<byte>, now: int): Outcome {
    var p := DataPacket(h, data);
    var h' := h.(bbr := h.bbr.(inflight := h.bbr.inflight + |data|));
    Outcome(Enqueue(h', Segment(p, now, h.bbr.delivered, h.bbr.deliveredTime)), [p])
  }

  /** `bbr_send`: queue only when the congestion window is full, otherwise send unless it is too early. */
  function BbrSend(h: Host, data: seq<byte>, now: int): (after: Outcome)
    ensures h.bbr.Shaped() ==> after.host.bbr.Shaped()
  {
    if B.CwndFull(h.bbr) then
      Outcome(Enqueue(h, Segment(DataPacket(h, data), 0, 0, h.bbr.deliveredTime)), [])
    else if now > h.bbr.nextSendTime then
      var o := SendData(h, data, now);
      var next := B.NextSendTime(o.host.bbr, |data|, now);
      o.(host := o.host.(bbr := o.host.bbr.(nextSendTime := next)))
    else
      Outcome(h, [])
  }

  /** Whether `ctcp_read` gets as far as asking for input. */
  predicate WantsInput(h: Host, now: int) {
    h.alive && !h.readFinish && now > h.bbr.nextSendTime && h.nextSeqno < h.seqno + h.sendWindow
  }

  /** `ctcp_read`; the clock is read once here and once more in `bbr_send`. */
  function Read(h: Host, t0: int, t1: int, input: InputResult): (after: Outcome)
    ensures h.bbr.Shaped() ==> after.host.bbr.Shaped()
  {
    if !WantsInput(h, t0) then Outcome(h, [])
    else
      match input
      case Eof => Outcome(h.(readFinish := true), [])
      case NoData => Outcome(h, [])
      case Data(bytes) => BbrSend(h.(input := h.input + bytes), bytes, t1)
  }

  /** `ctcp_output`. */
  function FlushOutput(h: Host, w: WriteResult): (h': Host)
    ensures h'.bbr == h.bbr
  {
    if BufSpace(h.sink) >= |h.output|
    then h.(sink := OutputQueue.Output(h.sink, h.output, w), output := [])
    else h
  }

  /** Whether a segment with data is dropped without a reply. */
  predicate Ignored(h: Host, p: Packet) {
    p.data != [] && (p.seqno < h.ackno || p.seqno > h.ackno + h.recvWindow)
  }

  /** Whether the data of a segment is taken and acknowledged. */
  predicate TakesData(h: Host, p: Packet) {
    p.data != [] && p.seqno == h.ackno && BufSpace(h.sink) >= |p.data|
  }

  /** The part of `ctcp_receive` for a segment with data that is not ignored. */
  function ReceiveData(h: Host, p: Packet, w: WriteResult): (after: Outcome)
    ensures h.bbr.Shaped() ==> after.host.bbr.Shaped()
  {
    if p.data == [] then Outcome(h, [])
    else if TakesData(h, p) then
      var h' := FlushOutput(h.(output := p.data, ackno := h.ackno + |p.data|), w);
      Outcome(h', [AckPacket(h')])
    else Outcome(h, [AckPacket(h)])
  }

  /** An acknowledgement that `ctcp_receive` takes for that of our FIN. */
  predicate AcksFin(h: Host, p: Packet) {
    p.ack && h.finSent && p.ackno == h.seqno + 1
  }

  function Expected(s: Segment): nat {
    s.packet.seqno + |s.packet.data|
  }

  /** The first segment of the queue is acknowledged. */
  function PopSegment(h: Host): Host
    requires h.segments != []
  {
    h.(segments := h.segments[1..], retransCount := 0, seqno := Expected(h.segments[0]))
  }

  /** The first segment is acknowledged exactly: its timing is sampled and the sender's window is renewed. */
  function Acked(h: Host, window: nat, now: int): Host
    requires h.segments != [] && h.bbr.Shaped()
  {
    var front := h.segments[0];
    var size := |front.packet.data|;
    var less := h.bbr.(inflight := h.bbr.inflight - size);
    PopSegment(h).(bbr := B.OnAck(less, size, front.delivered, front.deliveredTime, now), sendWindow := window)
  }

  /** An acknowledgement beyond the first segment removes only that segment and takes no sample. */
  function Passed(h: Host): Host
    requires h.segments != []
  {
    PopSegment(h).(bbr := h.bbr.(inflight := h.bbr.inflight - |h.segments[0].packet.data|))
  }

  /** The part of `ctcp_receive` for an acknowledgement. */
  function ReceiveAck(h: Host, p: Packet, now: int): (after: Outcome)
    requires h.bbr.Shaped()
    ensures after.host.bbr.Shaped()
  {
    if !p.ack then Outcome(h, [])
    else if AcksFin(h, p) then
      Outcome(h.(finReceived := true, retransCount := 0,
                 segments := if h.segments == [] then [] else h.segments[1..]), [])
    else if h.segments == [] then Outcome(h, [])
    else if Expected(h.segments[0]) == p.ackno then Outcome(Acked(h, p.window, now), [])
    else if Expected(h.segments[0]) < p.ackno then Outcome(Passed(h), [])
    else Outcome(h, [h.segments[0].packet])
  }

  /** The part of `ctcp_receive` for a FIN; it is taken only when everything before it was. */
  function ReceiveFin(h: Host, p: Packet): (after: Outcome)
    ensures h.bbr.Shaped() ==> after.host.bbr.Shaped()
  {
    if !p.fin then Outcome(h, [])
    else if p.seqno == h.ackno then
      var h' := h.(finReceived := true, ackno := h.ackno + 1);
      Outcome(h'.(sink := OutputQueue.Output(h.sink, [], WouldBlock), allRecvOutput := true), [AckPacket(h')])
    else Outcome(h.(finReceived := true), [])
  }

  /** `ctcp_receive`; `w` is the answer of `write` if data is put out. */
  function Receive(h: Host, p: Packet, now: int, w: WriteResult): (after: Outcome)
    requires h.bbr.Shaped()
    ensures after.host.bbr.Shaped()
  {
    if !h.alive || Ignored(h, p) then Outcome(h, [])
    else
      var d := ReceiveData(h, p, w);
      var a := ReceiveAck(d.host, p, now);
      if AcksFin(d.host, p) then Outcome(a.host, d.sent + a.sent)
      else
        var f := ReceiveFin(a.host, p);
        Outcome(f.host, d.sent + a.sent + f.sent)
  }

  /** `ctcp_send_fin`. */
  function SendFin(h: Host, now: int): Outcome {
    var p := FinPacket(h);
    Outcome(Enqueue(h, Segment(p, 0, 0, now)).(finSent := true), [p])
  }

  /** The conditions under which `ctcp_timer` tears the connection down. */
  predicate Finished(h: Host) {
    h.finReceived && h.finSent && h.readFinish && h.getAllAck && h.allRecvOutput
  }

  /** The time-out of the first segment: send it again, or give up. */
  function Retransmit(h: Host, c: TimerClock): (after: Outcome)
    requires h.segments != []
    ensures h.bbr.Shaped() ==> after.host.bbr.Shaped()
  {
    if h.retransCount <= RETRANSMIT_LIMIT then
      var front := h.segments[0].(sendTime := c.stamp, delivered := h.bbr.delivered,
                                  deliveredTime := h.bbr.deliveredTime);
      var flying := h.bbr.inflight + HEADER_SIZE + |front.packet.data|;
      Outcome(h.(retransCount := h.retransCount + 1, lastTimeout := c.store,
                 segments := [front] + h.segments[1..], bbr := h.bbr.(inflight := flying)), [front.packet])
    else Outcome(h.(alive := false), [])
  }

  /** The FIN leaves at the first tick after the end of the input at which everything was acknowledged. */
  function MaybeSendFin(h: Host, now: int): (after: Outcome)
    ensures h.bbr.Shaped() ==> after.host.bbr.Shaped()
  {
    if h.readFinish && h.getAllAck && !h.finSent then SendFin(h, now) else Outcome(h, [])
  }

  /** `ctcp_timer`. */
  function Timer(h: Host, c: TimerClock): (after: Outcome)
    ensures h.bbr.Shaped() ==> after.host.bbr.Shaped()
  {
    if !h.alive then Outcome(h, [])
    else
      var o := MaybeSendFin(h, c.fin);
      if Finished(o.host) then o.(host := o.host.(alive := false))
      else if o.host.segments == [] then o.(host := o.host.(getAllAck := true))
      else if c.check - o.host.lastTimeout > o.host.rtTimeout then
        var r := Retransmit(o.host, c);
        Outcome(r.host, o.sent + r.sent)
      else o
  }

  /** The library drains the output queue and calls `ctcp_output` when that wrote anything. */
  function DrainOutput(h: Host, ws: seq<WriteResult>): (h': Host)
    ensures h'.bbr == h.bbr
  {
    if !h.alive then h
    else
      var (s, outputted) := OutputQueue.Drain(h.sink, ws);
      var h' := h.(sink := s);
      if outputted then FlushOutput(h', WouldBlock) else h'
  }
}
