/** One end of a cTCP connection as an object: the callbacks of lab4/ctcp/ctcp.c update the fields of the
    state, the connection's output queue and the congestion control block in place. */
module CtcpEndpoint {
  import opened Bytes
  import opened OutputQueue
  import opened Conn
  import opened CtcpHost
  import opened CtcpSegments
  import B = BbrModel
  import BbrControl

  class Endpoint {
    var alive: bool
    const conn: Connection
    const segments: SegmentQueue
    var seqno: nat
    var nextSeqno: nat
    var ackno: nat
    var recvWindow: nat
    var sendWindow: nat
    var rtTimeout: int
    var readFinish: bool
    var output: seq<byte>
    var lastTimeout: int
    var finReceived: bool
    var finSent: bool
    var getAllAck: bool
    var allRecvOutput: bool
    var retransCount: int
    const bbr: BbrControl.Control
    /** Everything `conn_input` has handed out. */
    ghost var input: seq<byte>

    ghost predicate Valid()
      reads this, conn, conn.Repr, bbr, bbr.rtFilter, bbr.bwFilter, segments, segments.Repr
    {
      && conn.Valid() && bbr.Valid() && segments.Valid()
      && this !in conn.Repr && this !in bbr.Repr && this !in segments.Repr
      && conn.Repr !! bbr.Repr && conn.Repr !! segments.Repr && bbr.Repr !! segments.Repr
    }

    ghost function State(): Host
      reads this, conn, bbr, bbr.rtFilter, bbr.bwFilter, segments
    {
      Host(alive, segments.waiting, seqno, nextSeqno, ackno, recvWindow, sendWindow, rtTimeout, readFinish, output,
           lastTimeout, finReceived, finSent, getAllAck, allRecvOutput, retransCount, bbr.State(), conn.State(),
           input)
    }

    /** `ctcp_init` for a connection that was established. */
    constructor (conn: Connection, recvWindow: nat, sendWindow: nat, rtTimeout: int, now: int)
      requires conn.Valid() && conn.State() == EMPTY
      ensures Valid() && this.conn == conn && fresh(bbr.Repr) && fresh(segments.Repr)
      ensures State() == Start(recvWindow, sendWindow, rtTimeout, now)
    {
      alive := true;
      this.conn := conn;
      segments := new SegmentQueue();
      ackno := 1;
      seqno := 1;
      nextSeqno := 1;
      this.recvWindow := recvWindow;
      this.sendWindow := sendWindow;
      this.rtTimeout := rtTimeout;
      readFinish := false;
      output := [];
      lastTimeout := now;
      finReceived := false;
      finSent := false;
      getAllAck := false;
      allRecvOutput := false;
      retransCount := 0;
      input := [];
      bbr := new BbrControl.Control(now);
    }

    /** `ctcp_send_data`; returns the packet given to `conn_send`. */
    method SendSegment(data: seq<byte>, now: int) returns (p: Packet)
      requires Valid()
      modifies segments.Repr, this`nextSeqno, this`getAllAck, bbr`inflight
      ensures fresh(segments.Repr - old(segments.Repr)) && old(segments.Repr) <= segments.Repr
      ensures Valid() && Outcome(State(), [p]) == SendData(old(State()), data, now)
    {
      hide Connection.Valid, Connection.State, SegmentQueue.Valid, BbrControl.Control.Valid, BbrControl.Control.State;
      bbr.Fly(|data|);
      p := Packet(nextSeqno, ackno, true, false, sendWindow, data);
      nextSeqno := nextSeqno + |data|;
      segments.Enqueue(Segment(p, now, bbr.delivered, bbr.deliveredTime));
      getAllAck := false;
    }

    /** `bbr_send`. */
    method PacedSend(data: seq<byte>, now: int) returns (sent: seq<Packet>)
      requires Valid()
      modifies segments.Repr, this`nextSeqno, this`getAllAck, bbr
      ensures fresh(segments.Repr - old(segments.Repr)) && old(segments.Repr) <= segments.Repr
      ensures Valid() && Outcome(State(), sent) == BbrSend(old(State()), data, now)
    {
      hide Connection.Valid, Connection.State, SegmentQueue.Valid, BbrControl.Control.Valid, BbrControl.Control.State;
      hide B.CwndFull, B.NextSendTime;
      sent := [];
      var full := bbr.WindowFull();
      if full {
        var p := Packet(nextSeqno, ackno, true, false, sendWindow, data);
        nextSeqno := nextSeqno + |data|;
        segments.Enqueue(Segment(p, 0, 0, bbr.deliveredTime));
        getAllAck := false;
        return;
      }
      if now > bbr.nextSendTime {
        var p := SendSegment(data, now);
        sent := [p];
        bbr.Pace(|data|, now);
      }
    }

    /** `ctcp_read`; `t0` and `t1` are the two readings of the clock, `answer` is that of `conn_input`. */
    method ReadInput(t0: int, t1: int, answer: InputResult) returns (sent: seq<Packet>)
      requires Valid()
      modifies this, bbr, segments.Repr
      ensures fresh(segments.Repr - old(segments.Repr)) && old(segments.Repr) <= segments.Repr
      ensures Valid() && Outcome(State(), sent) == Read(old(State()), t0, t1, answer)
    {
      hide Connection.Valid, Connection.State, SegmentQueue.Valid, BbrControl.Control.Valid, BbrControl.Control.State;
      hide B.CwndFull, B.NextSendTime, BbrSend;
      sent := [];
      if !alive || readFinish {
        return;
      }
      if t0 <= bbr.nextSendTime {
        return;
      }
      if nextSeqno >= seqno + sendWindow {
        return;
      }
      match answer {
        case Eof =>
          readFinish := true;
        case NoData =>
        case Data(bytes) =>
          input := input + bytes;
          sent := PacedSend(bytes, t1);
      }
    }

    /** `ctcp_output`. */
    method OutputPending(w: WriteResult)
      requires Valid()
      modifies this`output, conn.Repr
      ensures Valid() && fresh(conn.Repr - old(conn.Repr)) && old(conn.Repr) <= conn.Repr
      ensures State() == FlushOutput(old(State()), w)
    {
      hide Connection.Valid, Connection.State, SegmentQueue.Valid, BbrControl.Control.Valid, BbrControl.Control.State;
      hide OutputQueue.Output, BufSpace;
      var space := conn.BufferSpace();
      if space >= |output| {
        conn.PutOut(output, w);
        output := [];
      }
    }

    /** `ctcp_send_ack`. */
    method SendAck() returns (p: Packet)
      ensures p == AckPacket(State())
    {
      p := Packet(nextSeqno, ackno, true, false, recvWindow, []);
    }

    /** The data part of `ctcp_receive`. */
    method AcceptData(p: Packet, w: WriteResult) returns (sent: seq<Packet>)
      requires Valid() && p.data != []
      modifies this`output, this`ackno, conn.Repr
      ensures Valid() && fresh(conn.Repr - old(conn.Repr)) && old(conn.Repr) <= conn.Repr
      ensures Outcome(State(), sent) == ReceiveData(old(State()), p, w)
    {
      hide Connection.Valid, Connection.State, SegmentQueue.Valid, BbrControl.Control.Valid, BbrControl.Control.State;
      hide FlushOutput, BufSpace;
      if p.seqno == ackno {
        var space := conn.BufferSpace();
        if space >= |p.data| {
          output := p.data;
          ackno := ackno + |p.data|;
          OutputPending(w);
          var a := SendAck();
          return [a];
        }
      }
      var a := SendAck();
      sent := [a];
    }

    /** The acknowledgement part of `ctcp_receive`; `done` says that the function returns right after it. */
    method AcceptAck(p: Packet, now: int) returns (sent: seq<Packet>, done: bool)
      requires Valid()
      modifies this, bbr.Repr, segments.Repr
      ensures segments.Repr == old(segments.Repr)
      ensures Valid() && Outcome(State(), sent) == ReceiveAck(old(State()), p, now)
      ensures done == AcksFin(old(State()), p)
    {
      hide Connection.Valid, Connection.State, SegmentQueue.Valid, BbrControl.Control.Valid, BbrControl.Control.State;
      hide Acked, Passed;
      sent, done := [], false;
      if !p.ack {
        return;
      }
      if finSent && p.ackno == seqno + 1 {
        finReceived := true;
        var waiting := segments.First();
        if waiting != null {
          segments.RemoveFirst();
        }
        retransCount := 0;
        return [], true;
      }
      var cell := segments.First();
      if cell != null {
        var front := cell.value;
        var expected := front.packet.seqno + |front.packet.data|;
        if expected == p.ackno {
          AckedFront(p.window, now);
        } else if expected < p.ackno {
          PassedFront();
        } else {
          sent := [front.packet];
        }
      }
    }

    /** The first segment is removed from the queue. */
    method RemoveFront()
      requires Valid() && segments.waiting != []
      modifies segments.Repr, this`retransCount, this`seqno
      ensures segments.Repr == old(segments.Repr)
      ensures Valid() && State() == PopSegment(old(State()))
    {
      hide Connection.Valid, Connection.State, SegmentQueue.Valid, BbrControl.Control.Valid, BbrControl.Control.State;
      var front := segments.First();
      seqno := front.value.packet.seqno + |front.value.packet.data|;
      segments.RemoveFirst();
      retransCount := 0;
    }

    /** The acknowledgement is exactly that of the first segment. */
    method AckedFront(window: nat, now: int)
      requires Valid() && segments.waiting != []
      modifies segments.Repr, this`retransCount, this`seqno, this`sendWindow, bbr.Repr
      ensures segments.Repr == old(segments.Repr)
      ensures Valid() && State() == Acked(old(State()), window, now)
    {
      hide Connection.Valid, Connection.State, SegmentQueue.Valid, BbrControl.Control.Valid, BbrControl.Control.State;
      hide B.OnAck;
      var cell := segments.First();
      var front := cell.value;
      bbr.Fly(-|front.packet.data|);
      bbr.HandleAck(|front.packet.data|, front.delivered, front.deliveredTime, now);
      RemoveFront();
      sendWindow := window;
    }

    /** The acknowledgement is beyond the first segment. */
    method PassedFront()
      requires Valid() && segments.waiting != []
      modifies segments.Repr, this`retransCount, this`seqno, bbr`inflight
      ensures segments.Repr == old(segments.Repr)
      ensures Valid() && State() == Passed(old(State()))
    {
      hide Connection.Valid, Connection.State, SegmentQueue.Valid, BbrControl.Control.Valid, BbrControl.Control.State;
      var cell := segments.First();
      bbr.Fly(-|cell.value.packet.data|);
      RemoveFront();
    }

    /** The FIN part of `ctcp_receive`. */
    method AcceptFin(p: Packet) returns (sent: seq<Packet>)
      requires Valid()
      modifies this`finReceived, this`ackno, this`allRecvOutput, conn.Repr
      ensures Valid() && fresh(conn.Repr - old(conn.Repr)) && old(conn.Repr) <= conn.Repr
      ensures Outcome(State(), sent) == ReceiveFin(old(State()), p)
    {
      hide Connection.Valid, Connection.State, SegmentQueue.Valid, BbrControl.Control.Valid, BbrControl.Control.State;
      hide OutputQueue.Output;
      sent := [];
      if p.fin {
        finReceived := true;
        if p.seqno == ackno {
          ackno := ackno + 1;
          var a := SendAck();
          conn.PutOut([], WouldBlock);
          allRecvOutput := true;
          sent := [a];
        }
      }
    }

    /** `ctcp_receive`. */
    method ReceiveSegment(p: Packet, now: int, w: WriteResult) returns (sent: seq<Packet>)
      requires Valid()
      modifies this, conn.Repr, bbr.Repr, segments.Repr
      ensures segments.Repr == old(segments.Repr)
      ensures Valid() && fresh(conn.Repr - old(conn.Repr)) && old(conn.Repr) <= conn.Repr
      ensures Outcome(State(), sent) == Receive(old(State()), p, now, w)
    {
      hide Connection.Valid, Connection.State, SegmentQueue.Valid, BbrControl.Control.Valid, BbrControl.Control.State;
      hide ReceiveAck, ReceiveFin, BufSpace;
      sent := [];
      if !alive {
        return;
      }
      if |p.data| > 0 {
        if p.seqno < ackno || p.seqno > ackno + recvWindow {
          return;
        }
        sent := AcceptData(p, w);
      }
      hide ReceiveData;
      var acks, done := AcceptAck(p, now);
      sent := sent + acks;
      if done {
        return;
      }
      var fins := AcceptFin(p);
      sent := sent + fins;
    }

    /** `ctcp_send_fin`. */
    method SendFinSegment(now: int) returns (p: Packet)
      requires Valid()
      modifies segments.Repr, this`getAllAck, this`finSent
      ensures fresh(segments.Repr - old(segments.Repr)) && old(segments.Repr) <= segments.Repr
      ensures Valid() && Outcome(State(), [p]) == SendFin(old(State()), now)
    {
      hide Connection.Valid, Connection.State, SegmentQueue.Valid, BbrControl.Control.Valid, BbrControl.Control.State;
      p := Packet(nextSeqno, ackno, false, true, recvWindow, []);
      segments.Enqueue(Segment(p, 0, 0, now));
      getAllAck := false;
      finSent := true;
    }

    /** The time-out of the first segment. */
    method ResendFront(c: TimerClock) returns (sent: seq<Packet>)
      requires Valid() && segments.waiting != []
      modifies this`retransCount, this`lastTimeout, this`alive, segments.Repr, bbr`inflight
      ensures segments.Repr == old(segments.Repr)
      ensures Valid() && Outcome(State(), sent) == Retransmit(old(State()), c)
    {
      hide Connection.Valid, Connection.State, SegmentQueue.Valid, BbrControl.Control.Valid, BbrControl.Control.State;
      if retransCount <= RETRANSMIT_LIMIT {
        retransCount := retransCount + 1;
        lastTimeout := c.store;
        segments.Restamp(c.stamp, bbr.delivered, bbr.deliveredTime);
        var front := segments.First();
        sent := [front.value.packet];
        bbr.Fly(HEADER_SIZE + |front.value.packet.data|);
      } else {
        alive := false;
        sent := [];
      }
    }

    /** The first test of `ctcp_timer`. */
    method SendFinIfDone(now: int) returns (sent: seq<Packet>)
      requires Valid()
      modifies segments.Repr, this`getAllAck, this`finSent
      ensures fresh(segments.Repr - old(segments.Repr)) && old(segments.Repr) <= segments.Repr
      ensures Valid() && Outcome(State(), sent) == MaybeSendFin(old(State()), now)
    {
      hide Connection.Valid, Connection.State, SegmentQueue.Valid, BbrControl.Control.Valid, BbrControl.Control.State;
      hide SendFin;
      sent := [];
      if readFinish && getAllAck && !finSent {
        var p := SendFinSegment(now);
        sent := [p];
      }
    }

    /** The end of `ctcp_timer`: everything is acknowledged, or the first segment may have timed out. */
    method CheckTimeout(c: TimerClock) returns (sent: seq<Packet>)
      requires Valid()
      modifies this`getAllAck, this`retransCount, this`lastTimeout, this`alive, segments.Repr, bbr`inflight
      ensures segments.Repr == old(segments.Repr)
      ensures var h := old(State());
              Valid() && Outcome(State(), sent) ==
              if h.segments == [] then Outcome(h.(getAllAck := true), [])
              else if c.check - h.lastTimeout > h.rtTimeout then Retransmit(h, c)
              else Outcome(h, [])
    {
      hide Connection.Valid, Connection.State, SegmentQueue.Valid, BbrControl.Control.Valid, BbrControl.Control.State;
      hide Retransmit;
      sent := [];
      var first := segments.First();
      if first == null {
        getAllAck := true;
        return;
      }
      if c.check - lastTimeout > rtTimeout {
        sent := ResendFront(c);
      }
    }

    /** `ctcp_timer` for the only connection. */
    method Tick(c: TimerClock) returns (sent: seq<Packet>)
      requires Valid()
      modifies this, bbr, segments.Repr
      ensures fresh(segments.Repr - old(segments.Repr)) && old(segments.Repr) <= segments.Repr
      ensures Valid() && Outcome(State(), sent) == Timer(old(State()), c)
    {
      hide Connection.Valid, Connection.State, SegmentQueue.Valid, BbrControl.Control.Valid, BbrControl.Control.State;
      hide MaybeSendFin, Retransmit;
      sent := [];
      if !alive {
        return;
      }
      sent := SendFinIfDone(c.fin);
      if finReceived && finSent && readFinish && getAllAck && allRecvOutput {
        alive := false;
        return;
      }
      var again := CheckTimeout(c);
      sent := sent + again;
    }

    /** `conn_drain` and the call of `ctcp_output` that the library makes after it. */
    method LibraryDrains(ws: seq<WriteResult>)
      requires Valid()
      modifies this`output, conn.Repr
      ensures Valid() && fresh(conn.Repr - old(conn.Repr)) && old(conn.Repr) <= conn.Repr
      ensures State() == DrainOutput(old(State()), ws)
    {
      hide Connection.Valid, Connection.State, SegmentQueue.Valid, BbrControl.Control.Valid, BbrControl.Control.State;
      hide DrainLoop, FlushOutput;
      if alive {
        var outputted := conn.DrainQueue(ws);
        if outputted {
          OutputPending(WouldBlock);
        }
      }
    }
  }
}
