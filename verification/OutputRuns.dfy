/** The output queue over whole runs, whatever `write` answers. */
module OutputRuns {
  import opened Bytes
  import opened OutputQueue

  datatype Event = Put(buf: seq<byte>, w: WriteResult) | Flush(ws: seq<WriteResult>)

  function Apply(s: Sink, e: Event): Sink {
    match e
    case Put(buf, w) => Output(s, buf, w)
    case Flush(ws) => Drain(s, ws).0
  }

  function Run(evs: seq<Event>): Sink {
    if evs == [] then EMPTY else Apply(Run(evs[..|evs| - 1]), evs[|evs| - 1])
  }

  /** All buffers of a run that were offered while the sink was open and had room, in order. */
  function Kept(evs: seq<Event>): seq<byte> {
    if evs == [] then []
    else
      var front := evs[..|evs| - 1];
      match evs[|evs| - 1]
      case Put(buf, w) => Kept(front) + if Keeps(Run(front), buf, w) then buf else []
      case Flush(_) => Kept(front)
  }

  /** Every caller asked `conn_bufspace` first. */
  predicate Respectful(evs: seq<Event>) {
    evs == [] ||
    var front := evs[..|evs| - 1];
    Respectful(front) &&
    match evs[|evs| - 1] case Put(buf, _) => |buf| <= BufSpace(Run(front)) case Flush(_) => true
  }

  /** Whatever `write` answers, the bytes written followed by the bytes waiting are the buffers kept. */
  lemma {:induction false} FifoOverRun(evs: seq<Event>)
    ensures Accepted(Run(evs)) == Kept(evs)
  {
    if evs == [] {
    } else {
      var front := evs[..|evs| - 1];
      FifoOverRun(front);
      match evs[|evs| - 1]
      case Put(buf, w) => OutputAppends(Run(front), buf, w);
      case Flush(ws) => DrainConserves(Run(front), ws);
    }
  }

  /** The queue of a run with respectful callers never holds more than `MAX_BUF_SPACE` bytes. */
  lemma {:induction false} BoundedOverRun(evs: seq<Event>)
    requires Respectful(evs)
    ensures |Queued(Run(evs).queue)| <= 8192
  {
    if evs == [] {
    } else {
      var front := evs[..|evs| - 1];
      BoundedOverRun(front);
      match evs[|evs| - 1]
      case Put(buf, w) =>
        OutputAppends(Run(front), buf, w);
      case Flush(ws) =>
        DrainConserves(Run(front), ws);
    }
  }

  /** Once the end or an error was recorded nothing more is ever kept. */
  lemma {:induction false} ClosedStaysClosed(evs: seq<Event>, more: seq<Event>)
    requires Run(evs).eof || Run(evs).err
    ensures Kept(evs + more) == Kept(evs)
    ensures Run(evs + more).eof || Run(evs + more).err
  {
    if more == [] {
      assert evs + more == evs;
    } else {
      var front := more[..|more| - 1];
      assert (evs + more)[..|evs + more| - 1] == evs + front;
      ClosedStaysClosed(evs, front);
    }
  }
}
