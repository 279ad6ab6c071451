/** The library's output path to STDOUT (`conn_bufspace`, `conn_output` and `conn_drain` in
    lab4/ctcp/ctcp_sys_internal.c) on values: a queue of partly written chunks, and what `write` answered
    each time it was called. */
module OutputQueue {
  import opened Bytes

  const MAX_BUF_SPACE: nat := 8192

  /** The answers of `write`: nothing can be taken now, an error, or a count of bytes taken. */
  datatype WriteResult = WouldBlock | Failed | Wrote(count: nat)

  datatype Chunk = Chunk(buf: seq<byte>, used: nat) {
    predicate Partial() { used < |buf| }
    function Left(): seq<byte>
      requires Partial()
    {
      buf[used..]
    }
  }

  type Queue = q: seq<Chunk> | forall i :: 0 <= i < |q| ==> q[i].Partial()

  /** `written` is everything that `write` has taken so far. */
  datatype Sink = Sink(queue: Queue, eof: bool, err: bool, written: seq<byte>)

  const EMPTY: Sink := Sink([], false, false, [])

  function Queued(q: Queue): seq<byte> {
    if q == [] then [] else q[0].Left() + Queued(q[1..])
  }

  /** Written bytes followed by waiting bytes: what the sink has taken responsibility for. */
  function Accepted(s: Sink): seq<byte> {
    s.written + Queued(s.queue)
  }

  /** `conn_bufspace`. */
  function BufSpace(s: Sink): nat {
    if |Queued(s.queue)| > MAX_BUF_SPACE then 0 else MAX_BUF_SPACE - |Queued(s.queue)|
  }

  /** Whether `conn_output` keeps the bytes it is given; `w` is the answer of `write` if it is called. */
  predicate Keeps(s: Sink, buf: seq<byte>, w: WriteResult) {
    buf != [] && !s.eof && !s.err && BufSpace(s) > 0 && !(s.queue == [] && w == Failed)
  }

  function Taken(w: WriteResult, size: nat): (n: nat)
    ensures n <= size
  {
    match w
    case Wrote(n) => Min(n, size)
    case _ => 0
  }

  /** `conn_output`; a length of zero records the end of the output. */
  function Output(s: Sink, buf: seq<byte>, w: WriteResult): Sink {
    if s.eof then s
    else if buf == [] then s.(eof := true)
    else if s.err || BufSpace(s) == 0 then s
    else if s.queue != [] then s.(queue := s.queue + [Chunk(buf, 0)])
    else if w == Failed then s.(err := true)
    else
      var k := Taken(w, |buf|);
      s.(queue := if k < |buf| then [Chunk(buf[k..], 0)] else [], written := s.written + buf[..k])
  }

  /** What the loop of `conn_drain` leaves: the queue, what it wrote, and whether it failed or wrote at all. */
  datatype Drained = Drained(queue: Queue, out: seq<byte>, failed: bool, outputted: bool)

  /** The answer of the next call of `write`; answers that were not given mean that it would block. */
  function NextAnswer(ws: seq<WriteResult>): WriteResult {
    if ws == [] then WouldBlock else ws[0]
  }

  function DrainLoop(q: Queue, ws: seq<WriteResult>): Drained {
    if q == [] then Drained(q, [], false, false)
    else
      match NextAnswer(ws)
      case WouldBlock => Drained(q, [], false, false)
      case Failed => Drained(q, [], true, false)
      case Wrote(n) =>
        var k := Min(n, |q[0].Left()|);
        if k < |q[0].Left()|
        then Drained([q[0].(used := q[0].used + k)] + q[1..], q[0].Left()[..k], false, true)
        else
          var rest := DrainLoop(q[1..], ws[1..]);
          rest.(out := q[0].Left() + rest.out, outputted := true)
  }

  /** `conn_drain` without its final callback; the flag says whether that callback is made. */
  function Drain(s: Sink, ws: seq<WriteResult>): (Sink, bool) {
    if s.err then (s, false)
    else
      var d := DrainLoop(s.queue, ws);
      (Sink(d.queue, s.eof, d.failed || (s.eof && d.queue == []), s.written + d.out), d.outputted)
  }

  // ---------------------------------------------------------------------------------------------
  // First in, first out
  // ---------------------------------------------------------------------------------------------

  lemma {:induction false} QueuedAppend(q: Queue, c: Chunk)
    requires c.Partial()
    ensures Queued(q + [c]) == Queued(q) + c.Left()
  {
    if q == [] {
    } else {
      assert (q + [c])[1..] == q[1..] + [c];
      QueuedAppend(q[1..], c);
    }
  }

  /** `conn_output` keeps a buffer whole or not at all, and appends it behind everything kept before. */
  lemma OutputAppends(s: Sink, buf: seq<byte>, w: WriteResult)
    ensures Accepted(Output(s, buf, w)) == Accepted(s) + if Keeps(s, buf, w) then buf else []
    ensures s.written <= Output(s, buf, w).written
  {
    if Keeps(s, buf, w) && s.queue != [] {
      QueuedAppend(s.queue, Chunk(buf, 0));
    } else if Keeps(s, buf, w) {
      var k := Taken(w, |buf|);
      assert buf == buf[..k] + buf[k..];
      if k < |buf| {
        QueuedAppend([], Chunk(buf[k..], 0));
        assert [] + [Chunk(buf[k..], 0)] == [Chunk(buf[k..], 0)];
      }
    }
  }

  lemma {:induction false} DrainLoopConserves(q: Queue, ws: seq<WriteResult>)
    ensures var d := DrainLoop(q, ws); d.out + Queued(d.queue) == Queued(q)
    ensures var d := DrainLoop(q, ws); !d.outputted ==> d.queue == q && d.out == []
  {
    if q != [] && NextAnswer(ws).Wrote? {
      var k := Min(NextAnswer(ws).count, |q[0].Left()|);
      if k < |q[0].Left()| {
        var d := DrainLoop(q, ws);
        assert d.queue[1..] == q[1..];
        assert q[0].Left() == q[0].Left()[..k] + d.queue[0].Left();
      } else {
        DrainLoopConserves(q[1..], ws[1..]);
      }
    }
  }

  /** `conn_drain` moves bytes from the head of the queue to the output and loses none. */
  lemma DrainConserves(s: Sink, ws: seq<WriteResult>)
    ensures Accepted(Drain(s, ws).0) == Accepted(s)
    ensures s.written <= Drain(s, ws).0.written
    ensures !Drain(s, ws).1 ==> Drain(s, ws).0.queue == s.queue
  {
    if !s.err {
      DrainLoopConserves(s.queue, ws);
    }
  }

  /** How many chunks the answers take whole, one after the other. */
  function WholeChunks(q: Queue, ws: seq<WriteResult>): (n: nat)
    ensures n <= |q|
  {
    if q == [] || !NextAnswer(ws).Wrote? || NextAnswer(ws).count < |q[0].Left()| then 0
    else 1 + WholeChunks(q[1..], ws[1..])
  }

  /** What a drain leaves after `n` whole chunks: the next answer did not take one. Where it would block nothing more
      changes, an error is recorded, and what a short write took is marked as used. */
  predicate StopsAfter(q: Queue, ws: seq<WriteResult>, n: nat, d: Drained)
    requires n <= |q|
  {
    if n == |q| then d == Drained([], Queued(q), false, n > 0)
    else
      match (if n < |ws| then ws[n] else WouldBlock)
      case WouldBlock => d == Drained(q[n..], Queued(q[..n]), false, n > 0)
      case Failed => d == Drained(q[n..], Queued(q[..n]), true, n > 0)
      case Wrote(k) =>
        && k < |q[n].Left()|
        && d == Drained([q[n].(used := q[n].used + k)] + q[n + 1..], Queued(q[..n]) + q[n].Left()[..k], false, true)
  }

  /** The drain goes on from chunk to chunk exactly as long as each is taken whole. */
  lemma {:induction false} DrainGoesOn(q: Queue, ws: seq<WriteResult>)
    ensures StopsAfter(q, ws, WholeChunks(q, ws), DrainLoop(q, ws))
  {
    hide DrainLoop, Queued, StopsAfter;
    if WholeChunks(q, ws) > 0 {
      DrainGoesOn(q[1..], ws[1..]);
      FirstWhole(q, ws);
      OneMoreWhole(q, ws, WholeChunks(q, ws), DrainLoop(q[1..], ws[1..]));
    } else {
      FirstStops(q, ws);
    }
  }

  lemma OneMoreWhole(q: Queue, ws: seq<WriteResult>, n: nat, d: Drained)
    requires 0 < n <= |q| && ws != [] && StopsAfter(q[1..], ws[1..], n - 1, d)
    ensures StopsAfter(q, ws, n, d.(out := q[0].Left() + d.out, outputted := true))
  {
    hide Queued;
    QueuedParts(q, n);
    if n < |q| {
      assert q[n..] == q[1..][n - 1..] && q[n + 1..] == q[1..][n..] && q[n] == q[1..][n - 1];
      assert n < |ws| ==> ws[n] == ws[1..][n - 1];
    }
  }

  lemma {:induction false} QueuedParts(q: Queue, n: nat)
    requires n <= |q|
    ensures n == 0 ==> q[..n] == [] && q[n..] == q && Queued(q[..n]) == []
    ensures n > 0 ==> Queued(q[..n]) == q[0].Left() + Queued(q[1..][..n - 1])
    ensures n > 0 ==> Queued(q) == q[0].Left() + Queued(q[1..])
    ensures n == |q| ==> q[..n] == q
  {
    if n > 0 {
      assert q[..n][1..] == q[1..][..n - 1];
    }
  }

  lemma {:induction false} FirstWhole(q: Queue, ws: seq<WriteResult>)
    requires WholeChunks(q, ws) > 0
    ensures var rest := DrainLoop(q[1..], ws[1..]);
            DrainLoop(q, ws) == rest.(out := q[0].Left() + rest.out, outputted := true)
    ensures WholeChunks(q, ws) == 1 + WholeChunks(q[1..], ws[1..]) && ws != []
  {
  }

  lemma {:induction false} FirstStops(q: Queue, ws: seq<WriteResult>)
    requires WholeChunks(q, ws) == 0
    ensures StopsAfter(q, ws, 0, DrainLoop(q, ws))
  {
    hide Queued;
    QueuedParts(q, 0);
    EmptyQueued();
    if q != [] && NextAnswer(ws).Wrote? {
      var k := NextAnswer(ws).count;
      assert [] + q[0].Left()[..k] == q[0].Left()[..k];
    }
  }

  lemma EmptyQueued()
    ensures Queued([]) == []
  {
  }

  /** After a drain an error is on record if one was, or a write failed, or the end was recorded and all is written; a
      drain after an error writes nothing. */
  lemma ErrorAfterDrain(s: Sink, ws: seq<WriteResult>)
    ensures var (s', outputted) := Drain(s, ws);
            && s'.eof == s.eof && (s.err ==> s' == s && !outputted)
            && (s'.err <==> s.err || DrainLoop(s.queue, ws).failed || (s.eof && s'.queue == []))
  {
    hide DrainLoop;
  }
}
