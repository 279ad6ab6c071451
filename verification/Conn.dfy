/** The connection object's output side in place: a linked list of chunks with a pointer to the last link. */
module Conn {
  import opened Bytes
  import opened OutputQueue

  class ChunkNode {
    var next: ChunkNode?
    const buf: seq<byte>
    var used: nat

    constructor (buf: seq<byte>)
      ensures this.buf == buf && next == null && used == 0
    {
      this.buf := buf;
      next := null;
      used := 0;
    }
  }

  class Connection {
    var outQueue: ChunkNode?
    /** The chunk whose `next` field is the tail link; null when the tail link is `outQueue` itself. */
    var last: ChunkNode?
    var wroteEof: bool
    var wroteErr: bool
    /** Everything `write` has taken. */
    ghost var written: seq<byte>
    /** The chunks of the queue in order, and their values. */
    ghost var nodes: seq<ChunkNode>
    ghost var chunks: Queue
    ghost var Repr: set<object>

    /** The list from `outQueue` on, its tail link and its values. */
    ghost predicate Listed()
      reads this`outQueue, this`last, this`nodes, this`chunks, nodes
    {
      && outQueue == (if nodes == [] then null else nodes[0])
      && last == (if nodes == [] then null else nodes[|nodes| - 1])
      && (last != null ==> last.next == null)
      && (forall i, j :: 0 <= i < j < |nodes| ==> nodes[i] != nodes[j])
      && (forall i, j :: 0 <= i < |nodes| && j == i + 1 && j < |nodes| ==> nodes[i].next == nodes[j])
      && |chunks| == |nodes|
      && (forall i :: 0 <= i < |nodes| ==> chunks[i] == Chunk(nodes[i].buf, nodes[i].used))
    }

    ghost predicate Valid()
      reads this, Repr
      ensures Valid() ==> this in Repr
    {
      this in Repr && (forall i :: 0 <= i < |nodes| ==> nodes[i] in Repr) && Listed()
    }

    /** The first chunk of a queue that is not empty. */
    lemma FirstChunk()
      requires Listed()
      ensures outQueue == null <==> chunks == []
      ensures |nodes| == |chunks|
      ensures last != null ==> nodes != [] && last == nodes[|nodes| - 1]
      ensures outQueue != null ==> nodes[0] == outQueue && chunks[0] == Chunk(outQueue.buf, outQueue.used)
    {
    }

    ghost function State(): Sink
      reads this
    {
      Sink(chunks, wroteEof, wroteErr, written)
    }

    constructor ()
      ensures Valid() && fresh(Repr) && State() == EMPTY
    {
      Repr := {this};
      outQueue := null;
      last := null;
      wroteEof := false;
      wroteErr := false;
      written := [];
      nodes := [];
      chunks := [];
    }

    /** `conn_bufspace`. */
    method BufferSpace() returns (space: nat)
      requires Valid()
      ensures space == BufSpace(State())
    {
      var used := 0;
      var chunk := outQueue;
      ghost var i := 0;
      while chunk != null
        invariant 0 <= i <= |nodes|
        invariant chunk == if i < |nodes| then nodes[i] else null
        invariant used + |Queued(chunks[i..])| == |Queued(chunks)|
        decreases |nodes| - i
      {
        used := used + (|chunk.buf| - chunk.used);
        assert chunks[i..][1..] == chunks[i + 1..];
        chunk := chunk.next;
        i := i + 1;
      }
      space := if used > MAX_BUF_SPACE then 0 else MAX_BUF_SPACE - used;
    }

    /** Links a new chunk behind the last one. */
    method Append(bytes: seq<byte>)
      requires Valid() && bytes != []
      modifies this`outQueue, this`last, this`nodes, this`chunks, this`Repr, last
      ensures Valid() && fresh(Repr - old(Repr)) && old(Repr) <= Repr
      ensures chunks == old(chunks) + [Chunk(bytes, 0)]
    {
      var chunk := new ChunkNode(bytes);
      if last == null {
        outQueue := chunk;
      } else {
        last.next := chunk;
      }
      last := chunk;
      nodes := nodes + [chunk];
      chunks := chunks + [Chunk(bytes, 0)];
      Repr := Repr + {chunk};
    }

    /** `conn_output`; `w` is the answer of `write` if it is called. */
    method PutOut(buf: seq<byte>, w: WriteResult)
      requires Valid()
      modifies Repr
      ensures Valid() && fresh(Repr - old(Repr)) && old(Repr) <= Repr
      ensures State() == Output(old(State()), buf, w)
    {
      hide Queued, Listed;
      FirstChunk();
      if wroteEof {
        return;
      }
      if |buf| == 0 {
        wroteEof := true;
        return;
      }
      if wroteErr {
        return;
      }
      var left := buf;
      var space := BufferSpace();
      if space == 0 {
        return;
      }
      if outQueue == null {
        match w {
          case Failed =>
            wroteErr := true;
            return;
          case WouldBlock =>
          case Wrote(n) =>
            var k := Min(n, |buf|);
            written := written + buf[..k];
            left := buf[k..];
        }
      }
      if |left| > 0 {
        Append(left);
      }
    }

    /** Unlinks the first chunk, which has been written to its end. */
    method RemoveFirst()
      requires Valid() && outQueue != null
      modifies this`outQueue, this`last, this`nodes, this`chunks
      ensures Valid() && nodes == old(nodes)[1..] && chunks == old(chunks)[1..]
    {
      assert |nodes| > 1 ==> nodes[0].next == nodes[1];
      outQueue := outQueue.next;
      if outQueue == null {
        last := null;
      }
      nodes := nodes[1..];
      chunks := chunks[1..];
    }

    /** Marks `k` more bytes of the first chunk as written. */
    method AdvanceFirst(k: nat)
      requires Valid() && outQueue != null && outQueue.used + k < |outQueue.buf|
      modifies this`chunks, outQueue`used
      ensures Valid()
      ensures chunks == [old(chunks)[0].(used := old(chunks)[0].used + k)] + old(chunks)[1..]
    {
      outQueue.used := outQueue.used + k;
      chunks := [Chunk(outQueue.buf, outQueue.used)] + chunks[1..];
    }

    /** One call of `write` on the first chunk; the result says whether the loop of `conn_drain` goes on. */
    method WriteFirst(w: WriteResult) returns (go: bool)
      requires Valid() && outQueue != null && !wroteErr
      modifies this`outQueue, this`last, this`nodes, this`chunks, this`wroteErr, this`written, outQueue`used
      ensures Valid()
      ensures var first := old(chunks)[0];
              var k := Taken(w, |first.Left()|);
              && wroteErr == (w == Failed)
              && go == (w.Wrote? && k == |first.Left()|)
              && written == old(written) + first.Left()[..k]
              && (go ==> chunks == old(chunks)[1..] && |nodes| < |old(nodes)|)
              && (!go && w.Wrote? ==> chunks == [first.(used := first.used + k)] + old(chunks)[1..])
              && (!go && !w.Wrote? ==> chunks == old(chunks))
    {
      hide Listed;
      FirstChunk();
      go := false;
      match w {
        case WouldBlock =>
        case Failed =>
          wroteErr := true;
        case Wrote(n) =>
          var rest := outQueue.buf[outQueue.used..];
          var k := Min(n, |rest|);
          written := written + rest[..k];
          if k < |rest| {
            AdvanceFirst(k);
          } else {
            RemoveFirst();
            go := true;
          }
      }
    }

    /** The loop of `conn_drain`. */
    method WriteChunks(ws: seq<WriteResult>) returns (outputted: bool)
      requires Valid() && !wroteErr
      modifies Repr
      ensures Valid() && Repr == old(Repr)
      ensures wroteEof == old(wroteEof)
      ensures var d := DrainLoop(old(chunks), ws);
              chunks == d.queue && written == old(written) + d.out && wroteErr == d.failed && outputted == d.outputted
    {
      hide DrainLoop, Queued, Resumes, Listed;
      FirstChunk();
      ResumesStart(chunks, ws);
      ghost var whole := DrainLoop(chunks, ws);
      ghost var out: seq<byte> := [];
      outputted := false;
      var answers := ws;
      var go := true;
      while go && outQueue != null
        invariant Valid() && Repr == old(Repr)
        invariant wroteEof == old(wroteEof) && written == old(written) + out
        invariant !go ==> whole == Drained(chunks, out, wroteErr, outputted)
        invariant go ==> !wroteErr && Resumes(whole, DrainLoop(chunks, answers), out, outputted)
        decreases go, |nodes|
      {
        ghost var q := chunks;
        ResumesStep(whole, q, answers, out, outputted);
        var w := NextAnswer(answers);
        FirstChunk();
        go := WriteFirst(w);
        FirstChunk();
        out := out + q[0].Left()[..Taken(w, |q[0].Left()|)];
        outputted := outputted || w.Wrote?;
        answers := if answers == [] then [] else answers[1..];
      }
      FirstChunk();
      ResumesStep(whole, chunks, answers, out, outputted);
    }

    /** `conn_drain`; the result says whether the library calls `ctcp_output` afterwards. */
    method DrainQueue(ws: seq<WriteResult>) returns (outputted: bool)
      requires Valid()
      modifies Repr
      ensures Valid() && Repr == old(Repr)
      ensures (State(), outputted) == Drain(old(State()), ws)
    {
      hide DrainLoop, Listed;
      if wroteErr {
        return false;
      }
      outputted := WriteChunks(ws);
      FirstChunk();
      if wroteEof && !wroteErr && outQueue == null {
        wroteErr := true;
      }
    }
  }

  /** The loop of `conn_drain`, having written `out`, still has to do what `rest` says. */
  ghost predicate Resumes(whole: Drained, rest: Drained, out: seq<byte>, outputted: bool) {
    whole == rest.(out := out + rest.out, outputted := outputted || rest.outputted)
  }

  lemma {:induction false} ResumesStart(q: Queue, ws: seq<WriteResult>)
    ensures Resumes(DrainLoop(q, ws), DrainLoop(q, ws), [], false)
  {
  }

  /** One turn of the loop: it ends with the queue as it stands, or goes on behind the first chunk. */
  lemma ResumesStep(whole: Drained, q: Queue, ws: seq<WriteResult>, out: seq<byte>, outputted: bool)
    ensures Resumes(whole, DrainLoop(q, ws), out, outputted) ==>
              if q == [] || NextAnswer(ws) == WouldBlock then whole == Drained(q, out, false, outputted)
              else if NextAnswer(ws) == Failed then whole == Drained(q, out, true, outputted)
              else
                var k := Min(NextAnswer(ws).count, |q[0].Left()|);
                if k < |q[0].Left()|
                then whole == Drained([q[0].(used := q[0].used + k)] + q[1..], out + q[0].Left()[..k], false, true)
                else Resumes(whole, DrainLoop(q[1..], if ws == [] then [] else ws[1..]),
                             out + q[0].Left()[..k], true)
  {
    if Resumes(whole, DrainLoop(q, ws), out, outputted) && q != [] && NextAnswer(ws).Wrote? {
      var rest := DrainLoop(q[1..], ws[1..]);
      assert out + (q[0].Left() + rest.out) == out + q[0].Left() + rest.out;
    }
  }
}
