/** The streaming computation of lab1/router/router/sha1.c on values, and its equality with the standard. */
module Sha1Stream {
  import opened Bytes
  import opened Sha1Standard

  /** The context: the chain, the octets waiting for a whole block, and the bit length in two 32-bit halves. */
  datatype Context = Context(chain: Chain, pending: seq<byte>, low: int, high: int, computed: bool, corrupted: bool) {
    predicate Shaped() {
      |pending| < 64 && 0 <= low < 0x1_0000_0000 && 0 <= high < 0x1_0000_0000
    }
  }

  /** `SHA1Reset`. */
  const START: Context := Context(INITIAL, [], 0, 0, false, false)

  /** One turn of the loop of `SHA1Input`. */
  function Absorb(s: Context, octet: byte): (s': Context)
    requires s.Shaped()
    ensures s'.Shaped()
  {
    var pending := s.pending + [octet];
    var low := (s.low + 8) % 0x1_0000_0000;
    var high := if low == 0 then (s.high + 1) % 0x1_0000_0000 else s.high;
    var full := |pending| == 64;
    Context(if full then Compress(s.chain, pending) else s.chain, if full then [] else pending, low, high,
            s.computed, s.corrupted || (low == 0 && high == 0))
  }

  function AbsorbAll(s: Context, data: seq<byte>): (s': Context)
    requires s.Shaped()
    ensures s'.Shaped()
    decreases |data|
  {
    if data == [] || s.corrupted then s else AbsorbAll(Absorb(s, data[0]), data[1..])
  }

  /** `SHA1Input`. */
  function Input(s: Context, data: seq<byte>): (s': Context)
    requires s.Shaped()
    ensures s'.Shaped()
  {
    if data == [] then s
    else if s.computed || s.corrupted then s.(corrupted := true)
    else AbsorbAll(s, data)
  }

  /** `SHA1PadMessage`: one block or two. */
  function PadMessage(s: Context): (s': Context)
    requires s.Shaped()
    ensures s'.Shaped()
  {
    var length := WordOctets(s.high) + WordOctets(s.low);
    var n := |s.pending|;
    var chain :=
      if n > 55 then Compress(Compress(s.chain, s.pending + [0x80] + Zeros(63 - n)), Zeros(56) + length)
      else Compress(s.chain, s.pending + [0x80] + Zeros(55 - n) + length);
    s.(chain := chain, pending := [])
  }

  /** `SHA1Result`: the context and the returned success. */
  function Result(s: Context): (r: (Context, bool))
    requires s.Shaped()
    ensures r.0.Shaped()
  {
    if s.corrupted then (s, false)
    else if s.computed then (s, true)
    else (PadMessage(s).(computed := true), true)
  }

  function InputAll(s: Context, chunks: seq<seq<byte>>): (s': Context)
    requires s.Shaped()
    ensures s'.Shaped()
  {
    if chunks == [] then s else Input(InputAll(s, chunks[..|chunks| - 1]), chunks[|chunks| - 1])
  }

  function Concat(chunks: seq<seq<byte>>): seq<byte> {
    if chunks == [] then [] else Concat(chunks[..|chunks| - 1]) + chunks[|chunks| - 1]
  }

  // ---------------------------------------------------------------------------------------------

  const MAX_BITS: int := 0x1_0000_0000_0000_0000

  /** How much of a message of `n` octets is in whole blocks. */
  function Whole(n: nat): (w: nat)
    ensures w <= n < w + 64 && w % 64 == 0
  {
    n - n % 64
  }

  /** The context has absorbed exactly the message `m`. */
  predicate Represents(s: Context, m: seq<byte>) {
    && s.Shaped() && !s.computed && !s.corrupted
    && s.pending == m[Whole(|m|)..]
    && s.chain == HashBlocks(m[..Whole(|m|)])
    && 8 * |m| == s.high * 0x1_0000_0000 + s.low
  }

  lemma WholeNext(n: nat)
    ensures Whole(n + 1) == if n - Whole(n) == 63 then n + 1 else Whole(n)
  {
  }

  /** The two halves of the length count up to 2^64, where both become zero. */
  lemma LengthStep(s: Context, octet: byte, n: nat)
    requires s.Shaped() && !s.corrupted && 8 * n == s.high * 0x1_0000_0000 + s.low
    ensures var s' := Absorb(s, octet);
            && (s'.corrupted <==> 8 * (n + 1) >= MAX_BITS)
            && (!s'.corrupted ==> 8 * (n + 1) == s'.high * 0x1_0000_0000 + s'.low)
  {
    hide Compress;
    assert s.low % 8 == 0;
  }

  /** The waiting octets and the chain. */
  lemma BlockStep(s: Context, octet: byte, m: seq<byte>)
    requires s.Shaped() && s.pending == m[Whole(|m|)..] && s.chain == HashBlocks(m[..Whole(|m|)])
    ensures var s', m' := Absorb(s, octet), m + [octet];
            s'.pending == m'[Whole(|m'|)..] && s'.chain == HashBlocks(m'[..Whole(|m'|)])
  {
    hide Whole, Compress, HashBlocks, Absorb;
    var m', w := m + [octet], Whole(|m|);
    WholeNext(|m|);
    AbsorbBlock(s, octet);
    MoreOctets(m, octet, w);
    if |s.pending| == 63 {
      HashBlocksAppend(m[..w], m'[w..]);
      assert m'[..w + 64] == m[..w] + m'[w..];
    }
  }

  lemma AbsorbBlock(s: Context, octet: byte)
    requires s.Shaped()
    ensures var s' := Absorb(s, octet);
            if |s.pending| == 63 then s'.pending == [] && s'.chain == Compress(s.chain, s.pending + [octet])
            else s'.pending == s.pending + [octet] && s'.chain == s.chain
  {
    hide Compress;
  }

  lemma MoreOctets(m: seq<byte>, octet: byte, w: nat)
    requires w <= |m|
    ensures (m + [octet])[w..] == m[w..] + [octet] && (m + [octet])[..w] == m[..w]
  {
  }

  /** One more octet, up to a message of 2^64 bits, at which the context is marked as corrupted. */
  lemma AbsorbRepresents(s: Context, m: seq<byte>, octet: byte)
    requires Represents(s, m)
    ensures 8 * (|m| + 1) < MAX_BITS ==> Represents(Absorb(s, octet), m + [octet])
    ensures 8 * (|m| + 1) >= MAX_BITS ==> Absorb(s, octet).corrupted
  {
    LengthStep(s, octet, |m|);
    BlockStep(s, octet, m);
    assert Absorb(s, octet).computed == s.computed;
    hide Absorb, Whole, HashBlocks;
  }

  lemma {:induction false} AbsorbAllRepresents(s: Context, m: seq<byte>, data: seq<byte>)
    requires Represents(s, m)
    ensures 8 * |m + data| < MAX_BITS ==> Represents(AbsorbAll(s, data), m + data)
    ensures 8 * |m + data| >= MAX_BITS && data != [] ==> AbsorbAll(s, data).corrupted
    decreases |data|
  {
    if data == [] {
      assert m + data == m;
    } else {
      AbsorbRepresents(s, m, data[0]);
      assert (m + [data[0]]) + data[1..] == m + data;
      hide Represents, Absorb;
      if 8 * (|m| + 1) < MAX_BITS {
        AbsorbAllRepresents(Absorb(s, data[0]), m + [data[0]], data[1..]);
      }
    }
  }

  /** Whatever the chunks, the context represents their concatenation, and it is corrupted exactly when the
      message has 2^64 bits or more. */
  lemma {:induction false} ChunkingIrrelevant(chunks: seq<seq<byte>>)
    ensures var s := InputAll(START, chunks);
            if 8 * |Concat(chunks)| < MAX_BITS then Represents(s, Concat(chunks)) else s.corrupted
  {
    if chunks == [] {
    } else {
      var front, data := chunks[..|chunks| - 1], chunks[|chunks| - 1];
      ChunkingIrrelevant(front);
      hide Represents, AbsorbAll;
      if 8 * |Concat(front)| < MAX_BITS {
        var s := InputAll(START, front);
        NotClosed(s, Concat(front));
        AbsorbAllRepresents(s, Concat(front), data);
        assert Concat(front) + [] == Concat(front);
      }
    }
  }

  lemma NotClosed(s: Context, m: seq<byte>)
    requires Represents(s, m)
    ensures s.Shaped() && !s.computed && !s.corrupted
  {
  }

  /** The message ends with the waiting octets, behind whole blocks. */
  lemma RepresentedParts(s: Context, m: seq<byte>)
    requires Represents(s, m)
    ensures var front := m[..Whole(|m|)];
            && s.Shaped() && |front| % 64 == 0 && m == front + s.pending && s.chain == HashBlocks(front)
            && |s.pending| == |m| - Whole(|m|) && 8 * |m| == s.high * 0x1_0000_0000 + s.low
  {
    hide HashBlocks;
  }

  lemma PadParts(m: seq<byte>, front: seq<byte>, pending: seq<byte>)
    requires 8 * |m| < MAX_BITS && m == front + pending
    ensures Pad(m) == front + pending + [0x80] + Zeros(PadZeros(|m|)) + LengthOctets(|m|)
  {
    hide PadZeros, Zeros, LengthOctets;
  }

  /** The final blocks are those of the standard's padding. */
  lemma PadMessageIsPad(s: Context, m: seq<byte>)
    requires Represents(s, m) && 8 * |m| < MAX_BITS
    ensures PadMessage(s).chain == Digest(m)
  {
    hide Represents, Pad, Whole, PadZeros, WordOctets, LengthOctets, HashBlocks, Zeros, Compress;
    var front, n := m[..Whole(|m|)], |s.pending|;
    RepresentedParts(s, m);
    LengthIsHalves(s, |m|);
    PendingZeros(|m|, n);
    PadParts(m, front, s.pending);
    if n > 55 {
      TwoBlocks(front, s.pending, LengthOctets(|m|));
    } else {
      OneBlock(front, s.pending, LengthOctets(|m|));
    }
  }

  lemma OneBlock(front: seq<byte>, pending: seq<byte>, length: seq<byte>)
    requires |front| % 64 == 0 && |pending| <= 55 && |length| == 8
    ensures var p := front + pending + [0x80] + Zeros(55 - |pending|) + length;
            |p| % 64 == 0
            && HashBlocks(p) == Compress(HashBlocks(front), pending + [0x80] + Zeros(55 - |pending|) + length)
  {
    hide HashBlocks, Compress, Zeros;
    var b: Block := pending + [0x80] + Zeros(55 - |pending|) + length;
    HashBlocksAppend(front, b);
    assert front + b == front + pending + [0x80] + Zeros(55 - |pending|) + length;
  }

  lemma TwoBlocks(front: seq<byte>, pending: seq<byte>, length: seq<byte>)
    requires |front| % 64 == 0 && 55 < |pending| < 64 && |length| == 8
    ensures var p := front + pending + [0x80] + (Zeros(63 - |pending|) + Zeros(56)) + length;
            |p| % 64 == 0
            && HashBlocks(p) == Compress(Compress(HashBlocks(front), pending + [0x80] + Zeros(63 - |pending|)),
                                         Zeros(56) + length)
  {
    hide HashBlocks, Compress, Zeros;
    var b1: Block := pending + [0x80] + Zeros(63 - |pending|);
    var b2: Block := Zeros(56) + length;
    HashBlocksAppend(front, b1);
    HashBlocksAppend(front + b1, b2);
    assert (front + b1) + b2 == front + pending + [0x80] + (Zeros(63 - |pending|) + Zeros(56)) + length;
  }

  lemma LengthIsHalves(s: Context, n: nat)
    requires s.Shaped() && 8 * n == s.high * 0x1_0000_0000 + s.low
    ensures 8 * n < MAX_BITS && WordOctets(s.high) + WordOctets(s.low) == LengthOctets(n)
  {
    assert 8 * n / 0x1_0000_0000 == s.high && 8 * n % 0x1_0000_0000 == s.low;
  }

  /** The zeros of the standard's padding fill one block or run into a second one. */
  lemma PendingZeros(size: nat, n: nat)
    requires n == size - Whole(size)
    ensures if n > 55 then Zeros(PadZeros(size)) == Zeros(63 - n) + Zeros(56) else PadZeros(size) == 55 - n
  {
    assert n == size % 64;
    assert n > 55 ==> PadZeros(size) == 119 - n;
    assert n <= 55 ==> PadZeros(size) == 55 - n;
  }

  /** Streaming equals the standard: after any sequence of inputs, the result is the digest of their
      concatenation if that has fewer than 2^64 bits, and a failure otherwise. */
  lemma {:induction false} StreamingIsStandard(chunks: seq<seq<byte>>)
    ensures var (s, ok) := Result(InputAll(START, chunks));
            var m := Concat(chunks);
            && (ok <==> 8 * |m| < MAX_BITS)
            && (8 * |m| < MAX_BITS ==> s.chain == Digest(m))
  {
    ChunkingIrrelevant(chunks);
    var m := Concat(chunks);
    if 8 * |m| < MAX_BITS {
      PadMessageIsPad(InputAll(START, chunks), m);
    }
  }

  /** Asking for the result again changes nothing; any input after it spoils the context. */
  lemma ResultIsFinal(s: Context, data: seq<byte>)
    requires s.Shaped() && !s.corrupted
    ensures Result(Result(s).0) == Result(s)
    ensures data != [] ==> !Result(Input(Result(s).0, data)).1
  {
    hide Compress;
  }
}
