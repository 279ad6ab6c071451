/** `SHA1Context` as an object: digest, block buffer, index and length are updated in place. */
module Sha1Context {
  import opened Bytes
  import opened Sha1Standard
  import Stream = Sha1Stream

  class Sha1 {
    const digest: array<word>
    const block: array<byte>
    var index: nat
    var lengthLow: int
    var lengthHigh: int
    var computed: bool
    var corrupted: bool

    ghost predicate Valid()
      reads this
    {
      && digest.Length == 5 && block.Length == 64 && index < 64
      && 0 <= lengthLow < 0x1_0000_0000 && 0 <= lengthHigh < 0x1_0000_0000
    }

    ghost function ChainOf(): Chain
      reads this, digest
      requires Valid()
    {
      Chain(digest[0], digest[1], digest[2], digest[3], digest[4])
    }

    ghost function State(): (s: Stream.Context)
      reads this, digest, block
      requires Valid()
      ensures s.Shaped()
    {
      Stream.Context(ChainOf(), block[..index], lengthLow, lengthHigh, computed, corrupted)
    }

    /** An allocated context that was given to `SHA1Reset`. */
    constructor ()
      ensures Valid() && fresh(digest) && fresh(block)
      ensures State() == Stream.START
    {
      digest := new word[5](_ => 0);
      block := new byte[64](_ => 0);
      index := 0;
      lengthLow := 0;
      lengthHigh := 0;
      computed := false;
      corrupted := false;
      new;
      Reset();
    }

    /** `SHA1Reset`. */
    method Reset()
      requires Valid()
      modifies this, digest
      ensures Valid() && State() == Stream.START
    {
      lengthLow := 0;
      lengthHigh := 0;
      index := 0;
      digest[0] := 0x67452301;
      digest[1] := 0xEFCDAB89;
      digest[2] := 0x98BADCFE;
      digest[3] := 0x10325476;
      digest[4] := 0xC3D2E1F0;
      computed := false;
      corrupted := false;
    }

    /** The first two loops of `SHA1ProcessMessageBlock`: the word sequence of the block in the buffer. */
    method Schedule() returns (w: array<word>)
      requires block.Length == 64
      ensures fresh(w) && w.Length == 80
      ensures Scheduled(w[..], block[..])
    {
      hide W, S, Xor4, WordOf;
      ghost var b: Block := block[..];
      w := new word[80](_ => 0);
      var t := 0;
      while t < 16
        invariant 0 <= t <= 16
        invariant forall k :: 0 <= k < t ==> w[k] == W(b, k)
      {
        FirstWord(b, t);
        w[t] := WordOf(block[..], t * 4);
        t := t + 1;
      }
      while t < 80
        invariant 16 <= t <= 80
        invariant forall k :: 0 <= k < t ==> w[k] == W(b, k)
      {
        NextWord(w, b, t);
        t := t + 1;
      }
    }

    /** The body of the second loop. */
    static method NextWord(w: array<word>, ghost b: Block, t: nat)
      requires w.Length == 80 && 16 <= t < 80
      requires forall k :: 0 <= k < t ==> w[k] == W(b, k)
      modifies w
      ensures forall k :: 0 <= k <= t ==> w[k] == W(b, k)
    {
      hide W, S, Xor4;
      OtherWord(b, t);
      w[t] := S(1, Xor4(w[t - 3], w[t - 8], w[t - 14], w[t - 16]));
    }

    /** The four loops of twenty rounds of `SHA1ProcessMessageBlock`. */
    static method AllRounds(w: array<word>, h: Chain, ghost b: Block) returns (r: Chain)
      requires Scheduled(w[..], b)
      ensures r == Rounds(h, b, 80)
    {
      ScheduledLength(w[..], b);
      hide Scheduled, S, Choose, Parity, Majority, Sum5, Rounds, Round;
      var A, B, C, D, E := h.a, h.b, h.c, h.d, h.e;
      RoundsStart(h, b);
      var t := 0;
      while t < 20
        invariant 0 <= t <= 20 && Chain(A, B, C, D, E) == Rounds(h, b, t)
      {
        RoundsStep(h, b, t, Chain(A, B, C, D, E), w[..]);
        var temp := Sum5(S(5, A), Choose(B, C, D), E, w[t], 0x5A827999);
        E, D, C, B, A := D, C, S(30, B), A, temp;
        t := t + 1;
      }
      while t < 40
        invariant 20 <= t <= 40 && Chain(A, B, C, D, E) == Rounds(h, b, t)
      {
        RoundsStep(h, b, t, Chain(A, B, C, D, E), w[..]);
        var temp := Sum5(S(5, A), Parity(B, C, D), E, w[t], 0x6ED9EBA1);
        E, D, C, B, A := D, C, S(30, B), A, temp;
        t := t + 1;
      }
      while t < 60
        invariant 40 <= t <= 60 && Chain(A, B, C, D, E) == Rounds(h, b, t)
      {
        RoundsStep(h, b, t, Chain(A, B, C, D, E), w[..]);
        var temp := Sum5(S(5, A), Majority(B, C, D), E, w[t], 0x8F1BBCDC);
        E, D, C, B, A := D, C, S(30, B), A, temp;
        t := t + 1;
      }
      while t < 80
        invariant 60 <= t <= 80 && Chain(A, B, C, D, E) == Rounds(h, b, t)
      {
        RoundsStep(h, b, t, Chain(A, B, C, D, E), w[..]);
        var temp := Sum5(S(5, A), Parity(B, C, D), E, w[t], 0xCA62C1D6);
        E, D, C, B, A := D, C, S(30, B), A, temp;
        t := t + 1;
      }
      r := Chain(A, B, C, D, E);
    }

    /** `SHA1ProcessMessageBlock`. */
    method ProcessBlock()
      requires digest.Length == 5 && block.Length == 64
      modifies this`index, digest
      ensures index == 0
      ensures Chain(digest[0], digest[1], digest[2], digest[3], digest[4])
           == Compress(old(Chain(digest[0], digest[1], digest[2], digest[3], digest[4])), block[..])
    {
      hide Scheduled, Rounds, AddChains;
      var w := Schedule();
      var r := AllRounds(w, Chain(digest[0], digest[1], digest[2], digest[3], digest[4]), block[..]);
      AddToDigest(r.a, r.b, r.c, r.d, r.e);
      index := 0;
    }

    /** `SHA1Input`. */
    method Input(data: seq<byte>)
      requires Valid()
      modifies this, digest, block
      ensures Valid() && State() == Stream.Input(old(State()), data)
    {
      hide Compress, Stream.Absorb;
      if |data| == 0 {
        return;
      }
      if computed || corrupted {
        corrupted := true;
        return;
      }
      ghost var start := State();
      var i := 0;
      while i < |data| && !corrupted
        invariant 0 <= i <= |data| && Valid()
        invariant Stream.AbsorbAll(start, data) == Stream.AbsorbAll(State(), data[i..])
      {
        assert data[i..][1..] == data[i + 1..];
        TakeOctet(data[i]);
        i := i + 1;
      }
    }

    /** The body of the loop of `SHA1Input`. */
    method TakeOctet(octet: byte)
      requires Valid()
      modifies this, digest, block
      ensures Valid() && State() == Stream.Absorb(old(State()), octet)
    {
      hide Compress;
      block[index] := octet;
      index := index + 1;
      assert block[..index] == old(block[..index]) + [octet];
      lengthLow := (lengthLow + 8) % 0x1_0000_0000;
      if lengthLow == 0 {
        lengthHigh := (lengthHigh + 1) % 0x1_0000_0000;
        if lengthHigh == 0 {
          corrupted := true;
        }
      }
      if index == 64 {
        assert block[..] == block[..index];
        ProcessBlock();
      }
    }

    /** The octets of the buffer from `index` up to `end` become zero. */
    method FillZeros(end: nat)
      requires block.Length == 64 && index <= end <= 64
      modifies this`index, block
      ensures index == end && block[..end] == old(block[..index]) + Zeros(end - old(index))
    {
      ghost var n := index;
      while index < end
        invariant n <= index <= end
        invariant block[..index] == old(block[..index]) + Zeros(index - n)
      {
        ghost var before := block[..index];
        block[index] := 0;
        index := index + 1;
        assert block[..index] == before + [0];
      }
    }

    /** The length as the last eight octets of the block. */
    method StoreLength()
      requires Sized()
      modifies block
      ensures block[..56] == old(block[..56])
      ensures block[56..] == WordOctets(lengthHigh) + WordOctets(lengthLow)
    {
      block[56] := lengthHigh / 0x100_0000 % 256;
      block[57] := lengthHigh / 0x1_0000 % 256;
      block[58] := lengthHigh / 0x100 % 256;
      block[59] := lengthHigh % 256;
      block[60] := lengthLow / 0x100_0000 % 256;
      block[61] := lengthLow / 0x1_0000 % 256;
      block[62] := lengthLow / 0x100 % 256;
      block[63] := lengthLow % 256;
    }

    /** `SHA1PadMessage`. */
    method PadMessage()
      requires Valid()
      modifies this`index, digest, block
      ensures Valid() && State() == Stream.PadMessage(old(State()))
    {
      hide Compress, Zeros, WordOctets;
      ghost var pending := block[..index];
      var n := index;
      block[index] := 0x80;
      index := index + 1;
      assert block[..index] == pending + [0x80];
      if n > 55 {
        FillZeros(64);
        assert block[..] == block[..64];
        ProcessBlock();
        FillZeros(56);
        assert block[..56] == Zeros(56);
      } else {
        FillZeros(56);
      }
      StoreLength();
      assert block[..] == block[..56] + block[56..];
      ProcessBlock();
    }

    /** `SHA1Result`; the digest is then in the context. */
    method Result() returns (ok: bool)
      requires Valid()
      modifies this, digest, block
      ensures Valid() && (State(), ok) == Stream.Result(old(State()))
    {
      hide Stream.PadMessage;
      if corrupted {
        return false;
      }
      if !computed {
        PadMessage();
        computed := true;
      }
      ok := true;
    }

    ghost predicate Sized()
      reads this
    {
      digest.Length == 5 && block.Length == 64 && 0 <= lengthLow < 0x1_0000_0000 && 0 <= lengthHigh < 0x1_0000_0000
    }

    method AddToDigest(A: word, B: word, C: word, D: word, E: word)
      requires digest.Length == 5
      modifies digest
      ensures Chain(digest[0], digest[1], digest[2], digest[3], digest[4])
           == AddChains(old(Chain(digest[0], digest[1], digest[2], digest[3], digest[4])), Chain(A, B, C, D, E))
    {
      var sum := AddChains(Chain(digest[0], digest[1], digest[2], digest[3], digest[4]), Chain(A, B, C, D, E));
      hide AddChains;
      digest[0] := sum.a;
      digest[1] := sum.b;
      digest[2] := sum.c;
      digest[3] := sum.d;
      digest[4] := sum.e;
    }
  }

  /** `ws` is the word sequence of the block. */
  ghost predicate Scheduled(ws: seq<word>, b: seq<byte>) {
    |b| == 64 && |ws| == 80 && forall t :: 0 <= t < 80 ==> ws[t] == W(b, t)
  }

  lemma ScheduledLength(ws: seq<word>, b: seq<byte>)
    requires Scheduled(ws, b)
    ensures |ws| == 80
  {
  }

  lemma {:induction false} FirstWord(b: Block, t: nat)
    requires t < 16
    ensures W(b, t) == WordOf(b, t * 4)
  {
    hide WordOf;
  }

  lemma OtherWord(b: Block, t: nat)
    requires 16 <= t
    ensures W(b, t) == S(1, Xor4(W(b, t - 3), W(b, t - 8), W(b, t - 14), W(b, t - 16)))
  {
    hide S, Xor4;
  }

  lemma {:induction false} RoundsStart(h: Chain, b: Block)
    ensures Rounds(h, b, 0) == h
  {
  }

  /** One round, with the function and the constant of its stage. */
  lemma RoundsStep(h: Chain, b: Block, t: nat, r: Chain, ws: seq<word>)
    requires t < 80 && r == Rounds(h, b, t) && Scheduled(ws, b)
    ensures t < 20 ==>
        Rounds(h, b, t + 1) == Next(r, Sum5(S(5, r.a), Choose(r.b, r.c, r.d), r.e, ws[t], 0x5A827999))
    ensures 20 <= t < 40 ==>
        Rounds(h, b, t + 1) == Next(r, Sum5(S(5, r.a), Parity(r.b, r.c, r.d), r.e, ws[t], 0x6ED9EBA1))
    ensures 40 <= t < 60 ==>
        Rounds(h, b, t + 1) == Next(r, Sum5(S(5, r.a), Majority(r.b, r.c, r.d), r.e, ws[t], 0x8F1BBCDC))
    ensures 60 <= t < 80 ==>
        Rounds(h, b, t + 1) == Next(r, Sum5(S(5, r.a), Parity(r.b, r.c, r.d), r.e, ws[t], 0xCA62C1D6))
  {
    hide W, S, Choose, Parity, Majority, Sum5;
  }

  /** How the buffers move at the end of a round. */
  function Next(r: Chain, temp: word): Chain {
    Chain(temp, r.a, S(30, r.b), r.c, r.d)
  }
}
