/** What the functions of the standard compute, and the known answer of FIPS PUB 180-1, appendix A. */
module Sha1Known {
  import opened Bytes
  import opened Sha1Standard
  import Stream = Sha1Stream

  // ---------------------------------------------------------------------------------------------
  // The functions of section 5
  // ---------------------------------------------------------------------------------------------

  /** Where `b` has ones the result has the bits of `c`, elsewhere those of `d`. */
  lemma ChooseLaw(b: word, c: word, d: word)
    ensures Choose(b, c, d) & b == c & b
    ensures Choose(b, c, d) & !b == d & !b
  {
  }

  /** Where two arguments agree, the result agrees with them, whichever two they are. */
  lemma MajorityLaw(b: word, c: word, d: word)
    ensures Majority(b, c, d) & !(b ^ c) == b & !(b ^ c)
  {
  }

  lemma MajoritySymmetric(b: word, c: word, d: word)
    ensures Majority(b, d, c) == Majority(b, c, d) == Majority(c, d, b)
  {
  }

  /** The parity of three words is taken bit by bit: where two agree it is the third, elsewhere its complement. */
  lemma ParityLaw(b: word, c: word, d: word)
    ensures Parity(b, c, d) & !(b ^ c) == d & !(b ^ c)
    ensures Parity(b, c, d) & (b ^ c) == !d & (b ^ c)
  {
  }

  /** One step to the left brings the leftmost bit to the right end. */
  lemma RotateLaw(x: word)
    ensures S(1, x) & 1 == x >> 31 && S(1, x) >> 1 == x & 0x7FFF_FFFF
  {
  }

  function Left1(x: word): word {
    (x << 1) | (x >> 31)
  }

  function Left5(x: word): word {
    (x << 5) | (x >> 27)
  }

  function Left30(x: word): word {
    (x << 30) | (x >> 2)
  }

  lemma Lefts(x: word)
    ensures S(1, x) == Left1(x) && S(5, x) == Left5(x) && S(30, x) == Left30(x)
  {
  }

  lemma FiveSteps(x: word)
    ensures Left5(x) == Left1(Left1(Left1(Left1(Left1(x)))))
  {
  }

  lemma ThirtySteps(x: word)
    ensures Left1(Left1(Left30(x))) == x
  {
  }

  /** Five steps are one step five times, and thirty steps to the left are undone by two more. */
  lemma RotateSteps(x: word)
    ensures S(5, x) == S(1, S(1, S(1, S(1, S(1, x)))))
    ensures S(1, S(1, S(30, x))) == x
  {
    hide S, Left1, Left5, Left30;
    Lefts(x);
    FiveSteps(x);
    ThirtySteps(x);
    Lefts(Left1(x));
    Lefts(Left1(Left1(x)));
    Lefts(Left1(Left1(Left1(x))));
    Lefts(Left1(Left1(Left1(Left1(x)))));
    Lefts(Left30(x));
    Lefts(Left1(Left30(x)));
  }

  // ---------------------------------------------------------------------------------------------
  // The message "abc"
  // ---------------------------------------------------------------------------------------------

  const ABC: seq<byte> := [0x61, 0x62, 0x63]

  /** Its only block. */
  function Block0(): Block {
    [0x61, 0x62, 0x63, 0x80] + Zeros(52) + [0, 0, 0, 0, 0, 0, 0, 0x18]
  }

  lemma PadOfAbc()
    ensures Pad(ABC) == Block0()
  {
    assert PadZeros(3) == 52;
    hide PadZeros, Zeros;
    LengthOfAbc();
    hide LengthOctets;
    assert ABC + [0x80] == [0x61, 0x62, 0x63, 0x80];
  }

  lemma LengthOfAbc()
    ensures LengthOctets(3) == [0, 0, 0, 0, 0, 0, 0, 0x18]
  {
    assert WordOctets(0) == [0, 0, 0, 0] && WordOctets(24) == [0, 0, 0, 0x18];
    hide WordOctets;
  }

  lemma WordIs(b: Block, k: nat, b0: byte, b1: byte, b2: byte, b3: byte)
    requires k <= 60 && b[k] == b0 && b[k + 1] == b1 && b[k + 2] == b2 && b[k + 3] == b3
    ensures WordOf(b, k) == ((b0 as word) << 24) | ((b1 as word) << 16) | ((b2 as word) << 8) | (b3 as word)
  {
  }

  /** The first words of the word sequence. */
  ghost predicate Sequence(ws: seq<word>) {
    forall t :: 0 <= t < |ws| ==> W(Block0(), t) == ws[t]
  }

  const FIRST: seq<word> := [0x61626380, 0, 0, 0, 0, 0, 0, 0, 0, 0, 0, 0, 0, 0, 0, 0x18]

  lemma BlockIs()
    ensures var b := Block0();
            && b[0] == 0x61 && b[1] == 0x62 && b[2] == 0x63 && b[3] == 0x80 && b[63] == 0x18
            && forall i :: 4 <= i < 63 ==> b[i] == 0
  {
  }

  lemma FirstWords()
    ensures Sequence(FIRST)
  {
    hide W, WordOf, Block0;
    BlockIs();
    WordIs(Block0(), 0, 0x61, 0x62, 0x63, 0x80);
    WordIs(Block0(), 60, 0, 0, 0, 0x18);
    forall t | 0 <= t < 16
      ensures W(Block0(), t) == FIRST[t]
    {
      WordBelow16(t);
      if 0 < t < 15 {
        WordIs(Block0(), 4 * t, 0, 0, 0, 0);
      }
    }
  }

  lemma {:induction false} WordBelow16(t: nat)
    requires t < 16
    ensures W(Block0(), t) == WordOf(Block0(), 4 * t)
  {
    hide WordOf, Block0;
  }

  lemma WordStep(t: nat)
    requires 16 <= t
    ensures W(Block0(), t) ==
            Left1(Xor4(W(Block0(), t - 3), W(Block0(), t - 8), W(Block0(), t - 14), W(Block0(), t - 16)))
  {
    hide S, Block0, Left1, Xor4;
    Lefts(Xor4(W(Block0(), t - 3), W(Block0(), t - 8), W(Block0(), t - 14), W(Block0(), t - 16)));
  }

  /** The recurrence of the word sequence. */
  lemma NextWord(ws: seq<word>, next: word)
    requires Sequence(ws) && 16 <= |ws|
    requires next == Left1(Xor4(ws[|ws| - 3], ws[|ws| - 8], ws[|ws| - 14], ws[|ws| - 16]))
    ensures Sequence(ws + [next])
  {
    hide W, Block0, Left1, Xor4;
    WordStep(|ws|);
  }

  /** The words so far, and the buffers after as many rounds. */
  ghost predicate Reached(ws: seq<word>, r: Chain) {
    Sequence(ws) && Rounds(INITIAL, Block0(), |ws|) == r
  }

  lemma RoundStep(n: nat)
    ensures var r := Rounds(INITIAL, Block0(), n);
            Rounds(INITIAL, Block0(), n + 1) ==
            Chain(Sum5(Left5(r.a), F(n, r.b, r.c, r.d), r.e, W(Block0(), n), K(n)), r.a, Left30(r.b), r.c, r.d)
  {
    hide F, K, Block0, S, Left5, Left30, W, Sum5;
    Lefts(Rounds(INITIAL, Block0(), n).a);
    Lefts(Rounds(INITIAL, Block0(), n).b);
  }

  /** One round with a known word. */
  lemma NextRound(ws: seq<word>, r: Chain, w: word) returns (ws': seq<word>, r': Chain)
    requires Reached(ws, r) && Sequence(ws + [w])
    ensures ws' == ws + [w] && Reached(ws', r')
    ensures r' == Chain(Sum5(Left5(r.a), F(|ws|, r.b, r.c, r.d), r.e, w, K(|ws|)), r.a, Left30(r.b), r.c, r.d)
  {
    hide F, K, Block0, Left5, Left30, W, Sum5, Rounds;
    RoundStep(|ws|);
    assert (ws + [w])[|ws|] == w;
    ws' := ws + [w];
    r' := Chain(Sum5(Left5(r.a), F(|ws|, r.b, r.c, r.d), r.e, w, K(|ws|)), r.a, Left30(r.b), r.c, r.d);
  }

  /** A round with a word of the block. */
  lemma GivenRound(ws: seq<word>, r: Chain, w: word) returns (ws': seq<word>, r': Chain)
    requires Reached(ws, r) && |ws| < 16 && FIRST[|ws|] == w && ws <= FIRST
    ensures ws' == ws + [w] && Reached(ws', r') && ws' <= FIRST
    ensures r' == Chain(Sum5(Left5(r.a), F(|ws|, r.b, r.c, r.d), r.e, w, K(|ws|)), r.a, Left30(r.b), r.c, r.d)
  {
    hide F, K, Block0, Left5, Left30, Sum5, Rounds, Sequence;
    FirstWords();
    assert ws + [w] == FIRST[..|ws| + 1];
    Prefix(ws + [w], FIRST);
    ws', r' := NextRound(ws, r, w);
  }

  /** A round with a word of the recurrence. */
  lemma DerivedRound(ws: seq<word>, r: Chain, w: word) returns (ws': seq<word>, r': Chain)
    requires Reached(ws, r) && 16 <= |ws|
    requires w == Left1(Xor4(ws[|ws| - 3], ws[|ws| - 8], ws[|ws| - 14], ws[|ws| - 16]))
    ensures ws' == ws + [w] && Reached(ws', r')
    ensures r' == Chain(Sum5(Left5(r.a), F(|ws|, r.b, r.c, r.d), r.e, w, K(|ws|)), r.a, Left30(r.b), r.c, r.d)
  {
    hide F, K, Block0, Left5, Left30, Sum5, Rounds, Sequence, Left1, Xor4;
    NextWord(ws, w);
    ws', r' := NextRound(ws, r, w);
  }

  lemma Prefix(ws: seq<word>, all: seq<word>)
    requires ws <= all && Sequence(all)
    ensures Sequence(ws)
  {
    hide W;
  }

  const WORDS4: seq<word> := [0x61626380, 0x00000000, 0x00000000, 0x00000000]

  lemma Reach4()
    ensures Reached(WORDS4, Chain(0xCDD8E11B, 0xA1390F08, 0x626414DB, 0xC045BF0C, 0x59D148C0))
  {
    hide Reached;
    NoRounds();
    var ws, r := [], INITIAL;
    ws, r := GivenRound(ws, r, 0x61626380);
    ws, r := GivenRound(ws, r, 0x00000000);
    ws, r := GivenRound(ws, r, 0x00000000);
    ws, r := GivenRound(ws, r, 0x00000000);
    assert ws == WORDS4;
  }

  const WORDS8: seq<word> := WORDS4 + [0x00000000, 0x00000000, 0x00000000, 0x00000000]

  lemma Reach8()
    ensures Reached(WORDS8, Chain(0x9E8C07D4, 0x993E30C1, 0x0FF1F290, 0xB3F52677, 0xF3763846))
  {
    hide Reached;
    Reach4();
    var ws, r := WORDS4, Chain(0xCDD8E11B, 0xA1390F08, 0x626414DB, 0xC045BF0C, 0x59D148C0);
    ws, r := GivenRound(ws, r, 0x00000000);
    ws, r := GivenRound(ws, r, 0x00000000);
    ws, r := GivenRound(ws, r, 0x00000000);
    ws, r := GivenRound(ws, r, 0x00000000);
    assert ws == WORDS8;
  }

  const WORDS12: seq<word> := WORDS8 + [0x00000000, 0x00000000, 0x00000000, 0x00000000]

  lemma Reach12()
    ensures Reached(WORDS12, Chain(0x63188FE4, 0xFBDA9E89, 0x60D47E4A, 0x12DAB8CA, 0x27A301F5))
  {
    hide Reached;
    Reach8();
    var ws, r := WORDS8, Chain(0x9E8C07D4, 0x993E30C1, 0x0FF1F290, 0xB3F52677, 0xF3763846);
    ws, r := GivenRound(ws, r, 0x00000000);
    ws, r := GivenRound(ws, r, 0x00000000);
    ws, r := GivenRound(ws, r, 0x00000000);
    ws, r := GivenRound(ws, r, 0x00000000);
    assert ws == WORDS12;
  }

  const WORDS16: seq<word> := WORDS12 + [0x00000000, 0x00000000, 0x00000000, 0x00000018]

  lemma Reach16()
    ensures Reached(WORDS16, Chain(0x20BDD62F, 0x196BEE77, 0x644A3DA5, 0x1181ED99, 0x18C623F9))
  {
    hide Reached;
    Reach12();
    var ws, r := WORDS12, Chain(0x63188FE4, 0xFBDA9E89, 0x60D47E4A, 0x12DAB8CA, 0x27A301F5);
    ws, r := GivenRound(ws, r, 0x00000000);
    ws, r := GivenRound(ws, r, 0x00000000);
    ws, r := GivenRound(ws, r, 0x00000000);
    ws, r := GivenRound(ws, r, 0x00000018);
    assert ws == WORDS16;
  }

  const WORDS20: seq<word> := WORDS16 + [0xC2C4C700, 0x00000000, 0x00000030, 0x85898E01]

  lemma Reach20()
    ensures Reached(WORDS20, Chain(0xFD9E1D7D, 0xDC64901D, 0x20AA99CA, 0xD3A49608, 0xC82F758B))
  {
    hide Reached;
    Reach16();
    var ws, r := WORDS16, Chain(0x20BDD62F, 0x196BEE77, 0x644A3DA5, 0x1181ED99, 0x18C623F9);
    ws, r := DerivedRound(ws, r, 0xC2C4C700);
    ws, r := DerivedRound(ws, r, 0x00000000);
    ws, r := DerivedRound(ws, r, 0x00000030);
    ws, r := DerivedRound(ws, r, 0x85898E01);
    assert ws == WORDS20;
  }

  const WORDS24: seq<word> := WORDS20 + [0x00000000, 0x00000060, 0x0B131C03, 0x00000030]

  lemma Reach24()
    ensures Reached(WORDS24, Chain(0xD541F12D, 0x21283486, 0x0CE88EFF, 0x868DEC32, 0x7F67875F))
  {
    hide Reached;
    Reach20();
    var ws, r := WORDS20, Chain(0xFD9E1D7D, 0xDC64901D, 0x20AA99CA, 0xD3A49608, 0xC82F758B);
    ws, r := DerivedRound(ws, r, 0x00000000);
    ws, r := DerivedRound(ws, r, 0x00000060);
    ws, r := DerivedRound(ws, r, 0x0B131C03);
    ws, r := DerivedRound(ws, r, 0x00000030);
    assert ws == WORDS24;
  }

  const WORDS28: seq<word> := WORDS24 + [0x85898EC1, 0x16263806, 0x00000000, 0x00000180]

  lemma Reach28()
    ensures Reached(WORDS28, Chain(0x4AA84D97, 0xBE35FBD5, 0x12104EE9, 0xB1D59F71, 0x75507C4B))
  {
    hide Reached;
    Reach24();
    var ws, r := WORDS24, Chain(0xD541F12D, 0x21283486, 0x0CE88EFF, 0x868DEC32, 0x7F67875F);
    ws, r := DerivedRound(ws, r, 0x85898EC1);
    ws, r := DerivedRound(ws, r, 0x16263806);
    ws, r := DerivedRound(ws, r, 0x00000000);
    ws, r := DerivedRound(ws, r, 0x00000180);
    assert ws == WORDS28;
  }

  const WORDS32: seq<word> := WORDS28 + [0x2C4C700C, 0x000000F0, 0x93AFB507, 0x5898E048]

  lemma Reach32()
    ensures Reached(WORDS32, Chain(0x3B845D33, 0x1267B407, 0x717EEBD7, 0xA0DC2D4B, 0xD2AA1365))
  {
    hide Reached;
    Reach28();
    var ws, r := WORDS28, Chain(0x4AA84D97, 0xBE35FBD5, 0x12104EE9, 0xB1D59F71, 0x75507C4B);
    ws, r := DerivedRound(ws, r, 0x2C4C700C);
    ws, r := DerivedRound(ws, r, 0x000000F0);
    ws, r := DerivedRound(ws, r, 0x93AFB507);
    ws, r := DerivedRound(ws, r, 0x5898E048);
    assert ws == WORDS32;
  }

  const WORDS36: seq<word> := WORDS32 + [0x8E9A9202, 0x00000600, 0xB131C0F0, 0x16263BC6]

  lemma Reach36()
    ensures Reached(WORDS36, Chain(0xDCBBB0CB, 0x21796AD4, 0x4B03AF04, 0x811BEA82, 0xCEE1174C))
  {
    hide Reached;
    Reach32();
    var ws, r := WORDS32, Chain(0x3B845D33, 0x1267B407, 0x717EEBD7, 0xA0DC2D4B, 0xD2AA1365);
    ws, r := DerivedRound(ws, r, 0x8E9A9202);
    ws, r := DerivedRound(ws, r, 0x00000600);
    ws, r := DerivedRound(ws, r, 0xB131C0F0);
    ws, r := DerivedRound(ws, r, 0x16263BC6);
    assert ws == WORDS36;
  }

  const WORDS40: seq<word> := WORDS36 + [0x4EBED41E, 0x626380A1, 0x16263806, 0x000018C0]

  lemma Reach40()
    ensures Reached(WORDS40, Chain(0x32DE1CBA, 0x4C986405, 0xF718E5CF, 0x03D447F6, 0xF72EEC32))
  {
    hide Reached;
    Reach36();
    var ws, r := WORDS36, Chain(0xDCBBB0CB, 0x21796AD4, 0x4B03AF04, 0x811BEA82, 0xCEE1174C);
    ws, r := DerivedRound(ws, r, 0x4EBED41E);
    ws, r := DerivedRound(ws, r, 0x626380A1);
    ws, r := DerivedRound(ws, r, 0x16263806);
    ws, r := DerivedRound(ws, r, 0x000018C0);
    assert ws == WORDS40;
  }

  const WORDS44: seq<word> := WORDS40 + [0xD2E138C4, 0x00000F00, 0x3AFB5079, 0x898E04E5]

  lemma Reach44()
    ensures Reached(WORDS44, Chain(0xEE1B1AAF, 0x7F193DC5, 0x25C28357, 0xFF21F7B7, 0x8CB7872E))
  {
    hide Reached;
    Reach40();
    var ws, r := WORDS40, Chain(0x32DE1CBA, 0x4C986405, 0xF718E5CF, 0x03D447F6, 0xF72EEC32);
    ws, r := DerivedRound(ws, r, 0xD2E138C4);
    ws, r := DerivedRound(ws, r, 0x00000F00);
    ws, r := DerivedRound(ws, r, 0x3AFB5079);
    ws, r := DerivedRound(ws, r, 0x898E04E5);
    assert ws == WORDS44;
  }

  const WORDS48: seq<word> := WORDS44 + [0xE2BA3C2B, 0x000060C0, 0x053A37CD, 0x74458547]

  lemma Reach48()
    ensures Reached(WORDS48, Chain(0xBEAD02CA, 0xA01B846C, 0x8714787C, 0x503CA382, 0xFB86C6AB))
  {
    hide Reached;
    Reach44();
    var ws, r := WORDS44, Chain(0xEE1B1AAF, 0x7F193DC5, 0x25C28357, 0xFF21F7B7, 0x8CB7872E);
    ws, r := DerivedRound(ws, r, 0xE2BA3C2B);
    ws, r := DerivedRound(ws, r, 0x000060C0);
    ws, r := DerivedRound(ws, r, 0x053A37CD);
    ws, r := DerivedRound(ws, r, 0x74458547);
    assert ws == WORDS48;
  }

  const WORDS52: seq<word> := WORDS48 + [0xDA9415ED, 0x26380A16, 0x626383A1, 0x4EBF54DE]

  lemma Reach52()
    ensures Reached(WORDS52, Chain(0x3847AD66, 0x641DB2CE, 0x4481CC71, 0xEEBCE4CD, 0xAFAB40B2))
  {
    hide Reached;
    Reach48();
    var ws, r := WORDS48, Chain(0xBEAD02CA, 0xA01B846C, 0x8714787C, 0x503CA382, 0xFB86C6AB);
    ws, r := DerivedRound(ws, r, 0xDA9415ED);
    ws, r := DerivedRound(ws, r, 0x26380A16);
    ws, r := DerivedRound(ws, r, 0x626383A1);
    ws, r := DerivedRound(ws, r, 0x4EBF54DE);
    assert ws == WORDS52;
  }

  const WORDS56: seq<word> := WORDS52 + [0x3835B44B, 0x0000F600, 0x1E84C7A3, 0x98E04D98]

  lemma Reach56()
    ensures Reached(WORDS56, Chain(0x5E6456AF, 0x7B71F76D, 0x09FA7C76, 0x792410DB, 0x8E11EB59))
  {
    hide Reached;
    Reach52();
    var ws, r := WORDS52, Chain(0x3847AD66, 0x641DB2CE, 0x4481CC71, 0xEEBCE4CD, 0xAFAB40B2);
    ws, r := DerivedRound(ws, r, 0x3835B44B);
    ws, r := DerivedRound(ws, r, 0x0000F600);
    ws, r := DerivedRound(ws, r, 0x1E84C7A3);
    ws, r := DerivedRound(ws, r, 0x98E04D98);
    assert ws == WORDS56;
  }

  const WORDS60: seq<word> := WORDS56 + [0x651D16A0, 0x62658CA1, 0x458544D6, 0x44584CB7]

  lemma Reach60()
    ensures Reached(WORDS60, Chain(0x3F52DE5A, 0x09D785FD, 0x3498BFD4, 0xF211824F, 0xD79915AB))
  {
    hide Reached;
    Reach56();
    var ws, r := WORDS56, Chain(0x5E6456AF, 0x7B71F76D, 0x09FA7C76, 0x792410DB, 0x8E11EB59);
    ws, r := DerivedRound(ws, r, 0x651D16A0);
    ws, r := DerivedRound(ws, r, 0x62658CA1);
    ws, r := DerivedRound(ws, r, 0x458544D6);
    ws, r := DerivedRound(ws, r, 0x44584CB7);
    assert ws == WORDS60;
  }

  const WORDS64: seq<word> := WORDS60 + [0x7BA06619, 0x6380AEA2, 0x0AE55269, 0x627B49A1]

  lemma Reach64()
    ensures Reached(WORDS64, Chain(0x6B61C9E1, 0xB66C020B, 0x9523272C, 0xF5D5B051, 0x8FD4B796))
  {
    hide Reached;
    Reach60();
    var ws, r := WORDS60, Chain(0x3F52DE5A, 0x09D785FD, 0x3498BFD4, 0xF211824F, 0xD79915AB);
    ws, r := DerivedRound(ws, r, 0x7BA06619);
    ws, r := DerivedRound(ws, r, 0x6380AEA2);
    ws, r := DerivedRound(ws, r, 0x0AE55269);
    ws, r := DerivedRound(ws, r, 0x627B49A1);
    assert ws == WORDS64;
  }

  const WORDS68: seq<word> := WORDS64 + [0x7CD45C9D, 0x000F0000, 0xFB50753A, 0xEC6765E8]

  lemma Reach68()
    ensures Reached(WORDS68, Chain(0x78DD4D2B, 0x0C3DF2B4, 0x4405957E, 0x0677E9EB, 0x5AD87278))
  {
    hide Reached;
    Reach64();
    var ws, r := WORDS64, Chain(0x6B61C9E1, 0xB66C020B, 0x9523272C, 0xF5D5B051, 0x8FD4B796);
    ws, r := DerivedRound(ws, r, 0x7CD45C9D);
    ws, r := DerivedRound(ws, r, 0x000F0000);
    ws, r := DerivedRound(ws, r, 0xFB50753A);
    ws, r := DerivedRound(ws, r, 0xEC6765E8);
    assert ws == WORDS68;
  }

  const WORDS72: seq<word> := WORDS68 + [0xBA3C2BE2, 0x0060C000, 0x3A37CD05, 0x458546F4]

  lemma Reach72()
    ensures Reached(WORDS72, Chain(0x39859DE7, 0xC199F8C7, 0x8FC96230, 0x125C24F0, 0xDE37534A))
  {
    hide Reached;
    Reach68();
    var ws, r := WORDS68, Chain(0x78DD4D2B, 0x0C3DF2B4, 0x4405957E, 0x0677E9EB, 0x5AD87278);
    ws, r := DerivedRound(ws, r, 0xBA3C2BE2);
    ws, r := DerivedRound(ws, r, 0x0060C000);
    ws, r := DerivedRound(ws, r, 0x3A37CD05);
    ws, r := DerivedRound(ws, r, 0x458546F4);
    assert ws == WORDS72;
  }

  const WORDS76: seq<word> := WORDS72 + [0xB8599DD6, 0x380A1A26, 0x01E02203, 0xE7CC3456]

  lemma Reach76()
    ensures Reached(WORDS76, Chain(0x63F7DAB7, 0x5EE76897, 0xC45E4FDB, 0x3B6D0B79, 0xCE616779))
  {
    hide Reached;
    Reach72();
    var ws, r := WORDS72, Chain(0x39859DE7, 0xC199F8C7, 0x8FC96230, 0x125C24F0, 0xDE37534A);
    ws, r := DerivedRound(ws, r, 0xB8599DD6);
    ws, r := DerivedRound(ws, r, 0x380A1A26);
    ws, r := DerivedRound(ws, r, 0x01E02203);
    ws, r := DerivedRound(ws, r, 0xE7CC3456);
    assert ws == WORDS76;
  }

  const WORDS80: seq<word> := WORDS76 + [0xE6E60B69, 0x00F60A00, 0x5795EF4F, 0x822E0879]

  lemma Reach80()
    ensures Reached(WORDS80, Chain(0x42541B35, 0x5738D5E1, 0x21834873, 0x681E6DF6, 0xD8FDF6AD))
  {
    hide Reached;
    Reach76();
    var ws, r := WORDS76, Chain(0x63F7DAB7, 0x5EE76897, 0xC45E4FDB, 0x3B6D0B79, 0xCE616779);
    ws, r := DerivedRound(ws, r, 0xE6E60B69);
    ws, r := DerivedRound(ws, r, 0x00F60A00);
    ws, r := DerivedRound(ws, r, 0x5795EF4F);
    ws, r := DerivedRound(ws, r, 0x822E0879);
    assert ws == WORDS80;
  }

  lemma NoRounds()
    ensures Reached([], INITIAL)
  {
  }

  /** The digest of "abc" is A9993E36 4706816A BA3E2571 7850C26C 9CD0D89D. */
  lemma DigestOfAbc()
    ensures Digest(ABC) == Chain(0xA9993E36, 0x4706816A, 0xBA3E2571, 0x7850C26C, 0x9CD0D89D)
  {
    hide Rounds, Pad, Block0;
    PadOfAbc();
    Reach80();
    OneBlock(Block0());
  }

  lemma {:induction false} OneBlock(b: Block)
    ensures HashBlocks(b) == AddChains(INITIAL, Rounds(INITIAL, b, 80))
  {
    hide Rounds, AddChains;
    var none: seq<byte> := b[..0];
    assert none == [] && b[0..] == b;
    assert HashBlocks(none) == INITIAL;
  }

  /** In whatever chunks it comes, the streaming computation gives that digest. */
  lemma {:induction false} StreamOfAbc(chunks: seq<seq<byte>>)
    requires Stream.Concat(chunks) == ABC
    ensures var (s, ok) := Stream.Result(Stream.InputAll(Stream.START, chunks));
            ok && s.chain == Chain(0xA9993E36, 0x4706816A, 0xBA3E2571, 0x7850C26C, 0x9CD0D89D)
  {
    hide Digest, Stream.Result, Stream.InputAll;
    Stream.StreamingIsStandard(chunks);
    DigestOfAbc();
  }
}
