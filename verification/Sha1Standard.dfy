/** The digest of a message as FIPS PUB 180-1 defines it: padding in section 4, the functions, constants and
    computation in sections 5 to 7. Messages are sequences of whole octets. */
module Sha1Standard {
  import opened Bytes

  type word = bv32

  datatype Chain = Chain(a: word, b: word, c: word, d: word, e: word)

  const INITIAL: Chain := Chain(0x67452301, 0xEFCDAB89, 0x98BADCFE, 0x10325476, 0xC3D2E1F0)

  /** The circular left shift S^n. */
  function S(n: nat, x: word): word
    requires 0 < n < 32
  {
    (x << n) | (x >> (32 - n))
  }

  function Choose(b: word, c: word, d: word): word {
    (b & c) | (!b & d)
  }

  function Parity(b: word, c: word, d: word): word {
    b ^ c ^ d
  }

  function Majority(b: word, c: word, d: word): word {
    (b & c) | (b & d) | (c & d)
  }

  function F(t: nat, b: word, c: word, d: word): word {
    if t < 20 then Choose(b, c, d)
    else if t < 40 then Parity(b, c, d)
    else if t < 60 then Majority(b, c, d)
    else Parity(b, c, d)
  }

  function K(t: nat): word {
    if t < 20 then 0x5A827999
    else if t < 40 then 0x6ED9EBA1
    else if t < 60 then 0x8F1BBCDC
    else 0xCA62C1D6
  }

  /** Four octets as a word, the first one leftmost. */
  function WordOf(b: seq<byte>, k: nat): word
    requires k + 4 <= |b|
  {
    ((b[k] as word) << 24) | ((b[k + 1] as word) << 16) | ((b[k + 2] as word) << 8) | (b[k + 3] as word)
  }

  type Block = b: seq<byte> | |b| == 64 witness seq(64, _ => 0)

  function Xor4(a: word, b: word, c: word, d: word): word {
    a ^ b ^ c ^ d
  }

  /** The word sequence of a block. */
  function W(block: Block, t: nat): word {
    if t < 16 then WordOf(block, 4 * t)
    else S(1, Xor4(W(block, t - 3), W(block, t - 8), W(block, t - 14), W(block, t - 16)))
  }

  /** The sum of five words modulo 2^32. */
  function Sum5(a: word, b: word, c: word, d: word, e: word): word {
    a + b + c + d + e
  }

  function Round(h: Chain, t: nat, w: word): Chain {
    Chain(Sum5(S(5, h.a), F(t, h.b, h.c, h.d), h.e, w, K(t)), h.a, S(30, h.b), h.c, h.d)
  }

  /** The buffers A to E after the first `t` rounds. */
  function Rounds(h: Chain, block: Block, t: nat): Chain {
    if t == 0 then h else Round(Rounds(h, block, t - 1), t - 1, W(block, t - 1))
  }

  function AddChains(h: Chain, r: Chain): Chain {
    Chain(h.a + r.a, h.b + r.b, h.c + r.c, h.d + r.d, h.e + r.e)
  }

  function Compress(h: Chain, block: Block): Chain {
    var r := Rounds(h, block, 80);
    AddChains(h, r)
  }

  /** The chain after all whole blocks of `m`, in order. */
  function HashBlocks(m: seq<byte>): Chain
    requires |m| % 64 == 0
  {
    if m == [] then INITIAL
    else Compress(HashBlocks(m[..|m| - 64]), m[|m| - 64..])
  }

  /** The bit length of an `n`-octet message as a 64-bit number, most significant octet first. */
  function LengthOctets(n: nat): (s: seq<byte>)
    requires 8 * n < 0x1_0000_0000_0000_0000
    ensures |s| == 8
  {
    WordOctets(8 * n / 0x1_0000_0000) + WordOctets(8 * n % 0x1_0000_0000)
  }

  function WordOctets(v: int): (s: seq<byte>)
    requires 0 <= v < 0x1_0000_0000
    ensures |s| == 4
  {
    [v / 0x100_0000 % 256, v / 0x1_0000 % 256, v / 0x100 % 256, v % 256]
  }

  /** How many zero octets follow the octet 0x80: as few as bring the length to 56 modulo 64. */
  function PadZeros(n: nat): (z: nat)
    ensures z < 64 && (n + 9 + z) % 64 == 0
  {
    (55 - n) % 64
  }

  function Pad(m: seq<byte>): (p: seq<byte>)
    requires 8 * |m| < 0x1_0000_0000_0000_0000
    ensures |p| % 64 == 0
  {
    hide PadZeros, Zeros, LengthOctets;
    m + [0x80] + Zeros(PadZeros(|m|)) + LengthOctets(|m|)
  }

  function Digest(m: seq<byte>): Chain
    requires 8 * |m| < 0x1_0000_0000_0000_0000
  {
    HashBlocks(Pad(m))
  }

  // ---------------------------------------------------------------------------------------------

  lemma PadZerosLeast(n: nat, z: nat)
    ensures (n + 1 + PadZeros(n)) % 64 == 56
    ensures (n + 1 + z) % 64 == 56 ==> PadZeros(n) <= z
  {
    var r, y := n % 64, z % 64;
    assert n == n / 64 * 64 + r && z == z / 64 * 64 + y;
    assert (n + 1 + z) % 64 == (r + 1 + y) % 64;
    assert PadZeros(n) == if r <= 55 then 55 - r else 119 - r;
  }

  lemma {:induction false} HashBlocksAppend(m: seq<byte>, block: Block)
    requires |m| % 64 == 0
    ensures HashBlocks(m + block) == Compress(HashBlocks(m), block)
  {
    hide Compress;
    assert (m + block)[..|m + block| - 64] == m && (m + block)[|m + block| - 64..] == block;
  }

  lemma WordOctetsInjective(v: int, w: int)
    requires 0 <= v < 0x1_0000_0000 && 0 <= w < 0x1_0000_0000
    requires WordOctets(v) == WordOctets(w)
    ensures v == w
  {
    var s, t := WordOctets(v), WordOctets(w);
    assert s[0] == t[0] && s[1] == t[1] && s[2] == t[2] && s[3] == t[3];
    FromOctets(v);
    FromOctets(w);
  }

  lemma FromOctets(v: int)
    requires 0 <= v < 0x1_0000_0000
    ensures v == v / 0x100_0000 % 256 * 0x100_0000 + v / 0x1_0000 % 256 * 0x1_0000 + v / 0x100 % 256 * 0x100 + v % 256
  {
    assert v / 0x1_0000 == v / 0x100 / 0x100;
    assert v / 0x100_0000 == v / 0x1_0000 / 0x100;
  }

  /** Different messages are padded differently. */
  lemma PadInjective(m: seq<byte>, m': seq<byte>)
    requires 8 * |m| < 0x1_0000_0000_0000_0000 && 8 * |m'| < 0x1_0000_0000_0000_0000
    ensures Pad(m) == Pad(m') ==> m == m'
  {
    if Pad(m) != Pad(m') {
      return;
    }
    var p := Pad(m);
    var k := |p| - 8;
    assert p[k..] == LengthOctets(|m|) && p[k..] == LengthOctets(|m'|);
    var l, l' := LengthOctets(|m|), LengthOctets(|m'|);
    assert l[..4] == WordOctets(8 * |m| / 0x1_0000_0000) && l'[..4] == WordOctets(8 * |m'| / 0x1_0000_0000);
    assert l[4..] == WordOctets(8 * |m| % 0x1_0000_0000) && l'[4..] == WordOctets(8 * |m'| % 0x1_0000_0000);
    WordOctetsInjective(8 * |m| / 0x1_0000_0000, 8 * |m'| / 0x1_0000_0000);
    WordOctetsInjective(8 * |m| % 0x1_0000_0000, 8 * |m'| % 0x1_0000_0000);
    assert p[..|m|] == m && p[..|m'|] == m';
  }
}
