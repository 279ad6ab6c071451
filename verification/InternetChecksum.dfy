/** The Internet checksum (`cksum` in lab1/router/router/sr_utils.c and lab4/ctcp/ctcp_utils.c) on a
    little-endian machine, and what it guarantees (section 1 of RFC 1071). */
module InternetChecksum {
  import opened Bytes

  type u16 = x: int | 0 <= x < 0x1_0000
  type u32 = x: int | 0 <= x < 0x1_0000_0000

  /** A 16-bit value in network order. */
  function BE16(v: u16): (s: seq<byte>)
    ensures |s| == 2
  {
    [v / 256, v % 256]
  }

  /** A 16-bit value as it lies in the memory of a little-endian machine. */
  function LE16(v: u16): (s: seq<byte>)
    ensures |s| == 2
  {
    [v % 256, v / 256]
  }

  /** `htons`, which is also `ntohs`. */
  function Swap(v: u16): u16 {
    v % 256 * 256 + v / 256
  }

  lemma SwapTwice(v: u16)
    ensures Swap(Swap(v)) == v && LE16(Swap(v)) == BE16(v)
  {
  }

  function Word(hi: int, lo: int): int {
    hi * 256 + lo
  }

  /** The sum of the big-endian 16-bit words; a last odd byte counts as the upper half of a word. */
  function WordSum(data: seq<byte>): nat {
    if |data| == 0 then 0
    else if |data| == 1 then Word(data[0], 0)
    else Word(data[0], data[1]) + WordSum(data[2..])
  }

  /** The carries of a sum are added back in until none is left. */
  function Fold(sum: nat): (r: nat)
    ensures r <= 0xffff
  {
    if sum > 0xffff then Fold(sum / 0x1_0000 + sum % 0x1_0000) else sum
  }

  /** The complement of a folded sum, in network order; zero is returned as 0xffff. */
  function Complement(folded: nat): u16
    requires folded <= 0xffff
  {
    var c := Swap(0xffff - folded);
    if c != 0 then c else 0xffff
  }

  /** What the source returns, in terms of the 32-bit sum of the words. */
  function Checksum(data: seq<byte>): (v: u16) {
    Complement(Fold(WordSum(data) % 0x1_0000_0000))
  }

  /** `cksum`. */
  method Cksum(data: seq<byte>) returns (v: u16)
    ensures v == Checksum(data)
  {
    hide Fold, Complement, WordSum;
    var sum: nat := 0;
    ghost var exact: nat := 0;
    var i := 0;
    assert data[0..] == data;
    while |data| - i >= 2
      invariant 0 <= i <= |data|
      invariant exact + WordSum(data[i..]) == WordSum(data)
      invariant sum == exact % 0x1_0000_0000
    {
      NextWord(data, i);
      var w := Word(data[i], data[i + 1]);
      AddModulo(exact, w);
      exact := exact + w;
      sum := (sum + w) % 0x1_0000_0000;
      i := i + 2;
    }
    LastWord(data, i);
    if |data| - i > 0 {
      var w := Word(data[i], 0);
      AddModulo(exact, w);
      exact := exact + w;
      sum := (sum + w) % 0x1_0000_0000;
    }
    while sum > 0xffff
      invariant 0 <= sum
      invariant Fold(sum) == Fold(exact % 0x1_0000_0000)
    {
      FoldStep(sum);
      sum := sum / 0x1_0000 + sum % 0x1_0000;
    }
    FoldStep(sum);
    v := Complement(sum);
  }

  lemma NextWord(data: seq<byte>, i: nat)
    requires i + 2 <= |data|
    ensures WordSum(data[i..]) == Word(data[i], data[i + 1]) + WordSum(data[i + 2..])
  {
    assert data[i..][2..] == data[i + 2..];
  }

  lemma LastWord(data: seq<byte>, i: nat)
    requires i <= |data| < i + 2
    ensures WordSum(data[i..]) == if i < |data| then Word(data[i], 0) else 0
  {
  }

  lemma AddModulo(x: nat, y: nat)
    ensures (x % 0x1_0000_0000 + y) % 0x1_0000_0000 == (x + y) % 0x1_0000_0000
  {
  }

  lemma FoldStep(sum: nat)
    ensures Fold(sum) == if sum > 0xffff then Fold(sum / 0x1_0000 + sum % 0x1_0000) else sum
  {
  }

  /** Folding keeps the sum modulo 65535, and only zero folds to zero. */
  lemma {:induction false} FoldCongruent(sum: nat)
    ensures Fold(sum) % 0xffff == sum % 0xffff
    ensures Fold(sum) == 0 <==> sum == 0
  {
    if sum > 0xffff {
      var q, r := sum / 0x1_0000, sum % 0x1_0000;
      FoldCongruent(q + r);
      CarryCongruent(sum);
    }
  }

  lemma CarryCongruent(sum: nat)
    ensures (sum / 0x1_0000 + sum % 0x1_0000) % 0xffff == sum % 0xffff
    ensures sum / 0x1_0000 + sum % 0x1_0000 == 0 <==> sum == 0
  {
    var q, r := sum / 0x1_0000, sum % 0x1_0000;
    assert sum == q * 0xffff + (q + r);
    ModShift(q, q + r);
  }

  lemma ModShift(q: int, r: int)
    ensures (q * 0xffff + r) % 0xffff == r % 0xffff
  {
  }

  /** The largest buffer whose words cannot overflow the 32-bit sum. */
  const MAX_DATA: nat := 0x2_0000

  lemma {:induction false} WordSumBound(data: seq<byte>)
    ensures 2 * WordSum(data) <= 0xffff * (|data| + 1)
    ensures |data| % 2 == 0 ==> 2 * WordSum(data) <= 0xffff * |data|
  {
    if |data| >= 2 {
      WordSumBound(data[2..]);
    }
  }

  lemma {:induction false} NoOverflow(data: seq<byte>)
    requires |data| <= MAX_DATA
    ensures WordSum(data) < 0x1_0000_0000
  {
    WordSumBound(data);
  }

  /** The loops compute the closed form: the number between 1 and 65535, in network order, that makes the sum
      a multiple of 65535. The result is never zero. */
  lemma {:induction false} ChecksumClosedForm(data: seq<byte>)
    requires |data| <= MAX_DATA
    ensures Checksum(data) == Swap(0xffff - WordSum(data) % 0xffff) != 0
  {
    hide Fold, WordSum, Complement, Swap;
    NoOverflow(data);
    var sum := WordSum(data);
    FoldCongruent(sum);
    assert sum % 0x1_0000_0000 == sum;
    FoldedComplement(Fold(sum), sum);
  }

  lemma FoldedComplement(folded: nat, sum: nat)
    requires folded <= 0xffff && folded % 0xffff == sum % 0xffff && (folded == 0 <==> sum == 0)
    ensures Complement(folded) == Swap(0xffff - sum % 0xffff) != 0
  {
    assert folded == sum % 0xffff || (folded == 0xffff && sum % 0xffff == 0);
  }

  /** Octets at even offsets count as upper halves of words, octets at odd offsets as lower halves. */
  lemma {:induction false} OneMoreOctet(data: seq<byte>, b: byte)
    ensures WordSum(data + [b]) == WordSum(data) + if |data| % 2 == 0 then 256 * b else b as int
  {
    if |data| >= 2 {
      assert (data + [b])[2..] == data[2..] + [b];
      OneMoreOctet(data[2..], b);
    }
  }

  /** Data of odd length checks like the data followed by a zero octet. */
  lemma OddDataIsPadded(data: seq<byte>)
    requires |data| % 2 == 1
    ensures Checksum(data + [0]) == Checksum(data)
  {
    OneMoreOctet(data, 0);
  }

  // ---------------------------------------------------------------------------------------------
  // A checksum stored in the data
  // ---------------------------------------------------------------------------------------------

  /** `data` with `field` in place of the bytes from `offset` on. */
  function Patch(data: seq<byte>, offset: nat, field: seq<byte>): (s: seq<byte>)
    requires offset + |field| <= |data|
    ensures |s| == |data|
  {
    data[..offset] + field + data[offset + |field|..]
  }

  /** Writing a word over zeros at an even offset adds it to the sum. */
  lemma {:induction false} PatchAddsWord(data: seq<byte>, offset: nat, word: u16)
    requires offset % 2 == 0 && offset + 2 <= |data|
    requires data[offset] == 0 && data[offset + 1] == 0
    ensures WordSum(Patch(data, offset, BE16(word))) == WordSum(data) + word
  {
    var data' := Patch(data, offset, BE16(word));
    if offset == 0 {
      assert data'[2..] == data[2..];
    } else {
      PatchAddsWord(data[2..], offset - 2, word);
      assert data'[2..] == Patch(data[2..], offset - 2, BE16(word));
    }
  }

  /** With a value in a zeroed field at an even offset the data checks to 0xffff exactly if the value is the
      checksum of the data with the field zeroed. */
  lemma FieldChecks(data: seq<byte>, offset: nat, field: u16)
    requires |data| <= MAX_DATA && offset % 2 == 0 && offset + 2 <= |data|
    requires data[offset] == 0 && data[offset + 1] == 0
    requires field != 0
    ensures Checksum(Patch(data, offset, LE16(field))) == 0xffff <==> field == Checksum(data)
  {
    var c := Swap(field);
    ChecksumClosedForm(data);
    SwapTwice(c);
    SwapTwice(field);
    PatchAddsWord(data, offset, c);
    ChecksumClosedForm(Patch(data, offset, BE16(c)));
    hide WordSum, Checksum;
    var w := WordSum(data);
    assert 1 <= c <= 0xffff;
    UniqueComplement(w, c);
    SwapTwice(0xffff - (w + c) % 0xffff);
    SwapTwice(0xffff - w % 0xffff);
  }

  lemma UniqueComplement(w: nat, c: nat)
    requires 1 <= c <= 0xffff
    ensures (w + c) % 0xffff == 0 <==> c == 0xffff - w % 0xffff
  {
    var r := w % 0xffff;
    assert (w + c) % 0xffff == (r + c) % 0xffff by {
      assert w == w / 0xffff * 0xffff + r;
    }
  }

  /** Data whose checksum was stored in a zeroed field at an even offset checks to 0xffff. */
  lemma StoredChecksumChecks(data: seq<byte>, offset: nat)
    requires |data| <= MAX_DATA && offset % 2 == 0 && offset + 2 <= |data|
    requires data[offset] == 0 && data[offset + 1] == 0
    ensures Checksum(Patch(data, offset, LE16(Checksum(data)))) == 0xffff
  {
    ChecksumClosedForm(data);
    hide Checksum, Patch;
    FieldChecks(data, offset, Checksum(data));
  }
}
