/** Octets and small facts about sequences. */
module Bytes {
  type byte = x: int | 0 <= x < 256

  function Min(x: int, y: int): int {
    if x < y then x else y
  }

  function Zeros(n: nat): (s: seq<byte>)
    ensures |s| == n
  {
    seq(n, _ => 0)
  }

  /** `sub` is what stands in `s` from `start` on. */
  predicate SliceAt<T(==)>(s: seq<T>, start: int, sub: seq<T>) {
    0 <= start && start + |sub| <= |s| && s[start..start + |sub|] == sub
  }
}
