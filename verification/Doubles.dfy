/** C's `double` and `float` as the congestion control code uses them: real numbers together with the
    infinities and not-a-number that a division by a zero time interval produces. Rounding is not modelled. */
module Doubles {

  datatype Num = NaN | NegInf | Fin(r: real) | PosInf

  /** What converting a value that no `long` can hold yields on the x86-64 machines the lab runs on. */
  const LONG_MIN: int := -0x8000_0000_0000_0000

  /** `x / y` on two integers converted to floating point. */
  function Quotient(x: int, y: int): Num {
    if y != 0 then Fin(x as real / y as real)
    else if x > 0 then PosInf
    else if x < 0 then NegInf
    else NaN
  }

  function Times(k: real, x: Num): Num {
    match x
    case NaN => NaN
    case Fin(r) => Fin(k * r)
    case PosInf => if k == 0.0 then NaN else if k > 0.0 then PosInf else NegInf
    case NegInf => if k == 0.0 then NaN else if k > 0.0 then NegInf else PosInf
  }

  /** `x > y`; false as soon as one side is not a number. */
  predicate Gt(x: Num, y: Num) {
    match (x, y)
    case (Fin(a), Fin(b)) => a > b
    case (PosInf, Fin(_)) => true
    case (PosInf, NegInf) => true
    case (Fin(_), NegInf) => true
    case _ => false
  }

  /** `x <= y`; false as soon as one side is not a number. */
  predicate Le(x: Num, y: Num) {
    x != NaN && y != NaN && !Gt(x, y)
  }

  /** The cast to `long`: truncation toward zero. */
  function ToLong(x: Num): int {
    match x
    case Fin(r) => if r >= 0.0 then r.Floor else -((-r).Floor)
    case _ => LONG_MIN
  }

  predicate NonNegative(x: Num) {
    match x
    case Fin(r) => r >= 0.0
    case PosInf => true
    case _ => false
  }

  /** Truncation never moves a non-negative value up, and never moves any finite value down by one or more. */
  lemma TruncationBounds(x: Num)
    ensures NonNegative(x) ==> !Gt(Fin(ToLong(x) as real), x)
    ensures x.Fin? ==> x.r < (ToLong(x) + 1) as real
  {
  }
}
