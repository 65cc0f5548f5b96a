/** IEEE 754 values without rounding: finite values are reals, and the three
    special values keep the comparison rules of section 5.11 of IEEE 754. */
module Floats {
  datatype Float = NaN | NegInf | Num(r: real) | PosInf

  /** a < b; false whenever either side is NaN. */
  predicate Less(a: Float, b: Float) {
    match (a, b)
    case (NaN, _) => false
    case (_, NaN) => false
    case (Num(x), Num(y)) => x < y
    case (NegInf, _) => b != NegInf
    case (_, PosInf) => a != PosInf
    case (_, _) => false
  }

  /** a <= b; false whenever either side is NaN. */
  predicate AtMost(a: Float, b: Float) {
    !a.NaN? && !b.NaN? && (a == b || Less(a, b))
  }

  /** a - b, where subtracting an infinity from itself is NaN. */
  function Minus(a: Float, b: Float): Float {
    match (a, b)
    case (NaN, _) => NaN
    case (_, NaN) => NaN
    case (Num(x), Num(y)) => Num(x - y)
    case (Num(_), PosInf) => NegInf
    case (Num(_), NegInf) => PosInf
    case (PosInf, PosInf) => NaN
    case (NegInf, NegInf) => NaN
    case (_, _) => a
  }
}
