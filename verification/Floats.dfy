/**
 Floats: finite ones are reals, and the values that are not finite are kept, because the code branches
 on them. With them, the few facts about products of reals that proofs elsewhere need.
 */
module Floats {
  datatype Float = NaN | NegInf | PosInf | Fin(v: real)

  const ZERO := Fin(0.0)

  /** The ordered comparison: false when either side is NaN. */
  predicate Less(a: Float, b: Float) {
    !a.NaN? && !b.NaN? && a != b && (a.NegInf? || b.PosInf? || (a.Fin? && b.Fin? && a.v < b.v))
  }

  predicate Positive(a: Float) { Less(ZERO, a) }

  /** Positive and finite. */
  predicate Usable(a: Float) { a.Fin? && a.v > 0.0 }

  function Times(a: Float, b: Float): Float {
    if a.NaN? || b.NaN? then NaN
    else if a.Fin? && b.Fin? then Fin(a.v * b.v)
    else if a == ZERO || b == ZERO then NaN
    else if Positive(a) == Positive(b) then PosInf
    else NegInf
  }

  lemma Product(a: real, b: real)
    requires a >= 0.0 && b >= 0.0
    ensures a * b >= 0.0
  {
  }

  lemma Ordered(a: real, b: real, d: real)
    requires d > 0.0
    ensures a * d <= b * d <==> a <= b
  {
    if a > b { StrictProduct(a - b, d); } else { Product(b - a, d); }
  }

  lemma StrictProduct(a: real, b: real)
    requires a > 0.0 && b > 0.0
    ensures a * b > 0.0
  {
  }

  lemma QuotientIsNotNegative(x: real, d: real)
    requires x >= 0.0 && d > 0.0
    ensures x / d >= 0.0
  {
  }
}
