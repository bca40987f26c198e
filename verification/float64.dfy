/** The values a Go `float64` can hold, as far as comparisons see them: a
    finite number, an infinity, or NaN. Go's `strconv.ParseFloat` yields all
    four from text ("1.5", "Inf", "-Inf", "NaN"). Rounding of finite values to
    the nearest double is not modelled; a finite value is its exact real. */
module GoFloat {

  datatype Float64 = Finite(value: real) | PosInf | NegInf | NaN

  /** IEEE 754 `<`: NaN is below nothing and nothing is below NaN; the
      infinities bound every finite value. */
  predicate Lt(a: Float64, b: Float64) {
    match (a, b)
    case (Finite(x), Finite(y)) => x < y
    case (NegInf, Finite(_)) => true
    case (NegInf, PosInf) => true
    case (Finite(_), PosInf) => true
    case _ => false
  }

  /** IEEE 754 `==`: NaN equals nothing, itself included. */
  predicate Eq(a: Float64, b: Float64) {
    !a.NaN? && a == b
  }

  /** IEEE 754 `<=`. */
  predicate Le(a: Float64, b: Float64) {
    Lt(a, b) || Eq(a, b)
  }

  /** On finite values the comparisons are those of the reals. */
  lemma FiniteComparisons(x: real, y: real)
    ensures Lt(Finite(x), Finite(y)) <==> x < y
    ensures Le(Finite(x), Finite(y)) <==> x <= y
  {
  }

  /** NaN is unordered: every comparison involving it is false. */
  lemma NaNIsUnordered(x: Float64)
    ensures !Lt(NaN, x) && !Lt(x, NaN) && !Le(NaN, x) && !Le(x, NaN)
  {
  }

  /** Without NaN, any two values are ordered one way or the other. */
  lemma LeIsTotalWithoutNaN(a: Float64, b: Float64)
    requires !a.NaN? && !b.NaN?
    ensures Le(a, b) || Le(b, a)
  {
  }
}
