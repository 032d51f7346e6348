/**
 * The part of IEEE-754 double arithmetic the ray tracer relies on: values are
 * exact reals extended with the two infinities and NaN. Finite arithmetic is
 * exact (no rounding is modelled); what is modelled is where a computation
 * leaves the finite numbers and how comparisons behave afterwards.
 */
module Floats {

  datatype Float = Num(v: real) | PosInf | NegInf | NaN

  /** IEEE `a < b`: false whenever either side is NaN. */
  predicate Less(a: Float, b: Float)
  {
    match (a, b)
    case (Num(x), Num(y)) => x < y
    case (Num(_), PosInf) => true
    case (NegInf, Num(_)) => true
    case (NegInf, PosInf) => true
    case (_, _) => false
  }

  /** IEEE `a <= b`: `<` or equal, and false whenever either side is NaN. */
  predicate AtMost(a: Float, b: Float)
  {
    Less(a, b) || (a == b && a != NaN)
  }

  /** IEEE `a > 0`. */
  predicate Positive(a: Float)
  {
    a == PosInf || (a.Num? && a.v > 0.0)
  }

  /** IEEE `a < 0`. */
  predicate Negative(a: Float)
  {
    a == NegInf || (a.Num? && a.v < 0.0)
  }

  /** IEEE `fabs(a) <= e` for a finite bound e. */
  predicate AbsAtMost(a: Float, e: real)
  {
    a.Num? && -e <= a.v <= e
  }

  /**
   * Quotient of two finite doubles whose denominator is known to carry a
   * positive sign (a zero denominator is +0): x/+0 is +inf or -inf by the sign
   * of x, and 0/0 is NaN.
   */
  function DivPosZero(n: real, d: real): (r: Float)
    requires d >= 0.0
    ensures d > 0.0 ==> r.Num? && r.v * d == n
    ensures d > 0.0 ==> (r.v > 0.0 <==> n > 0.0) && (r.v < 0.0 <==> n < 0.0)
    ensures d == 0.0 ==> (r == NaN <==> n == 0.0) && (r == PosInf <==> n > 0.0) && (r == NegInf <==> n < 0.0)
  {
    if d > 0.0 then QuotientSign(n, d); Num(n / d)
    else if n > 0.0 then PosInf
    else if n < 0.0 then NegInf
    else NaN
  }

  /**
   * Quotient of two finite doubles whose denominator is known to carry a
   * negative sign (a zero denominator is -0): x/-0 is -inf for positive x.
   */
  function DivNegZero(n: real, d: real): (r: Float)
    requires d <= 0.0
    ensures d < 0.0 ==> r.Num? && r.v * d == n
    ensures d < 0.0 ==> (r.v > 0.0 <==> n < 0.0) && (r.v < 0.0 <==> n > 0.0)
    ensures d == 0.0 ==> (r == NaN <==> n == 0.0) && (r == NegInf <==> n > 0.0) && (r == PosInf <==> n < 0.0)
  {
    if d < 0.0 then QuotientSign(-n, -d); Num(n / d)
    else if n > 0.0 then NegInf
    else if n < 0.0 then PosInf
    else NaN
  }

  /** The sign of a quotient by a positive number is the sign of the numerator. */
  lemma QuotientSign(n: real, d: real)
    requires d > 0.0
    ensures (n / d > 0.0 <==> n > 0.0) && (n / d < 0.0 <==> n < 0.0)
    ensures n / d == (-n) / (-d)
  {
  }

  /** `<` is irreflexive and transitive, and total on everything but NaN. */
  lemma LessIsStrictOrder(a: Float, b: Float, c: Float)
    ensures !Less(a, a)
    ensures Less(a, b) && Less(b, c) ==> Less(a, c)
    ensures a != NaN && b != NaN ==> Less(a, b) || Less(b, a) || a == b
    ensures !Less(NaN, a) && !Less(a, NaN)
  {
  }

  /** `> 0` and `< 0` are `<` against zero, and never both hold. */
  lemma SignsAreComparisons(a: Float)
    ensures Positive(a) <==> Less(Num(0.0), a)
    ensures Negative(a) <==> Less(a, Num(0.0))
    ensures !(Positive(a) && Negative(a))
    ensures a == NaN ==> !Positive(a) && !Negative(a)
  {
  }
}
