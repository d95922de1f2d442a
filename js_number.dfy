/** How the source's number comparisons behave on exact values: a ratio
    n / d compared with a threshold, including the division by zero that
    JavaScript turns into an infinity or NaN instead of an error. */
module JsNumber {
  /** `n / d < t`. Over zero, n / d is +Infinity (n > 0), -Infinity (n < 0)
      or NaN (n = 0), so only a negative n is below any threshold. */
  predicate RatioBelow(n: real, d: real, t: real) {
    if d == 0.0 then n < 0.0 else n / d < t
  }

  /** `n / d > t`, with the same reading of a zero divisor. */
  predicate RatioAbove(n: real, d: real, t: real) {
    if d == 0.0 then n > 0.0 else n / d > t
  }

  /** `n / d >= t`: +Infinity reaches every threshold, -Infinity and NaN
      none. */
  predicate RatioAtLeast(n: real, d: real, t: real) {
    if d == 0.0 then n > 0.0 else n / d >= t
  }

  /** `n / d <= t`: -Infinity is below every threshold, +Infinity and NaN
      are not. */
  predicate RatioAtMost(n: real, d: real, t: real) {
    if d == 0.0 then n < 0.0 else n / d <= t
  }

  /** Over a positive divisor the comparisons are cross-multiplications. */
  lemma RatioCross(n: real, d: real, t: real)
    requires d > 0.0
    ensures RatioBelow(n, d, t) <==> n < t * d
    ensures RatioAbove(n, d, t) <==> n > t * d
    ensures RatioAtLeast(n, d, t) <==> n >= t * d
    ensures RatioAtMost(n, d, t) <==> n <= t * d
  {
    var q := n / d;
    assert q * d == n;
    if q < t { assert (t - q) * d > 0.0; }
    if n < t * d { assert (t - q) * d > 0.0; }
    if q > t { assert (q - t) * d > 0.0; }
    if n > t * d { assert (q - t) * d > 0.0; }
  }

  /** Each non-strict comparison is the negation of the opposite strict one,
      except on NaN (0 / 0), where all four are false. */
  lemma RatioNegations(n: real, d: real, t: real)
    ensures RatioAtLeast(n, d, t) <==> !RatioBelow(n, d, t) && !(n == 0.0 && d == 0.0)
    ensures RatioAtMost(n, d, t) <==> !RatioAbove(n, d, t) && !(n == 0.0 && d == 0.0)
  {
  }

  /** A JavaScript number as a quotient can produce. */
  datatype Num = Finite(value: real) | PosInf | NegInf | NaN

  /** The value of `n / d`. */
  function Quotient(n: real, d: real): Num {
    if d != 0.0 then Finite(n / d)
    else if n > 0.0 then PosInf
    else if n < 0.0 then NegInf
    else NaN
  }

  /** `x < t`, `x > t`, `x >= t` and `x <= t` for a JavaScript number x:
      false whenever x is NaN. */
  predicate Lt(x: Num, t: real) { x.NegInf? || (x.Finite? && x.value < t) }

  predicate Gt(x: Num, t: real) { x.PosInf? || (x.Finite? && x.value > t) }

  predicate Ge(x: Num, t: real) { x.PosInf? || (x.Finite? && x.value >= t) }

  predicate Le(x: Num, t: real) { x.NegInf? || (x.Finite? && x.value <= t) }

  /** Comparing the quotient is comparing the ratio. */
  lemma QuotientComparisons(n: real, d: real, t: real)
    ensures Lt(Quotient(n, d), t) <==> RatioBelow(n, d, t)
    ensures Gt(Quotient(n, d), t) <==> RatioAbove(n, d, t)
    ensures Ge(Quotient(n, d), t) <==> RatioAtLeast(n, d, t)
    ensures Le(Quotient(n, d), t) <==> RatioAtMost(n, d, t)
  {
  }

  function Min(a: int, b: int): int { if a <= b then a else b }

  function Max(a: int, b: int): int { if a >= b then a else b }

  function Abs(a: int): nat { if a < 0 then -a else a }
}
