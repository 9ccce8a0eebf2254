/** The module-level `ratio` helper (gprof2dot.py:89-105). */
module Ratios {

  /** `tol = 2 ** -23`: it only decides whether a warning is written. */
  const Tol: real := 1.0 / 8388608.0

  /** `ratio(numerator, denominator)`: a division by zero yields 1.0,
      anything else is the quotient clamped to [0, 1]. */
  function SafeRatio(n: real, d: real): (r: real)
    ensures 0.0 <= r <= 1.0
    ensures d == 0.0 ==> r == 1.0
    ensures d != 0.0 && 0.0 <= n / d <= 1.0 ==> r == n / d
    ensures d != 0.0 && n / d < 0.0 ==> r == 0.0
    ensures d != 0.0 && n / d > 1.0 ==> r == 1.0
  {
    if d == 0.0 then 1.0
    else
      var q := n / d;
      if q < 0.0 then 0.0 else if q > 1.0 then 1.0 else q
  }

  /** Whether `ratio` writes one of its two warnings to stderr. */
  predicate WarnsOutOfRange(n: real, d: real)
  {
    d != 0.0 && (n / d < -Tol || n / d > 1.0 + Tol)
  }

  /** The result equals the quotient exactly when the quotient lies in
      [0, 1]; a clamp that moves the quotient by more than `tol` always
      warns. */
  lemma SafeRatioExactOrWarned(n: real, d: real)
    requires d != 0.0
    ensures SafeRatio(n, d) == n / d <==> 0.0 <= n / d <= 1.0
    ensures !WarnsOutOfRange(n, d) ==> -Tol <= SafeRatio(n, d) - n / d <= Tol
  {
  }

  /** A part over a whole it belongs to: when 0 <= n <= d the quotient is
      returned unclamped. */
  lemma SafeRatioOfPart(n: real, d: real)
    requires 0.0 <= n <= d && d != 0.0
    ensures SafeRatio(n, d) == n / d
  {
  }
}
