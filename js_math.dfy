/**
  The parts of JavaScript's `Math` object that the pricing endpoint uses,
  over exact reals.

  `Math.log`, `Math.exp` and `Math.sqrt` are not evaluated: every member that
  needs them takes a `Math` record as a parameter and may assume only what
  `Lawful` says about it. `Math.abs`, `Math.max` and `Math.round` are exact
  and are defined here.
 */
module JsMath {

  /** The three transcendental functions, left uninterpreted. */
  datatype Math = Math(log: real -> real, exp: real -> real, sqrt: real -> real)

  /** The only facts the model relies on: square roots of positive numbers are
      positive, `exp` is positive and `exp(0) == 1`. */
  ghost predicate Lawful(m: Math) {
    && (forall x :: x > 0.0 ==> m.sqrt(x) > 0.0)
    && (forall x :: m.exp(x) > 0.0)
    && m.exp(0.0) == 1.0
  }

  /** `Math.PI`, as the decimal the double value prints as. */
  const PI: real := 3.141592653589793

  /** `Math.abs`. */
  function Abs(x: real): (r: real)
    ensures r >= 0.0 && (r == x || r == -x)
  {
    if x < 0.0 then -x else x
  }

  /** `Math.max` of two numbers: the least number that is at least both. */
  function Max(a: real, b: real): (r: real)
    ensures r >= a && r >= b
    ensures r == a || r == b
  {
    if a >= b then a else b
  }

  /** `Math.round`: the nearest integer, with halves rounded toward +infinity. */
  function Round(x: real): (n: int)
    ensures x - 0.5 < n as real <= x + 0.5
  {
    (x + 0.5).Floor
  }

  /** `Round` is determined by its contract: exactly one integer lies in
      the half-open interval (x - 1/2, x + 1/2]. */
  lemma RoundUnique(x: real, n: int)
    requires x - 0.5 < n as real <= x + 0.5
    ensures Round(x) == n
  {
    var k := Round(x);
    assert k as real - n as real < 1.0 && n as real - k as real < 1.0;
  }

  /** `Round` never decreases when its argument grows. */
  lemma RoundMonotone(x: real, y: real)
    requires x <= y
    ensures Round(x) <= Round(y)
  {
    assert (Round(x) as real) < (Round(y) as real) + 1.0;
  }

  /** `Math.round(v * 100) / 100`: a value rounded to whole cents. */
  function RoundCents(v: real): (c: real)
    ensures v - 0.005 < c <= v + 0.005
  {
    Round(v * 100.0) as real / 100.0
  }

  /** A value that is already a whole number of cents is left unchanged. */
  lemma RoundCentsOfCents(n: int)
    ensures RoundCents(n as real / 100.0) == n as real / 100.0
  {
    assert n as real / 100.0 * 100.0 == n as real;
    RoundUnique(n as real, n);
  }

  /** Rounding to cents is idempotent. */
  lemma RoundCentsIdempotent(v: real)
    ensures RoundCents(RoundCents(v)) == RoundCents(v)
  {
    RoundCentsOfCents(Round(v * 100.0));
  }

  /** Rounding to cents keeps the order of values, and keeps non-negative
      values non-negative. */
  lemma RoundCentsMonotone(v: real, w: real)
    requires v <= w
    ensures RoundCents(v) <= RoundCents(w)
  {
    RoundMonotone(v * 100.0, w * 100.0);
  }

  lemma RoundCentsNonNegative(v: real)
    requires v >= 0.0
    ensures RoundCents(v) >= 0.0
  {
    RoundCentsMonotone(0.0, v);
    RoundCentsOfCents(0);
  }

  /** Rounding a sum part by part is off from rounding the whole by at most
      one cent: with a == b + c, the rounded b and c add up to the rounded a,
      or to it plus or minus 0.01. */
  lemma RoundCentsOfSum(a: real, b: real, c: real)
    requires a == b + c
    ensures var e := RoundCents(b) + RoundCents(c) - RoundCents(a);
      e == 0.0 || e == 0.01 || e == -0.01
  {
    var i, j, k := Round(b * 100.0), Round(c * 100.0), Round(a * 100.0);
    var d := i + j - k;
    assert -1.5 < d as real < 1.5;
    assert d == -1 || d == 0 || d == 1;
    assert RoundCents(b) + RoundCents(c) - RoundCents(a) == d as real / 100.0;
  }
}
