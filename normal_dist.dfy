/**
  The standard normal density and the approximation of its cumulative
  distribution that the pricing endpoint uses: formula 7.1.26 of Abramowitz
  and Stegun (a degree-five polynomial in t = 1 / (1 + p*u) times exp(-u*u)),
  nested as the source writes it, with a sign trick for negative arguments.
 */
module NormalDist {
  import opened JsMath

  const A1: real := 0.254829592
  const A2: real := -0.284496736
  const A3: real := 1.421413741
  const A4: real := -1.453152027
  const A5: real := 1.061405429
  const P: real := 0.3275911

  /** The polynomial (((((a5*t + a4)*t) + a3)*t + a2)*t + a1)*t. */
  function Poly(t: real): real {
    (((((A5 * t + A4) * t) + A3) * t + A2) * t + A1) * t
  }

  /** The argument after `x = Math.abs(x) / Math.sqrt(2.0)`. */
  function Scaled(m: Math, x: real): (u: real)
    requires Lawful(m)
    ensures u >= 0.0
  {
    assert m.sqrt(2.0) > 0.0;
    Abs(x) / m.sqrt(2.0)
  }

  /** `t = 1.0 / (1.0 + p * x)` for the scaled argument u; it lies in (0, 1]. */
  function TVar(u: real): (t: real)
    requires u >= 0.0
    ensures 0.0 < t <= 1.0
  {
    assert 1.0 + P * u >= 1.0;
    1.0 / (1.0 + P * u)
  }

  /** `y = 1 - poly(t) * exp(-x*x)` for the scaled argument u. */
  function Tail(m: Math, u: real): real
    requires u >= 0.0
  {
    1.0 - Poly(TVar(u)) * m.exp(-u * u)
  }

  /** `sign = x >= 0 ? 1 : -1`: zero counts as positive. */
  function Sign(x: real): real {
    if x >= 0.0 then 1.0 else -1.0
  }

  /** `normCDF(x) = 0.5 * (1 + sign * y)`. */
  function NormCDF(m: Math, x: real): real
    requires Lawful(m)
  {
    0.5 * (1.0 + Sign(x) * Tail(m, Scaled(m, x)))
  }

  /** `normPDF(x) = exp(-0.5*x*x) / sqrt(2*pi)`: a positive, even function. */
  function NormPDF(m: Math, x: real): (d: real)
    requires Lawful(m)
    ensures d > 0.0
  {
    assert m.sqrt(2.0 * PI) > 0.0;
    m.exp(-0.5 * x * x) / m.sqrt(2.0 * PI)
  }

  lemma PdfEven(m: Math, x: real)
    requires Lawful(m)
    ensures NormPDF(m, -x) == NormPDF(m, x)
  {
    assert -0.5 * -x * -x == -0.5 * x * x;
  }

  /** How far normCDF(x) + normCDF(-x) is from 1: 1e-9 at 0, nothing elsewhere. */
  function SymmetryGap(x: real): real {
    if x == 0.0 then 0.000000001 else 0.0
  }

  /** The two calls normCDF(x) and normCDF(-x) share t and y and differ only
      in their sign, so their sum is exactly 1 for every x other than 0,
      whatever `exp` returns. At x == 0 both take sign 1 and the sum is
      1 + y(0), which is 1 + 1e-9 because a1 + ... + a5 == 0.999999999. */
  lemma CdfSymmetry(m: Math, x: real)
    requires Lawful(m)
    ensures NormCDF(m, x) + NormCDF(m, -x) == 1.0 + SymmetryGap(x)
  {
    if x == 0.0 {
      CdfAtZero(m);
    } else {
      ScaledEven(m, x);
      var s, y := Sign(x), Tail(m, Scaled(m, x));
      assert Sign(-x) == -s;
      assert 0.5 * (1.0 + s * y) + 0.5 * (1.0 + -s * y) == 1.0;
    }
  }

  /** The scaled argument, and hence t and y, is the same for x and -x. */
  lemma ScaledEven(m: Math, x: real)
    requires Lawful(m)
    ensures Scaled(m, -x) == Scaled(m, x)
  {
    assert Abs(-x) == Abs(x);
  }

  /** normCDF(0) is 0.5 + 5e-10, not 0.5. */
  lemma CdfAtZero(m: Math)
    requires Lawful(m)
    ensures NormCDF(m, 0.0) == 0.5000000005
  {
    assert Scaled(m, 0.0) == 0.0;
    assert TVar(0.0) == 1.0;
    assert Poly(1.0) == 0.999999999;
    assert -0.0 * 0.0 == 0.0;
    assert Tail(m, 0.0) == 0.000000001;
  }

  /** The polynomial stays positive on the range of t. The cubic factor
      a3 + a4*t + a5*t*t is at least 9/10, so the polynomial divided by t is
      at least a1 + a2*t + (9/10)*t*t, a quadratic with no real root. */
  lemma PolyPositive(t: real)
    requires 0.0 < t <= 1.0
    ensures Poly(t) > 0.0
  {
    var q := A3 + A4 * t + A5 * t * t;
    var s := t + A4 / (2.0 * A5);
    assert q == A5 * (s * s) + (A3 - A4 * A4 / (4.0 * A5));
    assert s * s >= 0.0;
    assert q >= 0.9;
    var w := t + A2 / 1.8;
    assert A1 + A2 * t + 0.9 * t * t == 0.9 * (w * w) + (A1 - A2 * A2 / 3.6);
    assert w * w >= 0.0;
    assert A1 + A2 * t + 0.9 * t * t > 0.0;
    assert t * t * q >= t * t * 0.9 by {
      assert t * t >= 0.0;
      assert t * t * (q - 0.9) >= 0.0;
    }
    var inner := A1 + A2 * t + t * t * q;
    assert inner > 0.0;
    assert Poly(t) == t * inner;
    assert t * inner > 0.0;
  }

  /** For x > 0, normCDF(-x) == poly(t)*exp(-u*u)/2, which is positive. */
  lemma CdfOfNegativePositive(m: Math, x: real)
    requires Lawful(m) && x > 0.0
    ensures NormCDF(m, -x) > 0.0
  {
    var u := Scaled(m, -x);
    var e := m.exp(-u * u);
    PolyPositive(TVar(u));
    assert e > 0.0;
    assert Poly(TVar(u)) * e > 0.0;
    assert NormCDF(m, -x) == 0.5 * (1.0 - Tail(m, u));
  }

  /** The numeric environment of the pricing code: the `Math` record and the
      `normCDF` closure that `blackScholes` and `POST` each define locally.
      The two copies are one function, NormCDF; the closure is a second name
      for it, kept so that pricing proofs never unfold NormCDF's body, which
      keeps them cheap. Members that price take one and rely on `Valid`,
      which pins the closure to NormCDF, through the lemmas below. */
  datatype Env = Env(math: Math, cdf: real -> real)

  ghost predicate Valid(e: Env) {
    && Lawful(e.math)
    && forall x {:trigger NormCDF(e.math, x)} :: e.cdf(x) == NormCDF(e.math, x)
  }

  /** The environment whose closure is NormCDF itself: every lawful `Math`
      record has a valid environment. */
  function Standard(m: Math): (e: Env)
    requires Lawful(m)
    ensures Valid(e) && e.math == m
  {
    Env(m, x => NormCDF(m, x))
  }

  /** CdfSymmetry, for the closure of a valid environment. */
  lemma ClosureSymmetry(e: Env, x: real)
    requires Valid(e)
    ensures e.cdf(x) + e.cdf(-x) == 1.0 + SymmetryGap(x)
  {
    assert e.cdf(x) == NormCDF(e.math, x);
    assert e.cdf(-x) == NormCDF(e.math, -x);
    CdfSymmetry(e.math, x);
  }

  /** CdfOfNegativePositive, for the closure of a valid environment. */
  lemma ClosureOfNegativePositive(e: Env, x: real)
    requires Valid(e) && x > 0.0
    ensures e.cdf(-x) > 0.0
  {
    assert e.cdf(-x) == NormCDF(e.math, -x);
    CdfOfNegativePositive(e.math, x);
  }
}
