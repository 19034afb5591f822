/**
  The Black-Scholes price of a European option, its intrinsic value and the
  five Greeks that the pricing endpoint reports, over exact reals. Every
  member takes the numeric environment `e` of module NormalDist: `e.math`
  for `Math.log`, `Math.exp` and `Math.sqrt`, and `e.cdf` for the local
  `normCDF` closure, which `Valid(e)` makes equal to NormalDist.NormCDF.
 */
module Pricing {
  import opened JsMath
  import opened NormalDist

  /** The two kinds of option. */
  datatype OptionType = Call | Put

  /** The endpoint compares `option_type === 'call'` and treats every other
      string as a put. */
  function ParseOptionType(s: string): (t: OptionType)
    ensures t.Call? <==> s == "call"
  {
    if s == "call" then Call else Put
  }

  /** The parameters of one pricing call. */
  datatype Params = Params(S: real, K: real, T: real, r: real, sigma: real, optionType: OptionType)

  /** The divisions of the formula are defined: `S / K` and the division by
      `sigma * sqrt(T)`. */
  ghost predicate Priceable(e: Env, K: real, T: real, sigma: real) {
    Valid(e) && K != 0.0 && sigma * e.math.sqrt(T) != 0.0
  }

  /** The same for the Greeks, which also divide by `S * sigma * sqrt(T)`. */
  ghost predicate GreeksDefined(e: Env, p: Params) {
    Priceable(e, p.K, p.T, p.sigma) && p.S != 0.0
  }

  /** `d1 = (log(S/K) + (r + sigma^2/2) * T) / (sigma * sqrt(T))`. */
  function D1(e: Env, S: real, K: real, T: real, r: real, sigma: real): real
    requires Priceable(e, K, T, sigma)
  {
    (e.math.log(S / K) + (r + 0.5 * sigma * sigma) * T) / (sigma * e.math.sqrt(T))
  }

  /** `d2 = d1 - sigma * sqrt(T)`. */
  function D2(e: Env, S: real, K: real, T: real, r: real, sigma: real): real
    requires Priceable(e, K, T, sigma)
  {
    D1(e, S, K, T, r, sigma) - sigma * e.math.sqrt(T)
  }

  /** The discount factor `Math.exp(-r * T)`. */
  function Discount(e: Env, r: real, T: real): (f: real)
    requires Valid(e)
    ensures f > 0.0
  {
    e.math.exp(-r * T)
  }

  /** The present value of the strike, `K * Math.exp(-r * T)`. */
  function StrikeValue(e: Env, K: real, T: real, r: real): (v: real)
    requires Valid(e)
    ensures K > 0.0 ==> v > 0.0
  {
    K * Discount(e, r, T)
  }

  /** One term of the price: `weight * normCDF(d)` for a call and
      `weight * normCDF(-d)` for a put. */
  function Leg(e: Env, weight: real, d: real, optionType: OptionType): real {
    weight * e.cdf(if optionType.Call? then d else -d)
  }

  /** `blackScholes`: S*N(d1) - K*exp(-rT)*N(d2) for a call,
      K*exp(-rT)*N(-d2) - S*N(-d1) for a put. */
  function BlackScholes(e: Env, S: real, K: real, T: real, r: real, sigma: real, optionType: OptionType): real
    requires Priceable(e, K, T, sigma)
  {
    if optionType.Call? then
      Leg(e, S, D1(e, S, K, T, r, sigma), Call) - Leg(e, StrikeValue(e, K, T, r), D2(e, S, K, T, r, sigma), Call)
    else
      Leg(e, StrikeValue(e, K, T, r), D2(e, S, K, T, r, sigma), Put) - Leg(e, S, D1(e, S, K, T, r, sigma), Put)
  }

  /** A call leg and the matching put leg add up to the weight, up to the
      approximation's gap at 0. */
  lemma LegParity(e: Env, w: real, d: real)
    requires Valid(e)
    ensures Leg(e, w, d, Call) + Leg(e, w, d, Put) == w + w * SymmetryGap(d)
  {
    ClosureSymmetry(e, d);
    assert w * e.cdf(d) + w * e.cdf(-d) == w * (e.cdf(d) + e.cdf(-d));
  }

  /** Put-call parity of the prices, exactly as the approximation gives it:
      call - put == S - K*exp(-rT), plus the tiny error the approximation
      makes when d1 or d2 is exactly 0. */
  lemma PutCallParity(e: Env, S: real, K: real, T: real, r: real, sigma: real)
    requires Priceable(e, K, T, sigma)
    ensures BlackScholes(e, S, K, T, r, sigma, Call) - BlackScholes(e, S, K, T, r, sigma, Put)
      == S - StrikeValue(e, K, T, r)
         + S * SymmetryGap(D1(e, S, K, T, r, sigma))
         - StrikeValue(e, K, T, r) * SymmetryGap(D2(e, S, K, T, r, sigma))
  {
    LegParity(e, S, D1(e, S, K, T, r, sigma));
    LegParity(e, StrikeValue(e, K, T, r), D2(e, S, K, T, r, sigma));
  }

  /** With d1 and d2 non-zero, parity holds exactly. */
  lemma PutCallParityExact(e: Env, S: real, K: real, T: real, r: real, sigma: real)
    requires Priceable(e, K, T, sigma)
    requires D1(e, S, K, T, r, sigma) != 0.0 && D2(e, S, K, T, r, sigma) != 0.0
    ensures BlackScholes(e, S, K, T, r, sigma, Call) - BlackScholes(e, S, K, T, r, sigma, Put)
      == S - K * e.math.exp(-r * T)
  {
    PutCallParity(e, S, K, T, r, sigma);
  }

  /** The payoff on immediate exercise, `Math.max(0, S - K)` for a call and
      `Math.max(0, K - S)` for a put: never negative, and the payoff whenever
      the payoff is positive. */
  function Intrinsic(S: real, K: real, optionType: OptionType): (v: real)
    ensures v >= 0.0
    ensures var payoff := if optionType.Call? then S - K else K - S;
      v >= payoff && (v == 0.0 || v == payoff)
  {
    if optionType.Call? then Max(0.0, S - K) else Max(0.0, K - S)
  }

  /** The intrinsic values obey the parity the prices obey. */
  lemma IntrinsicParity(S: real, K: real)
    ensures Intrinsic(S, K, Call) - Intrinsic(S, K, Put) == S - K
  {
  }

  /** The five sensitivities the endpoint reports. */
  datatype Greeks = Greeks(delta: real, gamma: real, theta: real, vega: real, rho: real)

  /** `delta = normCDF(d1)` for a call, `normCDF(d1) - 1` for a put. */
  function Delta(e: Env, p: Params): real
    requires GreeksDefined(e, p)
  {
    if p.optionType.Call? then e.cdf(D1(e, p.S, p.K, p.T, p.r, p.sigma))
    else e.cdf(D1(e, p.S, p.K, p.T, p.r, p.sigma)) - 1.0
  }

  /** `normPDF(d1)`, shared by gamma, theta and vega. */
  function Density(e: Env, p: Params): (d: real)
    requires GreeksDefined(e, p)
    ensures d > 0.0
  {
    NormPDF(e.math, D1(e, p.S, p.K, p.T, p.r, p.sigma))
  }

  /** `gamma = normPDF(d1) / (S * sigma * sqrt(T))`, one formula for both types. */
  function Gamma(e: Env, p: Params): real
    requires GreeksDefined(e, p)
  {
    assert p.S * (p.sigma * e.math.sqrt(p.T)) != 0.0;
    Density(e, p) / (p.S * p.sigma * e.math.sqrt(p.T))
  }

  /** `vega = S * normPDF(d1) * sqrt(T)`, one formula for both types. */
  function Vega(e: Env, p: Params): real
    requires GreeksDefined(e, p)
  {
    p.S * Density(e, p) * e.math.sqrt(p.T)
  }

  /** The weight K*T*exp(-rT) of rho. */
  function RhoWeight(e: Env, p: Params): real
    requires Valid(e)
  {
    p.K * p.T * Discount(e, p.r, p.T)
  }

  /** `rho = K*T*exp(-rT)*normCDF(d2)` for a call,
      `-K*T*exp(-rT)*normCDF(-d2)` for a put. */
  function Rho(e: Env, p: Params): real
    requires GreeksDefined(e, p)
  {
    if p.optionType.Call? then Leg(e, RhoWeight(e, p), D2(e, p.S, p.K, p.T, p.r, p.sigma), Call)
    else -Leg(e, RhoWeight(e, p), D2(e, p.S, p.K, p.T, p.r, p.sigma), Put)
  }

  /** The time-decay term shared by both option types,
      -(S*normPDF(d1)*sigma) / (2*sqrt(T)). */
  function ThetaDecay(e: Env, p: Params): real
    requires GreeksDefined(e, p)
  {
    assert e.math.sqrt(p.T) != 0.0;
    -(p.S * Density(e, p) * p.sigma) / (2.0 * e.math.sqrt(p.T))
  }

  /** The weight r*K*exp(-rT) of the carry term of theta. */
  function CarryWeight(e: Env, p: Params): real
    requires Valid(e)
  {
    p.r * p.K * Discount(e, p.r, p.T)
  }

  /** The carry term r*K*exp(-rT)*normCDF(d2) for a call and
      r*K*exp(-rT)*normCDF(-d2) for a put. */
  function Carry(e: Env, p: Params): real
    requires GreeksDefined(e, p)
  {
    Leg(e, CarryWeight(e, p), D2(e, p.S, p.K, p.T, p.r, p.sigma), p.optionType)
  }

  /** Theta as the endpoint computes it: the decay term minus the carry term,
      for both option types. */
  function ThetaAsWritten(e: Env, p: Params): real
    requires GreeksDefined(e, p)
  {
    ThetaDecay(e, p) - Carry(e, p)
  }

  /** Theta with the put's carry term added rather than subtracted, as the
      Black-Scholes put theta has it. */
  function Theta(e: Env, p: Params): real
    requires GreeksDefined(e, p)
  {
    if p.optionType.Call? then ThetaDecay(e, p) - Carry(e, p) else ThetaDecay(e, p) + Carry(e, p)
  }

  /** The Greeks as the endpoint reports them, with theta as it computes it. */
  function GreeksOf(e: Env, p: Params): Greeks
    requires GreeksDefined(e, p)
  {
    Greeks(Delta(e, p), Gamma(e, p), ThetaAsWritten(e, p), Vega(e, p), Rho(e, p))
  }

  /** The call delta exceeds the put delta by exactly 1. */
  lemma DeltaOffset(e: Env, p: Params)
    requires GreeksDefined(e, p)
    ensures Delta(e, p.(optionType := Call)) - Delta(e, p.(optionType := Put)) == 1.0
  {
    var pc, pp := p.(optionType := Call), p.(optionType := Put);
    assert D1(e, pc.S, pc.K, pc.T, pc.r, pc.sigma) == D1(e, pp.S, pp.K, pp.T, pp.r, pp.sigma);
  }

  /** Gamma does not depend on the option type. */
  lemma GammaTypeFree(e: Env, p: Params)
    requires GreeksDefined(e, p)
    ensures Gamma(e, p.(optionType := Call)) == Gamma(e, p.(optionType := Put))
  {
    assert Density(e, p.(optionType := Call)) == Density(e, p.(optionType := Put));
  }

  /** Vega does not depend on the option type. */
  lemma VegaTypeFree(e: Env, p: Params)
    requires GreeksDefined(e, p)
    ensures Vega(e, p.(optionType := Call)) == Vega(e, p.(optionType := Put))
  {
    assert Density(e, p.(optionType := Call)) == Density(e, p.(optionType := Put));
  }

  /** The same three relations, on the reported Greeks. */
  lemma GreeksTypeRelations(e: Env, p: Params)
    requires GreeksDefined(e, p)
    ensures var c, q := GreeksOf(e, p.(optionType := Call)), GreeksOf(e, p.(optionType := Put));
      c.delta - q.delta == 1.0 && c.gamma == q.gamma && c.vega == q.vega
  {
    DeltaOffset(e, p);
    GammaTypeFree(e, p);
    VegaTypeFree(e, p);
  }

  /** Rho obeys the derivative of put-call parity with respect to r:
      rho_call - rho_put == K*T*exp(-rT) when d2 is non-zero. */
  lemma RhoParity(e: Env, p: Params)
    requires GreeksDefined(e, p)
    requires D2(e, p.S, p.K, p.T, p.r, p.sigma) != 0.0
    ensures Rho(e, p.(optionType := Call)) - Rho(e, p.(optionType := Put))
      == p.K * p.T * Discount(e, p.r, p.T)
  {
    LegParity(e, RhoWeight(e, p), D2(e, p.S, p.K, p.T, p.r, p.sigma));
  }

  /** With the corrected put theta, theta obeys the derivative of put-call
      parity with respect to time: theta_call - theta_put == -r*K*exp(-rT)
      when d2 is non-zero. */
  lemma ThetaParity(e: Env, p: Params)
    requires GreeksDefined(e, p)
    requires D2(e, p.S, p.K, p.T, p.r, p.sigma) != 0.0
    ensures Theta(e, p.(optionType := Call)) - Theta(e, p.(optionType := Put))
      == -CarryWeight(e, p)
  {
    var pc, pp := p.(optionType := Call), p.(optionType := Put);
    assert ThetaDecay(e, pc) == ThetaDecay(e, pp) by {
      assert Density(e, pc) == Density(e, pp);
    }
    LegParity(e, CarryWeight(e, p), D2(e, p.S, p.K, p.T, p.r, p.sigma));
  }

  /** As written, the two thetas differ by -r*K*exp(-rT) plus twice the put's
      carry term r*K*exp(-rT)*normCDF(-d2), when d2 is non-zero. */
  lemma ThetaAsWrittenParityGap(e: Env, p: Params)
    requires GreeksDefined(e, p)
    requires D2(e, p.S, p.K, p.T, p.r, p.sigma) != 0.0
    ensures ThetaAsWritten(e, p.(optionType := Call)) - ThetaAsWritten(e, p.(optionType := Put))
      == -CarryWeight(e, p) + 2.0 * Leg(e, CarryWeight(e, p), D2(e, p.S, p.K, p.T, p.r, p.sigma), Put)
  {
    var pc, pp := p.(optionType := Call), p.(optionType := Put);
    assert ThetaDecay(e, pc) == ThetaDecay(e, pp) by {
      assert Density(e, pc) == Density(e, pp);
    }
    LegParity(e, CarryWeight(e, p), D2(e, p.S, p.K, p.T, p.r, p.sigma));
  }

  /** The put theta as written breaks that parity for every parameter set
      with r != 0 and d2 > 0, because the put's carry term is non-zero there. */
  lemma ThetaAsWrittenBreaksParity(e: Env, p: Params)
    requires GreeksDefined(e, p)
    requires p.r != 0.0 && D2(e, p.S, p.K, p.T, p.r, p.sigma) > 0.0
    ensures ThetaAsWritten(e, p.(optionType := Call)) - ThetaAsWritten(e, p.(optionType := Put))
      != -CarryWeight(e, p)
  {
    ThetaAsWrittenParityGap(e, p);
    PutLegNonZero(e, CarryWeight(e, p), D2(e, p.S, p.K, p.T, p.r, p.sigma));
  }

  /** A put leg with a non-zero weight and d > 0 is non-zero. */
  lemma PutLegNonZero(e: Env, w: real, d: real)
    requires Valid(e) && w != 0.0 && d > 0.0
    ensures Leg(e, w, d, Put) != 0.0
  {
    ClosureOfNegativePositive(e, d);
  }

  /** The correction changes the put theta only, by twice its carry term. */
  lemma ThetaCorrectionOnlyAffectsPuts(e: Env, p: Params)
    requires GreeksDefined(e, p)
    ensures p.optionType.Call? ==> Theta(e, p) == ThetaAsWritten(e, p)
    ensures p.optionType.Put? ==>
      Theta(e, p) - ThetaAsWritten(e, p) == 2.0 * CarryWeight(e, p) * e.cdf(-D2(e, p.S, p.K, p.T, p.r, p.sigma))
  {
  }

  /** With positive S, sigma and T, gamma and vega are positive. */
  lemma GammaVegaPositive(e: Env, p: Params)
    requires GreeksDefined(e, p)
    requires p.S > 0.0 && p.sigma > 0.0 && p.T > 0.0
    ensures Gamma(e, p) > 0.0 && Vega(e, p) > 0.0
  {
    var d := Density(e, p);
    var sq := e.math.sqrt(p.T);
    assert sq > 0.0;
    assert p.S * p.sigma * sq > 0.0;
    assert p.S * d > 0.0;
  }
}
