/**
  The `POST` handler of the pricing endpoint without its HTTP and JSON
  plumbing: two validation checks with early returns, then the price, the
  sensitivity sweep, the Greeks and the intrinsic and time values of the
  result.
 */
module Route {
  import opened JsMath
  import opened NormalDist
  import opened Pricing
  import opened Sensitivity

  datatype Option<T> = None | Some(value: T)

  datatype Result<T, E> = Success(value: T) | Failure(error: E)

  /** The parsed request body: a field may be absent. */
  datatype Request = Request(
    S: Option<real>, K: Option<real>, T: Option<real>, r: Option<real>, sigma: Option<real>,
    optionType: Option<string>)

  /** `!x` for a number field: true when it is absent or 0. */
  predicate Falsy(x: Option<real>) {
    x.None? || x.value == 0.0
  }

  /** `!s` for a string field: true when it is absent or empty. */
  predicate FalsyString(s: Option<string>) {
    s.None? || s.value == ""
  }

  /** The first check: some field is falsy. */
  predicate Missing(req: Request) {
    Falsy(req.S) || Falsy(req.K) || Falsy(req.T) || Falsy(req.r) || Falsy(req.sigma)
    || FalsyString(req.optionType)
  }

  /** The second check, reached only when every field is present: a
      non-positive S, K or T or a negative sigma. */
  predicate OutOfRange(req: Request)
    requires !Missing(req)
  {
    req.S.value <= 0.0 || req.K.value <= 0.0 || req.T.value <= 0.0 || req.sigma.value < 0.0
  }

  /** The two ways a request is turned away. */
  datatype ValidationError = MissingRequiredParameters | InvalidParameterValues

  /** The `error` text of each rejection. */
  function Message(err: ValidationError): string {
    match err
    case MissingRequiredParameters => "Missing required parameters"
    case InvalidParameterValues => "Invalid parameter values"
  }

  /** Both rejections answer with HTTP status 400. */
  const BadRequest: int := 400

  /** Validation: the missing-field check first, then the range check, then
      the parameters, with every option type other than "call" read as a put. */
  function Validate(req: Request): (res: Result<Params, ValidationError>)
    ensures res == Failure(MissingRequiredParameters) <==> Missing(req)
    ensures res == Failure(InvalidParameterValues) <==> !Missing(req) && OutOfRange(req)
    ensures res.Success? ==>
      && !Missing(req) && !OutOfRange(req)
      && res.value == Params(req.S.value, req.K.value, req.T.value, req.r.value, req.sigma.value,
                             ParseOptionType(req.optionType.value))
  {
    if Missing(req) then Failure(MissingRequiredParameters)
    else if OutOfRange(req) then Failure(InvalidParameterValues)
    else Success(Params(req.S.value, req.K.value, req.T.value, req.r.value, req.sigma.value,
                        ParseOptionType(req.optionType.value)))
  }

  /** Validation accepts exactly the requests with S, K, T and sigma all
      positive, r present and non-zero and a non-empty option type. In
      particular sigma == 0, which the range check allows, never gets past the
      first check, and neither does the legitimate rate r == 0. */
  lemma AcceptedIff(req: Request)
    ensures Validate(req).Success? <==>
      && req.S.Some? && req.K.Some? && req.T.Some? && req.r.Some? && req.sigma.Some?
      && req.optionType.Some? && req.optionType.value != ""
      && req.S.value > 0.0 && req.K.value > 0.0 && req.T.value > 0.0 && req.sigma.value > 0.0
      && req.r.value != 0.0
  {
  }

  /** Accepted parameters make every division of the price and the Greeks
      defined: K != 0, sigma*sqrt(T) != 0 and S*sigma*sqrt(T) != 0. */
  lemma AcceptedIsDefined(e: Env, req: Request)
    requires Valid(e) && Validate(req).Success?
    ensures GreeksDefined(e, Validate(req).value)
    ensures var p := Validate(req).value; p.S > 0.0 && p.sigma > 0.0 && p.T > 0.0
  {
    var p := Validate(req).value;
    assert e.math.sqrt(p.T) > 0.0;
    assert p.sigma * e.math.sqrt(p.T) > 0.0;
  }

  /** The body of a successful response. */
  datatype PricingResult = PricingResult(
    optionPrice: real, intrinsicValue: real, timeValue: real, greeks: Greeks,
    sensitivityData: seq<SensitivityPoint>)

  /** What the handler answers: the result, or a status and an error text. */
  datatype Response = Ok(result: PricingResult) | Error(status: int, message: string)

  /** The result for accepted parameters. */
  function Priced(e: Env, p: Params): PricingResult
    requires GreeksDefined(e, p)
  {
    var optionPrice := BlackScholes(e, p.S, p.K, p.T, p.r, p.sigma, p.optionType);
    var intrinsic := Intrinsic(p.S, p.K, p.optionType);
    PricingResult(optionPrice, intrinsic, optionPrice - intrinsic, GreeksOf(e, p), SensitivityData(e, p))
  }

  /** The handler. */
  function Post(e: Env, req: Request): Response
    requires Valid(e)
  {
    match Validate(req)
    case Failure(err) => Error(BadRequest, Message(err))
    case Success(p) =>
      AcceptedIsDefined(e, req);
      Ok(Priced(e, p))
  }

  /** A rejected request gets status 400 and the message of the first check
      that fails; an accepted one gets a result. */
  lemma PostRejects(e: Env, req: Request)
    requires Valid(e)
    ensures Missing(req) ==> Post(e, req) == Error(400, "Missing required parameters")
    ensures !Missing(req) && OutOfRange(req) ==> Post(e, req) == Error(400, "Invalid parameter values")
    ensures Post(e, req).Ok? <==> Validate(req).Success?
  {
  }

  /** The reported intrinsic value is the payoff, never negative, and it adds
      up with the time value to the price. */
  lemma PricedValues(e: Env, p: Params)
    requires GreeksDefined(e, p)
    ensures var res := Priced(e, p);
      && res.optionPrice == BlackScholes(e, p.S, p.K, p.T, p.r, p.sigma, p.optionType)
      && res.intrinsicValue == Intrinsic(p.S, p.K, p.optionType)
      && res.intrinsicValue >= 0.0
      && res.intrinsicValue + res.timeValue == res.optionPrice
  {
  }

  /** For an accepted request: gamma and vega are positive and the sweep has
      twenty-one points exactly when S >= 5/7. */
  lemma PostAccepted(e: Env, req: Request)
    requires Valid(e) && Validate(req).Success?
    ensures Post(e, req).Ok?
    ensures var res, p := Post(e, req).result, Validate(req).value;
      && res == Priced(e, p)
      && res.greeks.gamma > 0.0 && res.greeks.vega > 0.0
      && |res.sensitivityData| == if p.S >= 5.0 / 7.0 then 21 else 0
  {
    var p := Validate(req).value;
    AcceptedIsDefined(e, req);
    GammaVegaPositive(e, p);
    DataLength(e, p);
  }

  /** The reported theta is the corrected one for a call; for a put with
      d2 > 0 it is not, since every accepted request has r != 0. */
  lemma ReportedTheta(e: Env, req: Request)
    requires Valid(e) && Validate(req).Success?
    ensures var p, theta := Validate(req).value, Post(e, req).result.greeks.theta;
      && GreeksDefined(e, p)
      && (p.optionType.Call? ==> theta == Theta(e, p))
      && (p.optionType.Put? && D2(e, p.S, p.K, p.T, p.r, p.sigma) > 0.0 ==> theta != Theta(e, p))
  {
    var p := Validate(req).value;
    AcceptedIsDefined(e, req);
    ThetaCorrectionOnlyAffectsPuts(e, p);
    if p.optionType.Put? && D2(e, p.S, p.K, p.T, p.r, p.sigma) > 0.0 {
      assert CarryWeight(e, p) != 0.0 by {
        assert Discount(e, p.r, p.T) > 0.0;
        assert p.r * p.K != 0.0;
      }
      PutLegNonZero(e, CarryWeight(e, p), D2(e, p.S, p.K, p.T, p.r, p.sigma));
    }
  }

  /** r == 0 is an ordinary rate, yet the falsy check turns it away. */
  lemma ZeroRateRejected(e: Env, S: real, K: real, T: real, sigma: real, optionType: string)
    requires Valid(e)
    ensures Post(e, Request(Some(S), Some(K), Some(T), Some(0.0), Some(sigma), Some(optionType)))
      == Error(400, "Missing required parameters")
  {
  }

  /** sigma == 0 is turned away by the first check, not the second. */
  lemma ZeroVolatilityRejected(e: Env, S: real, K: real, T: real, r: real, optionType: string)
    requires Valid(e)
    ensures Post(e, Request(Some(S), Some(K), Some(T), Some(r), Some(0.0), Some(optionType)))
      == Error(400, "Missing required parameters")
  {
  }

  /** A negative volatility with every other field in range is invalid. */
  lemma NegativeVolatilityInvalid(e: Env)
    requires Valid(e)
    ensures Post(e, Request(Some(100.0), Some(100.0), Some(1.0), Some(0.05), Some(-0.1), Some("call")))
      == Error(400, "Invalid parameter values")
  {
  }

  /** A zero stock price counts as missing. */
  lemma ZeroSpotRejected(e: Env)
    requires Valid(e)
    ensures Post(e, Request(Some(0.0), Some(100.0), Some(1.0), Some(0.05), Some(0.2), Some("call")))
      == Error(400, "Missing required parameters")
  {
  }

  /** An out-of-the-money call, S == 100 below K == 105: its intrinsic value
      is 0 and its time value is its whole price. */
  lemma OutOfTheMoneyCall(e: Env)
    requires Valid(e)
    ensures var res := Post(e, Request(Some(100.0), Some(105.0), Some(0.25), Some(0.05), Some(0.25), Some("call")));
      res.Ok? && res.result.intrinsicValue == 0.0 && res.result.timeValue == res.result.optionPrice
  {
    var req := Request(Some(100.0), Some(105.0), Some(0.25), Some(0.05), Some(0.25), Some("call"));
    PostAccepted(e, req);
    PricedValues(e, Validate(req).value);
  }

  /** The handler step by step, with the sweep that counts its points in
      place of the loop that steps the price (see `Sensitivity`). */
  method HandlePost(e: Env, req: Request) returns (res: Response)
    requires Valid(e)
    ensures res == Post(e, req)
  {
    var v := Validate(req);
    if v.Failure? {
      return Error(BadRequest, Message(v.error));
    }
    var p := v.value;
    AcceptedIsDefined(e, req);
    var optionPrice := BlackScholes(e, p.S, p.K, p.T, p.r, p.sigma, p.optionType);
    var sensitivityData := GenerateSensitivityDataBounded(e, p);
    var greeks := GreeksOf(e, p);
    var intrinsic := Intrinsic(p.S, p.K, p.optionType);
    res := Ok(PricingResult(optionPrice, intrinsic, optionPrice - intrinsic, greeks, sensitivityData));
  }
}
