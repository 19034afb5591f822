# Black-Scholes pricing endpoint, modelled in Dafny

This project models the pricing endpoint of the Black-Scholes option
calculator, `black-scholes-frontend/src/app/api/black-scholes/route.ts`.
A `POST` request carries `S`, `K`, `T`, `r`, `sigma` and `option_type`. The
handler validates them with two checks that return early. It then prices a
European call or put with the Black-Scholes formula and computes the Greeks
delta, gamma, theta, vega and rho. Last, it sweeps the stock price across
max(1, 0.6*S) .. 1.4*S in twenty steps, rounding each point to cents.

Everything is over exact reals. `Math.log`, `Math.exp` and `Math.sqrt` are
not evaluated. They are the fields of a `JsMath.Math` record, and the proofs
use only what `JsMath.Lawful` says about them:

- the square root of a positive number is positive;
- `exp` is positive;
- `exp(0) == 1`.

The files follow the source:

- `js_math.dfy` (module `JsMath`): the `Math` record, `Math.abs`,
  `Math.max`, and `Math.round` (halves round towards +infinity). It also
  has cent rounding, `Math.round(v * 100) / 100`.
- `normal_dist.dfy` (module `NormalDist`): the `normPDF` function and the
  `normCDF` approximation, formula 7.1.26 of Abramowitz and Stegun, its
  polynomial nested as in the source, with a sign trick. The source has two copies of `normCDF`, one local
  to `blackScholes` (lines 18-33) and one local to `POST` (lines 100-115).
  They are identical text, and both are `NormCDF`. An `Env` bundles the
  `Math` record with the `normCDF` closure. `Valid(e)` makes that closure
  equal to `NormCDF`, and `Standard(m)` builds one for every lawful `m`.
- `pricing.dfy` (module `Pricing`): `d1`, `d2`, `blackScholes`, the
  intrinsic value and the five Greeks. All are pure functions of the
  parameters, with put-call parity and its consequences as lemmas.
- `sensitivity.dfy` (module `Sensitivity`): `generateSensitivityData`.
  - `SensitivityData` is the specification function.
  - `GenerateSensitivityData` is the loop as written. It accumulates
    `price += step` and appends to `data`.
  - `GenerateSensitivityDataBounded` counts its iterations instead.
- `route.dfy` (module `Route`): the two checks of `POST`, the result it
  assembles (`Post`), and a step-by-step `HandlePost` that calls the sweep
  method.

Two consequences of the validation code:

- `!body.sigma` is true for 0, so `sigma == 0` is rejected as missing and
  never reaches the range check's `sigma < 0`
  (`Route.ZeroVolatilityRejected`).
- `!body.r` is true for 0, so a zero interest rate is rejected as missing
  too (`Route.ZeroRateRejected`).

The handler reports theta as the code computes it (`Pricing.ThetaAsWritten`);
the put theta that code gets wrong is discussed under Findings.

## Model

| member | source | states |
|---|---|---|
| JsMath.Abs | black-scholes-frontend/src/app/api/black-scholes/route.ts:27 | `Math.abs(x)` is non-negative and is x or -x |
| JsMath.Max | black-scholes-frontend/src/app/api/black-scholes/route.ts:47 | `Math.max(a, b)` is at least both and is one of them |
| JsMath.Round | black-scholes-frontend/src/app/api/black-scholes/route.ts:55-58 | `Math.round(x)` is an integer in (x - 1/2, x + 1/2] |
| JsMath.RoundUnique | black-scholes-frontend/src/app/api/black-scholes/route.ts:55-58 | that interval holds one integer only, so the contract of Round determines it |
| JsMath.RoundMonotone | black-scholes-frontend/src/app/api/black-scholes/route.ts:55-58 | rounding never reverses the order of two values |
| JsMath.RoundCents | black-scholes-frontend/src/app/api/black-scholes/route.ts:55-58 | `Math.round(v*100)/100` is within half a cent of v |
| JsMath.RoundCentsOfCents | black-scholes-frontend/src/app/api/black-scholes/route.ts:55-58 | a whole number of cents is left unchanged |
| JsMath.RoundCentsIdempotent | black-scholes-frontend/src/app/api/black-scholes/route.ts:55-58 | rounding to cents twice is rounding once |
| JsMath.RoundCentsMonotone | black-scholes-frontend/src/app/api/black-scholes/route.ts:55-58 | rounding to cents keeps the order of values |
| JsMath.RoundCentsNonNegative | black-scholes-frontend/src/app/api/black-scholes/route.ts:57 | a non-negative value rounds to a non-negative number of cents |
| JsMath.RoundCentsOfSum | black-scholes-frontend/src/app/api/black-scholes/route.ts:56-58 | if a == b + c, the rounded b and c add up to the rounded a within one cent |
| NormalDist.Scaled | black-scholes-frontend/src/app/api/black-scholes/route.ts:27 | `Math.abs(x) / Math.sqrt(2)` is non-negative |
| NormalDist.TVar | black-scholes-frontend/src/app/api/black-scholes/route.ts:29 | `t = 1 / (1 + p*x)` lies in (0, 1] for x >= 0 |
| NormalDist.NormPDF | black-scholes-frontend/src/app/api/black-scholes/route.ts:95-97 | the density is positive |
| NormalDist.PdfEven | black-scholes-frontend/src/app/api/black-scholes/route.ts:95-97 | the density is even |
| NormalDist.ScaledEven | black-scholes-frontend/src/app/api/black-scholes/route.ts:27 | x and -x scale to the same argument, so they share t and y |
| NormalDist.CdfSymmetry | black-scholes-frontend/src/app/api/black-scholes/route.ts:26-32 | normCDF(x) + normCDF(-x) is exactly 1 for x != 0, whatever exp returns; at 0 it is 1 + 1e-9 because both calls take sign 1 |
| NormalDist.CdfAtZero | black-scholes-frontend/src/app/api/black-scholes/route.ts:26-32 | normCDF(0) == 0.5000000005, since a1 + ... + a5 == 0.999999999 |
| NormalDist.PolyPositive | black-scholes-frontend/src/app/api/black-scholes/route.ts:30 | the polynomial of line 30 is positive for t in (0, 1] |
| NormalDist.CdfOfNegativePositive | black-scholes-frontend/src/app/api/black-scholes/route.ts:26-32 | normCDF(-x) > 0 for x > 0 |
| NormalDist.Standard | black-scholes-frontend/src/app/api/black-scholes/route.ts:18-33 | every lawful Math record has a valid environment whose closure is normCDF |
| NormalDist.ClosureSymmetry | black-scholes-frontend/src/app/api/black-scholes/route.ts:100-115 | CdfSymmetry, for the closure of a valid environment |
| NormalDist.ClosureOfNegativePositive | black-scholes-frontend/src/app/api/black-scholes/route.ts:100-115 | CdfOfNegativePositive, for the closure of a valid environment |
| Pricing.ParseOptionType | black-scholes-frontend/src/app/api/black-scholes/route.ts:35 | a call exactly when the string is "call"; every other string prices a put |
| Pricing.Discount | black-scholes-frontend/src/app/api/black-scholes/route.ts:36 | exp(-r*T) is positive |
| Pricing.StrikeValue | black-scholes-frontend/src/app/api/black-scholes/route.ts:36 | K*exp(-r*T) is positive for K > 0 |
| Pricing.LegParity | black-scholes-frontend/src/app/api/black-scholes/route.ts:35-39 | w*N(d) + w*N(-d) == w, plus w*1e-9 at d == 0 |
| Pricing.PutCallParity | black-scholes-frontend/src/app/api/black-scholes/route.ts:12-40 | call - put == S - K*exp(-rT) for all inputs, plus the approximation's gap when d1 or d2 is exactly 0 |
| Pricing.PutCallParityExact | black-scholes-frontend/src/app/api/black-scholes/route.ts:12-40 | call - put == S - K*exp(-rT) exactly when d1 != 0 and d2 != 0 |
| Pricing.Intrinsic | black-scholes-frontend/src/app/api/black-scholes/route.ts:126 | the intrinsic value is non-negative, at least the payoff, and equal to it or to 0 |
| Pricing.IntrinsicParity | black-scholes-frontend/src/app/api/black-scholes/route.ts:126 | call intrinsic - put intrinsic == S - K |
| Pricing.Density | black-scholes-frontend/src/app/api/black-scholes/route.ts:118-121 | normPDF(d1) is positive |
| Pricing.DeltaOffset | black-scholes-frontend/src/app/api/black-scholes/route.ts:117 | delta_call - delta_put == 1 |
| Pricing.GammaTypeFree | black-scholes-frontend/src/app/api/black-scholes/route.ts:118 | gamma does not depend on the option type |
| Pricing.VegaTypeFree | black-scholes-frontend/src/app/api/black-scholes/route.ts:121 | vega does not depend on the option type |
| Pricing.GreeksTypeRelations | black-scholes-frontend/src/app/api/black-scholes/route.ts:117-122 | the same three relations, on the reported Greeks |
| Pricing.GammaVegaPositive | black-scholes-frontend/src/app/api/black-scholes/route.ts:118-121 | gamma and vega are positive for S, sigma, T > 0 |
| Pricing.RhoParity | black-scholes-frontend/src/app/api/black-scholes/route.ts:122 | rho_call - rho_put == K*T*exp(-rT) for d2 != 0 |
| Pricing.ThetaParity | black-scholes-frontend/src/app/api/black-scholes/route.ts:119-120 | corrected theta: theta_call - theta_put == -r*K*exp(-rT) for d2 != 0 |
| Pricing.ThetaAsWrittenParityGap | black-scholes-frontend/src/app/api/black-scholes/route.ts:119-120 | theta as written: the difference is off by 2*r*K*exp(-rT)*N(-d2) |
| Pricing.ThetaAsWrittenBreaksParity | black-scholes-frontend/src/app/api/black-scholes/route.ts:119-120 | theta as written violates that parity whenever r != 0 and d2 > 0 |
| Pricing.PutLegNonZero | black-scholes-frontend/src/app/api/black-scholes/route.ts:120 | w*N(-d) != 0 for w != 0 and d > 0 |
| Pricing.ThetaCorrectionOnlyAffectsPuts | black-scholes-frontend/src/app/api/black-scholes/route.ts:119-120 | the correction leaves the call theta alone and moves the put theta by 2*r*K*exp(-rT)*N(-d2) |
| Sensitivity.MinPrice | black-scholes-frontend/src/app/api/black-scholes/route.ts:47 | minPrice is at least 1 and at least 0.6*S, and is one of them |
| Sensitivity.PriceAfterIsSamplePrice | black-scholes-frontend/src/app/api/black-scholes/route.ts:51 | after k steps of `price += step`, price == minPrice + k*step |
| Sensitivity.RawPoint | black-scholes-frontend/src/app/api/black-scholes/route.ts:52-53 | before rounding, intrinsic >= 0 and intrinsic + time == price |
| Sensitivity.Rounded | black-scholes-frontend/src/app/api/black-scholes/route.ts:54-59 | every rounded field is within half a cent of its raw value |
| Sensitivity.RoundedRawPoint | black-scholes-frontend/src/app/api/black-scholes/route.ts:55-58 | the rounded intrinsic value is >= 0, and rounded intrinsic + time is the rounded price within one cent |
| Sensitivity.RangeNonEmptyIff | black-scholes-frontend/src/app/api/black-scholes/route.ts:47-48 | minPrice <= maxPrice exactly when S >= 5/7 |
| Sensitivity.StepSign | black-scholes-frontend/src/app/api/black-scholes/route.ts:49 | step == 0 exactly when S == 5/7, and step > 0 exactly when S > 5/7 |
| Sensitivity.DataLength | black-scholes-frontend/src/app/api/black-scholes/route.ts:47-51 | the sweep has 21 points when S > 5/7 and none when S < 5/7; at S == 5/7 it has the stopping sweep's 21 points at price 1 |
| Sensitivity.DataAt | black-scholes-frontend/src/app/api/black-scholes/route.ts:51-59 | point i is the rounded point at minPrice + i*step |
| Sensitivity.DataStockPrice | black-scholes-frontend/src/app/api/black-scholes/route.ts:55 | the i-th reported stock price is the i-th sample price rounded to cents |
| Sensitivity.SamplePricesIncrease | black-scholes-frontend/src/app/api/black-scholes/route.ts:49-51 | with a positive step, the sample prices strictly increase |
| Sensitivity.SamplePricesMonotone | black-scholes-frontend/src/app/api/black-scholes/route.ts:49-51 | on a non-empty range, the sample prices never decrease |
| Sensitivity.SamplePricesInRange | black-scholes-frontend/src/app/api/black-scholes/route.ts:47-51 | samples 0..20 lie in [minPrice, maxPrice]; the first is minPrice and the last is maxPrice |
| Sensitivity.SweepTest | black-scholes-frontend/src/app/api/black-scholes/route.ts:51 | with a positive step, `price <= maxPrice` holds after k steps exactly when k <= 20 |
| Sensitivity.StalledSweepNeverExits | black-scholes-frontend/src/app/api/black-scholes/route.ts:49-51 | at S == 5/7 the step is 0 and the loop test holds after every number of steps |
| Sensitivity.DataStockPrices | black-scholes-frontend/src/app/api/black-scholes/route.ts:51-55 | reported stock prices never decrease, and each is within half a cent of its sample price |
| Sensitivity.GenerateSensitivityData | black-scholes-frontend/src/app/api/black-scholes/route.ts:42-63 | the loop as written returns SensitivityData when the step is non-zero |
| Sensitivity.GenerateSensitivityDataBounded | black-scholes-frontend/src/app/api/black-scholes/route.ts:42-63 | the counted loop returns SensitivityData for every S |
| Route.Validate | black-scholes-frontend/src/app/api/black-scholes/route.ts:70-82 | "missing" exactly when a field is falsy; "invalid" exactly when none is falsy but S, K or T is <= 0 or sigma < 0; otherwise the parameters |
| Route.AcceptedIff | black-scholes-frontend/src/app/api/black-scholes/route.ts:70-82 | accepted exactly when S, K, T and sigma are > 0, r != 0 and option_type is non-empty |
| Route.AcceptedIsDefined | black-scholes-frontend/src/app/api/black-scholes/route.ts:77-92 | accepted parameters make the divisions in d1, gamma and theta defined |
| Route.PostRejects | black-scholes-frontend/src/app/api/black-scholes/route.ts:70-82 | a rejection is status 400 with the message of the first failing check |
| Route.PricedValues | black-scholes-frontend/src/app/api/black-scholes/route.ts:124-127 | the result's intrinsic value is >= 0 and intrinsic + time == price |
| Route.PostAccepted | black-scholes-frontend/src/app/api/black-scholes/route.ts:84-136 | an accepted request gets a result with gamma > 0, vega > 0 and a 21-point sweep for S >= 5/7 (none for S < 5/7) |
| Route.ZeroRateRejected | black-scholes-frontend/src/app/api/black-scholes/route.ts:70 | r == 0 is rejected as missing |
| Route.ZeroVolatilityRejected | black-scholes-frontend/src/app/api/black-scholes/route.ts:70 | sigma == 0 is rejected as missing |
| Route.ZeroSpotRejected | black-scholes-frontend/src/app/api/black-scholes/route.ts:70 | S == 0 with the other fields valid is rejected as missing |
| Route.NegativeVolatilityInvalid | black-scholes-frontend/src/app/api/black-scholes/route.ts:77 | sigma == -0.1 with the other fields valid is rejected as invalid |
| Route.ReportedTheta | black-scholes-frontend/src/app/api/black-scholes/route.ts:119-120 | the reported theta is the Black-Scholes one for a call, and differs from it for every accepted put with d2 > 0 |
| Route.OutOfTheMoneyCall | black-scholes-frontend/src/app/api/black-scholes/route.ts:124-127 | for S=100, K=105: intrinsic value 0, and time value equal to the price |
| Route.HandlePost | black-scholes-frontend/src/app/api/black-scholes/route.ts:65-138 | the handler as statements, with the sweep method, answers what Post specifies, with the counted sweep |

## Left out

- Floating point. The model uses exact reals, so it has no rounding of
  intermediate results and no NaN or Infinity. In doubles, the sweep's
  accumulated `price` can overshoot `maxPrice`, which may give 20 points
  instead of 21. The model's 21 is a fact about reals.
- Values of `Math.log`, `Math.exp` and `Math.sqrt`. They are uninterpreted
  beyond `Lawful`, so no numeric price or Greek is derived. The
  concrete-looking scenario lemmas state only facts that need no such value.
- Division by zero. The source divides unguarded and gets Infinity or NaN.
  The model's pricing functions require the divisors to be non-zero, and
  `Route.AcceptedIsDefined` shows every accepted request meets that.
- A field of the wrong JSON type, such as a string `S` or a boolean
  `sigma`. Also left out: `NaN`, which JSON cannot carry, counting as falsy.
- The HTTP layer, `request.json()`, `NextResponse`, the `try`/`catch`
  500 path and `console.error`.
- Sensitivity.GenerateSensitivityData: requires a non-zero step. At
  S == 5/7 the source loop does not terminate, which Dafny cannot express
  for a method that must terminate. `Sensitivity.StalledSweepNeverExits`
  states that case instead.
- Route.Post: reports theta as written (`Pricing.ThetaAsWritten`). Its
  sweep is `Sensitivity.SensitivityData`, the sweep that stops, so at
  S == 5/7 it answers with 21 points at price 1 where the source loop never
  exits.
- Route.HandlePost: calls `Sensitivity.GenerateSensitivityDataBounded`, the
  counted sweep, so at S == 5/7 it returns 21 points where the source loop
  never exits. Everything else it returns is as the source computes it.
- Route.PostAccepted: its 21 points for S >= 5/7 include S == 5/7, where
  the source never answers, because Post's sweep is
  `Sensitivity.SensitivityData`, the sweep that stops.
- Sensitivity.DataLength: at S == 5/7 it gives the stopping sweep's 21
  points at price 1, where the loop at route.ts:51 never exits. The same
  holds for `Sensitivity.SensitivityData`, which it describes.
- The React UI files and `blackscholes.py`, the numpy/scipy version of the
  formula. They are not part of this model.

## Findings

| source | as written | input that shows it | evidently intended | confidence | as-written member | corrected member |
|---|---|---|---|---|---|---|
| black-scholes-frontend/src/app/api/black-scholes/route.ts:47-51 | the sweep adds `step = (maxPrice - minPrice) / 20` to `price` while `price <= maxPrice` | S = 5/7: minPrice = maxPrice = 1 and step = 0, so price stays 1 and the loop never exits (in exact reals; in doubles 0.7142857142857143 * 1.4 also rounds to 1.0, and at the next double, S = 0.7142857142857144, the step is about 1.11e-17 and `1.0 + step == 1.0`, so price never moves either; the request passes validation) | a sweep that stops for every accepted S, here with 21 points at price 1 | not executed | Sensitivity.StalledSweepNeverExits | Sensitivity.GenerateSensitivityDataBounded |
| black-scholes-frontend/src/app/api/black-scholes/route.ts:119-120 | the put theta subtracts r*K*exp(-rT)*N(-d2), as the call theta subtracts r*K*exp(-rT)*N(d2) | S=100, K=100, T=1, r=0.05, sigma=0.2 (d2 = 0.15 > 0): theta_call - theta_put is not -r*K*exp(-rT) | the Black-Scholes put theta adds r*K*exp(-rT)*N(-d2), so theta_call - theta_put == -r*K*exp(-rT), the time derivative of put-call parity; the handler still reports the theta as written (`Route.ReportedTheta`) | not executed | Pricing.ThetaAsWrittenBreaksParity | Pricing.ThetaParity |
