/**
  The sensitivity sweep `generateSensitivityData`: the option is priced at
  stock prices from max(1, 0.6*S) to 1.4*S in twenty equal steps, and each
  point is rounded to whole cents.

  `SensitivityData` is the specification of the sweep. The method
  `GenerateSensitivityData` is the loop as written, which accumulates the
  stock price and stops once it passes the top of the range; it cannot stop
  when the step is 0. `GenerateSensitivityDataBounded` counts the twenty-one
  points instead and meets the same specification for every S.
 */
module Sensitivity {
  import opened JsMath
  import opened NormalDist
  import opened Pricing

  /** One point of the sweep, as the endpoint reports it. */
  datatype SensitivityPoint = SensitivityPoint(stockPrice: real, optionPrice: real, intrinsicValue: real, timeValue: real)

  /** `minPrice = Math.max(1, S * 0.6)`. */
  function MinPrice(S: real): (v: real)
    ensures v >= 1.0 && v >= 0.6 * S && (v == 1.0 || v == 0.6 * S)
  {
    Max(1.0, S * 0.6)
  }

  /** `maxPrice = S * 1.4`. */
  function MaxPrice(S: real): real {
    S * 1.4
  }

  /** `step = (maxPrice - minPrice) / 20`. */
  function Step(S: real): real {
    (MaxPrice(S) - MinPrice(S)) / 20.0
  }

  /** The stock price of the i-th point, minPrice + i * step. */
  function SamplePrice(S: real, i: nat): real {
    MinPrice(S) + i as real * Step(S)
  }

  /** The loop variable `price` after k iterations of `price += step`. */
  function PriceAfter(S: real, k: nat): real {
    if k == 0 then MinPrice(S) else PriceAfter(S, k - 1) + Step(S)
  }

  /** Accumulating the step k times lands on the k-th sample price. */
  lemma {:induction false} PriceAfterIsSamplePrice(S: real, k: nat)
    ensures PriceAfter(S, k) == SamplePrice(S, k)
  {
    if k > 0 {
      PriceAfterIsSamplePrice(S, k - 1);
      assert (k - 1) as real * Step(S) + Step(S) == k as real * Step(S);
    }
  }

  /** The point at stock price `price` before rounding: the price, the
      intrinsic value and their difference, the time value. */
  function RawPoint(e: Env, p: Params, price: real): (pt: SensitivityPoint)
    requires Priceable(e, p.K, p.T, p.sigma)
    ensures pt.stockPrice == price
    ensures pt.intrinsicValue >= 0.0
    ensures pt.intrinsicValue + pt.timeValue == pt.optionPrice
  {
    var optionPrice := BlackScholes(e, price, p.K, p.T, p.r, p.sigma, p.optionType);
    var intrinsic := Intrinsic(price, p.K, p.optionType);
    SensitivityPoint(price, optionPrice, intrinsic, optionPrice - intrinsic)
  }

  /** `Math.round(v * 100) / 100` on every field: each moves by at most half
      a cent. */
  function Rounded(pt: SensitivityPoint): (q: SensitivityPoint)
    ensures pt.stockPrice - 0.005 < q.stockPrice <= pt.stockPrice + 0.005
    ensures pt.optionPrice - 0.005 < q.optionPrice <= pt.optionPrice + 0.005
    ensures pt.intrinsicValue - 0.005 < q.intrinsicValue <= pt.intrinsicValue + 0.005
    ensures pt.timeValue - 0.005 < q.timeValue <= pt.timeValue + 0.005
  {
    SensitivityPoint(RoundCents(pt.stockPrice), RoundCents(pt.optionPrice),
                     RoundCents(pt.intrinsicValue), RoundCents(pt.timeValue))
  }

  /** Rounding a raw point keeps its intrinsic value non-negative, and the
      rounded intrinsic and time values add up to the rounded price give or
      take one cent. */
  lemma RoundedRawPoint(e: Env, p: Params, price: real)
    requires Priceable(e, p.K, p.T, p.sigma)
    ensures var q := Rounded(RawPoint(e, p, price));
      && q.intrinsicValue >= 0.0
      && var gap := q.intrinsicValue + q.timeValue - q.optionPrice;
         gap == 0.0 || gap == 0.01 || gap == -0.01
  {
    var pt := RawPoint(e, p, price);
    RoundCentsNonNegative(pt.intrinsicValue);
    RoundCentsOfSum(pt.optionPrice, pt.intrinsicValue, pt.timeValue);
  }

  /** The reported point at stock price `price`. */
  function Point(e: Env, p: Params, price: real): SensitivityPoint
    requires Priceable(e, p.K, p.T, p.sigma)
  {
    Rounded(RawPoint(e, p, price))
  }

  /** `data` holds the first |data| points of the sweep. */
  ghost predicate IsPrefix(e: Env, p: Params, data: seq<SensitivityPoint>)
    requires Priceable(e, p.K, p.T, p.sigma)
  {
    forall i :: 0 <= i < |data| ==> data[i] == Point(e, p, SamplePrice(p.S, i))
  }

  /** The sweep that stops: no point when the range is empty, twenty-one
      otherwise, including at S == 5/7, where the step is 0. */
  function SensitivityData(e: Env, p: Params): seq<SensitivityPoint>
    requires Priceable(e, p.K, p.T, p.sigma)
  {
    if MaxPrice(p.S) < MinPrice(p.S) then []
    else seq(21, i requires 0 <= i < 21 => Point(e, p, SamplePrice(p.S, i)))
  }

  /** The range max(1, 0.6*S) .. 1.4*S is non-empty exactly when S >= 5/7. */
  lemma RangeNonEmptyIff(S: real)
    ensures MinPrice(S) <= MaxPrice(S) <==> S >= 5.0 / 7.0
  {
  }

  /** The step is 0 exactly when S == 5/7, and positive exactly when S > 5/7. */
  lemma StepSign(S: real)
    ensures Step(S) == 0.0 <==> S == 5.0 / 7.0
    ensures Step(S) > 0.0 <==> S > 5.0 / 7.0
  {
  }

  /** The sweep has twenty-one points when S >= 5/7 and none otherwise. */
  lemma DataLength(e: Env, p: Params)
    requires Priceable(e, p.K, p.T, p.sigma)
    ensures |SensitivityData(e, p)| == if p.S >= 5.0 / 7.0 then 21 else 0
  {
    RangeNonEmptyIff(p.S);
  }

  /** The i-th point reports the i-th sample price and the price, intrinsic
      value and time value there, each rounded to cents. */
  lemma DataAt(e: Env, p: Params, i: nat)
    requires Priceable(e, p.K, p.T, p.sigma)
    requires i < |SensitivityData(e, p)|
    ensures SensitivityData(e, p)[i] == Rounded(RawPoint(e, p, SamplePrice(p.S, i)))
  {
  }

  /** The i-th reported stock price is the i-th sample price rounded to cents. */
  lemma DataStockPrice(e: Env, p: Params, i: nat)
    requires Priceable(e, p.K, p.T, p.sigma)
    requires i < |SensitivityData(e, p)|
    ensures SensitivityData(e, p)[i].stockPrice == RoundCents(SamplePrice(p.S, i))
  {
    DataAt(e, p, i);
  }

  /** With a positive step the sample prices strictly increase. */
  lemma SamplePricesIncrease(S: real, i: nat, j: nat)
    requires Step(S) > 0.0 && i < j
    ensures SamplePrice(S, i) < SamplePrice(S, j)
  {
    assert SamplePrice(S, j) - SamplePrice(S, i) == (j - i) as real * Step(S);
  }

  /** On a non-empty range the sample prices never decrease. */
  lemma SamplePricesMonotone(S: real, i: nat, j: nat)
    requires S >= 5.0 / 7.0 && i <= j
    ensures SamplePrice(S, i) <= SamplePrice(S, j)
  {
    StepSign(S);
    if i < j && Step(S) > 0.0 {
      SamplePricesIncrease(S, i, j);
    }
  }

  /** The twenty-one sample prices run from the bottom of the range to its top. */
  lemma SamplePricesInRange(S: real, i: nat)
    requires MinPrice(S) <= MaxPrice(S) && i <= 20
    ensures MinPrice(S) <= SamplePrice(S, i) <= MaxPrice(S)
    ensures SamplePrice(S, 0) == MinPrice(S) && SamplePrice(S, 20) == MaxPrice(S)
  {
    assert i as real * Step(S) <= 20.0 * Step(S);
  }

  /** With a positive step the loop test `price <= maxPrice` holds for the
      first twenty-one values of `price` and fails on the next. */
  lemma SweepTest(S: real, k: nat)
    requires Step(S) > 0.0
    ensures PriceAfter(S, k) <= MaxPrice(S) <==> k <= 20
  {
    PriceAfterIsSamplePrice(S, k);
    if k > 20 {
      assert (k - 20) as real * Step(S) > 0.0;
      assert SamplePrice(S, k) == MaxPrice(S) + (k - 20) as real * Step(S);
    } else {
      SamplePricesInRange(S, k);
    }
  }

  /** At S == 5/7 the step is 0, `price` stays at 1 and the loop test holds
      on every iteration: the loop as written never exits. */
  lemma StalledSweepNeverExits(k: nat)
    ensures Step(5.0 / 7.0) == 0.0
    ensures PriceAfter(5.0 / 7.0, k) == 1.0 <= MaxPrice(5.0 / 7.0)
  {
    PriceAfterIsSamplePrice(5.0 / 7.0, k);
  }

  /** The reported stock prices are in non-decreasing order and each is
      within half a cent of its sample price. */
  lemma DataStockPrices(e: Env, p: Params, i: nat, j: nat)
    requires Priceable(e, p.K, p.T, p.sigma)
    requires i <= j < |SensitivityData(e, p)|
    ensures SensitivityData(e, p)[i].stockPrice <= SensitivityData(e, p)[j].stockPrice
    ensures var x := SamplePrice(p.S, i);
      x - 0.005 < SensitivityData(e, p)[i].stockPrice <= x + 0.005
  {
    var x, y := SamplePrice(p.S, i), SamplePrice(p.S, j);
    DataStockPrice(e, p, i);
    DataStockPrice(e, p, j);
    DataLength(e, p);
    SamplePricesMonotone(p.S, i, j);
    RoundCentsMonotone(x, y);
  }

  /** `generateSensitivityData` as written: `price` starts at minPrice and
      grows by `step` while it is at most maxPrice. It needs a non-zero step
      to stop (see StalledSweepNeverExits). */
  method GenerateSensitivityData(e: Env, p: Params) returns (data: seq<SensitivityPoint>)
    requires Priceable(e, p.K, p.T, p.sigma)
    requires Step(p.S) != 0.0
    ensures data == SensitivityData(e, p)
  {
    var minPrice := MinPrice(p.S);
    var maxPrice := MaxPrice(p.S);
    var step := (maxPrice - minPrice) / 20.0;
    data := [];
    var price := minPrice;
    while price <= maxPrice
      invariant price == PriceAfter(p.S, |data|)
      invariant step > 0.0 ==> |data| <= 21
      invariant step < 0.0 ==> data == []
      invariant IsPrefix(e, p, data)
      decreases 21 - |data|
    {
      PriceAfterIsSamplePrice(p.S, |data|);
      if step > 0.0 {
        SweepTest(p.S, |data|);
      }
      var optionPrice := BlackScholes(e, price, p.K, p.T, p.r, p.sigma, p.optionType);
      var intrinsic := Intrinsic(price, p.K, p.optionType);
      var raw := SensitivityPoint(price, optionPrice, intrinsic, optionPrice - intrinsic);
      assert raw == RawPoint(e, p, SamplePrice(p.S, |data|));
      data := data + [Rounded(raw)];
      price := price + step;
    }
    if step > 0.0 {
      SweepTest(p.S, |data|);
    }
  }

  /** The sweep with the iterations counted rather than the price compared:
      the same twenty-one points whenever the range is non-empty, and it
      stops for every S, including S == 5/7. */
  method GenerateSensitivityDataBounded(e: Env, p: Params) returns (data: seq<SensitivityPoint>)
    requires Priceable(e, p.K, p.T, p.sigma)
    ensures data == SensitivityData(e, p)
  {
    data := [];
    if MaxPrice(p.S) < MinPrice(p.S) {
      return;
    }
    var i := 0;
    while i <= 20
      invariant 0 <= i <= 21
      invariant |data| == i && IsPrefix(e, p, data)
    {
      var price := SamplePrice(p.S, i);
      var optionPrice := BlackScholes(e, price, p.K, p.T, p.r, p.sigma, p.optionType);
      var intrinsic := Intrinsic(price, p.K, p.optionType);
      var raw := SensitivityPoint(price, optionPrice, intrinsic, optionPrice - intrinsic);
      assert raw == RawPoint(e, p, SamplePrice(p.S, i));
      data := data + [Rounded(raw)];
      i := i + 1;
    }
  }
}
