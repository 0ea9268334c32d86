/**
 * The decision rules of `generate_insights_from_history`. The fitted slope
 * (`np.polyfit`), the volatility (`std`) and the average daily return
 * (`pct_change().mean()`) are inputs; what is modelled is how they are
 * classified and combined with the closes, and the moving average and
 * percent change computed from the closes.
 */
module Insights {
  import opened Wrappers
  import opened Floats

  const TrendSlopeThreshold: real := 0.01
  const HighVolatility: real := 0.03
  const ModerateVolatility: real := 0.015
  const MovingAverageWindow: nat := 20

  const BullishAdvice: string := "Bullish momentum; consider accumulation with risk controls."
  const BearishAdvice: string := "Bearish momentum; prefer defensive posture."
  const NeutralAdvice: string := "Neutral momentum; continue observing."

  datatype Trend = Upward | Downward | Flat

  datatype VolatilityProfile = High | Moderate | Low

  // ---------------------------------------------------------------- means over possibly missing values

  /** How many values are defined (not NaN). */
  function DefinedCount(xs: seq<Float>): (n: nat)
    ensures n <= |xs|
  {
    if xs == [] then 0 else (if xs[0].Fin? then 1 else 0) + DefinedCount(xs[1..])
  }

  /** The count is zero exactly when every value is NaN. */
  lemma {:induction false} DefinedCountZero(xs: seq<Float>)
    ensures DefinedCount(xs) == 0 <==> forall i :: 0 <= i < |xs| ==> xs[i].NaN?
  {
    if xs != [] {
      DefinedCountZero(xs[1..]);
      assert forall i :: 0 <= i < |xs[1..]| ==> xs[1..][i] == xs[i + 1];
    }
  }

  /** The sum of the defined values. */
  function DefinedSum(xs: seq<Float>): real {
    if xs == [] then 0.0 else OrZero(xs[0]) + DefinedSum(xs[1..])
  }

  /** pandas' `mean()` (skipping NaN): NaN when no value is defined. */
  function Mean(xs: seq<Float>): (m: Float)
    ensures m.NaN? <==> DefinedCount(xs) == 0
  {
    if DefinedCount(xs) == 0 then NaN else Fin(DefinedSum(xs) / DefinedCount(xs) as real)
  }

  predicate DefinedWithin(xs: seq<Float>, lo: real, hi: real) {
    forall i :: 0 <= i < |xs| && xs[i].Fin? ==> lo <= xs[i].value <= hi
  }

  /** The sum of the defined values less c for each of them. */
  function ExcessOver(xs: seq<Float>, c: real): real {
    if xs == [] then 0.0 else (if xs[0].Fin? then xs[0].value - c else 0.0) + ExcessOver(xs[1..], c)
  }

  lemma Distribute(c: real, n: real)
    ensures c * (n + 1.0) == c * n + c
  {
  }

  lemma {:induction false} ExcessOverIsShiftedSum(xs: seq<Float>, c: real)
    ensures ExcessOver(xs, c) == DefinedSum(xs) - c * DefinedCount(xs) as real
  {
    if xs != [] {
      ExcessOverIsShiftedSum(xs[1..], c);
      var n := DefinedCount(xs[1..]) as real;
      if xs[0].Fin? {
        Distribute(c, n);
        assert DefinedCount(xs) as real == n + 1.0;
        assert DefinedSum(xs) == xs[0].value + DefinedSum(xs[1..]);
      } else {
        assert DefinedCount(xs) as real == n;
        assert DefinedSum(xs) == DefinedSum(xs[1..]);
      }
    }
  }

  lemma {:induction false} ExcessOverLowerBound(xs: seq<Float>, lo: real)
    requires forall i :: 0 <= i < |xs| && xs[i].Fin? ==> lo <= xs[i].value
    ensures ExcessOver(xs, lo) >= 0.0
  {
    if xs != [] {
      assert forall i :: 0 <= i < |xs[1..]| ==> xs[1..][i] == xs[i + 1];
      ExcessOverLowerBound(xs[1..], lo);
    }
  }

  lemma {:induction false} ExcessOverUpperBound(xs: seq<Float>, hi: real)
    requires forall i :: 0 <= i < |xs| && xs[i].Fin? ==> xs[i].value <= hi
    ensures ExcessOver(xs, hi) <= 0.0
  {
    if xs != [] {
      assert forall i :: 0 <= i < |xs[1..]| ==> xs[1..][i] == xs[i + 1];
      ExcessOverUpperBound(xs[1..], hi);
    }
  }

  /** A sum of n values within [lo, hi] lies within n times the bounds. */
  lemma SumWithin(xs: seq<Float>, lo: real, hi: real)
    requires DefinedWithin(xs, lo, hi)
    ensures lo * DefinedCount(xs) as real <= DefinedSum(xs) <= hi * DefinedCount(xs) as real
  {
    ExcessOverLowerBound(xs, lo);
    ExcessOverUpperBound(xs, hi);
    ExcessOverIsShiftedSum(xs, lo);
    ExcessOverIsShiftedSum(xs, hi);
  }

  /** Dividing bounds on a sum by a positive count bounds the quotient. */
  lemma QuotientWithin(sum: real, n: real, lo: real, hi: real)
    requires n > 0.0 && lo * n <= sum <= hi * n
    ensures lo <= sum / n <= hi
  {
    var m := sum / n;
    assert m * n == sum;
  }

  /** A mean lies between any bounds of the values it averages. */
  lemma MeanWithin(xs: seq<Float>, lo: real, hi: real)
    requires DefinedWithin(xs, lo, hi) && Mean(xs).Fin?
    ensures lo <= Mean(xs).value <= hi
  {
    SumWithin(xs, lo, hi);
    QuotientWithin(DefinedSum(xs), DefinedCount(xs) as real, lo, hi);
  }

  // ---------------------------------------------------------------- moving average

  /** `tail(n)`: the last n values, or all of them when there are fewer. */
  function LastN(xs: seq<Float>, n: nat): (r: seq<Float>)
    ensures |r| == if |xs| <= n then |xs| else n
    ensures r == xs[|xs| - |r|..]
  {
    if |xs| <= n then xs else xs[|xs| - n..]
  }

  /** `close.tail(20).mean()` */
  function MovingAverage(closes: seq<Float>): (m: Float)
    ensures |closes| <= MovingAverageWindow ==> m == Mean(closes)
    ensures |closes| > MovingAverageWindow ==> m == Mean(closes[|closes| - MovingAverageWindow..])
  {
    Mean(LastN(closes, MovingAverageWindow))
  }

  /** The moving average is NaN exactly when each of the last 20 closes is. */
  lemma MovingAverageUndefined(closes: seq<Float>)
    ensures MovingAverage(closes).NaN? <==>
              forall i :: 0 <= i < |closes| && |closes| - i <= MovingAverageWindow ==> closes[i].NaN?
  {
    var w := LastN(closes, MovingAverageWindow);
    DefinedCountZero(w);
    forall i | 0 <= i < |closes| && |closes| - i <= MovingAverageWindow
      ensures closes[i] == w[i - (|closes| - |w|)]
    {
    }
    forall k | 0 <= k < |w|
      ensures w[k] == closes[|closes| - |w| + k]
    {
    }
  }

  /** With 20 or more rows the moving average sees exactly the last 20: earlier rows never matter. */
  lemma MovingAverageUsesLastTwenty(earlier: seq<Float>, window: seq<Float>)
    requires |window| == 20
    ensures MovingAverage(earlier + window) == Mean(window)
  {
    assert (earlier + window)[|earlier|..] == window;
  }

  /** The moving average lies between any bounds of the closes it averages. */
  lemma MovingAverageWithin(closes: seq<Float>, lo: real, hi: real)
    requires DefinedWithin(closes, lo, hi) && MovingAverage(closes).Fin?
    ensures lo <= MovingAverage(closes).value <= hi
  {
    var w := LastN(closes, MovingAverageWindow);
    forall i | 0 <= i < |w| && w[i].Fin?
      ensures lo <= w[i].value <= hi
    {
      assert w[i] == closes[|closes| - |w| + i];
    }
    MeanWithin(w, lo, hi);
  }

  // ---------------------------------------------------------------- classification

  /**
   * The trend and the reported slope. With fewer than two valid rows the
   * slope is 0.0 and the trend flat; otherwise the fitted slope is reported
   * and the trend follows it against the threshold. Either way the reported
   * trend agrees with the reported slope.
   */
  function ClassifyTrend(validRows: nat, fittedSlope: real): (r: (Trend, real))
    ensures validRows < 2 ==> r.1 == 0.0
    ensures 2 <= validRows ==> r.1 == fittedSlope
    ensures r.0 == Upward <==> r.1 > TrendSlopeThreshold
    ensures r.0 == Downward <==> r.1 < -TrendSlopeThreshold
    ensures r.0 == Flat <==> -TrendSlopeThreshold <= r.1 <= TrendSlopeThreshold
  {
    if validRows < 2 then (Flat, 0.0)
    else if fittedSlope > TrendSlopeThreshold then (Upward, fittedSlope)
    else if fittedSlope < -TrendSlopeThreshold then (Downward, fittedSlope)
    else (Flat, fittedSlope)
  }

  /** High above 0.03, moderate above 0.015, low otherwise, including NaN (no comparison with NaN holds). */
  function Profile(volatility: Float): (p: VolatilityProfile)
    ensures p == High <==> volatility.Fin? && volatility.value > HighVolatility
    ensures p == Moderate <==> volatility.Fin? && ModerateVolatility < volatility.value <= HighVolatility
    ensures p == Low <==> volatility.NaN? || volatility.value <= ModerateVolatility
  {
    if volatility.Fin? && volatility.value > HighVolatility then High
    else if volatility.Fin? && volatility.value > ModerateVolatility then Moderate
    else Low
  }

  function ProfileRank(p: VolatilityProfile): nat {
    match p
    case Low => 0
    case Moderate => 1
    case High => 2
  }

  /** A larger volatility never gets a lower profile. */
  lemma ProfileMonotone(a: real, b: real)
    requires a <= b
    ensures ProfileRank(Profile(Fin(a))) <= ProfileRank(Profile(Fin(b)))
  {
  }

  /**
   * Bullish needs an upward trend and a non-negative average return,
   * bearish a downward trend and a non-positive one; anything else,
   * a NaN return included, is neutral.
   */
  function Recommendation(trend: Trend, avgReturn: Float): (s: string)
    ensures s == BullishAdvice <==> trend == Upward && avgReturn.Fin? && avgReturn.value >= 0.0
    ensures s == BearishAdvice <==> trend == Downward && avgReturn.Fin? && avgReturn.value <= 0.0
    ensures s == NeutralAdvice <==> !(s == BullishAdvice || s == BearishAdvice)
  {
    if trend == Upward && avgReturn.Fin? && avgReturn.value >= 0.0 then BullishAdvice
    else if trend == Downward && avgReturn.Fin? && avgReturn.value <= 0.0 then BearishAdvice
    else NeutralAdvice
  }

  // ---------------------------------------------------------------- percent change

  /**
   * The change from the first close to the latest, in percent. A NaN first
   * close falls back to the latest close; a zero first close gives 0.0
   * instead of a division by zero; a NaN anywhere else propagates.
   */
  function PercentChange(firstClose: Float, latestClose: Float): (p: Float)
    ensures firstClose == Fin(0.0) ==> p == Fin(0.0)
    ensures firstClose.NaN? && latestClose.Fin? ==> p == Fin(0.0)
    ensures firstClose.Fin? && firstClose.value != 0.0 && latestClose.Fin? ==>
              p == Fin((latestClose.value - firstClose.value) / firstClose.value * 100.0)
    ensures latestClose.NaN? && firstClose != Fin(0.0) ==> p.NaN?
  {
    var first := if firstClose.Fin? then firstClose else latestClose;
    if first == Fin(0.0) then Fin(0.0)
    else if first.Fin? && latestClose.Fin? then
      Fin((latestClose.value - first.value) / first.value * 100.0)
    else NaN
  }

  /** From a positive first close, the change is positive exactly when the price rose, zero exactly when it did not move. */
  lemma PercentChangeSign(first: real, latest: real)
    requires first > 0.0
    ensures PercentChange(Fin(first), Fin(latest)).value > 0.0 <==> latest > first
    ensures PercentChange(Fin(first), Fin(latest)).value == 0.0 <==> latest == first
  {
    var q := (latest - first) / first;
    assert q * first == latest - first;
    if latest > first {
      assert q > 0.0;
    } else if latest < first {
      assert q < 0.0;
    }
  }

  // ---------------------------------------------------------------- average volume

  /** The volumes of the rows whose close is defined (`dropna(subset=["Close"])`). */
  function ValidVolumes(series: seq<Bar>): (r: seq<Float>)
    ensures |r| <= |series|
  {
    if series == [] then []
    else (if series[0].close.Fin? then [series[0].volume] else []) + ValidVolumes(series[1..])
  }

  /** One row keeps its volume exactly when its close is defined. */
  lemma ValidVolumesOfOne(b: Bar)
    ensures b.close.Fin? ==> ValidVolumes([b]) == [b.volume]
    ensures b.close.NaN? ==> ValidVolumes([b]) == []
  {
    assert [b][1..] == [];
  }

  /** Filtering a history split in two filters each part, in order. */
  lemma {:induction false} ValidVolumesAppend(a: seq<Bar>, b: seq<Bar>)
    ensures ValidVolumes(a + b) == ValidVolumes(a) + ValidVolumes(b)
  {
    if a == [] {
      assert a + b == b;
    } else {
      var head := if a[0].close.Fin? then [a[0].volume] else [];
      assert (a + b)[0] == a[0];
      assert (a + b)[1..] == a[1..] + b;
      ValidVolumesAppend(a[1..], b);
      calc {
        ValidVolumes(a + b);
        head + ValidVolumes(a[1..] + b);
        head + (ValidVolumes(a[1..]) + ValidVolumes(b));
        (head + ValidVolumes(a[1..])) + ValidVolumes(b);
        ValidVolumes(a) + ValidVolumes(b);
      }
    }
  }

  datatype InsightError = NaNToInteger

  /**
   * `int(valid_data["Volume"].mean()) if "Volume" in valid_data else None`
   * as written: `int()` of a NaN mean raises.
   */
  function AverageVolumeAsWritten(series: seq<Bar>, hasVolume: bool): (r: Result<Option<int>, InsightError>)
    ensures r.Err? <==> hasVolume && DefinedCount(ValidVolumes(series)) == 0
    ensures !hasVolume ==> r == Ok(None)
  {
    if !hasVolume then Ok(None)
    else match Mean(ValidVolumes(series))
      case Fin(m) => Ok(Some(Truncate(m)))
      case NaN => Err(NaNToInteger)
  }

  lemma {:induction false} NoValidCloseNoVolumes(series: seq<Bar>)
    requires forall i :: 0 <= i < |series| ==> series[i].close.NaN?
    ensures ValidVolumes(series) == []
  {
    if series != [] {
      NoValidCloseNoVolumes(series[1..]);
    }
  }

  /** A history with a Volume column whose closes are all missing makes the average volume raise. */
  lemma AverageVolumeRaisesWithoutValidClose(series: seq<Bar>)
    requires forall i :: 0 <= i < |series| ==> series[i].close.NaN?
    ensures AverageVolumeAsWritten(series, true) == Err(NaNToInteger)
  {
    NoValidCloseNoVolumes(series);
  }

  /**
   * The average volume as evidently intended: None when there is no Volume
   * column or no defined volume among the valid rows, otherwise the integer
   * part of their mean, which lies within the bounds of those volumes.
   */
  function AverageVolume(series: seq<Bar>, hasVolume: bool): (r: Option<int>)
    ensures r.Some? <==> hasVolume && DefinedCount(ValidVolumes(series)) > 0
    ensures AverageVolumeAsWritten(series, hasVolume).Ok? ==> r == AverageVolumeAsWritten(series, hasVolume).value
  {
    if !hasVolume then None
    else match Mean(ValidVolumes(series))
      case Fin(m) => Some(Truncate(m))
      case NaN => None
  }

  /** With non-negative volumes between lo and hi, the average volume is a whole number within them. */
  lemma AverageVolumeWithin(series: seq<Bar>, hasVolume: bool, lo: real, hi: real)
    requires 0.0 <= lo && DefinedWithin(ValidVolumes(series), lo, hi)
    requires AverageVolume(series, hasVolume).Some?
    ensures lo - 1.0 < AverageVolume(series, hasVolume).value as real <= hi
  {
    MeanWithin(ValidVolumes(series), lo, hi);
  }

  // ---------------------------------------------------------------- the report

  /** One row of the history, in date order: its day ordinal, close and volume. */
  datatype Bar = Bar(date: int, close: Float, volume: Float)

  datatype Report = Report(
    symbol: string,
    startDate: int,
    endDate: int,
    latestClose: Float,
    percentChange: Float,
    trend: Trend,
    volatilityProfile: VolatilityProfile,
    volatility: Float,
    averageDailyReturn: Float,
    averageVolume: Option<int>,
    movingAverage: Float,
    momentumSlope: real,
    recommendation: string)

  function Closes(series: seq<Bar>): (r: seq<Float>)
    ensures |r| == |series|
  {
    seq(|series|, i requires 0 <= i < |series| => series[i].close)
  }

  /**
   * `generate_insights_from_history` on a non-empty history in date order.
   * The report covers the first to the last row, quotes the last close,
   * and its trend, slope and recommendation agree with one another.
   */
  function GenerateInsights(symbol: string, series: seq<Bar>, hasVolume: bool,
                            fittedSlope: real, volatility: Float, avgReturn: Float): (r: Report)
    requires |series| > 0
    ensures r.startDate == series[0].date && r.endDate == series[|series| - 1].date
    ensures r.latestClose == series[|series| - 1].close
    ensures r.trend == Upward ==> DefinedCount(Closes(series)) >= 2 && r.momentumSlope > TrendSlopeThreshold
    ensures r.trend == Downward ==> DefinedCount(Closes(series)) >= 2 && r.momentumSlope < -TrendSlopeThreshold
    ensures DefinedCount(Closes(series)) < 2 ==> r.trend == Flat && r.momentumSlope == 0.0
    ensures DefinedCount(Closes(series)) >= 2 ==> r.momentumSlope == fittedSlope
    ensures r.trend == Upward <==> DefinedCount(Closes(series)) >= 2 && fittedSlope > TrendSlopeThreshold
    ensures r.trend == Downward <==> DefinedCount(Closes(series)) >= 2 && fittedSlope < -TrendSlopeThreshold
    ensures r.recommendation == BullishAdvice <==> r.trend == Upward && avgReturn.Fin? && avgReturn.value >= 0.0
    ensures r.recommendation == BearishAdvice <==> r.trend == Downward && avgReturn.Fin? && avgReturn.value <= 0.0
    ensures r.recommendation == NeutralAdvice <==> !(r.recommendation == BullishAdvice || r.recommendation == BearishAdvice)
    ensures r.recommendation == Recommendation(r.trend, avgReturn)
    ensures r.volatilityProfile == Profile(volatility) && r.volatility == volatility
    ensures r.percentChange == PercentChange(series[0].close, series[|series| - 1].close)
    ensures r.movingAverage == MovingAverage(Closes(series))
    ensures r.averageVolume == AverageVolume(series, hasVolume)
    ensures r.symbol == symbol && r.averageDailyReturn == avgReturn
  {
    var closes := Closes(series);
    var latest := series[|series| - 1].close;
    var (trend, slope) := ClassifyTrend(DefinedCount(closes), fittedSlope);
    Report(
      symbol,
      series[0].date,
      series[|series| - 1].date,
      latest,
      PercentChange(series[0].close, latest),
      trend,
      Profile(volatility),
      volatility,
      avgReturn,
      AverageVolume(series, hasVolume),
      MovingAverage(closes),
      slope,
      Recommendation(trend, avgReturn))
  }

  /** Every bar closing at the same price c: no change, a flat trend, a low profile and a moving average of c. */
  lemma ConstantSeriesInsights(symbol: string, series: seq<Bar>, hasVolume: bool, c: real)
    requires |series| > 0
    requires forall i :: 0 <= i < |series| ==> series[i].close == Fin(c)
    ensures var r := GenerateInsights(symbol, series, hasVolume, 0.0, Fin(0.0), Fin(0.0));
            && r.percentChange == Fin(0.0)
            && r.trend == Flat && r.momentumSlope == 0.0
            && r.volatilityProfile == Low
            && r.recommendation == NeutralAdvice
            && r.movingAverage == Fin(c)
  {
    var closes := Closes(series);
    var w := LastN(closes, MovingAverageWindow);
    assert w[|w| - 1] == closes[|closes| - 1];
    assert DefinedCount(w) > 0 by {
      DefinedCountPositive(w, |w| - 1);
    }
    MovingAverageWithin(closes, c, c);
  }

  lemma {:induction false} DefinedCountPositive(xs: seq<Float>, k: nat)
    requires k < |xs| && xs[k].Fin?
    ensures DefinedCount(xs) > 0
  {
    if k > 0 {
      DefinedCountPositive(xs[1..], k - 1);
    }
  }

  /** Two closes 100 and 110: the percent change is 10. */
  lemma TwoPointExample(symbol: string, d: int, slope: real, volatility: Float, avgReturn: Float)
    ensures GenerateInsights(symbol, [Bar(d, Fin(100.0), NaN), Bar(d + 1, Fin(110.0), NaN)], false,
                             slope, volatility, avgReturn).percentChange == Fin(10.0)
  {
  }
}
