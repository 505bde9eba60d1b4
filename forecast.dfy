/**
 * `generate_yield_forecast` end to end, up to the point where the chart is drawn:
 * load the series, search the order, refit it, forecast two periods and extend
 * the period labels and yieldValues with them.
 */
module Forecast {
  import opened Wrappers
  import opened Dataset
  import opened OrderSearch

  /** A refitted model: `forecast(h)` gives the next `h` values of the series. */
  datatype Fitted = Fitted(forecast: nat -> seq<real>)

  /** Refit ARIMA with the chosen order on the series; None when fitting raises. */
  type Refitter = (seq<real>, Order) -> Option<Fitted>

  datatype Error =
    | LoadFailed(cause: LoadError)
    | NoOrderFits
    | ForecastFailed

  /** The tuple handed to the chart: order and score found, extended labels and yieldValues, the two forecasts. */
  datatype ForecastOutput = ForecastOutput(
    order: Order, mae: real,
    years: seq<string>, yieldValues: seq<real>,
    forecast2025: real, forecast2026: real)

  /**
   * The one-step forecast agrees with the first value of the two-step one;
   * the forecasting library promises this, the model does not assume it.
   */
  predicate StepConsistent(f: Fitted) {
    |f.forecast(1)| >= 1 && |f.forecast(2)| >= 2 ==> f.forecast(1)[0] == f.forecast(2)[0]
  }

  /**
   * Lines 97-196. Every failure is terminal: a missing table, column or region,
   * a non-numeric series, no fitting order, and a refit or forecast that raises
   * (`forecast(steps=1)[0]` and `forecast(steps=2)[1]` raise on short results).
   */
  method GenerateYieldForecast(crops: Crops, crop: string, region: string, score: Scorer, refit: Refitter)
    returns (r: Result<ForecastOutput, Error>)
    requires WellFormed(crops)
    ensures LoadSeries(crops, crop, region).Failure? ==> r == Failure(LoadFailed(LoadSeries(crops, crop, region).error))
    ensures crop !in crops ==> r == Failure(LoadFailed(FileNotFound(crop)))
    ensures r.Failure? && r.error.LoadFailed? ==> LoadSeries(crops, crop, region).Failure?
    ensures LoadSeries(crops, crop, region).Success? ==>
      var data := LoadSeries(crops, crop, region).value.values;
      var best := FirstArgmin(data, Grid(), score);
      (&& best.Some?
       && refit(data, best.value.order).Some?
       && |refit(data, best.value.order).value.forecast(1)| >= 1
       && |refit(data, best.value.order).value.forecast(2)| >= 2)
      ==> r.Success?
    ensures LoadSeries(crops, crop, region).Success? ==>
      var data := LoadSeries(crops, crop, region).value.values;
      && (FirstArgmin(data, Grid(), score).None? <==> r == Failure(NoOrderFits))
      && (r.Failure? && r.error == ForecastFailed ==>
          var best := FirstArgmin(data, Grid(), score).value;
          || refit(data, best.order).None?
          || |refit(data, best.order).value.forecast(1)| < 1
          || |refit(data, best.order).value.forecast(2)| < 2)
    ensures r.Success? ==>
      && LoadSeries(crops, crop, region).Success?
      && var s := LoadSeries(crops, crop, region).value;
         var n := |s.years|;
         && FirstArgmin(s.values, Grid(), score) == Some(Selection(r.value.order, r.value.mae))
         && refit(s.values, r.value.order).Some?
         && var f := refit(s.values, r.value.order).value;
            && |f.forecast(1)| >= 1 && r.value.forecast2025 == f.forecast(1)[0]
            && |f.forecast(2)| >= 2 && r.value.forecast2026 == f.forecast(2)[1]
            && |r.value.years| == n + 2 && |r.value.yieldValues| == n + 2
            && r.value.years[..n] == s.years && r.value.yieldValues[..n] == s.values
            && r.value.years[n..] == ["2025", "2026"]
            && r.value.yieldValues[n..] == [r.value.forecast2025, r.value.forecast2026]
            && (StepConsistent(f) ==> r.value.yieldValues[n..] == f.forecast(2)[..2])
  {
    var loaded := LoadSeries(crops, crop, region);
    if loaded.Failure? {
      return Failure(LoadFailed(loaded.error));
    }
    var data := loaded.value.values;
    var best, visited := SearchOrder(data, score);
    if best.None? {
      return Failure(NoOrderFits);
    }
    var finalFit := refit(data, best.value.order);
    if finalFit.None? {
      return Failure(ForecastFailed);
    }
    var step1 := finalFit.value.forecast(1);
    var step2 := finalFit.value.forecast(2);
    if |step1| < 1 || |step2| < 2 {
      return Failure(ForecastFailed);
    }
    var forecast2025 := step1[0];
    var forecast2026 := step2[1];
    var years := loaded.value.years;
    var yieldValues := loaded.value.values;
    ghost var n := |years|;
    years := years + ["2025", "2026"];
    yieldValues := yieldValues + [forecast2025, forecast2026];
    assert years[..n] == loaded.value.years && years[n..] == ["2025", "2026"];
    assert yieldValues[..n] == data && yieldValues[n..] == [forecast2025, forecast2026];
    r := Success(ForecastOutput(best.value.order, best.value.mae, years, yieldValues, forecast2025, forecast2026));
  }
}
