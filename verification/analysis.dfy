/** One press of the analyse button: indicators and trend signal for the
    primary ticker, and the optional comparison with a second ticker. */
module Analysis {
  import opened Outcomes
  import opened Indicators
  import opened Signals
  import opened Comparison

  /** What the user asks for, with both downloads already cleaned of
      missing prices. An empty `compareTicker` means no comparison. */
  datatype Request = Request(
    ticker: string,
    compareTicker: string,
    primary: Series,
    comparison: Series)

  /** What a run shows about the primary ticker before it turns to the
      comparison: the indicator columns (drawn in the price chart) and the
      trend heading with its decision. */
  datatype Primary = Primary(indicators: IndicatorSet, signal: Signal)

  /** Why a run ends early: no primary data at all, or a comparison that
      cannot be completed. A failed comparison happens after the primary
      view has been shown, so it carries that view; the metrics, the
      comparison text and the reports that follow are not produced. */
  datatype RunError = NoData | ComparisonFailed(reason: CompareError, shown: Primary)

  /** What a completed run reports. */
  datatype Report = Report(primary: Primary, comparison: Option<ComparisonResult>)

  /** The price column of a series, in date order. */
  function Prices(s: Series): (p: seq<Price>)
    ensures |p| == |s|
    ensures forall i :: 0 <= i < |s| ==> p[i] == s[i].1
  {
    seq(|s|, i requires 0 <= i < |s| => s[i].1)
  }

  function Last<T>(s: seq<T>): T
    requires |s| > 0
  {
    s[|s| - 1]
  }

  /** The trend read off the last short and long moving averages. With
      fewer prices than the long window the long average is undefined, so
      the trend is stable whatever the short average; with a full long
      window it compares the mean of the last ten prices with the mean of
      the last thirty. */
  function TrendOf(p: seq<Price>): (t: Trend)
    requires |p| > 0
    ensures |p| < LongWindow ==> t == Estable
    ensures |p| >= LongWindow ==>
      var n := |p| - 1;
      var s := WindowMean(p, ShortWindow, n);
      var l := WindowMean(p, LongWindow, n);
      (t == Alcista <==> s > l) && (t == Bajista <==> s < l) && (t == Estable <==> s == l)
  {
    var ind := Compute(p);
    Classify(Last(ind.maShort), Last(ind.maLong))
  }

  /** The comparison step: skipped without a second ticker or without data
      for it; otherwise the comparison's own outcome. */
  function CompareStep(req: Request): (r: Result<Option<ComparisonResult>, CompareError>)
    ensures r.Ok? && r.value.None? <==> req.compareTicker == "" || |req.comparison| == 0
    ensures r.Ok? && r.value.Some? ==>
      Compare(req.ticker, req.compareTicker, req.primary, req.comparison) == Ok(r.value.value)
    ensures r.Err? <==>
      (req.compareTicker != "" && |req.comparison| > 0 &&
       Compare(req.ticker, req.compareTicker, req.primary, req.comparison).Err?)
    ensures r.Err? ==>
      r.error == Compare(req.ticker, req.compareTicker, req.primary, req.comparison).error
  {
    if req.compareTicker == "" || |req.comparison| == 0 then Ok(None)
    else
      match Compare(req.ticker, req.compareTicker, req.primary, req.comparison)
      case Ok(c) => Ok(Some(c))
      case Err(e) => Err(e)
  }

  /** The primary view a run has shown by the time it ends: none when it
      stops for lack of data. */
  function Shown(r: Result<Report, RunError>): Option<Primary>
  {
    match r
    case Ok(report) => Some(report.primary)
    case Err(NoData) => None
    case Err(ComparisonFailed(_, shown)) => Some(shown)
  }

  /** The whole run. */
  function Analyze(req: Request): (r: Result<Report, RunError>)
    ensures r == Err(NoData) <==> |req.primary| == 0
    ensures Shown(r).Some? <==> |req.primary| > 0
    ensures Shown(r).Some? ==> Shown(r).value.indicators == Compute(Prices(req.primary))
    ensures Shown(r).Some? ==> Shown(r).value.signal.trend == TrendOf(Prices(req.primary))
    ensures Shown(r).Some? ==> Shown(r).value.signal == SignalFor(
      Last(Shown(r).value.indicators.maShort), Last(Shown(r).value.indicators.maLong), req.ticker)
    ensures r.Err? && r.error.ComparisonFailed? <==> |req.primary| > 0 && CompareStep(req).Err?
    ensures r.Err? && r.error.ComparisonFailed? ==> CompareStep(req) == Err(r.error.reason)
    ensures r.Ok? ==> CompareStep(req) == Ok(r.value.comparison)
  {
    if |req.primary| == 0 then Err(NoData)
    else
      var p := Prices(req.primary);
      var ind := Compute(p);
      var shown := Primary(ind, SignalFor(Last(ind.maShort), Last(ind.maLong), req.ticker));
      match CompareStep(req)
      case Err(e) => Err(ComparisonFailed(e, shown))
      case Ok(c) => Ok(Report(shown, c))
  }

  /** The trend does not depend on the price level: scaling every price by
      the same positive factor leaves it unchanged. */
  lemma TrendScaleInvariant(c: real, p: seq<Price>)
    requires c > 0.0
    requires |p| > 0
    ensures TrendOf(ScalePrices(c, p)) == TrendOf(p)
  {
    var n := |p| - 1;
    ComputeScale(c, p);
    ClassifyScaleInvariant(c, Compute(p).maShort[n], Compute(p).maLong[n]);
  }

  /** The primary ticker's indicators and signal do not depend on the
      comparison request: whatever second ticker and series are asked for,
      and whether or not that comparison fails, the run shows the same
      primary view. */
  lemma SignalIgnoresComparison(req: Request, other: string, series: Series)
    ensures Shown(Analyze(req.(compareTicker := other, comparison := series))) == Shown(Analyze(req))
  {
  }

  /** Without a second ticker a run with primary data always completes. */
  lemma NoComparisonNeverFails(req: Request)
    requires req.compareTicker == ""
    requires |req.primary| > 0
    ensures Analyze(req).Ok?
    ensures Analyze(req).value.comparison == None
  {
  }

  /** A requested comparison that shares no date with the primary series
      ends the run with an empty-overlap failure, after the primary view
      has been shown. */
  lemma EmptyOverlapEndsRun(req: Request)
    requires |req.primary| > 0
    requires req.compareTicker != "" && |req.comparison| > 0
    requires Dates(req.primary) * Dates(req.comparison) == {}
    ensures Analyze(req).Err? && Analyze(req).error.ComparisonFailed?
    ensures Analyze(req).error.reason == EmptyOverlap
    ensures Analyze(req).error.shown.signal.trend == TrendOf(Prices(req.primary))
  {
    CompareFailsExactly(req.ticker, req.compareTicker, req.primary, req.comparison);
  }
}
