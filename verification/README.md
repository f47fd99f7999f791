# Stock analysis core in Dafny

A model of the analysis pipeline behind the single "Analizar" button of a
Streamlit stock-analysis app (`app.py`). It models three pieces:

- **The indicator engine.** It turns one ordered price series into four
  columns:
  - per-step returns, with the first one forced to 0;
  - a 20-wide rolling volatility of those returns;
  - a 10-wide moving average of price (MA_Corta);
  - a 30-wide moving average of price (MA_Larga). The leading positions of
    both averages are back-filled from the first full window.
- **The trend classifier.** It reads the last short and long averages and
  returns ALCISTA, BAJISTA or ESTABLE. Each label comes with its colour, its
  suggested decision and a conclusion sentence that names the ticker.
- **The comparative evaluator.** It inner-joins the primary ticker's series
  with a second ticker's series on their dates. It rebases both to 100 at
  the first common date. It names the primary ticker stronger only when its
  last rebased value is strictly greater, so a tie goes to the comparison
  ticker.

How the model represents things:

- Arithmetic is over `real`.
- A pandas NaN is `Outcomes.Option.None`. A comparison involving `None` is
  false, exactly as one involving NaN is. That is why an undefined average
  yields ESTABLE.
- Prices form the subset type `Indicators.Price` of strictly positive
  reals.
- A date-keyed series is a sequence of `(Date, Price)` pairs.

Modules:

| module | file | role |
|---|---|---|
| `Outcomes` | outcomes.dfy | `Option` (NaN / defined) and `Result` (completed / failed) |
| `Texts` | texts.dfy | reading the parts of a joined report sentence back |
| `Stats` | stats.dfy | sum, mean, sample variance (one degree of freedom removed) and its running-sums form |
| `Indicators` | indicators.dfy | returns, rolling mean, backward fill, moving averages, volatility |
| `Signals` | signals.dfy | trend classification and its texts |
| `Comparison` | comparison.dfy | inner join, base-100 rebasing, verdict and its paragraph |
| `Analysis` | analysis.dfy | one run: no-data stop, indicators, signal, optional comparison |

A comparison ends the run in two cases. Either way the run first shows the
primary trend heading, the decision and the price chart (app.py:60-74),
and the handler's generic `except` then ends it (app.py:173-174):

- **Empty date overlap.** Selecting the first common row fails
  (app.py:93). `Comparison.Compare` returns `EmptyOverlap`.
- **The same symbol entered twice.** Both joined columns then carry the
  same label, so selecting one yields a two-column table, and `iloc[-1]`
  of each table is a two-element row. The final `if a > b` compares those
  two rows into a two-element boolean result, whose truth value is
  ambiguous, and raises (app.py:111). The comparison chart has already
  been shown by then (app.py:105).
  `Comparison.Compare` returns `DuplicateColumn`.

`Analysis.Analyze` reports either failure as `ComparisonFailed`, together
with the primary view already shown.

Windows that are not yet full stay undefined, because pandas' rolling
windows require as many observations as the window is wide. Volatility's
undefined positions become 0. A moving average over fewer prices than its
window stays undefined everywhere, because the backward fill has nothing to
fill from, and the trend is then ESTABLE (`Analysis.TrendOf`).

## Model

| member | source | states |
|---|---|---|
| Indicators.Returns | app.py:38 | one return per price; the first is 0 and the i-th is the relative change (p[i]-p[i-1])/p[i-1] |
| Indicators.ReturnsRoundTrip | app.py:38 | compounding the returns from the first price rebuilds the whole price series, so the returns lose nothing but the starting level |
| Indicators.ReturnsScaleInvariant | app.py:38 | returns do not depend on the price level: multiplying every price by c > 0 leaves them unchanged |
| Indicators.ReturnsScaleAt | app.py:38 | the same at one position |
| Indicators.RollingMean | app.py:40-41 | a rolling window value is defined exactly from position w-1 on (pandas' default `min_periods` equals the window) |
| Indicators.BackFill | app.py:40-41 | backward fill keeps every defined value, gives an undefined position its successor's value, and leaves a trailing undefined position undefined |
| Indicators.BackFillTakesNextDefined | app.py:40-41 | an undefined position receives the value of the next defined position at or after it |
| Indicators.BackFillKeepsUndefinedTail | app.py:40-41 | a position with no defined value at or after it stays undefined |
| Indicators.BackFillLeading | app.py:40-41 | every position up to the first defined value takes that value |
| Indicators.BackFillAllUndefined | app.py:40-41 | with no defined value the fill leaves every position undefined |
| Indicators.MovingAverage | app.py:40-41 | the average is defined everywhere exactly when there are at least w prices; from position w-1 on it is the mean of the w prices ending there; every earlier position repeats position w-1 |
| Indicators.MovingAverageWithinPriceRange | app.py:40-41 | every defined moving-average value lies between any lower and upper bound of the prices |
| Indicators.MovingAverageScale | app.py:40-41 | multiplying every price by c > 0 multiplies every defined moving-average value by c and keeps undefined positions undefined |
| Indicators.MovingAverageScaleAt | app.py:40-41 | the same at one position |
| Indicators.RollingMeanBySlidingSum | app.py:40-41 | a running-sum loop that adds the entering price and drops the leaving one computes exactly the rolling mean |
| Indicators.SquaredVolatility | app.py:39 | one volatility per return; never negative; 0 at every position before the window is full (the `fillna(0)`) |
| Indicators.VolatilityFromSums | app.py:39 | with a full window of w returns, the squared volatility is w times the variance computed from the window's sum of returns and sum of squared returns |
| Indicators.VolatilityBySlidingSums | app.py:39 | one pass that keeps a running sum of the returns in the window and of their squares, adding the entering return and dropping the leaving one, computes exactly the squared volatility at every position |
| Indicators.VolatilityZeroIff | app.py:39 | with a full window, the volatility is 0 exactly when all returns in the window are equal |
| Indicators.VolatilityShiftInvariant | app.py:39 | volatility measures the spread of returns only: adding the same constant to every return leaves it unchanged |
| Stats.SumSqDev | app.py:39 | the sum of squared deviations is non-negative |
| Stats.SumSqDevZeroIff | app.py:39 | the sum of squared deviations is 0 exactly when every sample equals the centre |
| Stats.SumSqDevExpand | app.py:39 | the squared deviations from m equal the sum of squares, less 2m times the sum, plus n times m squared |
| Stats.VarianceBySums | app.py:39 | the sample variance (ddof 1) equals (sum of squares - (sum)^2/n)/(n-1) |
| Stats.VarianceShift | app.py:39 | shifting every sample by the same constant leaves the sample variance unchanged |
| Stats.VarianceZeroIff | app.py:39 | the sample variance (ddof 1) is 0 exactly when all samples are equal |
| Stats.MeanWithin | app.py:40-41 | the mean lies between any lower and upper bound of the sample |
| Stats.MeanScale | app.py:40-41 | scaling a sample scales its mean by the same factor |
| Indicators.Compute | app.py:38-41 | the four columns are parallel to the price series; the first return is 0 and every later one is (p[i] − p[i−1]) / p[i−1]; from position 19 on the squared volatility is 20 times the sample variance of the last 20 returns, and it is never negative and is 0 before that; from w−1 on each average is the mean of the last w prices, the positions before w−1 repeat position w−1, and a series shorter than a window leaves that average undefined everywhere |
| Indicators.ComputeScale | app.py:38-41 | scaling prices by c > 0 leaves returns and volatility unchanged and scales both moving averages by c |
| Signals.Classify | app.py:44-58 | ALCISTA exactly when both averages are defined and short > long, BAJISTA exactly when both are defined and short < long, ESTABLE exactly otherwise (an undefined average or equality) |
| Signals.UndefinedAverageIsStable | app.py:44-54 | an undefined (NaN) average makes both strict comparisons false, so the trend is ESTABLE |
| Signals.ClassifyScaleInvariant | app.py:44-58 | scaling both averages by c > 0 does not change the trend |
| Signals.Color | app.py:44-58 | the heading is green exactly for ALCISTA, red exactly for BAJISTA, gray exactly for ESTABLE |
| Signals.Decision | app.py:44-58 | the buy-or-hold decision goes exactly with ALCISTA, avoid-new-purchases exactly with BAJISTA, wait-for-confirmation exactly with ESTABLE |
| Signals.Conclusion | app.py:44-58 | every conclusion opens with "El activo **", then the ticker, then the trend's fixed sentence |
| Signals.TextsIdentifyTrend | app.py:44-58 | two different trends never share a colour, a decision or (for the same ticker) a conclusion |
| Signals.SignalFor | app.py:44-58 | the colour is green exactly when both averages are defined and short > long, red exactly when both are defined and short < long, gray otherwise; the decision and conclusion are the trend's own, and the conclusion carries the ticker |
| Comparison.PriceOn | app.py:89 | a series yields a price for a date exactly when the date is among its dates, and that price is paired with the date in the series |
| Comparison.Align | app.py:89 | every joined row pairs a date with a price the primary series has for it and a price the other series has for it |
| Comparison.AlignDates | app.py:89 | the inner join keeps exactly the dates present in both series |
| Comparison.AlignAscending | app.py:89 | the join of a date-ascending primary series is date-ascending |
| Comparison.AlignPairsPrices | app.py:89 | in ascending series, each joined row holds the two series' own prices for its date |
| Comparison.Rebase | app.py:93-94 | the rebased index has one value per price, starts at 100 and stays positive |
| Comparison.RebaseScaleInvariant | app.py:93-94 | multiplying a series by c > 0 leaves its rebased index unchanged |
| Comparison.RebaseRoundTrip | app.py:93-94 | multiplying the index by the first price and dividing by 100 gives back the original series |
| Comparison.PrimaryStronger | app.py:111 | equal last index values are never a win for the primary; a win means its last value is strictly greater, and otherwise its last value is at most the other's |
| Comparison.VerdictComparesGrowth | app.py:93-111 | the last rebased value of one series exceeds the other's exactly when its growth from first to last price is larger |
| Comparison.TieGoesToComparison | app.py:111-120 | with equal growth the primary ticker is never declared stronger, whichever ticker is primary |
| Comparison.VerdictExamples | app.py:111-120 | series growing by the same factor (100, 110, 121 against 50, 55, 60.5) tie and the primary is not declared stronger; 100, 120 against 100, 110 is a win for the primary |
| Comparison.ComparisonText | app.py:111-120 | the paragraph opens with "Durante el periodo, **", names the ticker the verdict favours right after it, and then the other ticker between the fixed sentences of the winning or the losing paragraph |
| Comparison.TextsIdentifyVerdict | app.py:111-120 | for the same two tickers the winning and the losing paragraph always differ |
| Comparison.JoinVerdict | app.py:93-111 | on a join, the verdict compares the two tickers' growth between the first and last common date |
| Comparison.Evaluate | app.py:93-120 | both indices have the join's length, and each value is the row's price divided by the first row's price, times 100 (so both start at 100); the primary is stronger exactly when its last index value, equivalently its growth, is strictly greater; the text matches the verdict |
| Comparison.Compare | app.py:89-120 | the comparison fails exactly when the join is empty (reported as an empty overlap) or the two symbols are equal; otherwise it evaluates the non-empty inner join |
| Comparison.CompareFailsExactly | app.py:89-120 | the comparison fails exactly when the two series share no date or the symbols are equal, and reports an empty overlap exactly when they share no date |
| Analysis.TrendOf | app.py:40-58 | with fewer than 30 prices the trend is ESTABLE whatever the short average; with at least 30 it is ALCISTA, BAJISTA or ESTABLE exactly as the mean of the last 10 prices is above, below or equal to the mean of the last 30 |
| Analysis.CompareStep | app.py:82-84 | the comparison is skipped exactly when there is no second symbol or no data for it; otherwise the step's outcome is the comparison's |
| Analysis.Analyze | app.py:26-122 | the run stops with no data exactly when the primary series is empty; otherwise it shows the indicators of the primary prices and the signal of their last averages, and then either completes with the comparison step's result or fails with the comparison's error, keeping the primary view |
| Analysis.TrendScaleInvariant | app.py:40-58 | multiplying every price by c > 0 does not change the trend |
| Analysis.SignalIgnoresComparison | app.py:38-61 | the primary indicators and signal shown are the same whatever comparison is requested, including one that fails |
| Analysis.EmptyOverlapEndsRun | app.py:93 | a requested comparison that shares no date with the primary series makes the run fail with an empty overlap after the primary trend has been shown (the generic handler at lines 173-174 catches it) |
| Analysis.NoComparisonNeverFails | app.py:82 | without a second symbol a run with primary data always completes, with no comparison |

## Left out

- Streamlit widgets and all display: markdown, metrics, info boxes and download buttons.
- The yfinance download, the "Adj Close"/"Close" column choice and `dropna`. A request carries each ticker's series with missing prices already removed. An empty primary series stands for the empty-download stop.
- The realignment of the indicator columns onto the downloaded frame's rows. When `dropna` removes a row, pandas re-indexes the columns onto the original rows. The dropped row's moving averages become NaN. Its return is NaN too, since its `fillna(0)` ran before the realignment. The volatility therefore becomes 0 at that row and at the 19 rows after it, because every 20-wide window containing the NaN return is NaN until the volatility's own `fillna(0)`. If the last downloaded row had no price, the trend would read undefined averages and come out ESTABLE. The model assumes no price is missing, so the two indexings coincide.
- Repeated dates. Each series is assumed to carry a date at most once. With a repeated date the model's join takes the first price for it, whereas pandas' `concat` refuses duplicate index labels and the run ends in its generic handler.
- Indicators.SquaredVolatility: gives the square of the volatility, i.e. 20 times the sample variance of the window. The multiplication by √20 is left out because the square root of a real is not expressed here.
- Floating-point rounding. All arithmetic is exact over reals.
- Zero, negative and NaN prices. The `Price` type excludes them, so `pct_change` never divides by zero.
- The three headline metrics (last price, last volatility, mean return) and their number formatting. Only the values behind them are modelled, as the indicator columns.
- Charts, temporary image files, and the CSV and PDF reports. They are rendering and serialisation only. The PDF's texts are the signal and comparison strings that are modelled.
- Calendar dates. A `Date` is an integer day number, because the join only compares dates for equality and order.
