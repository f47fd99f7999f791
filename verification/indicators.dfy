/** The indicator engine: per-step returns, rolling volatility and the two
    backward-filled moving averages computed for one ordered price series. */
module Indicators {
  import opened Outcomes
  import opened Stats

  /** A market price. Every price the engine sees is strictly positive, so
      the percentage change is always defined. */
  type Price = x: real | x > 0.0 witness 1.0

  /** Width of the volatility window; its square root is also the scaling constant. */
  const VolatilityWindow: nat := 20
  /** Width of the short moving average (MA_Corta). */
  const ShortWindow: nat := 10
  /** Width of the long moving average (MA_Larga). */
  const LongWindow: nat := 30

  /** The return of one step, as pandas computes it: the ratio of the new
      price to the old one, less 1. */
  function StepReturn(prev: Price, cur: Price): real
  {
    (cur as real) / prev - 1.0
  }

  /** Percentage change of each price over the previous one; the first
      position, which has no predecessor, is filled with 0. */
  function Returns(p: seq<Price>): (r: seq<real>)
    ensures |r| == |p|
    ensures |p| > 0 ==> r[0] == 0.0
    ensures forall i :: 1 <= i < |p| ==> r[i] == (p[i] as real - p[i - 1]) / p[i - 1]
  {
    seq(|p|, i requires 0 <= i < |p| => if i == 0 then 0.0 else StepReturn(p[i - 1], p[i]))
  }

  /** A price level after one step with the given return. */
  function Grow(level: real, step: real): real
  {
    level * (1.0 + step)
  }

  /** Rebuilds a price path from its first price and its per-step returns:
      every later price is the previous one grown by that step's return. */
  function Compound(p0: real, r: seq<real>): (q: seq<real>)
    requires |r| > 0
    ensures |q| == |r|
  {
    if |r| == 1 then [p0]
    else
      var q := Compound(p0, r[..|r| - 1]);
      q + [Grow(q[|q| - 1], r[|r| - 1])]
  }

  /** Returns lose nothing but the starting level: compounding them from the
      first price gives back the whole series. */
  lemma {:induction false} ReturnsRoundTrip(p: seq<Price>)
    requires |p| > 0
    ensures Compound(p[0], Returns(p)) == p
  {
    var n := |p|;
    if n > 1 {
      var r := Returns(p);
      ReturnsPrefix(p, n - 1);
      ReturnsRoundTrip(p[..n - 1]);
      var q := Compound(p[0], r[..n - 1]);
      assert q == p[..n - 1];
      var step := r[n - 1];
      assert step == StepReturn(p[n - 2], p[n - 1]);
      GrowBack(p[n - 2], p[n - 1], step);
      assert Grow(q[n - 2], step) == p[n - 1];
      assert Compound(p[0], r) == q + [p[n - 1]];
      assert p == p[..n - 1] + [p[n - 1]];
    }
  }

  /** The returns of a prefix are the prefix of the returns. */
  lemma ReturnsPrefix(p: seq<Price>, k: nat)
    requires k <= |p|
    ensures Returns(p[..k]) == Returns(p)[..k]
  {
  }

  /** Growing a price by the return that leads to the next one reaches it. */
  lemma GrowBack(prev: Price, cur: Price, step: real)
    requires step == StepReturn(prev, cur)
    ensures Grow(prev, step) == cur
  {
  }

  /** Every price multiplied by the same positive factor. */
  function ScalePrices(c: real, p: seq<Price>): (q: seq<Price>)
    requires c > 0.0
    ensures |q| == |p|
    ensures forall i :: 0 <= i < |p| ==> q[i] == c * p[i]
  {
    seq(|p|, i requires 0 <= i < |p| => MulPositive(c, p[i]); c * p[i])
  }

  /** Returns do not depend on the price level. */
  lemma ReturnsScaleInvariant(c: real, p: seq<Price>)
    requires c > 0.0
    ensures Returns(ScalePrices(c, p)) == Returns(p)
  {
    var q, r := Returns(ScalePrices(c, p)), Returns(p);
    forall i | 0 <= i < |p|
      ensures q[i] == r[i]
    {
      ReturnsScaleAt(c, p, i);
    }
    assert q == r;
  }

  /** The return at one position is the same for the scaled series. */
  lemma {:induction false} ReturnsScaleAt(c: real, p: seq<Price>, i: nat)
    requires c > 0.0 && i < |p|
    ensures Returns(ScalePrices(c, p))[i] == Returns(p)[i]
  {
    if i > 0 {
      var q := ScalePrices(c, p);
      assert StepReturn(q[i - 1], q[i]) == StepReturn(p[i - 1], p[i]) by {
        ScalePricesAt(c, p, i - 1);
        ScalePricesAt(c, p, i);
        StepReturnScale(c, p[i - 1], p[i], q[i - 1], q[i]);
      }
      ReturnsAt(p, i);
      ReturnsAt(q, i);
    }
  }

  lemma ReturnsAt(p: seq<Price>, i: nat)
    requires 0 < i < |p|
    ensures Returns(p)[i] == StepReturn(p[i - 1], p[i])
  {
  }

  lemma ScalePricesAt(c: real, p: seq<Price>, i: nat)
    requires c > 0.0 && i < |p|
    ensures ScalePrices(c, p)[i] == c * p[i]
  {
  }

  /** Scaling both prices of a step by the same factor keeps its return. */
  lemma StepReturnScale(c: real, prev: Price, cur: Price, prev': Price, cur': Price)
    requires c > 0.0 && prev' == c * prev && cur' == c * cur
    ensures StepReturn(prev', cur') == StepReturn(prev, cur)
  {
    assert (c * cur) / (c * prev) == (cur as real) / prev;
  }

  /** Mean of the `w` values ending at position `i`. */
  function WindowMean(p: seq<real>, w: nat, i: nat): real
    requires 1 <= w && w - 1 <= i < |p|
  {
    Mean(p[i - w + 1..i + 1])
  }

  /** Rolling mean of width `w`: defined once `w` values are available,
      undefined (NaN) before that. */
  function RollingMean(p: seq<real>, w: nat): (m: seq<Option<real>>)
    requires w >= 1
    ensures |m| == |p|
    ensures forall i :: 0 <= i < |p| ==> (m[i].Some? <==> i >= w - 1)
  {
    seq(|p|, i requires 0 <= i < |p| =>
      if i >= w - 1 then Some(WindowMean(p, w, i)) else None)
  }

  /** Backward fill: every undefined position takes the next defined value
      after it; positions with no defined value after them stay undefined. */
  function BackFill<T>(s: seq<Option<T>>): (r: seq<Option<T>>)
    ensures |r| == |s|
    ensures forall i {:trigger s[i]} :: 0 <= i < |s| && s[i].Some? ==> r[i] == s[i]
    ensures forall i {:trigger s[i]} :: 0 <= i < |s| - 1 && s[i].None? ==> r[i] == r[i + 1]
    ensures |s| > 0 && s[|s| - 1].None? ==> r[|s| - 1].None?
  {
    if |s| == 0 then []
    else
      var rest := BackFill(s[1..]);
      assert forall i :: 1 <= i < |s| ==> s[i] == s[1..][i - 1];
      [if s[0].Some? || |rest| == 0 then s[0] else rest[0]] + rest
  }

  /** A position followed by undefined values up to a defined one takes that value. */
  lemma {:induction false} BackFillTakesNextDefined<T>(s: seq<Option<T>>, i: nat, j: nat)
    requires i <= j < |s|
    requires s[j].Some?
    requires forall k :: i <= k < j ==> s[k].None?
    ensures BackFill(s)[i] == s[j]
    decreases j - i
  {
    if i < j {
      assert s[i].None?;
      BackFillTakesNextDefined(s, i + 1, j);
    } else {
      assert s[i].Some?;
    }
  }

  /** A position with nothing defined at or after it stays undefined. */
  lemma {:induction false} BackFillKeepsUndefinedTail<T>(s: seq<Option<T>>, i: nat)
    requires i < |s|
    requires forall k :: i <= k < |s| ==> s[k].None?
    ensures BackFill(s)[i].None?
    decreases |s| - i
  {
    assert s[i].None?;
    if i + 1 < |s| {
      BackFillKeepsUndefinedTail(s, i + 1);
    }
  }

  /** When the first defined value sits at `j`, every position up to `j`
      takes it. */
  lemma BackFillLeading<T>(s: seq<Option<T>>, j: nat)
    requires j < |s| && s[j].Some?
    requires forall k :: 0 <= k < j ==> s[k].None?
    ensures forall i :: 0 <= i <= j ==> BackFill(s)[i] == s[j]
  {
    forall i | 0 <= i <= j
      ensures BackFill(s)[i] == s[j]
    {
      BackFillTakesNextDefined(s, i, j);
    }
  }

  /** With nothing defined, the backward fill leaves everything undefined. */
  lemma BackFillAllUndefined<T>(s: seq<Option<T>>)
    requires forall k :: 0 <= k < |s| ==> s[k].None?
    ensures forall i :: 0 <= i < |s| ==> BackFill(s)[i].None?
  {
    forall i | 0 <= i < |s|
      ensures BackFill(s)[i].None?
    {
      BackFillKeepsUndefinedTail(s, i);
    }
  }

  /** Moving average of width `w`, with the leading undefined positions
      backward-filled. It is defined everywhere exactly when there are at
      least `w` prices; from position `w - 1` on it is the mean of the `w`
      prices ending there, and every earlier position repeats position `w - 1`. */
  function MovingAverage(p: seq<Price>, w: nat): (ma: seq<Option<real>>)
    requires w >= 1
    ensures |ma| == |p|
    ensures forall i :: 0 <= i < |p| ==> (ma[i].Some? <==> |p| >= w)
    ensures forall i :: w - 1 <= i < |p| ==> ma[i] == Some(WindowMean(p, w, i))
    ensures forall i :: 0 <= i < w - 1 && |p| >= w ==> ma[i] == ma[w - 1]
  {
    var m := RollingMean(p, w);
    var r := BackFill(m);
    if |p| < w then
      BackFillAllUndefined(m);
      r
    else
      BackFillLeading(m, w - 1);
      assert forall i :: w - 1 <= i < |p| ==> m[i] == Some(WindowMean(p, w, i));
      assert forall i :: 0 <= i < |p| ==> r[i].Some? by {
        forall i | 0 <= i < |p|
          ensures r[i].Some?
        {
          if i < w - 1 {
            assert r[i] == m[w - 1];
          } else {
            assert m[i].Some?;
          }
        }
      }
      r
  }

  /** Every defined moving-average value lies within any bounds on the prices. */
  lemma MovingAverageWithinPriceRange(p: seq<Price>, w: nat, lo: real, hi: real)
    requires w >= 1
    requires forall i :: 0 <= i < |p| ==> lo <= p[i] <= hi
    ensures forall i :: 0 <= i < |p| && MovingAverage(p, w)[i].Some? ==>
      lo <= MovingAverage(p, w)[i].value <= hi
  {
    if |p| >= w {
      forall i | w - 1 <= i < |p|
        ensures lo <= WindowMean(p, w, i) <= hi
      {
        MeanWithin(p[i - w + 1..i + 1], lo, hi);
      }
    }
  }

  /** A possibly undefined value multiplied by `c`; undefined stays undefined. */
  function ScaleOption(c: real, o: Option<real>): Option<real>
  {
    match o
    case None => None
    case Some(v) => Some(Times(c, v))
  }

  /** A window mean of scaled prices is the scaled window mean. */
  lemma WindowMeanScale(c: real, p: seq<Price>, w: nat, i: nat)
    requires c > 0.0
    requires 1 <= w && w - 1 <= i < |p|
    ensures WindowMean(ScalePrices(c, p), w, i) == c * WindowMean(p, w, i)
  {
    var q := ScalePrices(c, p);
    var lo := i - w + 1;
    var win: seq<real> := p[lo..i + 1];
    assert |q[lo..i + 1]| == |win|;
    forall j | 0 <= j < |win|
      ensures q[lo..i + 1][j] == Scale(c, win)[j]
    {
      assert q[lo..i + 1][j] == q[lo + j] == c * p[lo + j];
    }
    assert q[lo..i + 1] == Scale(c, win);
    MeanScale(c, win);
  }

  /** Moving averages follow the price level: scaling every price by `c`
      scales every defined average by `c` and leaves undefined ones undefined. */
  lemma MovingAverageScale(c: real, p: seq<Price>, w: nat)
    requires c > 0.0
    requires w >= 1
    ensures forall i :: 0 <= i < |p| ==>
      MovingAverage(ScalePrices(c, p), w)[i] == ScaleOption(c, MovingAverage(p, w)[i])
  {
    forall i | 0 <= i < |p|
      ensures MovingAverage(ScalePrices(c, p), w)[i] == ScaleOption(c, MovingAverage(p, w)[i])
    {
      MovingAverageScaleAt(c, p, w, i);
    }
  }

  lemma MovingAverageScaleAt(c: real, p: seq<Price>, w: nat, i: nat)
    requires c > 0.0
    requires w >= 1 && i < |p|
    ensures MovingAverage(ScalePrices(c, p), w)[i] == ScaleOption(c, MovingAverage(p, w)[i])
  {
    var q := ScalePrices(c, p);
    if |p| >= w && i >= w - 1 {
      MovingAverageScaleWindowed(c, p, w, i);
    } else if |p| >= w {
      MovingAverageScaleWindowed(c, p, w, w - 1);
    }
  }

  lemma MovingAverageScaleWindowed(c: real, p: seq<Price>, w: nat, i: nat)
    requires c > 0.0
    requires 1 <= w && w - 1 <= i < |p|
    ensures MovingAverage(ScalePrices(c, p), w)[i] == ScaleOption(c, MovingAverage(p, w)[i])
  {
    ScaledMovingAverageAt(c, p, w, i);
  }

  lemma ScaledMovingAverageAt(c: real, p: seq<Price>, w: nat, i: nat)
    requires c > 0.0
    requires 1 <= w && w - 1 <= i < |p|
    ensures MovingAverage(ScalePrices(c, p), w)[i] == Some(Times(c, WindowMean(p, w, i)))
  {
    WindowMeanScale(c, p, w, i);
  }

  /** The rolling mean computed the way a streaming implementation does it:
      one running sum, adding the entering price and dropping the leaving one. */
  method RollingMeanBySlidingSum(p: seq<real>, w: nat) returns (m: seq<Option<real>>)
    requires w >= 1
    ensures m == RollingMean(p, w)
  {
    m := [];
    var s := 0.0;
    var i := 0;
    while i < |p|
      invariant 0 <= i <= |p|
      invariant |m| == i
      invariant forall k :: 0 <= k < i ==> m[k] == RollingMean(p, w)[k]
      invariant s == Sum(p[SumStart(w, i)..i])
    {
      SlidingStep(p, w, i);
      s := s + p[i] - (if i >= w then p[i - w] else 0.0);
      var next := if i >= w - 1 then Some(s / (w as real)) else None;
      assert next == RollingMean(p, w)[i];
      m := m + [next];
      i := i + 1;
    }
  }

  /** Where the running sum starts after `i` prices: the last `w` of them. */
  function SumStart(w: nat, i: nat): nat
  {
    if i >= w then i - w else 0
  }

  /** Adding the entering price and dropping the leaving one moves the
      running sum one position on; once the window is full, the sum over
      `w` gives the window mean. */
  lemma SlidingStep(p: seq<real>, w: nat, i: nat)
    requires w >= 1 && i < |p|
    ensures Sum(p[SumStart(w, i + 1)..i + 1]) ==
      Sum(p[SumStart(w, i)..i]) + p[i] - (if i >= w then p[i - w] else 0.0)
    ensures RollingMean(p, w)[i] ==
      if i >= w - 1 then Some(Sum(p[SumStart(w, i + 1)..i + 1]) / (w as real)) else None
  {
    SumSliceExtend(p, SumStart(w, i), i);
    if i >= w {
      SumSliceDrop(p, i - w, i + 1);
    }
  }


  /** Squared rolling volatility: `w` times the sample variance of the last
      `w` returns once the window is full, 0 before that. The reported
      volatility is its square root. */
  function SquaredVolatility(r: seq<real>, w: nat): (v: seq<real>)
    requires w >= 2
    ensures |v| == |r|
    ensures forall i :: 0 <= i < |r| ==> v[i] >= 0.0
    ensures forall i :: 0 <= i < |r| && i < w - 1 ==> v[i] == 0.0
  {
    seq(|r|, i requires 0 <= i < |r| =>
      if i < w - 1 then 0.0 else Times(w as real, SampleVariance(r[i - w + 1..i + 1])))
  }

  /** Once the window is full, volatility is zero exactly when every return
      in the window is the same. */
  lemma VolatilityZeroIff(r: seq<real>, w: nat, i: nat)
    requires w >= 2
    requires w - 1 <= i < |r|
    ensures SquaredVolatility(r, w)[i] == 0.0 <==> AllEqual(r[i - w + 1..i + 1])
  {
    var win := r[i - w + 1..i + 1];
    VarianceZeroIff(win);
    var v := SampleVariance(win);
    assert (w as real) * v == 0.0 <==> v == 0.0 by {
      if v > 0.0 {
        MulPositive(w as real, v);
      }
    }
  }

  /** Volatility measures the spread of returns, not their level: adding
      the same constant to every return leaves it unchanged. */
  lemma VolatilityShiftInvariant(k: real, r: seq<real>, w: nat)
    requires w >= 2
    ensures SquaredVolatility(Shift(k, r), w) == SquaredVolatility(r, w)
  {
    forall i | w - 1 <= i < |r|
      ensures SquaredVolatility(Shift(k, r), w)[i] == SquaredVolatility(r, w)[i]
    {
      VolatilityShiftAt(k, r, w, i);
    }
  }

  lemma VolatilityShiftAt(k: real, r: seq<real>, w: nat, i: nat)
    requires w >= 2 && w - 1 <= i < |r|
    ensures SquaredVolatility(Shift(k, r), w)[i] == SquaredVolatility(r, w)[i]
  {
    var lo := i - w + 1;
    ShiftSlice(k, r, lo, i + 1);
    VarianceShift(k, r[lo..i + 1]);
    VolatilityAt(Shift(k, r), w, i);
    VolatilityAt(r, w, i);
  }

  /** With a full window, the squared volatility is `w` times the sample
      variance of the last `w` returns. */
  lemma VolatilityAt(r: seq<real>, w: nat, i: nat)
    requires w >= 2 && w - 1 <= i < |r|
    ensures SquaredVolatility(r, w)[i] == Times(w as real, SampleVariance(r[i - w + 1..i + 1]))
  {
  }

  /** A full window's squared volatility from its two running sums: the sum
      of its returns and the sum of their squares. */
  lemma VolatilityFromSums(r: seq<real>, w: nat, i: nat)
    requires w >= 2 && w - 1 <= i < |r|
    ensures SquaredVolatility(r, w)[i] ==
      Times(w as real, VarianceFromSums(w, Sum(r[i - w + 1..i + 1]), Sum(Squares(r)[i - w + 1..i + 1])))
  {
    var window := r[i - w + 1..i + 1];
    VolatilityAt(r, w, i);
    VarianceBySums(window);
    SquaresSlice(r, i - w + 1, i + 1);
  }

  /** The same, with the window written as the loop below tracks it. */
  lemma VolatilityFromRunningSums(r: seq<real>, w: nat, i: nat)
    requires w >= 2 && w - 1 <= i < |r|
    ensures SquaredVolatility(r, w)[i] == Times(w as real, VarianceFromSums(w,
      Sum(r[SumStart(w, i + 1)..i + 1]), Sum(Squares(r)[SumStart(w, i + 1)..i + 1])))
  {
    assert SumStart(w, i + 1) == i - w + 1;
    VolatilityFromSums(r, w, i);
  }

  /** One pass over the returns that slides the window, adding the entering
      return and its square and dropping the leaving ones, computes the
      squared volatility of every position. */
  method VolatilityBySlidingSums(r: seq<real>, w: nat) returns (v: seq<real>)
    requires w >= 2
    ensures v == SquaredVolatility(r, w)
  {
    var q := Squares(r);
    ghost var sv := SquaredVolatility(r, w);
    v := [];
    var s1, s2 := 0.0, 0.0;
    var i := 0;
    while i < |r|
      invariant 0 <= i <= |r|
      invariant v == sv[..i]
      invariant s1 == Sum(r[SumStart(w, i)..i])
      invariant s2 == Sum(q[SumStart(w, i)..i])
    {
      SlidingStep(r, w, i);
      SlidingStep(q, w, i);
      s1 := s1 + r[i] - (if i >= w then r[i - w] else 0.0);
      s2 := s2 + q[i] - (if i >= w then q[i - w] else 0.0);
      var next := 0.0;
      if i >= w - 1 {
        VolatilityFromRunningSums(r, w, i);
        next := Times(w as real, VarianceFromSums(w, s1, s2));
      }
      assert next == sv[i];
      assert sv[..i + 1] == sv[..i] + [sv[i]];
      v := v + [next];
      i := i + 1;
    }
    assert sv[..|r|] == sv;
  }

  /** The four indicator columns of one run, parallel to the price series. */
  datatype IndicatorSet = IndicatorSet(
    stepReturns: seq<real>,
    squaredVolatility: seq<real>,
    maShort: seq<Option<real>>,
    maLong: seq<Option<real>>)

  /** All indicators of a price series: the step returns, the squared
      volatility of the last `VolatilityWindow` returns, and both moving
      averages, each back-filled before its first full window. */
  function Compute(p: seq<Price>): (ind: IndicatorSet)
    ensures |ind.stepReturns| == |p| && |ind.squaredVolatility| == |p|
    ensures |ind.maShort| == |p| && |ind.maLong| == |p|
    ensures |p| > 0 ==> ind.stepReturns[0] == 0.0
    ensures forall i :: 1 <= i < |p| ==> ind.stepReturns[i] == (p[i] as real - p[i - 1]) / p[i - 1]
    ensures forall i :: VolatilityWindow - 1 <= i < |p| ==>
      ind.squaredVolatility[i] ==
        Times(VolatilityWindow as real, SampleVariance(ind.stepReturns[i - VolatilityWindow + 1..i + 1]))
    ensures forall i :: ShortWindow - 1 <= i < |p| ==> ind.maShort[i] == Some(WindowMean(p, ShortWindow, i))
    ensures forall i :: 0 <= i < ShortWindow - 1 && |p| >= ShortWindow ==> ind.maShort[i] == ind.maShort[ShortWindow - 1]
    ensures forall i :: LongWindow - 1 <= i < |p| ==> ind.maLong[i] == Some(WindowMean(p, LongWindow, i))
    ensures forall i :: 0 <= i < LongWindow - 1 && |p| >= LongWindow ==> ind.maLong[i] == ind.maLong[LongWindow - 1]
    ensures forall i :: 0 <= i < |p| ==> ind.squaredVolatility[i] >= 0.0
    ensures forall i :: 0 <= i < |p| && i < VolatilityWindow - 1 ==> ind.squaredVolatility[i] == 0.0
    ensures |p| < ShortWindow ==> forall i :: 0 <= i < |p| ==> ind.maShort[i].None?
    ensures |p| < LongWindow ==> forall i :: 0 <= i < |p| ==> ind.maLong[i].None?
  {
    var r := Returns(p);
    var v := SquaredVolatility(r, VolatilityWindow);
    assert forall i :: VolatilityWindow - 1 <= i < |p| ==>
      v[i] == Times(VolatilityWindow as real, SampleVariance(r[i - VolatilityWindow + 1..i + 1])) by {
      forall i | VolatilityWindow - 1 <= i < |p| {
        VolatilityAt(r, VolatilityWindow, i);
      }
    }
    IndicatorSet(r, v, MovingAverage(p, ShortWindow), MovingAverage(p, LongWindow))
  }

  /** Scaling every price by a positive factor leaves returns and volatility
      unchanged and scales both moving averages by the same factor. */
  lemma ComputeScale(c: real, p: seq<Price>)
    requires c > 0.0
    ensures Compute(ScalePrices(c, p)).stepReturns == Compute(p).stepReturns
    ensures Compute(ScalePrices(c, p)).squaredVolatility == Compute(p).squaredVolatility
    ensures forall i :: 0 <= i < |p| ==>
      Compute(ScalePrices(c, p)).maShort[i] == ScaleOption(c, Compute(p).maShort[i])
    ensures forall i :: 0 <= i < |p| ==>
      Compute(ScalePrices(c, p)).maLong[i] == ScaleOption(c, Compute(p).maLong[i])
  {
    ReturnsScaleInvariant(c, p);
    MovingAverageScale(c, p, ShortWindow);
    MovingAverageScale(c, p, LongWindow);
  }
}
