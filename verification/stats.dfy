/** Descriptive statistics over real-valued samples: sums, means and the
    sample (ddof = 1) variance used by the rolling indicators. */
module Stats {

  /** Sum of a sample, folded from the front. */
  function Sum(xs: seq<real>): real
  {
    if |xs| == 0 then 0.0 else xs[0] + Sum(xs[1..])
  }

  /** Arithmetic mean of a non-empty sample. */
  function Mean(xs: seq<real>): real
    requires |xs| > 0
  {
    Sum(xs) / (|xs| as real)
  }

  /** Sum of squared deviations of the sample from `m`. */
  function SumSqDev(xs: seq<real>, m: real): (r: real)
    ensures r >= 0.0
  {
    if |xs| == 0 then 0.0 else Sq(xs[0] - m) + SumSqDev(xs[1..], m)
  }

  /** The squared deviations add up to 0 exactly when every sample equals the centre. */
  lemma {:induction false} SumSqDevZeroIff(xs: seq<real>, m: real)
    ensures SumSqDev(xs, m) == 0.0 <==> forall i :: 0 <= i < |xs| ==> xs[i] == m
  {
    if |xs| > 0 {
      SumSqDevZeroIff(xs[1..], m);
      assert forall i :: 1 <= i < |xs| ==> xs[i] == xs[1..][i - 1];
    }
  }

  /** The square of a deviation: never negative, and positive unless the deviation is 0. */
  function Sq(d: real): (q: real)
    ensures q >= 0.0
    ensures q == 0.0 <==> d == 0.0
  {
    Square(d);
    d * d
  }

  function Abs(x: real): (a: real)
    ensures a >= 0.0
  {
    if x < 0.0 then -x else x
  }

  lemma MulPositive(a: real, b: real)
    requires a > 0.0 && b > 0.0
    ensures a * b > 0.0
  {
  }

  /** A square equals the product of the two absolute values `|d|` and
      `|-d|`, which is never negative and is positive when `d` is not 0.
      The product of absolute values is only a proof device: it lets the
      sign of the square follow from the sign of a product of positives. */
  lemma Square(d: real)
    ensures d * d == Abs(d) * Abs(-d)
    ensures Abs(d) * Abs(-d) >= 0.0
    ensures d != 0.0 ==> Abs(d) * Abs(-d) > 0.0
  {
    if d < 0.0 {
      assert d * d == (-d) * (-d);
    }
    if d != 0.0 {
      MulPositive(Abs(d), Abs(-d));
    }
  }

  /** Sample variance with one degree of freedom removed (pandas' default). */
  function SampleVariance(xs: seq<real>): (v: real)
    requires |xs| >= 2
    ensures v >= 0.0
  {
    SumSqDev(xs, Mean(xs)) / ((|xs| - 1) as real)
  }

  /** Multiplies every element of a sample by `c`. */
  function Scale(c: real, xs: seq<real>): (ys: seq<real>)
    ensures |ys| == |xs|
    ensures forall i :: 0 <= i < |xs| ==> ys[i] == c * xs[i]
  {
    seq(|xs|, i requires 0 <= i < |xs| => c * xs[i])
  }

  /** Plain multiplication `c * v`, kept as a named function so that equal
      factors give equal products by congruence in the proofs: a rescaled
      price level, or a window's sample variance times the window width. */
  function Times(c: real, v: real): real
  {
    c * v
  }

  /** Multiplying by a positive factor preserves order and equality. */
  lemma TimesOrder(c: real, a: real, b: real)
    requires c > 0.0
    ensures Times(c, a) > Times(c, b) <==> a > b
    ensures Times(c, a) == Times(c, b) <==> a == b
  {
    assert Times(c, a) - Times(c, b) == c * (a - b);
    if a > b {
      MulPositive(c, a - b);
    } else if b > a {
      MulPositive(c, b - a);
    }
  }

  /** Every element of the sample is the same. */
  predicate AllEqual(xs: seq<real>)
  {
    forall i, j :: 0 <= i < |xs| && 0 <= j < |xs| ==> xs[i] == xs[j]
  }

  lemma {:induction false} SumAppend(xs: seq<real>, x: real)
    ensures Sum(xs + [x]) == Sum(xs) + x
  {
    if |xs| > 0 {
      assert (xs + [x])[1..] == xs[1..] + [x];
      SumAppend(xs[1..], x);
    }
  }

  /** A slice grows by its next element. */
  lemma SumSliceExtend(xs: seq<real>, lo: int, hi: int)
    requires 0 <= lo <= hi < |xs|
    ensures Sum(xs[lo..hi + 1]) == Sum(xs[lo..hi]) + xs[hi]
  {
    assert xs[lo..hi + 1] == xs[lo..hi] + [xs[hi]];
    SumAppend(xs[lo..hi], xs[hi]);
  }

  /** A slice shrinks by its first element. */
  lemma SumSliceDrop(xs: seq<real>, lo: int, hi: int)
    requires 0 <= lo < hi <= |xs|
    ensures Sum(xs[lo + 1..hi]) == Sum(xs[lo..hi]) - xs[lo]
  {
    assert xs[lo..hi][1..] == xs[lo + 1..hi];
  }

  lemma {:induction false} SumScale(c: real, xs: seq<real>)
    ensures Sum(Scale(c, xs)) == c * Sum(xs)
  {
    if |xs| > 0 {
      var ys := Scale(c, xs);
      ScaleTail(c, xs);
      SumScale(c, xs[1..]);
      assert Sum(ys) == ys[0] + Sum(ys[1..]);
      assert ys[0] == c * xs[0];
      Distribute(c, xs[0], Sum(xs[1..]));
    }
  }

  lemma ScaleTail(c: real, xs: seq<real>)
    requires |xs| > 0
    ensures Scale(c, xs)[1..] == Scale(c, xs[1..])
  {
    assert forall i :: 0 <= i < |xs| - 1 ==> Scale(c, xs)[1..][i] == Scale(c, xs[1..])[i];
  }

  lemma Distribute(c: real, a: real, b: real)
    ensures c * a + c * b == c * (a + b)
  {
  }

  /** The mean is linear: scaling the sample scales the mean. */
  lemma MeanScale(c: real, xs: seq<real>)
    requires |xs| > 0
    ensures Mean(Scale(c, xs)) == c * Mean(xs)
  {
    var n := |xs| as real;
    SumScale(c, xs);
    assert Mean(Scale(c, xs)) == Sum(Scale(c, xs)) / n;
    DivScale(c, Sum(xs), n);
  }

  lemma DivScale(c: real, s: real, n: real)
    requires n > 0.0
    ensures (c * s) / n == c * (s / n)
  {
  }

  lemma {:induction false} SumBounds(xs: seq<real>, lo: real, hi: real)
    requires forall i :: 0 <= i < |xs| ==> lo <= xs[i] <= hi
    ensures (|xs| as real) * lo <= Sum(xs) <= (|xs| as real) * hi
  {
    if |xs| > 0 {
      var rest := xs[1..];
      assert forall i :: 0 <= i < |rest| ==> rest[i] == xs[i + 1];
      SumBounds(rest, lo, hi);
      assert Sum(xs) == xs[0] + Sum(rest);
      BoundStep(|xs| as real, |rest| as real, lo, hi, Sum(rest), xs[0]);
    }
  }

  /** One more element within `[lo, hi]` moves the bounds `k * lo` and
      `k * hi` of a sum to `n * lo` and `n * hi`, where `n = k + 1`. */
  lemma BoundStep(n: real, k: real, lo: real, hi: real, s: real, x: real)
    requires n == k + 1.0
    requires k * lo <= s <= k * hi && lo <= x <= hi
    ensures n * lo <= s + x <= n * hi
  {
  }

  /** The mean lies between any lower and upper bound of the sample. */
  lemma MeanWithin(xs: seq<real>, lo: real, hi: real)
    requires |xs| > 0
    requires forall i :: 0 <= i < |xs| ==> lo <= xs[i] <= hi
    ensures lo <= Mean(xs) <= hi
  {
    SumBounds(xs, lo, hi);
    var n := |xs| as real;
    assert Sum(xs) / n >= (n * lo) / n;
    assert Sum(xs) / n <= (n * hi) / n;
  }

  /** The mean of a constant sample is that constant. */
  lemma MeanOfConstant(xs: seq<real>, c: real)
    requires |xs| > 0
    requires forall i :: 0 <= i < |xs| ==> xs[i] == c
    ensures Mean(xs) == c
  {
    MeanWithin(xs, c, c);
  }

  /** The sample variance vanishes exactly when every element is the same. */
  lemma VarianceZeroIff(xs: seq<real>)
    requires |xs| >= 2
    ensures SampleVariance(xs) == 0.0 <==> AllEqual(xs)
  {
    var m := Mean(xs);
    var k := (|xs| - 1) as real;
    assert SampleVariance(xs) == 0.0 <==> SumSqDev(xs, m) == 0.0 by {
      assert SumSqDev(xs, m) / k == 0.0 <==> SumSqDev(xs, m) == 0.0;
    }
    SumSqDevZeroIff(xs, m);
    if AllEqual(xs) {
      MeanOfConstant(xs, xs[0]);
    }
  }

  /** Adds `k` to every element of a sample. */
  function Shift(k: real, xs: seq<real>): (ys: seq<real>)
    ensures |ys| == |xs|
    ensures forall i :: 0 <= i < |xs| ==> ys[i] == xs[i] + k
  {
    seq(|xs|, i requires 0 <= i < |xs| => xs[i] + k)
  }

  /** Shifting every element by `k` adds `n * k` to the sum. */
  lemma {:induction false} SumShift(k: real, xs: seq<real>)
    ensures Sum(Shift(k, xs)) == Sum(xs) + (|xs| as real) * k
  {
    if |xs| > 0 {
      var ys := Shift(k, xs);
      assert forall i :: 0 <= i < |xs| - 1 ==> ys[1..][i] == Shift(k, xs[1..])[i];
      assert ys[1..] == Shift(k, xs[1..]);
      SumShift(k, xs[1..]);
      var n := |xs[1..]| as real;
      assert Sum(ys) == xs[0] + k + Sum(xs[1..]) + n * k;
      Distribute(k, n, 1.0);
      assert n + 1.0 == |xs| as real;
    }
  }

  /** Shifting a sample shifts its mean by the same amount. */
  lemma MeanShift(k: real, xs: seq<real>)
    requires |xs| > 0
    ensures Mean(Shift(k, xs)) == Mean(xs) + k
  {
    SumShift(k, xs);
    var n := |xs| as real;
    assert Mean(Shift(k, xs)) == (Sum(xs) + n * k) / n;
    SplitQuotient(Sum(xs), n, k);
  }

  lemma SplitQuotient(s: real, n: real, k: real)
    requires n > 0.0
    ensures (s + n * k) / n == s / n + k
  {
  }

  /** Deviations from a centre do not change when sample and centre move together. */
  lemma {:induction false} SumSqDevShift(k: real, xs: seq<real>, m: real)
    ensures SumSqDev(Shift(k, xs), m + k) == SumSqDev(xs, m)
  {
    if |xs| > 0 {
      var ys := Shift(k, xs);
      assert forall i :: 0 <= i < |xs| - 1 ==> ys[1..][i] == Shift(k, xs[1..])[i];
      assert ys[1..] == Shift(k, xs[1..]);
      SumSqDevShift(k, xs[1..], m);
      SumSqDevSameHead(ys, m + k, xs, m);
    }
  }

  /** Two samples with the same leading deviation and the same rest have
      the same sum of squared deviations. */
  lemma SumSqDevSameHead(xs: seq<real>, m: real, ys: seq<real>, n: real)
    requires |xs| > 0 && |ys| > 0
    requires xs[0] - m == ys[0] - n
    requires SumSqDev(xs[1..], m) == SumSqDev(ys[1..], n)
    ensures SumSqDev(xs, m) == SumSqDev(ys, n)
  {
    assert SumSqDev(xs, m) == Sq(xs[0] - m) + SumSqDev(xs[1..], m);
    assert SumSqDev(ys, n) == Sq(ys[0] - n) + SumSqDev(ys[1..], n);
  }

  /** The sample variance measures spread only: shifting the sample leaves it unchanged. */
  lemma VarianceShift(k: real, xs: seq<real>)
    requires |xs| >= 2
    ensures SampleVariance(Shift(k, xs)) == SampleVariance(xs)
  {
    MeanShift(k, xs);
    SumSqDevShift(k, xs, Mean(xs));
  }

  /** Shifting commutes with slicing. */
  lemma ShiftSlice(k: real, xs: seq<real>, lo: nat, hi: nat)
    requires lo <= hi <= |xs|
    ensures Shift(k, xs)[lo..hi] == Shift(k, xs[lo..hi])
  {
    assert forall j :: 0 <= j < hi - lo ==> Shift(k, xs)[lo..hi][j] == Shift(k, xs[lo..hi])[j];
  }

  /** The square of every element of a sample. */
  function Squares(xs: seq<real>): (ys: seq<real>)
    ensures |ys| == |xs|
    ensures forall i :: 0 <= i < |xs| ==> ys[i] == Sq(xs[i])
  {
    seq(|xs|, i requires 0 <= i < |xs| => Sq(xs[i]))
  }

  /** Squaring commutes with slicing. */
  lemma SquaresSlice(xs: seq<real>, lo: nat, hi: nat)
    requires lo <= hi <= |xs|
    ensures Squares(xs)[lo..hi] == Squares(xs[lo..hi])
  {
    assert forall j :: 0 <= j < hi - lo ==> Squares(xs)[lo..hi][j] == Squares(xs[lo..hi])[j];
  }

  /** The ddof-1 variance of `n` samples from their sum `s1` and their sum
      of squares `s2`. */
  function VarianceFromSums(n: nat, s1: real, s2: real): real
    requires n >= 2
  {
    (s2 - Sq(s1) / (n as real)) / ((n - 1) as real)
  }

  /** Expanding the squares: the squared deviations from `m` are the sum of
      squares, less twice `m` times the sum, plus `n` times the square of `m`. */
  lemma {:induction false} SumSqDevExpand(xs: seq<real>, m: real)
    ensures SumSqDev(xs, m) == Sum(Squares(xs)) - 2.0 * Times(m, Sum(xs)) + Times(|xs| as real, Sq(m))
  {
    if |xs| > 0 {
      var rest := xs[1..];
      SumSqDevExpand(rest, m);
      assert Squares(xs)[1..] == Squares(rest) by {
        SquaresSlice(xs, 1, |xs|);
        assert xs[1..|xs|] == rest;
      }
      SqDiff(xs[0], m);
      TimesSplit(m, xs[0], Sum(rest));
      TimesSucc(|rest| as real, Sq(m));
      assert |xs| as real == (|rest| as real) + 1.0;
    }
  }

  lemma SqDiff(x: real, m: real)
    ensures Sq(x - m) == Sq(x) - 2.0 * Times(m, x) + Sq(m)
  {
    assert (x - m) * (x - m) == x * x - 2.0 * (m * x) + m * m;
  }

  lemma TimesSplit(c: real, a: real, b: real)
    ensures Times(c, a + b) == Times(c, a) + Times(c, b)
  {
    Distribute(c, a, b);
  }

  lemma TimesSucc(k: real, v: real)
    ensures Times(k + 1.0, v) == Times(k, v) + v
  {
  }

  /** The sample variance computed from running sums: the sum of squares
      less the squared sum over `n`, divided by `n - 1`. */
  lemma VarianceBySums(xs: seq<real>)
    requires |xs| >= 2
    ensures SampleVariance(xs) == VarianceFromSums(|xs|, Sum(xs), Sum(Squares(xs)))
  {
    var m := Mean(xs);
    SumSqDevExpand(xs, m);
    VarianceStep(SumSqDev(xs, m), Sum(xs), Sum(Squares(xs)), m, |xs|);
  }

  /** The expanded squared deviations of `k` samples around their mean,
      divided by `k - 1`, are the variance from running sums. */
  lemma VarianceStep(d: real, s1: real, s2: real, m: real, k: nat)
    requires k >= 2 && m == s1 / (k as real)
    requires d == s2 - 2.0 * Times(m, s1) + Times(k as real, Sq(m))
    ensures d / ((k - 1) as real) == VarianceFromSums(k, s1, s2)
  {
    CentredNumerator(d, s1, s2, m, k as real);
    QuotientOfEqual(d, s2 - Sq(s1) / (k as real), (k - 1) as real);
  }

  /** Around the mean `s1 / n` the expanded squared deviations reduce to the
      sum of squares less the squared sum over `n`. */
  lemma CentredNumerator(d: real, s1: real, s2: real, m: real, n: real)
    requires n > 0.0 && m == s1 / n
    requires d == s2 - 2.0 * Times(m, s1) + Times(n, Sq(m))
    ensures d == s2 - Sq(s1) / n
  {
    CentredSquares(s1, n);
  }

  lemma QuotientOfEqual(a: real, b: real, q: real)
    requires a == b && q != 0.0
    ensures a / q == b / q
  {
  }

  /** With `m` the mean `s1 / n`, twice `m * s1` less `n * m * m` is `s1 * s1 / n`. */
  lemma CentredSquares(s1: real, n: real)
    requires n > 0.0
    ensures 2.0 * Times(s1 / n, s1) - Times(n, Sq(s1 / n)) == Sq(s1) / n
  {
    var m := s1 / n;
    assert s1 == m * n;
    assert Times(m, s1) == n * (m * m);
    assert Times(n, Sq(m)) == n * (m * m);
    assert Sq(s1) == (m * n) * (m * n);
    assert Sq(s1) / n == n * (m * m);
  }
}
