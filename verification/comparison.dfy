/** The comparative evaluator: inner-joins two date-keyed price series,
    rebases both to 100 at the first common date and names the stronger one. */
module Comparison {
  import opened Outcomes
  import opened Indicators
  import opened Texts

  /** A trading date as a day number; only its order matters. */
  type Date = int

  /** A downloaded price series: (date, price) pairs. */
  type Series = seq<(Date, Price)>

  /** Dates strictly increase along the series (so no date repeats). */
  predicate Ascending(s: Series)
  {
    forall i, j :: 0 <= i < j < |s| ==> s[i].0 < s[j].0
  }

  /** The dates a series has a price for. */
  function Dates(s: Series): set<Date>
  {
    set k | 0 <= k < |s| :: s[k].0
  }

  lemma DatesCons(s: Series)
    requires |s| > 0
    ensures Dates(s) == {s[0].0} + Dates(s[1..])
  {
    forall d | d in Dates(s)
      ensures d in {s[0].0} + Dates(s[1..])
    {
      var k :| 0 <= k < |s| && s[k].0 == d;
      if k > 0 {
        assert s[1..][k - 1].0 == d;
      }
    }
    forall d | d in Dates(s[1..])
      ensures d in Dates(s)
    {
      var k :| 0 <= k < |s[1..]| && s[1..][k].0 == d;
      assert s[k + 1].0 == d;
    }
  }

  /** The price a series records for a date, if it has one. */
  function PriceOn(s: Series, d: Date): (r: Option<Price>)
    ensures r.Some? <==> d in Dates(s)
    ensures r.Some? ==> (d, r.value) in s
  {
    if |s| == 0 then None
    else
      DatesCons(s);
      if s[0].0 == d then Some(s[0].1) else PriceOn(s[1..], d)
  }

  /** One row of the inner join: a common date and each series' price on it. */
  datatype Row = Row(date: Date, primary: Price, other: Price)

  /** Inner join on dates, in the primary series' order: a row for every
      date of `a` that `b` also has. */
  function Align(a: Series, b: Series): (rows: seq<Row>)
    ensures |rows| <= |a|
    ensures forall k :: 0 <= k < |rows| ==>
      (rows[k].date, rows[k].primary) in a && (rows[k].date, rows[k].other) in b
  {
    if |a| == 0 then []
    else
      var rest := Align(a[1..], b);
      match PriceOn(b, a[0].0)
      case None => rest
      case Some(y) => [Row(a[0].0, a[0].1, y)] + rest
  }

  /** The dates of the joined rows. */
  function RowDates(rows: seq<Row>): set<Date>
  {
    set k | 0 <= k < |rows| :: rows[k].date
  }

  /** The join keeps exactly the dates present in both series. */
  lemma {:induction false} AlignDates(a: Series, b: Series)
    ensures RowDates(Align(a, b)) == Dates(a) * Dates(b)
  {
    if |a| > 0 {
      AlignDates(a[1..], b);
      DatesCons(a);
      var rest := Align(a[1..], b);
      match PriceOn(b, a[0].0)
      case None =>
        assert Align(a, b) == rest;
      case Some(y) =>
        var row := Row(a[0].0, a[0].1, y);
        assert Align(a, b) == [row] + rest;
        RowDatesCons(row, rest);
    }
  }

  lemma RowDatesCons(row: Row, rest: seq<Row>)
    ensures RowDates([row] + rest) == {row.date} + RowDates(rest)
  {
    var rows := [row] + rest;
    forall d | d in RowDates(rows)
      ensures d in {row.date} + RowDates(rest)
    {
      var k :| 0 <= k < |rows| && rows[k].date == d;
      if k > 0 {
        assert rest[k - 1].date == d;
      }
    }
    forall d | d in RowDates(rest)
      ensures d in RowDates(rows)
    {
      var k :| 0 <= k < |rest| && rest[k].date == d;
      assert rows[k + 1].date == d;
    }
    assert rows[0].date == row.date;
  }

  /** Row dates strictly increase along the join. */
  predicate RowsAscending(rows: seq<Row>)
  {
    forall i, j :: 0 <= i < j < |rows| ==> rows[i].date < rows[j].date
  }

  /** In an ascending series a date carries one price only. */
  lemma AscendingPriceUnique(s: Series, d: Date, x: Price, y: Price)
    requires Ascending(s)
    requires (d, x) in s && (d, y) in s
    ensures x == y
  {
    var i :| 0 <= i < |s| && s[i] == (d, x);
    var j :| 0 <= j < |s| && s[j] == (d, y);
    assert i == j;
  }

  /** The join of an ascending primary series is ascending. */
  lemma {:induction false} AlignAscending(a: Series, b: Series)
    requires Ascending(a)
    ensures RowsAscending(Align(a, b))
  {
    if |a| > 0 {
      assert Ascending(a[1..]);
      AlignAscending(a[1..], b);
      var rest := Align(a[1..], b);
      forall k | 0 <= k < |rest|
        ensures a[0].0 < rest[k].date
      {
        var d := rest[k].date;
        assert (d, rest[k].primary) in a[1..];
        var m :| 0 <= m < |a[1..]| && a[1..][m] == (d, rest[k].primary);
        assert a[m + 1].0 == d;
      }
    }
  }

  /** Every joined row holds the two series' own prices for its date. */
  lemma AlignPairsPrices(a: Series, b: Series, k: nat, x: Price, y: Price)
    requires Ascending(a) && Ascending(b)
    requires k < |Align(a, b)|
    requires (Align(a, b)[k].date, x) in a
    requires (Align(a, b)[k].date, y) in b
    ensures Align(a, b)[k].primary == x && Align(a, b)[k].other == y
  {
    var row := Align(a, b)[k];
    AscendingPriceUnique(a, row.date, row.primary, x);
    AscendingPriceUnique(b, row.date, row.other, y);
  }

  /** The primary series' column of the join. */
  function PrimaryColumn(rows: seq<Row>): (x: seq<Price>)
    ensures |x| == |rows|
    ensures forall k :: 0 <= k < |rows| ==> x[k] == rows[k].primary
  {
    seq(|rows|, k requires 0 <= k < |rows| => rows[k].primary)
  }

  /** The comparison series' column of the join. */
  function OtherColumn(rows: seq<Row>): (y: seq<Price>)
    ensures |y| == |rows|
    ensures forall k :: 0 <= k < |rows| ==> y[k] == rows[k].other
  {
    seq(|rows|, k requires 0 <= k < |rows| => rows[k].other)
  }

  /** Base-100 index: every value divided by the first and multiplied by 100.
      It starts at 100 and stays positive. */
  function Rebase(x: seq<Price>): (n: seq<real>)
    requires |x| > 0
    ensures |n| == |x|
    ensures n[0] == 100.0
    ensures forall i :: 0 <= i < |x| ==> n[i] > 0.0
  {
    var n := seq(|x|, i requires 0 <= i < |x| => (x[i] as real) / x[0] * 100.0);
    SelfRatio(x[0]);
    assert forall i :: 0 <= i < |x| ==> n[i] > 0.0 by {
      forall i | 0 <= i < |x|
        ensures n[i] > 0.0
      {
        RatioPositive(x[i], x[0]);
      }
    }
    n
  }

  lemma RebaseAt(x: seq<Price>, i: nat)
    requires i < |x|
    ensures Rebase(x)[i] == (x[i] as real) / x[0] * 100.0
  {
  }

  lemma SelfRatio(v: Price)
    ensures (v as real) / v * 100.0 == 100.0
  {
  }

  lemma RatioPositive(v: Price, base: Price)
    ensures (v as real) / base * 100.0 > 0.0
  {
  }

  /** The index does not depend on the price level: scaling the whole
      series by a positive factor leaves it unchanged. */
  lemma RebaseScaleInvariant(c: real, x: seq<Price>)
    requires c > 0.0
    requires |x| > 0
    ensures Rebase(ScalePrices(c, x)) == Rebase(x)
  {
    var q := ScalePrices(c, x);
    forall i | 0 <= i < |x|
      ensures Rebase(q)[i] == Rebase(x)[i]
    {
      RebaseAt(q, i);
      RebaseAt(x, i);
      ScaledRatio(c, x[i], x[0], q[i], q[0]);
    }
  }

  lemma ScaledRatio(c: real, a: Price, b: Price, a': Price, b': Price)
    requires c > 0.0 && a' == c * a && b' == c * b
    ensures (a' as real) / b' * 100.0 == (a as real) / b * 100.0
  {
    assert (c * a) / (c * b) == (a as real) / b;
  }

  /** Undoes the rebasing given the first price. */
  function Unrebase(base: Price, n: seq<real>): (x: seq<real>)
    ensures |x| == |n|
  {
    seq(|n|, i requires 0 <= i < |n| => base * n[i] / 100.0)
  }

  /** Rebasing loses nothing but the starting level. */
  lemma RebaseRoundTrip(x: seq<Price>)
    requires |x| > 0
    ensures Unrebase(x[0], Rebase(x)) == x
  {
    var n := Rebase(x);
    forall i | 0 <= i < |x|
      ensures Unrebase(x[0], n)[i] == x[i]
    {
      RebaseAt(x, i);
      UnrebaseStep(x[0], x[i], n[i]);
    }
  }

  lemma UnrebaseStep(base: Price, v: Price, m: real)
    requires m == (v as real) / base * 100.0
    ensures base * m / 100.0 == v
  {
  }

  /** The primary ticker is stronger only when its last index value is
      strictly greater; a tie goes to the comparison ticker. */
  function PrimaryStronger(np: seq<real>, no: seq<real>): (stronger: bool)
    requires |np| > 0 && |no| > 0
    ensures np[|np| - 1] == no[|no| - 1] ==> !stronger
    ensures stronger ==> no[|no| - 1] < np[|np| - 1]
    ensures !stronger ==> np[|np| - 1] <= no[|no| - 1]
  {
    np[|np| - 1] > no[|no| - 1]
  }

  /** The verdict compares total growth over the common period, whatever
      the two price levels. */
  lemma VerdictComparesGrowth(x: seq<Price>, y: seq<Price>)
    requires |x| > 0 && |y| > 0
    ensures PrimaryStronger(Rebase(x), Rebase(y)) <==>
      (x[|x| - 1] as real) / x[0] > (y[|y| - 1] as real) / y[0]
  {
    RebaseAt(x, |x| - 1);
    RebaseAt(y, |y| - 1);
  }

  /** Equal growth is never a win for the primary ticker, in either order:
      whichever ticker is the comparison one is named the stronger. */
  lemma TieGoesToComparison(x: seq<Price>, y: seq<Price>)
    requires |x| > 0 && |y| > 0
    requires (x[|x| - 1] as real) / x[0] == (y[|y| - 1] as real) / y[0]
    ensures !PrimaryStronger(Rebase(x), Rebase(y))
    ensures !PrimaryStronger(Rebase(y), Rebase(x))
  {
    VerdictComparesGrowth(x, y);
    VerdictComparesGrowth(y, x);
  }

  /** Two series that grow by the same factor tie, and the tie goes to the
      comparison ticker; a strictly larger growth wins. */
  lemma VerdictExamples()
    ensures !PrimaryStronger(Rebase([100.0, 110.0, 121.0]), Rebase([50.0, 55.0, 60.5]))
    ensures PrimaryStronger(Rebase([100.0, 120.0]), Rebase([100.0, 110.0]))
  {
    VerdictComparesGrowth([100.0, 110.0, 121.0], [50.0, 55.0, 60.5]);
    VerdictComparesGrowth([100.0, 120.0], [100.0, 110.0]);
  }

  /** Opening of every comparison text, up to the stronger ticker. */
  const TextLead: string := "Durante el periodo, **"

  /** What follows the stronger ticker: the other ticker between fixed
      links, depending on which side won. */
  const WinLink: string := "** ha tenido mejor rendimiento que **"
  const WinTail: string :=
    "**, lo que indica una fortaleza relativa superior. Podría mantenerse como la opción preferente."
  const LossLink: string := "** ha superado a **"
  const LossTail: string :=
    "**, mostrando mayor rentabilidad. Podría considerarse un activo alternativo más fuerte."

  /** The comparison paragraph. It opens with a fixed lead, names the
      ticker the verdict favours right after it, and ends by naming the
      other ticker between the links of the paragraph that was chosen. */
  function ComparisonText(ticker: string, other: string, primaryStronger: bool): (t: string)
    ensures var winner := if primaryStronger then ticker else other;
      |TextLead| + |winner| <= |t| &&
      t[..|TextLead|] == TextLead &&
      t[|TextLead|..|TextLead| + |winner|] == winner
    ensures var winner := if primaryStronger then ticker else other;
      t[|TextLead| + |winner|..] ==
        (if primaryStronger then WinLink + other + WinTail else LossLink + ticker + LossTail)
  {
    var winner := if primaryStronger then ticker else other;
    var rest := if primaryStronger then WinLink + other + WinTail else LossLink + ticker + LossTail;
    ConcatParts(TextLead, winner, rest);
    TextLead + winner + rest
  }

  /** For the same two tickers the winning and the losing paragraph never
      coincide, so the text always tells which way the verdict went, even
      when one ticker's symbol is a prefix of the other's. */
  lemma TextsIdentifyVerdict(ticker: string, other: string)
    ensures ComparisonText(ticker, other, true) != ComparisonText(ticker, other, false)
  {
    LinkLengths();
    var win := ComparisonText(ticker, other, true);
    var loss := ComparisonText(ticker, other, false);
    assert |win| == |TextLead| + |ticker| + |WinLink| + |other| + |WinTail|;
    assert |loss| == |TextLead| + |other| + |LossLink| + |ticker| + |LossTail|;
  }

  lemma LinkLengths()
    ensures |WinLink| + |WinTail| == 132 && |LossLink| + |LossTail| == 106
  {
  }

  /** Why a comparison cannot be completed. The first is an empty date
      overlap (no first row to rebase on); the second is a comparison
      ticker equal to the primary one, whose duplicated column label turns
      each selected column into a two-column table and makes the final
      comparison ambiguous. Both end the run in its generic error handler. */
  datatype CompareError = EmptyOverlap | DuplicateColumn

  /** The comparison shown and reported: the joined rows, both base-100
      indices, the verdict and its paragraph. */
  datatype ComparisonResult = ComparisonResult(
    rows: seq<Row>,
    normPrimary: seq<real>,
    normOther: seq<real>,
    primaryStronger: bool,
    text: string)

  /** On a join, the verdict compares the growth of the two tickers' prices
      between the first and the last common date. */
  lemma JoinVerdict(rows: seq<Row>)
    requires |rows| > 0
    ensures PrimaryStronger(Rebase(PrimaryColumn(rows)), Rebase(OtherColumn(rows))) <==>
      (rows[|rows| - 1].primary as real) / rows[0].primary > (rows[|rows| - 1].other as real) / rows[0].other
  {
    var xp := PrimaryColumn(rows);
    var xo := OtherColumn(rows);
    VerdictComparesGrowth(xp, xo);
    assert xp[|rows| - 1] == rows[|rows| - 1].primary && xp[0] == rows[0].primary;
    assert xo[|rows| - 1] == rows[|rows| - 1].other && xo[0] == rows[0].other;
  }

  /** Rebases both columns of a non-empty join and delivers the verdict. */
  function Evaluate(ticker: string, other: string, rows: seq<Row>): (c: ComparisonResult)
    requires |rows| > 0
    ensures c.rows == rows
    ensures |c.normPrimary| == |rows| && |c.normOther| == |rows|
    ensures c.normPrimary[0] == 100.0 && c.normOther[0] == 100.0
    ensures forall i :: 0 <= i < |rows| ==> c.normPrimary[i] == (rows[i].primary as real) / rows[0].primary * 100.0
    ensures forall i :: 0 <= i < |rows| ==> c.normOther[i] == (rows[i].other as real) / rows[0].other * 100.0
    ensures c.primaryStronger <==> c.normPrimary[|rows| - 1] > c.normOther[|rows| - 1]
    ensures c.primaryStronger <==>
      (rows[|rows| - 1].primary as real) / rows[0].primary > (rows[|rows| - 1].other as real) / rows[0].other
    ensures c.text == ComparisonText(ticker, other, c.primaryStronger)
  {
    var xp := PrimaryColumn(rows);
    var xo := OtherColumn(rows);
    var np := Rebase(xp);
    var no := Rebase(xo);
    JoinVerdict(rows);
    var stronger := PrimaryStronger(np, no);
    ComparisonResult(rows, np, no, stronger, ComparisonText(ticker, other, stronger))
  }

  /** Compares `ticker`'s series `a` with `other`'s series `b`: fails when
      the two share no date or name the same ticker, and otherwise
      evaluates their inner join. */
  function Compare(ticker: string, other: string, a: Series, b: Series): (r: Result<ComparisonResult, CompareError>)
    ensures r.Err? <==> |Align(a, b)| == 0 || ticker == other
    ensures r.Err? ==> (r.error == EmptyOverlap <==> |Align(a, b)| == 0)
    ensures r.Ok? ==> |Align(a, b)| > 0 && r.value == Evaluate(ticker, other, Align(a, b))
  {
    var rows := Align(a, b);
    if |rows| == 0 then Err(EmptyOverlap)
    else if ticker == other then Err(DuplicateColumn)
    else Ok(Evaluate(ticker, other, rows))
  }

  /** The comparison fails exactly when the two series share no date or the
      two symbols are the same, and an empty overlap is reported as such. */
  lemma CompareFailsExactly(ticker: string, other: string, a: Series, b: Series)
    ensures Compare(ticker, other, a, b).Err? <==> Dates(a) * Dates(b) == {} || ticker == other
    ensures Compare(ticker, other, a, b) == Err(EmptyOverlap) <==> Dates(a) * Dates(b) == {}
  {
    var rows := Align(a, b);
    AlignDates(a, b);
    if |rows| > 0 {
      assert rows[0].date in RowDates(rows);
    }
  }
}
