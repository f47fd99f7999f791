/** The trend signal: a three-way verdict drawn from the last short and long
    moving-average values, with the fixed colour, suggested decision and
    conclusion sentence that go with each verdict. */
module Signals {
  import opened Outcomes
  import opened Stats
  import opened Indicators
  import opened Texts

  /** Uptrend, downtrend or flat, named as the report names them. */
  datatype Trend = Alcista | Bajista | Estable

  /** Strict "greater than" with NaN semantics: false whenever either side
      is undefined. */
  predicate Above(a: Option<real>, b: Option<real>)
  {
    a.Some? && b.Some? && a.value > b.value
  }

  /** The verdict for the last short and long averages. */
  function Classify(short: Option<real>, long: Option<real>): (t: Trend)
    ensures t == Alcista <==> short.Some? && long.Some? && short.value > long.value
    ensures t == Bajista <==> short.Some? && long.Some? && short.value < long.value
    ensures t == Estable <==> short.None? || long.None? || short.value == long.value
  {
    if Above(short, long) then Alcista
    else if Above(long, short) then Bajista
    else Estable
  }

  /** An undefined long average (fewer prices than its window) makes both
      strict comparisons false, whatever the short average is. */
  lemma UndefinedAverageIsStable(short: Option<real>, long: Option<real>)
    requires short.None? || long.None?
    ensures Classify(short, long) == Estable
  {
  }

  /** The verdict does not depend on the price level: scaling both averages
      by the same positive factor leaves it unchanged. */
  lemma ClassifyScaleInvariant(c: real, short: Option<real>, long: Option<real>)
    requires c > 0.0
    ensures Classify(ScaleOption(c, short), ScaleOption(c, long)) == Classify(short, long)
  {
    if short.Some? && long.Some? {
      TimesOrder(c, short.value, long.value);
      TimesOrder(c, long.value, short.value);
    }
  }

  /** Colour of the verdict heading: green for a rise, red for a fall,
      gray for a flat market, and no other colour. */
  function Color(t: Trend): (c: string)
    ensures c == "green" <==> t == Alcista
    ensures c == "red" <==> t == Bajista
    ensures c == "gray" <==> t == Estable
  {
    match t
    case Alcista => "green"
    case Bajista => "red"
    case Estable => "gray"
  }

  /** The suggested decision printed under the verdict: buy or hold on a
      rise, avoid new purchases on a fall, wait on a flat market. */
  function Decision(t: Trend): (d: string)
    ensures d == "Comprar o mantener posiciones." <==> t == Alcista
    ensures d == "Evitar nuevas compras y mantener liquidez." <==> t == Bajista
    ensures d == "Esperar confirmación antes de operar." <==> t == Estable
  {
    match t
    case Alcista => "Comprar o mantener posiciones."
    case Bajista => "Evitar nuevas compras y mantener liquidez."
    case Estable => "Esperar confirmación antes de operar."
  }

  /** Opening of every conclusion sentence, up to the ticker. */
  const ConclusionLead: string := "El activo **"

  const RisingTail: string :=
    "** muestra una tendencia alcista. Se sugiere mantener o ampliar posiciones controlando el riesgo."
  const FallingTail: string :=
    "** presenta una tendencia bajista. Se recomienda precaución y esperar señales de recuperación."
  const FlatTail: string :=
    "** se mantiene estable. Conviene esperar mayor claridad en el mercado."

  /** The part of the conclusion sentence after the ticker. */
  function ConclusionTail(t: Trend): string
  {
    match t
    case Alcista => RisingTail
    case Bajista => FallingTail
    case Estable => FlatTail
  }

  /** The conclusion sentence for a verdict about `ticker`. It opens with a
      fixed lead, names the ticker right after it, and the verdict can be
      read back from what follows the ticker. */
  function Conclusion(t: Trend, ticker: string): (c: string)
    ensures |c| == |ConclusionLead| + |ticker| + |ConclusionTail(t)|
    ensures c[..|ConclusionLead|] == ConclusionLead
    ensures c[|ConclusionLead|..|ConclusionLead| + |ticker|] == ticker
    ensures c[|ConclusionLead| + |ticker|..] == ConclusionTail(t)
  {
    ConcatParts(ConclusionLead, ticker, ConclusionTail(t));
    ConclusionLead + ticker + ConclusionTail(t)
  }

  /** Different verdicts never share a colour, a decision or a conclusion. */
  lemma TextsIdentifyTrend(t: Trend, u: Trend, ticker: string)
    requires t != u
    ensures Color(t) != Color(u)
    ensures Decision(t) != Decision(u)
    ensures Conclusion(t, ticker) != Conclusion(u, ticker)
  {
    TailLengths();
    assert |ConclusionTail(t)| != |ConclusionTail(u)|;
  }

  lemma TailLengths()
    ensures |RisingTail| == 97 && |FallingTail| == 94 && |FlatTail| == 70
  {
  }

  /** Everything the report shows about the trend. */
  datatype Signal = Signal(trend: Trend, color: string, decision: string, conclusion: string)

  /** The signal for the last short and long averages of `ticker`'s prices. */
  function SignalFor(short: Option<real>, long: Option<real>, ticker: string): (s: Signal)
    ensures s.color == "green" <==> short.Some? && long.Some? && short.value > long.value
    ensures s.color == "red" <==> short.Some? && long.Some? && short.value < long.value
    ensures s.color == "gray" <==> short.None? || long.None? || short.value == long.value
    ensures s.trend == Classify(short, long)
    ensures s.decision == Decision(s.trend)
    ensures s.conclusion == Conclusion(s.trend, ticker)
    ensures s.conclusion[|ConclusionLead|..|ConclusionLead| + |ticker|] == ticker
  {
    var t := Classify(short, long);
    Signal(t, Color(t), Decision(t), Conclusion(t, ticker))
  }
}
