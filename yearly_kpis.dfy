// The year summary's KPI cards (components/year-summary/YearlyKPIs.tsx):
// each card compares this year's figure with last year's, when there is
// one, as a percentage change whose sign picks the arrow and whose
// direction is good or bad depending on the kind of figure.
module YearlyKPIs {
  import opened Wrappers

  datatype KpiKind = IncomeKpi | ExpenseKpi | BalanceKpi | SavingsKpi

  /** What a card shows besides its title and value. */
  datatype KpiView = KpiView(trend: real, isPositive: bool, showComparison: bool, arrowUp: bool, shownTrend: real)

  function Abs(x: real): real { if x < 0.0 then -x else x }

  /** The trend is computed, and the good/bad colour decided, only against a defined, non-zero previous value. */
  predicate Comparable(prevValue: Option<real>) { prevValue.Some? && prevValue.value != 0.0 }

  function KpiCard(value: real, prevValue: Option<real>, kind: KpiKind): KpiView
  {
    var trend := if Comparable(prevValue) then (value - prevValue.value) / Abs(prevValue.value) * 100.0 else 0.0;
    var isPositive := if !Comparable(prevValue) then true else if kind == ExpenseKpi then trend < 0.0 else trend > 0.0;
    KpiView(trend, isPositive, prevValue.Some?, trend > 0.0, Abs(trend))
  }

  /**
   * The trend is the change relative to the size of the previous value, and
   * 0 without a comparison; its sign is the sign of the change. A rise is
   * good except for expenses, where a fall is; without a comparison the card
   * counts as good. The up arrow shows only for a rise (no change shows the
   * down arrow), and the comparison line appears whenever a previous value
   * is given, showing the trend's magnitude.
   */
  lemma KpiCardFacts(value: real, prevValue: Option<real>, kind: KpiKind)
    ensures var v := KpiCard(value, prevValue, kind);
      (!Comparable(prevValue) ==> v.trend == 0.0 && v.isPositive)
      && (Comparable(prevValue) ==> v.trend * Abs(prevValue.value) == (value - prevValue.value) * 100.0)
      && (v.trend > 0.0 <==> Comparable(prevValue) && value > prevValue.value)
      && (v.trend < 0.0 <==> Comparable(prevValue) && value < prevValue.value)
      && (Comparable(prevValue) ==>
            (v.isPositive <==> if kind == ExpenseKpi then value < prevValue.value else value > prevValue.value))
      && (v.arrowUp <==> Comparable(prevValue) && value > prevValue.value)
      && (v.showComparison <==> prevValue.Some?)
      && v.shownTrend >= 0.0 && (v.shownTrend == v.trend || v.shownTrend == -v.trend)
  {
    if Comparable(prevValue) {
      var p, d := Abs(prevValue.value), value - prevValue.value;
      assert p > 0.0;
      var q := d / p;
      assert q * p == d;
      assert q > 0.0 <==> d > 0.0;
      assert q < 0.0 <==> d < 0.0;
    }
  }

  /** The four figures of a year. */
  datatype YearFigures = YearFigures(totalIncome: real, totalExpense: real, netIncome: real, savingsRate: real)

  function Field(y: YearFigures, kind: KpiKind): real
  {
    match kind
    case IncomeKpi => y.totalIncome
    case ExpenseKpi => y.totalExpense
    case BalanceKpi => y.netIncome
    case SavingsKpi => y.savingsRate
  }

  function Previous(prevYearData: Option<YearFigures>, kind: KpiKind): Option<real>
  {
    if prevYearData.None? then None else Some(Field(prevYearData.value, kind))
  }

  const Kinds: seq<KpiKind> := [IncomeKpi, ExpenseKpi, BalanceKpi, SavingsKpi]

  /** Income, expense, balance and savings rate, in that order, each against last year's figure when given. */
  function YearlyKpis(currentYearData: YearFigures, prevYearData: Option<YearFigures>): (cards: seq<KpiView>)
    ensures |cards| == 4
    ensures forall i :: 0 <= i < 4 ==> cards[i].showComparison == prevYearData.Some?
    ensures forall i :: 0 <= i < 4 ==> prevYearData.None? ==> cards[i].trend == 0.0 && cards[i].isPositive
  {
    seq(4, i requires 0 <= i < 4 => KpiCard(Field(currentYearData, Kinds[i]), Previous(prevYearData, Kinds[i]), Kinds[i]))
  }
}
