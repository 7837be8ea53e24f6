// The year summary's insight list (components/year-summary/InsightSummary.tsx):
// up to three remarks pushed in a fixed order: the top spending category,
// one remark on the savings rate, and the peak spending month.
module InsightSummary {
  import opened Wrappers
  import opened YearlyAnalytics

  /** The remarks; their wording, with currency and one-decimal formatting, is not modelled. */
  datatype Insight =
    | TopCategory(category: string, amount: nat)
    | GreatSavings(rate: real)
    | PositiveSavings(rate: real)
    | Overspending
    | PeakMonth(month: int)

  predicate IsSavingsInsight(i: Insight) { i.GreatSavings? || i.PositiveSavings? || i.Overspending? }

  /** The savings remark: above 20, above 0 up to 20, or not above 0. */
  function SavingsInsight(rate: real): (i: Insight)
    ensures i.GreatSavings? <==> rate > 20.0
    ensures i.PositiveSavings? <==> 0.0 < rate <= 20.0
    ensures i.Overspending? <==> rate <= 0.0
    ensures IsSavingsInsight(i)
  {
    if rate > 20.0 then GreatSavings(rate) else if rate > 0.0 then PositiveSavings(rate) else Overspending
  }

  method BuildInsights(stats: YearlyStats) returns (insights: seq<Insight>)
    ensures var hasCategory, hasPeak := |stats.topExpenseCategories| > 0, stats.highlights.maxExpenseMonth.Some?;
      var s := if hasCategory then 1 else 0;
      |insights| == 1 + s + (if hasPeak then 1 else 0)
      && 1 <= |insights| <= 3
      && (insights[0].TopCategory? <==> hasCategory)
      && (hasCategory ==> insights[0] == TopCategory(stats.topExpenseCategories[0].category, stats.topExpenseCategories[0].amount))
      && insights[s] == SavingsInsight(stats.savingsRate)
      && (forall i :: 0 <= i < |insights| && i != s ==> !IsSavingsInsight(insights[i]))
      && (insights[|insights| - 1].PeakMonth? <==> hasPeak)
      && (hasPeak ==> insights[|insights| - 1] == PeakMonth(stats.highlights.maxExpenseMonth.value.month))
  {
    insights := [];
    if |stats.topExpenseCategories| > 0 {
      insights := insights + [TopCategory(stats.topExpenseCategories[0].category, stats.topExpenseCategories[0].amount)];
    }
    if stats.savingsRate > 20.0 {
      insights := insights + [GreatSavings(stats.savingsRate)];
    } else if stats.savingsRate > 0.0 {
      insights := insights + [PositiveSavings(stats.savingsRate)];
    } else {
      insights := insights + [Overspending];
    }
    if stats.highlights.maxExpenseMonth.Some? {
      insights := insights + [PeakMonth(stats.highlights.maxExpenseMonth.value.month)];
    }
  }
}
