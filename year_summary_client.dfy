// The year summary screen (app/year-summary/YearSummaryClient.tsx): the
// years offered, the year first selected, and how the selected year's and
// the year before's summaries are handed to the cards and charts.
module YearSummaryClient {
  import opened Wrappers
  import opened Seqs
  import opened Sorting
  import opened Records
  import opened YearlyAnalytics
  import opened YearlyKPIs
  import UseTransactions

  function TransactionYears(transactions: seq<Transaction>): (r: seq<int>)
    ensures |r| == |transactions|
    ensures forall i :: 0 <= i < |r| ==> r[i] == transactions[i].date.year
  {
    if |transactions| == 0 then []
    else TransactionYears(transactions[..|transactions| - 1]) + [transactions[|transactions| - 1].date.year]
  }

  /** The years of the data, each once, latest first. */
  function AvailableYears(transactions: seq<Transaction>): seq<int>
  {
    DistinctDescending(TransactionYears(transactions))
  }

  lemma AvailableYearsFacts(transactions: seq<Transaction>)
    ensures var r := AvailableYears(transactions);
      (forall i, j :: 0 <= i < j < |r| ==> r[i] > r[j])
      && (forall y :: y in r <==> exists t :: t in transactions && t.date.year == y)
      && (|r| == 0 <==> |transactions| == 0)
  {
    var ys := TransactionYears(transactions);
    DistinctDescendingFacts(ys);
    forall y ensures y in ys <==> exists t :: t in transactions && t.date.year == y {
      if y in ys {
        var i :| 0 <= i < |ys| && ys[i] == y;
        assert transactions[i] in transactions;
      }
      if exists t :: t in transactions && t.date.year == y {
        var t :| t in transactions && t.date.year == y;
        var i :| 0 <= i < |transactions| && transactions[i] == t;
        assert ys[i] == y;
      }
    }
    if |transactions| > 0 {
      assert ys[0] in ys;
    }
  }

  /** `availableYears[0] || currentYear`: a first year of 0 is falsy and falls back too. */
  function InitialSelectedYear(transactions: seq<Transaction>, currentYear: int): int
  {
    var years := AvailableYears(transactions);
    if |years| > 0 && years[0] != 0 then years[0] else currentYear
  }

  /**
   * Without data the current year is selected; otherwise the latest year of
   * the data, unless that year is 0.
   */
  lemma InitialSelectedYearFacts(transactions: seq<Transaction>, currentYear: int)
    ensures |transactions| == 0 ==> InitialSelectedYear(transactions, currentYear) == currentYear
    ensures var y := InitialSelectedYear(transactions, currentYear);
      |transactions| > 0 && y != currentYear ==>
        (exists t :: t in transactions && t.date.year == y)
        && (forall t :: t in transactions ==> t.date.year <= y)
    ensures forall t :: t in transactions && t.date.year > 0 ==>
              InitialSelectedYear(transactions, currentYear) >= t.date.year
  {
    AvailableYearsFacts(transactions);
    var years := AvailableYears(transactions);
    if |years| > 0 {
      assert years[0] in years;
      forall t | t in transactions ensures t.date.year <= years[0] {
        assert t.date.year in years;
        var i :| 0 <= i < |years| && years[i] == t.date.year;
        assert i == 0 || years[0] > years[i];
      }
    }
  }

  /** The numbers the KPI cards compare. */
  function Figures(s: YearlyStats): YearFigures
  {
    YearFigures(s.totalIncome as real, s.totalExpense as real, s.netIncome as real, s.savingsRate)
  }

  /** The four KPI cards: the selected year against the year before, which is always computed. */
  function KpiCards(transactions: seq<Transaction>, selectedYear: int): seq<KpiView>
  {
    YearlyKpis(Figures(YearlyReport(transactions, selectedYear)), Some(Figures(YearlyReport(transactions, selectedYear - 1))))
  }

  /** The comparison figures are the totals of exactly the previous year's transactions. */
  lemma PreviousYearFacts(transactions: seq<Transaction>, selectedYear: int)
    ensures var prev, ys := Figures(YearlyReport(transactions, selectedYear - 1)), YearTransactions(transactions, selectedYear - 1);
      prev.totalIncome == TotalAmount(Incomes(ys)) as real
      && prev.totalExpense == TotalAmount(Expenses(ys)) as real
      && prev.netIncome == prev.totalIncome - prev.totalExpense
      && (forall i :: 0 <= i < |ys| ==> ys[i].date.year == selectedYear - 1)
  {
    var ys := YearTransactions(transactions, selectedYear - 1);
    TallyTotals(ys);
    TallyOfSpec(ys);
    YearSelection(transactions, selectedYear - 1);
  }

  /** All four cards always carry a comparison with the previous year. */
  lemma KpiCardsCompare(transactions: seq<Transaction>, selectedYear: int)
    ensures |KpiCards(transactions, selectedYear)| == 4
    ensures forall i :: 0 <= i < 4 ==> KpiCards(transactions, selectedYear)[i].showComparison
  {
    var cards := KpiCards(transactions, selectedYear);
    assert |cards| == 4;
  }

  /** `{ category: s.source, amount: s.amount }` for each income source. */
  function IncomeChartData(sources: seq<CategoryShare>): (r: seq<UseTransactions.CategoryAmount>)
    ensures |r| == |sources|
    ensures forall i :: 0 <= i < |r| ==> r[i].category == sources[i].category && r[i].amount == sources[i].amount
  {
    if |sources| == 0 then []
    else
      var s := sources[|sources| - 1];
      IncomeChartData(sources[..|sources| - 1]) + [UseTransactions.CategoryAmount(s.category, s.amount)]
  }

  /** The screen's one piece of state: the selected year. */
  class YearSummaryState {
    var selectedYear: int

    constructor (transactions: seq<Transaction>, currentYear: int)
      ensures selectedYear == InitialSelectedYear(transactions, currentYear)
    {
      selectedYear := InitialSelectedYear(transactions, currentYear);
    }

    /** The year selector reports a year. */
    method SetSelectedYear(year: int)
      modifies this
      ensures selectedYear == year
    {
      selectedYear := year;
    }

    function Stats(transactions: seq<Transaction>): YearlyStats
      reads this
    {
      YearlyReport(transactions, selectedYear)
    }

    function PrevStats(transactions: seq<Transaction>): YearlyStats
      reads this
    {
      YearlyReport(transactions, selectedYear - 1)
    }
  }
}
