// The dashboard page (app/page.tsx): the data's date range, the
// transactions of the selected range and of the month before, three
// category breakdowns, the per-day trend data, the period length, the
// expense count and the transactions of a clicked day.
module DashboardPage {
  import opened Wrappers
  import opened Calendar
  import opened Text
  import opened Seqs
  import opened Sorting
  import opened Grouping
  import opened Buckets
  import opened Records
  import opened UseTransactions
  import opened DailyTransactionsTable

  // ---------------------------------------------------------------------------
  // The extent of the data

  datatype DateBounds = DateBounds(min: Date, max: Date)

  function NegTime(t: Transaction): int { -Time(t) }

  /** undefined without transactions; otherwise the earliest and the latest date. */
  function DataDateRange(transactions: seq<Transaction>): (r: Option<DateBounds>)
    ensures r.None? <==> |transactions| == 0
    ensures r.Some? ==>
              Stamp(r.value.min) <= Stamp(r.value.max)
              && (forall i :: 0 <= i < |transactions| ==> Stamp(r.value.min) <= Time(transactions[i]) <= Stamp(r.value.max))
              && (exists i :: 0 <= i < |transactions| && transactions[i].date == r.value.min)
              && (exists j :: 0 <= j < |transactions| && transactions[j].date == r.value.max)
  {
    if |transactions| == 0 then None
    else
      var lo, hi := FirstMaxIndex(transactions, NegTime), FirstMaxIndex(transactions, Time);
      assert NegTime(transactions[hi]) <= NegTime(transactions[lo]);
      forall i | 0 <= i < |transactions| ensures Time(transactions[lo]) <= Time(transactions[i]) {
        assert NegTime(transactions[i]) <= NegTime(transactions[lo]);
      }
      Some(DateBounds(transactions[lo].date, transactions[hi].date))
  }

  // ---------------------------------------------------------------------------
  // The selected range and the month before it

  function RangeFilter(start: Date, end: Date): TransactionFilter
  {
    TransactionFilter(Some(start), Some(end), None, None, None)
  }

  function FilteredTransactions(transactions: seq<Transaction>, start: Date, end: Date): seq<Transaction>
  {
    FilterTransactions(transactions, RangeFilter(start, end))
  }

  /** Both ends moved back one month: the transactions from subMonths(start, 1) to subMonths(end, 1), in their order. */
  function PreviousMonthTransactions(transactions: seq<Transaction>, start: Date, end: Date): (r: seq<Transaction>)
    ensures forall t :: t in r <==> t in transactions && Stamp(SubMonths(start, 1)) <= Time(t) <= Stamp(SubMonths(end, 1))
    ensures IsSubsequence(r, transactions)
  {
    FilteredFacts(transactions, SubMonths(start, 1), SubMonths(end, 1));
    FilteredTransactions(transactions, SubMonths(start, 1), SubMonths(end, 1))
  }

  /** The range filter keeps exactly the transactions from start to end, both included, in their order. */
  lemma FilteredFacts(transactions: seq<Transaction>, start: Date, end: Date)
    ensures var r := FilteredTransactions(transactions, start, end);
      (forall t :: t in r <==> t in transactions && Stamp(start) <= Time(t) <= Stamp(end))
      && IsSubsequence(r, transactions)
  {
    FilterTransactionsFacts(transactions, RangeFilter(start, end));
  }

  /** format(subMonths(start, 1), 'MM/yyyy'). */
  function PreviousMonthLabel(start: Date): string
  {
    var p := SubMonths(start, 1);
    Pad2(p.month) + "/" + YearText(p.year)
  }

  /**
   * For a whole month, as the date filter selects, the comparison window
   * starts at midnight on the first of the month before but ends on the
   * current month's last day number, clamped to the month before: its
   * last millisecond is on that month's day min(current length, its length).
   */
  lemma PreviousWindowEnds(d: Date)
    ensures var lo, hi := SubMonths(StartOfMonth(d), 1), SubMonths(EndOfMonth(d), 1);
      MonthIndex(lo) == MonthIndex(d) - 1 && lo == StartOfMonth(lo)
      && MonthIndex(hi) == MonthIndex(lo) && hi.year == lo.year && hi.month == lo.month
      && hi.day == Min(DaysInMonth(d.year, d.month), DaysInMonth(lo.year, lo.month)) && hi.ms == MsPerDay - 1
  {
    var lo, hi := SubMonths(StartOfMonth(d), 1), SubMonths(EndOfMonth(d), 1);
    assert lo.year * 12 + lo.month == hi.year * 12 + hi.month;
  }

  /**
   * As written: a transaction on a day of the month before that the
   * current month does not have (31 March against April, 29 to 31 January
   * against February) falls after the window and is left out of the comparison.
   */
  lemma PreviousMonthMissesLastDays(transactions: seq<Transaction>, d: Date, t: Transaction)
    requires t in transactions && IsCalendarDate(t.date)
    requires MonthIndex(t.date) == MonthIndex(d) - 1 && t.date.day > DaysInMonth(d.year, d.month)
    ensures t !in PreviousMonthTransactions(transactions, StartOfMonth(d), EndOfMonth(d))
  {
    var hi := SubMonths(EndOfMonth(d), 1);
    PreviousWindowEnds(d);
    assert t.date.year == hi.year && t.date.month == hi.month by {
      assert t.date.year * 12 + t.date.month == hi.year * 12 + hi.month;
    }
    DayNumberInMonth(hi.year, hi.month, hi.day);
    DayNumberInMonth(hi.year, hi.month, t.date.day);
    StampInDays(DayNumber(hi.year, hi.month, t.date.day), t.date.ms, 0, DayNumber(hi.year, hi.month, hi.day));
  }

  /** April 2024: a transaction of 31 March is not among the previous month's transactions. */
  lemma AprilLeavesOutMarch31(t: Transaction)
    requires t.date == Date(2024, 3, 31, 0)
    ensures var april := Date(2024, 4, 1, 0);
      StartOfMonth(april) == april && EndOfMonth(april) == Date(2024, 4, 30, MsPerDay - 1)
      && t !in PreviousMonthTransactions([t], april, Date(2024, 4, 30, MsPerDay - 1))
  {
    PreviousMonthMissesLastDays([t], Date(2024, 4, 1, 0), t);
  }

  /** Intended: the whole calendar month before the range's start, from startOfMonth to endOfMonth. */
  function IntendedPreviousMonthTransactions(transactions: seq<Transaction>, start: Date): seq<Transaction>
  {
    var p := SubMonths(start, 1);
    FilteredTransactions(transactions, StartOfMonth(p), EndOfMonth(p))
  }

  /** The intended window keeps exactly the transactions of the month before start's month, in their order. */
  lemma IntendedPreviousMonthFacts(transactions: seq<Transaction>, start: Date)
    ensures var r := IntendedPreviousMonthTransactions(transactions, start);
      (forall t: Transaction :: IsCalendarDate(t.date) ==> (t in r <==> t in transactions && MonthIndex(t.date) == MonthIndex(start) - 1))
      && IsSubsequence(r, transactions)
  {
    var p := SubMonths(start, 1);
    FilteredFacts(transactions, StartOfMonth(p), EndOfMonth(p));
    forall t: Transaction | IsCalendarDate(t.date)
      ensures Stamp(StartOfMonth(p)) <= Time(t) <= Stamp(EndOfMonth(p)) <==> MonthIndex(t.date) == MonthIndex(start) - 1
    {
      InMonthExactly(t.date, p);
    }
  }

  /** The label names the month before start's: its two-digit month and its year. */
  lemma PreviousMonthLabelFacts(start: Date)
    ensures var p := SubMonths(start, 1);
      MonthIndex(p) == MonthIndex(start) - 1
      && PreviousMonthLabel(start) == Pad2(p.month) + "/" + YearText(p.year)
      && |Pad2(p.month)| == 2 && DigitsValue(Pad2(p.month)) == p.month
  {
    PaddedField(SubMonths(start, 1).month, 2);
  }

  // ---------------------------------------------------------------------------
  // The three breakdowns

  datatype Breakdowns = Breakdowns(
    expenseCategoryBreakdown: seq<CategoryAmount>,
    previousExpenseBreakdown: seq<CategoryAmount>,
    incomeCategoryBreakdown: seq<CategoryAmount>)

  /**
   * Each breakdown filters by type, totals per category in one pass and
   * ranks the totals: the same computation as getCategoryBreakdown, so its
   * rows are one per category of that type, non-increasing, and add up to
   * the type's total.
   */
  method ComputeBreakdowns(filtered: seq<Transaction>, previous: seq<Transaction>) returns (b: Breakdowns)
    ensures b.expenseCategoryBreakdown == CategoryBreakdown(filtered, Some(Expense))
    ensures b.previousExpenseBreakdown == CategoryBreakdown(previous, Some(Expense))
    ensures b.incomeCategoryBreakdown == CategoryBreakdown(filtered, Some(Income))
  {
    var expense := GetCategoryBreakdown(filtered, Some(Expense));
    var previousExpense := GetCategoryBreakdown(previous, Some(Expense));
    var income := GetCategoryBreakdown(filtered, Some(Income));
    b := Breakdowns(expense, previousExpense, income);
  }

  /** A breakdown of one type: one row per category of that type, ranked, adding up to the type's total. */
  lemma TypeBreakdownFacts(ts: seq<Transaction>, kind: TxType)
    ensures var r, sel := CategoryBreakdown(ts, Some(kind)), Filter(ts, (t: Transaction) => t.kind == kind);
      DistinctBy(r, RowCategory)
      && (forall i :: 0 <= i < |r| ==> UsesCategory(sel, r[i].category) && r[i].amount == CategoryTotal(sel, r[i].category))
      && (forall c :: UsesCategory(sel, c) ==> exists i :: 0 <= i < |r| && r[i].category == c)
      && NonIncreasing(r, RowAmount)
      && SumInt(r, RowAmount) == TotalAmount(sel) as int
  {
    var sel := Filter(ts, (t: Transaction) => t.kind == kind);
    assert OfKind(ts, Some(kind)) == sel by {
      if kind == Income { FilterSame(ts, IsIncome, (t: Transaction) => t.kind == kind); }
      else { FilterSame(ts, IsExpense, (t: Transaction) => t.kind == kind); }
    }
    BreakdownRows(ts, Some(kind));
    BreakdownRanked(ts, Some(kind));
  }

  lemma {:induction false} FilterSame(ts: seq<Transaction>, p: Transaction -> bool, q: Transaction -> bool)
    requires forall t :: p(t) == q(t)
    ensures Filter(ts, p) == Filter(ts, q)
  {
    if |ts| > 0 { FilterSame(ts[..|ts| - 1], p, q); }
  }

  // ---------------------------------------------------------------------------
  // The trend data: one entry per calendar day (the source keys it by the yyyy-MM-dd text)

  /** Income to income, anything else to expense, and one more transaction. */
  function AddToTrend(t: Transaction): DailyStats -> DailyStats
  {
    (v: DailyStats) =>
      if t.kind == Income then v.(income := v.income + t.amount, count := v.count + 1)
      else v.(expense := v.expense + t.amount, count := v.count + 1)
  }

  function TrendInit(t: Transaction): DailyStats { DailyStats(t.date, 0, 0, 0) }

  function TrendGroups(ts: seq<Transaction>): seq<(CalendarDay, DailyStats)>
  {
    if |ts| == 0 then []
    else
      var t := ts[|ts| - 1];
      Upsert(TrendGroups(ts[..|ts| - 1]), DayOf(t.date), TrendInit(t), AddToTrend(t))
  }

  method ComputeTrendData(filtered: seq<Transaction>) returns (trendData: seq<DailyStats>)
    ensures trendData == Values(TrendGroups(filtered))
  {
    var grouped: seq<(CalendarDay, DailyStats)> := [];
    for i := 0 to |filtered|
      invariant grouped == TrendGroups(filtered[..i])
    {
      assert filtered[..i + 1][..i] == filtered[..i];
      var t := filtered[i];
      grouped := Upsert(grouped, DayOf(t.date), TrendInit(t), AddToTrend(t));
    }
    assert filtered[..|filtered|] == filtered;
    trendData := Values(grouped);
  }

  /** What day d's entry should be: its first transaction's date, its income, its other amounts and its count. */
  function TrendEntry(ts: seq<Transaction>, d: CalendarDay): Option<DailyStats>
  {
    var l := DayList(ts, d);
    if |l| > 0 then Some(ListStats(l)) else None
  }

  lemma TrendEntrySnoc(s: seq<Transaction>, t: Transaction, d: CalendarDay)
    ensures TrendEntry(s + [t], d) ==
              if d == DayOf(t.date) then Some(AddToTrend(t)(TrendEntry(s, d).GetOr(TrendInit(t))))
              else TrendEntry(s, d)
  {
    FilterSnoc(s, t, OnDay(d));
    if d == DayOf(t.date) {
      TrendEntrySameDay(s, t);
    } else {
      assert DayList(s + [t], d) == DayList(s, d);
    }
  }

  lemma TrendEntrySameDay(s: seq<Transaction>, t: Transaction)
    requires DayList(s + [t], DayOf(t.date)) == DayList(s, DayOf(t.date)) + [t]
    ensures TrendEntry(s + [t], DayOf(t.date)) == Some(AddToTrend(t)(TrendEntry(s, DayOf(t.date)).GetOr(TrendInit(t))))
  {
    var l := DayList(s, DayOf(t.date));
    TotalsSnoc(l, t);
    if |l| > 0 {
      TrendStatsGrow(l, t);
    } else {
      TrendStatsFirst(l, t);
    }
  }

  /** The statistics of a day's list, as TrendEntry states them for a non-empty list. */
  function ListStats(l: seq<Transaction>): DailyStats
    requires |l| > 0
  {
    DailyStats(l[0].date, TotalAmount(Incomes(l)), TotalAmount(Expenses(l)), |l|)
  }

  lemma TrendStatsGrow(l: seq<Transaction>, t: Transaction)
    requires |l| > 0
    requires TotalAmount(Incomes(l + [t])) == TotalAmount(Incomes(l)) + (if t.kind == Income then t.amount else 0)
    requires TotalAmount(Expenses(l + [t])) == TotalAmount(Expenses(l)) + (if t.kind == Income then 0 else t.amount)
    ensures ListStats(l + [t]) == AddToTrend(t)(ListStats(l))
  {
    assert (l + [t])[0] == l[0];
  }

  lemma TrendStatsFirst(l: seq<Transaction>, t: Transaction)
    requires |l| == 0
    ensures ListStats(l + [t]) == AddToTrend(t)(TrendInit(t))
  {
    assert l + [t] == [t];
    assert Incomes(l) == [] && Expenses(l) == [];
  }

  /** Each day's entry holds that day's sums and count; a day without transactions has none. */
  lemma {:induction false} TrendGroupsFind(ts: seq<Transaction>)
    ensures forall d :: Find(TrendGroups(ts), d) == TrendEntry(ts, d)
  {
    if |ts| > 0 {
      var s, t := ts[..|ts| - 1], ts[|ts| - 1];
      assert ts == s + [t];
      TrendGroupsFind(s);
      UpsertFind(TrendGroups(s), DayOf(t.date), TrendInit(t), AddToTrend(t));
      forall d ensures Find(TrendGroups(ts), d) == TrendEntry(ts, d) {
        TrendEntrySnoc(s, t, d);
      }
    }
  }

  lemma {:induction false} TrendGroupsDistinct(ts: seq<Transaction>)
    ensures DistinctKeys(TrendGroups(ts))
  {
    if |ts| > 0 {
      var t := ts[|ts| - 1];
      TrendGroupsDistinct(ts[..|ts| - 1]);
      UpsertDistinct(TrendGroups(ts[..|ts| - 1]), DayOf(t.date), TrendInit(t), AddToTrend(t));
    }
  }

  function StatsIncome(v: DailyStats): nat { v.income }
  function StatsExpense(v: DailyStats): nat { v.expense }
  function StatsCount(v: DailyStats): nat { v.count }

  /** The counts add up to the number of transactions, and the sums to the income and expense totals. */
  lemma TrendGroupsSums(ts: seq<Transaction>)
    ensures Measure(TrendGroups(ts), StatsCount) == |ts|
    ensures Measure(TrendGroups(ts), StatsIncome) == TotalAmount(Incomes(ts))
    ensures Measure(TrendGroups(ts), StatsExpense) == TotalAmount(Expenses(ts))
  {
    TrendCountSum(ts);
    TrendIncomeSum(ts);
    TrendExpenseSum(ts);
  }

  lemma {:induction false} TrendCountSum(ts: seq<Transaction>)
    ensures Measure(TrendGroups(ts), StatsCount) == |ts|
  {
    if |ts| > 0 {
      var s, t := ts[..|ts| - 1], ts[|ts| - 1];
      TrendCountSum(s);
      UpsertMeasure(TrendGroups(s), DayOf(t.date), TrendInit(t), AddToTrend(t), StatsCount, 1);
    }
  }

  lemma {:induction false} TrendIncomeSum(ts: seq<Transaction>)
    ensures Measure(TrendGroups(ts), StatsIncome) == TotalAmount(Incomes(ts))
  {
    if |ts| > 0 {
      var s, t := ts[..|ts| - 1], ts[|ts| - 1];
      assert ts == s + [t];
      TrendIncomeSum(s);
      UpsertMeasure(TrendGroups(s), DayOf(t.date), TrendInit(t), AddToTrend(t), StatsIncome, if t.kind == Income then t.amount else 0);
      TotalsSnoc(s, t);
    }
  }

  lemma {:induction false} TrendExpenseSum(ts: seq<Transaction>)
    ensures Measure(TrendGroups(ts), StatsExpense) == TotalAmount(Expenses(ts))
  {
    if |ts| > 0 {
      var s, t := ts[..|ts| - 1], ts[|ts| - 1];
      assert ts == s + [t];
      TrendExpenseSum(s);
      UpsertMeasure(TrendGroups(s), DayOf(t.date), TrendInit(t), AddToTrend(t), StatsExpense, if t.kind == Income then 0 else t.amount);
      TotalsSnoc(s, t);
    }
  }

  /**
   * The trend data has one entry per calendar day with transactions, each
   * holding that day's income, its other amounts as expense, and its count.
   */
  lemma TrendDataFacts(ts: seq<Transaction>, i: nat)
    requires i < |TrendGroups(ts)|
    ensures var d, v := TrendGroups(ts)[i].0, Values(TrendGroups(ts))[i];
      |DayList(ts, d)| > 0 && DayOf(v.date) == d
      && v.income == TotalAmount(Incomes(DayList(ts, d)))
      && v.expense == TotalAmount(Expenses(DayList(ts, d)))
      && v.count == |DayList(ts, d)|
    ensures forall j :: 0 <= j < |TrendGroups(ts)| && j != i ==> TrendGroups(ts)[j].0 != TrendGroups(ts)[i].0
  {
    var g := TrendGroups(ts);
    TrendGroupsDistinct(ts);
    TrendGroupsFind(ts);
    FindAt(g, i);
    var l := DayList(ts, g[i].0);
    FilterMembers(ts, OnDay(g[i].0));
    assert OnDay(g[i].0)(l[0]);
  }

  /** Every calendar day with a transaction has an entry. */
  lemma TrendDataCovers(ts: seq<Transaction>, t: Transaction)
    requires t in ts
    ensures HasKey(TrendGroups(ts), DayOf(t.date))
  {
    TrendGroupsFind(ts);
    FilterMembers(ts, OnDay(DayOf(t.date)));
    FindHasKey(TrendGroups(ts), DayOf(t.date));
  }

  // ---------------------------------------------------------------------------
  // Counts and the clicked day

  /** differenceInDays(end, start) + 1. */
  function DaysInPeriod(start: Date, end: Date): int { DifferenceInDays(end, start) + 1 }

  /** For a whole month, as the date filter selects, the period has as many days as the month. */
  lemma DaysInMonthPeriod(d: Date)
    ensures DaysInPeriod(StartOfMonth(d), EndOfMonth(d)) == DaysInMonth(d.year, d.month)
  {
    MonthSpan(d);
  }

  function ExpenseTransactionCount(filtered: seq<Transaction>): nat { |Expenses(filtered)| }

  /** The expense count and the income count make up all transactions. */
  lemma ExpenseCountFacts(filtered: seq<Transaction>)
    ensures ExpenseTransactionCount(filtered) + |Incomes(filtered)| == |filtered|
  {
    FilterSizes(filtered, IsExpense, IsIncome);
  }

  /** Nothing without a selected date; otherwise the transactions on its calendar day. */
  function SelectedDateTransactions(filtered: seq<Transaction>, selectedDate: Option<Date>): seq<Transaction>
  {
    if selectedDate.None? then [] else DayList(filtered, DayOf(selectedDate.value))
  }

  lemma SelectedDateFacts(filtered: seq<Transaction>, selectedDate: Option<Date>)
    ensures var r := SelectedDateTransactions(filtered, selectedDate);
      (selectedDate.None? ==> r == [])
      && (selectedDate.Some? ==>
            forall t :: t in r <==> t in filtered && t.date.year == selectedDate.value.year
                                    && t.date.month == selectedDate.value.month && t.date.day == selectedDate.value.day)
  {
    if selectedDate.Some? {
      FilterMembers(filtered, OnDay(DayOf(selectedDate.value)));
    }
  }
}
