// The year summary (components/year-summary/YearlyAnalytics.ts): one pass
// over the transactions of a calendar year accumulates totals, twelve
// monthly rows, per-category totals, per-day expense totals and the biggest
// transaction of each kind; the rankings and highlights are derived from
// those afterwards.
module YearlyAnalytics {
  import opened Wrappers
  import opened Calendar
  import opened Seqs
  import opened Sorting
  import opened Grouping
  import opened Records
  import opened Ratios

  datatype MonthStats = MonthStats(month: int, income: nat, expense: nat, net: int)
  datatype CategoryShare = CategoryShare(category: string, amount: nat, percentage: real)
  datatype MonthAmount = MonthAmount(month: int, amount: int)
  datatype DayAmount = DayAmount(date: CalendarDay, amount: nat)

  datatype Highlights = Highlights(
    maxExpenseMonth: Option<MonthAmount>, bestSavingsMonth: Option<MonthAmount>,
    avgMonthlyIncome: real, avgMonthlyExpense: real,
    biggestExpenseTx: Option<Transaction>, biggestIncomeTx: Option<Transaction>,
    totalTransactions: nat, avgIncomeValue: real, avgExpenseValue: real,
    topSpendingDays: seq<DayAmount>)

  /** Per-day expense totals are keyed by the calendar day (the source keys them by its yyyy-MM-dd text). */
  datatype YearlyStats = YearlyStats(
    year: int, totalIncome: nat, totalExpense: nat, netIncome: int, savingsRate: real,
    monthlyData: seq<MonthStats>,
    categoryExpense: seq<(string, nat)>, categoryIncome: seq<(string, nat)>,
    topExpenseCategories: seq<CategoryShare>, topIncomeSources: seq<CategoryShare>,
    highlights: Highlights, heatmapData: seq<(CalendarDay, nat)>)

  // ---------------------------------------------------------------------------
  // What the accumulation loop computes, as functions of the visited prefix.

  function YearTransactions(ts: seq<Transaction>, year: int): seq<Transaction>
  {
    Filter(ts, (t: Transaction) => t.date.year == year)
  }

  /** The amounts of the given kind booked in month m (1-based). */
  function MonthTotal(ts: seq<Transaction>, kind: TxType, m: int): nat
  {
    if |ts| == 0 then 0
    else
      var t := ts[|ts| - 1];
      MonthTotal(ts[..|ts| - 1], kind, m) + (if t.kind == kind && t.date.month == m then t.amount else 0)
  }

  function MonthRows(ts: seq<Transaction>): (rows: seq<MonthStats>)
    ensures |rows| == 12
  {
    seq(12, j requires 0 <= j < 12 =>
      MonthStats(j + 1, MonthTotal(ts, Income, j + 1), MonthTotal(ts, Expense, j + 1),
                 MonthTotal(ts, Income, j + 1) - MonthTotal(ts, Expense, j + 1)))
  }

  /** The twelve monthly rows as the accumulation loop leaves them, before net is filled in. */
  function MonthSlots(ts: seq<Transaction>): (rows: seq<MonthStats>)
    ensures |rows| == 12
  {
    seq(12, j requires 0 <= j < 12 => MonthStats(j + 1, MonthTotal(ts, Income, j + 1), MonthTotal(ts, Expense, j + 1), 0))
  }

  /** An income adds its amount to the income of its own month and changes no other slot. */
  lemma IncomeSlot(ts: seq<Transaction>, t: Transaction)
    requires t.kind == Income
    ensures var i := t.date.month - 1;
      MonthSlots(ts + [t]) == MonthSlots(ts)[i := MonthSlots(ts)[i].(income := MonthSlots(ts)[i].income + t.amount)]
  {
    assert (ts + [t])[..|ts|] == ts;
  }

  /** An expense adds its amount to the expense of its own month and changes no other slot. */
  lemma ExpenseSlot(ts: seq<Transaction>, t: Transaction)
    requires t.kind == Expense
    ensures var i := t.date.month - 1;
      MonthSlots(ts + [t]) == MonthSlots(ts)[i := MonthSlots(ts)[i].(expense := MonthSlots(ts)[i].expense + t.amount)]
  {
    assert (ts + [t])[..|ts|] == ts;
  }

  /** (category, amount) for each transaction of the given kind, in order. */
  function CategoryEntries(ts: seq<Transaction>, kind: TxType): seq<(string, nat)>
  {
    if |ts| == 0 then []
    else
      var t := ts[|ts| - 1];
      CategoryEntries(ts[..|ts| - 1], kind) + (if t.kind == kind then [(t.category, t.amount)] else [])
  }

  /** (day, amount) for each expense, in order. */
  function DayEntries(ts: seq<Transaction>): seq<(CalendarDay, nat)>
  {
    if |ts| == 0 then []
    else
      var t := ts[|ts| - 1];
      DayEntries(ts[..|ts| - 1]) + (if t.kind == Expense then [(DayOf(t.date), t.amount)] else [])
  }

  /** The running "biggest" transaction of a kind: replaced only by a strictly larger amount. */
  function Biggest(ts: seq<Transaction>, kind: TxType): Option<Transaction>
  {
    if |ts| == 0 then None
    else
      var b := Biggest(ts[..|ts| - 1], kind);
      var t := ts[|ts| - 1];
      if t.kind == kind && (b.None? || t.amount > b.value.amount) then Some(t) else b
  }

  /** One step of the accumulation: what appending an income does to each accumulator. */
  lemma IncomeStep(ts: seq<Transaction>, t: Transaction)
    requires t.kind == Income
    ensures CategoryEntries(ts + [t], Income) == CategoryEntries(ts, Income) + [(t.category, t.amount)]
    ensures CategoryEntries(ts + [t], Expense) == CategoryEntries(ts, Expense)
    ensures DayEntries(ts + [t]) == DayEntries(ts)
    ensures Biggest(ts + [t], Income) == if Biggest(ts, Income).None? || t.amount > Biggest(ts, Income).value.amount then Some(t) else Biggest(ts, Income)
    ensures Biggest(ts + [t], Expense) == Biggest(ts, Expense)
  {
    assert (ts + [t])[..|ts|] == ts;
    assert CategoryEntries(ts, Expense) + [] == CategoryEntries(ts, Expense);
    assert DayEntries(ts) + [] == DayEntries(ts);
  }

  /** One step of the accumulation: what appending an expense does to each accumulator. */
  lemma ExpenseStep(ts: seq<Transaction>, t: Transaction)
    requires t.kind == Expense
    ensures CategoryEntries(ts + [t], Expense) == CategoryEntries(ts, Expense) + [(t.category, t.amount)]
    ensures CategoryEntries(ts + [t], Income) == CategoryEntries(ts, Income)
    ensures DayEntries(ts + [t]) == DayEntries(ts) + [(DayOf(t.date), t.amount)]
    ensures Biggest(ts + [t], Expense) == if Biggest(ts, Expense).None? || t.amount > Biggest(ts, Expense).value.amount then Some(t) else Biggest(ts, Expense)
    ensures Biggest(ts + [t], Income) == Biggest(ts, Income)
  {
    assert (ts + [t])[..|ts|] == ts;
    assert CategoryEntries(ts, Income) + [] == CategoryEntries(ts, Income);
  }

  /** The accumulators of the loop, together. */
  datatype Tally = Tally(
    totalIncome: nat, totalExpense: nat, months: seq<MonthStats>,
    categoryExpense: seq<(string, nat)>, categoryIncome: seq<(string, nat)>,
    dailyExpense: seq<(CalendarDay, nat)>,
    biggestExpense: Option<Transaction>, biggestIncome: Option<Transaction>,
    incomeCount: nat, expenseCount: nat)

  /** One visit of the loop body: an income updates the income side, anything else the expense side. */
  function Visit(a: Tally, t: Transaction): (r: Tally)
    requires |a.months| == 12
    ensures |r.months| == 12
  {
    var mi := t.date.month - 1;
    if t.kind == Income then
      a.(totalIncome := a.totalIncome + t.amount,
         months := a.months[mi := a.months[mi].(income := a.months[mi].income + t.amount)],
         categoryIncome := Bump(a.categoryIncome, t.category, t.amount),
         biggestIncome := if a.biggestIncome.None? || t.amount > a.biggestIncome.value.amount then Some(t) else a.biggestIncome,
         incomeCount := a.incomeCount + 1)
    else
      a.(totalExpense := a.totalExpense + t.amount,
         months := a.months[mi := a.months[mi].(expense := a.months[mi].expense + t.amount)],
         categoryExpense := Bump(a.categoryExpense, t.category, t.amount),
         biggestExpense := if a.biggestExpense.None? || t.amount > a.biggestExpense.value.amount then Some(t) else a.biggestExpense,
         expenseCount := a.expenseCount + 1,
         dailyExpense := Bump(a.dailyExpense, DayOf(t.date), t.amount))
  }

  /** Visiting one income, field by field. */
  lemma VisitIncome(a: Tally, t: Transaction)
    requires |a.months| == 12 && t.kind == Income
    ensures var mi := t.date.month - 1;
      Visit(a, t) == Tally(
        a.totalIncome + t.amount, a.totalExpense,
        a.months[mi := a.months[mi].(income := a.months[mi].income + t.amount)],
        a.categoryExpense, Bump(a.categoryIncome, t.category, t.amount), a.dailyExpense,
        a.biggestExpense, if a.biggestIncome.None? || t.amount > a.biggestIncome.value.amount then Some(t) else a.biggestIncome,
        a.incomeCount + 1, a.expenseCount)
  {
  }

  /** Visiting one expense, field by field. */
  lemma VisitExpense(a: Tally, t: Transaction)
    requires |a.months| == 12 && t.kind == Expense
    ensures var mi := t.date.month - 1;
      Visit(a, t) == Tally(
        a.totalIncome, a.totalExpense + t.amount,
        a.months[mi := a.months[mi].(expense := a.months[mi].expense + t.amount)],
        Bump(a.categoryExpense, t.category, t.amount), a.categoryIncome, Bump(a.dailyExpense, DayOf(t.date), t.amount),
        if a.biggestExpense.None? || t.amount > a.biggestExpense.value.amount then Some(t) else a.biggestExpense, a.biggestIncome,
        a.incomeCount, a.expenseCount + 1)
  {
  }

  /** The accumulators after visiting every transaction of ts in order. */
  function TallyOf(ts: seq<Transaction>): (r: Tally)
    ensures |r.months| == 12
  {
    if |ts| == 0 then Tally(0, 0, MonthSlots([]), [], [], [], None, None, 0, 0)
    else Visit(TallyOf(ts[..|ts| - 1]), ts[|ts| - 1])
  }

  /**
   * What the loop accumulates, field by field: the income and expense
   * totals and counts, the monthly slots, the category and day totals and
   * the running biggest transactions, each as defined on its own above.
   */
  function TallySpec(ts: seq<Transaction>): Tally
  {
    Tally(
      TotalAmount(Incomes(ts)), TotalAmount(Expenses(ts)), MonthSlots(ts),
      GroupSums(CategoryEntries(ts, Expense)), GroupSums(CategoryEntries(ts, Income)),
      GroupSums(DayEntries(ts)), Biggest(ts, Expense), Biggest(ts, Income),
      |Incomes(ts)|, |Expenses(ts)|)
  }

  lemma {:induction false} TallyTotals(ts: seq<Transaction>)
    ensures TallyOf(ts).totalIncome == TotalAmount(Incomes(ts)) && TallyOf(ts).totalExpense == TotalAmount(Expenses(ts))
    ensures TallyOf(ts).incomeCount == |Incomes(ts)| && TallyOf(ts).expenseCount == |Expenses(ts)|
  {
    if |ts| > 0 {
      var seen, t := ts[..|ts| - 1], ts[|ts| - 1];
      assert ts == seen + [t];
      TallyTotals(seen);
      TotalsSnoc(seen, t);
    }
  }

  lemma {:induction false} TallyMonths(ts: seq<Transaction>)
    ensures TallyOf(ts).months == MonthSlots(ts)
  {
    if |ts| > 0 {
      var seen, t := ts[..|ts| - 1], ts[|ts| - 1];
      assert ts == seen + [t];
      TallyMonths(seen);
      if t.kind == Income { IncomeSlot(seen, t); } else { ExpenseSlot(seen, t); }
    } else {
      assert MonthSlots([]) == MonthSlots(ts);
    }
  }

  lemma {:induction false} TallyGroups(ts: seq<Transaction>)
    ensures TallyOf(ts).categoryIncome == GroupSums(CategoryEntries(ts, Income))
    ensures TallyOf(ts).categoryExpense == GroupSums(CategoryEntries(ts, Expense))
    ensures TallyOf(ts).dailyExpense == GroupSums(DayEntries(ts))
  {
    if |ts| > 0 {
      var seen, t := ts[..|ts| - 1], ts[|ts| - 1];
      assert ts == seen + [t];
      TallyGroups(seen);
      if t.kind == Income {
        IncomeStep(seen, t);
        GroupSumsSnoc(CategoryEntries(seen, Income), t.category, t.amount);
      } else {
        ExpenseStep(seen, t);
        GroupSumsSnoc(CategoryEntries(seen, Expense), t.category, t.amount);
        GroupSumsSnoc(DayEntries(seen), DayOf(t.date), t.amount);
      }
    }
  }

  lemma {:induction false} TallyBiggest(ts: seq<Transaction>)
    ensures TallyOf(ts).biggestIncome == Biggest(ts, Income) && TallyOf(ts).biggestExpense == Biggest(ts, Expense)
  {
    if |ts| > 0 {
      var seen, t := ts[..|ts| - 1], ts[|ts| - 1];
      assert ts == seen + [t];
      TallyBiggest(seen);
      if t.kind == Income { IncomeStep(seen, t); } else { ExpenseStep(seen, t); }
    }
  }

  /** The loop's fold computes the reference definitions. */
  lemma TallyOfSpec(ts: seq<Transaction>)
    ensures TallyOf(ts) == TallySpec(ts)
  {
    TallyTotals(ts);
    TallyMonths(ts);
    TallyGroups(ts);
    TallyBiggest(ts);
  }

  // ---------------------------------------------------------------------------
  // What is derived after the loop.

  /** amount as a percentage of total, 0 when the total is 0. */
  function Share(amount: nat, total: nat): real
  {
    if total > 0 then (amount as real) / (total as real) * 100.0 else 0.0
  }

  function Shares(g: seq<(string, nat)>, total: nat): (r: seq<CategoryShare>)
    ensures |r| == |g|
  {
    seq(|g|, i requires 0 <= i < |g| => CategoryShare(g[i].0, g[i].1, Share(g[i].1, total)))
  }

  function DayRows(g: seq<(CalendarDay, nat)>): (r: seq<DayAmount>)
    ensures |r| == |g|
  {
    seq(|g|, i requires 0 <= i < |g| => DayAmount(g[i].0, g[i].1))
  }

  function ShareAmount(s: CategoryShare): int { s.amount }
  function DayTotalAmount(d: DayAmount): int { d.amount }
  function MonthExpense(m: MonthStats): int { m.expense }
  function MonthNet(m: MonthStats): int { m.net }

  /** The month ranked first by expense, reported only when that expense is positive. */
  function MaxExpenseMonth(rows: seq<MonthStats>): Option<MonthAmount>
    requires |rows| > 0
  {
    var m := SortDesc(rows, MonthExpense)[0];
    if m.expense > 0 then Some(MonthAmount(m.month, m.expense)) else None
  }

  /** The month ranked first by net, reported only when that net is positive. */
  function BestSavingsMonth(rows: seq<MonthStats>): Option<MonthAmount>
    requires |rows| > 0
  {
    var m := SortDesc(rows, MonthNet)[0];
    if m.net > 0 then Some(MonthAmount(m.month, m.net)) else None
  }

  function SavingsRate(income: nat, expense: nat): real
  {
    if income > 0 then ((income - expense) as real) / (income as real) * 100.0 else 0.0
  }

  /** Everything derived from the accumulators once every month's net is filled in. */
  function Summary(year: int, count: nat, a: Tally): YearlyStats
    requires |a.months| == 12
  {
    var income, expense := a.totalIncome, a.totalExpense;
    YearlyStats(
      year, income, expense, income - expense, SavingsRate(income, expense), a.months,
      a.categoryExpense, a.categoryIncome,
      TopExpenseCategories(a.categoryExpense, expense),
      IncomeSources(a.categoryIncome, income),
      Highlights(
        MaxExpenseMonth(a.months), BestSavingsMonth(a.months),
        (income as real) / 12.0, (expense as real) / 12.0,
        a.biggestExpense, a.biggestIncome,
        count, Average(income, a.incomeCount), Average(expense, a.expenseCount),
        TopSpendingDays(a.dailyExpense)),
      a.dailyExpense)
  }

  /** The whole summary of one year, as a function of the input. */
  function YearlyReport(transactions: seq<Transaction>, year: int): YearlyStats
  {
    var ys := YearTransactions(transactions, year);
    Summary(year, |ys|, TallySpec(ys).(months := MonthRows(ys)))
  }

  // ---------------------------------------------------------------------------
  // The computation as the source performs it.

  /** The body of the forEach: one transaction updates the accumulators and its month's row. */
  method AddTransaction(monthly: array<MonthStats>, acc: Tally, t: Transaction) returns (next: Tally)
    requires monthly.Length == 12 && monthly[..] == acc.months
    modifies monthly
    ensures monthly[..] == next.months && next == Visit(acc, t)
  {
    var amount := t.amount;
    var monthIndex := t.date.month - 1;
    next := acc;
    if t.kind == Income {
      next := next.(totalIncome := next.totalIncome + amount);
      monthly[monthIndex] := monthly[monthIndex].(income := monthly[monthIndex].income + amount);
      next := next.(categoryIncome := Bump(next.categoryIncome, t.category, amount));
      if next.biggestIncome.None? || amount > next.biggestIncome.value.amount {
        next := next.(biggestIncome := Some(t));
      }
      next := next.(incomeCount := next.incomeCount + 1);
    } else {
      next := next.(totalExpense := next.totalExpense + amount);
      monthly[monthIndex] := monthly[monthIndex].(expense := monthly[monthIndex].expense + amount);
      next := next.(categoryExpense := Bump(next.categoryExpense, t.category, amount));
      if next.biggestExpense.None? || amount > next.biggestExpense.value.amount {
        next := next.(biggestExpense := Some(t));
      }
      next := next.(expenseCount := next.expenseCount + 1);
      next := next.(dailyExpense := Bump(next.dailyExpense, DayOf(t.date), amount));
    }
    next := next.(months := monthly[..]);
  }

  /** The forEach over the year's transactions, with the twelve monthly rows in an array. */
  method AccumulateYear(ys: seq<Transaction>) returns (monthly: array<MonthStats>, acc: Tally)
    ensures fresh(monthly) && monthly[..] == acc.months
    ensures acc == TallyOf(ys)
  {
    monthly := new MonthStats[12](j => MonthStats(j + 1, 0, 0, 0));
    acc := Tally(0, 0, monthly[..], [], [], [], None, None, 0, 0);
    assert monthly[..] == MonthSlots([]);
    var i := 0;
    while i < |ys|
      invariant 0 <= i <= |ys|
      invariant monthly[..] == acc.months && acc == TallyOf(ys[..i])
    {
      assert ys[..i + 1][..i] == ys[..i];
      acc := AddTransaction(monthly, acc, ys[i]);
      i := i + 1;
    }
    assert ys[..i] == ys;
  }

  method ProcessYearlyData(transactions: seq<Transaction>, year: int) returns (r: YearlyStats)
    ensures r == YearlyReport(transactions, year)
  {
    var ys := YearTransactions(transactions, year);
    var monthly, acc := AccumulateYear(ys);
    FillNet(monthly);
    TallyOfSpec(ys);
    SlotsWithNet(ys);
    r := Summary(year, |ys|, acc.(months := monthly[..]));
  }

  /** The rows with `net = income - expense` filled in. */
  function WithNet(rows: seq<MonthStats>): (r: seq<MonthStats>)
    ensures |r| == |rows|
  {
    seq(|rows|, k requires 0 <= k < |rows| => rows[k].(net := rows[k].income - rows[k].expense))
  }

  /** The loop after the pass: each slot's net set from its income and expense, in place. */
  method FillNet(monthly: array<MonthStats>)
    modifies monthly
    ensures monthly[..] == WithNet(old(monthly[..]))
  {
    for j := 0 to monthly.Length
      invariant forall k :: 0 <= k < j ==> monthly[k] == old(monthly[k]).(net := old(monthly[k]).income - old(monthly[k]).expense)
      invariant forall k :: j <= k < monthly.Length ==> monthly[k] == old(monthly[k])
    {
      monthly[j] := monthly[j].(net := monthly[j].income - monthly[j].expense);
    }
  }

  /** Filling in net turns the accumulated slots into the monthly rows. */
  lemma SlotsWithNet(ts: seq<Transaction>)
    ensures WithNet(MonthSlots(ts)) == MonthRows(ts)
  {
  }

  // ---------------------------------------------------------------------------
  // Properties of the summary.

  /** The year's transactions are exactly the input transactions dated in that year. */
  lemma YearSelection(transactions: seq<Transaction>, year: int)
    ensures var ys := YearTransactions(transactions, year);
      (forall i :: 0 <= i < |ys| ==> ys[i] in transactions && ys[i].date.year == year)
      && (forall i :: 0 <= i < |transactions| && transactions[i].date.year == year ==> transactions[i] in ys)
  {
    FilterMembers(transactions, (t: Transaction) => t.date.year == year);
  }

  /** Income and expense make up the year's total; the counts make up the number of transactions. */
  lemma YearTotals(transactions: seq<Transaction>, year: int)
    ensures var r, ys := YearlyReport(transactions, year), YearTransactions(transactions, year);
      r.totalIncome + r.totalExpense == TotalAmount(ys)
      && r.netIncome == r.totalIncome - r.totalExpense
      && r.highlights.totalTransactions == |ys| == |Incomes(ys)| + |Expenses(ys)|
  {
    var ys := YearTransactions(transactions, year);
    IncomePlusExpense(ys);
    FilterSizes(ys, IsIncome, IsExpense);
  }

  function RowIncome(m: MonthStats): nat { m.income }
  function RowExpense(m: MonthStats): nat { m.expense }

  lemma IncomeRow(ts: seq<Transaction>, t: Transaction)
    requires t.kind == Income
    ensures var i := t.date.month - 1; var row := MonthRows(ts)[i];
      MonthRows(ts + [t]) == MonthRows(ts)[i := row.(income := row.income + t.amount, net := row.net + t.amount)]
  {
    assert (ts + [t])[..|ts|] == ts;
  }

  lemma ExpenseRow(ts: seq<Transaction>, t: Transaction)
    requires t.kind == Expense
    ensures var i := t.date.month - 1; var row := MonthRows(ts)[i];
      MonthRows(ts + [t]) == MonthRows(ts)[i := row.(expense := row.expense + t.amount, net := row.net - t.amount)]
  {
    assert (ts + [t])[..|ts|] == ts;
  }

  /** One more transaction adds its amount to the monthly incomes when it is an income. */
  lemma RowIncomeStep(ts: seq<Transaction>, t: Transaction)
    ensures SumNat(MonthRows(ts + [t]), RowIncome) == SumNat(MonthRows(ts), RowIncome) + (if IsIncome(t) then t.amount else 0)
  {
    var rows, after, i := MonthRows(ts), MonthRows(ts + [t]), t.date.month - 1;
    if t.kind == Income {
      IncomeRow(ts, t);
      IncomeBumpSums(rows, i, t.amount, after);
    } else {
      ExpenseRow(ts, t);
      ExpenseBumpSums(rows, i, t.amount, after);
    }
  }

  /** One more transaction adds its amount to the monthly expenses when it is an expense. */
  lemma RowExpenseStep(ts: seq<Transaction>, t: Transaction)
    ensures SumNat(MonthRows(ts + [t]), RowExpense) == SumNat(MonthRows(ts), RowExpense) + (if IsExpense(t) then t.amount else 0)
  {
    var rows, after, i := MonthRows(ts), MonthRows(ts + [t]), t.date.month - 1;
    if t.kind == Income {
      IncomeRow(ts, t);
      IncomeBumpSums(rows, i, t.amount, after);
    } else {
      ExpenseRow(ts, t);
      ExpenseBumpSums(rows, i, t.amount, after);
    }
  }

  /** Adding an income to one row raises the income sum by it and leaves the expense sum. */
  lemma IncomeBumpSums(rows: seq<MonthStats>, i: nat, a: nat, bumped: seq<MonthStats>)
    requires i < |rows| && bumped == rows[i := rows[i].(income := rows[i].income + a, net := rows[i].net + a)]
    ensures SumNat(bumped, RowIncome) == SumNat(rows, RowIncome) + a
      && SumNat(bumped, RowExpense) == SumNat(rows, RowExpense)
  {
    var x := rows[i].(income := rows[i].income + a, net := rows[i].net + a);
    SumNatUpdate(rows, i, x, RowIncome);
    SumNatUpdate(rows, i, x, RowExpense);
  }

  /** Adding an expense to one row raises the expense sum by it and leaves the income sum. */
  lemma ExpenseBumpSums(rows: seq<MonthStats>, i: nat, a: nat, bumped: seq<MonthStats>)
    requires i < |rows| && bumped == rows[i := rows[i].(expense := rows[i].expense + a, net := rows[i].net - a)]
    ensures SumNat(bumped, RowExpense) == SumNat(rows, RowExpense) + a
      && SumNat(bumped, RowIncome) == SumNat(rows, RowIncome)
  {
    var x := rows[i].(expense := rows[i].expense + a, net := rows[i].net - a);
    SumNatUpdate(rows, i, x, RowIncome);
    SumNatUpdate(rows, i, x, RowExpense);
  }

  /** The twelve monthly incomes and expenses add up to the totals. */
  lemma {:induction false} MonthsAddUp(ts: seq<Transaction>)
    ensures SumNat(MonthRows(ts), RowIncome) == TotalAmount(Incomes(ts))
    ensures SumNat(MonthRows(ts), RowExpense) == TotalAmount(Expenses(ts))
  {
    if |ts| == 0 {
      SumNatZero(MonthRows(ts), RowIncome);
      SumNatZero(MonthRows(ts), RowExpense);
    } else {
      var seen, t := ts[..|ts| - 1], ts[|ts| - 1];
      assert ts == seen + [t];
      MonthsAddUp(seen);
      TotalsSnoc(seen, t);
      RowIncomeStep(seen, t);
      RowExpenseStep(seen, t);
    }
  }

  /** Row j of the year is month j + 1, and its net is its income less its expense. */
  lemma YearMonths(transactions: seq<Transaction>, year: int)
    ensures var r := YearlyReport(transactions, year);
      |r.monthlyData| == 12
      && (forall j :: 0 <= j < 12 ==>
            r.monthlyData[j].month == j + 1 && r.monthlyData[j].net == r.monthlyData[j].income - r.monthlyData[j].expense)
      && SumNat(r.monthlyData, RowIncome) == r.totalIncome
      && SumNat(r.monthlyData, RowExpense) == r.totalExpense
  {
    MonthsAddUp(YearTransactions(transactions, year));
  }

  /** The amounts of the given kind recorded under category c. */
  function KindCategoryTotal(ts: seq<Transaction>, kind: TxType, c: string): nat
  {
    if |ts| == 0 then 0
    else
      var t := ts[|ts| - 1];
      KindCategoryTotal(ts[..|ts| - 1], kind, c) + (if t.kind == kind && t.category == c then t.amount else 0)
  }

  /** Some transaction of the given kind is recorded under category c. */
  predicate HasCategory(ts: seq<Transaction>, kind: TxType, c: string)
  {
    exists i :: 0 <= i < |ts| && ts[i].kind == kind && ts[i].category == c
  }

  lemma HasCategorySnoc(ts: seq<Transaction>, t: Transaction, kind: TxType)
    ensures forall c :: HasCategory(ts + [t], kind, c) <==> HasCategory(ts, kind, c) || (t.kind == kind && t.category == c)
  {
    var e := ts + [t];
    forall c ensures HasCategory(e, kind, c) <==> HasCategory(ts, kind, c) || (t.kind == kind && t.category == c) {
      if HasCategory(e, kind, c) {
        var i :| 0 <= i < |e| && e[i].kind == kind && e[i].category == c;
        if i < |ts| { assert ts[i] == e[i]; }
      }
      if HasCategory(ts, kind, c) {
        var i :| 0 <= i < |ts| && ts[i].kind == kind && ts[i].category == c;
        assert e[i] == ts[i];
      }
      if t.kind == kind && t.category == c { assert e[|ts|] == t; }
    }
  }

  lemma {:induction false} CategoryEntriesFacts(ts: seq<Transaction>, kind: TxType)
    ensures forall c :: SumOfKey(CategoryEntries(ts, kind), c) == KindCategoryTotal(ts, kind, c)
    ensures forall c :: HasKey(CategoryEntries(ts, kind), c) <==> HasCategory(ts, kind, c)
    ensures Total(CategoryEntries(ts, kind)) == TotalAmount(if kind == Income then Incomes(ts) else Expenses(ts))
  {
    if |ts| > 0 {
      var seen, t := ts[..|ts| - 1], ts[|ts| - 1];
      assert ts == seen + [t];
      CategoryEntriesFacts(seen, kind);
      var e := CategoryEntries(seen, kind);
      TotalsSnoc(seen, t);
      HasCategorySnoc(seen, t, kind);
      if t.kind == kind {
        var p := (t.category, t.amount);
        assert CategoryEntries(ts, kind) == e + [p];
        forall c ensures SumOfKey(e + [p], c) == SumOfKey(e, c) + (if p.0 == c then p.1 else 0) { SumOfKeySnoc(e, p, c); }
        HasKeySnoc(e, p);
        TotalSnoc(e, p);
      } else {
        assert CategoryEntries(ts, kind) == e;
      }
    }
  }

  /**
   * The per-category totals of a kind: one entry per category used by a
   * transaction of that kind, holding that category's sum, all of them adding
   * up to the kind's total.
   */
  lemma YearCategories(transactions: seq<Transaction>, year: int, kind: TxType)
    ensures var r, ys := YearlyReport(transactions, year), YearTransactions(transactions, year);
      var g := if kind == Income then r.categoryIncome else r.categoryExpense;
      DistinctKeys(g)
      && (forall c :: HasKey(g, c) <==> HasCategory(ys, kind, c))
      && (forall c :: Lookup(g, c) == KindCategoryTotal(ys, kind, c))
      && Total(g) == (if kind == Income then r.totalIncome else r.totalExpense)
  {
    var ys := YearTransactions(transactions, year);
    ReportGroups(transactions, year);
    CategoryGroups(ys, kind);
  }

  /** The grouped figures of the report are the groupings of the year's transactions. */
  lemma ReportGroups(transactions: seq<Transaction>, year: int)
    ensures var r, ys := YearlyReport(transactions, year), YearTransactions(transactions, year);
      r.categoryIncome == GroupSums(CategoryEntries(ys, Income))
      && r.categoryExpense == GroupSums(CategoryEntries(ys, Expense))
      && r.heatmapData == GroupSums(DayEntries(ys))
      && r.totalIncome == TotalAmount(Incomes(ys)) && r.totalExpense == TotalAmount(Expenses(ys))
  {
  }

  /** The per-category sums of one kind: one entry per category, each the category's total. */
  lemma CategoryGroups(ts: seq<Transaction>, kind: TxType)
    ensures var g := GroupSums(CategoryEntries(ts, kind));
      DistinctKeys(g)
      && (forall c :: HasKey(g, c) <==> HasCategory(ts, kind, c))
      && (forall c :: Lookup(g, c) == KindCategoryTotal(ts, kind, c))
      && Total(g) == TotalAmount(if kind == Income then Incomes(ts) else Expenses(ts))
  {
    GroupSumsFacts(CategoryEntries(ts, kind));
    CategoryEntriesFacts(ts, kind);
  }

  /** The expenses booked on day d. */
  function DayExpenseTotal(ts: seq<Transaction>, d: CalendarDay): nat
  {
    if |ts| == 0 then 0
    else
      var t := ts[|ts| - 1];
      DayExpenseTotal(ts[..|ts| - 1], d) + (if t.kind == Expense && DayOf(t.date) == d then t.amount else 0)
  }

  predicate HasExpenseOn(ts: seq<Transaction>, d: CalendarDay)
  {
    exists i :: 0 <= i < |ts| && ts[i].kind == Expense && DayOf(ts[i].date) == d
  }

  lemma HasExpenseOnSnoc(ts: seq<Transaction>, t: Transaction)
    ensures forall d :: HasExpenseOn(ts + [t], d) <==> HasExpenseOn(ts, d) || (t.kind == Expense && DayOf(t.date) == d)
  {
    var e := ts + [t];
    forall d ensures HasExpenseOn(e, d) <==> HasExpenseOn(ts, d) || (t.kind == Expense && DayOf(t.date) == d) {
      if HasExpenseOn(e, d) {
        var i :| 0 <= i < |e| && e[i].kind == Expense && DayOf(e[i].date) == d;
        if i < |ts| { assert ts[i] == e[i]; }
      }
      if HasExpenseOn(ts, d) {
        var i :| 0 <= i < |ts| && ts[i].kind == Expense && DayOf(ts[i].date) == d;
        assert e[i] == ts[i];
      }
      if t.kind == Expense && DayOf(t.date) == d { assert e[|ts|] == t; }
    }
  }

  lemma {:induction false} DayEntriesFacts(ts: seq<Transaction>)
    ensures forall d :: SumOfKey(DayEntries(ts), d) == DayExpenseTotal(ts, d)
    ensures forall d :: HasKey(DayEntries(ts), d) <==> HasExpenseOn(ts, d)
    ensures Total(DayEntries(ts)) == TotalAmount(Expenses(ts))
  {
    if |ts| > 0 {
      var seen, t := ts[..|ts| - 1], ts[|ts| - 1];
      assert ts == seen + [t];
      DayEntriesFacts(seen);
      var e := DayEntries(seen);
      TotalsSnoc(seen, t);
      HasExpenseOnSnoc(seen, t);
      if t.kind == Expense {
        var p := (DayOf(t.date), t.amount);
        assert DayEntries(ts) == e + [p];
        forall d ensures SumOfKey(e + [p], d) == SumOfKey(e, d) + (if p.0 == d then p.1 else 0) { SumOfKeySnoc(e, p, d); }
        HasKeySnoc(e, p);
        TotalSnoc(e, p);
      } else {
        assert DayEntries(ts) == e;
      }
    }
  }

  /** The heatmap holds one entry per day with an expense, that day's expense total; they add up to the year's expense. */
  lemma YearHeatmap(transactions: seq<Transaction>, year: int)
    ensures var r, ys := YearlyReport(transactions, year), YearTransactions(transactions, year);
      DistinctKeys(r.heatmapData)
      && (forall d :: HasKey(r.heatmapData, d) <==> HasExpenseOn(ys, d))
      && (forall d :: Lookup(r.heatmapData, d) == DayExpenseTotal(ys, d))
      && Total(r.heatmapData) == r.totalExpense
  {
    var ys := YearTransactions(transactions, year);
    ReportGroups(transactions, year);
    DayGroups(ys);
  }

  /** The per-day expense sums: one entry per day with an expense, each the day's total. */
  lemma DayGroups(ts: seq<Transaction>)
    ensures var g := GroupSums(DayEntries(ts));
      DistinctKeys(g)
      && (forall d :: HasKey(g, d) <==> HasExpenseOn(ts, d))
      && (forall d :: Lookup(g, d) == DayExpenseTotal(ts, d))
      && Total(g) == TotalAmount(Expenses(ts))
  {
    GroupSumsFacts(DayEntries(ts));
    DayEntriesFacts(ts);
  }

  /** i is the first position holding a transaction of the kind with the largest amount of that kind. */
  predicate FirstLargest(ts: seq<Transaction>, kind: TxType, i: int)
  {
    0 <= i < |ts| && ts[i].kind == kind
    && (forall j :: 0 <= j < |ts| && ts[j].kind == kind ==> ts[j].amount <= ts[i].amount)
    && (forall j :: 0 <= j < i && ts[j].kind == kind ==> ts[j].amount < ts[i].amount)
  }

  /**
   * The biggest transaction of a kind is absent exactly when there is none of
   * that kind; otherwise it is the first one with the largest amount.
   */
  lemma {:induction false} BiggestFacts(ts: seq<Transaction>, kind: TxType)
    ensures Biggest(ts, kind).None? <==> forall i :: 0 <= i < |ts| ==> ts[i].kind != kind
    ensures Biggest(ts, kind).Some? ==> exists i :: FirstLargest(ts, kind, i) && ts[i] == Biggest(ts, kind).value
  {
    if |ts| > 0 {
      var seen, t := ts[..|ts| - 1], ts[|ts| - 1];
      assert ts == seen + [t];
      BiggestFacts(seen, kind);
      var b := Biggest(seen, kind);
      if t.kind == kind && (b.None? || t.amount > b.value.amount) {
        if b.Some? {
          var i :| FirstLargest(seen, kind, i) && seen[i] == b.value;
          LargestAppendNew(seen, t, kind, seen[i].amount);
        } else {
          LargestAppendNew(seen, t, kind, -1);
        }
      } else if b.Some? {
        var i :| FirstLargest(seen, kind, i) && seen[i] == b.value;
        LargestAppendOld(seen, t, kind, i);
      } else {
        assert forall j :: 0 <= j < |seen| ==> seen[j] == ts[j];
      }
    }
  }

  /** An appended transaction of the kind above every earlier one of that kind is the first largest. */
  lemma LargestAppendNew(seen: seq<Transaction>, t: Transaction, kind: TxType, bound: int)
    requires t.kind == kind && bound < t.amount
    requires forall j :: 0 <= j < |seen| && seen[j].kind == kind ==> seen[j].amount <= bound
    ensures FirstLargest(seen + [t], kind, |seen|)
  {
    var ts := seen + [t];
    assert forall j :: 0 <= j < |seen| ==> ts[j] == seen[j];
  }

  /** An appended transaction not above the first largest leaves it the first largest. */
  lemma LargestAppendOld(seen: seq<Transaction>, t: Transaction, kind: TxType, i: int)
    requires FirstLargest(seen, kind, i)
    requires t.kind != kind || t.amount <= seen[i].amount
    ensures FirstLargest(seen + [t], kind, i)
  {
    var ts := seen + [t];
    assert forall j :: 0 <= j < |seen| ==> ts[j] == seen[j];
  }

  /** The year's biggest transaction of a kind, as BiggestFacts describes it. */
  lemma YearBiggest(transactions: seq<Transaction>, year: int, kind: TxType)
    ensures var r, ys := YearlyReport(transactions, year), YearTransactions(transactions, year);
      var b := if kind == Income then r.highlights.biggestIncomeTx else r.highlights.biggestExpenseTx;
      (b.None? <==> forall i :: 0 <= i < |ys| ==> ys[i].kind != kind)
      && (b.Some? ==> exists i :: FirstLargest(ys, kind, i) && ys[i] == b.value)
  {
    BiggestFacts(YearTransactions(transactions, year), kind);
  }

  /** topExpenseCategories: the ten largest expense shares (slice(0, 10) of the ranking). */
  function TopExpenseCategories(g: seq<(string, nat)>, total: nat): seq<CategoryShare>
  {
    Take(SortDesc(Shares(g, total), ShareAmount), 10)
  }

  /** topIncomeSources: every income share, ranked. */
  function IncomeSources(g: seq<(string, nat)>, total: nat): seq<CategoryShare>
  {
    SortDesc(Shares(g, total), ShareAmount)
  }

  /** topSpendingDays: the five days with the largest expense total. */
  function TopSpendingDays(g: seq<(CalendarDay, nat)>): seq<DayAmount>
  {
    Take(SortDesc(DayRows(g), DayTotalAmount), 5)
  }

  /** Every share carries an entry's category and total and its percentage of the whole. */
  lemma ShareMember(g: seq<(string, nat)>, total: nat, x: CategoryShare)
    requires x in multiset(Shares(g, total))
    ensures (x.category, x.amount) in g && x.percentage == Share(x.amount, total)
  {
    var i :| 0 <= i < |Shares(g, total)| && Shares(g, total)[i] == x;
    assert g[i] == (x.category, x.amount);
  }

  lemma DayMember(g: seq<(CalendarDay, nat)>, x: DayAmount)
    requires x in multiset(DayRows(g))
    ensures (x.date, x.amount) in g
  {
    var i :| 0 <= i < |DayRows(g)| && DayRows(g)[i] == x;
    assert g[i] == (x.date, x.amount);
  }

  /**
   * The top expense categories are at most ten of the shares, largest first,
   * none smaller than a share left out; each carries its category's total and
   * its percentage of the whole, and when all of at most ten categories are
   * shown their percentages add up to 100.
   */
  lemma TopExpenseCategoriesFacts(g: seq<(string, nat)>, total: nat)
    ensures var all, top := Shares(g, total), TopExpenseCategories(g, total);
      |top| == MinNat(10, |g|)
      && NonIncreasing(top, ShareAmount)
      && multiset(top) <= multiset(all)
      && (forall x, y :: x in top && y in multiset(all) - multiset(top) ==> x.amount >= y.amount)
    ensures forall x :: x in TopExpenseCategories(g, total) ==> (x.category, x.amount) in g && x.percentage == Share(x.amount, total)
    ensures total > 0 && Total(g) == total && |g| <= 10 ==> PercentSum(TopExpenseCategories(g, total)) == 100.0
  {
    var all, top := Shares(g, total), TopExpenseCategories(g, total);
    TopRanked(all, ShareAmount, 10);
    TopExpenseMembers(g, total);
    if total > 0 && Total(g) == total && |g| <= 10 {
      TopExpenseCategoriesSumTo100(g, total);
    }
    forall x, y | x in top && y in multiset(all) - multiset(top) ensures x.amount >= y.amount {
      assert ShareAmount(x) >= ShareAmount(y);
    }
  }

  lemma TopExpenseMembers(g: seq<(string, nat)>, total: nat)
    ensures multiset(TopExpenseCategories(g, total)) <= multiset(Shares(g, total))
    ensures forall x :: x in TopExpenseCategories(g, total) ==> (x.category, x.amount) in g && x.percentage == Share(x.amount, total)
  {
    var all, top := Shares(g, total), TopExpenseCategories(g, total);
    TopRanked(all, ShareAmount, 10);
    forall x | x in top ensures (x.category, x.amount) in g && x.percentage == Share(x.amount, total) {
      assert x in multiset(top);
      ShareMember(g, total, x);
    }
  }

  /** The income sources are all the shares, largest first, with percentages adding up to 100. */
  lemma IncomeSourcesFacts(g: seq<(string, nat)>, total: nat)
    ensures multiset(IncomeSources(g, total)) == multiset(Shares(g, total))
    ensures NonIncreasing(IncomeSources(g, total), ShareAmount)
    ensures total > 0 && Total(g) == total ==> PercentSum(IncomeSources(g, total)) == 100.0
  {
    SortDescSorted(Shares(g, total), ShareAmount);
    if total > 0 && Total(g) == total {
      IncomeSourcesSumTo100(g, total);
    }
  }

  /** The sum of the percentages of a list of shares. */
  function PercentSum(s: seq<CategoryShare>): real
  {
    if |s| == 0 then 0.0 else s[0].percentage + PercentSum(s[1..])
  }

  /** Shares of the same total add up like their amounts. */
  lemma ShareAdd(a: nat, b: nat, total: nat)
    ensures Share(a, total) + Share(b, total) == Share(a + b, total)
  {
  }

  /** The whole, against itself, is 100 percent. */
  lemma ShareOfWhole(total: nat)
    requires total > 0
    ensures Share(total, total) == 100.0
  {
  }

  /** The percentages of the shares add up to the share of the entries' total. */
  lemma {:induction false} SharesPercentSum(g: seq<(string, nat)>, total: nat)
    ensures PercentSum(Shares(g, total)) == Share(Total(g), total)
  {
    if |g| > 0 {
      var s := Shares(g, total);
      assert s[0].percentage == Share(g[0].1, total);
      assert s[1..] == Shares(g[1..], total);
      SharesPercentSum(g[1..], total);
      SumNatAppend([g[0]], g[1..], Value);
      SumNatSingle(g[0], Value);
      assert [g[0]] + g[1..] == g;
      ShareAdd(g[0].1, Total(g[1..]), total);
    }
  }

  /** Ranking the shares moves them, so it keeps the sum of their percentages. */
  lemma {:induction false} InsertSharePercentSum(x: CategoryShare, s: seq<CategoryShare>)
    ensures PercentSum(InsertDesc(x, s, ShareAmount)) == x.percentage + PercentSum(s)
  {
    var r := InsertDesc(x, s, ShareAmount);
    if |s| == 0 || ShareAmount(s[0]) <= ShareAmount(x) {
      assert r[1..] == s;
    } else {
      InsertSharePercentSum(x, s[1..]);
      assert r[1..] == InsertDesc(x, s[1..], ShareAmount);
    }
  }

  lemma {:induction false} SortSharesPercentSum(s: seq<CategoryShare>)
    ensures PercentSum(SortDesc(s, ShareAmount)) == PercentSum(s)
  {
    if |s| > 0 {
      SortSharesPercentSum(s[1..]);
      InsertSharePercentSum(s[0], SortDesc(s[1..], ShareAmount));
    }
  }

  /** When the entries add up to a positive total, their percentages add up to 100. */
  lemma SharesSumTo100(g: seq<(string, nat)>, total: nat)
    requires total > 0 && Total(g) == total
    ensures PercentSum(Shares(g, total)) == 100.0
  {
    SharesPercentSum(g, total);
    ShareOfWhole(total);
  }

  /** The income sources are every share, so their percentages add up to 100. */
  lemma IncomeSourcesSumTo100(g: seq<(string, nat)>, total: nat)
    requires total > 0 && Total(g) == total
    ensures PercentSum(IncomeSources(g, total)) == 100.0
  {
    SharesSumTo100(g, total);
    SortSharesPercentSum(Shares(g, total));
  }

  /** With at most ten categories the top ten are all of them, so their percentages add up to 100. */
  lemma TopExpenseCategoriesSumTo100(g: seq<(string, nat)>, total: nat)
    requires total > 0 && Total(g) == total && |g| <= 10
    ensures PercentSum(TopExpenseCategories(g, total)) == 100.0
  {
    SharesSumTo100(g, total);
    SortSharesPercentSum(Shares(g, total));
    var sorted := SortDesc(Shares(g, total), ShareAmount);
    assert Take(sorted, 10) == sorted;
  }

  /**
   * In a year's report with income, the income sources' percentages add up
   * to 100; so do the top expense categories' when the year has expenses in
   * at most ten categories.
   */
  lemma YearSharesSumTo100(transactions: seq<Transaction>, year: int)
    ensures var r := YearlyReport(transactions, year);
      r.totalIncome > 0 ==> PercentSum(r.topIncomeSources) == 100.0
    ensures var r := YearlyReport(transactions, year);
      r.totalExpense > 0 && |r.categoryExpense| <= 10 ==> PercentSum(r.topExpenseCategories) == 100.0
  {
    var r := YearlyReport(transactions, year);
    YearCategories(transactions, year, Income);
    YearCategories(transactions, year, Expense);
    if r.totalIncome > 0 {
      IncomeSourcesSumTo100(r.categoryIncome, r.totalIncome);
    }
    if r.totalExpense > 0 && |r.categoryExpense| <= 10 {
      TopExpenseCategoriesSumTo100(r.categoryExpense, r.totalExpense);
    }
  }

  /** The top spending days are at most five of the days, largest first, none smaller than a day left out. */
  lemma TopSpendingDaysFacts(g: seq<(CalendarDay, nat)>)
    ensures var all, top := DayRows(g), TopSpendingDays(g);
      |top| == MinNat(5, |g|)
      && NonIncreasing(top, DayTotalAmount)
      && multiset(top) <= multiset(all)
      && (forall x, y :: x in top && y in multiset(all) - multiset(top) ==> x.amount >= y.amount)
      && (forall x :: x in top ==> (x.date, x.amount) in g)
  {
    var all, top := DayRows(g), TopSpendingDays(g);
    TopRanked(all, DayTotalAmount, 5);
    forall x, y | x in top && y in multiset(all) - multiset(top) ensures x.amount >= y.amount {
      assert DayTotalAmount(x) >= DayTotalAmount(y);
    }
    forall x | x in top ensures (x.date, x.amount) in g {
      assert x in multiset(top);
      DayMember(g, x);
    }
  }

  /**
   * The month of largest expense is reported exactly when some month has an
   * expense; it is then the first month with the largest expense.
   */
  lemma MaxExpenseMonthFacts(rows: seq<MonthStats>)
    requires |rows| > 0
    ensures MaxExpenseMonth(rows).None? <==> forall j :: 0 <= j < |rows| ==> rows[j].expense == 0
    ensures MaxExpenseMonth(rows).Some? ==>
      exists i :: 0 <= i < |rows| && MaxExpenseMonth(rows).value == MonthAmount(rows[i].month, rows[i].expense)
        && (forall j :: 0 <= j < |rows| ==> rows[j].expense <= rows[i].expense)
        && (forall j :: 0 <= j < i ==> rows[j].expense < rows[i].expense)
  {
    SortDescHead(rows, MonthExpense);
    var i := FirstMaxIndex(rows, MonthExpense);
    assert forall j :: 0 <= j < |rows| ==> MonthExpense(rows[j]) == rows[j].expense;
    if MaxExpenseMonth(rows).Some? {
      assert MaxExpenseMonth(rows).value == MonthAmount(rows[i].month, rows[i].expense);
    }
  }

  /**
   * The best saving month is reported exactly when some month has a positive
   * net; it is then the first month with the largest net.
   */
  lemma BestSavingsMonthFacts(rows: seq<MonthStats>)
    requires |rows| > 0
    ensures BestSavingsMonth(rows).None? <==> forall j :: 0 <= j < |rows| ==> rows[j].net <= 0
    ensures BestSavingsMonth(rows).Some? ==>
      exists i :: 0 <= i < |rows| && BestSavingsMonth(rows).value == MonthAmount(rows[i].month, rows[i].net)
        && (forall j :: 0 <= j < |rows| ==> rows[j].net <= rows[i].net)
        && (forall j :: 0 <= j < i ==> rows[j].net < rows[i].net)
  {
    SortDescHead(rows, MonthNet);
    var i := FirstMaxIndex(rows, MonthNet);
    assert forall j :: 0 <= j < |rows| ==> MonthNet(rows[j]) == rows[j].net;
    if BestSavingsMonth(rows).Some? {
      assert BestSavingsMonth(rows).value == MonthAmount(rows[i].month, rows[i].net);
    }
  }

  /** The savings rate is at most 100, 100 exactly when nothing was spent, and 0 when there is no income. */
  lemma SavingsRateFacts(income: nat, expense: nat)
    ensures SavingsRate(income, expense) <= 100.0
    ensures income > 0 ==> (SavingsRate(income, expense) == 100.0 <==> expense == 0)
    ensures income > 0 ==> (SavingsRate(income, expense) >= 0.0 <==> expense <= income)
    ensures income == 0 ==> SavingsRate(income, expense) == 0.0
  {
    if income > 0 {
      var x, y := (income - expense) as real, income as real;
      var q := x / y;
      QuotientTimes(x, y);
      ScaleOrder(1.0, q, y);
      ScaleOrder(q, 1.0, y);
      ScaleOrder(q, 0.0, y);
    }
  }
}
