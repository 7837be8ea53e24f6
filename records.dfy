// The records the application stores: income and expense transactions,
// the filter over them, dashboard totals, the fixed category list, and
// savings deposits and withdrawals (types/transaction.ts, types/saving.ts).
module Records {
  import opened Wrappers
  import opened Calendar
  import opened Seqs
  import opened Sorting

  datatype TxType = Income | Expense

  /** A transaction; amounts are whole đồng. */
  datatype Transaction = Transaction(
    id: string, date: Date, amount: nat, category: string, description: string, kind: TxType)

  /** `Omit<Transaction, 'id'>`: what a form submits before the store gives it an ID. */
  datatype TransactionDraft = TransactionDraft(
    date: Date, amount: nat, category: string, description: string, kind: TxType)

  /** The type criterion of a filter: 'all', 'income' or 'expense'. */
  datatype TypeChoice = AllTypes | OnlyIncome | OnlyExpense

  /** Every criterion is optional. */
  datatype TransactionFilter = TransactionFilter(
    startDate: Option<Date>, endDate: Option<Date>, kind: Option<TypeChoice>,
    category: Option<string>, searchQuery: Option<string>)

  const NoFilter := TransactionFilter(None, None, None, None, None)

  datatype DashboardStats = DashboardStats(
    totalIncome: nat, totalExpense: nat, balance: int, transactionCount: nat)

  /** The category names offered by the transaction form, in order. */
  const Categories: seq<string> := [
    "Ăn uống", "Nấu ăn/siêu thị", "Mua sắm", "Sức khoẻ", "Hoá đơn (ĐT, net, cc...)",
    "Trả nợ", "Đi lại: Đổ xăng", "Làm đẹp", "Tiệc tùng/vui chơi", "Đi lại: Thuê xe",
    "Thú cưng", "Học tập", "Freelancer", "Đi lại: Taxi", "Làm việc", "Quà tặng",
    "Tiền học kitty", "Lương tháng", "Được tặng", "Bảo hiểm", "Sửa nhà", "Du lịch",
    "Đi lại: Sửa xe", "Khoản thu khác"]

  datatype SavingType = Deposit | Withdraw

  datatype SavingTransaction = SavingTransaction(
    id: string, date: Date, amount: nat, note: string, kind: SavingType)

  /** `Omit<SavingTransaction, 'id'>`. */
  datatype SavingDraft = SavingDraft(date: Date, amount: nat, note: string, kind: SavingType)

  datatype SavingStats = SavingStats(
    totalDeposit: nat, totalWithdraw: nat, balance: int, transactionCount: nat)

  function Amount(t: Transaction): nat { t.amount }
  /** The sort key of `(a, b) => b.amount - a.amount`. */
  function AmountKey(t: Transaction): int { t.amount }
  function SignedAmount(t: Transaction): int { if t.kind == Income then t.amount else -(t.amount as int) }
  function Time(t: Transaction): int { Stamp(t.date) }
  predicate IsIncome(t: Transaction) { t.kind == Income }
  predicate IsExpense(t: Transaction) { t.kind == Expense }

  function TotalAmount(ts: seq<Transaction>): nat { SumNat(ts, Amount) }
  function Incomes(ts: seq<Transaction>): seq<Transaction> { Filter(ts, IsIncome) }
  function Expenses(ts: seq<Transaction>): seq<Transaction> { Filter(ts, IsExpense) }

  /** Every transaction is an income or an expense, so the two totals make up the whole. */
  lemma IncomePlusExpense(ts: seq<Transaction>)
    ensures TotalAmount(Incomes(ts)) + TotalAmount(Expenses(ts)) == TotalAmount(ts)
  {
    SumNatPartition(ts, IsIncome, IsExpense, Amount);
  }

  lemma TotalAmountSnoc(ts: seq<Transaction>, t: Transaction)
    ensures TotalAmount(ts + [t]) == TotalAmount(ts) + t.amount
  {
    assert (ts + [t])[..|ts|] == ts;
  }

  /** Appending a transaction extends exactly one of the two sides. */
  lemma KindSnoc(ts: seq<Transaction>, t: Transaction)
    ensures IsIncome(t) ==> Incomes(ts + [t]) == Incomes(ts) + [t] && Expenses(ts + [t]) == Expenses(ts)
    ensures IsExpense(t) ==> Expenses(ts + [t]) == Expenses(ts) + [t] && Incomes(ts + [t]) == Incomes(ts)
  {
    FilterSnoc(ts, t, IsIncome);
    FilterSnoc(ts, t, IsExpense);
    assert Incomes(ts) + [] == Incomes(ts) && Expenses(ts) + [] == Expenses(ts);
  }

  /** What appending a transaction does to the totals and counts of each side. */
  lemma TotalsSnoc(ts: seq<Transaction>, t: Transaction)
    ensures TotalAmount(Incomes(ts + [t])) == TotalAmount(Incomes(ts)) + (if IsIncome(t) then t.amount else 0)
    ensures TotalAmount(Expenses(ts + [t])) == TotalAmount(Expenses(ts)) + (if IsExpense(t) then t.amount else 0)
    ensures |Incomes(ts + [t])| == |Incomes(ts)| + (if IsIncome(t) then 1 else 0)
    ensures |Expenses(ts + [t])| == |Expenses(ts)| + (if IsExpense(t) then 1 else 0)
  {
    KindSnoc(ts, t);
    TotalAmountSnoc(Incomes(ts), t);
    TotalAmountSnoc(Expenses(ts), t);
  }

  /** Same calendar day: equal date, month and full year. */
  function OnDay(d: CalendarDay): Transaction -> bool { (t: Transaction) => DayOf(t.date) == d }

  /** The transactions of ts on calendar day d, in order. */
  function DayList(ts: seq<Transaction>, d: CalendarDay): seq<Transaction> { Filter(ts, OnDay(d)) }

  /** `[...ts].sort((a, b) => b.date.getTime() - a.date.getTime())`: a copy, newest first. */
  function NewestFirst(ts: seq<Transaction>): seq<Transaction> { SortDesc(ts, Time) }

  /** The sorted copy holds the same transactions, newest first. */
  lemma NewestFirstFacts(ts: seq<Transaction>)
    ensures var r := NewestFirst(ts);
      |r| == |ts| && multiset(r) == multiset(ts)
      && forall i, j :: 0 <= i < j < |r| ==> Stamp(r[i].date) >= Stamp(r[j].date)
  {
    var r := NewestFirst(ts);
    SortDescSorted(ts, Time);
    forall i, j | 0 <= i < j < |r| ensures Stamp(r[i].date) >= Stamp(r[j].date) {
      assert Time(r[i]) >= Time(r[j]);
    }
  }

  /** total / n when n is positive, and 0 otherwise (the zero guard every average uses). */
  function Average(total: nat, n: int): real
  {
    if n > 0 then (total as real) / (n as real) else 0.0
  }

  /** An average times the count gives back the total; with no items it is 0. */
  lemma AverageFacts(total: nat, n: int)
    ensures n > 0 ==> Average(total, n) * (n as real) == total as real
    ensures n <= 0 ==> Average(total, n) == 0.0
  {
  }

  function SavingAmount(s: SavingTransaction): nat { s.amount }
  function SavingTime(s: SavingTransaction): int { Stamp(s.date) }
  predicate IsDeposit(s: SavingTransaction) { s.kind == Deposit }
  predicate IsWithdraw(s: SavingTransaction) { s.kind == Withdraw }

  /** Savings sorted by date, newest first. */
  function SavingsNewestFirst(ss: seq<SavingTransaction>): seq<SavingTransaction> { SortDesc(ss, SavingTime) }

  /** The sorted copy holds the same savings, newest first. */
  lemma SavingsNewestFirstFacts(ss: seq<SavingTransaction>)
    ensures var r := SavingsNewestFirst(ss);
      |r| == |ss| && (forall s :: s in r <==> s in ss)
      && forall i, j :: 0 <= i < j < |r| ==> Stamp(r[i].date) >= Stamp(r[j].date)
  {
    var r := SavingsNewestFirst(ss);
    SortDescSorted(ss, SavingTime);
    SortDescMembers(ss, SavingTime);
    forall i, j | 0 <= i < j < |r| ensures Stamp(r[i].date) >= Stamp(r[j].date) {
      assert SavingTime(r[i]) >= SavingTime(r[j]);
    }
  }
}
