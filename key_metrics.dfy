// The dashboard's key metrics (components/dashboard/KeyMetrics.tsx): two
// guarded averages, the three largest expenses, the day with the highest
// spending (grouped by calendar day in one pass, then reduced) and the split
// of spending around the middle of the selected range.
module KeyMetrics {
  import opened Wrappers
  import opened Calendar
  import opened Seqs
  import opened Sorting
  import opened Grouping
  import opened Buckets
  import opened Records

  // ---------------------------------------------------------------------------
  // Averages

  /** Spending per expense transaction: 0 when there is none. */
  function AvgPerTransaction(totalExpense: nat, expenseTransactionCount: nat): (r: real)
    ensures expenseTransactionCount == 0 ==> r == 0.0
    ensures expenseTransactionCount > 0 ==> r * (expenseTransactionCount as real) == totalExpense as real
  {
    AverageFacts(totalExpense, expenseTransactionCount);
    Average(totalExpense, expenseTransactionCount)
  }

  /** Spending per day of the period: 0 when the period has no positive length. */
  function AvgPerDay(totalExpense: nat, daysInPeriod: int): (r: real)
    ensures daysInPeriod <= 0 ==> r == 0.0
    ensures daysInPeriod > 0 ==> r * (daysInPeriod as real) == totalExpense as real
  {
    AverageFacts(totalExpense, daysInPeriod);
    Average(totalExpense, daysInPeriod)
  }

  // ---------------------------------------------------------------------------
  // The three largest expenses

  /** A copy of the list, expenses only, sorted by amount (largest first), first three. */
  function Top3Transactions(transactions: seq<Transaction>): seq<Transaction>
  {
    Take(SortDesc(Expenses(transactions), AmountKey), 3)
  }

  /**
   * At most three expenses of the list, largest first, none smaller than any
   * expense left out.
   */
  lemma Top3Facts(transactions: seq<Transaction>)
    ensures var top, es := Top3Transactions(transactions), Expenses(transactions);
      |top| == MinNat(3, |es|)
      && (forall i :: 0 <= i < |top| ==> top[i].kind == Expense && top[i] in transactions)
      && (forall i, j :: 0 <= i < j < |top| ==> top[i].amount >= top[j].amount)
      && multiset(top) <= multiset(es)
      && (forall x, y :: x in top && y in multiset(es) - multiset(top) ==> x.amount >= y.amount)
  {
    var top, es := Top3Transactions(transactions), Expenses(transactions);
    TopRanked(es, AmountKey, 3);
    Top3Members(transactions);
    AmountsDescending(top);
    AmountsAbove(top, es);
  }

  lemma Top3Members(transactions: seq<Transaction>)
    ensures var top := Top3Transactions(transactions);
      forall i :: 0 <= i < |top| ==> top[i].kind == Expense && top[i] in transactions
  {
    var top, es := Top3Transactions(transactions), Expenses(transactions);
    TopRanked(es, AmountKey, 3);
    FilterMembers(transactions, IsExpense);
    forall i | 0 <= i < |top| ensures top[i].kind == Expense && top[i] in transactions {
      assert top[i] in multiset(es);
    }
  }

  lemma AmountsDescending(top: seq<Transaction>)
    requires NonIncreasing(top, AmountKey)
    ensures forall i, j :: 0 <= i < j < |top| ==> top[i].amount >= top[j].amount
  {
    forall i, j | 0 <= i < j < |top| ensures top[i].amount >= top[j].amount {
      assert AmountKey(top[i]) >= AmountKey(top[j]);
    }
  }

  lemma AmountsAbove(top: seq<Transaction>, es: seq<Transaction>)
    requires forall x, y :: x in top && y in multiset(es) - multiset(top) ==> AmountKey(x) >= AmountKey(y)
    ensures forall x, y :: x in top && y in multiset(es) - multiset(top) ==> x.amount >= y.amount
  {
    forall x, y | x in top && y in multiset(es) - multiset(top) ensures x.amount >= y.amount {
      assert AmountKey(x) >= AmountKey(y);
    }
  }

  // ---------------------------------------------------------------------------
  // The day with the highest spending

  /** One day's entry: the date of its first expense, the running total and the expenses in order. */
  datatype DayBucket = DayBucket(date: Date, total: nat, transactions: seq<Transaction>)

  /** `total += t.amount; transactions.push(t)`. */
  function AddToDay(t: Transaction): DayBucket -> DayBucket
  {
    (b: DayBucket) => b.(total := b.total + t.amount, transactions := b.transactions + [t])
  }

  /** The dictionary after visiting every expense of es, keyed by calendar day (toDateString). */
  function DayBuckets(es: seq<Transaction>): seq<(CalendarDay, DayBucket)>
  {
    if |es| == 0 then []
    else
      var t := es[|es| - 1];
      Upsert(DayBuckets(es[..|es| - 1]), DayOf(t.date), DayBucket(t.date, 0, []), AddToDay(t))
  }

  function BucketTotal(b: DayBucket): int { b.total }

  /** The result: the winning day, its expenses sorted largest first, and the largest of them. */
  datatype PeakDay = PeakDay(date: Date, total: nat, transactions: seq<Transaction>, largestTransaction: Option<Transaction>)

  function Peak(b: DayBucket): PeakDay
  {
    var sorted := SortDesc(b.transactions, AmountKey);
    PeakDay(b.date, b.total, sorted, if |sorted| > 0 then Some(sorted[0]) else None)
  }

  /** null when there are no expenses; otherwise the first day (in order of appearance) with the largest total. */
  function HighestSpendingDay(transactions: seq<Transaction>): Option<PeakDay>
  {
    var days := Values(DayBuckets(Expenses(transactions)));
    if |days| == 0 then None else Some(Peak(days[FirstMaxIndex(days, BucketTotal)]))
  }

  /** The one-pass grouping, the reduce keeping the first maximum, and the sort of the winner's list. */
  method ComputeHighestSpendingDay(transactions: seq<Transaction>) returns (r: Option<PeakDay>)
    ensures r == HighestSpendingDay(transactions)
  {
    var expenseTransactions := Filter(transactions, IsExpense);
    var dailyTotals := GroupExpenseDays(expenseTransactions);
    var days := Values(dailyTotals);
    if |days| == 0 {
      return None;
    }
    var best := FirstMaxDay(days);
    r := Some(Peak(days[best]));
  }

  /** The forEach filling dailyTotals: one entry per day, in the order the days first occur. */
  method GroupExpenseDays(expenseTransactions: seq<Transaction>) returns (dailyTotals: seq<(CalendarDay, DayBucket)>)
    ensures dailyTotals == DayBuckets(expenseTransactions)
  {
    dailyTotals := [];
    for i := 0 to |expenseTransactions|
      invariant dailyTotals == DayBuckets(expenseTransactions[..i])
    {
      assert expenseTransactions[..i + 1][..i] == expenseTransactions[..i];
      var t := expenseTransactions[i];
      dailyTotals := Upsert(dailyTotals, DayOf(t.date), DayBucket(t.date, 0, []), AddToDay(t));
    }
    assert expenseTransactions[..|expenseTransactions|] == expenseTransactions;
  }

  /** The reduce over the day entries: a strictly larger total replaces the best so far, so the first maximum wins. */
  method FirstMaxDay(days: seq<DayBucket>) returns (best: nat)
    requires |days| > 0
    ensures best == FirstMaxIndex(days, BucketTotal)
  {
    best := 0;
    for i := 0 to |days|
      invariant best < |days|
      invariant forall j :: 0 <= j < i ==> days[j].total <= days[best].total
      invariant forall j :: 0 <= j < best ==> days[j].total < days[best].total
    {
      if days[i].total > days[best].total {
        best := i;
      }
    }
    var m := FirstMaxIndex(days, BucketTotal);
    assert BucketTotal(days[m]) <= BucketTotal(days[best]) && BucketTotal(days[best]) <= BucketTotal(days[m]);
  }

  /** What day d's entry should be: the date of its first expense, the sum and the list of its expenses, or nothing. */
  function DayEntry(es: seq<Transaction>, d: CalendarDay): Option<DayBucket>
  {
    var l := DayList(es, d);
    if |l| > 0 then Some(DayBucket(l[0].date, TotalAmount(l), l)) else None
  }

  /** Appending an expense updates its own day's entry exactly as the loop body does. */
  lemma DayEntrySnoc(s: seq<Transaction>, t: Transaction, d: CalendarDay)
    ensures DayEntry(s + [t], d) ==
              if d == DayOf(t.date) then Some(AddToDay(t)(DayEntry(s, d).GetOr(DayBucket(t.date, 0, []))))
              else DayEntry(s, d)
  {
    FilterSnoc(s, t, OnDay(d));
    var l := DayList(s, d);
    if d == DayOf(t.date) {
      TotalAmountSnoc(l, t);
      if |l| > 0 {
        assert (l + [t])[0] == l[0];
      } else {
        assert l + [t] == [t];
      }
    } else {
      assert DayList(s + [t], d) == l;
    }
  }

  /**
   * Each day's entry holds the date of the day's first expense, the sum of its
   * expenses and the expenses themselves; a day without expenses has no entry.
   */
  lemma {:induction false} DayBucketsFind(es: seq<Transaction>)
    ensures forall d :: Find(DayBuckets(es), d) == DayEntry(es, d)
  {
    if |es| > 0 {
      var s, t := es[..|es| - 1], es[|es| - 1];
      assert es == s + [t];
      DayBucketsFind(s);
      UpsertFind(DayBuckets(s), DayOf(t.date), DayBucket(t.date, 0, []), AddToDay(t));
      forall d ensures Find(DayBuckets(es), d) == DayEntry(es, d) {
        DayEntrySnoc(s, t, d);
      }
    }
  }

  lemma {:induction false} DayBucketsDistinct(es: seq<Transaction>)
    ensures DistinctKeys(DayBuckets(es))
  {
    if |es| > 0 {
      var t := es[|es| - 1];
      DayBucketsDistinct(es[..|es| - 1]);
      UpsertDistinct(DayBuckets(es[..|es| - 1]), DayOf(t.date), DayBucket(t.date, 0, []), AddToDay(t));
    }
  }

  /** The entry at position i is the entry of its own day. */
  lemma EntryAt(es: seq<Transaction>, i: nat)
    requires i < |DayBuckets(es)|
    ensures var d, b := DayBuckets(es)[i].0, DayBuckets(es)[i].1;
      |DayList(es, d)| > 0 && b == DayBucket(DayList(es, d)[0].date, TotalAmount(DayList(es, d)), DayList(es, d))
      && DayOf(b.date) == d
  {
    var g := DayBuckets(es);
    DayBucketsDistinct(es);
    DayBucketsFind(es);
    FindAt(g, i);
    var l := DayList(es, g[i].0);
    FilterMembers(es, OnDay(g[i].0));
    assert OnDay(g[i].0)(l[0]);
  }

  /** Every day with an expense has an entry. */
  lemma EntryOf(es: seq<Transaction>, t: Transaction)
    requires t in es
    ensures HasKey(DayBuckets(es), DayOf(t.date))
  {
    var k := DayOf(t.date);
    DayBucketsFind(es);
    FilterMembers(es, OnDay(k));
    FindHasKey(DayBuckets(es), k);
  }

  /**
   * highestSpendingDay is null exactly when there are no expenses. Otherwise
   * its total is the sum of its day's expenses and no day has a larger sum;
   * its list is that day's expenses, largest first; and the largest
   * transaction is one of them with no smaller amount than any other. Among
   * days with equal totals the one whose first expense comes first wins.
   */
  lemma HighestSpendingDayFacts(transactions: seq<Transaction>)
    ensures var r, es := HighestSpendingDay(transactions), Expenses(transactions);
      (r.None? <==> |es| == 0)
      && (r.Some? ==>
            var p, l := r.value, DayList(es, DayOf(r.value.date));
            |l| > 0 && p.total == TotalAmount(l)
            && multiset(p.transactions) == multiset(l) && NonIncreasing(p.transactions, AmountKey)
            && (forall t :: t in es ==> TotalAmount(DayList(es, DayOf(t.date))) <= p.total)
            && p.largestTransaction.Some? && p.largestTransaction.value in l
            && (forall t :: t in l ==> t.amount <= p.largestTransaction.value.amount))
    ensures var r, es := HighestSpendingDay(transactions), Expenses(transactions);
      r.Some? ==>
        forall i :: 0 <= i < |es| && TotalAmount(DayList(es, DayOf(es[i].date))) == r.value.total ==>
          exists j :: 0 <= j <= i && DayOf(es[j].date) == DayOf(r.value.date)
  {
    var es := Expenses(transactions);
    var days := Values(DayBuckets(es));
    if |es| > 0 {
      EntryOf(es, es[0]);
    }
    if |days| > 0 {
      var m := FirstMaxIndex(days, BucketTotal);
      EntryAt(es, m);
      PeakFacts(days[m]);
      DayMaximal(es, m);
      forall i | 0 <= i < |es| && TotalAmount(DayList(es, DayOf(es[i].date))) == days[m].total
        ensures exists j :: 0 <= j <= i && DayOf(es[j].date) == DayOf(days[m].date)
      {
        DayTieBreak(es, i);
      }
    }
  }

  /** The entries built from a prefix of the expenses are, key for key, the first entries built from all of them. */
  lemma {:induction false} DayBucketsPrefix(es: seq<Transaction>, n: nat)
    requires n <= |es|
    ensures |DayBuckets(es[..n])| <= |DayBuckets(es)|
    ensures forall j :: 0 <= j < |DayBuckets(es[..n])| ==> DayBuckets(es[..n])[j].0 == DayBuckets(es)[j].0
  {
    if n < |es| {
      var s, t := es[..|es| - 1], es[|es| - 1];
      assert s[..n] == es[..n];
      DayBucketsPrefix(s, n);
      UpsertPrefix(DayBuckets(s), DayOf(t.date), DayBucket(t.date, 0, []), AddToDay(t));
    } else {
      assert es[..n] == es;
    }
  }

  /**
   * The reduce's strict comparison breaks ties by order of appearance: the
   * winning day has an expense no later than any expense of a day with the
   * same total.
   */
  lemma DayTieBreak(es: seq<Transaction>, i: nat)
    requires i < |es| && |DayBuckets(es)| > 0
    requires TotalAmount(DayList(es, DayOf(es[i].date))) == Values(DayBuckets(es))[FirstMaxIndex(Values(DayBuckets(es)), BucketTotal)].total
    ensures var days := Values(DayBuckets(es));
      exists j :: 0 <= j <= i && DayOf(es[j].date) == DayOf(days[FirstMaxIndex(days, BucketTotal)].date)
  {
    var days := Values(DayBuckets(es));
    var m := FirstMaxIndex(days, BucketTotal);
    var n := PrefixPosition(es, i);
    EntryTotal(es, n);
    assert BucketTotal(days[n]) == BucketTotal(days[m]);
    PrefixEntryHasExpense(es, i, m);
    EntryTotal(es, m);
  }

  /** The day of es[i] already has an entry among those built from es[..i + 1], at the same position as in the whole dictionary. */
  lemma PrefixPosition(es: seq<Transaction>, i: nat) returns (n: nat)
    requires i < |es|
    ensures n < |DayBuckets(es[..i + 1])| <= |DayBuckets(es)| && DayBuckets(es)[n].0 == DayOf(es[i].date)
  {
    var pre := es[..i + 1];
    assert pre[i] == es[i];
    EntryOf(pre, es[i]);
    n :| 0 <= n < |DayBuckets(pre)| && DayBuckets(pre)[n].0 == DayOf(es[i].date);
    DayBucketsPrefix(es, i + 1);
  }

  /** An entry built from es[..i + 1] belongs to a day with an expense at position i or before. */
  lemma PrefixEntryHasExpense(es: seq<Transaction>, i: nat, m: nat)
    requires i < |es| && m < |DayBuckets(es[..i + 1])|
    ensures m < |DayBuckets(es)| && exists j :: 0 <= j <= i && DayOf(es[j].date) == DayBuckets(es)[m].0
  {
    var pre := es[..i + 1];
    DayBucketsPrefix(es, i + 1);
    EntryHasExpense(pre, m);
    var j :| 0 <= j < |pre| && DayOf(pre[j].date) == DayBuckets(pre)[m].0;
    assert pre[j] == es[j];
  }

  /** The entry at position p holds the total of its own day and carries a date on that day. */
  lemma EntryTotal(es: seq<Transaction>, p: nat)
    requires p < |DayBuckets(es)|
    ensures Values(DayBuckets(es))[p].total == TotalAmount(DayList(es, DayBuckets(es)[p].0))
    ensures DayOf(Values(DayBuckets(es))[p].date) == DayBuckets(es)[p].0
  {
    EntryAt(es, p);
  }

  /** Every entry's day is the day of some expense. */
  lemma EntryHasExpense(es: seq<Transaction>, p: nat)
    requires p < |DayBuckets(es)|
    ensures exists j :: 0 <= j < |es| && DayOf(es[j].date) == DayBuckets(es)[p].0
  {
    var d := DayBuckets(es)[p].0;
    EntryAt(es, p);
    var l := DayList(es, d);
    FilterMembers(es, OnDay(d));
    assert OnDay(d)(l[0]);
    var j :| 0 <= j < |es| && es[j] == l[0];
  }

  /** The winner's list is its day's list sorted largest first, headed by its largest expense. */
  lemma PeakFacts(b: DayBucket)
    ensures var p := Peak(b);
      p.total == b.total && multiset(p.transactions) == multiset(b.transactions)
      && NonIncreasing(p.transactions, AmountKey)
      && (|b.transactions| > 0 ==>
            p.largestTransaction.Some? && p.largestTransaction.value in b.transactions
            && forall t :: t in b.transactions ==> t.amount <= p.largestTransaction.value.amount)
  {
    var l := b.transactions;
    SortDescSorted(l, AmountKey);
    if |l| > 0 {
      SortDescHead(l, AmountKey);
      var top := FirstMaxIndex(l, AmountKey);
      forall t | t in l ensures t.amount <= l[top].amount {
        var i :| 0 <= i < |l| && l[i] == t;
        assert AmountKey(l[i]) <= AmountKey(l[top]);
      }
    }
  }

  /** The first entry with the largest total has no smaller sum than any day with an expense. */
  lemma DayMaximal(es: seq<Transaction>, m: nat)
    requires |DayBuckets(es)| > 0 && m == FirstMaxIndex(Values(DayBuckets(es)), BucketTotal)
    ensures forall t :: t in es ==> TotalAmount(DayList(es, DayOf(t.date))) <= Values(DayBuckets(es))[m].total
  {
    var g := DayBuckets(es);
    var days := Values(g);
    forall t | t in es ensures TotalAmount(DayList(es, DayOf(t.date))) <= days[m].total {
      EntryOf(es, t);
      var j :| 0 <= j < |g| && g[j].0 == DayOf(t.date);
      EntryAt(es, j);
      assert BucketTotal(days[j]) <= BucketTotal(days[m]);
    }
  }

  // ---------------------------------------------------------------------------
  // Spending before and after the middle of the range

  /** new Date((start + end) / 2): the average instant, its fraction of a millisecond dropped toward zero. */
  function MidPoint(start: Date, end: Date): int
  {
    TruncDiv(Stamp(start) + Stamp(end), 2)
  }

  function BeforeMid(mid: int): Transaction -> bool { (t: Transaction) => t.kind == Expense && Time(t) < mid }
  function FromMid(mid: int): Transaction -> bool { (t: Transaction) => t.kind == Expense && Time(t) >= mid }

  datatype HalfPeriodStats = HalfPeriodStats(first15: nat, last15: nat)

  function GetHalfPeriodStats(transactions: seq<Transaction>, start: Date, end: Date): HalfPeriodStats
  {
    var mid := MidPoint(start, end);
    HalfPeriodStats(TotalAmount(Filter(transactions, BeforeMid(mid))), TotalAmount(Filter(transactions, FromMid(mid))))
  }

  lemma {:induction false} HalvesSplit(ts: seq<Transaction>, mid: int)
    ensures TotalAmount(Filter(ts, BeforeMid(mid))) + TotalAmount(Filter(ts, FromMid(mid))) == TotalAmount(Expenses(ts))
  {
    if |ts| > 0 {
      var s, t := ts[..|ts| - 1], ts[|ts| - 1];
      assert ts == s + [t];
      HalvesSplit(s, mid);
      FilterSnoc(s, t, BeforeMid(mid));
      FilterSnoc(s, t, FromMid(mid));
      TotalsSnoc(s, t);
      TotalAmountSnoc(Filter(s, BeforeMid(mid)), t);
      TotalAmountSnoc(Filter(s, FromMid(mid)), t);
      assert Filter(s, BeforeMid(mid)) + [] == Filter(s, BeforeMid(mid));
      assert Filter(s, FromMid(mid)) + [] == Filter(s, FromMid(mid));
    }
  }

  /** Every expense falls in exactly one half, so the halves add up to the whole spending. */
  lemma HalfPeriodTotal(transactions: seq<Transaction>, start: Date, end: Date)
    ensures var h := GetHalfPeriodStats(transactions, start, end);
      h.first15 + h.last15 == TotalAmount(Expenses(transactions))
  {
    HalvesSplit(transactions, MidPoint(start, end));
  }

  /** The midpoint lies between the two ends. */
  lemma MidPointBetween(start: Date, end: Date)
    requires Stamp(start) <= Stamp(end)
    ensures Stamp(start) <= MidPoint(start, end) <= Stamp(end)
  {
  }
}
