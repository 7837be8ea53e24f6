// The transaction hook (hooks/useTransactions.ts): client-side filtering,
// dashboard totals, the per-category breakdown and the per-period grouping,
// all over the list of transactions the hook holds.
module UseTransactions {
  import opened Wrappers
  import opened Calendar
  import opened Text
  import opened Seqs
  import opened Sorting
  import opened Grouping
  import opened Buckets
  import opened Records

  // ---------------------------------------------------------------------------
  // filterTransactions

  /** The transaction's own type matches a type choice other than 'all'. */
  predicate TypeIs(k: TxType, c: TypeChoice)
  {
    (c == OnlyIncome && k == Income) || (c == OnlyExpense && k == Expense)
  }

  /** A criterion is "supplied" when the field is set and, for text, not empty (empty text is falsy). */
  predicate Supplied(s: Option<string>) { s.Some? && s.value != "" }

  /** The filter callback, one guard clause after the other. */
  function Keep(f: TransactionFilter, t: Transaction): bool
  {
    if f.startDate.Some? && Time(t) < Stamp(f.startDate.value) then false
    else if f.endDate.Some? && Time(t) > Stamp(f.endDate.value) then false
    else if f.kind.Some? && f.kind.value != AllTypes && !TypeIs(t.kind, f.kind.value) then false
    else if Supplied(f.category) && t.category != f.category.value then false
    else if Supplied(f.searchQuery) then
      var query := Lower(f.searchQuery.value);
      Contains(Lower(t.description), query) || Contains(Lower(t.category), query)
    else true
  }

  /** Each criterion on its own. */
  predicate FromStart(f: TransactionFilter, t: Transaction) { f.startDate.None? || Stamp(f.startDate.value) <= Time(t) }
  predicate UntilEnd(f: TransactionFilter, t: Transaction) { f.endDate.None? || Time(t) <= Stamp(f.endDate.value) }
  predicate OfType(f: TransactionFilter, t: Transaction) { f.kind.None? || f.kind.value == AllTypes || TypeIs(t.kind, f.kind.value) }
  predicate InCategory(f: TransactionFilter, t: Transaction) { !Supplied(f.category) || t.category == f.category.value }
  predicate MatchesSearch(f: TransactionFilter, t: Transaction)
  {
    !Supplied(f.searchQuery)
    || Contains(Lower(t.description), Lower(f.searchQuery.value))
    || Contains(Lower(t.category), Lower(f.searchQuery.value))
  }

  predicate MeetsAll(f: TransactionFilter, t: Transaction)
  {
    FromStart(f, t) && UntilEnd(f, t) && OfType(f, t) && InCategory(f, t) && MatchesSearch(f, t)
  }

  /** The callback keeps a transaction exactly when it meets every supplied criterion. */
  lemma KeepMeetsAll(f: TransactionFilter, t: Transaction)
    ensures Keep(f, t) <==> MeetsAll(f, t)
  {
  }

  /** The search ignores case: a query and any query that lowers alike keep the same transactions. */
  lemma SearchIgnoresCase(f: TransactionFilter, q: string, t: Transaction)
    requires f.searchQuery.Some? && Lower(f.searchQuery.value) == Lower(q)
    ensures MatchesSearch(f, t) <==> MatchesSearch(f.(searchQuery := Some(q)), t)
  {
    assert |f.searchQuery.value| == |Lower(q)| == |q|;
  }

  /** A query in small letters finds a category written with Vietnamese capitals. */
  lemma SmallQueryFindsCapitals(f: TransactionFilter, t: Transaction)
    requires f.searchQuery == Some("đi lại") && t.category == "Đi lại"
    ensures MatchesSearch(f, t) && Keep(f.(startDate := None, endDate := None, kind := None, category := None), t)
  {
    LowerVietnamese();
    assert OccursAt(Lower(t.category), Lower("đi lại"), 0);
  }

  function KeepBy(f: TransactionFilter): Transaction -> bool { t => Keep(f, t) }

  function FilterTransactions(ts: seq<Transaction>, f: TransactionFilter): seq<Transaction>
  {
    Filter(ts, KeepBy(f))
  }

  /**
   * The result holds exactly the transactions that meet every criterion, in
   * their original order.
   */
  lemma FilterTransactionsFacts(ts: seq<Transaction>, f: TransactionFilter)
    ensures forall t :: t in FilterTransactions(ts, f) <==> t in ts && MeetsAll(f, t)
    ensures IsSubsequence(FilterTransactions(ts, f), ts)
  {
    var r := FilterTransactions(ts, f);
    FilterMembers(ts, KeepBy(f));
    FilterSubsequence(ts, KeepBy(f));
    forall t ensures t in r <==> t in ts && MeetsAll(f, t) {
      KeepMeetsAll(f, t);
      if t in ts && MeetsAll(f, t) {
        var i :| 0 <= i < |ts| && ts[i] == t;
        assert KeepBy(f)(ts[i]);
      }
      if t in r {
        var i :| 0 <= i < |r| && r[i] == t;
      }
    }
  }

  /** The empty filter keeps everything. */
  lemma NoFilterKeepsAll(ts: seq<Transaction>)
    ensures FilterTransactions(ts, NoFilter) == ts
  {
    FilterAll(ts, KeepBy(NoFilter));
  }

  /** An empty search string and the type 'all' constrain nothing. */
  lemma EmptyCriteria(f: TransactionFilter, t: Transaction)
    ensures Keep(f.(searchQuery := Some("")), t) == Keep(f.(searchQuery := None), t)
    ensures Keep(f.(category := Some("")), t) == Keep(f.(category := None), t)
    ensures Keep(f.(kind := Some(AllTypes)), t) == Keep(f.(kind := None), t)
  {
  }

  // ---------------------------------------------------------------------------
  // getStats

  /** `filteredTransactions || transactions`: any list given, even an empty one, replaces the full list. */
  function StatsData(transactions: seq<Transaction>, filtered: Option<seq<Transaction>>): seq<Transaction>
  {
    if filtered.Some? then filtered.value else transactions
  }

  function GetStats(transactions: seq<Transaction>, filtered: Option<seq<Transaction>>): DashboardStats
  {
    var data := StatsData(transactions, filtered);
    var totalIncome := TotalAmount(Incomes(data));
    var totalExpense := TotalAmount(Expenses(data));
    DashboardStats(totalIncome, totalExpense, totalIncome - totalExpense, |data|)
  }

  /**
   * The totals split the list's whole amount between its two sides, the
   * balance is their difference and the count is the list's length; with no
   * argument the full list is used.
   */
  lemma StatsFacts(transactions: seq<Transaction>, filtered: Option<seq<Transaction>>)
    ensures var s, data := GetStats(transactions, filtered), StatsData(transactions, filtered);
      s.totalIncome + s.totalExpense == TotalAmount(data)
      && s.balance == s.totalIncome - s.totalExpense
      && s.transactionCount == |data| == |Incomes(data)| + |Expenses(data)|
    ensures GetStats(transactions, None) == GetStats(transactions, Some(transactions))
  {
    var data := StatsData(transactions, filtered);
    IncomePlusExpense(data);
    FilterSizes(data, IsIncome, IsExpense);
  }

  // ---------------------------------------------------------------------------
  // getCategoryBreakdown

  datatype CategoryAmount = CategoryAmount(category: string, amount: nat)

  function RowAmount(r: CategoryAmount): int { r.amount }
  function RowCategory(r: CategoryAmount): string { r.category }

  /** `type ? transactions.filter(t => t.type === type) : transactions`. */
  function OfKind(ts: seq<Transaction>, kind: Option<TxType>): seq<Transaction>
  {
    match kind
    case None => ts
    case Some(Income) => Incomes(ts)
    case Some(Expense) => Expenses(ts)
  }

  /** (category, amount) of each transaction. */
  function CategoryPairs(ts: seq<Transaction>): (r: seq<(string, nat)>)
    ensures |r| == |ts|
  {
    seq(|ts|, i requires 0 <= i < |ts| => (ts[i].category, ts[i].amount))
  }

  /** The amounts of the transactions recorded under category c. */
  function CategoryTotal(ts: seq<Transaction>, c: string): nat { SumOfKey(CategoryPairs(ts), c) }

  /** Some transaction is recorded under category c. */
  predicate UsesCategory(ts: seq<Transaction>, c: string)
  {
    exists i :: 0 <= i < |ts| && ts[i].category == c
  }

  /** Object.entries(...).map(([category, amount]) => ({ category, amount })). */
  function Rows(g: seq<(string, nat)>): (r: seq<CategoryAmount>)
    ensures |r| == |g|
  {
    seq(|g|, i requires 0 <= i < |g| => CategoryAmount(g[i].0, g[i].1))
  }

  /** The breakdown as a function of the input: grouped, then ranked by amount. */
  function CategoryBreakdown(ts: seq<Transaction>, kind: Option<TxType>): seq<CategoryAmount>
  {
    SortDesc(Rows(GroupSums(CategoryPairs(OfKind(ts, kind)))), RowAmount)
  }

  method GetCategoryBreakdown(transactions: seq<Transaction>, kind: Option<TxType>) returns (r: seq<CategoryAmount>)
    ensures r == CategoryBreakdown(transactions, kind)
  {
    var filtered := OfKind(transactions, kind);
    ghost var pairs := CategoryPairs(filtered);
    var breakdown: seq<(string, nat)> := [];
    for i := 0 to |filtered|
      invariant breakdown == GroupSums(pairs[..i])
    {
      assert pairs[..i + 1][..i] == pairs[..i];
      breakdown := Bump(breakdown, filtered[i].category, filtered[i].amount);
    }
    assert pairs[..|filtered|] == pairs;
    r := SortDesc(Rows(breakdown), RowAmount);
  }

  lemma HasKeyPairs(ts: seq<Transaction>)
    ensures forall c :: HasKey(CategoryPairs(ts), c) <==> UsesCategory(ts, c)
  {
    var ps := CategoryPairs(ts);
    forall c ensures HasKey(ps, c) <==> UsesCategory(ts, c) {
      if HasKey(ps, c) { var i :| 0 <= i < |ps| && ps[i].0 == c; assert ts[i].category == c; }
      if UsesCategory(ts, c) { var i :| 0 <= i < |ts| && ts[i].category == c; assert ps[i].0 == c; }
    }
  }

  lemma {:induction false} TotalPairs(ts: seq<Transaction>)
    ensures Total(CategoryPairs(ts)) == TotalAmount(ts)
  {
    if |ts| > 0 {
      var s := ts[..|ts| - 1];
      TotalPairs(s);
      assert CategoryPairs(ts) == CategoryPairs(s) + [(ts[|ts| - 1].category, ts[|ts| - 1].amount)];
      TotalSnoc(CategoryPairs(s), (ts[|ts| - 1].category, ts[|ts| - 1].amount));
    }
  }

  lemma {:induction false} SumRows(g: seq<(string, nat)>)
    ensures SumInt(Rows(g), RowAmount) == Total(g) as int
  {
    if |g| > 0 {
      var s := g[..|g| - 1];
      SumRows(s);
      assert Rows(g)[..|g| - 1] == Rows(s);
      TotalSnoc(s, g[|g| - 1]);
      assert g == s + [g[|g| - 1]];
    }
  }

  lemma RowsDistinct(g: seq<(string, nat)>)
    requires DistinctKeys(g)
    ensures DistinctBy(Rows(g), RowCategory)
  {
  }

  /** The breakdown has one row per category used, holding that category's sum. */
  lemma BreakdownRows(ts: seq<Transaction>, kind: Option<TxType>)
    ensures var r, sel := CategoryBreakdown(ts, kind), OfKind(ts, kind);
      DistinctBy(r, RowCategory)
      && (forall i :: 0 <= i < |r| ==> UsesCategory(sel, r[i].category) && r[i].amount == CategoryTotal(sel, r[i].category))
      && (forall c :: UsesCategory(sel, c) ==> exists i :: 0 <= i < |r| && r[i].category == c)
  {
    var sel := OfKind(ts, kind);
    var g := GroupSums(CategoryPairs(sel));
    var rows := Rows(g);
    var r := SortDesc(rows, RowAmount);
    GroupSumsFacts(CategoryPairs(sel));
    RowsDistinct(g);
    SortDescDistinct(rows, RowAmount, RowCategory);
    GroupedRows(sel);
    RankedRowsSound(r, rows, sel);
    RankedRowsComplete(r, rows, sel);
  }

  /** Reordering the rows keeps every row a category's sum. */
  lemma RankedRowsSound(r: seq<CategoryAmount>, rows: seq<CategoryAmount>, sel: seq<Transaction>)
    requires multiset(r) == multiset(rows)
    requires forall j :: 0 <= j < |rows| ==> UsesCategory(sel, rows[j].category) && rows[j].amount == CategoryTotal(sel, rows[j].category)
    ensures forall i :: 0 <= i < |r| ==> UsesCategory(sel, r[i].category) && r[i].amount == CategoryTotal(sel, r[i].category)
  {
    forall i | 0 <= i < |r| ensures UsesCategory(sel, r[i].category) && r[i].amount == CategoryTotal(sel, r[i].category) {
      assert r[i] in multiset(rows);
      var j :| 0 <= j < |rows| && rows[j] == r[i];
    }
  }

  /** Reordering the rows keeps a row for every category used. */
  lemma RankedRowsComplete(r: seq<CategoryAmount>, rows: seq<CategoryAmount>, sel: seq<Transaction>)
    requires multiset(r) == multiset(rows)
    requires forall c :: UsesCategory(sel, c) ==> exists j :: 0 <= j < |rows| && rows[j].category == c
    ensures forall c :: UsesCategory(sel, c) ==> exists i :: 0 <= i < |r| && r[i].category == c
  {
    forall c | UsesCategory(sel, c) ensures exists i :: 0 <= i < |r| && r[i].category == c {
      var j :| 0 <= j < |rows| && rows[j].category == c;
      assert rows[j] in multiset(r);
      var i :| 0 <= i < |r| && r[i] == rows[j];
    }
  }

  /** Before ranking: one row per category used, holding that category's sum. */
  lemma GroupedRows(sel: seq<Transaction>)
    ensures var rows := Rows(GroupSums(CategoryPairs(sel)));
      (forall j :: 0 <= j < |rows| ==> UsesCategory(sel, rows[j].category) && rows[j].amount == CategoryTotal(sel, rows[j].category))
      && (forall c :: UsesCategory(sel, c) ==> exists j :: 0 <= j < |rows| && rows[j].category == c)
  {
    var ps := CategoryPairs(sel);
    var g := GroupSums(ps);
    var rows := Rows(g);
    GroupSumsFacts(ps);
    HasKeyPairs(sel);
    forall j | 0 <= j < |rows| ensures UsesCategory(sel, rows[j].category) && rows[j].amount == CategoryTotal(sel, rows[j].category) {
      LookupAt(g, j);
      assert HasKey(g, g[j].0);
    }
    forall c | UsesCategory(sel, c) ensures exists j :: 0 <= j < |rows| && rows[j].category == c {
      var j :| 0 <= j < |g| && g[j].0 == c;
      assert rows[j].category == c;
    }
  }

  /** The breakdown's rows are ranked by amount and add up to the total of the selected transactions. */
  lemma BreakdownRanked(ts: seq<Transaction>, kind: Option<TxType>)
    ensures NonIncreasing(CategoryBreakdown(ts, kind), RowAmount)
    ensures SumInt(CategoryBreakdown(ts, kind), RowAmount) == TotalAmount(OfKind(ts, kind)) as int
  {
    var sel := OfKind(ts, kind);
    var g := GroupSums(CategoryPairs(sel));
    GroupSumsFacts(CategoryPairs(sel));
    SortDescSorted(Rows(g), RowAmount);
    SortDescSum(Rows(g), RowAmount);
    SumRows(g);
    TotalPairs(sel);
  }

  // ---------------------------------------------------------------------------
  // getTransactionsByPeriod

  datatype Period = ByDay | ByWeek | ByMonth

  /** The income and expense booked under one period key. */
  datatype Flow = Flow(income: nat, expense: nat)

  /** Math.ceil(day / 7): the week of the month, 1 to 5. */
  function WeekOfMonth(day: Day): (w: int)
    ensures 1 <= w <= 5 && 7 * (w - 1) < day <= 7 * w
  {
    (day + 6) / 7
  }

  function PeriodKey(period: Period, d: Date): string
  {
    match period
    case ByDay => NatToString(d.day) + "/" + NatToString(d.month)
    case ByWeek => "Tuần " + NatToString(WeekOfMonth(d.day)) + "/" + NatToString(d.month)
    case ByMonth => NatToString(d.month) + "/" + IntToString(d.year)
  }

  /** What one transaction adds to its key's totals: income to income, anything else to expense. */
  function AddFlow(v: Flow, t: Transaction): Flow
  {
    if t.kind == Income then v.(income := v.income + t.amount) else v.(expense := v.expense + t.amount)
  }

  function FlowStep(t: Transaction): Flow -> Flow { v => AddFlow(v, t) }

  function FlowIncome(v: Flow): nat { v.income }
  function FlowExpense(v: Flow): nat { v.expense }

  /** The grouping after visiting every transaction of ts in order, each under the key keyOf gives it. */
  function KeyGroups<K(==)>(ts: seq<Transaction>, keyOf: Transaction -> K): seq<(K, Flow)>
  {
    if |ts| == 0 then []
    else
      var t := ts[|ts| - 1];
      Upsert(KeyGroups(ts[..|ts| - 1], keyOf), keyOf(t), Flow(0, 0), FlowStep(t))
  }

  function PeriodKeyOf(period: Period): Transaction -> string { (t: Transaction) => PeriodKey(period, t.date) }

  method GetTransactionsByPeriod(transactions: seq<Transaction>, period: Period) returns (grouped: seq<(string, Flow)>)
    ensures grouped == KeyGroups(transactions, PeriodKeyOf(period))
  {
    grouped := [];
    for i := 0 to |transactions|
      invariant grouped == KeyGroups(transactions[..i], PeriodKeyOf(period))
    {
      assert transactions[..i + 1][..i] == transactions[..i];
      var t := transactions[i];
      var key := PeriodKey(period, t.date);
      grouped := Upsert(grouped, key, Flow(0, 0), FlowStep(t));
    }
    assert transactions[..|transactions|] == transactions;
  }

  /** Some transaction falls under key k. */
  predicate HasKeyed<K(==)>(ts: seq<Transaction>, keyOf: Transaction -> K, k: K)
  {
    exists i :: 0 <= i < |ts| && keyOf(ts[i]) == k
  }

  /** The amounts of the given kind booked under key k. */
  function KeyedTotal<K(==)>(ts: seq<Transaction>, keyOf: Transaction -> K, kind: TxType, k: K): nat
  {
    if |ts| == 0 then 0
    else
      var t := ts[|ts| - 1];
      KeyedTotal(ts[..|ts| - 1], keyOf, kind, k) + (if t.kind == kind && keyOf(t) == k then t.amount else 0)
  }

  lemma HasKeyedSnoc<K>(ts: seq<Transaction>, t: Transaction, keyOf: Transaction -> K)
    ensures forall k :: HasKeyed(ts + [t], keyOf, k) <==> HasKeyed(ts, keyOf, k) || keyOf(t) == k
  {
    var e := ts + [t];
    forall k ensures HasKeyed(e, keyOf, k) <==> HasKeyed(ts, keyOf, k) || keyOf(t) == k {
      if HasKeyed(e, keyOf, k) {
        var i :| 0 <= i < |e| && keyOf(e[i]) == k;
        if i < |ts| { assert ts[i] == e[i]; }
      }
      if HasKeyed(ts, keyOf, k) {
        var i :| 0 <= i < |ts| && keyOf(ts[i]) == k;
        assert e[i] == ts[i];
      }
      if keyOf(t) == k { assert e[|ts|] == t; }
    }
  }

  lemma {:induction false} KeyedTotalAbsent<K>(ts: seq<Transaction>, keyOf: Transaction -> K, kind: TxType, k: K)
    requires !HasKeyed(ts, keyOf, k)
    ensures KeyedTotal(ts, keyOf, kind, k) == 0
  {
    if |ts| > 0 {
      var s := ts[..|ts| - 1];
      assert ts == s + [ts[|ts| - 1]];
      HasKeyedSnoc(s, ts[|ts| - 1], keyOf);
      KeyedTotalAbsent(s, keyOf, kind, k);
    }
  }

  /** One entry per key that some transaction falls under. */
  lemma {:induction false} KeyGroupsKeys<K>(ts: seq<Transaction>, keyOf: Transaction -> K)
    ensures DistinctKeys(KeyGroups(ts, keyOf))
    ensures forall k :: HasKey(KeyGroups(ts, keyOf), k) <==> HasKeyed(ts, keyOf, k)
  {
    if |ts| > 0 {
      var s, t := ts[..|ts| - 1], ts[|ts| - 1];
      assert ts == s + [t];
      KeyGroupsKeys(s, keyOf);
      var g := KeyGroups(s, keyOf);
      UpsertKeys(g, keyOf(t), Flow(0, 0), FlowStep(t));
      UpsertDistinct(g, keyOf(t), Flow(0, 0), FlowStep(t));
      HasKeyedSnoc(s, t, keyOf);
    }
  }

  /** Each key's entry holds that key's income and expense totals; a key no transaction falls under has none. */
  lemma {:induction false} KeyGroupsFind<K>(ts: seq<Transaction>, keyOf: Transaction -> K)
    ensures forall k :: Find(KeyGroups(ts, keyOf), k) ==
                          if HasKeyed(ts, keyOf, k)
                          then Some(Flow(KeyedTotal(ts, keyOf, Income, k), KeyedTotal(ts, keyOf, Expense, k)))
                          else None
  {
    if |ts| > 0 {
      var s, t := ts[..|ts| - 1], ts[|ts| - 1];
      assert ts == s + [t];
      KeyGroupsFind(s, keyOf);
      var g, key := KeyGroups(s, keyOf), keyOf(t);
      UpsertFind(g, key, Flow(0, 0), FlowStep(t));
      HasKeyedSnoc(s, t, keyOf);
      if !HasKeyed(s, keyOf, key) {
        KeyedTotalAbsent(s, keyOf, Income, key);
        KeyedTotalAbsent(s, keyOf, Expense, key);
      }
    }
  }

  /** The per-key totals add up to the overall income and expense. */
  lemma {:induction false} KeyGroupsSums<K>(ts: seq<Transaction>, keyOf: Transaction -> K)
    ensures Measure(KeyGroups(ts, keyOf), FlowIncome) == TotalAmount(Incomes(ts))
    ensures Measure(KeyGroups(ts, keyOf), FlowExpense) == TotalAmount(Expenses(ts))
  {
    if |ts| > 0 {
      var s, t := ts[..|ts| - 1], ts[|ts| - 1];
      assert ts == s + [t];
      KeyGroupsSums(s, keyOf);
      KeyGroupsStep(s, t, keyOf);
      TotalsSnoc(s, t);
    }
  }

  /** One more transaction adds its amount to the income or the expense measure of the groups. */
  lemma KeyGroupsStep<K>(s: seq<Transaction>, t: Transaction, keyOf: Transaction -> K)
    ensures Measure(KeyGroups(s + [t], keyOf), FlowIncome) == Measure(KeyGroups(s, keyOf), FlowIncome) + (if IsIncome(t) then t.amount else 0)
    ensures Measure(KeyGroups(s + [t], keyOf), FlowExpense) == Measure(KeyGroups(s, keyOf), FlowExpense) + (if IsExpense(t) then t.amount else 0)
  {
    var ts := s + [t];
    assert ts[..|ts| - 1] == s;
    var g := KeyGroups(s, keyOf);
    UpsertMeasure(g, keyOf(t), Flow(0, 0), FlowStep(t), FlowIncome, if t.kind == Income then t.amount else 0);
    UpsertMeasure(g, keyOf(t), Flow(0, 0), FlowStep(t), FlowExpense, if t.kind == Income then 0 else t.amount);
  }
}
