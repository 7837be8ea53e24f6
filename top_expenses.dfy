// The "top 10 expenses" card (components/dashboard/TopExpenses.tsx): the
// first ten category totals of the current period, each with its share of
// the period's spending and its change against the previous period, and the
// category whose transactions are shown in a modal.
module TopExpenses {
  import opened Wrappers
  import opened Seqs
  import opened Grouping
  import opened Buckets
  import opened Records
  import opened UseTransactions

  function Amount(r: CategoryAmount): nat { r.amount }

  /** The sum of the current amounts. */
  function TotalExpense(currentData: seq<CategoryAmount>): nat { SumNat(currentData, Amount) }

  // ---------------------------------------------------------------------------
  // The previous-period dictionary: `map[item.category] = item.amount` for each item.

  function Overwrite(v: nat): nat -> nat { (_: nat) => v }

  function PreviousMap(previousData: seq<CategoryAmount>): seq<(string, nat)>
  {
    if |previousData| == 0 then []
    else
      var item := previousData[|previousData| - 1];
      Upsert(PreviousMap(previousData[..|previousData| - 1]), item.category, 0, Overwrite(item.amount))
  }

  method BuildPreviousMap(previousData: seq<CategoryAmount>) returns (m: seq<(string, nat)>)
    ensures m == PreviousMap(previousData)
  {
    m := [];
    for i := 0 to |previousData|
      invariant m == PreviousMap(previousData[..i])
    {
      assert previousData[..i + 1][..i] == previousData[..i];
      m := Upsert(m, previousData[i].category, 0, Overwrite(previousData[i].amount));
    }
    assert previousData[..|previousData|] == previousData;
  }

  /** The amount of the last item with category c, if any: an independent reading of what the loop keeps. */
  function LastAmount(previousData: seq<CategoryAmount>, c: string): Option<nat>
  {
    if |previousData| == 0 then None
    else if previousData[|previousData| - 1].category == c then Some(previousData[|previousData| - 1].amount)
    else LastAmount(previousData[..|previousData| - 1], c)
  }

  /** Later items overwrite earlier ones, so each category keeps the amount of its last item. */
  lemma {:induction false} PreviousMapFind(previousData: seq<CategoryAmount>)
    ensures forall c :: Find(PreviousMap(previousData), c) == LastAmount(previousData, c)
  {
    if |previousData| > 0 {
      var s, item := previousData[..|previousData| - 1], previousData[|previousData| - 1];
      PreviousMapFind(s);
      UpsertFind(PreviousMap(s), item.category, 0, Overwrite(item.amount));
    }
  }

  /** LastAmount is None exactly when no item has the category. */
  lemma {:induction false} LastAmountNone(previousData: seq<CategoryAmount>, c: string)
    ensures LastAmount(previousData, c).None? <==> forall i :: 0 <= i < |previousData| ==> previousData[i].category != c
  {
    if |previousData| > 0 {
      var s := previousData[..|previousData| - 1];
      LastAmountNone(s, c);
      assert forall i :: 0 <= i < |s| ==> s[i] == previousData[i];
    }
  }

  // ---------------------------------------------------------------------------
  // The rows

  datatype Trend = Increase | Decrease | Unchanged

  datatype ExpenseRow = ExpenseRow(
    category: string, amount: nat, percentage: real, barWidth: real,
    previousAmount: nat, difference: int, trend: Trend)

  /** Only the sign of the difference picks the indicator. */
  function TrendOf(difference: int): Trend
  {
    if difference > 0 then Increase else if difference < 0 then Decrease else Unchanged
  }

  function Percentage(amount: nat, total: nat): real
  {
    if total > 0 then (amount as real) / (total as real) * 100.0 else 0.0
  }

  function CapAt100(p: real): real { if p <= 100.0 then p else 100.0 }

  function Row(item: CategoryAmount, total: nat, previous: seq<(string, nat)>): ExpenseRow
  {
    var previousAmount := Find(previous, item.category).GetOr(0);
    var difference := item.amount - previousAmount;
    var percentage := Percentage(item.amount, total);
    ExpenseRow(item.category, item.amount, percentage, CapAt100(percentage), previousAmount, difference, TrendOf(difference))
  }

  /** currentData.slice(0, 10), each item rendered as a row. */
  function Top10Rows(currentData: seq<CategoryAmount>, previousData: seq<CategoryAmount>): (rows: seq<ExpenseRow>)
    ensures |rows| == MinNat(10, |currentData|)
  {
    var top10, total, previous := Take(currentData, 10), TotalExpense(currentData), PreviousMap(previousData);
    seq(|top10|, i requires 0 <= i < |top10| => Row(top10[i], total, previous))
  }

  lemma PercentageFacts(amount: nat, total: nat)
    ensures total > 0 ==> Percentage(amount, total) * (total as real) == (amount as real) * 100.0
    ensures total == 0 ==> Percentage(amount, total) == 0.0
    ensures 0.0 <= Percentage(amount, total)
    ensures amount <= total ==> Percentage(amount, total) <= 100.0
  {
    if total > 0 {
      var q := (amount as real) / (total as real);
      assert q * (total as real) == amount as real;
      assert amount <= total ==> q <= 1.0;
    }
  }

  /**
   * A row carries its item, its share of the total (0 when the total is 0),
   * a bar never wider than 100, the previous amount of its category (0 when
   * there is none), the difference to it, and an indicator chosen by the
   * sign alone.
   */
  lemma RowFacts(item: CategoryAmount, total: nat, previous: seq<(string, nat)>)
    ensures var row := Row(item, total, previous);
      row.category == item.category && row.amount == item.amount
      && (total > 0 ==> row.percentage * (total as real) == (item.amount as real) * 100.0)
      && (total == 0 ==> row.percentage == 0.0)
      && 0.0 <= row.percentage && row.barWidth <= 100.0
      && (row.percentage <= 100.0 ==> row.barWidth == row.percentage)
      && (item.amount <= total ==> row.percentage <= 100.0)
      && row.previousAmount == Find(previous, item.category).GetOr(0)
      && row.difference == item.amount - row.previousAmount
      && (row.trend == Increase <==> row.difference > 0)
      && (row.trend == Decrease <==> row.difference < 0)
      && (row.trend == Unchanged <==> row.difference == 0)
  {
    PercentageFacts(item.amount, total);
  }

  /**
   * Row i renders currentData[i] against the whole current total, so its
   * share is at most 100 percent, and its previous amount is that of the
   * last previous item with the same category, or 0.
   */
  lemma Top10RowFacts(currentData: seq<CategoryAmount>, previousData: seq<CategoryAmount>, i: nat)
    requires i < |Top10Rows(currentData, previousData)|
    ensures Top10Rows(currentData, previousData)[i] == Row(currentData[i], TotalExpense(currentData), PreviousMap(previousData))
    ensures currentData[i].amount <= TotalExpense(currentData)
    ensures Top10Rows(currentData, previousData)[i].previousAmount == LastAmount(previousData, currentData[i].category).GetOr(0)
    ensures 0.0 <= Top10Rows(currentData, previousData)[i].percentage <= 100.0
  {
    assert Take(currentData, 10)[i] == currentData[i];
    SumNatBound(currentData, Amount, i);
    PreviousMapFind(previousData);
    RowFacts(currentData[i], TotalExpense(currentData), PreviousMap(previousData));
  }

  /** A category with no previous item compares against 0. */
  lemma NewCategoryComparesToZero(currentData: seq<CategoryAmount>, previousData: seq<CategoryAmount>, i: nat)
    requires i < |Top10Rows(currentData, previousData)|
    requires forall j :: 0 <= j < |previousData| ==> previousData[j].category != currentData[i].category
    ensures Top10Rows(currentData, previousData)[i].previousAmount == 0
    ensures Top10Rows(currentData, previousData)[i].difference == currentData[i].amount
  {
    LastAmountNone(previousData, currentData[i].category);
    PreviousMapFind(previousData);
  }

  // ---------------------------------------------------------------------------
  // The modal

  /** No category selected (null or the empty string): nothing; otherwise the transactions of that category. */
  function CategoryTransactions(transactions: seq<Transaction>, selected: Option<string>): seq<Transaction>
  {
    if selected.None? || selected.value == "" then []
    else Filter(transactions, (t: Transaction) => t.category == selected.value)
  }

  /** The modal lists exactly the transactions of the selected category, and nothing without a selection. */
  lemma CategoryTransactionsFacts(transactions: seq<Transaction>, selected: Option<string>)
    ensures var r := CategoryTransactions(transactions, selected);
      (selected.None? || selected.value == "" ==> r == [])
      && (selected.Some? && selected.value != "" ==>
            (forall t :: t in r <==> t in transactions && t.category == selected.value)
            && IsSubsequence(r, transactions))
  {
    if selected.Some? && selected.value != "" {
      var p := (t: Transaction) => t.category == selected.value;
      FilterMembers(transactions, p);
      FilterSubsequence(transactions, p);
    }
  }

  /** The card's one piece of state: the category whose modal is open. */
  class TopExpensesCard {
    var selectedCategory: Option<string>

    constructor ()
      ensures selectedCategory == None
    {
      selectedCategory := None;
    }

    /** Clicking a row selects its category. */
    method SelectRow(row: ExpenseRow)
      modifies this
      ensures selectedCategory == Some(row.category)
    {
      selectedCategory := Some(row.category);
    }

    /** Closing the modal clears the selection. */
    method CloseModal()
      modifies this
      ensures selectedCategory == None
    {
      selectedCategory := None;
    }

    predicate ModalOpen()
      reads this
    {
      selectedCategory.Some? && selectedCategory.value != ""
    }

    function ModalTransactions(transactions: seq<Transaction>): seq<Transaction>
      reads this
    {
      CategoryTransactions(transactions, selectedCategory)
    }
  }
}
