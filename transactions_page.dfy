// The transactions page (app/transactions/page.tsx): the user's filters
// narrowed to the selected date range, and the form handlers that hand
// new and edited transactions to the store.
module TransactionsPage {
  import opened Wrappers
  import opened Calendar
  import opened Seqs
  import opened Records
  import opened UseTransactions
  import DashboardPage

  /** The filter actually applied: the user's criteria, with the dates always taken from the date range. */
  function BaseFilters(filters: TransactionFilter, start: Date, end: Date): (f: TransactionFilter)
    ensures f.startDate == Some(start) && f.endDate == Some(end)
    ensures f.kind == filters.kind && f.category == filters.category && f.searchQuery == filters.searchQuery
  {
    filters.(startDate := Some(start), endDate := Some(end))
  }

  function FilteredTransactions(transactions: seq<Transaction>, filters: TransactionFilter, start: Date, end: Date): seq<Transaction>
  {
    FilterTransactions(transactions, BaseFilters(filters, start, end))
  }

  /**
   * The table shows exactly the transactions inside the date range that
   * meet the user's other criteria, in their original order; dates the
   * user may have put in the filter object play no part.
   */
  lemma FilteredFacts(transactions: seq<Transaction>, filters: TransactionFilter, start: Date, end: Date)
    ensures var r := FilteredTransactions(transactions, filters, start, end);
      (forall t :: t in r <==>
         t in transactions && Stamp(start) <= Time(t) <= Stamp(end)
         && OfType(filters, t) && InCategory(filters, t) && MatchesSearch(filters, t))
      && IsSubsequence(r, transactions)
    ensures forall a, b :: FilteredTransactions(transactions, filters.(startDate := a, endDate := b), start, end)
                           == FilteredTransactions(transactions, filters, start, end)
  {
    FilterTransactionsFacts(transactions, BaseFilters(filters, start, end));
  }

  /** The summary line: getStats over the filtered list. */
  function PageStats(transactions: seq<Transaction>, filters: TransactionFilter, start: Date, end: Date): DashboardStats
  {
    GetStats(transactions, Some(FilteredTransactions(transactions, filters, start, end)))
  }

  /** The same extent the dashboard computes: undefined iff there are no transactions. */
  function DataDateRange(transactions: seq<Transaction>): Option<DashboardPage.DateBounds>
  {
    DashboardPage.DataDateRange(transactions)
  }

  /** A request the page sends to the store. */
  datatype StoreCall = AddCall(data: TransactionDraft) | UpdateCall(id: string, data: TransactionDraft) | DeleteCall(id: string)

  /** One add call per item, in the order of the list. */
  function AddsOf(dataList: seq<TransactionDraft>): (r: seq<StoreCall>)
    ensures |r| == |dataList|
    ensures forall i :: 0 <= i < |r| ==> r[i] == AddCall(dataList[i])
  {
    if |dataList| == 0 then [] else AddsOf(dataList[..|dataList| - 1]) + [AddCall(dataList[|dataList| - 1])]
  }

  class TransactionsPageState {
    var filters: TransactionFilter
    var showForm: bool
    var editingTransaction: Option<Transaction>
    var viewingTransaction: Option<Transaction>
    /** The calls made to the store so far, oldest first. */
    var calls: seq<StoreCall>

    constructor ()
      ensures filters == NoFilter && !showForm && editingTransaction == None && viewingTransaction == None
      ensures calls == []
    {
      filters := NoFilter;
      showForm := false;
      editingTransaction := None;
      viewingTransaction := None;
      calls := [];
    }

    /** The filter bar reports a new filter object. */
    method SetFilters(f: TransactionFilter)
      modifies this
      ensures filters == f
      ensures showForm == old(showForm) && editingTransaction == old(editingTransaction)
      ensures viewingTransaction == old(viewingTransaction) && calls == old(calls)
    {
      filters := f;
    }

    method OpenForm()
      modifies this
      ensures showForm
      ensures filters == old(filters) && editingTransaction == old(editingTransaction)
      ensures viewingTransaction == old(viewingTransaction) && calls == old(calls)
    {
      showForm := true;
    }

    method HandleView(t: Transaction)
      modifies this
      ensures viewingTransaction == Some(t)
      ensures filters == old(filters) && showForm == old(showForm)
      ensures editingTransaction == old(editingTransaction) && calls == old(calls)
    {
      viewingTransaction := Some(t);
    }

    /** Editing opens the form on that transaction. */
    method HandleEdit(t: Transaction)
      modifies this
      ensures editingTransaction == Some(t) && showForm
      ensures filters == old(filters) && viewingTransaction == old(viewingTransaction) && calls == old(calls)
    {
      editingTransaction := Some(t);
      showForm := true;
    }

    /** An update of the transaction being edited, or else an add; either way the form closes and nothing is being edited. */
    method HandleSubmit(data: TransactionDraft)
      modifies this
      ensures old(editingTransaction).Some? ==> calls == old(calls) + [UpdateCall(old(editingTransaction).value.id, data)]
      ensures old(editingTransaction).None? ==> calls == old(calls) + [AddCall(data)]
      ensures !showForm && editingTransaction == None
      ensures filters == old(filters) && viewingTransaction == old(viewingTransaction)
    {
      if editingTransaction.Some? {
        calls := calls + [UpdateCall(editingTransaction.value.id, data)];
      } else {
        calls := calls + [AddCall(data)];
      }
      showForm := false;
      editingTransaction := None;
    }

    /** Cancelling the form closes it and forgets the edit target. */
    method CancelForm()
      modifies this
      ensures !showForm && editingTransaction == None
      ensures filters == old(filters) && viewingTransaction == old(viewingTransaction) && calls == old(calls)
    {
      showForm := false;
      editingTransaction := None;
    }

    /** Closing the detail view. */
    method CloseDetail()
      modifies this
      ensures viewingTransaction == None
      ensures filters == old(filters) && showForm == old(showForm)
      ensures editingTransaction == old(editingTransaction) && calls == old(calls)
    {
      viewingTransaction := None;
    }

    /** The table's delete goes straight to the store; no screen state changes. */
    method HandleDelete(id: string)
      modifies this
      ensures calls == old(calls) + [DeleteCall(id)]
      ensures filters == old(filters) && showForm == old(showForm)
      ensures editingTransaction == old(editingTransaction) && viewingTransaction == old(viewingTransaction)
    {
      calls := calls + [DeleteCall(id)];
    }

    /** Every item is added, in order; the form closes but the edit target is left as it was. */
    method HandleBatchSubmit(dataList: seq<TransactionDraft>)
      modifies this
      ensures calls == old(calls) + AddsOf(dataList)
      ensures !showForm
      ensures filters == old(filters) && editingTransaction == old(editingTransaction)
      ensures viewingTransaction == old(viewingTransaction)
    {
      for i := 0 to |dataList|
        invariant calls == old(calls) + AddsOf(dataList[..i])
        invariant filters == old(filters) && editingTransaction == old(editingTransaction)
        invariant viewingTransaction == old(viewingTransaction) && showForm == old(showForm)
      {
        assert dataList[..i + 1][..i] == dataList[..i];
        calls := calls + [AddCall(dataList[i])];
      }
      assert dataList[..|dataList|] == dataList;
      showForm := false;
    }
  }
}
