// The paged transaction list (components/transactions/TransactionTable.tsx):
// 50 rows a page by default, a detail view shown locally unless the parent
// handles viewing, and a two-step delete through a confirmation dialog.
module TransactionTable {
  import opened Wrappers
  import opened Records
  import opened Paging

  const DefaultPageSize: nat := 50

  /** What a click asks of the parent, which owns the data. */
  datatype Request = NoRequest | ViewRequest(t: Transaction) | DeleteRequest(id: string)

  /** The dialog is open while an id (a non-empty string) is pending. */
  predicate DialogOpen(deleteId: Option<string>) { deleteId.Some? && deleteId.value != "" }

  class TransactionTable {
    const pager: Pager
    var viewingTransaction: Option<Transaction>
    var deleteId: Option<string>

    predicate Valid()
      reads this, pager
    {
      pager.Valid()
    }

    constructor (pageSize: nat)
      requires pageSize > 0
      ensures Valid() && fresh(pager)
      ensures pager.currentPage == 1 && pager.pageSize == pageSize
      ensures viewingTransaction == None && deleteId == None
    {
      pager := new Pager(pageSize);
      viewingTransaction := None;
      deleteId := None;
    }

    /** The parent's onView handles a view when given; otherwise the detail opens here. */
    method HandleView(t: Transaction, hasOnView: bool) returns (request: Request)
      modifies this
      ensures hasOnView ==> request == ViewRequest(t) && viewingTransaction == old(viewingTransaction)
      ensures !hasOnView ==> request == NoRequest && viewingTransaction == Some(t)
      ensures deleteId == old(deleteId)
    {
      if hasOnView {
        request := ViewRequest(t);
      } else {
        viewingTransaction := Some(t);
        request := NoRequest;
      }
    }

    method CloseDetail()
      modifies this
      ensures viewingTransaction == None && deleteId == old(deleteId)
    {
      viewingTransaction := None;
    }

    /** A delete click only remembers the id, which opens the dialog. */
    method HandleDeleteClick(id: string)
      modifies this
      ensures deleteId == Some(id) && viewingTransaction == old(viewingTransaction)
    {
      deleteId := Some(id);
    }

    /**
     * Confirming asks the parent to delete the pending id and clears it, but
     * only when an id is pending and the parent handles deletes; otherwise
     * nothing happens.
     */
    method HandleConfirmDelete(hasOnDelete: bool) returns (request: Request)
      modifies this
      ensures DialogOpen(old(deleteId)) && hasOnDelete ==> request == DeleteRequest(old(deleteId).value) && deleteId == None
      ensures !(DialogOpen(old(deleteId)) && hasOnDelete) ==> request == NoRequest && deleteId == old(deleteId)
      ensures viewingTransaction == old(viewingTransaction)
    {
      if DialogOpen(deleteId) && hasOnDelete {
        request := DeleteRequest(deleteId.value);
        deleteId := None;
      } else {
        request := NoRequest;
      }
    }

    /** Closing the dialog clears the pending id; opening it changes nothing. */
    method HandleOpenChange(open: bool)
      modifies this
      ensures !open ==> deleteId == None
      ensures open ==> deleteId == old(deleteId)
      ensures viewingTransaction == old(viewingTransaction)
    {
      if !open {
        deleteId := None;
      }
    }

    /** The rows of the current page. */
    function CurrentTransactions(transactions: seq<Transaction>): seq<Transaction>
      reads this, pager
      requires Valid()
    {
      pager.Visible(transactions)
    }

    method PrevPage()
      requires Valid()
      modifies pager
      ensures Valid() && pager.currentPage == MaxInt(1, old(pager.currentPage) - 1)
    {
      pager.Prev();
    }

    method NextPage(transactions: seq<Transaction>)
      requires Valid() && ControlsShown(|transactions|, pager.pageSize)
      modifies pager
      ensures Valid() && pager.currentPage == MinInt(TotalPages(|transactions|, pager.pageSize), old(pager.currentPage) + 1)
    {
      pager.Next(|transactions|);
    }
  }
}
