// The modal listing one category's transactions (components/dashboard/CategoryTransactionsModal.tsx):
// newest first, 20 a page, under the plain sum of the amounts.
module CategoryTransactionsModal {
  import opened Records
  import opened Paging

  const PageSize: nat := 20

  /** The amounts are added whatever their type. */
  lemma UnsignedTotal(transactions: seq<Transaction>)
    ensures TotalAmount(transactions) == TotalAmount(Incomes(transactions)) + TotalAmount(Expenses(transactions))
  {
    IncomePlusExpense(transactions);
  }

  class CategoryTransactionsModal {
    const category: string
    const transactions: seq<Transaction>
    const pager: Pager

    predicate Valid()
      reads this, pager
    {
      pager.Valid() && pager.pageSize == PageSize
    }

    constructor (category: string, transactions: seq<Transaction>)
      ensures Valid() && fresh(pager) && pager.currentPage == 1
      ensures this.category == category && this.transactions == transactions
    {
      this.category := category;
      this.transactions := transactions;
      pager := new Pager(PageSize);
    }

    function SortedTransactions(): seq<Transaction>
      reads this
    {
      NewestFirst(transactions)
    }

    function TotalPagesNow(): nat
      reads this
    {
      TotalPages(|transactions|, PageSize)
    }

    function CurrentTransactions(): seq<Transaction>
      reads this, pager
      requires Valid()
    {
      pager.Visible(SortedTransactions())
    }

    function TotalAmount(): nat
      reads this
    {
      Records.TotalAmount(transactions)
    }

    method PrevPage()
      requires Valid()
      modifies pager
      ensures Valid() && pager.currentPage == MaxInt(1, old(pager.currentPage) - 1)
    {
      pager.Prev();
    }

    method NextPage()
      requires Valid() && TotalPagesNow() > 1
      modifies pager
      ensures Valid() && pager.currentPage == MinInt(TotalPagesNow(), old(pager.currentPage) + 1)
    {
      pager.Next(|transactions|);
    }
  }
}
