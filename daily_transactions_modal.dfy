// The modal listing one day's transactions (components/dashboard/DailyTransactionsModal.tsx):
// newest first, 20 a page, under a signed total.
module DailyTransactionsModal {
  import opened Calendar
  import opened Seqs
  import opened Records
  import opened Paging

  const PageSize: nat := 20

  /** Incomes count up and expenses down. */
  function SignedTotal(transactions: seq<Transaction>): int { SumInt(transactions, SignedAmount) }

  /** The sign shown before the total: '+' for a total that is not negative. */
  function SignPrefix(total: int): string { if total >= 0 then "+" else "" }

  /** The signed total is the income total minus the expense total. */
  lemma {:induction false} SignedTotalFacts(transactions: seq<Transaction>)
    ensures SignedTotal(transactions) == TotalAmount(Incomes(transactions)) - TotalAmount(Expenses(transactions))
  {
    if |transactions| > 0 {
      var s, t := transactions[..|transactions| - 1], transactions[|transactions| - 1];
      assert transactions == s + [t];
      SignedTotalFacts(s);
      TotalsSnoc(s, t);
    }
  }

  lemma SignPrefixFacts(transactions: seq<Transaction>)
    ensures SignPrefix(SignedTotal(transactions)) == "+" <==> TotalAmount(Expenses(transactions)) <= TotalAmount(Incomes(transactions))
  {
    SignedTotalFacts(transactions);
  }

  class DailyTransactionsModal {
    const date: Date
    const transactions: seq<Transaction>
    const pager: Pager

    predicate Valid()
      reads this, pager
    {
      pager.Valid() && pager.pageSize == PageSize
    }

    constructor (date: Date, transactions: seq<Transaction>)
      ensures Valid() && fresh(pager) && pager.currentPage == 1
      ensures this.date == date && this.transactions == transactions
    {
      this.date := date;
      this.transactions := transactions;
      pager := new Pager(PageSize);
    }

    function SortedTransactions(): seq<Transaction>
      reads this
    {
      NewestFirst(transactions)
    }

    function TotalPagesNow(): nat
      reads this
    {
      TotalPages(|transactions|, PageSize)
    }

    function CurrentTransactions(): seq<Transaction>
      reads this, pager
      requires Valid()
    {
      pager.Visible(SortedTransactions())
    }

    function TotalAmount(): int
      reads this
    {
      SignedTotal(transactions)
    }

    method PrevPage()
      requires Valid()
      modifies pager
      ensures Valid() && pager.currentPage == MaxInt(1, old(pager.currentPage) - 1)
    {
      pager.Prev();
    }

    method NextPage()
      requires Valid() && TotalPagesNow() > 1
      modifies pager
      ensures Valid() && pager.currentPage == MinInt(TotalPagesNow(), old(pager.currentPage) + 1)
    {
      pager.Next(|transactions|);
    }
  }
}
