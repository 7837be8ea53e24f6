// The savings hook (hooks/useSavings.ts): the guard on the list response
// and the deposit/withdraw totals.
module UseSavings {
  import opened Wrappers
  import opened Seqs
  import opened Records

  /** A decoded response body: a list of savings, or any other JSON value (which may carry an `error` text). */
  datatype Body = ListBody(items: seq<SavingTransaction>) | OtherBody(error: Option<string>)

  /** A fetch result: its `ok` flag and its body (a body that fails to decode reads as `{}`). */
  datatype Response = Response(ok: bool, body: Body)

  function ErrorText(body: Body, fallback: string): string
  {
    if body.OtherBody? && body.error.Some? && body.error.value != "" then body.error.value else fallback
  }

  /**
   * A non-ok response fails with the body's error or 'Failed to fetch
   * savings'; an ok response whose body is not an array fails with the
   * body's error or 'Unexpected response format'; only an array becomes
   * the list.
   */
  function ReadSavings(r: Response): (res: Result<seq<SavingTransaction>>)
    ensures res.Ok? <==> r.ok && r.body.ListBody?
    ensures res.Ok? ==> res.value == r.body.items
    ensures !r.ok ==> res == Err(ErrorText(r.body, "Failed to fetch savings"))
    ensures r.ok && r.body.OtherBody? ==> res == Err(ErrorText(r.body, "Unexpected response format"))
  {
    if !r.ok then Err(ErrorText(r.body, "Failed to fetch savings"))
    else if !r.body.ListBody? then Err(ErrorText(r.body, "Unexpected response format"))
    else Ok(r.body.items)
  }

  /** The state the hook keeps between fetches. */
  class SavingsStore {
    var savings: seq<SavingTransaction>
    var loading: bool
    var error: Option<string>

    constructor ()
      ensures savings == [] && loading && error == None
    {
      savings := [];
      loading := true;
      error := None;
    }

    /** fetchSavings once the response is in: the list is replaced only by an array body; otherwise the error is set. */
    method ApplyFetch(r: Response)
      modifies this
      ensures !loading
      ensures ReadSavings(r).Ok? ==> savings == r.body.items && error == old(error)
      ensures ReadSavings(r).Err? ==> savings == old(savings) && error == Some(ReadSavings(r).message)
    {
      var res := ReadSavings(r);
      if res.Ok? {
        savings := res.value;
      } else {
        error := Some(res.message);
      }
      loading := false;
    }

    function Stats(filteredSavings: Option<seq<SavingTransaction>>): SavingStats
      reads this
    {
      GetStats(savings, filteredSavings)
    }
  }

  // ---------------------------------------------------------------------------
  // getStats

  function Deposits(data: seq<SavingTransaction>): seq<SavingTransaction> { Filter(data, IsDeposit) }
  function Withdrawals(data: seq<SavingTransaction>): seq<SavingTransaction> { Filter(data, IsWithdraw) }

  /** `filteredSavings || savings`. */
  function SavingsData(savings: seq<SavingTransaction>, filteredSavings: Option<seq<SavingTransaction>>): seq<SavingTransaction>
  {
    filteredSavings.GetOr(savings)
  }

  function GetStats(savings: seq<SavingTransaction>, filteredSavings: Option<seq<SavingTransaction>>): SavingStats
  {
    var data := SavingsData(savings, filteredSavings);
    var totalDeposit := SumNat(Deposits(data), SavingAmount);
    var totalWithdraw := SumNat(Withdrawals(data), SavingAmount);
    SavingStats(totalDeposit, totalWithdraw, totalDeposit - totalWithdraw, |data|)
  }

  /**
   * The two totals split the whole amount of the list, the balance is
   * their difference, the count is the list's length, and with no argument
   * the hook's whole list is used.
   */
  lemma StatsFacts(savings: seq<SavingTransaction>, filteredSavings: Option<seq<SavingTransaction>>)
    ensures var s, data := GetStats(savings, filteredSavings), SavingsData(savings, filteredSavings);
      s.totalDeposit + s.totalWithdraw == SumNat(data, SavingAmount)
      && s.balance == s.totalDeposit - s.totalWithdraw
      && s.transactionCount == |data| == |Deposits(data)| + |Withdrawals(data)|
    ensures GetStats(savings, None) == GetStats(savings, Some(savings))
  {
    var data := SavingsData(savings, filteredSavings);
    SumNatPartition(data, IsDeposit, IsWithdraw, SavingAmount);
    FilterSizes(data, IsDeposit, IsWithdraw);
  }

  /** Totals are sums over the records of each type: one more deposit raises the deposit total by its amount. */
  lemma {:induction false} StatsSnoc(data: seq<SavingTransaction>, s: SavingTransaction)
    ensures var before, after := GetStats(data, None), GetStats(data + [s], None);
      after.transactionCount == before.transactionCount + 1
      && (s.kind == Deposit ==> after.totalDeposit == before.totalDeposit + s.amount && after.totalWithdraw == before.totalWithdraw)
      && (s.kind == Withdraw ==> after.totalWithdraw == before.totalWithdraw + s.amount && after.totalDeposit == before.totalDeposit)
  {
    FilterSnoc(data, s, IsDeposit);
    FilterSnoc(data, s, IsWithdraw);
    SumNatAppend(Deposits(data), [s], SavingAmount);
    SumNatAppend(Withdrawals(data), [s], SavingAmount);
    SumNatSingle(s, SavingAmount);
    assert Deposits(data) + [] == Deposits(data) && Withdrawals(data) + [] == Withdrawals(data);
  }
}
