// The savings page (app/savings/page.tsx): the records of the selected
// year, the years offered, the year arrows and the handlers that wait for
// the store before closing the form or the detail view.
module SavingsPage {
  import opened Wrappers
  import opened Seqs
  import opened Sorting
  import opened Records
  import UseSavings

  function InYear(year: int): SavingTransaction -> bool { (s: SavingTransaction) => s.date.year == year }

  function FilteredSavings(savings: seq<SavingTransaction>, selectedYear: int): seq<SavingTransaction>
  {
    Filter(savings, InYear(selectedYear))
  }

  /** The selected year's records, and only those, in their original order. */
  lemma FilteredSavingsFacts(savings: seq<SavingTransaction>, selectedYear: int)
    ensures var r := FilteredSavings(savings, selectedYear);
      (forall s :: s in r <==> s in savings && s.date.year == selectedYear)
      && IsSubsequence(r, savings)
  {
    var p := InYear(selectedYear);
    FilterMembers(savings, p);
    FilterSubsequence(savings, p);
    var r := FilteredSavings(savings, selectedYear);
    forall s ensures s in r <==> s in savings && s.date.year == selectedYear {
      if s in savings && s.date.year == selectedYear {
        var i :| 0 <= i < |savings| && savings[i] == s;
        assert p(savings[i]);
      }
      if s in r {
        var i :| 0 <= i < |r| && r[i] == s;
      }
    }
  }

  /** The summary cards: getStats over the selected year. */
  function PageStats(savings: seq<SavingTransaction>, selectedYear: int): SavingStats
  {
    UseSavings.GetStats(savings, Some(FilteredSavings(savings, selectedYear)))
  }

  function YearsOf(savings: seq<SavingTransaction>): (r: seq<int>)
    ensures |r| == |savings|
    ensures forall i :: 0 <= i < |r| ==> r[i] == savings[i].date.year
  {
    if |savings| == 0 then [] else YearsOf(savings[..|savings| - 1]) + [savings[|savings| - 1].date.year]
  }

  /** The years of the records plus the current year, each once, latest first. */
  function AvailableYears(savings: seq<SavingTransaction>, currentYear: int): seq<int>
  {
    DistinctDescending(YearsOf(savings) + [currentYear])
  }

  lemma AvailableYearsFacts(savings: seq<SavingTransaction>, currentYear: int)
    ensures var r := AvailableYears(savings, currentYear);
      (forall i, j :: 0 <= i < j < |r| ==> r[i] > r[j])
      && (forall y :: y in r <==> y == currentYear || exists s :: s in savings && s.date.year == y)
      && currentYear in r
  {
    var ys := YearsOf(savings) + [currentYear];
    DistinctDescendingFacts(ys);
    forall y ensures y in ys <==> y == currentYear || exists s :: s in savings && s.date.year == y {
      if y in ys && y != currentYear {
        var i :| 0 <= i < |ys| && ys[i] == y;
        assert savings[i] in savings;
      }
      if y != currentYear && exists s :: s in savings && s.date.year == y {
        var s :| s in savings && s.date.year == y;
        var i :| 0 <= i < |savings| && savings[i] == s;
        assert ys[i] == y;
      }
    }
  }

  /** A request the page sends to the store. */
  datatype SavingCall = AddSaving(data: SavingDraft) | UpdateSaving(id: string, data: SavingDraft) | DeleteSaving(id: string)

  class SavingsPageState {
    var selectedYear: int
    var showForm: bool
    var editingSaving: Option<SavingTransaction>
    var viewingSaving: Option<SavingTransaction>
    /** The store calls made so far, oldest first. */
    var calls: seq<SavingCall>

    /** The page opens on the current year, which the caller supplies. */
    constructor (currentYear: int)
      ensures selectedYear == currentYear && !showForm && editingSaving == None && viewingSaving == None
      ensures calls == []
    {
      selectedYear := currentYear;
      showForm := false;
      editingSaving := None;
      viewingSaving := None;
      calls := [];
    }

    method PreviousYear()
      modifies this
      ensures selectedYear == old(selectedYear) - 1
      ensures showForm == old(showForm) && editingSaving == old(editingSaving)
      ensures viewingSaving == old(viewingSaving) && calls == old(calls)
    {
      selectedYear := selectedYear - 1;
    }

    method NextYear()
      modifies this
      ensures selectedYear == old(selectedYear) + 1
      ensures showForm == old(showForm) && editingSaving == old(editingSaving)
      ensures viewingSaving == old(viewingSaving) && calls == old(calls)
    {
      selectedYear := selectedYear + 1;
    }

    /** The add button opens an empty form. */
    method OpenAddForm()
      modifies this
      ensures editingSaving == None && showForm
      ensures selectedYear == old(selectedYear) && viewingSaving == old(viewingSaving) && calls == old(calls)
    {
      editingSaving := None;
      showForm := true;
    }

    method HandleView(s: SavingTransaction)
      modifies this
      ensures viewingSaving == Some(s)
      ensures selectedYear == old(selectedYear) && showForm == old(showForm)
      ensures editingSaving == old(editingSaving) && calls == old(calls)
    {
      viewingSaving := Some(s);
    }

    method HandleEdit(s: SavingTransaction)
      modifies this
      ensures editingSaving == Some(s) && showForm
      ensures selectedYear == old(selectedYear) && viewingSaving == old(viewingSaving) && calls == old(calls)
    {
      editingSaving := Some(s);
      showForm := true;
    }

    /** Cancelling the form closes it and forgets the edit target. */
    method CancelForm()
      modifies this
      ensures !showForm && editingSaving == None
      ensures selectedYear == old(selectedYear) && viewingSaving == old(viewingSaving) && calls == old(calls)
    {
      showForm := false;
      editingSaving := None;
    }

    /** Closing the detail view. */
    method CloseDetail()
      modifies this
      ensures viewingSaving == None
      ensures selectedYear == old(selectedYear) && showForm == old(showForm)
      ensures editingSaving == old(editingSaving) && calls == old(calls)
    {
      viewingSaving := None;
    }

    /** handleAdd: the store is asked to add; the form closes only when that succeeded. */
    method HandleAdd(data: SavingDraft, succeeded: bool)
      modifies this
      ensures calls == old(calls) + [AddSaving(data)]
      ensures showForm == (old(showForm) && !succeeded)
      ensures selectedYear == old(selectedYear) && editingSaving == old(editingSaving)
      ensures viewingSaving == old(viewingSaving)
    {
      calls := calls + [AddSaving(data)];
      if succeeded {
        showForm := false;
      }
    }

    /** handleUpdate: nothing without an edit target; otherwise the update is sent and the form is reset only on success. */
    method HandleUpdate(data: SavingDraft, succeeded: bool)
      modifies this
      ensures old(editingSaving).None? ==>
                calls == old(calls) && showForm == old(showForm) && editingSaving == None
      ensures old(editingSaving).Some? ==>
                calls == old(calls) + [UpdateSaving(old(editingSaving).value.id, data)]
                && (succeeded ==> editingSaving == None && !showForm)
                && (!succeeded ==> editingSaving == old(editingSaving) && showForm == old(showForm))
      ensures selectedYear == old(selectedYear) && viewingSaving == old(viewingSaving)
    {
      if editingSaving.Some? {
        calls := calls + [UpdateSaving(editingSaving.value.id, data)];
        if succeeded {
          editingSaving := None;
          showForm := false;
        }
      }
    }

    /** handleDelete: the detail view closes only when the delete succeeded. */
    method HandleDelete(id: string, succeeded: bool)
      modifies this
      ensures calls == old(calls) + [DeleteSaving(id)]
      ensures viewingSaving == if succeeded then None else old(viewingSaving)
      ensures selectedYear == old(selectedYear) && showForm == old(showForm)
      ensures editingSaving == old(editingSaving)
    {
      calls := calls + [DeleteSaving(id)];
      if succeeded {
        viewingSaving := None;
      }
    }
  }
}
