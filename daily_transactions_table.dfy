// The per-day table of the dashboard (components/dashboard/DailyTransactionsTable.tsx):
// the days newest first, each with its expense change against the row below
// it (the previous day in the data) and its average transaction value.
module DailyTransactionsTable {
  import opened Calendar
  import opened Sorting
  import opened Records

  /** One day of the trend data. */
  datatype DailyStats = DailyStats(date: Date, income: nat, expense: nat, count: nat)

  function DayTime(d: DailyStats): int { Stamp(d.date) }

  datatype DayRow = DayRow(date: Date, income: nat, expense: nat, difference: int, avgValue: real)

  /** Either the rows or, with no data, only the placeholder row. */
  datatype TableBody = Placeholder | Rows(rows: seq<DayRow>)

  /** A copy of the data sorted by date, newest first. */
  function SortedDays(data: seq<DailyStats>): seq<DailyStats> { SortDesc(data, DayTime) }

  function RowAt(sorted: seq<DailyStats>, i: nat): DayRow
    requires i < |sorted|
  {
    var day := sorted[i];
    var difference := if i + 1 < |sorted| then day.expense - sorted[i + 1].expense else 0;
    DayRow(day.date, day.income, day.expense, difference, Average(day.income + day.expense, day.count))
  }

  /** Without data only the placeholder shows; otherwise there is one row per day, in newest-first order. */
  function Body(data: seq<DailyStats>): (body: TableBody)
    ensures body.Placeholder? <==> |data| == 0
    ensures body.Rows? ==> |body.rows| == |data|
  {
    var sorted := SortedDays(data);
    if |sorted| == 0 then Placeholder
    else Rows(seq(|sorted|, i requires 0 <= i < |sorted| => RowAt(sorted, i)))
  }

  /** The sorted copy holds the same days, newest first. */
  lemma SortedDaysFacts(data: seq<DailyStats>)
    ensures var sorted := SortedDays(data);
      multiset(sorted) == multiset(data)
      && forall i, j :: 0 <= i < j < |sorted| ==> Stamp(sorted[i].date) >= Stamp(sorted[j].date)
  {
    var sorted := SortedDays(data);
    SortDescSorted(data, DayTime);
    forall i, j | 0 <= i < j < |sorted| ensures Stamp(sorted[i].date) >= Stamp(sorted[j].date) {
      assert DayTime(sorted[i]) >= DayTime(sorted[j]);
    }
  }

  /**
   * A row shows its day; its difference is its expense minus the next row's,
   * and 0 on the last row; its average is the volume per transaction, 0
   * when the day has none.
   */
  lemma RowAtFacts(sorted: seq<DailyStats>, i: nat)
    requires i < |sorted|
    ensures var row, day := RowAt(sorted, i), sorted[i];
      row.date == day.date && row.income == day.income && row.expense == day.expense
      && (i + 1 < |sorted| ==> row.difference == day.expense - sorted[i + 1].expense)
      && (i + 1 == |sorted| ==> row.difference == 0)
      && (day.count > 0 ==> row.avgValue * (day.count as real) == (day.income + day.expense) as real)
      && (day.count == 0 ==> row.avgValue == 0.0)
  {
    AverageFacts(sorted[i].income + sorted[i].expense, sorted[i].count);
  }
}
