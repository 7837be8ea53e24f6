// The three Google Sheets stores (lib/google-sheets.ts): how each maps the
// rows of its tab to records, the rows it appends, the row it finds for an
// update or a delete, the merge it writes back, and the next category ID.
// The API calls themselves are left out; a response's `values` is a
// parameter (None when the sheet returns none) and a write is a result.
module GoogleSheets {
  import opened Wrappers
  import opened Text
  import opened Calendar
  import opened Sorting
  import opened Records
  import opened SheetCells

  type Rows = seq<seq<Cell>>

  const NotConfiguredOnRead := "Chưa cấu hình Google Spreadsheet ID. Vui lòng vào Cài đặt để cấu hình."
  const NotConfiguredShort := "Chưa cấu hình Google Spreadsheet ID."
  const NotConfigured := "Chưa cấu hình Google Spreadsheet ID"
  const NoData := "No data found in sheet"
  const DefaultColor := "#6366f1"
  const IncomeLabel := "Thu nhập"
  const ExpenseLabel := "Chi phí"
  const ExpenseGroupLabel := "Chi tiêu"
  const DepositLabel := "Gửi vào"
  const WithdrawLabel := "Rút ra"
  const OtherCategory := "Khác"

  /** `rows.slice(1)`: the data rows below the header; none when the sheet has no rows. */
  function DataRows(values: Option<Rows>): Rows
  {
    if values.None? || |values.value| == 0 then [] else values.value[1..]
  }

  /**
   * The value the sheet keeps for a cell written with USER_ENTERED, as far
   * as it is modelled: a text that starts with an apostrophe is kept as
   * text without it; every other cell is kept as written.
   */
  function Entered(c: Cell): Cell
  {
    if c.Str? && |c.s| > 0 && c.s[0] == '\'' then Str(c.s[1..]) else c
  }

  function EnteredRow(row: seq<Cell>): (r: seq<Cell>)
    ensures |r| == |row| && forall i :: 0 <= i < |row| ==> r[i] == Entered(row[i])
  {
    seq(|row|, i requires 0 <= i < |row| => Entered(row[i]))
  }

  /** A text the sheet stores as written: it does not start with an apostrophe. */
  predicate Plain(s: string) { |s| == 0 || s[0] != '\'' }

  /** What a write of one row sends: the row's 1-based number and its cells. */
  datatype RowWrite = RowWrite(rowNumber: nat, row: seq<Cell>)

  /** What an `add` sends and what it returns. */
  datatype Appended<T> = Appended(row: seq<Cell>, record: T)

  // ---------------------------------------------------------------------------
  // The Transaction tab: A date, B amount, C category, D description, E type, F id

  predicate HasDateOrAmount(row: seq<Cell>) { Truthy(CellAt(row, 0)) || Truthy(CellAt(row, 1)) }

  function KindOf(c: Cell): TxType { if c == Str(IncomeLabel) then Income else Expense }

  function TxLabel(k: TxType): string { if k == Income then IncomeLabel else ExpenseLabel }

  /**
   * One data row as a transaction: `gen(n)` stands for the generateId()
   * call made for the n-th data row, `toDate` for the Date constructor
   * applied to what parseSheetDate read.
   */
  function RowTransaction(row: seq<Cell>, n: nat, gen: nat -> string, toDate: DateSource -> Date): Transaction
  {
    Transaction(
      TextOr(CellAt(row, 5), gen(n)),
      toDate(ParseDateCell(CellAt(row, 0))),
      NatAmount(ParseAmount(CellAt(row, 1))),
      TextOr(CellAt(row, 2), OtherCategory),
      TextOr(CellAt(row, 3), ""),
      KindOf(CellAt(row, 4)))
  }

  function TransactionMaker(gen: nat -> string, toDate: DateSource -> Date): (seq<Cell>, nat) -> Transaction
  {
    (row: seq<Cell>, n: nat) => RowTransaction(row, n, gen, toDate)
  }

  /** The transactions of the data rows that have a date or an amount, newest first. */
  function ReadTransactions(values: Option<Rows>, gen: nat -> string, toDate: DateSource -> Date): seq<Transaction>
  {
    NewestFirst(ReadRows(DataRows(values), HasDateOrAmount, TransactionMaker(gen, toDate)))
  }

  /** GoogleSheetsDB.getAll once the sheet has answered with `values`. */
  method GetAllTransactions(spreadsheetId: string, values: Option<Rows>, gen: nat -> string, toDate: DateSource -> Date)
    returns (r: Result<seq<Transaction>>)
    ensures spreadsheetId == "" ==> r == Err(NotConfiguredOnRead)
    ensures spreadsheetId != "" ==> r == Ok(ReadTransactions(values, gen, toDate))
  {
    if spreadsheetId == "" {
      return Err(NotConfiguredOnRead);
    }
    var transactions := CollectRows(DataRows(values), HasDateOrAmount, TransactionMaker(gen, toDate));
    r := Ok(NewestFirst(transactions));
  }

  /**
   * Exactly the data rows with a date or an amount give a transaction,
   * each with a non-empty category, and the list is newest first.
   */
  lemma ReadTransactionsFacts(values: Option<Rows>, gen: nat -> string, toDate: DateSource -> Date)
    ensures var rows, r := DataRows(values), ReadTransactions(values, gen, toDate);
      (forall t :: t in r <==> exists i :: 0 <= i < |rows| && HasDateOrAmount(rows[i]) && t == RowTransaction(rows[i], i, gen, toDate))
      && (forall t :: t in r ==> t.category != "")
      && (forall i, j :: 0 <= i < j < |r| ==> Stamp(r[i].date) >= Stamp(r[j].date))
      && |r| <= |rows|
  {
    var rows := DataRows(values);
    var read := ReadRows(rows, HasDateOrAmount, TransactionMaker(gen, toDate));
    ReadTransactionsMembers(values, gen, toDate);
    NewestFirstFacts(read);
    forall t | t in ReadTransactions(values, gen, toDate) ensures t.category != "" {
      var i :| 0 <= i < |rows| && HasDateOrAmount(rows[i]) && t == RowTransaction(rows[i], i, gen, toDate);
    }
  }

  /** The transactions read are exactly those of the data rows with a date or an amount. */
  lemma ReadTransactionsMembers(values: Option<Rows>, gen: nat -> string, toDate: DateSource -> Date)
    ensures var rows, r := DataRows(values), ReadTransactions(values, gen, toDate);
      forall t :: t in r <==> exists i :: 0 <= i < |rows| && HasDateOrAmount(rows[i]) && t == RowTransaction(rows[i], i, gen, toDate)
  {
    var rows, make := DataRows(values), TransactionMaker(gen, toDate);
    var read := ReadRows(rows, HasDateOrAmount, make);
    ReadRowsFacts(rows, HasDateOrAmount, make);
    SortDescMembers(read, Time);
    assert forall i :: 0 <= i < |rows| ==> make(rows[i], i) == RowTransaction(rows[i], i, gen, toDate);
  }

  /** The row `add` appends. */
  function TransactionRow(t: TransactionDraft, newId: string): seq<Cell>
  {
    [Str(FormatDmy(t.date)), Num(t.amount), Str(t.category), Str(t.description), Str(TxLabel(t.kind)), Str(newId)]
  }

  /** GoogleSheetsDB.add: the row to append and the transaction returned. */
  method AddTransaction(spreadsheetId: string, t: TransactionDraft, newId: string) returns (r: Result<Appended<Transaction>>)
    ensures spreadsheetId == "" ==> r == Err(NotConfigured)
    ensures spreadsheetId != "" ==> r.Ok? && r.value.row == TransactionRow(t, newId)
    ensures r.Ok? ==> r.value.record == Transaction(newId, t.date, t.amount, t.category, t.description, t.kind)
  {
    if spreadsheetId == "" {
      return Err(NotConfigured);
    }
    r := Ok(Appended(TransactionRow(t, newId), Transaction(newId, t.date, t.amount, t.category, t.description, t.kind)));
  }

  lemma FormatDmyPlain(d: Date)
    ensures |FormatDmy(d)| > 0 && Plain(FormatDmy(d)) && Truthy(Str(FormatDmy(d)))
  {
    PaddedNumber(d.day, 2);
    DigitIsPlain(FormatDmy(d)[0]);
  }

  lemma EnteredPlain(s: string)
    requires Plain(s)
    ensures Entered(Str(s)) == Str(s)
  {
  }

  /**
   * An appended row reads back as the transaction that `add` returned,
   * except that the date is built from the day's parts written (the same
   * day whenever the conversion behaves as the Date constructor) and an
   * empty category reads as 'Khác'.
   */
  lemma AddedRowReadsBack(t: TransactionDraft, newId: string, n: nat, gen: nat -> string, toDate: DateSource -> Date)
    requires newId != "" && Plain(newId) && Plain(t.category) && Plain(t.description)
    ensures var row := EnteredRow(TransactionRow(t, newId));
      HasDateOrAmount(row)
      && RowTransaction(row, n, gen, toDate) ==
           Transaction(newId, toDate(SheetDay(t.date)), t.amount,
                       if t.category == "" then OtherCategory else t.category, t.description, t.kind)
  {
    StoredTransactionRow(t, newId);
    FormatDmyPlain(t.date);
    DmyRoundTrip(t.date);
    ParseAmountBasics(t.amount);
    LabelRoundTrip(t.kind);
  }
  /** With a conversion that behaves as the Date constructor, an appended transaction reads back on the day written. */
  lemma AddedRowSameDay(t: TransactionDraft, newId: string, n: nat, gen: nat -> string, toDate: DateSource -> Date)
    requires newId != "" && Plain(newId) && Plain(t.category) && Plain(t.description)
    requires BuildsDays(toDate) && IsCalendarDate(t.date)
    ensures var r := RowTransaction(EnteredRow(TransactionRow(t, newId)), n, gen, toDate);
      DayOf(r.date) == DayOf(t.date) && r.date.ms == 0
  {
    AddedRowReadsBack(t, newId, n, gen, toDate);
    SheetDayBuilt(t.date, toDate);
  }


  /** The type column written for a kind reads back as that kind. */
  lemma LabelRoundTrip(k: TxType)
    ensures KindOf(Str(TxLabel(k))) == k
  {
    if k == Expense {
      assert ExpenseLabel[0] != IncomeLabel[0];
    }
  }

  /** The sheet keeps an appended transaction row as written. */
  lemma StoredTransactionRow(t: TransactionDraft, newId: string)
    requires Plain(newId) && Plain(t.category) && Plain(t.description)
    ensures EnteredRow(TransactionRow(t, newId)) == TransactionRow(t, newId)
  {
    FormatDmyPlain(t.date);
    EnteredPlain(FormatDmy(t.date));
    EnteredPlain(t.category);
    EnteredPlain(t.description);
    EnteredPlain(newId);
  }

  /** Once a row is appended below the header, getAll lists its transaction. */
  lemma AppendedIsListed(rows: Rows, newRow: seq<Cell>, gen: nat -> string, toDate: DateSource -> Date)
    requires |rows| >= 1 && HasDateOrAmount(newRow)
    ensures RowTransaction(newRow, |rows| - 1, gen, toDate) in ReadTransactions(Some(rows + [newRow]), gen, toDate)
  {
    var data := DataRows(Some(rows + [newRow]));
    assert data == rows[1..] + [newRow];
    assert data[|rows| - 1] == newRow;
    ReadTransactionsFacts(Some(rows + [newRow]), gen, toDate);
  }

  /** `Partial<Transaction>`: the fields an update supplies. */
  datatype TransactionPatch = TransactionPatch(
    date: Option<Date>, amount: Option<nat>, category: Option<string>, description: Option<string>, kind: Option<TxType>)

  /** A supplied text that is also truthy (`updates.x || current`). */
  predicate Given(o: Option<string>) { o.Some? && o.value != "" }

  /** The row an update writes: each supplied field replaced, the ID cell set to the ID searched for. */
  function MergeTransactionRow(current: seq<Cell>, id: string, u: TransactionPatch): seq<Cell>
  {
    [ if u.date.Some? then Str(FormatDmy(u.date.value)) else CellAt(current, 0),
      if u.amount.Some? then Num(u.amount.value) else CellAt(current, 1),
      if Given(u.category) then Str(u.category.value) else CellAt(current, 2),
      if u.description.Some? then Str(u.description.value) else CellAt(current, 3),
      if u.kind.Some? then Str(TxLabel(u.kind.value)) else CellAt(current, 4),
      Str(id) ]
  }

  /**
   * Reading the merged row gives the transaction read from the old row
   * with exactly the supplied fields replaced: date and type when given,
   * amount and description when not undefined (so 0 and '' count), the
   * category only when non-empty; the ID is the one searched for.
   */
  lemma MergeThenRead(current: seq<Cell>, id: string, u: TransactionPatch, n: nat, gen: nat -> string, toDate: DateSource -> Date)
    requires id != ""
    ensures var before, after := RowTransaction(current, n, gen, toDate), RowTransaction(MergeTransactionRow(current, id, u), n, gen, toDate);
      after.id == id
      && after.date == (if u.date.Some? then toDate(SheetDay(u.date.value)) else before.date)
      && after.amount == (if u.amount.Some? then u.amount.value else before.amount)
      && after.category == (if Given(u.category) then u.category.value else before.category)
      && after.description == (if u.description.Some? then u.description.value else before.description)
      && after.kind == (if u.kind.Some? then u.kind.value else before.kind)
  {
    if u.date.Some? {
      DmyRoundTrip(u.date.value);
    }
    if u.amount.Some? {
      ParseAmountBasics(u.amount.value);
    }
  }

  // ---------------------------------------------------------------------------
  // Finding and writing one row, shared by the three stores

  /** A tab: its title, the column holding the ID, and the record name used in messages. */
  datatype SheetLayout = SheetLayout(title: string, idColumn: nat, noun: string)

  const TransactionSheet := SheetLayout("Transaction", 5, "Transaction")
  const SavingSheet := SheetLayout("Saving", 4, "Saving")
  const CategorySheet := SheetLayout("Category", 0, "Category")

  function NotFound(layout: SheetLayout, id: string): string
  {
    layout.noun + " with ID " + id + " not found"
  }

  predicate HoldsId(row: seq<Cell>, layout: SheetLayout, id: string) { CellAt(row, layout.idColumn) == Str(id) }

  /**
   * update: the row written is the first data row holding the ID, as its
   * 1-based number, with the cells `merge` makes of it. The configuration
   * is checked first, then that the sheet has values, then the search.
   */
  method UpdateRow(spreadsheetId: string, layout: SheetLayout, values: Option<Rows>, id: string, merge: seq<Cell> -> seq<Cell>)
    returns (r: Result<RowWrite>)
    ensures spreadsheetId == "" ==> r == Err(NotConfigured)
    ensures spreadsheetId != "" && values.None? ==> r == Err(NoData)
    ensures spreadsheetId != "" && values.Some? ==>
      var rows := values.value;
      (r.Err? <==> forall j :: 1 <= j < |rows| ==> !HoldsId(rows[j], layout, id))
      && (r.Err? ==> r == Err(NotFound(layout, id)))
      && (r.Ok? ==> 2 <= r.value.rowNumber <= |rows|
                    && HoldsId(rows[r.value.rowNumber - 1], layout, id)
                    && (forall j :: 1 <= j < r.value.rowNumber - 1 ==> !HoldsId(rows[j], layout, id))
                    && r.value.row == merge(rows[r.value.rowNumber - 1]))
  {
    if spreadsheetId == "" {
      return Err(NotConfigured);
    }
    if values.None? {
      return Err(NoData);
    }
    var rows := values.value;
    var found := FindRow(rows, layout.idColumn, id);
    FirstMatchFacts(rows, layout.idColumn, id);
    if found == -1 {
      return Err(NotFound(layout, id));
    }
    var rowIndex := found + 1;
    r := Ok(RowWrite(rowIndex, merge(rows[rowIndex - 1])));
  }

  /** The test delete makes of the tab it looked up, as written: `!sheet?.properties?.sheetId`. */
  predicate SheetIdAccepted(sheetId: Option<int>) { sheetId.Some? && sheetId.value != 0 }

  /** The intended test: a tab with that title was found, whatever its ID. */
  predicate SheetFound(sheetId: Option<int>) { sheetId.Some? }

  /**
   * The first tab of a spreadsheet has sheet ID 0, so as written delete
   * reports that tab missing although it exists; the intended test
   * accepts it.
   */
  lemma FirstTabRejected()
    ensures !SheetIdAccepted(Some(0)) && SheetFound(Some(0))
    ensures forall s :: SheetIdAccepted(s) ==> SheetFound(s)
  {
  }

  /**
   * delete: the configuration is checked first, then that a tab of that
   * title exists (`sheetId` is its ID, None when there is none), then that
   * it has values; the row removed is the first data row holding the ID,
   * as its 0-based index.
   */
  method DeleteRow(spreadsheetId: string, layout: SheetLayout, sheetId: Option<int>, values: Option<Rows>, id: string)
    returns (r: Result<nat>)
    ensures spreadsheetId == "" ==> r == Err(NotConfigured)
    ensures spreadsheetId != "" && !SheetFound(sheetId) ==> r == Err("Sheet " + layout.title + " not found")
    ensures spreadsheetId != "" && SheetFound(sheetId) && values.None? ==> r == Err(NoData)
    ensures spreadsheetId != "" && SheetFound(sheetId) && values.Some? ==>
      var rows := values.value;
      (r.Err? <==> forall j :: 1 <= j < |rows| ==> !HoldsId(rows[j], layout, id))
      && (r.Err? ==> r == Err(NotFound(layout, id)))
      && (r.Ok? ==> 1 <= r.value < |rows| && HoldsId(rows[r.value], layout, id)
                    && forall j :: 1 <= j < r.value ==> !HoldsId(rows[j], layout, id))
  {
    if spreadsheetId == "" {
      return Err(NotConfigured);
    }
    if !SheetFound(sheetId) {
      return Err("Sheet " + layout.title + " not found");
    }
    if values.None? {
      return Err(NoData);
    }
    var rows := values.value;
    var rowIndex := FindRow(rows, layout.idColumn, id);
    FirstMatchFacts(rows, layout.idColumn, id);
    if rowIndex == -1 {
      return Err(NotFound(layout, id));
    }
    r := Ok(rowIndex);
  }

  // ---------------------------------------------------------------------------
  // The Saving tab: A date, B amount, C note, D type, E id

  function SavingKindOf(c: Cell): SavingType { if c == Str(DepositLabel) then Deposit else Withdraw }

  function SavingLabel(k: SavingType): string { if k == Deposit then DepositLabel else WithdrawLabel }

  function RowSaving(row: seq<Cell>, n: nat, gen: nat -> string, toDate: DateSource -> Date): SavingTransaction
  {
    SavingTransaction(
      TextOr(CellAt(row, 4), gen(n)),
      toDate(ParseDateCell(CellAt(row, 0))),
      NatAmount(ParseAmount(CellAt(row, 1))),
      TextOr(CellAt(row, 2), ""),
      SavingKindOf(CellAt(row, 3)))
  }

  function SavingMaker(gen: nat -> string, toDate: DateSource -> Date): (seq<Cell>, nat) -> SavingTransaction
  {
    (row: seq<Cell>, n: nat) => RowSaving(row, n, gen, toDate)
  }

  function ReadSavings(values: Option<Rows>, gen: nat -> string, toDate: DateSource -> Date): seq<SavingTransaction>
  {
    SavingsNewestFirst(ReadRows(DataRows(values), HasDateOrAmount, SavingMaker(gen, toDate)))
  }

  /** SavingSheetsDB.getAll once the sheet has answered with `values`. */
  method GetAllSavings(spreadsheetId: string, values: Option<Rows>, gen: nat -> string, toDate: DateSource -> Date)
    returns (r: Result<seq<SavingTransaction>>)
    ensures spreadsheetId == "" ==> r == Err(NotConfiguredShort)
    ensures spreadsheetId != "" ==> r == Ok(ReadSavings(values, gen, toDate))
  {
    if spreadsheetId == "" {
      return Err(NotConfiguredShort);
    }
    var savings := CollectRows(DataRows(values), HasDateOrAmount, SavingMaker(gen, toDate));
    r := Ok(SavingsNewestFirst(savings));
  }

  /** Exactly the data rows with a date or an amount give a saving, and the list is newest first. */
  lemma ReadSavingsFacts(values: Option<Rows>, gen: nat -> string, toDate: DateSource -> Date)
    ensures var rows, r := DataRows(values), ReadSavings(values, gen, toDate);
      (forall s :: s in r <==> exists i :: 0 <= i < |rows| && HasDateOrAmount(rows[i]) && s == RowSaving(rows[i], i, gen, toDate))
      && (forall i, j :: 0 <= i < j < |r| ==> Stamp(r[i].date) >= Stamp(r[j].date))
      && |r| <= |rows|
  {
    var rows := DataRows(values);
    var read := ReadRows(rows, HasDateOrAmount, SavingMaker(gen, toDate));
    ReadRowsFacts(rows, HasDateOrAmount, SavingMaker(gen, toDate));
    SavingsNewestFirstFacts(read);
  }

  /** The row `add` appends; the date carries a leading apostrophe so that the sheet keeps it as text. */
  function SavingRow(s: SavingDraft, newId: string): seq<Cell>
  {
    [Str("'" + FormatDmy(s.date)), Num(s.amount), Str(s.note), Str(SavingLabel(s.kind)), Str(newId)]
  }

  method AddSaving(spreadsheetId: string, s: SavingDraft, newId: string) returns (r: Result<Appended<SavingTransaction>>)
    ensures spreadsheetId == "" ==> r == Err(NotConfigured)
    ensures spreadsheetId != "" ==> r.Ok? && r.value.row == SavingRow(s, newId)
    ensures r.Ok? ==> r.value.record == SavingTransaction(newId, s.date, s.amount, s.note, s.kind)
  {
    if spreadsheetId == "" {
      return Err(NotConfigured);
    }
    r := Ok(Appended(SavingRow(s, newId), SavingTransaction(newId, s.date, s.amount, s.note, s.kind)));
  }

  /**
   * Once the sheet has dropped the apostrophe, the appended row reads back as
   * the saving returned, its date built from the day's parts written: the
   * same day whenever the conversion behaves as the Date constructor.
   */
  lemma AddedSavingReadsBack(s: SavingDraft, newId: string, n: nat, gen: nat -> string, toDate: DateSource -> Date)
    requires newId != "" && Plain(newId) && Plain(s.note)
    ensures var row := EnteredRow(SavingRow(s, newId));
      HasDateOrAmount(row)
      && RowSaving(row, n, gen, toDate) == SavingTransaction(newId, toDate(SheetDay(s.date)), s.amount, s.note, s.kind)
  {
    StoredSavingRow(s, newId);
    FormatDmyPlain(s.date);
    DmyRoundTrip(s.date);
    ParseAmountBasics(s.amount);
  }
  /** With a conversion that behaves as the Date constructor, an appended saving reads back on the day written. */
  lemma AddedSavingSameDay(s: SavingDraft, newId: string, n: nat, gen: nat -> string, toDate: DateSource -> Date)
    requires newId != "" && Plain(newId) && Plain(s.note)
    requires BuildsDays(toDate) && IsCalendarDate(s.date)
    ensures var r := RowSaving(EnteredRow(SavingRow(s, newId)), n, gen, toDate);
      DayOf(r.date) == DayOf(s.date) && r.date.ms == 0
  {
    AddedSavingReadsBack(s, newId, n, gen, toDate);
    SheetDayBuilt(s.date, toDate);
  }


  /** The cells the sheet keeps for an appended saving: the date without its apostrophe, the rest as written. */
  lemma StoredSavingRow(s: SavingDraft, newId: string)
    requires Plain(newId) && Plain(s.note)
    ensures EnteredRow(SavingRow(s, newId)) == [Str(FormatDmy(s.date)), Num(s.amount), Str(s.note), Str(SavingLabel(s.kind)), Str(newId)]
  {
    var text := "'" + FormatDmy(s.date);
    assert text[1..] == FormatDmy(s.date);
    EnteredPlain(s.note);
    EnteredPlain(newId);
  }

  datatype SavingPatch = SavingPatch(date: Option<Date>, amount: Option<nat>, note: Option<string>, kind: Option<SavingType>)

  function MergeSavingRow(current: seq<Cell>, id: string, u: SavingPatch): seq<Cell>
  {
    [ if u.date.Some? then Str("'" + FormatDmy(u.date.value)) else CellAt(current, 0),
      if u.amount.Some? then Num(u.amount.value) else CellAt(current, 1),
      if u.note.Some? then Str(u.note.value) else CellAt(current, 2),
      if u.kind.Some? then Str(SavingLabel(u.kind.value)) else CellAt(current, 3),
      Str(id) ]
  }

  /**
   * Reading the merged row (once stored) gives the saving read from the
   * old (stored) row with exactly the supplied fields replaced; a note
   * counts as supplied even when empty.
   */
  lemma MergeSavingThenRead(current: seq<Cell>, id: string, u: SavingPatch, n: nat, gen: nat -> string, toDate: DateSource -> Date)
    requires id != "" && Plain(id) && (u.note.Some? ==> Plain(u.note.value))
    ensures var before, after := RowSaving(EnteredRow(current), n, gen, toDate), RowSaving(EnteredRow(MergeSavingRow(current, id, u)), n, gen, toDate);
      after.id == id
      && after.date == (if u.date.Some? then toDate(SheetDay(u.date.value)) else before.date)
      && after.amount == (if u.amount.Some? then u.amount.value else before.amount)
      && after.note == (if u.note.Some? then u.note.value else before.note)
      && after.kind == (if u.kind.Some? then u.kind.value else before.kind)
  {
    MergedSavingCells(current, id, u);
    if u.date.Some? {
      FormatDmyPlain(u.date.value);
      DmyRoundTrip(u.date.value);
    }
    if u.amount.Some? {
      ParseAmountBasics(u.amount.value);
    }
  }

  /** The cells the sheet keeps for a merged saving row, against those it kept for the old row. */
  lemma MergedSavingCells(current: seq<Cell>, id: string, u: SavingPatch)
    requires Plain(id) && (u.note.Some? ==> Plain(u.note.value))
    ensures var stored, prior := EnteredRow(MergeSavingRow(current, id, u)), EnteredRow(current);
      CellAt(stored, 0) == (if u.date.Some? then Str(FormatDmy(u.date.value)) else CellAt(prior, 0))
      && CellAt(stored, 1) == (if u.amount.Some? then Num(u.amount.value) else CellAt(prior, 1))
      && CellAt(stored, 2) == (if u.note.Some? then Str(u.note.value) else CellAt(prior, 2))
      && CellAt(stored, 3) == (if u.kind.Some? then Str(SavingLabel(u.kind.value)) else CellAt(prior, 3))
      && CellAt(stored, 4) == Str(id)
  {
    var merged := MergeSavingRow(current, id, u);
    var stored, prior := EnteredRow(merged), EnteredRow(current);
    assert forall i :: 0 <= i < 5 ==> CellAt(stored, i) == Entered(CellAt(merged, i));
    assert forall i :: 0 <= i < 5 ==> CellAt(prior, i) == Entered(CellAt(current, i));
    if u.date.Some? {
      var text := "'" + FormatDmy(u.date.value);
      assert text[1..] == FormatDmy(u.date.value);
    }
    EnteredPlain(id);
  }

  // ---------------------------------------------------------------------------
  // The Category tab: A id, B name, C group, D colour

  datatype SheetCategory = SheetCategory(id: string, name: string, kind: TxType, color: string)

  /** `Omit<SheetCategory, 'id'>`. */
  datatype CategoryDraft = CategoryDraft(name: string, kind: TxType, color: string)

  predicate HasName(row: seq<Cell>) { Truthy(CellAt(row, 1)) }

  function GroupLabel(k: TxType): string { if k == Income then IncomeLabel else ExpenseGroupLabel }

  function RowCategory(row: seq<Cell>, n: nat, gen: nat -> string): SheetCategory
  {
    SheetCategory(
      TextOr(CellAt(row, 0), gen(n)),
      CellText(CellAt(row, 1)),
      KindOf(CellAt(row, 2)),
      TextOr(CellAt(row, 3), DefaultColor))
  }

  function CategoryMaker(gen: nat -> string): (seq<Cell>, nat) -> SheetCategory
  {
    (row: seq<Cell>, n: nat) => RowCategory(row, n, gen)
  }

  /** The categories of the data rows that have a name, in sheet order. */
  function ReadCategories(values: Option<Rows>, gen: nat -> string): seq<SheetCategory>
  {
    ReadRows(DataRows(values), HasName, CategoryMaker(gen))
  }

  method GetAllCategories(spreadsheetId: string, values: Option<Rows>, gen: nat -> string) returns (r: Result<seq<SheetCategory>>)
    ensures spreadsheetId == "" ==> r == Err(NotConfiguredShort)
    ensures spreadsheetId != "" ==> r == Ok(ReadCategories(values, gen))
  {
    if spreadsheetId == "" {
      return Err(NotConfiguredShort);
    }
    var categories := CollectRows(DataRows(values), HasName, CategoryMaker(gen));
    r := Ok(categories);
  }

  /** Exactly the named data rows give a category, each with a non-empty name and colour. */
  lemma ReadCategoriesFacts(values: Option<Rows>, gen: nat -> string)
    ensures var rows, r := DataRows(values), ReadCategories(values, gen);
      (forall c :: c in r <==> exists i :: 0 <= i < |rows| && HasName(rows[i]) && c == RowCategory(rows[i], i, gen))
      && (forall c :: c in r ==> c.name != "" && c.color != "")
      && ((forall i :: 0 <= i < |rows| ==> HasName(rows[i])) ==> |r| == |rows|)
  {
    ReadRowsFacts(DataRows(values), HasName, CategoryMaker(gen));
  }

  function CategoryRow(c: CategoryDraft, newId: string): seq<Cell>
  {
    [Str(newId), Str(c.name), Str(GroupLabel(c.kind)), Str(if c.color != "" then c.color else DefaultColor)]
  }

  /** CategorySheetsDB.add with the ID NextCategoryId computed. */
  method AddCategory(spreadsheetId: string, c: CategoryDraft, values: Option<Rows>) returns (r: Result<Appended<SheetCategory>>)
    ensures spreadsheetId == "" ==> r == Err(NotConfigured)
    ensures spreadsheetId != "" ==> r.Ok?
    ensures r.Ok? ==> var newId := NatToString(MaxId(RowsOrNone(values)) + 1);
      r.value.row == CategoryRow(c, newId) && r.value.record == SheetCategory(newId, c.name, c.kind, c.color)
  {
    if spreadsheetId == "" {
      return Err(NotConfigured);
    }
    var newId := NextCategoryId(values);
    r := Ok(Appended(CategoryRow(c, newId), SheetCategory(newId, c.name, c.kind, c.color)));
  }

  /**
   * An appended category is read back only when it has a name; it then
   * reads as the category returned, with the default colour for an
   * empty one.
   */
  lemma AddedCategoryReadsBack(c: CategoryDraft, newId: string, n: nat, gen: nat -> string)
    requires newId != "" && Plain(newId) && Plain(c.name) && Plain(c.color)
    ensures var row := EnteredRow(CategoryRow(c, newId));
      (HasName(row) <==> c.name != "")
      && RowCategory(row, n, gen) == SheetCategory(newId, c.name, c.kind, if c.color != "" then c.color else DefaultColor)
  {
    var row := CategoryRow(c, newId);
    EnteredPlain(newId);
    EnteredPlain(c.name);
    EnteredPlain(GroupLabel(c.kind));
    EnteredPlain(if c.color != "" then c.color else DefaultColor);
    assert EnteredRow(row) == row;
  }

  datatype CategoryPatch = CategoryPatch(name: Option<string>, kind: Option<TxType>, color: Option<string>)

  function MergeCategoryRow(current: seq<Cell>, id: string, u: CategoryPatch): seq<Cell>
  {
    [ Str(id),
      if Given(u.name) then Str(u.name.value) else CellAt(current, 1),
      if u.kind.Some? then Str(GroupLabel(u.kind.value)) else CellAt(current, 2),
      if Given(u.color) then Str(u.color.value)
      else if Truthy(CellAt(current, 3)) then CellAt(current, 3) else Str(DefaultColor) ]
  }

  /**
   * Reading the merged row gives the category read from the old row with
   * name and colour replaced only when given non-empty and the group when
   * given; the colour is never empty.
   */
  lemma MergeCategoryThenRead(current: seq<Cell>, id: string, u: CategoryPatch, n: nat, gen: nat -> string)
    requires id != ""
    ensures var before, after := RowCategory(current, n, gen), RowCategory(MergeCategoryRow(current, id, u), n, gen);
      after.id == id
      && after.name == (if Given(u.name) then u.name.value else before.name)
      && after.kind == (if u.kind.Some? then u.kind.value else before.kind)
      && after.color == (if Given(u.color) then u.color.value else before.color)
      && after.color != ""
  {
  }

  // ---------------------------------------------------------------------------
  // The next category ID

  /** `parseInt(cell, 10)`: None stands for NaN. */
  function CellInt(c: Cell): Option<int>
  {
    match c
    case Blank => None
    case Num(n) => Some(n)
    case Str(s) => LeadingInt(s)
  }

  /** `response.data.values || []`. */
  function RowsOrNone(values: Option<Rows>): Rows { if values.Some? then values.value else [] }

  /** One step of the scan: a numeric ID above the maximum so far replaces it. */
  function IdStep(maxId: nat, row: seq<Cell>): nat
  {
    var num := CellInt(CellAt(row, 0));
    if num.Some? && num.value > maxId then num.value else maxId
  }

  /** The largest numeric ID in column A below the header, or 0 when there is none. */
  function MaxId(rows: Rows): nat
  {
    if |rows| <= 1 then 0 else IdStep(MaxId(rows[..|rows| - 1]), rows[|rows| - 1])
  }

  /** `for (let i = 1; i < rows.length; i++) ...; String(maxId + 1)`. */
  method NextCategoryId(values: Option<Rows>) returns (newId: string)
    ensures newId == NatToString(MaxId(RowsOrNone(values)) + 1)
  {
    var rows := RowsOrNone(values);
    var maxId: nat := 0;
    if |rows| > 0 {
      for i := 1 to |rows|
        invariant maxId == MaxId(rows[..i])
      {
        assert rows[..i + 1][..i] == rows[..i];
        var num := CellInt(CellAt(rows[i], 0));
        if num.Some? && num.value > maxId {
          maxId := num.value;
        }
      }
      assert rows[..|rows|] == rows;
    }
    newId := NatToString(maxId + 1);
  }

  /** MaxId bounds every numeric ID below the header and is one of them unless it is 0. */
  lemma {:induction false} MaxIdFacts(rows: Rows)
    ensures forall i :: 1 <= i < |rows| && CellInt(CellAt(rows[i], 0)).Some? ==> CellInt(CellAt(rows[i], 0)).value <= MaxId(rows)
    ensures MaxId(rows) == 0 || exists i :: 1 <= i < |rows| && CellInt(CellAt(rows[i], 0)) == Some(MaxId(rows) as int)
  {
    if |rows| > 1 {
      var p := rows[..|rows| - 1];
      MaxIdFacts(p);
      assert forall i :: 0 <= i < |p| ==> p[i] == rows[i];
    }
  }

  /**
   * The new ID reads back as one more than the largest numeric ID, is "1"
   * when there is none, and is held by no data row, so it is fresh.
   */
  lemma NextIdFacts(rows: Rows)
    ensures var m := MaxId(rows) + 1;
      LeadingInt(NatToString(m)) == Some(m)
      && (forall i :: 1 <= i < |rows| ==> CellInt(CellAt(rows[i], 0)).None? || CellInt(CellAt(rows[i], 0)).value < m)
      && (MaxId(rows) == 0 ==> NatToString(m) == "1")
      && FirstMatch(rows, 0, NatToString(m)).None?
  {
    NextIdReads(MaxId(rows) + 1);
    NextIdAbove(rows);
    FreshIdUnmatched(rows);
  }

  lemma NextIdReads(m: nat)
    ensures LeadingInt(NatToString(m)) == Some(m)
    ensures m == 1 ==> NatToString(m) == "1"
  {
    LeadingIntOfNatToString(m);
  }

  lemma NextIdAbove(rows: Rows)
    ensures forall i :: 1 <= i < |rows| ==> CellInt(CellAt(rows[i], 0)).None? || CellInt(CellAt(rows[i], 0)).value < MaxId(rows) + 1
  {
    MaxIdFacts(rows);
  }

  lemma FreshIdUnmatched(rows: Rows)
    ensures FirstMatch(rows, 0, NatToString(MaxId(rows) + 1)).None?
  {
    NextIdAbove(rows);
    AllBelowDiffer(rows, MaxId(rows) + 1);
    FirstMatchFacts(rows, 0, NatToString(MaxId(rows) + 1));
  }

  /** When every data row's ID is missing or below m, no data row holds the text of m. */
  lemma AllBelowDiffer(rows: Rows, m: nat)
    requires forall i :: 1 <= i < |rows| ==> CellInt(CellAt(rows[i], 0)).None? || CellInt(CellAt(rows[i], 0)).value < m
    ensures forall j :: 1 <= j < |rows| ==> CellAt(rows[j], 0) != Str(NatToString(m))
  {
    forall j | 1 <= j < |rows| ensures CellAt(rows[j], 0) != Str(NatToString(m)) {
      BelowDiffers(CellAt(rows[j], 0), m);
    }
  }

  /** A cell whose ID is missing or below m does not hold the text of m. */
  lemma BelowDiffers(c: Cell, m: nat)
    requires CellInt(c).None? || CellInt(c).value < m
    ensures c != Str(NatToString(m))
  {
    LeadingIntOfNatToString(m);
  }
}
