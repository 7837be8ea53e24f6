// The local Excel store (lib/excel-db.ts): the rows of the workbook's first
// sheet, the IDs it back-fills when reading, and the add, update and delete
// edits it makes on the row list before writing the sheet back. Reading
// and writing the file is left out; the class field is the list of rows
// the sheet holds.
module ExcelDb {
  import opened Wrappers
  import opened Calendar
  import opened Seqs
  import opened Records
  import opened SheetCells
  import GoogleSheets

  /** One row as sheet_to_json returns it; a missing column is Blank. */
  datatype ExcelRow = ExcelRow(date: Cell, amount: Cell, category: Cell, description: Cell, kind: Cell, id: Cell)

  function NotFound(id: string): string { "Transaction with ID " + id + " not found" }

  /** `row['Amount'] || 0`, for a numeric cell; a negative amount is stored as 0. */
  function ExcelAmount(c: Cell): nat
  {
    if c.Num? then NatAmount(c.n) else 0
  }

  /** The transaction a row (with its ID filled in) maps to; `toDate` stands for the Date constructor. */
  function ReadExcelRow(row: ExcelRow, toDate: DateSource -> Date): Transaction
  {
    Transaction(
      CellText(row.id),
      toDate(ParseDateCell(row.date)),
      ExcelAmount(row.amount),
      TextOr(row.category, GoogleSheets.OtherCategory),
      TextOr(row.description, ""),
      GoogleSheets.KindOf(row.kind))
  }

  /** `if (!row.ID) row.ID = generateId()`, with `gen(i)` the ID made for row i. */
  function WithId(row: ExcelRow, i: nat, gen: nat -> string): ExcelRow
  {
    if Truthy(row.id) then row else row.(id := Str(gen(i)))
  }

  /** Every row with its ID filled in. */
  function BackFill(rows: seq<ExcelRow>, gen: nat -> string): (r: seq<ExcelRow>)
    ensures |r| == |rows|
  {
    seq(|rows|, i requires 0 <= i < |rows| => WithId(rows[i], i, gen))
  }

  /** What getAll returns: each row, with its ID filled in, as a transaction, in sheet order. */
  function ExcelTransactions(rows: seq<ExcelRow>, gen: nat -> string, toDate: DateSource -> Date): (r: seq<Transaction>)
    ensures |r| == |rows|
  {
    seq(|rows|, i requires 0 <= i < |rows| => ReadExcelRow(WithId(rows[i], i, gen), toDate))
  }

  predicate MissingId(rows: seq<ExcelRow>) { exists i :: 0 <= i < |rows| && !Truthy(rows[i].id) }

  /**
   * Filling in IDs gives every row one (generated IDs are never empty),
   * keeps the ID of a row that had one and every other field of every
   * row, and leaves nothing to fill in: a second read changes nothing.
   */
  lemma BackFillFacts(rows: seq<ExcelRow>, gen: nat -> string)
    requires forall i :: gen(i) != ""
    ensures var f := BackFill(rows, gen);
      (forall i :: 0 <= i < |rows| ==> Truthy(f[i].id))
      && (forall i :: 0 <= i < |rows| && Truthy(rows[i].id) ==> f[i] == rows[i])
      && (forall i :: 0 <= i < |rows| ==> f[i].(id := rows[i].id) == rows[i])
      && !MissingId(f)
      && BackFill(f, gen) == f
  {
    var f := BackFill(rows, gen);
    forall i | 0 <= i < |rows| ensures Truthy(f[i].id) {
      assert gen(i) != "";
    }
  }

  /** `findIndex(row => row.ID === id)`. */
  function FindIndex(rows: seq<ExcelRow>, id: string): (k: Option<nat>)
    ensures k.Some? ==> k.value < |rows| && rows[k.value].id == Str(id)
                        && forall j :: 0 <= j < k.value ==> rows[j].id != Str(id)
    ensures k.None? <==> forall j :: 0 <= j < |rows| ==> rows[j].id != Str(id)
  {
    if |rows| == 0 then None
    else if rows[0].id == Str(id) then Some(0)
    else
      var k := FindIndex(rows[1..], id);
      assert forall j :: 1 <= j < |rows| ==> rows[1..][j - 1] == rows[j];
      if k.Some? then Some(k.value + 1) else None
  }

  /** The new row `add` puts in front. */
  function NewRow(t: TransactionDraft, newId: string): ExcelRow
  {
    ExcelRow(Str(FormatDmy(t.date)), Num(t.amount), Str(t.category), Str(t.description),
             Str(GoogleSheets.TxLabel(t.kind)), Str(newId))
  }

  /** The supplied fields written into a row; the others are left as they are. */
  function PatchRow(row: ExcelRow, u: GoogleSheets.TransactionPatch): ExcelRow
  {
    ExcelRow(
      if u.date.Some? then Str(FormatDmy(u.date.value)) else row.date,
      if u.amount.Some? then Num(u.amount.value) else row.amount,
      if GoogleSheets.Given(u.category) then Str(u.category.value) else row.category,
      if u.description.Some? then Str(u.description.value) else row.description,
      if u.kind.Some? then Str(GoogleSheets.TxLabel(u.kind.value)) else row.kind,
      row.id)
  }

  /** `row.ID !== id`. */
  function LacksId(id: string): ExcelRow -> bool
  {
    (row: ExcelRow) => row.id != Str(id)
  }

  class ExcelStore {
    /** The rows of the first sheet of the workbook, top to bottom. */
    var rows: seq<ExcelRow>

    constructor (rows: seq<ExcelRow>)
      ensures this.rows == rows
    {
      this.rows := rows;
    }

    /**
     * getAll: every row as a transaction, IDs filled in where missing;
     * the filled rows are written back only when some row lacked an ID
     * and the save succeeds (a failed save is ignored).
     */
    method GetAll(gen: nat -> string, toDate: DateSource -> Date, saveSucceeds: bool)
      returns (transactions: seq<Transaction>, hasChanges: bool)
      modifies this
      ensures transactions == ExcelTransactions(old(rows), gen, toDate)
      ensures hasChanges <==> MissingId(old(rows))
      ensures rows == if hasChanges && saveSucceeds then BackFill(old(rows), gen) else old(rows)
    {
      var filled: seq<ExcelRow> := [];
      transactions := [];
      hasChanges := false;
      for i := 0 to |rows|
        invariant |filled| == i && |transactions| == i
        invariant forall k :: 0 <= k < i ==> filled[k] == WithId(rows[k], k, gen)
        invariant forall k :: 0 <= k < i ==> transactions[k] == ReadExcelRow(filled[k], toDate)
        invariant hasChanges <==> exists k :: 0 <= k < i && !Truthy(rows[k].id)
      {
        var row := rows[i];
        if !Truthy(row.id) {
          row := row.(id := Str(gen(i)));
          hasChanges := true;
        }
        filled := filled + [row];
        transactions := transactions + [ReadExcelRow(row, toDate)];
      }
      assert filled == BackFill(rows, gen);
      if hasChanges && saveSucceeds {
        rows := filled;
      }
    }

    /** add: the new row goes in front, so every old row moves down one. */
    method Add(t: TransactionDraft, newId: string) returns (created: Transaction)
      modifies this
      ensures rows == [NewRow(t, newId)] + old(rows)
      ensures |rows| == |old(rows)| + 1 && forall i :: 0 <= i < |old(rows)| ==> rows[i + 1] == old(rows)[i]
      ensures created == Transaction(newId, t.date, t.amount, t.category, t.description, t.kind)
    {
      rows := [NewRow(t, newId)] + rows;
      created := Transaction(newId, t.date, t.amount, t.category, t.description, t.kind);
    }

    /** update: the first row with the ID gets the supplied fields; no such row is an error and nothing changes. */
    method Update(id: string, u: GoogleSheets.TransactionPatch) returns (error: Option<string>)
      modifies this
      ensures var k := FindIndex(old(rows), id);
        (k.None? ==> error == Some(NotFound(id)) && rows == old(rows))
        && (k.Some? ==> error == None && rows == old(rows)[k.value := PatchRow(old(rows)[k.value], u)])
    {
      var i := 0;
      while i < |rows| && rows[i].id != Str(id)
        invariant 0 <= i <= |rows|
        invariant forall j :: 0 <= j < i ==> rows[j].id != Str(id)
      {
        i := i + 1;
      }
      if i == |rows| {
        return Some(NotFound(id));
      }
      rows := rows[i := PatchRow(rows[i], u)];
      error := None;
    }

    /** delete: every row with the ID goes; it is an error, and nothing changes, when none had it. */
    method Delete(id: string) returns (error: Option<string>)
      modifies this
      ensures error.None? <==> exists i :: 0 <= i < |old(rows)| && old(rows)[i].id == Str(id)
      ensures error.None? ==> rows == Filter(old(rows), LacksId(id))
      ensures error.Some? ==> error == Some(NotFound(id)) && rows == old(rows)
    {
      var kept := Filter(rows, LacksId(id));
      FilterShrinks(rows, LacksId(id));
      if |kept| < |rows| {
        rows := kept;
        error := None;
      } else {
        error := Some(NotFound(id));
      }
    }
  }

  /**
   * An added row reads back as the transaction returned, with 'Khác' for an
   * empty category and its date built from the day's parts written: the same
   * day whenever the conversion behaves as the Date constructor.
   */
  lemma NewRowReadsBack(t: TransactionDraft, newId: string, i: nat, gen: nat -> string, toDate: DateSource -> Date)
    requires newId != ""
    ensures WithId(NewRow(t, newId), i, gen) == NewRow(t, newId)
    ensures ReadExcelRow(NewRow(t, newId), toDate) ==
              Transaction(newId, toDate(SheetDay(t.date)), t.amount,
                          if t.category == "" then GoogleSheets.OtherCategory else t.category, t.description, t.kind)
  {
    DmyRoundTrip(t.date);
  }

  /** With a conversion that behaves as the Date constructor, an added row reads back on the day written. */
  lemma NewRowSameDay(t: TransactionDraft, newId: string, toDate: DateSource -> Date)
    requires newId != "" && BuildsDays(toDate) && IsCalendarDate(t.date)
    ensures var r := ReadExcelRow(NewRow(t, newId), toDate);
      DayOf(r.date) == DayOf(t.date) && r.date.ms == 0
  {
    NewRowReadsBack(t, newId, 0, n => "", toDate);
    SheetDayBuilt(t.date, toDate);
  }

  /**
   * Reading a patched row gives the transaction read before with exactly
   * the supplied fields replaced; its ID stays.
   */
  lemma PatchThenRead(row: ExcelRow, u: GoogleSheets.TransactionPatch, toDate: DateSource -> Date)
    ensures var before, after := ReadExcelRow(row, toDate), ReadExcelRow(PatchRow(row, u), toDate);
      after.id == before.id
      && after.date == (if u.date.Some? then toDate(SheetDay(u.date.value)) else before.date)
      && after.amount == (if u.amount.Some? then u.amount.value else before.amount)
      && after.category == (if GoogleSheets.Given(u.category) then u.category.value else before.category)
      && after.description == (if u.description.Some? then u.description.value else before.description)
      && after.kind == (if u.kind.Some? then u.kind.value else before.kind)
  {
    if u.date.Some? {
      DmyRoundTrip(u.date.value);
    }
  }

  /** After a delete no row has the ID, and the other rows stay, in order. */
  lemma DeleteFacts(rows: seq<ExcelRow>, id: string)
    ensures var kept := Filter(rows, LacksId(id));
      (forall i :: 0 <= i < |kept| ==> kept[i].id != Str(id) && kept[i] in rows)
      && (forall i :: 0 <= i < |rows| && rows[i].id != Str(id) ==> rows[i] in kept)
      && IsSubsequence(kept, rows)
  {
    FilterMembers(rows, LacksId(id));
    FilterSubsequence(rows, LacksId(id));
  }
}
