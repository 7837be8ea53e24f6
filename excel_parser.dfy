// Import and export of Excel workbooks (lib/excel-parser.ts): category
// names cleaned of repeated words, the category sheet picked by name, the
// rows mapped to records, the cells written on export, and the category
// list kept in local storage with its add-if-absent rule. Reading and
// writing workbook bytes is left out; sheets are given as rows of cells.
module ExcelParser {
  import opened Wrappers
  import opened Text
  import opened Calendar
  import opened Records
  import opened SheetCells
  import GoogleSheets
  import ExcelDb

  /** A category as the import and the local list keep it. */
  datatype Category = Category(id: string, name: string, kind: TxType, color: string)

  // ---------------------------------------------------------------------------
  // normalizeCategory

  /** The words of a list with each word equal to the one before it dropped. */
  function Collapse(ws: seq<string>): (r: seq<string>)
    ensures |r| <= |ws|
    ensures |ws| > 0 ==> |r| > 0 && r[|r| - 1] == ws[|ws| - 1]
  {
    if |ws| <= 1 then ws
    else
      var p := Collapse(ws[..|ws| - 1]);
      if ws[|ws| - 1] == ws[|ws| - 2] then p else p + [ws[|ws| - 1]]
  }

  predicate NoAdjacentRepeats(ws: seq<string>)
  {
    forall j :: 0 <= j < |ws| - 1 ==> ws[j] != ws[j + 1]
  }

  /**
   * No two neighbours of the result are equal, no word disappears
   * entirely, and a list without neighbouring repeats is left as it is.
   */
  lemma CollapseFacts(ws: seq<string>)
    ensures NoAdjacentRepeats(Collapse(ws))
    ensures forall w :: w in Collapse(ws) <==> w in ws
    ensures NoAdjacentRepeats(ws) ==> Collapse(ws) == ws
  {
    CollapseNoRepeats(ws);
    CollapseMembers(ws);
    CollapseUnchanged(ws);
  }

  lemma {:induction false} CollapseNoRepeats(ws: seq<string>)
    ensures NoAdjacentRepeats(Collapse(ws))
  {
    if |ws| > 1 {
      var p := ws[..|ws| - 1];
      CollapseNoRepeats(p);
      var c := Collapse(p);
      if ws[|ws| - 1] != ws[|ws| - 2] {
        var r := c + [ws[|ws| - 1]];
        assert forall j :: 0 <= j < |c| ==> r[j] == c[j];
        assert r[|c| - 1] == c[|c| - 1] == p[|p| - 1];
      }
    }
  }

  lemma {:induction false} CollapseMembers(ws: seq<string>)
    ensures forall w :: w in Collapse(ws) <==> w in ws
  {
    if |ws| > 1 {
      var p := ws[..|ws| - 1];
      CollapseMembers(p);
      assert ws == p + [ws[|ws| - 1]];
      assert ws[|ws| - 2] in p;
    }
  }

  lemma {:induction false} CollapseUnchanged(ws: seq<string>)
    ensures NoAdjacentRepeats(ws) ==> Collapse(ws) == ws
  {
    if |ws| > 1 && NoAdjacentRepeats(ws) {
      var p := ws[..|ws| - 1];
      assert NoAdjacentRepeats(p) by {
        forall j | 0 <= j < |p| - 1 ensures p[j] != p[j + 1] { assert p[j] == ws[j] && p[j + 1] == ws[j + 1]; }
      }
      CollapseUnchanged(p);
      assert ws == p + [ws[|ws| - 1]];
    }
  }

  /** The loop of normalizeCategory: a word is kept when it is the first or differs from the one before. */
  method CollapseWords(words: seq<string>) returns (uniqueWords: seq<string>)
    ensures uniqueWords == Collapse(words)
  {
    uniqueWords := [];
    for i := 0 to |words|
      invariant uniqueWords == Collapse(words[..i])
    {
      assert words[..i + 1][..i] == words[..i];
      if i == 0 || words[i] != words[i - 1] {
        uniqueWords := uniqueWords + [words[i]];
      }
      assert i == 0 ==> words[..i + 1] == [words[0]];
    }
    assert words[..|words|] == words;
  }

  /** The doubled-phrase test: when the trimmed halves agree, the first half alone. */
  function Halved(result: string): string
  {
    var half := |result| / 2;
    var first, second := Trim(result[..half]), Trim(result[half..]);
    if first == second then first else result
  }

  /** normalizeCategory: 'Khác' for an empty name, else repeated neighbouring words and a doubled phrase removed. */
  function NormalizedCategory(category: string): (r: string)
    ensures category == "" ==> r == GoogleSheets.OtherCategory
  {
    if category == "" then GoogleSheets.OtherCategory
    else Halved(Join(Collapse(Split(category, ' ')), ' '))
  }

  method NormalizeCategory(category: string) returns (r: string)
    ensures r == NormalizedCategory(category)
  {
    if category == "" {
      return GoogleSheets.OtherCategory;
    }
    var words := Split(category, ' ');
    var uniqueWords := CollapseWords(words);
    r := Halved(Join(uniqueWords, ' '));
  }

  function Repeat(w: string, k: nat): (r: seq<string>)
    ensures |r| == k && forall i :: 0 <= i < k ==> r[i] == w
  {
    seq(k, _ => w)
  }

  lemma JoinRepeatStep(w: string, k: nat)
    requires k >= 2
    ensures Join(Repeat(w, k), ' ') == Join(Repeat(w, k - 1), ' ') + [' '] + w
  {
    assert Repeat(w, k)[..k - 1] == Repeat(w, k - 1);
  }

  lemma {:induction false} SplitRepeat(w: string, k: nat)
    requires k >= 1 && ' ' !in w
    ensures Split(Join(Repeat(w, k), ' '), ' ') == Repeat(w, k)
  {
    SplitSingle(w, ' ');
    if k == 1 {
      assert Repeat(w, 1) == [w];
    } else {
      SplitRepeat(w, k - 1);
      JoinRepeatStep(w, k);
      SplitApart(Join(Repeat(w, k - 1), ' '), ' ', w);
      assert Repeat(w, k - 1) + [w] == Repeat(w, k);
    }
  }

  lemma {:induction false} CollapseRepeat(w: string, k: nat)
    requires k >= 1
    ensures Collapse(Repeat(w, k)) == [w]
  {
    if k == 1 {
      assert Repeat(w, 1) == [w];
    } else {
      CollapseRepeat(w, k - 1);
      assert Repeat(w, k)[..k - 1] == Repeat(w, k - 1);
    }
  }

  /** A word written any number of times over normalizes as the word written once ("Ăn Ăn Ăn" as "Ăn"). */
  lemma RepeatedWord(w: string, k: nat)
    requires w != "" && ' ' !in w && k >= 1
    ensures NormalizedCategory(Join(Repeat(w, k), ' ')) == NormalizedCategory(w)
  {
    SplitRepeat(w, k);
    CollapseRepeat(w, k);
    SplitSingle(w, ' ');
    assert Join(Repeat(w, k), ' ') != "" by {
      if k == 1 { assert Repeat(w, 1) == [w]; } else { JoinRepeatStep(w, k); }
    }
  }

  /** A phrase with no white space at its ends is its own trim, and so is the phrase behind one space. */
  lemma TrimmedAlready(p: string)
    requires p != "" && !IsSpace(p[0]) && !IsSpace(p[|p| - 1])
    ensures Trim(p) == p && Trim(" " + p) == p
  {
    assert TrimStart(p) == p;
    assert (" " + p)[1..] == p;
    assert TrimStart(" " + p) == p;
    assert TrimEnd(p) == p;
  }

  lemma HalvedDoubled(p: string)
    requires p != "" && !IsSpace(p[0]) && !IsSpace(p[|p| - 1])
    ensures Halved(p + " " + p) == p
  {
    var s := p + " " + p;
    assert |s| / 2 == |p|;
    assert s[..|p|] == p;
    assert s[|p|..] == " " + p;
    TrimmedAlready(p);
  }

  /** A two-fold phrase normalizes to the phrase ("Ăn uống Ăn uống" to "Ăn uống"). */
  lemma DoubledPhrase(p: string)
    requires p != "" && !IsSpace(p[0]) && !IsSpace(p[|p| - 1])
    requires NoAdjacentRepeats(Split(p + " " + p, ' '))
    ensures NormalizedCategory(p + " " + p) == p
  {
    var s := p + " " + p;
    CollapseFacts(Split(s, ' '));
    JoinSplit(s, ' ');
    HalvedDoubled(p);
  }

  // ---------------------------------------------------------------------------
  // parseExcelData and parseCategoriesFromExcel

  /** The message of the TypeError `category.split` raises on a number. */
  const CategorySplitError := "TypeError: category.split is not a function"

  /**
   * A category cell that reaches `category.split`: the XLSX reader hands a
   * numeric cell over as a number, which passes `if (!category)` unless it
   * is 0 and has no `split`.
   */
  predicate SplitThrows(c: Cell) { c.Num? && c.n != 0 }

  /** normalizeCategory on the cell as the XLSX reader hands it over. */
  function ImportCategory(c: Cell): (r: Result<string>)
    ensures r.Err? <==> SplitThrows(c)
    ensures r.Err? ==> r.message == CategorySplitError
    ensures !Truthy(c) ==> r == Ok(GoogleSheets.OtherCategory)
    ensures c.Str? ==> r == Ok(NormalizedCategory(c.s))
  {
    match c
    case Blank => Ok(NormalizedCategory(""))
    case Num(n) => if n == 0 then Ok(NormalizedCategory("")) else Err(CategorySplitError)
    case Str(s) => Ok(NormalizedCategory(s))
  }

  /**
   * One row of the first sheet as an imported transaction: `gen(i)` is
   * the fresh ID, `parseDate` stands for utils.parseExcelDate. The row
   * fails when its category cell makes normalizeCategory throw.
   */
  function ImportRow(row: ExcelDb.ExcelRow, i: nat, gen: nat -> string, parseDate: Cell -> Date): Result<Transaction>
  {
    match ImportCategory(row.category)
    case Err(e) => Err(e)
    case Ok(category) =>
      Ok(Transaction(
        gen(i),
        parseDate(row.date),
        ExcelDb.ExcelAmount(row.amount),
        category,
        TextOr(row.description, ""),
        GoogleSheets.KindOf(row.kind)))
  }

  /**
   * parseExcelData: every row of the first sheet, in order, each with a
   * fresh ID and a normalized category; the whole import fails with the
   * TypeError as soon as one row has a non-zero number as its category.
   */
  function ParseExcelData(rows: seq<ExcelDb.ExcelRow>, gen: nat -> string, parseDate: Cell -> Date): (r: Result<seq<Transaction>>)
    ensures r.Err? <==> exists i :: 0 <= i < |rows| && SplitThrows(rows[i].category)
    ensures r.Err? ==> r.message == CategorySplitError
    ensures r.Ok? ==> |r.value| == |rows|
    ensures r.Ok? ==> forall i :: 0 <= i < |rows| ==>
      r.value[i].id == gen(i) && Ok(r.value[i].category) == ImportCategory(rows[i].category)
  {
    if exists i :: 0 <= i < |rows| && SplitThrows(rows[i].category) then Err(CategorySplitError)
    else Ok(seq(|rows|, i requires 0 <= i < |rows| => ImportRow(rows[i], i, gen, parseDate).value))
  }

  /**
   * A numeric category anywhere in the sheet, 2024 say, fails the whole
   * import, while a 0 or a missing one becomes 'Khác'.
   */
  lemma NumericCategoryFails(rows: seq<ExcelDb.ExcelRow>, k: nat, gen: nat -> string, parseDate: Cell -> Date)
    requires k < |rows| && rows[k].category == Num(2024)
    ensures ParseExcelData(rows, gen, parseDate) == Err(CategorySplitError)
    ensures ImportCategory(Num(0)) == ImportCategory(Blank) == Ok("Khác")
  {
    assert SplitThrows(rows[k].category);
  }

  /** A row of a category sheet: ID, name and group columns. */
  datatype CategoryCells = CategoryCells(id: Cell, name: Cell, group: Cell)

  /** A sheet of the workbook, read as category rows. */
  datatype NamedSheet = NamedSheet(name: string, rows: seq<CategoryCells>)

  predicate IsCategorySheetName(name: string) { Lower(name) == "category" || name == "Danh mục" }

  /** `SheetNames.find(...)`: the first sheet whose name marks it as the category sheet. */
  function CategorySheet(sheets: seq<NamedSheet>): (r: Option<nat>)
    ensures r.Some? ==> r.value < |sheets| && IsCategorySheetName(sheets[r.value].name)
                        && forall j :: 0 <= j < r.value ==> !IsCategorySheetName(sheets[j].name)
    ensures r.None? <==> forall j :: 0 <= j < |sheets| ==> !IsCategorySheetName(sheets[j].name)
  {
    if |sheets| == 0 then None
    else if IsCategorySheetName(sheets[0].name) then Some(0)
    else
      var r := CategorySheet(sheets[1..]);
      assert forall j :: 1 <= j < |sheets| ==> sheets[1..][j - 1] == sheets[j];
      if r.Some? then Some(r.value + 1) else None
  }

  /** A category row: its ID or a fresh one, its name, its group, and a colour from `colors` (random in the source). */
  function CategoryOfRow(row: CategoryCells, i: nat, gen: nat -> string, colors: nat -> string): Category
  {
    Category(TextOr(row.id, gen(i)), CellText(row.name), GoogleSheets.KindOf(row.group), colors(i))
  }

  /** parseCategoriesFromExcel: the rows of the category sheet, or none when the workbook has no such sheet. */
  function ParseCategories(sheets: seq<NamedSheet>, gen: nat -> string, colors: nat -> string): (r: seq<Category>)
    ensures CategorySheet(sheets).None? ==> r == []
    ensures CategorySheet(sheets).Some? ==> |r| == |sheets[CategorySheet(sheets).value].rows|
  {
    match CategorySheet(sheets)
    case None => []
    case Some(k) =>
      var rows := sheets[k].rows;
      seq(|rows|, i requires 0 <= i < |rows| => CategoryOfRow(rows[i], i, gen, colors))
  }

  // ---------------------------------------------------------------------------
  // exportToExcel

  /** "HH:mm dd/MM/y": every part but the year padded to two digits. */
  function ExportDate(d: Date): string
  {
    ExportClock(d) + " " + ExportDay(d)
  }

  function ExportClock(d: Date): string { Pad2(Hours(d)) + ":" + Pad2(Minutes(d)) }

  function ExportDay(d: Date): string { Pad2(d.day) + "/" + Pad2(d.month) + "/" + IntToString(d.year) }

  /** The cells of one exported transaction; the export has no ID column. */
  function ExportRow(t: Transaction): ExcelDb.ExcelRow
  {
    ExcelDb.ExcelRow(Str(ExportDate(t.date)), Num(t.amount), Str(t.category), Str(t.description),
                     Str(GoogleSheets.TxLabel(t.kind)), Blank)
  }

  function ExportCategory(c: Category): CategoryCells
  {
    CategoryCells(Str(c.id), Str(c.name), Str(GoogleSheets.GroupLabel(c.kind)))
  }

  /** What the local list holds under its storage key: nothing, a list, or text that fails to parse. */
  datatype StoredList = NoList | ParsedList(categories: seq<Category>) | MalformedList

  /** getCategories (in the browser): an absent or unreadable list is empty. */
  function StoredCategories(s: StoredList): seq<Category>
  {
    if s.ParsedList? then s.categories else []
  }

  /** The workbook written: the transaction sheet, and the category sheet when there are categories to write. */
  datatype ExportBook = ExportBook(transactions: seq<ExcelDb.ExcelRow>, categories: Option<seq<CategoryCells>>)

  /** The categories written: the ones given if there are any, else the stored list. */
  function ExportedCategories(categories: Option<seq<Category>>, stored: StoredList): seq<Category>
  {
    if categories.Some? && |categories.value| > 0 then categories.value else StoredCategories(stored)
  }

  /** exportToExcel: one row per transaction, and a category sheet exactly when there are categories to write. */
  function Export(transactions: seq<Transaction>, categories: Option<seq<Category>>, stored: StoredList): (b: ExportBook)
    ensures |b.transactions| == |transactions|
    ensures forall i :: 0 <= i < |transactions| ==> b.transactions[i] == ExportRow(transactions[i])
    ensures b.categories.Some? <==> |ExportedCategories(categories, stored)| > 0
    ensures b.categories.Some? ==> |b.categories.value| == |ExportedCategories(categories, stored)|
    ensures b.categories.Some? ==> forall i :: 0 <= i < |b.categories.value| ==>
              b.categories.value[i] == ExportCategory(ExportedCategories(categories, stored)[i])
  {
    var cats := ExportedCategories(categories, stored);
    ExportBook(
      seq(|transactions|, i requires 0 <= i < |transactions| => ExportRow(transactions[i])),
      if |cats| > 0 then Some(seq(|cats|, i requires 0 <= i < |cats| => ExportCategory(cats[i]))) else None)
  }

  /** Two zero-padded numbers around a colon hold no slash and no separator. */
  lemma ClockText(h: nat, m: nat)
    ensures var s := Pad2(h) + ":" + Pad2(m);
      |s| > 0 && NoDateSep(s) && '/' !in s
  {
    PaddedNumber(h, 2);
    PaddedNumber(m, 2);
    ClockOfDigits(Pad2(h), Pad2(m));
  }

  lemma ClockOfDigits(a: string, b: string)
    requires |a| > 0 && AllDigits(a) && AllDigits(b)
    ensures var s := a + ":" + b;
      |s| > 0 && NoDateSep(s) && '/' !in s
  {
    var colon := ":";
    DigitsClean(a);
    DigitsClean(b);
    CleanConcat(a, colon);
    CleanConcat(a + colon, b);
  }

  /** Two texts without separators or slashes joined hold none either. */
  lemma CleanConcat(a: string, b: string)
    requires NoDateSep(a) && '/' !in a && NoDateSep(b) && '/' !in b
    ensures NoDateSep(a + b) && '/' !in a + b
  {
    var s := a + b;
    forall i | 0 <= i < |s| ensures !IsDateSep(s[i]) && s[i] != '/' {
      if i < |a| { assert s[i] == a[i]; } else { assert s[i] == b[i - |a|]; }
    }
  }

  /** The dd/MM/y part of the exported date: one word, with its slashes, naming the day. */
  lemma ExportDmy(d: Date)
    ensures var dmy := ExportDay(d);
      |dmy| > 0 && NoDateSep(dmy) && '/' in dmy && DatePieces(dmy) == SheetDay(d)
  {
    var dd, mm, yy := Pad2(d.day), Pad2(d.month), IntToString(d.year);
    IntNumber(d.year);
    PaddedNumber(d.day, 2);
    PaddedNumber(d.month, 2);
    DigitsClean(dd);
    DigitsClean(mm);
    DmyNoSep(dd, mm, yy);
    DmyPieces(d.day, d.month, yy, d.year);
  }

  /** Two words without separators, a space between them. */
  lemma TwoWords(a: string, b: string)
    requires |a| > 0 && |b| > 0 && NoDateSep(a) && NoDateSep(b)
    ensures Words(a + [' '] + b) == [a, b]
  {
    WordsSingle(a);
    WordsSingle(b);
    WordsApart(a, ' ', b);
  }

  /** The date of an exported row reads back, through the store's date reader, as the day written. */
  lemma ExportDateRead(d: Date)
    ensures ParseDateCell(Str(ExportDate(d))) == SheetDay(d)
  {
    ClockText(Hours(d), Minutes(d));
    ExportDmy(d);
    ReadClockThenDay(ExportClock(d), ExportDay(d));
  }

  /** A cell holding a clock word and then a day word is read from the day word's pieces. */
  lemma ReadClockThenDay(hm: string, dmy: string)
    requires |hm| > 0 && NoDateSep(hm) && '/' !in hm && |dmy| > 0 && NoDateSep(dmy) && '/' in dmy
    ensures ParseDateCell(Str(hm + " " + dmy)) == DatePieces(dmy)
  {
    ClockThenDay(hm, dmy);
  }

  /** A clock word and then a day word: the day is the first word with a slash. */
  lemma ClockThenDay(hm: string, dmy: string)
    requires |hm| > 0 && NoDateSep(hm) && '/' !in hm && |dmy| > 0 && NoDateSep(dmy) && '/' in dmy
    ensures FirstWithSlash(Words(hm + " " + dmy)) == Some(dmy)
  {
    TwoWords(hm, dmy);
    assert [hm, dmy][1..] == [dmy];
  }

  /**
   * An exported transaction read back by the Excel store keeps its amount,
   * description and type, keeps its day whenever the conversion behaves as
   * the Date constructor, has its category ('Khác' for an empty
   * one), and is given the ID the store generates for it.
   */
  lemma ExportThenRead(t: Transaction, i: nat, gen: nat -> string, toDate: DateSource -> Date)
    requires gen(i) != ""
    ensures ExcelDb.ReadExcelRow(ExcelDb.WithId(ExportRow(t), i, gen), toDate) ==
              Transaction(gen(i), toDate(SheetDay(t.date)), t.amount,
                          if t.category == "" then GoogleSheets.OtherCategory else t.category, t.description, t.kind)
    ensures BuildsDays(toDate) && IsCalendarDate(t.date) ==>
              DayOf(ExcelDb.ReadExcelRow(ExcelDb.WithId(ExportRow(t), i, gen), toDate).date) == DayOf(t.date)
  {
    SheetDayBuilt(t.date, toDate);
    ExportDateRead(t.date);
  }

  lemma ExportSheetNames()
    ensures IsCategorySheetName("Category") && !IsCategorySheetName("Transaction")
  {
    assert Lower("Category") == "category";
  }

  /** An exported category sheet is found again on import, with the same IDs, names and groups, in order. */
  lemma ExportedCategoriesRead(cats: seq<Category>, other: seq<CategoryCells>, gen: nat -> string, colors: nat -> string)
    requires forall i :: 0 <= i < |cats| ==> cats[i].id != ""
    ensures var sheets := [NamedSheet("Transaction", other),
                           NamedSheet("Category", seq(|cats|, i requires 0 <= i < |cats| => ExportCategory(cats[i])))];
      var r := ParseCategories(sheets, gen, colors);
      |r| == |cats|
      && forall i :: 0 <= i < |cats| ==> r[i] == cats[i].(color := colors(i))
  {
    var sheets := [NamedSheet("Transaction", other),
                   NamedSheet("Category", seq(|cats|, i requires 0 <= i < |cats| => ExportCategory(cats[i])))];
    ExportSheetNames();
    assert CategorySheet(sheets[1..]) == Some(0);
    assert CategorySheet(sheets) == Some(1);
    var r := ParseCategories(sheets, gen, colors);
    forall i | 0 <= i < |cats| ensures r[i] == cats[i].(color := colors(i)) {
      var c := cats[i];
      assert r[i] == CategoryOfRow(ExportCategory(c), i, gen, colors);
      assert GoogleSheets.KindOf(Str(GoogleSheets.GroupLabel(c.kind))) == c.kind;
    }
  }

  /**
   * A workbook exported and imported again gives back each transaction's
   * amount, description and type, in order, with its category in normal
   * form and a new ID; the date is whatever the date parser makes of the
   * exported text.
   */
  lemma ExportThenImport(ts: seq<Transaction>, gen: nat -> string, parseDate: Cell -> Date)
    ensures var r := ParseExcelData(Export(ts, None, NoList).transactions, gen, parseDate);
      r.Ok? && |r.value| == |ts|
      && forall i :: 0 <= i < |ts| ==>
           r.value[i] == Transaction(gen(i), parseDate(Str(ExportDate(ts[i].date))), ts[i].amount,
                                     NormalizedCategory(ts[i].category), ts[i].description, ts[i].kind)
  {
    var rows := Export(ts, None, NoList).transactions;
    forall i | 0 <= i < |rows| ensures !SplitThrows(rows[i].category) {
      assert rows[i] == ExportRow(ts[i]);
    }
    var r := ParseExcelData(rows, gen, parseDate);
    forall i | 0 <= i < |ts|
      ensures r.value[i] == Transaction(gen(i), parseDate(Str(ExportDate(ts[i].date))), ts[i].amount,
                                        NormalizedCategory(ts[i].category), ts[i].description, ts[i].kind)
    {
      var t := ts[i];
      assert rows[i] == ExportRow(t);
      assert ImportCategory(Str(t.category)) == Ok(NormalizedCategory(t.category));
      assert TextOr(Str(t.description), "") == t.description;
      assert GoogleSheets.KindOf(Str(GoogleSheets.TxLabel(t.kind))) == t.kind;
      ParseAmountBasics(t.amount);
    }
  }

  // ---------------------------------------------------------------------------
  // The stored category list

  /** Some category has that name, ignoring case. */
  predicate HasNameIgnoringCase(categories: seq<Category>, name: string)
  {
    exists i :: 0 <= i < |categories| && Lower(categories[i].name) == Lower(name)
  }

  /** The add-if-absent rule: a non-empty name other than 'Khác' that no category has yet. */
  predicate ShouldAdd(categories: seq<Category>, name: string)
  {
    !HasNameIgnoringCase(categories, name) && name != "" && name != GoogleSheets.OtherCategory
  }

  class CategoryStorage {
    var stored: StoredList

    constructor (stored: StoredList)
      ensures this.stored == stored
    {
      this.stored := stored;
    }

    /**
     * addCategoryIfNotExists: the list read from storage with the new
     * category appended is saved exactly when the rule allows; otherwise
     * storage is left alone.
     */
    method AddCategoryIfNotExists(name: string, kind: TxType, newId: string, color: string)
      modifies this
      ensures var cats := StoredCategories(old(stored));
        (ShouldAdd(cats, name) ==> stored == ParsedList(cats + [Category(newId, name, kind, color)]))
        && (!ShouldAdd(cats, name) ==> stored == old(stored))
    {
      var categories := StoredCategories(stored);
      var exists_ := exists i :: 0 <= i < |categories| && Lower(categories[i].name) == Lower(name);
      if !exists_ && name != "" && name != GoogleSheets.OtherCategory {
        stored := ParsedList(categories + [Category(newId, name, kind, color)]);
      }
    }
  }

  /** After an add the name is present, so adding it again (in any case) changes nothing. */
  lemma AddIsIdempotent(cats: seq<Category>, name: string, kind: TxType, newId: string, color: string, again: string)
    requires Lower(again) == Lower(name)
    ensures !ShouldAdd(cats + [Category(newId, name, kind, color)], again)
    ensures ShouldAdd(cats, name) ==> |cats + [Category(newId, name, kind, color)]| == |cats| + 1
  {
    var after := cats + [Category(newId, name, kind, color)];
    assert Lower(after[|cats|].name) == Lower(again);
  }
}
