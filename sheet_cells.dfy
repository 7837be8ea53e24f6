// Spreadsheet cells as the Google Sheets API and the XLSX library hand
// them over, and the readers both stores share: the Vietnamese amount
// parser, the dd/MM/yyyy date reader, the row-by-row mapping of data rows
// and the first-match row search (lib/google-sheets.ts, lib/excel-db.ts).
module SheetCells {
  import opened Wrappers
  import opened Text
  import opened Calendar

  /** A cell: missing (undefined), a number, or a text. */
  datatype Cell = Blank | Num(n: int) | Str(s: string)

  /** JavaScript truthiness of a cell value. */
  predicate Truthy(c: Cell)
  {
    match c
    case Blank => false
    case Num(n) => n != 0
    case Str(s) => s != ""
  }

  /** row[i], undefined past the end of a short row. */
  function CellAt(row: seq<Cell>, i: nat): Cell
  {
    if i < |row| then row[i] else Blank
  }

  /** The text of a cell put into a string field (a number as its decimal form). */
  function CellText(c: Cell): string
  {
    match c
    case Blank => ""
    case Num(n) => IntToString(n)
    case Str(s) => s
  }

  /** `cell || fallback`. */
  function TextOr(c: Cell, fallback: string): (r: string)
    ensures Truthy(c) ==> r == CellText(c)
    ensures !Truthy(c) ==> r == fallback
    ensures fallback != "" ==> r != ""
  {
    if Truthy(c) then CellText(c) else fallback
  }

  /** A negative amount has no place in a whole-đồng record and is stored as 0. */
  function NatAmount(v: int): nat
  {
    if v < 0 then 0 else v
  }

  // ---------------------------------------------------------------------------
  // parseAmount

  /** The characters removed by replace(/[đ\s]/g, ''). */
  predicate Stripped(c: char) { c == 'đ' || IsSpace(c) }

  function StripCurrency(s: string): (r: string)
    ensures |r| <= |s|
    ensures forall i :: 0 <= i < |r| ==> !Stripped(r[i])
  {
    if |s| == 0 then "" else StripCurrency(s[..|s| - 1]) + (if Stripped(s[|s| - 1]) then "" else [s[|s| - 1]])
  }

  /** `replace(/[đ\s]/g, '').trim()`. */
  function CleanAmount(s: string): string
  {
    Trim(StripCurrency(s))
  }

  /** The dots of a ^\d{1,3}(\.\d{3})+$ amount are removed, or else every comma. */
  function Ungroup(cleaned: string): string
  {
    if IsDotGrouped(cleaned) then RemoveChar(cleaned, '.')
    else if ',' in cleaned then RemoveChar(cleaned, ',')
    else cleaned
  }

  /** `parseFloat(text) || 0` on the integer part: NaN reads as 0. */
  function NumberOrZero(s: string): int
  {
    match LeadingInt(s)
    case None => 0
    case Some(v) => v
  }

  /**
   * parseAmount: a number cell is taken as it is and an empty cell is 0;
   * a text is cleaned, ungrouped and read as a number.
   */
  function ParseAmount(c: Cell): int
  {
    match c
    case Num(n) => n
    case Blank => 0
    case Str(s) => if s == "" then 0 else NumberOrZero(Ungroup(CleanAmount(s)))
  }

  lemma DigitIsPlain(c: char)
    requires IsDigit(c)
    ensures !Stripped(c) && !IsSpace(c) && c != '.' && c != ',' && c != '-' && c != '+' && c != '/'
  {
  }

  lemma {:induction false} StripConcat(a: string, b: string)
    ensures StripCurrency(a + b) == StripCurrency(a) + StripCurrency(b)
  {
    if |b| > 0 {
      assert (a + b)[..|a + b| - 1] == a + b[..|b| - 1];
      StripConcat(a, b[..|b| - 1]);
    } else {
      assert a + b == a;
    }
  }

  lemma {:induction false} StripNothing(s: string)
    requires forall i :: 0 <= i < |s| ==> !Stripped(s[i])
    ensures StripCurrency(s) == s
  {
    if |s| > 0 {
      assert s == s[..|s| - 1] + [s[|s| - 1]];
      StripNothing(s[..|s| - 1]);
    }
  }

  lemma StripSuffix()
    ensures StripCurrency(" đ") == ""
  {
    assert " đ"[..1] == " ";
    assert " "[..0] == "";
  }

  lemma TrimNothing(s: string)
    requires forall i :: 0 <= i < |s| ==> !IsSpace(s[i])
    ensures Trim(s) == s
  {
    assert TrimStart(s) == s;
    assert |s| > 0 ==> !IsSpace(s[|s| - 1]);
  }

  /** Nothing is left to trim once the white space is gone. */
  lemma CleanIsStrip(s: string)
    ensures CleanAmount(s) == StripCurrency(s)
  {
    var t := StripCurrency(s);
    assert forall i :: 0 <= i < |t| ==> !IsSpace(t[i]) by {
      forall i | 0 <= i < |t| ensures !IsSpace(t[i]) { assert !Stripped(t[i]); }
    }
    TrimNothing(t);
  }

  /** A grouped amount has only digits and dots. */
  lemma {:induction false} GroupedChars(d: string)
    requires AllDigits(d)
    ensures forall i :: 0 <= i < |GroupThousands(d)| ==> IsDigit(GroupThousands(d)[i]) || GroupThousands(d)[i] == '.'
  {
    if |d| > 3 {
      DigitsSlice(d, 0, |d| - 3);
      DigitsSlice(d, |d| - 3, |d|);
      GroupedChars(d[..|d| - 3]);
      var g, t := GroupThousands(d[..|d| - 3]), d[|d| - 3..];
      var r := g + "." + t;
      assert GroupThousands(d) == r;
      forall i | 0 <= i < |r| ensures IsDigit(r[i]) || r[i] == '.' {
        if i < |g| { assert r[i] == g[i]; }
        else if i > |g| { assert r[i] == t[i - |g| - 1]; }
      }
    }
  }

  lemma {:induction false} RemoveCharMembers(s: string, c: char)
    ensures forall x :: x in RemoveChar(s, c) <==> x in s && x != c
  {
    if |s| > 0 {
      var p := s[..|s| - 1];
      RemoveCharMembers(p, c);
      assert s == p + [s[|s| - 1]];
    }
  }

  /** A text without digits at its start, after an optional sign, reads as 0. */
  lemma NoLeadingNumber(t: string)
    requires |t| > 0 && !IsSpace(t[0]) && !IsDigit(t[0]) && t[0] != '-' && t[0] != '+'
    ensures NumberOrZero(t) == 0
  {
    assert TrimStart(t) == t;
    assert DigitRun(t) == 0;
    assert LeadingInt(t) == None;
  }

  /** A non-empty run of digits reads as its value. */
  lemma DigitsNumber(t: string)
    requires |t| > 0 && AllDigits(t)
    ensures NumberOrZero(t) == DigitsValue(t)
  {
    assert IsDigit(t[0]);
    assert !IsSpace(t[0]);
    assert TrimStart(t) == t;
    DigitRunAll(t);
    assert t[..|t|] == t;
    assert LeadingInt(t) == Some(DigitsValue(t));
  }

  lemma DotGroupedHasDot(s: string)
    requires IsDotGrouped(s)
    ensures '.' in s
  {
    var k :| 1 <= k <= 3 && k < |s| && HeadThenGroups(s, k);
    var t := s[k..];
    assert t[|t| - 4] == s[k + |t| - 4];
  }

  lemma DotGroupedStartsWithDigit(s: string)
    requires IsDotGrouped(s)
    ensures |s| > 0 && IsDigit(s[0])
  {
    var k :| 1 <= k <= 3 && k < |s| && HeadThenGroups(s, k);
    assert s[..k][0] == s[0];
  }

  /** parseAmount on number cells and empty cells. */
  lemma ParseAmountBasics(n: int)
    ensures ParseAmount(Num(n)) == n
    ensures ParseAmount(Blank) == 0 && ParseAmount(Str("")) == 0
  {
  }

  /** The grouped digits of n ungroup to the digits of n. */
  lemma UngroupGrouped(d: string)
    requires AllDigits(d)
    ensures Ungroup(GroupThousands(d)) == d
  {
    var g := GroupThousands(d);
    UngroupThousands(d);
    if !IsDotGrouped(g) {
      if |d| > 3 {
        GroupedShape(d);
      }
      assert g == d;
      assert ',' !in d by {
        forall i | 0 <= i < |d| ensures d[i] != ',' { DigitIsPlain(d[i]); }
      }
    }
  }

  lemma CleanGrouped(d: string)
    requires AllDigits(d)
    ensures CleanAmount(GroupThousands(d)) == GroupThousands(d)
    ensures CleanAmount(GroupThousands(d) + " đ") == GroupThousands(d)
  {
    var g := GroupThousands(d);
    GroupedChars(d);
    assert forall i :: 0 <= i < |g| ==> !Stripped(g[i]);
    CleanPlain(g);
  }

  /** A text with nothing to strip is its own cleaned form, also with " đ" after it. */
  lemma CleanPlain(g: string)
    requires forall i :: 0 <= i < |g| ==> !Stripped(g[i])
    ensures CleanAmount(g) == g && CleanAmount(g + " đ") == g
  {
    StripNothing(g);
    StripConcat(g, " đ");
    StripSuffix();
    assert g + "" == g;
    CleanIsStrip(g);
    CleanIsStrip(g + " đ");
  }

  /**
   * The Vietnamese form reads back as the amount it writes: the digits of
   * n grouped by dots, with or without a trailing " đ" ("205.000 đ" is
   * 205000).
   */
  lemma GroupedAmountRoundTrip(n: nat)
    ensures ParseAmount(Str(GroupThousands(NatToString(n)))) == n
    ensures ParseAmount(Str(GroupThousands(NatToString(n)) + " đ")) == n
  {
    var d := NatToString(n);
    CleanGrouped(d);
    UngroupGrouped(d);
    NatToStringValue(n);
    DigitsNumber(d);
    assert |GroupThousands(d)| > 0;
  }

  /** Removing the commas of a text of digits and commas leaves its digits. */
  lemma UncommaDigits(s: string)
    requires forall i :: 0 <= i < |s| ==> IsDigit(s[i]) || s[i] == ','
    requires exists i :: 0 <= i < |s| && IsDigit(s[i])
    ensures var r := RemoveChar(s, ','); |r| > 0 && AllDigits(r)
  {
    var r := RemoveChar(s, ',');
    RemoveCharMembers(s, ',');
    var i :| 0 <= i < |s| && IsDigit(s[i]);
    assert s[i] in r;
    forall j | 0 <= j < |r| ensures IsDigit(r[j]) {
      assert r[j] in r;
      var k :| 0 <= k < |s| && s[k] == r[j];
    }
  }

  lemma UngroupCommas(s: string)
    requires forall i :: 0 <= i < |s| ==> IsDigit(s[i]) || s[i] == ','
    ensures Ungroup(s) == RemoveChar(s, ',')
  {
    if IsDotGrouped(s) {
      DotGroupedHasDot(s);
      assert false;
    }
    if ',' !in s {
      RemoveCharAbsent(s, ',');
    }
  }

  /** A text of digits and commas with at least one digit reads as the value of its digits ("1,500,000" is 1500000). */
  lemma CommaAmount(s: string)
    requires forall i :: 0 <= i < |s| ==> IsDigit(s[i]) || s[i] == ','
    requires exists i :: 0 <= i < |s| && IsDigit(s[i])
    ensures AllDigits(RemoveChar(s, ','))
    ensures ParseAmount(Str(s)) == DigitsValue(RemoveChar(s, ','))
  {
    assert forall i :: 0 <= i < |s| ==> !Stripped(s[i]);
    StripNothing(s);
    CleanIsStrip(s);
    UngroupCommas(s);
    UncommaDigits(s);
    DigitsNumber(RemoveChar(s, ','));
  }

  /** Cleaning keeps a first character that is not removed. */
  lemma CleanHead(s: string)
    requires |s| > 0 && !Stripped(s[0])
    ensures |CleanAmount(s)| > 0 && CleanAmount(s)[0] == s[0]
  {
    var rest := s[1..];
    assert s == [s[0]] + rest;
    StripConcat([s[0]], rest);
    assert StripCurrency([s[0]]) == [s[0]] by { assert [s[0]][..0] == ""; }
    CleanIsStrip(s);
  }

  /** Removing commas keeps a first character that is not a comma. */
  lemma UncommaHead(t: string)
    requires |t| > 0 && t[0] != ','
    ensures |RemoveChar(t, ',')| > 0 && RemoveChar(t, ',')[0] == t[0]
  {
    var tail := t[1..];
    assert t == [t[0]] + tail;
    RemoveCharConcat([t[0]], tail, ',');
    assert RemoveChar([t[0]], ',') == [t[0]] by { assert [t[0]][..0] == ""; }
  }

  /** A text that starts with anything but a digit, a sign, a comma, 'đ' or white space reads as 0 ("N/A", "abc"). */
  lemma NonNumericAmount(s: string)
    requires |s| > 0 && !IsDigit(s[0]) && s[0] != '-' && s[0] != '+' && s[0] != ',' && !Stripped(s[0])
    ensures ParseAmount(Str(s)) == 0
  {
    CleanHead(s);
    var t := CleanAmount(s);
    if IsDotGrouped(t) {
      DotGroupedStartsWithDigit(t);
      assert false;
    }
    if ',' in t {
      UncommaHead(t);
      NoLeadingNumber(RemoveChar(t, ','));
    } else {
      NoLeadingNumber(t);
    }
  }

  // ---------------------------------------------------------------------------
  // parseSheetDate / parseExcelDate

  /**
   * What the reader hands to the Date constructor: a serial day number (an
   * Excel date, days - 25569 after 1 January 1970), the day/month/year
   * numbers of a dd/MM/yyyy token (None stands for NaN), or nothing usable
   * (the current time).
   */
  datatype DateSource = Serial(days: int) | Parts(day: Option<int>, month: Option<int>, year: Option<int>) | Now

  /** The separators of split(/[, ]+/). */
  predicate IsDateSep(c: char) { c == ',' || c == ' ' }

  /**
   * The non-empty pieces of split(/[, ]+/); the split can also give an
   * empty first or last piece, which never contains '/'.
   */
  function Words(s: string): (r: seq<string>)
    ensures |s| > 0 && !IsDateSep(s[|s| - 1]) ==> |r| > 0
  {
    if |s| == 0 then []
    else
      var w := Words(s[..|s| - 1]);
      var c := s[|s| - 1];
      if IsDateSep(c) then w
      else if |s| >= 2 && !IsDateSep(s[|s| - 2]) then w[..|w| - 1] + [w[|w| - 1] + [c]]
      else w + [[c]]
  }

  /** parts.find(p => p.includes('/')). */
  function FirstWithSlash(ws: seq<string>): (r: Option<string>)
    ensures r.Some? ==> r.value in ws && '/' in r.value
    ensures r.None? ==> forall w :: w in ws ==> '/' !in w
  {
    if |ws| == 0 then None else if '/' in ws[0] then Some(ws[0]) else FirstWithSlash(ws[1..])
  }

  /** Number(pieces[i]); a missing piece is undefined, which is NaN. */
  function NumberAt(pieces: seq<string>, i: nat): Option<int>
  {
    if i < |pieces| then JsNumber(pieces[i]) else None
  }

  /** `const [day, month, year] = datePart.split('/').map(Number)`. */
  function DatePieces(token: string): DateSource
  {
    var p := Split(token, '/');
    Parts(NumberAt(p, 0), NumberAt(p, 1), NumberAt(p, 2))
  }

  /** parseSheetDate (and excel-db's parseExcelDate, which is the same). */
  function ParseDateCell(c: Cell): DateSource
  {
    match c
    case Num(n) => Serial(n)
    case Blank => Now
    case Str(s) =>
      match FirstWithSlash(Words(s))
      case None => Now
      case Some(t) => DatePieces(t)
  }

  /** The calendar day of a date as the reader returns it. */
  function SheetDay(d: Date): DateSource
  {
    Parts(Some(d.day), Some(d.month), Some(d.year))
  }

  /**
   * `new Date(year, month - 1, day)` on parts that name a day of the
   * calendar: that day at local midnight. Other sources (NaN parts, a
   * month or day out of range, which the constructor rolls over, a serial
   * number, the current time) get no value here.
   */
  function PartsDate(src: DateSource): (r: Option<Date>)
    ensures r.Some? ==> IsCalendarDate(r.value) && r.value.ms == 0
  {
    match src
    case Parts(Some(d), Some(m), Some(y)) =>
      if 1 <= m <= 12 && 1 <= d <= DaysInMonth(y, m) then Some(Date(y, m, d, 0)) else None
    case _ => None
  }

  /** A date conversion that behaves as the Date constructor wherever the parts name a day. */
  ghost predicate BuildsDays(toDate: DateSource -> Date)
  {
    forall src :: PartsDate(src).Some? ==> toDate(src) == PartsDate(src).value
  }

  /**
   * The parts written for a date name a day exactly when the date is a
   * calendar date, and the constructor then gives midnight of that day.
   */
  lemma SheetDayBuilt(d: Date, toDate: DateSource -> Date)
    ensures PartsDate(SheetDay(d)).Some? <==> IsCalendarDate(d)
    ensures BuildsDays(toDate) && IsCalendarDate(d) ==>
              toDate(SheetDay(d)) == Date(d.year, d.month, d.day, 0) && DayOf(toDate(SheetDay(d))) == DayOf(d)
  {
  }

  predicate NoDateSep(s: string) { forall i :: 0 <= i < |s| ==> !IsDateSep(s[i]) }

  lemma {:induction false} WordsSingle(s: string)
    requires |s| > 0 && NoDateSep(s)
    ensures Words(s) == [s]
  {
    if |s| > 1 {
      var p := s[..|s| - 1];
      assert NoDateSep(p) by { assert forall i :: 0 <= i < |p| ==> p[i] == s[i]; }
      WordsSingle(p);
      assert !IsDateSep(s[|s| - 1]) && !IsDateSep(s[|s| - 2]);
      assert p + [s[|s| - 1]] == s;
    } else {
      assert s[..0] == [];
      assert [s[0]] == s;
    }
  }

  /** A separator between two texts splits their pieces apart. */
  lemma {:induction false} WordsApart(a: string, sep: char, b: string)
    requires IsDateSep(sep)
    ensures Words(a + [sep] + b) == Words(a) + Words(b)
  {
    if |b| == 0 {
      WordsAfterSep(a, sep);
      assert a + [sep] + b == a + [sep];
      assert Words(a) + Words(b) == Words(a);
    } else {
      var b', c := b[..|b| - 1], b[|b| - 1];
      WordsApart(a, sep, b');
      TailAfterSep(a, sep, b');
      WordsApartStep(a + [sep] + b', b', c, Words(a));
      assert b' + [c] == b;
      assert a + [sep] + b' + [c] == a + [sep] + b;
    }
  }

  lemma TailAfterSep(a: string, sep: char, b: string)
    ensures var s := a + [sep] + b;
      |s| > |b| && b == s[|s| - |b|..] && s[|s| - |b| - 1] == sep
  {
  }

  /**
   * One more character after a text whose words are wa followed by those
   * of its tail b (which starts after a separator) keeps that split.
   */
  lemma WordsApartStep(s: string, b: string, c: char, wa: seq<string>)
    requires |s| > |b| && b == s[|s| - |b|..] && IsDateSep(s[|s| - |b| - 1])
    requires Words(s) == wa + Words(b)
    ensures Words(s + [c]) == wa + Words(b + [c])
  {
    if |b| >= 1 {
      assert s[|s| - 1] == b[|b| - 1];
    }
    if IsDateSep(c) {
      WordsAfterSep(s, c);
      WordsAfterSep(b, c);
    } else if |b| >= 1 && !IsDateSep(b[|b| - 1]) {
      WordsGrow(s, c);
      WordsGrow(b, c);
      GrowLast(wa, Words(b), c);
    } else {
      WordsStart(s, c);
      WordsStart(b, c);
      AppendWord(wa, Words(b), [c]);
    }
  }

  lemma GrowLast(wa: seq<string>, wb: seq<string>, c: char)
    requires |wb| > 0
    ensures var w := wa + wb;
      w[..|w| - 1] + [w[|w| - 1] + [c]] == wa + (wb[..|wb| - 1] + [wb[|wb| - 1] + [c]])
  {
    var w := wa + wb;
    assert w[..|w| - 1] == wa + wb[..|wb| - 1];
  }

  lemma AppendWord(wa: seq<string>, wb: seq<string>, x: string)
    ensures (wa + wb) + [x] == wa + (wb + [x])
  {
  }

  lemma WordsAfterSep(s: string, c: char)
    requires IsDateSep(c)
    ensures Words(s + [c]) == Words(s)
  {
    var s1 := s + [c];
    assert s1[..|s1| - 1] == s;
  }

  lemma WordsGrow(s: string, c: char)
    requires !IsDateSep(c) && |s| >= 1 && !IsDateSep(s[|s| - 1])
    ensures |Words(s)| > 0 && Words(s + [c]) == Words(s)[..|Words(s)| - 1] + [Words(s)[|Words(s)| - 1] + [c]]
  {
    var s1 := s + [c];
    assert s1[..|s1| - 1] == s;
    assert s1[|s1| - 2] == s[|s| - 1];
  }

  lemma WordsStart(s: string, c: char)
    requires !IsDateSep(c) && (|s| == 0 || IsDateSep(s[|s| - 1]))
    ensures Words(s + [c]) == Words(s) + [[c]]
  {
    var s1 := s + [c];
    assert s1[..|s1| - 1] == s;
    if |s| >= 1 {
      assert s1[|s1| - 2] == s[|s| - 1];
    }
  }

  lemma {:induction false} SplitSingle(s: string, sep: char)
    requires sep !in s
    ensures Split(s, sep) == [s]
  {
    if |s| > 0 {
      var p := s[..|s| - 1];
      assert sep !in p by { assert forall i :: 0 <= i < |p| ==> p[i] == s[i]; }
      SplitSingle(p, sep);
      assert p + [s[|s| - 1]] == s;
    }
  }

  /** A separator between two texts splits their pieces apart. */
  lemma {:induction false} SplitApart(a: string, sep: char, b: string)
    ensures Split(a + [sep] + b, sep) == Split(a, sep) + Split(b, sep)
  {
    if |b| == 0 {
      SplitAtSep(a, sep);
      assert a + [sep] + b == a + [sep];
    } else {
      var b', c := b[..|b| - 1], b[|b| - 1];
      SplitApart(a, sep, b');
      SplitApartStep(a + [sep] + b', b', c, sep, Split(a, sep));
      assert b' + [c] == b;
      assert a + [sep] + b' + [c] == a + [sep] + b;
    }
  }

  /** One more character after a text whose pieces are wa followed by those of its tail b keeps that split. */
  lemma SplitApartStep(s: string, b: string, c: char, sep: char, wa: seq<string>)
    requires Split(s, sep) == wa + Split(b, sep)
    ensures Split(s + [c], sep) == wa + Split(b + [c], sep)
  {
    var wb := Split(b, sep);
    if c == sep {
      SplitAtSep(s, sep);
      SplitAtSep(b, sep);
      AppendWord(wa, wb, "");
      assert Split(s + [c], sep) == (wa + wb) + [""];
    } else {
      SplitGrow(s, c, sep);
      SplitGrow(b, c, sep);
      GrowLast(wa, wb, c);
      var w := wa + wb;
      assert Split(s + [c], sep) == w[..|w| - 1] + [w[|w| - 1] + [c]];
    }
  }

  lemma SplitAtSep(s: string, sep: char)
    ensures Split(s + [sep], sep) == Split(s, sep) + [""]
  {
    SplitSnoc(s, sep, sep);
  }

  lemma SplitGrow(s: string, c: char, sep: char)
    requires c != sep
    ensures var r := Split(s, sep);
      Split(s + [c], sep) == r[..|r| - 1] + [r[|r| - 1] + [c]]
  {
    SplitSnoc(s, c, sep);
  }

  /** Split of a text one character longer. */
  lemma SplitSnoc(s: string, c: char, sep: char)
    ensures var r := Split(s, sep);
      Split(s + [c], sep) == if c == sep then r + [""] else r[..|r| - 1] + [r[|r| - 1] + [c]]
  {
    SplitLast(s + [c], sep);
    assert (s + [c])[..|s|] == s;
  }

  /** A zero-padded number is a non-empty run of digits that Number reads back. */
  lemma PaddedNumber(n: nat, k: nat)
    ensures AllDigits(PadStart(NatToString(n), k, '0')) && |PadStart(NatToString(n), k, '0')| > 0
    ensures JsNumber(PadStart(NatToString(n), k, '0')) == Some(n)
  {
    var p := PadStart(NatToString(n), k, '0');
    ZeroPadValue(NatToString(n), k);
    NatToStringValue(n);
    DigitIsPlain(p[0]);
  }

  lemma DigitsClean(s: string)
    requires AllDigits(s)
    ensures '/' !in s && NoDateSep(s)
  {
    forall i | 0 <= i < |s| ensures s[i] != '/' && !IsDateSep(s[i]) { DigitIsPlain(s[i]); }
  }

  /** A sign followed by digits holds no slash and no separator. */
  lemma SignedClean(s: string)
    requires |s| > 0 && s[0] == '-' && AllDigits(s[1..])
    ensures '/' !in s && NoDateSep(s)
  {
    forall i | 0 <= i < |s| ensures s[i] != '/' && !IsDateSep(s[i]) {
      if i > 0 { assert s[i] == s[1..][i - 1]; DigitIsPlain(s[i]); }
    }
  }

  /** Number on digits, with or without a minus sign. */
  lemma NumberOfDigits(p: string)
    requires |p| > 0 && AllDigits(p)
    ensures JsNumber(p) == Some(DigitsValue(p))
    ensures JsNumber("-" + p) == Some(-(DigitsValue(p) as int))
  {
    DigitIsPlain(p[0]);
    NegativeNumber(p);
  }

  lemma NegativeNumber(p: string)
    requires |p| > 0 && AllDigits(p)
    ensures JsNumber("-" + p) == Some(-(DigitsValue(p) as int))
  {
    var m := "-" + p;
    assert m[0] == '-' && |m| > 1;
    assert m[1..] == p;
  }

  lemma YearNumber(y: int)
    ensures JsNumber(YearText(y)) == Some(y)
    ensures '/' !in YearText(y) && NoDateSep(YearText(y))
  {
    var n: nat := if y >= 0 then y else -y;
    var p := PadStart(NatToString(n), 4, '0');
    PaddedDigits(n);
    if y >= 0 {
      assert YearText(y) == p;
      NumberOfDigits(p);
      DigitsClean(p);
    } else {
      assert YearText(y) == "-" + p;
      SignedDigits(p);
    }
  }

  /** The zero-padded year digits are a non-empty run of digits worth the year. */
  lemma PaddedDigits(n: nat)
    ensures var p := PadStart(NatToString(n), 4, '0');
      |p| > 0 && AllDigits(p) && DigitsValue(p) == n
  {
    ZeroPadValue(NatToString(n), 4);
    NatToStringValue(n);
  }

  /** A minus sign before digits: Number reads the negated value, and no slash or separator appears. */
  lemma SignedDigits(p: string)
    requires |p| > 0 && AllDigits(p)
    ensures JsNumber("-" + p) == Some(-(DigitsValue(p) as int))
    ensures '/' !in "-" + p && NoDateSep("-" + p)
  {
    NegativeNumber(p);
    var m := "-" + p;
    assert m[1..] == p;
    SignedClean(m);
  }

  lemma IntNumber(y: int)
    ensures JsNumber(IntToString(y)) == Some(y)
    ensures '/' !in IntToString(y) && NoDateSep(IntToString(y))
  {
    var p := NatToString(if y >= 0 then y else -y);
    NatToStringValue(if y >= 0 then y else -y);
    NumberOfDigits(p);
    if y >= 0 {
      DigitsClean(p);
    } else {
      assert IntToString(y)[1..] == p;
      SignedClean(IntToString(y));
    }
  }

  /** The three slash-separated pieces of a dd/MM/y token. */
  lemma DmySplit(dd: string, mm: string, yy: string)
    requires '/' !in dd && '/' !in mm && '/' !in yy
    ensures Split(dd + "/" + mm + "/" + yy, '/') == [dd, mm, yy]
  {
    SplitSingle(dd, '/');
    SplitSingle(mm, '/');
    SplitSingle(yy, '/');
    SplitApart(dd, '/', mm);
    assert dd + "/" + mm == dd + ['/'] + mm;
    SplitApart(dd + "/" + mm, '/', yy);
    assert dd + "/" + mm + "/" + yy == (dd + "/" + mm) + ['/'] + yy;
  }

  /** A dd/MM/y token whose year is written by `yearText` reads as the three numbers. */
  lemma DmyPieces(day: nat, month: nat, yearText: string, year: int)
    requires JsNumber(yearText) == Some(year) && '/' !in yearText
    ensures DatePieces(Pad2(day) + "/" + Pad2(month) + "/" + yearText) == Parts(Some(day), Some(month), Some(year))
  {
    var dd, mm := Pad2(day), Pad2(month);
    PaddedNumber(day, 2);
    PaddedNumber(month, 2);
    DigitsClean(dd);
    DigitsClean(mm);
    DmySplit(dd, mm, yearText);
  }

  /** The digits and dashes of a dd/MM/yyyy text hold no split separator. */
  lemma DmyNoSep(dd: string, mm: string, yy: string)
    requires NoDateSep(dd) && NoDateSep(mm) && NoDateSep(yy)
    ensures NoDateSep(dd + "/" + mm + "/" + yy)
    ensures '/' in dd + "/" + mm + "/" + yy
  {
    var s := dd + "/" + mm + "/" + yy;
    forall i | 0 <= i < |s| ensures !IsDateSep(s[i]) {
      if i < |dd| { assert s[i] == dd[i]; }
      else if i == |dd| { }
      else if i < |dd| + 1 + |mm| { assert s[i] == mm[i - |dd| - 1]; }
      else if i > |dd| + 1 + |mm| { assert s[i] == yy[i - |dd| - 2 - |mm|]; }
    }
    assert s[|dd|] == '/';
  }

  /** formatDateForSheet's text, with its pieces' properties. */
  lemma DmyText(d: Date)
    ensures NoDateSep(FormatDmy(d)) && '/' in FormatDmy(d) && |FormatDmy(d)| > 0
    ensures DatePieces(FormatDmy(d)) == SheetDay(d)
  {
    YearNumber(d.year);
    PaddedNumber(d.day, 2);
    PaddedNumber(d.month, 2);
    DigitsClean(Pad2(d.day));
    DigitsClean(Pad2(d.month));
    DmyNoSep(Pad2(d.day), Pad2(d.month), YearText(d.year));
    DmyPieces(d.day, d.month, YearText(d.year), d.year);
  }

  /** formatDateForSheet's dd/MM/yyyy text reads back as the date's day, month and year. */
  lemma DmyRoundTrip(d: Date)
    ensures ParseDateCell(Str(FormatDmy(d))) == SheetDay(d)
  {
    DmyText(d);
    WordsSingle(FormatDmy(d));
  }

  /** "dd/MM/yyyy, HH:mm" (the bank export layout) reads as its day, month and year. */
  lemma DmyCommaTimeRead(d: Date, time: string)
    requires |time| > 0 && NoDateSep(time) && '/' !in time
    ensures ParseDateCell(Str(FormatDmy(d) + ", " + time)) == SheetDay(d)
  {
    var s := FormatDmy(d);
    DmyText(d);
    CommaTimeWords(s, time);
  }

  /** A comma and a space between two words that hold no separator split into exactly those two words. */
  lemma CommaTimeWords(s: string, time: string)
    requires |s| > 0 && NoDateSep(s) && |time| > 0 && NoDateSep(time)
    ensures Words(s + ", " + time) == [s, time]
  {
    WordsSingle(s);
    WordsSingle(time);
    WordsApart("", ' ', time);
    assert "" + [' '] + time == " " + time;
    WordsApart(s, ',', " " + time);
    assert s + ", " + time == s + [','] + (" " + time);
    assert Words("") == [];
  }

  // ---------------------------------------------------------------------------
  // Data rows

  /**
   * The records of the data rows that `keep` accepts, in row order; `make`
   * receives the row and its position among the data rows (which stands
   * for the generateId call made for it).
   */
  function ReadRows<T>(rows: seq<seq<Cell>>, keep: seq<Cell> -> bool, make: (seq<Cell>, nat) -> T): (r: seq<T>)
    ensures |r| <= |rows|
  {
    if |rows| == 0 then []
    else
      var last := rows[|rows| - 1];
      ReadRows(rows[..|rows| - 1], keep, make) + (if keep(last) then [make(last, |rows| - 1)] else [])
  }

  /** `for (const row of dataRows) { if (skip) continue; out.push(...) }`. */
  method CollectRows<T>(rows: seq<seq<Cell>>, keep: seq<Cell> -> bool, make: (seq<Cell>, nat) -> T) returns (out: seq<T>)
    ensures out == ReadRows(rows, keep, make)
  {
    out := [];
    for i := 0 to |rows|
      invariant out == ReadRows(rows[..i], keep, make)
    {
      assert rows[..i + 1][..i] == rows[..i];
      if keep(rows[i]) {
        out := out + [make(rows[i], i)];
      }
    }
    assert rows[..|rows|] == rows;
  }

  /** Exactly the accepted rows give a record, each its own one, and with every row accepted none is lost. */
  lemma {:induction false} ReadRowsFacts<T>(rows: seq<seq<Cell>>, keep: seq<Cell> -> bool, make: (seq<Cell>, nat) -> T)
    ensures forall i :: 0 <= i < |rows| && keep(rows[i]) ==> make(rows[i], i) in ReadRows(rows, keep, make)
    ensures forall x :: x in ReadRows(rows, keep, make) ==> exists i :: 0 <= i < |rows| && keep(rows[i]) && x == make(rows[i], i)
    ensures (forall i :: 0 <= i < |rows| ==> keep(rows[i])) ==> |ReadRows(rows, keep, make)| == |rows|
  {
    if |rows| > 0 {
      var p := rows[..|rows| - 1];
      ReadRowsFacts(p, keep, make);
      assert forall i :: 0 <= i < |p| ==> p[i] == rows[i];
    }
  }

  // ---------------------------------------------------------------------------
  // Row search

  /** The first row at or after i whose column `col` is the text id (=== compares with no conversion). */
  function FirstMatchFrom(rows: seq<seq<Cell>>, col: nat, id: string, i: nat): (r: Option<nat>)
    ensures r.Some? ==> i <= r.value < |rows|
    decreases |rows| - i
  {
    if i >= |rows| then None
    else if CellAt(rows[i], col) == Str(id) then Some(i)
    else FirstMatchFrom(rows, col, id, i + 1)
  }

  /** The first data row (the header, row 0, is never matched). */
  function FirstMatch(rows: seq<seq<Cell>>, col: nat, id: string): (r: Option<nat>)
    ensures r.Some? ==> 1 <= r.value < |rows|
  {
    FirstMatchFrom(rows, col, id, 1)
  }

  lemma {:induction false} FirstMatchFromFacts(rows: seq<seq<Cell>>, col: nat, id: string, i: nat)
    ensures var r := FirstMatchFrom(rows, col, id, i);
      (r.Some? ==> i <= r.value < |rows| && CellAt(rows[r.value], col) == Str(id)
                   && forall j :: i <= j < r.value ==> CellAt(rows[j], col) != Str(id))
      && (r.None? <==> forall j :: i <= j < |rows| ==> CellAt(rows[j], col) != Str(id))
    decreases |rows| - i
  {
    if i < |rows| && CellAt(rows[i], col) != Str(id) {
      FirstMatchFromFacts(rows, col, id, i + 1);
    }
  }

  /** The row found is the first data row holding the ID; none is found exactly when no data row holds it. */
  lemma FirstMatchFacts(rows: seq<seq<Cell>>, col: nat, id: string)
    ensures var r := FirstMatch(rows, col, id);
      (r.Some? ==> 1 <= r.value < |rows| && CellAt(rows[r.value], col) == Str(id)
                   && forall j :: 1 <= j < r.value ==> CellAt(rows[j], col) != Str(id))
      && (r.None? <==> forall j :: 1 <= j < |rows| ==> CellAt(rows[j], col) != Str(id))
  {
    FirstMatchFromFacts(rows, col, id, 1);
  }

  /** `for (let i = 1; i < rows.length; i++) if (rows[i][col] === id) { rowIndex = i; break; }`; -1 when no row matches. */
  method FindRow(rows: seq<seq<Cell>>, col: nat, id: string) returns (rowIndex: int)
    ensures rowIndex == -1 <==> FirstMatch(rows, col, id).None?
    ensures rowIndex != -1 ==> FirstMatch(rows, col, id) == Some(rowIndex)
  {
    rowIndex := -1;
    var i := 1;
    while i < |rows|
      invariant 1 <= i
      invariant FirstMatch(rows, col, id) == FirstMatchFrom(rows, col, id, i)
      decreases |rows| - i
    {
      if CellAt(rows[i], col) == Str(id) {
        rowIndex := i;
        return;
      }
      i := i + 1;
    }
  }
}
