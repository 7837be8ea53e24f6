// The persisted month filter (hooks/useDateFilter.ts): a range that starts
// as the current month, is replaced once by a range saved in session
// storage, or else once by the month of the latest transaction, and is
// written back to storage on every change.
module UseDateFilter {
  import opened Wrappers
  import opened Calendar
  import DashboardPage

  datatype DateRange = DateRange(start: Date, end: Date)

  /** The whole month of a date: startOfMonth to endOfMonth. */
  function MonthRange(d: Date): (r: DateRange)
    ensures r.start.year == r.end.year == d.year && r.start.month == r.end.month == d.month
    ensures r.start.day == 1 && r.start.ms == 0
    ensures r.end.day == DaysInMonth(d.year, d.month) && r.end.ms == MsPerDay - 1
  {
    DateRange(StartOfMonth(d), EndOfMonth(d))
  }

  /** getDefaultDateRange: the month of "now" (supplied by the caller). */
  function DefaultDateRange(now: Date): DateRange
  {
    MonthRange(now)
  }

  // ---------------------------------------------------------------------------
  // The stored text: JSON.stringify({ start: iso, end: iso })

  const Head: string := "{\"start\":\""
  const Middle: string := "\",\"end\":\""
  const Tail: string := "\"}"

  /** Both ends can be written by toISOString in its four-digit-year form. */
  predicate Storable(r: DateRange)
  {
    0 <= r.start.year <= 9999 && 0 <= r.end.year <= 9999
  }

  /** saveDateRange's text. */
  function SavedText(r: DateRange): string
    requires Storable(r)
  {
    Head + FormatIso(r.start) + Middle + FormatIso(r.end) + Tail
  }

  /**
   * loadSavedDateRange: nothing stored, or an empty text, gives null; so
   * does a text that is not the stored layout or either of whose dates is
   * invalid.
   */
  function LoadSavedDateRange(stored: Option<string>): Option<DateRange>
  {
    if stored.None? || stored.value == "" then None
    else
      var s := stored.value;
      if |s| != 69 || s[..10] != Head || s[34..43] != Middle || s[67..] != Tail then None
      else
        var start, end := ParseIso(s[10..34]), ParseIso(s[43..67]);
        if start.Some? && end.Some? then Some(DateRange(start.value, end.value)) else None
  }

  /** The stored layout around two 24-character dates is read field by field. */
  lemma LoadLayout(a: string, b: string)
    requires |a| == 24 && |b| == 24
    ensures LoadSavedDateRange(Some(Head + a + Middle + b + Tail)) ==
              if ParseIso(a).Some? && ParseIso(b).Some? then Some(DateRange(ParseIso(a).value, ParseIso(b).value)) else None
  {
    var s := Head + a + Middle + b + Tail;
    assert |s| == 69;
    assert s[..10] == Head;
    assert s[10..34] == a;
    assert s[34..43] == Middle;
    assert s[43..67] == b;
    assert s[67..] == Tail;
  }

  lemma IsoLength(d: Date)
    requires 0 <= d.year <= 9999 && IsCalendarDate(d)
    ensures |FormatIso(d)| == 24 && ParseIso(FormatIso(d)) == Some(d)
  {
    IsoRoundTrip(d);
  }

  /** A range the hook saved is loaded back unchanged. */
  lemma SaveLoadRoundTrip(r: DateRange)
    requires Storable(r) && IsCalendarDate(r.start) && IsCalendarDate(r.end)
    ensures LoadSavedDateRange(Some(SavedText(r))) == Some(r)
  {
    IsoLength(r.start);
    IsoLength(r.end);
    LoadLayout(FormatIso(r.start), FormatIso(r.end));
  }

  /** A saved range is accepted only when both of its dates read back. */
  lemma LoadFacts(stored: Option<string>)
    ensures var r := LoadSavedDateRange(stored);
      (stored.None? || stored.value == "" ==> r.None?)
      && (r.Some? ==> |stored.value| == 69
                      && ParseIso(stored.value[10..34]) == Some(r.value.start)
                      && ParseIso(stored.value[43..67]) == Some(r.value.end))
  {
  }

  /**
   * What the session-storage key holds: a text found there, or the JSON
   * text saveDateRange wrote for a range (kept as the range, its text being
   * SavedText).
   */
  datatype Entry = Text(text: string) | Written(range: DateRange)

  /** The text sessionStorage.getItem returns for an entry. */
  function EntryText(e: Option<Entry>): Option<string>
  {
    match e
    case None => None
    case Some(Text(s)) => Some(s)
    case Some(Written(r)) => if Storable(r) then Some(SavedText(r)) else None
  }

  /** An entry the hook wrote loads back as the range it wrote. */
  lemma WrittenLoads(r: DateRange)
    requires Storable(r) && IsCalendarDate(r.start) && IsCalendarDate(r.end)
    ensures LoadSavedDateRange(EntryText(Some(Written(r)))) == Some(r)
  {
    SaveLoadRoundTrip(r);
  }

  /** A range setter's argument: a value, or an updater applied to the previous range. */
  datatype RangeUpdate = Value(range: DateRange) | Updater(f: DateRange -> DateRange)

  function Resolve(u: RangeUpdate, prev: DateRange): DateRange
  {
    match u
    case Value(r) => r
    case Updater(f) => f(prev)
  }

  class DateFilterState {
    var dateRange: DateRange
    var hasInitialized: bool
    var hasAutoSet: bool
    /** The session-storage entry of the filter. */
    var stored: Option<Entry>

    constructor (now: Date, stored: Option<string>)
      ensures dateRange == DefaultDateRange(now)
      ensures !hasInitialized && !hasAutoSet
      ensures EntryText(this.stored) == stored
    {
      dateRange := DefaultDateRange(now);
      hasInitialized := false;
      hasAutoSet := false;
      this.stored := if stored.Some? then Some(Text(stored.value)) else None;
    }

    /** The mount effect: runs once; a valid saved range is adopted and rules out the automatic month. */
    method LoadOnMount()
      modifies this
      ensures hasInitialized && stored == old(stored)
      ensures old(hasInitialized) ==> dateRange == old(dateRange) && hasAutoSet == old(hasAutoSet)
      ensures !old(hasInitialized) && LoadSavedDateRange(EntryText(old(stored))).Some? ==>
                dateRange == LoadSavedDateRange(EntryText(old(stored))).value && hasAutoSet
      ensures !old(hasInitialized) && LoadSavedDateRange(EntryText(old(stored))).None? ==>
                dateRange == old(dateRange) && hasAutoSet == old(hasAutoSet)
    {
      if hasInitialized {
        return;
      }
      hasInitialized := true;
      var saved := LoadSavedDateRange(EntryText(stored));
      if saved.Some? {
        dateRange := saved.value;
        hasAutoSet := true;
      }
    }

    /** The data effect: at most once, and only with data, the range becomes the month of the latest transaction and is saved. */
    method AutoSet(dataDateRange: Option<DashboardPage.DateBounds>)
      modifies this
      ensures hasInitialized == old(hasInitialized)
      ensures old(hasAutoSet) || dataDateRange.None? ==>
                dateRange == old(dateRange) && hasAutoSet == old(hasAutoSet) && stored == old(stored)
      ensures !old(hasAutoSet) && dataDateRange.Some? ==>
                hasAutoSet && dateRange == MonthRange(dataDateRange.value.max) && stored == Some(Written(dateRange))
    {
      if hasAutoSet || dataDateRange.None? {
        return;
      }
      var newRange := MonthRange(dataDateRange.value.max);
      hasAutoSet := true;
      SaveDateRange(newRange);
      dateRange := newRange;
    }

    /** saveDateRange: the storage entry becomes the range's text; nothing else changes. */
    method SaveDateRange(r: DateRange)
      modifies this
      ensures stored == Some(Written(r))
      ensures dateRange == old(dateRange) && hasInitialized == old(hasInitialized) && hasAutoSet == old(hasAutoSet)
    {
      stored := Some(Written(r));
    }

    /** setDateRange: an updater sees the previous range; the result is stored and saved. */
    method SetDateRange(u: RangeUpdate)
      modifies this
      ensures dateRange == Resolve(u, old(dateRange))
      ensures stored == Some(Written(dateRange))
      ensures hasInitialized == old(hasInitialized) && hasAutoSet == old(hasAutoSet)
    {
      var resolved := Resolve(u, dateRange);
      SaveDateRange(resolved);
      dateRange := resolved;
    }
  }

  /** The month the data effect saves is loaded back by a later mount. */
  lemma AutoSetReloads(d: Date)
    requires 0 <= d.year <= 9999
    ensures LoadSavedDateRange(EntryText(Some(Written(MonthRange(d))))) == Some(MonthRange(d))
  {
    assert IsCalendarDate(MonthRange(d).start);
    WrittenLoads(MonthRange(d));
  }
}
