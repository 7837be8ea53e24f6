// The dashboard's recent-transactions card (components/dashboard/RecentTransactions.tsx):
// the newest `limit` transactions (5 by default) and a link to the
// transactions page that carries the dashboard's date range when it has one.
module RecentTransactions {
  import opened Wrappers
  import opened Calendar
  import opened Seqs
  import opened Sorting
  import opened Records
  import opened Text

  const DefaultLimit: nat := 5

  function Recent(transactions: seq<Transaction>, limit: nat): seq<Transaction>
  {
    Take(NewestFirst(transactions), limit)
  }

  /**
   * min(limit, n) transactions, newest first, none older than any
   * transaction left out.
   */
  lemma RecentFacts(transactions: seq<Transaction>, limit: nat)
    ensures var r := Recent(transactions, limit);
      |r| == MinNat(limit, |transactions|)
      && (forall i, j :: 0 <= i < j < |r| ==> Stamp(r[i].date) >= Stamp(r[j].date))
      && multiset(r) <= multiset(transactions)
      && (forall x, y :: x in r && y in multiset(transactions) - multiset(r) ==> Stamp(x.date) >= Stamp(y.date))
  {
    var r := Recent(transactions, limit);
    TopRanked(transactions, Time, limit);
    forall i, j | 0 <= i < j < |r| ensures Stamp(r[i].date) >= Stamp(r[j].date) {
      assert Time(r[i]) >= Time(r[j]);
    }
    forall x, y | x in r && y in multiset(transactions) - multiset(r) ensures Stamp(x.date) >= Stamp(y.date) {
      assert Time(x) >= Time(y);
    }
  }

  // ---------------------------------------------------------------------------
  // The link

  /**
   * URLSearchParams serialisation of the characters toISOString writes:
   * digits, '-', '.', 'T' and 'Z' stay, ':' becomes "%3A".
   */
  function FormEncode(s: string): string
  {
    if |s| == 0 then "" else (if s[0] == ':' then "%3A" else [s[0]]) + FormEncode(s[1..])
  }

  /** Reading a parameter back: "%3A" becomes ':'. */
  function FormDecode(s: string): string
  {
    if |s| == 0 then ""
    else if |s| >= 3 && s[..3] == "%3A" then [':'] + FormDecode(s[3..])
    else [s[0]] + FormDecode(s[1..])
  }

  /** Decoding undoes encoding for text without '%'. */
  lemma {:induction false} FormRoundTrip(s: string)
    requires '%' !in s
    ensures FormDecode(FormEncode(s)) == s
  {
    if |s| > 0 {
      FormRoundTrip(s[1..]);
      var rest := FormEncode(s[1..]);
      if s[0] == ':' {
        assert ("%3A" + rest)[..3] == "%3A" && ("%3A" + rest)[3..] == rest;
      } else {
        assert ([s[0]] + rest)[0] == s[0] && ([s[0]] + rest)[1..] == rest;
        assert s[0] != '%';
      }
      assert s == [s[0]] + s[1..];
    }
  }

  /** A date range (the dashboard's), when the card has one; toISOString covers the years 0 to 9999. */
  predicate IsoYear(d: Date) { 0 <= d.year <= 9999 }

  function BuildTransactionsUrl(dateFilter: Option<(Date, Date)>): string
    requires dateFilter.Some? ==> IsoYear(dateFilter.value.0) && IsoYear(dateFilter.value.1)
  {
    if dateFilter.None? then "/transactions"
    else
      "/transactions?start=" + FormEncode(FormatIso(dateFilter.value.0))
      + "&end=" + FormEncode(FormatIso(dateFilter.value.1))
  }

  lemma FormatIsoNoPercent(d: Date)
    requires IsoYear(d)
    ensures '%' !in FormatIso(d) && '&' !in FormEncode(FormatIso(d))
  {
    var s := FormatIso(d);
    ParseIsoChars(s, d);
    EncodeNoAmp(s);
  }

  lemma ParseIsoChars(s: string, d: Date)
    requires IsoYear(d) && s == FormatIso(d)
    ensures '%' !in s && '&' !in s
  {
    TimeParts(d);
    PadDigits(NatToString(d.year), 4);
    PadDigits(NatToString(d.month), 2);
    PadDigits(NatToString(d.day), 2);
    PadDigits(NatToString(Hours(d)), 2);
    PadDigits(NatToString(Minutes(d)), 2);
    PadDigits(NatToString(Seconds(d)), 2);
    PadDigits(NatToString(Millis(d)), 3);
    IsoTextMarks(PadStart(NatToString(d.year), 4, '0'), Pad2(d.month), Pad2(d.day),
                 Pad2(Hours(d)), Pad2(Minutes(d)), Pad2(Seconds(d)), PadStart(NatToString(Millis(d)), 3, '0'));
  }

  predicate NoMarks(s: string) { '%' !in s && '&' !in s }

  lemma IsoTextMarks(y: string, mo: string, da: string, h: string, mi: string, se: string, ms: string)
    requires NoMarks(y) && NoMarks(mo) && NoMarks(da) && NoMarks(h) && NoMarks(mi) && NoMarks(se) && NoMarks(ms)
    ensures NoMarks(IsoText(y, mo, da, h, mi, se, ms))
  {
  }

  lemma PadDigits(s: string, n: nat)
    requires AllDigits(s)
    ensures AllDigits(PadStart(s, n, '0')) && '%' !in PadStart(s, n, '0') && '&' !in PadStart(s, n, '0')
  {
    var r := PadStart(s, n, '0');
    assert forall i :: 0 <= i < |r| ==> r[i] != '%' && r[i] != '&';
  }

  lemma {:induction false} EncodeNoAmp(s: string)
    requires '&' !in s
    ensures '&' !in FormEncode(s)
  {
    if |s| > 0 {
      EncodeNoAmp(s[1..]);
      assert s[0] in s;
    }
  }

  /**
   * Without a range the link is the bare page; with one, its two parameters
   * read back, through the Date parser, as exactly the range's two dates.
   */
  lemma UrlRoundTrip(start: Date, end: Date)
    requires IsoYear(start) && IsoYear(end) && IsCalendarDate(start) && IsCalendarDate(end)
    ensures BuildTransactionsUrl(None) == "/transactions"
    ensures BuildTransactionsUrl(Some((start, end))) ==
              "/transactions?start=" + FormEncode(FormatIso(start)) + "&end=" + FormEncode(FormatIso(end))
    ensures ParseIso(FormDecode(FormEncode(FormatIso(start)))) == Some(start)
    ensures ParseIso(FormDecode(FormEncode(FormatIso(end)))) == Some(end)
  {
    FormatIsoNoPercent(start);
    FormatIsoNoPercent(end);
    FormRoundTrip(FormatIso(start));
    FormRoundTrip(FormatIso(end));
    IsoRoundTrip(start);
    IsoRoundTrip(end);
  }
}
