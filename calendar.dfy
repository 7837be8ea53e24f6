// Calendar dates and the date operations the application takes from the
// JavaScript Date object and date-fns: instants, calendar days, month starts
// and ends, month arithmetic, whole-day differences and the textual forms
// dd/MM/yyyy and the ISO 8601 form of toISOString. Time zones are not
// modelled: local time and UTC coincide.
module Calendar {
  import opened Wrappers
  import opened Text

  type Month = m: int | 1 <= m <= 12 witness 1
  type Day = d: int | 1 <= d <= 31 witness 1
  /** Milliseconds since midnight. */
  type TimeOfDay = t: int | 0 <= t < 86_400_000

  const MsPerDay: int := 86_400_000

  /** A JavaScript Date, read through its local fields. */
  datatype Date = Date(year: int, month: Month, day: Day, ms: TimeOfDay)

  /** What toDateString and format(d, 'yyyy-MM-dd') distinguish: the calendar day. */
  datatype CalendarDay = CalendarDay(year: int, month: Month, day: Day)

  function DayOf(d: Date): CalendarDay { CalendarDay(d.year, d.month, d.day) }

  predicate IsLeapYear(y: int) { (y % 4 == 0 && y % 100 != 0) || y % 400 == 0 }

  function DaysInMonth(y: int, m: Month): Day
  {
    if m == 2 then (if IsLeapYear(y) then 29 else 28)
    else if m == 4 || m == 6 || m == 9 || m == 11 then 30
    else 31
  }

  /** A date whose day exists in its month (every JavaScript Date is one). */
  predicate IsCalendarDate(d: Date) { d.day <= DaysInMonth(d.year, d.month) }

  /** Days since 1970-01-01 of the proleptic Gregorian date y-m-d. */
  function DayNumber(y: int, m: Month, d: int): int
  {
    var y' := if m <= 2 then y - 1 else y;
    var era := y' / 400;
    var yoe := y' - era * 400;
    var mp := if m > 2 then m - 3 else m + 9;
    var doy := (153 * mp + 2) / 5 + d - 1;
    var doe := yoe * 365 + yoe / 4 - yoe / 100 + doy;
    era * 146097 + doe - 719468
  }

  /** The instant of a date, in milliseconds since the epoch: getTime(). */
  function Stamp(d: Date): int { DayNumber(d.year, d.month, d.day) * MsPerDay + d.ms }

  lemma EpochIsZero()
    ensures Stamp(Date(1970, 1, 1, 0)) == 0
  {
  }

  /** The day number of the first day of the month with index idx. */
  function MonthStartDay(idx: int): int { DayNumber(idx / 12, idx % 12 + 1, 1) }

  /** Within a month, the day number grows by one a day. */
  lemma DayNumberInMonth(y: int, m: Month, d: int)
    ensures DayNumber(y, m, d) == DayNumber(y, m, 1) + d - 1
  {
  }

  /** A year of an era, counted from 1 upwards, is a leap year by its own place in the era. */
  lemma LeapInEra(era: int, r: int)
    requires 1 <= r <= 400
    ensures IsLeapYear(era * 400 + r) <==> (r % 4 == 0 && r % 100 != 0) || r == 400
  {
    ModFour(era * 100, r);
    ModHundred(era * 4, r);
    ModFourHundred(era, r);
  }

  lemma ModFour(k: int, r: int)
    ensures (k * 4 + r) % 4 == r % 4
  {
  }

  lemma ModHundred(k: int, r: int)
    ensures (k * 100 + r) % 100 == r % 100
  {
  }

  lemma ModFourHundred(k: int, r: int)
    ensures (k * 400 + r) % 400 == r % 400
  {
  }

  /** The days before year q of an era, counted from 1 March. */
  function EraDays(q: int): int { q * 365 + q / 4 - q / 100 }

  lemma EraDaysStep(q: int)
    requires 0 <= q < 399
    ensures EraDays(q + 1) == EraDays(q) + 365 + (if (q + 1) % 4 == 0 && (q + 1) % 100 != 0 then 1 else 0)
  {
  }

  /** From 1 March of year y' to 1 March of the next year there are 365 days, 366 when the next year is a leap year. */
  lemma MarchToMarch(y': int)
    ensures DayNumber(y' + 1, 3, 1) == DayNumber(y', 3, 1) + (if IsLeapYear(y' + 1) then 366 else 365)
  {
    var era := y' / 400;
    var yoe := y' - era * 400;
    assert DayNumber(y', 3, 1) == era * 146097 + EraDays(yoe) - 719468;
    if yoe < 399 {
      assert (y' + 1) / 400 == era;
      assert DayNumber(y' + 1, 3, 1) == era * 146097 + EraDays(yoe + 1) - 719468;
      EraDaysStep(yoe);
      LeapInEra(era, yoe + 1);
    } else {
      assert (y' + 1) / 400 == era + 1;
      assert DayNumber(y' + 1, 3, 1) == (era + 1) * 146097 + EraDays(0) - 719468;
      LeapInEra(era, 400);
    }
  }

  /** The first of a month, counted in days from the 1 March that starts its year in the era count. */
  lemma MonthOffset(y: int, m: Month)
    ensures var mp := if m > 2 then m - 3 else m + 9;
      DayNumber(y, m, 1) == DayNumber(if m <= 2 then y - 1 else y, 3, 1) + (153 * mp + 2) / 5
  {
  }

  /** Within a year, the next month starts as many days later as the month has. */
  lemma NextMonthSameYear(y: int, m: Month)
    requires m < 12
    ensures DayNumber(y, m + 1, 1) == DayNumber(y, m, 1) + DaysInMonth(y, m)
  {
    if m == 2 {
      FebruaryToMarch(y);
    } else {
      MonthOffset(y, m);
      MonthOffset(y, m + 1);
      var mp := if m > 2 then m - 3 else m + 9;
      MonthLengthFromOffsets(mp, DaysInMonth(y, m));
    }
  }

  /** March starts 28 days after February, 29 in a leap year. */
  lemma FebruaryToMarch(y: int)
    ensures DayNumber(y, 3, 1) == DayNumber(y, 2, 1) + DaysInMonth(y, 2)
  {
    MonthOffset(y, 2);
    MonthOffset(y, 3);
    MarchToMarch(y - 1);
  }

  /** Consecutive month offsets, counted from March, differ by the length of the earlier month. */
  lemma MonthLengthFromOffsets(mp: int, n: int)
    requires 0 <= mp < 11
    requires n == (if mp == 1 || mp == 3 || mp == 6 || mp == 8 then 30 else 31)
    ensures (153 * (mp + 1) + 2) / 5 == (153 * mp + 2) / 5 + n
  {
  }

  /** January starts 31 days after December. */
  lemma NextMonthNewYear(y: int)
    ensures DayNumber(y + 1, 1, 1) == DayNumber(y, 12, 1) + 31
  {
    MonthOffset(y, 12);
    MonthOffset(y + 1, 1);
  }

  /** The next month starts as many days later as the month has. */
  lemma NextMonthStart(idx: int)
    ensures MonthStartDay(idx + 1) == MonthStartDay(idx) + DaysInMonth(idx / 12, idx % 12 + 1)
  {
    var y, m := idx / 12, idx % 12 + 1;
    if m < 12 {
      assert (idx + 1) / 12 == y && (idx + 1) % 12 + 1 == m + 1;
      NextMonthSameYear(y, m);
    } else {
      assert (idx + 1) / 12 == y + 1 && (idx + 1) % 12 + 1 == 1;
      NextMonthNewYear(y);
    }
  }

  /** The length of the month with index idx. */
  function MonthLength(idx: int): int { DaysInMonth(idx / 12, idx % 12 + 1) }

  /** Positions that each step forward by a positive length keep the first length clear of every later position. */
  lemma {:induction false} StepsForward(start: int -> int, len: int -> int, i: int, j: int)
    requires i < j
    requires forall k :: i <= k < j ==> start(k + 1) == start(k) + len(k) && len(k) >= 1
    ensures start(i) + len(i) <= start(j)
    decreases j - i
  {
    if i + 1 < j {
      StepsForward(start, len, i + 1, j);
    }
  }

  /** A later month starts after every day of an earlier one. */
  lemma LaterMonthStart(i: int, j: int)
    requires i < j
    ensures MonthStartDay(i) + MonthLength(i) <= MonthStartDay(j)
  {
    forall k | i <= k < j
      ensures MonthStartDay(k + 1) == MonthStartDay(k) + MonthLength(k) && MonthLength(k) >= 1
    {
      NextMonthStart(k);
    }
    StepsForward(MonthStartDay, MonthLength, i, j);
  }

  /** A month index names its year and month. */
  lemma IndexParts(d: Date)
    ensures MonthIndex(d) / 12 == d.year && MonthIndex(d) % 12 + 1 == d.month
  {
  }

  /** A calendar date's day number falls among the days of month ip exactly when it is in that month. */
  lemma DayInMonthExactly(x: Date, ip: int)
    requires IsCalendarDate(x)
    ensures var dx, lo := DayNumber(x.year, x.month, x.day), MonthStartDay(ip);
      lo <= dx < lo + MonthLength(ip) <==> MonthIndex(x) == ip
  {
    var ix := MonthIndex(x);
    IndexParts(x);
    DayNumberInMonth(x.year, x.month, x.day);
    if ix < ip {
      LaterMonthStart(ix, ip);
    } else if ix > ip {
      LaterMonthStart(ip, ix);
    }
  }

  /**
   * A calendar date lies from the first to the last millisecond of p's
   * month exactly when it is in that month.
   */
  lemma InMonthExactly(x: Date, p: Date)
    requires IsCalendarDate(x)
    ensures Stamp(StartOfMonth(p)) <= Stamp(x) <= Stamp(EndOfMonth(p)) <==> MonthIndex(x) == MonthIndex(p)
  {
    var ip := MonthIndex(p);
    IndexParts(p);
    DayInMonthExactly(x, ip);
    DayNumberInMonth(p.year, p.month, DaysInMonth(p.year, p.month));
    var lo := MonthStartDay(ip);
    StampInDays(DayNumber(x.year, x.month, x.day), x.ms, lo, lo + MonthLength(ip) - 1);
  }

  /** An instant lies between the first millisecond of day lo and the last of day hi exactly when its day does. */
  lemma StampInDays(dx: int, ms: TimeOfDay, lo: int, hi: int)
    ensures lo * MsPerDay <= dx * MsPerDay + ms <= hi * MsPerDay + MsPerDay - 1 <==> lo <= dx <= hi
  {
    if dx < lo {
      assert dx * MsPerDay + ms < (dx + 1) * MsPerDay <= lo * MsPerDay;
    }
    if dx > hi {
      assert dx * MsPerDay >= (hi + 1) * MsPerDay;
    }
  }

  /** startOfMonth. */
  function StartOfMonth(d: Date): (r: Date)
    ensures r.year == d.year && r.month == d.month && r.day == 1 && r.ms == 0
  {
    Date(d.year, d.month, 1, 0)
  }

  /** endOfMonth: the last millisecond of the month. */
  function EndOfMonth(d: Date): (r: Date)
    ensures r.year == d.year && r.month == d.month && IsCalendarDate(r)
    ensures r.day == DaysInMonth(d.year, d.month) && r.ms == MsPerDay - 1
  {
    Date(d.year, d.month, DaysInMonth(d.year, d.month), MsPerDay - 1)
  }

  /** The months elapsed since January of year 0. */
  function MonthIndex(d: Date): int { d.year * 12 + d.month - 1 }

  function Min(a: int, b: int): int { if a <= b then a else b }

  /**
   * date-fns addMonths: the same day in the month k months later, clamped
   * to that month's last day, at the same time of day.
   */
  function AddMonths(d: Date, k: int): (r: Date)
    ensures MonthIndex(r) == MonthIndex(d) + k
    ensures r.day == Min(d.day, DaysInMonth(r.year, r.month)) && r.ms == d.ms
  {
    var idx := d.year * 12 + (d.month - 1) + k;
    var y := idx / 12;
    var m := idx % 12 + 1;
    Date(y, m, Min(d.day, DaysInMonth(y, m)), d.ms)
  }

  /** date-fns subMonths. */
  function SubMonths(d: Date, k: int): Date { AddMonths(d, -k) }

  /** One month back and one month forward lands in the month it started from. */
  lemma BackAndForth(d: Date)
    ensures MonthIndex(AddMonths(SubMonths(d, 1), 1)) == MonthIndex(d)
    ensures StartOfMonth(AddMonths(SubMonths(d, 1), 1)) == StartOfMonth(d)
  {
    var r := AddMonths(SubMonths(d, 1), 1);
    assert r.year * 12 + r.month == d.year * 12 + d.month;
  }

  /** Integer division rounded toward zero, as Math.trunc(a / b). */
  function TruncDiv(a: int, b: int): int
    requires b > 0
  {
    if a >= 0 then a / b else -((-a) / b)
  }

  /**
   * date-fns differenceInDays(later, earlier): the number of whole days
   * between the two instants, rounded toward zero.
   */
  function DifferenceInDays(later: Date, earlier: Date): int
  {
    TruncDiv(Stamp(later) - Stamp(earlier), MsPerDay)
  }

  /** From the start of a month to its end there are as many days as the month has, counting both ends. */
  lemma MonthSpan(d: Date)
    ensures DifferenceInDays(EndOfMonth(d), StartOfMonth(d)) + 1 == DaysInMonth(d.year, d.month)
  {
    var n := DaysInMonth(d.year, d.month);
    var diff := Stamp(EndOfMonth(d)) - Stamp(StartOfMonth(d));
    assert diff == (n - 1) * MsPerDay + (MsPerDay - 1);
    assert diff / MsPerDay == n - 1;
  }

  function Pad2(n: nat): string { PadStart(NatToString(n), 2, '0') }

  /** date-fns 'yyyy': the year with at least four digits. */
  function YearText(y: int): string
  {
    if y >= 0 then PadStart(NatToString(y), 4, '0') else "-" + PadStart(NatToString(-y), 4, '0')
  }

  /** format(d, 'dd/MM/yyyy'). */
  function FormatDmy(d: Date): string
  {
    Pad2(d.day) + "/" + Pad2(d.month) + "/" + YearText(d.year)
  }

  function Hours(d: Date): nat { d.ms / 3_600_000 }
  function Minutes(d: Date): nat { (d.ms / 60_000) % 60 }
  function Seconds(d: Date): nat { (d.ms / 1000) % 60 }
  function Millis(d: Date): nat { d.ms % 1000 }

  lemma TimeParts(d: Date)
    ensures Hours(d) < 24 && Minutes(d) < 60 && Seconds(d) < 60 && Millis(d) < 1000
    ensures d.ms == Hours(d) * 3_600_000 + Minutes(d) * 60_000 + Seconds(d) * 1000 + Millis(d)
  {
    var t := d.ms;
    assert t == (t / 1000) * 1000 + t % 1000;
    var s := t / 1000;
    assert s == (s / 60) * 60 + s % 60;
    var mi := s / 60;
    assert mi == (mi / 60) * 60 + mi % 60;
    assert t / 60_000 == mi;
    assert t / 3_600_000 == mi / 60;
  }

  /** toISOString for the years 0 to 9999: YYYY-MM-DDTHH:mm:ss.sssZ. */
  function FormatIso(d: Date): (r: string)
    requires 0 <= d.year <= 9999
  {
    IsoText(PadStart(NatToString(d.year), 4, '0'), Pad2(d.month), Pad2(d.day),
            Pad2(Hours(d)), Pad2(Minutes(d)), Pad2(Seconds(d)), PadStart(NatToString(Millis(d)), 3, '0'))
  }

  function IsoText(y: string, mo: string, da: string, h: string, mi: string, se: string, ms: string): string
  {
    y + "-" + mo + "-" + da + "T" + h + ":" + mi + ":" + se + "." + ms + "Z"
  }

  /** The length and the separator characters of the ISO form. */
  predicate IsoSeparators(s: string)
  {
    |s| == 24 && s[4] == '-' && s[7] == '-' && s[10] == 'T' && s[13] == ':' && s[16] == ':'
    && s[19] == '.' && s[23] == 'Z'
  }

  /** The value of the digits s[i..j], when they are all digits. */
  function FieldAt(s: string, i: nat, j: nat): Option<nat>
    requires i <= j <= |s|
  {
    if AllDigits(s[i..j]) then Some(DigitsValue(s[i..j])) else None
  }

  /**
   * new Date(text) on the ISO form that toISOString writes: the date when
   * every field is present and in range, None (an Invalid Date) otherwise.
   */
  function ParseIso(s: string): Option<Date>
  {
    if !IsoSeparators(s) then None
    else
      var y, mo, da := FieldAt(s, 0, 4), FieldAt(s, 5, 7), FieldAt(s, 8, 10);
      var h, mi, se, ms := FieldAt(s, 11, 13), FieldAt(s, 14, 16), FieldAt(s, 17, 19), FieldAt(s, 20, 23);
      if y.None? || mo.None? || da.None? || h.None? || mi.None? || se.None? || ms.None? then None
      else if !(1 <= mo.value <= 12) || da.value < 1 || da.value > DaysInMonth(y.value, mo.value)
              || h.value >= 24 || mi.value >= 60 || se.value >= 60 then None
      else
        assert ms.value < 1000 by { DigitsValueBound(s[20..23]); }
        var t := h.value * 3_600_000 + mi.value * 60_000 + se.value * 1000 + ms.value;
        Some(Date(y.value, mo.value, da.value, t))
  }

  lemma {:induction false} NatToStringShort(n: nat, k: nat)
    requires 1 <= k && n < Pow10(k)
    ensures |NatToString(n)| <= k
  {
    if n >= 10 {
      NatToStringShort(n / 10, k - 1);
    }
  }

  function Pow10(k: nat): nat { if k == 0 then 1 else 10 * Pow10(k - 1) }

  /** A number below 10^k, zero padded to k places, reads back as itself. */
  lemma PaddedField(n: nat, k: nat)
    requires 1 <= k && n < Pow10(k)
    ensures |PadStart(NatToString(n), k, '0')| == k
    ensures AllDigits(PadStart(NatToString(n), k, '0'))
    ensures DigitsValue(PadStart(NatToString(n), k, '0')) == n
  {
    NatToStringShort(n, k);
    ZeroPadValue(NatToString(n), k);
    NatToStringValue(n);
  }

  lemma {:induction false} DigitsValueBound(s: string)
    requires AllDigits(s)
    ensures DigitsValue(s) < Pow10(|s|)
  {
    if |s| > 0 { DigitsValueBound(s[..|s| - 1]); }
  }

  /** The piece between a prefix and a suffix sits right after the prefix. */
  lemma Segment(a: string, b: string, c: string)
    ensures (a + b + c)[|a|..|a| + |b|] == b
  {
  }

  /** Each field of the ISO text sits at its fixed offset. */
  lemma {:induction false} IsoLayout(y: string, mo: string, da: string, h: string, mi: string, se: string, ms: string)
    requires |y| == 4 && |mo| == 2 && |da| == 2 && |h| == 2 && |mi| == 2 && |se| == 2 && |ms| == 3
    ensures IsoSeparators(IsoText(y, mo, da, h, mi, se, ms))
    ensures IsoText(y, mo, da, h, mi, se, ms)[0..4] == y
    ensures IsoText(y, mo, da, h, mi, se, ms)[5..7] == mo
    ensures IsoText(y, mo, da, h, mi, se, ms)[8..10] == da
    ensures IsoText(y, mo, da, h, mi, se, ms)[11..13] == h
    ensures IsoText(y, mo, da, h, mi, se, ms)[14..16] == mi
    ensures IsoText(y, mo, da, h, mi, se, ms)[17..19] == se
    ensures IsoText(y, mo, da, h, mi, se, ms)[20..23] == ms
  {
    var p2 := y + "-" + mo;
    var p4 := p2 + "-" + da;
    var p6 := p4 + "T" + h;
    var p8 := p6 + ":" + mi;
    var p10 := p8 + ":" + se;
    var p12 := p10 + "." + ms;
    var s := p12 + "Z";
    assert s == IsoText(y, mo, da, h, mi, se, ms);
    assert s[..4] == y;
    assert s[..7] == p2 && p2[5..7] == mo;
    assert s[..10] == p4 && p4[8..10] == da;
    assert s[..13] == p6 && p6[11..13] == h;
    assert s[..16] == p8 && p8[14..16] == mi;
    assert s[..19] == p10 && p10[17..19] == se;
    assert s[..23] == p12 && p12[20..23] == ms;
  }

  /** The parser reads a date back from text whose fields hold that date's parts. */
  lemma {:induction false} ParseIsoFields(s: string, d: Date)
    requires IsoSeparators(s) && IsCalendarDate(d)
    requires FieldAt(s, 0, 4) == Some(d.year) && FieldAt(s, 5, 7) == Some(d.month)
    requires FieldAt(s, 8, 10) == Some(d.day) && FieldAt(s, 11, 13) == Some(Hours(d))
    requires FieldAt(s, 14, 16) == Some(Minutes(d)) && FieldAt(s, 17, 19) == Some(Seconds(d))
    requires FieldAt(s, 20, 23) == Some(Millis(d))
    ensures ParseIso(s) == Some(d)
  {
    TimeParts(d);
  }

  /** ISO text assembled from digit fields that hold a date's parts reads back as that date. */
  lemma {:induction false} IsoRead(y: string, mo: string, da: string, h: string, mi: string, se: string, ms: string, d: Date)
    requires |y| == 4 && |mo| == 2 && |da| == 2 && |h| == 2 && |mi| == 2 && |se| == 2 && |ms| == 3
    requires AllDigits(y) && AllDigits(mo) && AllDigits(da) && AllDigits(h)
    requires AllDigits(mi) && AllDigits(se) && AllDigits(ms)
    requires DigitsValue(y) as int == d.year
    requires DigitsValue(mo) as int == d.month as int
    requires DigitsValue(da) as int == d.day as int
    requires DigitsValue(h) as int == Hours(d) as int
    requires DigitsValue(mi) as int == Minutes(d) as int
    requires DigitsValue(se) as int == Seconds(d) as int
    requires DigitsValue(ms) as int == Millis(d) as int
    requires IsCalendarDate(d)
    ensures ParseIso(IsoText(y, mo, da, h, mi, se, ms)) == Some(d)
  {
    IsoLayout(y, mo, da, h, mi, se, ms);
    var s := IsoText(y, mo, da, h, mi, se, ms);
    ParseIsoFields(s, d);
  }

  /** A date written by toISOString is read back unchanged by the Date parser. */
  lemma {:induction false} IsoRoundTrip(d: Date)
    requires 0 <= d.year <= 9999 && IsCalendarDate(d)
    ensures ParseIso(FormatIso(d)) == Some(d)
  {
    TimeParts(d);
    assert Pow10(2) == 100 && Pow10(3) == 1000 && Pow10(4) == 10000;
    PaddedField(d.year, 4);
    PaddedField(d.month, 2);
    PaddedField(d.day, 2);
    PaddedField(Hours(d), 2);
    PaddedField(Minutes(d), 2);
    PaddedField(Seconds(d), 2);
    PaddedField(Millis(d), 3);
    IsoRead(PadStart(NatToString(d.year), 4, '0'), Pad2(d.month), Pad2(d.day),
            Pad2(Hours(d)), Pad2(Minutes(d)), Pad2(Seconds(d)), PadStart(NatToString(Millis(d)), 3, '0'), d);
  }
}
