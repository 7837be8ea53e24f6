// The month picker of the dashboard and the transactions page
// (components/dashboard/DateRangeFilter.tsx): quick selection of this
// month, last month, or the month before or after the one on view.
module DateRangeFilter {
  import opened Calendar

  datatype QuickSelect = ThisMonth | LastMonth | PrevMonth | NextMonth

  /** The date the switch in handleQuickSelect settles on ("now" is supplied by the caller). */
  function QuickTarget(q: QuickSelect, now: Date, viewMonth: Date): (d: Date)
    ensures MonthIndex(d) == match q
      case ThisMonth => MonthIndex(now)
      case LastMonth => MonthIndex(now) - 1
      case PrevMonth => MonthIndex(viewMonth) - 1
      case NextMonth => MonthIndex(viewMonth) + 1
  {
    match q
    case ThisMonth => now
    case LastMonth => SubMonths(now, 1)
    case PrevMonth => SubMonths(viewMonth, 1)
    case NextMonth => AddMonths(viewMonth, 1)
  }

  /** Only the two fixed choices close the popover. */
  predicate ClosesPopover(q: QuickSelect) { q == ThisMonth || q == LastMonth }

  class DateRangeFilterState {
    var isOpen: bool
    var viewMonth: Date
    /** Every (start, end) pair handed to onChange, oldest first. */
    var emitted: seq<(Date, Date)>

    constructor (startDate: Date)
      ensures !isOpen && viewMonth == startDate && emitted == []
    {
      isOpen := false;
      viewMonth := startDate;
      emitted := [];
    }

    /** The effect on a new startDate prop: the view follows it. */
    method SyncStartDate(startDate: Date)
      modifies this
      ensures viewMonth == startDate
      ensures isOpen == old(isOpen) && emitted == old(emitted)
    {
      viewMonth := startDate;
    }

    method ToggleOpen()
      modifies this
      ensures isOpen == !old(isOpen)
      ensures viewMonth == old(viewMonth) && emitted == old(emitted)
    {
      isOpen := !isOpen;
    }

    /** A click outside the popover closes it. */
    method Close()
      modifies this
      ensures !isOpen
      ensures viewMonth == old(viewMonth) && emitted == old(emitted)
    {
      isOpen := false;
    }

    /** The view moves to the chosen month, whose first and last instants are emitted; 'this' and 'last' close the popover. */
    method HandleQuickSelect(q: QuickSelect, now: Date)
      modifies this
      ensures viewMonth == QuickTarget(q, now, old(viewMonth))
      ensures emitted == old(emitted) + [(StartOfMonth(viewMonth), EndOfMonth(viewMonth))]
      ensures isOpen == (old(isOpen) && !ClosesPopover(q))
    {
      var newDate: Date;
      match q {
        case ThisMonth => newDate := now;
        case LastMonth => newDate := SubMonths(now, 1);
        case PrevMonth => newDate := SubMonths(viewMonth, 1);
        case NextMonth => newDate := AddMonths(viewMonth, 1);
      }
      viewMonth := newDate;
      emitted := emitted + [(StartOfMonth(newDate), EndOfMonth(newDate))];
      if q == ThisMonth || q == LastMonth {
        isOpen := false;
      }
    }
  }

  /**
   * What a selection emits is one whole month: from its first day at
   * midnight to the last millisecond of its last day, and that month is
   * the chosen one.
   */
  lemma EmittedMonth(q: QuickSelect, now: Date, viewMonth: Date)
    ensures var d := QuickTarget(q, now, viewMonth);
      var start, end := StartOfMonth(d), EndOfMonth(d);
      MonthIndex(start) == MonthIndex(end) == MonthIndex(d)
      && start.day == 1 && start.ms == 0
      && end.day == DaysInMonth(d.year, d.month) && end.ms == MsPerDay - 1
      && DifferenceInDays(end, start) + 1 == DaysInMonth(d.year, d.month)
  {
    MonthSpan(QuickTarget(q, now, viewMonth));
  }

  /** Stepping back and then forward returns to the month one started from. */
  lemma PrevThenNext(now: Date, viewMonth: Date)
    ensures var back := QuickTarget(PrevMonth, now, viewMonth);
      StartOfMonth(QuickTarget(NextMonth, now, back)) == StartOfMonth(viewMonth)
  {
    BackAndForth(viewMonth);
  }
}
