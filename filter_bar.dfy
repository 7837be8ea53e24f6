// The filter bar of the transactions page (components/transactions/FilterBar.tsx):
// the filter object it edits one criterion at a time, the active-filter
// count and the clear button.
module FilterBar {
  import opened Wrappers
  import opened Calendar
  import opened Records

  /** `{ type: 'all', searchQuery: '' }`. */
  const InitialFilters := TransactionFilter(None, None, Some(AllTypes), None, Some(""))

  /** One `handleChange(key, value)` call: which criterion and its new value (undefined is None). */
  datatype Change =
    | SetStartDate(startDate: Option<Date>)
    | SetEndDate(endDate: Option<Date>)
    | SetType(kind: Option<TypeChoice>)
    | SetCategory(category: Option<string>)
    | SetSearchQuery(searchQuery: Option<string>)

  /** `{ ...filters, [key]: value }`. */
  function Apply(f: TransactionFilter, c: Change): TransactionFilter
  {
    match c
    case SetStartDate(v) => f.(startDate := v)
    case SetEndDate(v) => f.(endDate := v)
    case SetType(v) => f.(kind := v)
    case SetCategory(v) => f.(category := v)
    case SetSearchQuery(v) => f.(searchQuery := v)
  }

  /** The category select: the empty option stores undefined. */
  function CategoryChange(value: string): (c: Change)
    ensures c.SetCategory?
    ensures c.category.None? <==> value == ""
    ensures c.category.Some? ==> c.category.value == value
  {
    SetCategory(if value == "" then None else Some(value))
  }

  predicate TypeActive(f: TransactionFilter) { f.kind != Some(AllTypes) }
  predicate CategoryActive(f: TransactionFilter) { f.category.Some? && f.category.value != "" }
  predicate SearchActive(f: TransactionFilter) { f.searchQuery.Some? && f.searchQuery.value != "" }

  function Indicator(b: bool): nat { if b then 1 else 0 }

  /** The number of true entries among the three activity tests. */
  function ActiveFilterCount(f: TransactionFilter): (n: nat)
    ensures n <= 3
    ensures n == 0 <==> !TypeActive(f) && !CategoryActive(f) && !SearchActive(f)
    ensures n == 3 <==> TypeActive(f) && CategoryActive(f) && SearchActive(f)
  {
    Indicator(TypeActive(f)) + Indicator(CategoryActive(f)) + Indicator(SearchActive(f))
  }

  predicate HasActiveFilters(f: TransactionFilter)
  {
    TypeActive(f) || CategoryActive(f) || SearchActive(f)
  }

  /** The clear button is shown exactly when the badge shows a count. */
  lemma ActiveFacts(f: TransactionFilter)
    ensures HasActiveFilters(f) <==> ActiveFilterCount(f) > 0
    ensures !HasActiveFilters(InitialFilters) && ActiveFilterCount(InitialFilters) == 0
  {
  }

  /** A change replaces its own criterion and leaves the other four as they were. */
  lemma ApplyChangesOneKey(f: TransactionFilter, c: Change)
    ensures var g := Apply(f, c);
      (g.startDate == if c.SetStartDate? then c.startDate else f.startDate)
      && (g.endDate == if c.SetEndDate? then c.endDate else f.endDate)
      && (g.kind == if c.SetType? then c.kind else f.kind)
      && (g.category == if c.SetCategory? then c.category else f.category)
      && (g.searchQuery == if c.SetSearchQuery? then c.searchQuery else f.searchQuery)
  {
  }

  /** A change of one criterion moves the count by at most one. */
  lemma ChangeMovesCountByOne(f: TransactionFilter, c: Change)
    ensures var before, after := ActiveFilterCount(f) as int, ActiveFilterCount(Apply(f, c)) as int;
      before - 1 <= after <= before + 1
    ensures c.SetStartDate? || c.SetEndDate? ==> ActiveFilterCount(Apply(f, c)) == ActiveFilterCount(f)
  {
  }

  class FilterBarState {
    var filters: TransactionFilter
    var isExpanded: bool
    /** Every filter object handed to onFilterChange, oldest first. */
    var reported: seq<TransactionFilter>

    constructor ()
      ensures filters == InitialFilters && !isExpanded && reported == []
    {
      filters := InitialFilters;
      isExpanded := false;
      reported := [];
    }

    /** handleChange: the new object is stored and reported. */
    method HandleChange(c: Change)
      modifies this
      ensures filters == Apply(old(filters), c)
      ensures reported == old(reported) + [filters]
      ensures isExpanded == old(isExpanded)
    {
      filters := Apply(filters, c);
      reported := reported + [filters];
    }

    /** The clear button: back to the initial filters, which are reported. */
    method Clear()
      modifies this
      ensures filters == InitialFilters
      ensures reported == old(reported) + [InitialFilters]
      ensures isExpanded == old(isExpanded)
    {
      filters := InitialFilters;
      reported := reported + [filters];
    }

    method ToggleExpanded()
      modifies this
      ensures isExpanded == !old(isExpanded)
      ensures filters == old(filters) && reported == old(reported)
    {
      isExpanded := !isExpanded;
    }
  }
}
