// The page arithmetic shared by the transaction table and the two dashboard
// modals: Math.ceil(n / pageSize) pages, page p showing
// slice((p - 1) * pageSize, p * pageSize), a "from-to / n" label, and
// previous/next buttons clamped to [1, totalPages].
module Paging {
  import opened Seqs

  /** Math.ceil(n / pageSize). */
  function TotalPages(n: nat, pageSize: nat): (tp: nat)
    requires pageSize > 0
    ensures tp == 0 <==> n == 0
    ensures tp > 0 ==> (tp - 1) * pageSize < n <= tp * pageSize
  {
    var q, r := (n + pageSize - 1) / pageSize, (n + pageSize - 1) % pageSize;
    assert n + pageSize - 1 == q * pageSize + r && 0 <= r < pageSize;
    assert (q - 1) * pageSize == q * pageSize - pageSize;
    q
  }

  function MinInt(a: int, b: int): int { if a <= b then a else b }
  function MaxInt(a: int, b: int): int { if a >= b then a else b }

  /** Array.prototype.slice(start, end) for non-negative bounds: both are clamped to the length. */
  function Slice<T>(s: seq<T>, start: nat, end: nat): (r: seq<T>)
    ensures |r| == MaxInt(0, MinInt(end, |s|) - start)
    ensures forall k :: 0 <= k < |r| ==> start + k < |s| && r[k] == s[start + k]
  {
    var a, b := MinInt(start, |s|), MinInt(end, |s|);
    if a < b then s[a..b] else []
  }

  function StartIndex(page: int, pageSize: nat): int { (page - 1) * pageSize }
  function EndIndex(page: int, pageSize: nat): int { StartIndex(page, pageSize) + pageSize }

  /** The rows of page p (p >= 1): the indices in [(p - 1) * size, p * size) that exist. */
  function PageItems<T>(s: seq<T>, page: int, pageSize: nat): seq<T>
    requires page >= 1
  {
    Slice(s, StartIndex(page, pageSize), EndIndex(page, pageSize))
  }

  /**
   * Each row of the list is on exactly one page, the page i / size + 1,
   * which is one of the pages counted, and sits there at position i % size.
   */
  lemma PageOfIndex<T>(s: seq<T>, pageSize: nat, i: nat)
    requires pageSize > 0 && i < |s|
    ensures var p := i / pageSize + 1;
      1 <= p <= TotalPages(|s|, pageSize)
      && StartIndex(p, pageSize) <= i < EndIndex(p, pageSize)
      && |PageItems(s, p, pageSize)| > i % pageSize
      && PageItems(s, p, pageSize)[i % pageSize] == s[i]
      && forall q :: q >= 1 && q != p ==> !(StartIndex(q, pageSize) <= i < EndIndex(q, pageSize))
  {
    var sz, q, r := pageSize, i / pageSize, i % pageSize;
    var p, tp := q + 1, TotalPages(|s|, pageSize);
    assert i == q * sz + r && 0 <= r < sz;
    assert StartIndex(p, sz) == q * sz;
    if tp <= q { MulMono(tp, q, sz); }
    OnlyPage(i, sz);
  }

  /** No page but i / size + 1 covers index i. */
  lemma OnlyPage(i: nat, sz: nat)
    requires sz > 0
    ensures forall q' :: q' >= 1 && q' != i / sz + 1 ==> !(StartIndex(q', sz) <= i < EndIndex(q', sz))
  {
    var q, r := i / sz, i % sz;
    assert i == q * sz + r && 0 <= r < sz;
    forall q' | q' >= 1 && q' != q + 1 ensures !(StartIndex(q', sz) <= i < EndIndex(q', sz)) {
      if q' < q + 1 {
        MulMono(q', q, sz);
        assert EndIndex(q', sz) == q' * sz;
      } else {
        MulMono(q + 1, q' - 1, sz);
        assert (q + 1) * sz == q * sz + sz;
      }
    }
  }

  lemma MulMono(a: int, b: int, k: nat)
    requires a <= b
    ensures a * k <= b * k
  {
    assert b * k - a * k == (b - a) * k;
  }

  /** The "from-to / n" label under the rows. */
  datatype RangeLabel = RangeLabel(first: int, last: int, total: nat)

  function Label(n: nat, page: int, pageSize: nat): RangeLabel
  {
    RangeLabel(StartIndex(page, pageSize) + 1, MinInt(EndIndex(page, pageSize), n), n)
  }

  /** The label counts exactly the rows shown, for any page that exists. */
  lemma LabelCountsRows<T>(s: seq<T>, page: int, pageSize: nat)
    requires pageSize > 0 && 1 <= page <= TotalPages(|s|, pageSize)
    ensures var l := Label(|s|, page, pageSize);
      l.last - l.first + 1 == |PageItems(s, page, pageSize)| > 0 && l.total == |s|
  {
    assert (page - 1) * pageSize <= (TotalPages(|s|, pageSize) - 1) * pageSize;
  }

  /** The controls are shown only when there is more than one page. */
  predicate ControlsShown(n: nat, pageSize: nat)
    requires pageSize > 0
  {
    TotalPages(n, pageSize) > 1
  }

  /** The current page of a paged list. */
  class Pager {
    var currentPage: int
    const pageSize: nat

    predicate Valid()
      reads this
    {
      currentPage >= 1 && pageSize > 0
    }

    constructor (size: nat)
      requires size > 0
      ensures Valid() && currentPage == 1 && pageSize == size
    {
      currentPage := 1;
      pageSize := size;
    }

    /** The rows visible now. */
    function Visible<T>(s: seq<T>): seq<T>
      reads this
      requires Valid()
    {
      PageItems(s, currentPage, pageSize)
    }

    /** `setCurrentPage(p => Math.max(1, p - 1))`. */
    method Prev()
      requires Valid()
      modifies this
      ensures Valid()
      ensures currentPage == MaxInt(1, old(currentPage) - 1)
    {
      currentPage := MaxInt(1, currentPage - 1);
    }

    /** `setCurrentPage(p => Math.min(totalPages, p + 1))`; the button exists only while the controls are shown. */
    method Next(n: nat)
      requires Valid() && ControlsShown(n, pageSize)
      modifies this
      ensures Valid()
      ensures currentPage == MinInt(TotalPages(n, pageSize), old(currentPage) + 1)
      ensures currentPage <= TotalPages(n, pageSize)
    {
      currentPage := MinInt(TotalPages(n, pageSize), currentPage + 1);
    }
  }

  /** Clamping keeps a page that exists in range: prev never goes below 1 and next never above the last page. */
  lemma StepsStayInRange(page: int, tp: nat)
    requires 1 <= page <= tp
    ensures 1 <= MaxInt(1, page - 1) <= tp
    ensures 1 <= MinInt(tp, page + 1) <= tp
    ensures page > 1 ==> MaxInt(1, page - 1) == page - 1
    ensures page < tp ==> MinInt(tp, page + 1) == page + 1
  {
  }
}
