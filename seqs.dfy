// Array operations the application uses on lists: filter, slice(0, n),
// summing a numeric field, and removing repeated values (new Set(...)).
module Seqs {
  /** s.filter(p), keeping order. */
  function Filter<T>(s: seq<T>, p: T -> bool): (r: seq<T>)
    ensures |r| <= |s|
  {
    if |s| == 0 then [] else Filter(s[..|s| - 1], p) + (if p(s[|s| - 1]) then [s[|s| - 1]] else [])
  }

  /** The filter keeps exactly the elements that meet p. */
  lemma {:induction false} FilterMembers<T>(s: seq<T>, p: T -> bool)
    ensures forall i :: 0 <= i < |Filter(s, p)| ==> Filter(s, p)[i] in s && p(Filter(s, p)[i])
    ensures forall i :: 0 <= i < |s| && p(s[i]) ==> s[i] in Filter(s, p)
  {
    if |s| > 0 {
      var s' := s[..|s| - 1];
      FilterMembers(s', p);
      assert forall i :: 0 <= i < |s'| ==> s'[i] == s[i];
    }
  }

  /** a can be obtained from b by deleting elements: it keeps b's order. */
  predicate IsSubsequence<T(==)>(a: seq<T>, b: seq<T>)
  {
    if |a| == 0 then true
    else if |b| == 0 then false
    else (a[|a| - 1] == b[|b| - 1] && IsSubsequence(a[..|a| - 1], b[..|b| - 1])) || IsSubsequence(a, b[..|b| - 1])
  }

  /** A filter keeps the elements it selects in their original order. */
  lemma {:induction false} FilterSubsequence<T>(s: seq<T>, p: T -> bool)
    ensures IsSubsequence(Filter(s, p), s)
  {
    if |s| > 0 {
      var s', x := s[..|s| - 1], s[|s| - 1];
      FilterSubsequence(s', p);
      var f := Filter(s, p);
      if p(x) {
        assert f[..|f| - 1] == Filter(s', p);
      } else if |f| > 0 {
        assert f == Filter(s', p);
      }
    }
  }

  lemma FilterSnoc<T>(s: seq<T>, x: T, p: T -> bool)
    ensures Filter(s + [x], p) == Filter(s, p) + (if p(x) then [x] else [])
  {
    assert (s + [x])[..|s|] == s;
  }

  lemma {:induction false} FilterAppend<T>(a: seq<T>, b: seq<T>, p: T -> bool)
    ensures Filter(a + b, p) == Filter(a, p) + Filter(b, p)
  {
    if |b| > 0 {
      var b' := b[..|b| - 1];
      assert a + b == (a + b') + [b[|b| - 1]];
      FilterSnoc(a + b', b[|b| - 1], p);
      FilterAppend(a, b', p);
      FilterSnoc(b', b[|b| - 1], p);
      assert b == b' + [b[|b| - 1]];
    } else {
      assert a + b == a;
    }
  }

  /** A filter keeps a sub-multiset of its input. */
  lemma {:induction false} FilterMultiset<T>(s: seq<T>, p: T -> bool)
    ensures multiset(Filter(s, p)) <= multiset(s)
  {
    if |s| > 0 {
      FilterMultiset(s[..|s| - 1], p);
      assert s == s[..|s| - 1] + [s[|s| - 1]];
    }
  }

  /** Filtering with a predicate every element meets changes nothing. */
  lemma {:induction false} FilterAll<T>(s: seq<T>, p: T -> bool)
    requires forall i :: 0 <= i < |s| ==> p(s[i])
    ensures Filter(s, p) == s
  {
    if |s| > 0 { FilterAll(s[..|s| - 1], p); }
  }

  /** Filtering with a predicate no element meets leaves nothing. */
  lemma {:induction false} FilterNone<T>(s: seq<T>, p: T -> bool)
    requires forall i :: 0 <= i < |s| ==> !p(s[i])
    ensures Filter(s, p) == []
  {
    if |s| > 0 { FilterNone(s[..|s| - 1], p); }
  }

  /** A filter shortens a list exactly when some element fails p. */
  lemma {:induction false} FilterShrinks<T>(s: seq<T>, p: T -> bool)
    ensures |Filter(s, p)| < |s| <==> exists i :: 0 <= i < |s| && !p(s[i])
  {
    if |s| > 0 {
      var s' := s[..|s| - 1];
      FilterShrinks(s', p);
      assert forall i :: 0 <= i < |s'| ==> s'[i] == s[i];
      if exists i :: 0 <= i < |s'| && !p(s'[i]) {
        var i :| 0 <= i < |s'| && !p(s'[i]);
        assert !p(s[i]);
      }
    }
  }

  /** The sum of a natural-number field over a list (reduce with +). */
  function SumNat<T>(s: seq<T>, f: T -> nat): nat
  {
    if |s| == 0 then 0 else SumNat(s[..|s| - 1], f) + f(s[|s| - 1])
  }

  lemma {:induction false} SumNatAppend<T>(a: seq<T>, b: seq<T>, f: T -> nat)
    ensures SumNat(a + b, f) == SumNat(a, f) + SumNat(b, f)
  {
    if |b| > 0 {
      assert (a + b)[..|a + b| - 1] == a + b[..|b| - 1];
      SumNatAppend(a, b[..|b| - 1], f);
    } else {
      assert a + b == a;
    }
  }

  lemma SumNatSingle<T>(x: T, f: T -> nat)
    ensures SumNat([x], f) == f(x)
  {
    assert [x][..0] == [];
  }

  /** Every element counts once in the sum, so an element is at most the sum. */
  lemma {:induction false} SumNatBound<T>(s: seq<T>, f: T -> nat, i: nat)
    requires i < |s|
    ensures f(s[i]) <= SumNat(s, f)
  {
    if i < |s| - 1 { SumNatBound(s[..|s| - 1], f, i); }
  }

  /** Replacing one element changes the sum by the difference of the two values. */
  lemma {:induction false} SumNatUpdate<T>(s: seq<T>, i: nat, x: T, f: T -> nat)
    requires i < |s|
    ensures SumNat(s[i := x], f) + f(s[i]) == SumNat(s, f) + f(x)
  {
    var n := |s| - 1;
    if i == n {
      assert s[i := x][..n] == s[..n];
    } else {
      SumNatUpdate(s[..n], i, x, f);
      assert s[i := x][..n] == s[..n][i := x];
    }
  }

  /**
   * Splitting a list by a predicate and its complement splits the sum:
   * the elements p keeps and those q keeps add up to the whole.
   */
  lemma {:induction false} SumNatPartition<T>(s: seq<T>, p: T -> bool, q: T -> bool, f: T -> nat)
    requires forall x :: q(x) == !p(x)
    ensures SumNat(Filter(s, p), f) + SumNat(Filter(s, q), f) == SumNat(s, f)
  {
    if |s| > 0 {
      var s', x := s[..|s| - 1], s[|s| - 1];
      assert s == s' + [x];
      SumNatPartition(s', p, q, f);
      FilterSnoc(s', x, p);
      FilterSnoc(s', x, q);
      SumNatSingle(x, f);
      if p(x) {
        SumNatAppend(Filter(s', p), [x], f);
        assert Filter(s, q) == Filter(s', q);
      } else {
        SumNatAppend(Filter(s', q), [x], f);
        assert Filter(s, p) == Filter(s', p);
      }
    }
  }

  /** A predicate and its complement split the list's length. */
  lemma {:induction false} FilterSizes<T>(s: seq<T>, p: T -> bool, q: T -> bool)
    requires forall x :: q(x) == !p(x)
    ensures |Filter(s, p)| + |Filter(s, q)| == |s|
  {
    if |s| > 0 {
      FilterSizes(s[..|s| - 1], p, q);
    }
  }

  lemma {:induction false} SumNatZero<T>(s: seq<T>, f: T -> nat)
    requires forall i :: 0 <= i < |s| ==> f(s[i]) == 0
    ensures SumNat(s, f) == 0
  {
    if |s| > 0 {
      SumNatZero(s[..|s| - 1], f);
    }
  }

  /** The sum of an integer field over a list. */
  function SumInt<T>(s: seq<T>, f: T -> int): int
  {
    if |s| == 0 then 0 else SumInt(s[..|s| - 1], f) + f(s[|s| - 1])
  }

  lemma {:induction false} SumIntAppend<T>(a: seq<T>, b: seq<T>, f: T -> int)
    ensures SumInt(a + b, f) == SumInt(a, f) + SumInt(b, f)
  {
    if |b| > 0 {
      assert (a + b)[..|a + b| - 1] == a + b[..|b| - 1];
      SumIntAppend(a, b[..|b| - 1], f);
    } else {
      assert a + b == a;
    }
  }

  function MinNat(a: nat, b: nat): nat { if a <= b then a else b }

  /** s.slice(0, n): the first n elements, or all of them when there are fewer. */
  function Take<T>(s: seq<T>, n: nat): (r: seq<T>)
    ensures |r| == MinNat(n, |s|) && r == s[..|r|]
  {
    if n <= |s| then s[..n] else s
  }

  /** The values of s without repetitions, each at its first position: Array.from(new Set(s)). */
  function Distinct<T(==)>(s: seq<T>): (r: seq<T>)
    ensures forall i :: 0 <= i < |r| ==> r[i] in s
    ensures forall i :: 0 <= i < |s| ==> s[i] in r
    ensures forall i, j :: 0 <= i < j < |r| ==> r[i] != r[j]
  {
    if |s| == 0 then []
    else
      var r := Distinct(s[..|s| - 1]);
      assert forall i :: 0 <= i < |s| - 1 ==> s[i] == s[..|s| - 1][i];
      if s[|s| - 1] in r then r else r + [s[|s| - 1]]
  }
}
