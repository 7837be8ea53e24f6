// Array.prototype.sort with a "b.key - a.key" comparator: a stable sort
// into non-increasing order of an integer key. It is modelled as a stable
// insertion sort; every ranking in the application uses it.
module Sorting {
  import opened Seqs

  /** x placed in front of the first element whose key is not larger than x's. */
  function InsertDesc<T>(x: T, s: seq<T>, key: T -> int): (r: seq<T>)
    ensures |r| == |s| + 1 && multiset(r) == multiset(s) + multiset{x}
  {
    if |s| == 0 || key(s[0]) <= key(x) then [x] + s
    else
      var r := [s[0]] + InsertDesc(x, s[1..], key);
      assert s == [s[0]] + s[1..];
      r
  }

  /** The list sorted by non-increasing key; elements with equal keys keep their order. */
  function SortDesc<T>(s: seq<T>, key: T -> int): (r: seq<T>)
    ensures |r| == |s| && multiset(r) == multiset(s)
  {
    if |s| == 0 then []
    else
      var r := InsertDesc(s[0], SortDesc(s[1..], key), key);
      assert s == [s[0]] + s[1..];
      r
  }

  predicate NonIncreasing<T>(s: seq<T>, key: T -> int)
  {
    forall i, j :: 0 <= i < j < |s| ==> key(s[i]) >= key(s[j])
  }

  lemma {:induction false} InsertDescSorted<T>(x: T, s: seq<T>, key: T -> int)
    requires NonIncreasing(s, key)
    ensures NonIncreasing(InsertDesc(x, s, key), key)
    ensures InsertDesc(x, s, key)[0] == (if |s| == 0 || key(s[0]) <= key(x) then x else s[0])
  {
    if |s| > 0 && key(s[0]) > key(x) {
      InsertDescSorted(x, s[1..], key);
      var t := InsertDesc(x, s[1..], key);
      InsertedBelow(x, s, key);
      ConsSorted(s[0], t, key);
    }
  }

  /** Inserting below the head of a sorted list keeps every element of the tail at most the head's key. */
  lemma InsertedBelow<T>(x: T, s: seq<T>, key: T -> int)
    requires NonIncreasing(s, key) && |s| > 0 && key(s[0]) > key(x)
    ensures forall y :: y in InsertDesc(x, s[1..], key) ==> key(y) <= key(s[0])
  {
    var t := InsertDesc(x, s[1..], key);
    forall y | y in t ensures key(y) <= key(s[0]) {
      assert y in multiset(t);
      if y != x {
        assert y in multiset(s[1..]);
        var k :| 0 <= k < |s[1..]| && s[1..][k] == y;
        assert s[k + 1] == y;
      }
    }
  }

  /** A head no smaller than anything after it extends a sorted list. */
  lemma ConsSorted<T>(h: T, t: seq<T>, key: T -> int)
    requires NonIncreasing(t, key) && forall y :: y in t ==> key(y) <= key(h)
    ensures NonIncreasing([h] + t, key)
  {
    var r := [h] + t;
    forall i, j | 0 <= i < j < |r| ensures key(r[i]) >= key(r[j]) {
      if i == 0 { assert r[j] in t; } else { assert r[i] == t[i - 1] && r[j] == t[j - 1]; }
    }
  }

  /** The result of SortDesc is in non-increasing key order. */
  lemma {:induction false} SortDescSorted<T>(s: seq<T>, key: T -> int)
    ensures NonIncreasing(SortDesc(s, key), key)
  {
    if |s| > 0 {
      SortDescSorted(s[1..], key);
      InsertDescSorted(s[0], SortDesc(s[1..], key), key);
    }
  }

  /** Sorting neither adds nor drops an element. */
  lemma SortDescMembers<T>(s: seq<T>, key: T -> int)
    ensures forall x :: x in SortDesc(s, key) <==> x in s
  {
    var r := SortDesc(s, key);
    forall x ensures x in r <==> x in s {
      assert x in r <==> x in multiset(r);
      assert x in s <==> x in multiset(s);
    }
  }

  /** No two elements share a name. */
  predicate DistinctBy<T, K(==)>(s: seq<T>, name: T -> K)
  {
    forall i, j :: 0 <= i < j < |s| ==> name(s[i]) != name(s[j])
  }

  lemma {:induction false} InsertDescDistinct<T, K>(x: T, s: seq<T>, key: T -> int, name: T -> K)
    requires DistinctBy(s, name)
    requires forall y :: y in s ==> name(y) != name(x)
    ensures DistinctBy(InsertDesc(x, s, key), name)
  {
    if |s| == 0 || key(s[0]) <= key(x) {
      var r := [x] + s;
      forall i, j | 0 <= i < j < |r| ensures name(r[i]) != name(r[j]) {
        assert r[j] == s[j - 1];
        if i > 0 { assert r[i] == s[i - 1]; }
      }
    } else {
      assert s == [s[0]] + s[1..];
      InsertDescDistinct(x, s[1..], key, name);
      var t := InsertDesc(x, s[1..], key);
      var r := [s[0]] + t;
      forall i, j | 0 <= i < j < |r| ensures name(r[i]) != name(r[j]) {
        if i == 0 {
          assert r[j] == t[j - 1];
          assert r[j] in multiset(t);
          if r[j] != x {
            assert r[j] in multiset(s[1..]);
            var k :| 0 <= k < |s[1..]| && s[1..][k] == r[j];
            assert s[k + 1] == r[j];
          }
        } else {
          assert r[i] == t[i - 1] && r[j] == t[j - 1];
        }
      }
    }
  }

  /** Sorting keeps names distinct. */
  lemma {:induction false} SortDescDistinct<T, K>(s: seq<T>, key: T -> int, name: T -> K)
    requires DistinctBy(s, name)
    ensures DistinctBy(SortDesc(s, key), name)
  {
    if |s| > 0 {
      var rest := s[1..];
      assert DistinctBy(rest, name) by {
        forall i, j | 0 <= i < j < |rest| ensures name(rest[i]) != name(rest[j]) {
          assert rest[i] == s[i + 1] && rest[j] == s[j + 1];
        }
      }
      SortDescDistinct(rest, key, name);
      forall y | y in SortDesc(rest, key) ensures name(y) != name(s[0]) {
        assert y in multiset(SortDesc(rest, key));
        assert y in multiset(rest);
        var k :| 0 <= k < |rest| && rest[k] == y;
        assert s[k + 1] == y;
      }
      InsertDescDistinct(s[0], SortDesc(rest, key), key, name);
    }
  }

  /** The position of the first element with the largest key. */
  function FirstMaxIndex<T>(s: seq<T>, key: T -> int): (i: nat)
    requires |s| > 0
    ensures i < |s|
    ensures forall j :: 0 <= j < |s| ==> key(s[j]) <= key(s[i])
    ensures forall j :: 0 <= j < i ==> key(s[j]) < key(s[i])
  {
    if |s| == 1 then 0
    else
      var j := 1 + FirstMaxIndex(s[1..], key);
      assert forall k :: 1 <= k < |s| ==> s[k] == s[1..][k - 1];
      if key(s[0]) >= key(s[j]) then 0 else j
  }

  /**
   * The first element of the sorted list is the first element of the input
   * with the largest key: among equal maxima the earliest one wins.
   */
  lemma {:induction false} SortDescHead<T>(s: seq<T>, key: T -> int)
    requires |s| > 0
    ensures SortDesc(s, key)[0] == s[FirstMaxIndex(s, key)]
  {
    if |s| > 1 {
      var rest := SortDesc(s[1..], key);
      SortDescHead(s[1..], key);
      SortDescSorted(s[1..], key);
      InsertDescSorted(s[0], rest, key);
      FirstMaxStep(s, key);
    } else {
      assert SortDesc(s, key) == InsertDesc(s[0], [], key);
    }
  }

  /** The first maximum of a list is its head or the first maximum of its tail, whichever key is larger (the head on a tie). */
  lemma FirstMaxStep<T>(s: seq<T>, key: T -> int)
    requires |s| > 1
    ensures var m := s[1..][FirstMaxIndex(s[1..], key)];
      s[FirstMaxIndex(s, key)] == if key(s[0]) >= key(m) then s[0] else m
  {
  }

  /**
   * The first k elements of the sorted list are a top-k: none of them has a
   * smaller key than any element left out, and together with the rest they
   * are exactly the input.
   */
  lemma TopK<T>(s: seq<T>, key: T -> int, k: nat)
    ensures var r := SortDesc(s, key);
      var top := Take(r, k);
      multiset(top) + multiset(r[|top|..]) == multiset(s)
      && forall x, y :: x in top && y in r[|top|..] ==> key(x) >= key(y)
  {
    var r := SortDesc(s, key);
    var top := Take(r, k);
    SortDescSorted(s, key);
    assert r == top + r[|top|..];
    forall x, y | x in top && y in r[|top|..] ensures key(x) >= key(y) {
      var i :| 0 <= i < |top| && top[i] == x;
      var j :| 0 <= j < |r[|top|..]| && r[|top|..][j] == y;
      assert r[i] == x && r[|top| + j] == y;
    }
  }

  /**
   * slice(0, k) of the sorted list: min(k, |s|) elements of s in non-increasing
   * order, none smaller than any element of s left out.
   */
  lemma TopRanked<T>(s: seq<T>, key: T -> int, k: nat)
    ensures var top := Take(SortDesc(s, key), k);
      |top| == MinNat(k, |s|)
      && NonIncreasing(top, key)
      && multiset(top) <= multiset(s)
      && forall x, y :: x in top && y in multiset(s) - multiset(top) ==> key(x) >= key(y)
  {
    var r := SortDesc(s, key);
    var top := Take(r, k);
    TopK(s, key, k);
    SortDescSorted(s, key);
    TakeSorted(r, key, k);
    assert multiset(s) - multiset(top) == multiset(r[|top|..]);
    forall x, y | x in top && y in multiset(s) - multiset(top) ensures key(x) >= key(y) {
      assert y in r[|top|..];
    }
  }

  /** Taking a prefix of a non-increasing list keeps it non-increasing. */
  lemma TakeSorted<T>(s: seq<T>, key: T -> int, k: nat)
    requires NonIncreasing(s, key)
    ensures NonIncreasing(Take(s, k), key)
  {
  }

  lemma {:induction false} InsertDescSum<T>(x: T, s: seq<T>, key: T -> int)
    ensures SumInt(InsertDesc(x, s, key), key) == key(x) + SumInt(s, key)
  {
    if |s| == 0 || key(s[0]) <= key(x) {
      SumIntAppend([x], s, key);
      assert [x][..0] == [];
    } else {
      InsertDescSum(x, s[1..], key);
      SumIntAppend([s[0]], InsertDesc(x, s[1..], key), key);
      SumIntAppend([s[0]], s[1..], key);
      assert [s[0]][..0] == [];
      assert s == [s[0]] + s[1..];
    }
  }

  /** Sorting does not change the sum of the keys. */
  lemma {:induction false} SortDescSum<T>(s: seq<T>, key: T -> int)
    ensures SumInt(SortDesc(s, key), key) == SumInt(s, key)
  {
    if |s| > 0 {
      SortDescSum(s[1..], key);
      InsertDescSum(s[0], SortDesc(s[1..], key), key);
      SumIntAppend([s[0]], s[1..], key);
      assert [s[0]][..0] == [];
      assert s == [s[0]] + s[1..];
    }
  }

  function Identity(x: int): int { x }

  /** `Array.from(new Set(s)).sort((a, b) => b - a)`: each value once, largest first. */
  function DistinctDescending(s: seq<int>): seq<int>
  {
    SortDesc(Distinct(s), Identity)
  }

  /** The values of s, each exactly once, in strictly decreasing order. */
  lemma DistinctDescendingFacts(s: seq<int>)
    ensures var r := DistinctDescending(s);
      (forall i, j :: 0 <= i < j < |r| ==> r[i] > r[j])
      && (forall x :: x in r <==> x in s)
  {
    var d := Distinct(s);
    var r := SortDesc(d, Identity);
    SortDescSorted(d, Identity);
    SortDescDistinct(d, Identity, Identity);
    forall x ensures x in r <==> x in s {
      assert x in r <==> x in multiset(r);
      assert x in d <==> x in multiset(d);
    }
    forall i, j | 0 <= i < j < |r| ensures r[i] > r[j] {
      assert Identity(r[i]) >= Identity(r[j]) && Identity(r[i]) != Identity(r[j]);
    }
  }
}
