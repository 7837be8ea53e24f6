// Totals keyed by a name, as the application builds them with
// `acc[key] = (acc[key] || 0) + value` on a plain object: a list of
// (key, total) pairs in the order the keys were first seen, which is the
// order Object.entries returns them in.
module Grouping {
  import opened Seqs

  function Value<K>(p: (K, nat)): nat { p.1 }

  /** The sum of all values. */
  function Total<K>(es: seq<(K, nat)>): nat { SumNat(es, Value) }

  /** The sum of the values recorded under key k. */
  function SumOfKey<K(==)>(es: seq<(K, nat)>, k: K): nat
  {
    if |es| == 0 then 0
    else SumOfKey(es[..|es| - 1], k) + (if es[|es| - 1].0 == k then es[|es| - 1].1 else 0)
  }

  predicate HasKey<K(==), V>(es: seq<(K, V)>, k: K)
  {
    exists i :: 0 <= i < |es| && es[i].0 == k
  }

  predicate DistinctKeys<K(==), V>(g: seq<(K, V)>)
  {
    forall i, j :: 0 <= i < j < |g| ==> g[i].0 != g[j].0
  }

  /** `acc[k] || 0`: the total under k, or 0 when k has none. */
  function Lookup<K(==)>(g: seq<(K, nat)>, k: K): nat
  {
    if |g| == 0 then 0 else if g[0].0 == k then g[0].1 else Lookup(g[1..], k)
  }

  /** `acc[k] = (acc[k] || 0) + v`. */
  function Bump<K(==)>(g: seq<(K, nat)>, k: K, v: nat): seq<(K, nat)>
  {
    if |g| == 0 then [(k, v)]
    else if g[0].0 == k then [(k, g[0].1 + v)] + g[1..]
    else [g[0]] + Bump(g[1..], k, v)
  }

  /** The totals an accumulation loop holds after visiting every entry of es in order. */
  function GroupSums<K(==)>(es: seq<(K, nat)>): seq<(K, nat)>
  {
    if |es| == 0 then [] else Bump(GroupSums(es[..|es| - 1]), es[|es| - 1].0, es[|es| - 1].1)
  }

  lemma GroupSumsSnoc<K>(es: seq<(K, nat)>, k: K, v: nat)
    ensures GroupSums(es + [(k, v)]) == Bump(GroupSums(es), k, v)
  {
    assert (es + [(k, v)])[..|es|] == es;
  }

  lemma HasKeySnoc<K>(es: seq<(K, nat)>, p: (K, nat))
    ensures forall k :: HasKey(es + [p], k) <==> HasKey(es, k) || p.0 == k
  {
    var e := es + [p];
    forall k ensures HasKey(e, k) <==> HasKey(es, k) || p.0 == k {
      if HasKey(es, k) { var i :| 0 <= i < |es| && es[i].0 == k; assert e[i].0 == k; }
      if p.0 == k { assert e[|es|].0 == k; }
      if HasKey(e, k) { var i :| 0 <= i < |e| && e[i].0 == k; if i < |es| { assert es[i].0 == k; } }
    }
  }

  lemma TotalSnoc<K>(es: seq<(K, nat)>, p: (K, nat))
    ensures Total(es + [p]) == Total(es) + p.1
  {
    SumNatAppend(es, [p], Value);
    SumNatSingle(p, Value);
  }

  lemma SumOfKeySnoc<K>(es: seq<(K, nat)>, p: (K, nat), k: K)
    ensures SumOfKey(es + [p], k) == SumOfKey(es, k) + (if p.0 == k then p.1 else 0)
  {
    assert (es + [p])[..|es|] == es;
  }

  lemma TotalCons<K>(p: (K, nat), g: seq<(K, nat)>)
    ensures Total([p] + g) == p.1 + Total(g)
  {
    SumNatAppend([p], g, Value);
    SumNatSingle(p, Value);
  }

  lemma HasKeyCons<K, V>(p: (K, V), g: seq<(K, V)>)
    ensures forall k :: HasKey([p] + g, k) <==> p.0 == k || HasKey(g, k)
  {
    forall k ensures HasKey([p] + g, k) <==> p.0 == k || HasKey(g, k) {
      if HasKey([p] + g, k) {
        var i :| 0 <= i < |[p] + g| && ([p] + g)[i].0 == k;
        if i > 0 { assert g[i - 1].0 == k; }
      }
      if HasKey(g, k) {
        var i :| 0 <= i < |g| && g[i].0 == k;
        assert ([p] + g)[i + 1].0 == k;
      }
      if p.0 == k { assert ([p] + g)[0].0 == k; }
    }
  }

  lemma DistinctCons<K, V>(p: (K, V), g: seq<(K, V)>)
    ensures DistinctKeys([p] + g) <==> !HasKey(g, p.0) && DistinctKeys(g)
  {
    var c := [p] + g;
    if DistinctKeys(c) {
      forall i | 0 <= i < |g| ensures g[i].0 != p.0 { assert c[0] == p && c[i + 1] == g[i]; }
      forall i, j | 0 <= i < j < |g| ensures g[i].0 != g[j].0 { assert c[i + 1] == g[i] && c[j + 1] == g[j]; }
    }
    if !HasKey(g, p.0) && DistinctKeys(g) {
      forall i, j | 0 <= i < j < |c| ensures c[i].0 != c[j].0 {
        if i == 0 { assert c[j] == g[j - 1]; } else { assert c[i] == g[i - 1] && c[j] == g[j - 1]; }
      }
    }
  }

  lemma {:induction false} BumpKeys<K>(g: seq<(K, nat)>, k: K, v: nat)
    ensures forall k' :: HasKey(Bump(g, k, v), k') <==> HasKey(g, k') || k' == k
  {
    if |g| == 0 {
      HasKeyCons((k, v), []);
      assert [(k, v)] == [(k, v)] + [];
    } else {
      assert g == [g[0]] + g[1..];
      HasKeyCons(g[0], g[1..]);
      if g[0].0 == k {
        HasKeyCons<K, nat>((k, g[0].1 + v), g[1..]);
      } else {
        BumpKeys(g[1..], k, v);
        HasKeyCons(g[0], Bump(g[1..], k, v));
      }
    }
  }

  lemma {:induction false} BumpDistinct<K>(g: seq<(K, nat)>, k: K, v: nat)
    requires DistinctKeys(g)
    ensures DistinctKeys(Bump(g, k, v))
  {
    if |g| == 0 {
      DistinctCons((k, v), []);
      assert [(k, v)] == [(k, v)] + [];
    } else {
      assert g == [g[0]] + g[1..];
      DistinctCons(g[0], g[1..]);
      if g[0].0 == k {
        DistinctCons<K, nat>((k, g[0].1 + v), g[1..]);
      } else {
        BumpDistinct(g[1..], k, v);
        BumpKeys(g[1..], k, v);
        DistinctCons(g[0], Bump(g[1..], k, v));
      }
    }
  }

  lemma {:induction false} BumpLookup<K>(g: seq<(K, nat)>, k: K, v: nat)
    ensures forall k' :: Lookup(Bump(g, k, v), k') == Lookup(g, k') + (if k' == k then v else 0)
  {
    if |g| > 0 && g[0].0 != k {
      BumpLookup(g[1..], k, v);
      var b := Bump(g, k, v);
      assert b[1..] == Bump(g[1..], k, v);
    }
  }

  lemma {:induction false} BumpTotal<K>(g: seq<(K, nat)>, k: K, v: nat)
    ensures Total(Bump(g, k, v)) == Total(g) + v
  {
    if |g| == 0 {
      TotalCons((k, v), []);
      assert [(k, v)] == [(k, v)] + [];
    } else {
      assert g == [g[0]] + g[1..];
      TotalCons(g[0], g[1..]);
      if g[0].0 == k {
        TotalCons((k, g[0].1 + v), g[1..]);
      } else {
        BumpTotal(g[1..], k, v);
        TotalCons(g[0], Bump(g[1..], k, v));
      }
    }
  }

  /** Bumping a key adds v to that key's total and to the grand total, and nothing else. */
  lemma BumpFacts<K>(g: seq<(K, nat)>, k: K, v: nat)
    requires DistinctKeys(g)
    ensures DistinctKeys(Bump(g, k, v))
    ensures forall k' :: HasKey(Bump(g, k, v), k') <==> HasKey(g, k') || k' == k
    ensures forall k' :: Lookup(Bump(g, k, v), k') == Lookup(g, k') + (if k' == k then v else 0)
    ensures Total(Bump(g, k, v)) == Total(g) + v
  {
    BumpDistinct(g, k, v);
    BumpKeys(g, k, v);
    BumpLookup(g, k, v);
    BumpTotal(g, k, v);
  }

  /**
   * The accumulated totals have one entry per distinct key, exactly for the
   * keys that occur, each holding the sum of that key's values; the totals
   * add up to the sum of all values.
   */
  lemma {:induction false} GroupSumsFacts<K>(es: seq<(K, nat)>)
    ensures DistinctKeys(GroupSums(es))
    ensures forall k :: HasKey(GroupSums(es), k) <==> HasKey(es, k)
    ensures forall k :: Lookup(GroupSums(es), k) == SumOfKey(es, k)
    ensures Total(GroupSums(es)) == Total(es)
  {
    if |es| > 0 {
      var p, last := es[..|es| - 1], es[|es| - 1];
      GroupSumsFacts(p);
      BumpFacts(GroupSums(p), last.0, last.1);
      assert es == p + [last];
      SumNatAppend(p, [last], Value);
      SumNatSingle(last, Value);
      forall k ensures HasKey(es, k) <==> HasKey(p, k) || k == last.0 {
        if HasKey(es, k) {
          var i :| 0 <= i < |es| && es[i].0 == k;
          if i < |p| { assert p[i].0 == k; }
        }
        if HasKey(p, k) { var i :| 0 <= i < |p| && p[i].0 == k; assert es[i].0 == k; }
      }
    }
  }

  /** In a list with distinct keys, looking up an entry's key finds that entry's value. */
  lemma {:induction false} LookupAt<K>(g: seq<(K, nat)>, i: nat)
    requires DistinctKeys(g) && i < |g|
    ensures Lookup(g, g[i].0) == g[i].1
  {
    if i > 0 {
      assert g[0].0 != g[i].0;
      LookupAt(g[1..], i - 1);
    }
  }

  /** A key's total is at most the grand total. */
  lemma {:induction false} LookupBound<K>(g: seq<(K, nat)>, k: K)
    ensures Lookup(g, k) <= Total(g)
  {
    if |g| > 0 {
      TotalCons(g[0], g[1..]);
      assert g == [g[0]] + g[1..];
      LookupBound(g[1..], k);
    }
  }
}
