// Dictionaries whose values are records updated in place:
// `if (!grouped[key]) grouped[key] = init; <update grouped[key]>`, as an
// association list in the order keys were first seen (Object.values order).
module Buckets {
  import opened Wrappers
  import opened Grouping

  /** Create the entry for k with init when it is missing, then apply step to it. */
  function Upsert<K(==), V>(g: seq<(K, V)>, k: K, init: V, step: V -> V): seq<(K, V)>
  {
    if |g| == 0 then [(k, step(init))]
    else if g[0].0 == k then [(k, step(g[0].1))] + g[1..]
    else [g[0]] + Upsert(g[1..], k, init, step)
  }

  /** grouped[k], or None when k has no entry. */
  function Find<K(==), V>(g: seq<(K, V)>, k: K): Option<V>
  {
    if |g| == 0 then None else if g[0].0 == k then Some(g[0].1) else Find(g[1..], k)
  }

  /** The sum of a natural-number measure of the values. */
  function Measure<K, V>(g: seq<(K, V)>, f: V -> nat): nat
  {
    if |g| == 0 then 0 else f(g[0].1) + Measure(g[1..], f)
  }

  /** Upserting adds k to the keys and nothing else. */
  lemma {:induction false} UpsertKeys<K, V>(g: seq<(K, V)>, k: K, init: V, step: V -> V)
    ensures forall k' :: HasKey(Upsert(g, k, init, step), k') <==> HasKey(g, k') || k' == k
  {
    if |g| == 0 {
      HasKeyCons((k, step(init)), g);
      assert [(k, step(init))] == [(k, step(init))] + g;
    } else {
      assert g == [g[0]] + g[1..];
      HasKeyCons(g[0], g[1..]);
      if g[0].0 == k {
        HasKeyCons((k, step(g[0].1)), g[1..]);
      } else {
        UpsertKeys(g[1..], k, init, step);
        HasKeyCons(g[0], Upsert(g[1..], k, init, step));
      }
    }
  }

  /** Upserting keeps the keys distinct. */
  lemma {:induction false} UpsertDistinct<K, V>(g: seq<(K, V)>, k: K, init: V, step: V -> V)
    requires DistinctKeys(g)
    ensures DistinctKeys(Upsert(g, k, init, step))
  {
    if |g| == 0 {
      DistinctCons((k, step(init)), g);
      assert [(k, step(init))] == [(k, step(init))] + g;
    } else {
      assert g == [g[0]] + g[1..];
      DistinctCons(g[0], g[1..]);
      if g[0].0 == k {
        DistinctCons((k, step(g[0].1)), g[1..]);
      } else {
        UpsertDistinct(g[1..], k, init, step);
        UpsertKeys(g[1..], k, init, step);
        DistinctCons(g[0], Upsert(g[1..], k, init, step));
      }
    }
  }

  /** Upserting keeps every key at its position: a new key goes after all the old ones. */
  lemma {:induction false} UpsertPrefix<K, V>(g: seq<(K, V)>, k: K, init: V, step: V -> V)
    ensures |g| <= |Upsert(g, k, init, step)|
    ensures forall j :: 0 <= j < |g| ==> Upsert(g, k, init, step)[j].0 == g[j].0
  {
    if |g| > 0 && g[0].0 != k {
      UpsertPrefix(g[1..], k, init, step);
      var u := Upsert(g, k, init, step);
      assert u[1..] == Upsert(g[1..], k, init, step);
      forall j | 0 < j < |g| ensures u[j].0 == g[j].0 {
        assert u[j] == u[1..][j - 1] && g[j] == g[1..][j - 1];
      }
    }
  }

  /** Upserting applies step to k's value (init when it had none) and leaves every other key's value alone. */
  lemma {:induction false} UpsertFind<K, V>(g: seq<(K, V)>, k: K, init: V, step: V -> V)
    ensures forall k' :: Find(Upsert(g, k, init, step), k') == if k' == k then Some(step(Find(g, k).GetOr(init))) else Find(g, k')
  {
    if |g| > 0 && g[0].0 != k {
      UpsertFind(g[1..], k, init, step);
      var u := Upsert(g, k, init, step);
      assert u[1..] == Upsert(g[1..], k, init, step);
    }
  }

  /** When step adds d to the measure and init measures 0, upserting adds d to the total measure. */
  lemma {:induction false} UpsertMeasure<K, V>(g: seq<(K, V)>, k: K, init: V, step: V -> V, f: V -> nat, d: nat)
    requires f(init) == 0
    requires forall v :: f(step(v)) == f(v) + d
    ensures Measure(Upsert(g, k, init, step), f) == Measure(g, f) + d
  {
    if |g| == 0 {
      var u := Upsert(g, k, init, step);
      assert u[1..] == [];
    } else if g[0].0 == k {
      var u := Upsert(g, k, init, step);
      assert u[1..] == g[1..];
    } else {
      UpsertMeasure(g[1..], k, init, step, f, d);
      var u := Upsert(g, k, init, step);
      assert u[1..] == Upsert(g[1..], k, init, step);
    }
  }

  /** Object.values(grouped): the values in key order. */
  function Values<K, V>(g: seq<(K, V)>): (r: seq<V>)
    ensures |r| == |g| && forall i :: 0 <= i < |g| ==> r[i] == g[i].1
  {
    seq(|g|, i requires 0 <= i < |g| => g[i].1)
  }

  /** A key has a value exactly when it has an entry. */
  lemma {:induction false} FindHasKey<K, V>(g: seq<(K, V)>, k: K)
    ensures Find(g, k).Some? <==> HasKey(g, k)
  {
    if |g| > 0 {
      FindHasKey(g[1..], k);
      assert g == [g[0]] + g[1..];
      HasKeyCons(g[0], g[1..]);
    }
  }

  /** With distinct keys, each entry is what its key finds. */
  lemma {:induction false} FindAt<K, V>(g: seq<(K, V)>, i: nat)
    requires DistinctKeys(g) && i < |g|
    ensures Find(g, g[i].0) == Some(g[i].1)
  {
    if i > 0 {
      assert g[0].0 != g[i].0;
      assert DistinctKeys(g[1..]) by {
        forall a, b | 0 <= a < b < |g| - 1 ensures g[1..][a].0 != g[1..][b].0 {
          assert g[1..][a] == g[a + 1] && g[1..][b] == g[b + 1];
        }
      }
      FindAt(g[1..], i - 1);
    }
  }

  /** A property every value has, and that step and init keep, holds of every value after an upsert. */
  lemma {:induction false} UpsertAll<K, V>(g: seq<(K, V)>, k: K, init: V, step: V -> V, ok: V -> bool)
    requires forall i :: 0 <= i < |g| ==> ok(g[i].1)
    requires forall v :: ok(step(v))
    ensures forall i :: 0 <= i < |Upsert(g, k, init, step)| ==> ok(Upsert(g, k, init, step)[i].1)
  {
    if |g| > 0 && g[0].0 != k {
      UpsertAll(g[1..], k, init, step, ok);
      var u := Upsert(g, k, init, step);
      assert u[1..] == Upsert(g[1..], k, init, step);
      forall i | 0 < i < |u| ensures ok(u[i].1) { assert u[i] == u[1..][i - 1]; }
    }
  }
}
