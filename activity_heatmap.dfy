// The calendar heat map of a year (components/year-summary/ActivityHeatmap.tsx):
// each day's expense is shaded by its share of the largest day.
module ActivityHeatmap {
  import opened Grouping
  import opened Ratios

  /** Math.max(...Object.values(data), 0). */
  function MaxValue<K>(data: seq<(K, nat)>): (m: nat)
    ensures forall i :: 0 <= i < |data| ==> data[i].1 <= m
    ensures m == 0 || exists i :: 0 <= i < |data| && data[i].1 == m
  {
    if |data| == 0 then 0
    else
      var rest := MaxValue(data[..|data| - 1]);
      assert forall i :: 0 <= i < |data| - 1 ==> data[..|data| - 1][i] == data[i];
      if data[|data| - 1].1 > rest then data[|data| - 1].1 else rest
  }

  /** The five shades, from no spending to the largest. */
  datatype Shade = Empty | Level1 | Level2 | Level3 | Level4 | Level5

  function Rank(s: Shade): nat
  {
    match s
    case Empty => 0
    case Level1 => 1
    case Level2 => 2
    case Level3 => 3
    case Level4 => 4
    case Level5 => 5
  }

  /** amount / maxValue * 100; with a zero maximum a non-zero amount reads as Infinity. */
  function Share(amount: nat, maxValue: nat): real
    requires amount > 0
  {
    if maxValue > 0 then (amount as real) / (maxValue as real) * 100.0 else 1000.0
  }

  /** getColorClass: a zero amount is empty; any other is bucketed at 20, 40, 60 and 80 percent. */
  function ColorClass(amount: nat, maxValue: nat): Shade
  {
    if amount == 0 then Empty
    else
      var p := Share(amount, maxValue);
      if p < 20.0 then Level1
      else if p < 40.0 then Level2
      else if p < 60.0 then Level3
      else if p < 80.0 then Level4
      else Level5
  }

  /** `data[dateStr] || 0`: the shade of one day of the grid. */
  function DayShade<K(==)>(data: seq<(K, nat)>, day: K): Shade
  {
    ColorClass(Lookup(data, day), MaxValue(data))
  }

  lemma ShareMonotone(a: nat, b: nat, maxValue: nat)
    requires 0 < a <= b
    ensures Share(a, maxValue) <= Share(b, maxValue)
  {
    if maxValue > 0 {
      var m := maxValue as real;
      var qa, qb := (a as real) / m, (b as real) / m;
      QuotientTimes(a as real, m);
      QuotientTimes(b as real, m);
      ScaleOrder(qb, qa, m);
    }
  }

  /** For a fixed maximum a larger amount never gets a lighter shade. */
  lemma ColorMonotone(a: nat, b: nat, maxValue: nat)
    requires a <= b
    ensures Rank(ColorClass(a, maxValue)) <= Rank(ColorClass(b, maxValue))
  {
    if a > 0 {
      ShareMonotone(a, b, maxValue);
    }
  }

  /** The shade is empty exactly for a zero amount, and the maximum itself takes the top shade. */
  lemma ColorClassFacts(amount: nat, maxValue: nat)
    ensures ColorClass(amount, maxValue) == Empty <==> amount == 0
    ensures amount == maxValue && maxValue > 0 ==> ColorClass(amount, maxValue) == Level5
    ensures 0 < amount <= maxValue ==> Share(amount, maxValue) <= 100.0
  {
    if amount > 0 && maxValue > 0 {
      var m := maxValue as real;
      var q := (amount as real) / m;
      QuotientTimes(amount as real, m);
      ScaleOrder(q, 1.0, m);
      ScaleOrder(1.0, q, m);
    }
  }

  /** Share < 20k exactly when five times the amount is below k times the maximum. */
  lemma ShareBelow(amount: nat, maxValue: nat, k: nat)
    requires amount > 0 && maxValue > 0
    ensures Share(amount, maxValue) < 20.0 * (k as real) <==> 5 * amount < k * maxValue
  {
    var m := maxValue as real;
    var q := (amount as real) / m;
    QuotientTimes(amount as real, m);
    ScaleOrder(5.0 * q, k as real, m);
    assert (5.0 * q) * m == 5.0 * (amount as real);
    assert (k * maxValue) as real == (k as real) * m;
    assert Share(amount, maxValue) == q * 100.0;
  }

  /** The thresholds in whole numbers: the shade of a non-zero amount is the fifth of the maximum it falls in. */
  lemma ColorByFifths(amount: nat, maxValue: nat)
    requires amount > 0 && maxValue > 0
    ensures ColorClass(amount, maxValue) ==
              if 5 * amount < maxValue then Level1
              else if 5 * amount < 2 * maxValue then Level2
              else if 5 * amount < 3 * maxValue then Level3
              else if 5 * amount < 4 * maxValue then Level4
              else Level5
  {
    ShareBelow(amount, maxValue, 1);
    ShareBelow(amount, maxValue, 2);
    ShareBelow(amount, maxValue, 3);
    ShareBelow(amount, maxValue, 4);
  }

  lemma {:induction false} LookupIsValue<K>(data: seq<(K, nat)>, day: K)
    ensures Lookup(data, day) == 0 || exists i :: 0 <= i < |data| && data[i].0 == day && data[i].1 == Lookup(data, day)
  {
    if |data| > 0 && data[0].0 != day {
      LookupIsValue(data[1..], day);
      if Lookup(data, day) != 0 {
        var i :| 0 <= i < |data[1..]| && data[1..][i].0 == day && data[1..][i].1 == Lookup(data, day);
        assert data[i + 1].0 == day;
      }
    }
  }

  /**
   * Every day of the grid is shaded against a maximum at least as large
   * as its amount, so a non-empty day is never divided by zero, and the
   * largest day takes the top shade.
   */
  lemma DayShadeFacts<K>(data: seq<(K, nat)>, day: K)
    ensures Lookup(data, day) <= MaxValue(data)
    ensures Lookup(data, day) > 0 ==> MaxValue(data) > 0 && Share(Lookup(data, day), MaxValue(data)) <= 100.0
    ensures DayShade(data, day) == Empty <==> Lookup(data, day) == 0
    ensures Lookup(data, day) == MaxValue(data) > 0 ==> DayShade(data, day) == Level5
  {
    LookupIsValue(data, day);
    ColorClassFacts(Lookup(data, day), MaxValue(data));
  }
}
