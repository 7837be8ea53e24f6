// Character and string operations of JavaScript that the application relies
// on: decimal digits, Number/parseInt/parseFloat on plain decimal numerals,
// toLowerCase on the letters Vietnamese writes, includes, split, join, trim and padStart, and the
// dot-grouping of digits used by the Vietnamese number format.
module Text {
  import opened Wrappers

  predicate IsDigit(c: char) { '0' <= c <= '9' }

  predicate AllDigits(s: string) { forall i :: 0 <= i < |s| ==> IsDigit(s[i]) }

  function DigitValue(c: char): nat
    requires IsDigit(c)
  {
    (c as int) - ('0' as int)
  }

  function DigitChar(d: nat): (c: char)
    requires d < 10
    ensures IsDigit(c) && DigitValue(c) == d
  {
    (('0' as int) + d) as char
  }

  /** The value of a string of decimal digits (leading zeros allowed). */
  function DigitsValue(s: string): nat
    requires AllDigits(s)
  {
    if |s| == 0 then 0 else 10 * DigitsValue(s[..|s| - 1]) + DigitValue(s[|s| - 1])
  }

  /** Decimal rendering of a natural number: String(n). */
  function NatToString(n: nat): (r: string)
    ensures 1 <= |r| && AllDigits(r)
    ensures n > 0 ==> r[0] != '0'
  {
    if n < 10 then [DigitChar(n)] else NatToString(n / 10) + [DigitChar(n % 10)]
  }

  lemma {:induction false} NatToStringValue(n: nat)
    ensures DigitsValue(NatToString(n)) == n
  {
    if n >= 10 {
      var r := NatToString(n);
      assert r[..|r| - 1] == NatToString(n / 10);
      NatToStringValue(n / 10);
    }
  }

  /** Decimal rendering of an integer, with a minus sign when negative. */
  function IntToString(i: int): (r: string)
    ensures 1 <= |r|
  {
    if i < 0 then "-" + NatToString(-i) else NatToString(i)
  }

  /** The characters that JavaScript's `\s`, trim() and parseInt treat as white space. */
  predicate IsSpace(c: char)
  {
    c == ' ' || c == '\t' || c == '\n' || c == '\r' || c == '\U{B}' || c == '\U{C}'
    || c == '\U{A0}' || c == '\U{1680}' || ('\U{2000}' <= c <= '\U{200A}')
    || c == '\U{2028}' || c == '\U{2029}' || c == '\U{202F}' || c == '\U{205F}'
    || c == '\U{3000}' || c == '\U{FEFF}'
  }

  function TrimStart(s: string): (r: string)
    ensures |r| <= |s| && r == s[|s| - |r|..]
    ensures |r| > 0 ==> !IsSpace(r[0])
  {
    if |s| > 0 && IsSpace(s[0]) then TrimStart(s[1..]) else s
  }

  function TrimEnd(s: string): (r: string)
    ensures |r| <= |s| && r == s[..|r|]
    ensures |r| > 0 ==> !IsSpace(r[|r| - 1])
  {
    if |s| > 0 && IsSpace(s[|s| - 1]) then TrimEnd(s[..|s| - 1]) else s
  }

  /** String.prototype.trim. */
  function Trim(s: string): string { TrimEnd(TrimStart(s)) }

  /** Length of the run of digits at the start of s. */
  function DigitRun(s: string): (k: nat)
    ensures k <= |s| && AllDigits(s[..k]) && (k < |s| ==> !IsDigit(s[k]))
  {
    if |s| > 0 && IsDigit(s[0]) then
      var k := 1 + DigitRun(s[1..]);
      assert s[..k] == [s[0]] + s[1..][..k - 1];
      k
    else 0
  }

  /**
   * The integer read by parseInt(s, 10) (and the integer part read by
   * parseFloat): leading white space, an optional sign, then a maximal run of
   * digits; None stands for NaN.
   */
  function LeadingInt(s: string): Option<int>
  {
    var t := TrimStart(s);
    if |t| > 0 && (t[0] == '-' || t[0] == '+') then
      var k := DigitRun(t[1..]);
      if k == 0 then None
      else
        var v: int := DigitsValue(t[1..][..k]);
        if t[0] == '-' then Some(-v) else Some(v)
    else
      var k := DigitRun(t);
      if k == 0 then None else Some(DigitsValue(t[..k]))
  }

  lemma DigitRunAll(s: string)
    requires AllDigits(s)
    ensures DigitRun(s) == |s|
  {
    if |s| > 0 { DigitRunAll(s[1..]); }
  }

  /** A digit is neither white space nor a sign. */
  lemma DigitNotSpace(c: char)
    requires IsDigit(c)
    ensures !IsSpace(c) && c != '-' && c != '+'
  {
  }

  /** parseInt of a non-empty run of digits is its value. */
  lemma LeadingIntOfDigits(r: string)
    requires |r| > 0 && AllDigits(r)
    ensures LeadingInt(r) == Some(DigitsValue(r))
  {
    DigitNotSpace(r[0]);
    assert TrimStart(r) == r;
    DigitRunAll(r);
    assert r[..|r|] == r;
  }

  lemma LeadingIntOfNatToString(n: nat)
    ensures LeadingInt(NatToString(n)) == Some(n)
  {
    LeadingIntOfDigits(NatToString(n));
    NatToStringValue(n);
  }

  /**
   * JavaScript's Number(token) on a token without white space: the empty
   * token is 0, an optionally signed run of digits is its value, and
   * anything else is treated as NaN (None) here.
   */
  function JsNumber(s: string): Option<int>
  {
    if |s| == 0 then Some(0)
    else if (s[0] == '-' || s[0] == '+') && |s| > 1 && AllDigits(s[1..]) then
      var v: int := DigitsValue(s[1..]);
      if s[0] == '-' then Some(-v) else Some(v)
    else if AllDigits(s) then Some(DigitsValue(s))
    else None
  }

  /** The characters of s that satisfy IsDigit, in order: replace(/\D/g, ''). */
  function KeepDigits(s: string): (r: string)
    ensures AllDigits(r) && |r| <= |s|
  {
    if |s| == 0 then "" else KeepDigits(s[..|s| - 1]) + (if IsDigit(s[|s| - 1]) then [s[|s| - 1]] else "")
  }

  lemma {:induction false} KeepDigitsOfDigits(s: string)
    requires AllDigits(s)
    ensures KeepDigits(s) == s
  {
    if |s| > 0 { KeepDigitsOfDigits(s[..|s| - 1]); }
  }

  /** s with every occurrence of c removed: replace(/c/g, ''). */
  function RemoveChar(s: string, c: char): (r: string)
    ensures c !in r && |r| <= |s|
  {
    if |s| == 0 then "" else RemoveChar(s[..|s| - 1], c) + (if s[|s| - 1] == c then "" else [s[|s| - 1]])
  }

  lemma {:induction false} RemoveCharConcat(a: string, b: string, c: char)
    ensures RemoveChar(a + b, c) == RemoveChar(a, c) + RemoveChar(b, c)
  {
    if |b| > 0 {
      assert (a + b)[..|a + b| - 1] == a + b[..|b| - 1];
      RemoveCharConcat(a, b[..|b| - 1], c);
    } else {
      assert a + b == a;
    }
  }

  lemma {:induction false} RemoveCharAbsent(s: string, c: char)
    requires c !in s
    ensures RemoveChar(s, c) == s
  {
    if |s| > 0 { RemoveCharAbsent(s[..|s| - 1], c); }
  }

  /** Whether s contains the character c: s.includes(c). */
  predicate HasChar(s: string, c: char) { c in s }

  /**
   * Digits grouped by '.' every three places from the right, as the
   * Vietnamese number format writes them: "1234567" -> "1.234.567".
   */
  function GroupThousands(d: string): (r: string)
    ensures |r| >= |d|
  {
    if |d| <= 3 then d else GroupThousands(d[..|d| - 3]) + "." + d[|d| - 3..]
  }

  /** Groups of exactly three digits, each preceded by a dot: (\.\d{3})+ . */
  predicate IsDotGroups(s: string)
    decreases |s|
  {
    |s| >= 4 && s[|s| - 4] == '.' && AllDigits(s[|s| - 3..])
    && (|s| == 4 || IsDotGroups(s[..|s| - 4]))
  }

  /** The shape ^\d{1,3}(\.\d{3})+$ that marks a dot-grouped Vietnamese amount. */
  predicate IsDotGrouped(s: string)
  {
    exists k :: 1 <= k <= 3 && k < |s| && HeadThenGroups(s, k)
  }

  predicate HeadThenGroups(s: string, k: nat)
    requires k <= |s|
  {
    AllDigits(s[..k]) && IsDotGroups(s[k..])
  }

  lemma DigitsSlice(s: string, i: nat, j: nat)
    requires AllDigits(s) && i <= j <= |s|
    ensures AllDigits(s[i..j]) && '.' !in s[i..j]
  {
    assert forall k :: 0 <= k < j - i ==> s[i..j][k] == s[i + k];
  }

  /** Removing the dots of a grouped digit string gives back the digits. */
  lemma {:induction false} UngroupThousands(d: string)
    requires AllDigits(d)
    ensures RemoveChar(GroupThousands(d), '.') == d
  {
    if |d| <= 3 {
      DigitsSlice(d, 0, |d|);
      assert d[0..|d|] == d;
      RemoveCharAbsent(d, '.');
    } else {
      var head, tail := d[..|d| - 3], d[|d| - 3..];
      DigitsSlice(d, 0, |d| - 3);
      DigitsSlice(d, |d| - 3, |d|);
      UngroupThousands(head);
      UngroupStep(GroupThousands(head), head, tail);
      assert d == head + tail;
    }
  }

  /** Removing the dots of a grouped head, a dot and a dot-free tail gives the head's digits then the tail. */
  lemma UngroupStep(g: string, head: string, tail: string)
    requires RemoveChar(g, '.') == head && '.' !in tail
    ensures RemoveChar(g + "." + tail, '.') == head + tail
  {
    var x := g + ".";
    DotDropped(g);
    RemoveCharConcat(x, tail, '.');
    RemoveCharAbsent(tail, '.');
  }

  /** A trailing dot is removed and nothing else changes. */
  lemma DotDropped(g: string)
    ensures RemoveChar(g + ".", '.') == RemoveChar(g, '.')
  {
    var x := g + ".";
    assert x[..|x| - 1] == g;
  }

  /** More than three digits, once grouped, have the ^\d{1,3}(\.\d{3})+$ shape. */
  lemma {:induction false} GroupedShape(d: string)
    requires AllDigits(d) && |d| > 3
    ensures IsDotGrouped(GroupThousands(d))
  {
    var head, tail := d[..|d| - 3], d[|d| - 3..];
    var r := GroupThousands(d);
    DigitsSlice(d, 0, |d| - 3);
    DigitsSlice(d, |d| - 3, |d|);
    assert r == GroupThousands(head) + "." + tail;
    if |head| <= 3 {
      ShapeOfShort(head, tail);
      assert HeadThenGroups(r, |head|);
    } else {
      GroupedShape(head);
      var g := GroupThousands(head);
      var k :| 1 <= k <= 3 && k < |g| && HeadThenGroups(g, k);
      ShapeGrow(g, k, tail);
      assert HeadThenGroups(r, k);
    }
  }

  /** One to three digits, a dot and three digits: the head and a single group. */
  lemma ShapeOfShort(head: string, tail: string)
    requires 1 <= |head| <= 3 && AllDigits(head) && |tail| == 3 && AllDigits(tail)
    ensures HeadThenGroups(head + "." + tail, |head|)
  {
    var r := head + "." + tail;
    var k := |head|;
    assert r[..k] == head && r[k..] == "." + tail;
    assert r[k..][|r[k..]| - 3..] == tail;
  }

  /** A dot and three more digits extend the groups after the same head. */
  lemma ShapeGrow(g: string, k: nat, tail: string)
    requires 1 <= k <= 3 && k < |g| && HeadThenGroups(g, k) && |tail| == 3 && AllDigits(tail)
    ensures HeadThenGroups(g + "." + tail, k)
  {
    var r := g + "." + tail;
    assert r[..k] == g[..k];
    var t := r[k..];
    assert t == g[k..] + "." + tail;
    assert t[..|t| - 4] == g[k..];
    assert t[|t| - 3..] == tail;
  }

  /**
   * toLowerCase on one character, for the capitals Vietnamese text uses: the
   * ASCII letters, the Latin-1 capitals À to Þ (not the sign ×), Ă, Đ, Ĩ,
   * Ũ, Ơ, Ư and the capitals with a dot below or a hook, Ạ to Ỹ, which
   * alternate with their small letters. Other characters are unchanged.
   */
  function LowerChar(c: char): char
  {
    if 'A' <= c <= 'Z' then ((c as int) + 32) as char
    else if '\U{00C0}' <= c <= '\U{00DE}' && c != '\U{00D7}' then ((c as int) + 32) as char
    else if c == '\U{0102}' || c == '\U{0110}' || c == '\U{0128}' || c == '\U{0168}' || c == '\U{01A0}' || c == '\U{01AF}' then ((c as int) + 1) as char
    else if '\U{1EA0}' <= c <= '\U{1EF8}' && (c as int) % 2 == 0 then ((c as int) + 1) as char
    else c
  }

  /** A lowered character is lowered already, so lowering twice is lowering once. */
  lemma LowerCharIdempotent(c: char)
    ensures LowerChar(LowerChar(c)) == LowerChar(c)
  {
  }

  /** toLowerCase, on the characters LowerChar lowers. */
  function Lower(s: string): (r: string)
    ensures |r| == |s| && forall i :: 0 <= i < |s| ==> r[i] == LowerChar(s[i])
  {
    seq(|s|, i requires 0 <= i < |s| => LowerChar(s[i]))
  }

  /** Lowering is idempotent: a text and its lowered form lower alike. */
  lemma LowerIdempotent(s: string)
    ensures Lower(Lower(s)) == Lower(s)
  {
    forall i | 0 <= i < |s| ensures Lower(Lower(s))[i] == Lower(s)[i] {
      LowerCharIdempotent(s[i]);
    }
  }

  /** The Vietnamese capitals lower as toLowerCase lowers them. */
  lemma LowerVietnamese()
    ensures Lower("Đi lại") == "đi lại" && Lower("Ăn uống") == "ăn uống"
    ensures Lower("ƠN ỨNG") == "ơn ứng" && Lower("Ưu đãi") == "ưu đãi"
  {
  }

  predicate OccursAt(hay: string, needle: string, i: nat)
  {
    i + |needle| <= |hay| && hay[i..i + |needle|] == needle
  }

  /** hay.includes(needle). */
  predicate Contains(hay: string, needle: string)
  {
    exists i :: 0 <= i <= |hay| && OccursAt(hay, needle, i)
  }

  lemma ContainsEmpty(hay: string)
    ensures Contains(hay, "")
  {
    assert OccursAt(hay, "", 0);
  }

  /** s.split(sep) for a one-character separator. */
  function Split(s: string, sep: char): (r: seq<string>)
    ensures |r| >= 1
  {
    if |s| == 0 then [""]
    else
      var r := Split(s[..|s| - 1], sep);
      if s[|s| - 1] == sep then r + [""]
      else r[..|r| - 1] + [r[|r| - 1] + [s[|s| - 1]]]
  }

  /** words.join(sep) for a one-character separator. */
  function Join(ws: seq<string>, sep: char): string
  {
    if |ws| == 0 then "" else if |ws| == 1 then ws[0] else Join(ws[..|ws| - 1], sep) + [sep] + ws[|ws| - 1]
  }

  /** Joining the pieces of a split puts the string back together. */
  lemma {:induction false} JoinSplit(s: string, sep: char)
    ensures Join(Split(s, sep), sep) == s
  {
    if |s| > 0 {
      var p, c := s[..|s| - 1], s[|s| - 1];
      JoinSplit(p, sep);
      JoinSplitStep(p, c, sep);
      assert s == p + [c];
    }
  }

  /** One more character keeps the join of the split equal to the text. */
  lemma JoinSplitStep(p: string, c: char, sep: char)
    requires Join(Split(p, sep), sep) == p
    ensures Join(Split(p + [c], sep), sep) == p + [c]
  {
    var s := p + [c];
    var r := Split(p, sep);
    assert s[..|s| - 1] == p;
    SplitLast(s, sep);
    if c == sep {
      JoinEmptyLast(r, sep);
    } else {
      JoinGrowLast(r, sep, c);
    }
  }

  lemma SplitLast(s: string, sep: char)
    requires |s| > 0
    ensures var r := Split(s[..|s| - 1], sep);
      Split(s, sep) == if s[|s| - 1] == sep then r + [""] else r[..|r| - 1] + [r[|r| - 1] + [s[|s| - 1]]]
  {
  }

  lemma JoinEmptyLast(ws: seq<string>, sep: char)
    requires |ws| >= 1
    ensures Join(ws + [""], sep) == Join(ws, sep) + [sep]
  {
    assert (ws + [""])[..|ws|] == ws;
  }

  lemma JoinGrowLast(ws: seq<string>, sep: char, c: char)
    requires |ws| >= 1
    ensures Join(ws[..|ws| - 1] + [ws[|ws| - 1] + [c]], sep) == Join(ws, sep) + [c]
  {
    var grown := ws[..|ws| - 1] + [ws[|ws| - 1] + [c]];
    assert grown[..|grown| - 1] == ws[..|ws| - 1];
  }

  /** s.padStart(n, c). */
  function PadStart(s: string, n: nat, c: char): (r: string)
    ensures |r| == if |s| >= n then |s| else n
    ensures r[|r| - |s|..] == s
  {
    if |s| >= n then s else seq(n - |s|, _ => c) + s
  }

  /** The value of an all-digit string is unchanged by zero padding. */
  lemma {:induction false} ZeroPadValue(s: string, n: nat)
    requires AllDigits(s)
    ensures AllDigits(PadStart(s, n, '0')) && DigitsValue(PadStart(s, n, '0')) == DigitsValue(s)
  {
    if |s| < n {
      var z := seq(n - |s|, _ => '0');
      assert AllDigits(z + s) by {
        forall i | 0 <= i < |z + s| ensures IsDigit((z + s)[i]) { if i >= |z| { assert (z + s)[i] == s[i - |z|]; } }
      }
      LeadingZeros(z, s);
    }
  }

  lemma {:induction false} LeadingZeros(z: string, s: string)
    requires forall i :: 0 <= i < |z| ==> z[i] == '0'
    requires AllDigits(s)
    ensures AllDigits(z + s) && DigitsValue(z + s) == DigitsValue(s)
  {
    assert AllDigits(z + s) by {
      forall i | 0 <= i < |z + s| ensures IsDigit((z + s)[i]) { if i >= |z| { assert (z + s)[i] == s[i - |z|]; } }
    }
    if |s| == 0 {
      assert z + s == z;
      AllZeros(z);
    } else {
      assert (z + s)[..|z + s| - 1] == z + s[..|s| - 1];
      LeadingZeros(z, s[..|s| - 1]);
    }
  }

  lemma {:induction false} AllZeros(z: string)
    requires forall i :: 0 <= i < |z| ==> z[i] == '0'
    ensures AllDigits(z) && DigitsValue(z) == 0
  {
    if |z| > 0 { AllZeros(z[..|z| - 1]); }
  }
}
