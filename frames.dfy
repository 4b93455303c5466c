/**
 * The part of pandas' DataFrame semantics the KPI calculators rely on:
 * a frame of typed rows with a set of columns, `.empty`, boolean-mask
 * counting, `sum`, `sort_values`, `diff` and `mean`.
 */
module Frames {

  /**
   * A DataFrame whose rows are records of type R. `columns` names which of
   * the record's fields the frame actually carries; a field outside
   * `columns` is never read.
   */
  datatype Table<R, C(==)> = Table(rows: seq<R>, columns: set<C>) {

    /** `DataFrame.empty`: true when either axis has length zero. */
    predicate Empty() {
      |rows| == 0 || columns == {}
    }

    /** `len(df)`, the number of rows. */
    function Len(): nat {
      |rows|
    }

    /** `c in df.columns`. */
    predicate Has(c: C) {
      c in columns
    }
  }

  /** `df[mask].shape[0]` or `mask.sum()`: the number of rows satisfying `p`. */
  function Count<T>(s: seq<T>, p: T -> bool): (n: nat)
    ensures n <= |s|
    ensures n == 0 <==> forall i | 0 <= i < |s| :: !p(s[i])
    ensures n == |s| <==> forall i | 0 <= i < |s| :: p(s[i])
  {
    if s == [] then 0
    else
      var rest := Count(s[1..], p);
      assert forall i | 1 <= i < |s| :: s[i] == s[1..][i - 1];
      (if p(s[0]) then 1 else 0) + rest
  }

  /** Counting over a concatenation adds up. */
  lemma {:induction false} CountAppend<T>(a: seq<T>, b: seq<T>, p: T -> bool)
    ensures Count(a + b, p) == Count(a, p) + Count(b, p)
  {
    if a == [] {
      assert a + b == b;
    } else {
      assert (a + b)[1..] == a[1..] + b;
      CountAppend(a[1..], b, p);
    }
  }

  /** Two conditions no row satisfies together are counted within the row count. */
  lemma {:induction false} CountDisjoint<T>(s: seq<T>, p: T -> bool, q: T -> bool)
    requires forall x :: !(p(x) && q(x))
    ensures Count(s, p) + Count(s, q) <= |s|
  {
    if s != [] {
      CountDisjoint(s[1..], p, q);
    }
  }

  /**
   * `(part / whole) * 100 if whole > 0 else 0`, the guarded percentage every
   * calculator ends with, on exact reals.
   */
  function Percentage(part: real, whole: real): (r: real)
    ensures whole <= 0.0 ==> r == 0.0
    ensures 0.0 <= part && 0.0 < whole ==> 0.0 <= r
    ensures 0.0 <= part <= whole ==> 0.0 <= r <= 100.0
  {
    if whole > 0.0 then part / whole * 100.0 else 0.0
  }

  /** Over a positive whole, the percentage is the part scaled to 100. */
  lemma PercentageOfWhole(part: real, whole: real)
    requires whole > 0.0
    ensures Percentage(part, whole) * whole == part * 100.0
  {
  }

  /** Over a positive whole, the percentage is 100 exactly when the part is the whole. */
  lemma PercentageFull(part: real, whole: real)
    requires whole > 0.0
    ensures Percentage(part, whole) == 100.0 <==> part == whole
  {
    PercentageOfWhole(part, whole);
  }

  /** Two percentages of one whole add as their parts do. */
  lemma PercentageAdd(a: real, b: real, whole: real)
    requires whole > 0.0
    ensures Percentage(a, whole) + Percentage(b, whole) == Percentage(a + b, whole)
  {
    assert a / whole + b / whole == (a + b) / whole;
  }

  /**
   * Parts that make up the whole: what two percentages leave of 100 is the
   * percentage of the third part.
   */
  lemma PercentageRemainder(a: real, b: real, c: real, whole: real)
    requires whole > 0.0 && a + b + c == whole
    ensures 100.0 - Percentage(a, whole) - Percentage(b, whole) == Percentage(c, whole)
  {
    assert a / whole + b / whole + c / whole == (a + b + c) / whole;
  }

  /** `Series.sum()` of a numeric column. */
  function Sum(s: seq<real>): real {
    if s == [] then 0.0 else s[0] + Sum(s[1..])
  }

  /** A sum of non-negative values is non-negative. */
  lemma {:induction false} SumNonNegative(s: seq<real>)
    requires forall i | 0 <= i < |s| :: s[i] >= 0.0
    ensures Sum(s) >= 0.0
  {
    if s != [] {
      SumNonNegative(s[1..]);
    }
  }

  predicate Ascending(s: seq<int>) {
    forall i, j | 0 <= i < j < |s| :: s[i] <= s[j]
  }

  /** Insert `x` into an ascending sequence, keeping it ascending. */
  function Insert(x: int, s: seq<int>): (r: seq<int>)
    requires Ascending(s)
    ensures Ascending(r)
    ensures multiset(r) == multiset(s) + multiset{x}
    ensures |r| == |s| + 1
  {
    if s == [] then [x]
    else if x <= s[0] then [x] + s
    else
      var tail := Insert(x, s[1..]);
      assert s == [s[0]] + s[1..];
      HeadBelowAll(s[0], x, s[1..], tail);
      ConsAscending(s[0], tail);
      assert multiset([s[0]] + tail) == multiset([s[0]]) + multiset(tail);
      [s[0]] + tail
  }

  /** A lower bound put in front of an ascending sequence keeps it ascending. */
  lemma ConsAscending(h: int, t: seq<int>)
    requires Ascending(t)
    requires forall k | 0 <= k < |t| :: h <= t[k]
    ensures Ascending([h] + t)
  {
    forall i, j | 0 <= i < j < |t| + 1
      ensures ([h] + t)[i] <= ([h] + t)[j]
    {
      if i > 0 {
        assert ([h] + t)[i] == t[i - 1];
      }
      assert ([h] + t)[j] == t[j - 1];
    }
  }

  /** A lower bound of `s` and of `x` bounds every rearrangement of `s` plus `x`. */
  lemma HeadBelowAll(h: int, x: int, s: seq<int>, t: seq<int>)
    requires h <= x
    requires forall i | 0 <= i < |s| :: h <= s[i]
    requires multiset(t) == multiset(s) + multiset{x}
    ensures forall k | 0 <= k < |t| :: h <= t[k]
  {
    forall k | 0 <= k < |t|
      ensures h <= t[k]
    {
      assert t[k] in multiset(t);
      if t[k] != x {
        assert t[k] in multiset(s);
        assert t[k] in s;
      }
    }
  }

  /**
   * `sort_values` on one integer column. pandas' default sort is not stable,
   * but on a single key column every sort yields the same sequence of keys.
   */
  function SortAscending(s: seq<int>): (r: seq<int>)
    ensures Ascending(r)
    ensures multiset(r) == multiset(s)
    ensures |r| == |s|
  {
    if s == [] then []
    else
      assert s == [s[0]] + s[1..];
      Insert(s[0], SortAscending(s[1..]))
  }

  /**
   * `Series.diff()` without its leading NaN: the gap from each element to the
   * next one.
   */
  function Gaps(s: seq<int>): (r: seq<int>)
    ensures |r| == if |s| < 2 then 0 else |s| - 1
  {
    if |s| < 2 then [] else [s[1] - s[0]] + Gaps(s[1..])
  }

  /** The gaps of a sequence add up to the distance from its first to its last element. */
  lemma {:induction false} GapsTelescope(s: seq<int>)
    requires |s| >= 1
    ensures SumInts(Gaps(s)) == s[|s| - 1] - s[0]
  {
    if |s| >= 2 {
      GapsTelescope(s[1..]);
    }
  }

  function SumInts(s: seq<int>): int {
    if s == [] then 0 else s[0] + SumInts(s[1..])
  }

  /** The gaps of an ascending sequence are non-negative. */
  lemma {:induction false} GapsOfAscending(s: seq<int>)
    requires Ascending(s)
    ensures forall i | 0 <= i < |Gaps(s)| :: Gaps(s)[i] >= 0
  {
    if |s| >= 2 {
      GapsOfAscending(s[1..]);
    }
  }

  /** The smallest element of a non-empty sequence. */
  function Min(s: seq<int>): (m: int)
    requires |s| > 0
    ensures m in s
    ensures forall i | 0 <= i < |s| :: m <= s[i]
  {
    if |s| == 1 then s[0]
    else
      var rest := Min(s[1..]);
      assert forall i | 1 <= i < |s| :: s[i] == s[1..][i - 1];
      if s[0] <= rest then s[0] else rest
  }

  /** The largest element of a non-empty sequence. */
  function Max(s: seq<int>): (m: int)
    requires |s| > 0
    ensures m in s
    ensures forall i | 0 <= i < |s| :: s[i] <= m
  {
    if |s| == 1 then s[0]
    else
      var rest := Max(s[1..]);
      assert forall i | 1 <= i < |s| :: s[i] == s[1..][i - 1];
      if s[0] >= rest then s[0] else rest
  }

  /** Sorting puts the minimum first and the maximum last. */
  lemma SortedEnds(s: seq<int>)
    requires |s| > 0
    ensures SortAscending(s)[0] == Min(s)
    ensures SortAscending(s)[|s| - 1] == Max(s)
  {
    var r := SortAscending(s);
    AscendingFirst(r, s, Min(s));
    AscendingLast(r, s, Max(s));
  }

  /** In an ascending rearrangement of `s`, the first element is the minimum of `s`. */
  lemma AscendingFirst(r: seq<int>, s: seq<int>, m: int)
    requires Ascending(r) && multiset(r) == multiset(s) && |r| > 0
    requires m in s && forall i | 0 <= i < |s| :: m <= s[i]
    ensures r[0] == m
  {
    assert r[0] in multiset(s);
    var i :| 0 <= i < |s| && s[i] == r[0];
    assert m in multiset(r);
    var j :| 0 <= j < |r| && r[j] == m;
  }

  /** In an ascending rearrangement of `s`, the last element is the maximum of `s`. */
  lemma AscendingLast(r: seq<int>, s: seq<int>, m: int)
    requires Ascending(r) && multiset(r) == multiset(s) && |r| > 0
    requires m in s && forall i | 0 <= i < |s| :: s[i] <= m
    ensures r[|r| - 1] == m
  {
    assert r[|r| - 1] in multiset(s);
    var i :| 0 <= i < |s| && s[i] == r[|r| - 1];
    assert m in multiset(r);
    var j :| 0 <= j < |r| && r[j] == m;
  }
}
