// The parts of SQL's meaning that the director dashboard's queries rely on:
// NULL-aware SUM, NULLIF, division and COUNT(DISTINCT ...).
// A NULL value is `None`, and `COALESCE(x, d)` is `x.GetOr(d)`.

module Sql {
  import opened Wrappers
  import opened Frames

  /** One step of SUM: a NULL contributes nothing, and NULL + NULL stays NULL. */
  function AddSkippingNull(x: Option<real>, acc: Option<real>): (r: Option<real>)
    ensures r.None? <==> x.None? && acc.None?
    ensures r.GetOr(0.0) == x.GetOr(0.0) + acc.GetOr(0.0)
  {
    match (x, acc)
    case (None, _) => acc
    case (Some(v), None) => Some(v)
    case (Some(v), Some(a)) => Some(v + a)
  }

  /** `SUM(e)`: the sum of the non-NULL values, and NULL when there is none (an empty table included). */
  function SqlSum(xs: seq<Option<real>>): (r: Option<real>)
    ensures r.None? <==> forall i | 0 <= i < |xs| :: xs[i].None?
  {
    if xs == [] then None else AddSkippingNull(xs[0], SqlSum(xs[1..]))
  }

  /** The non-NULL values of a column, in order. */
  function NonNull(xs: seq<Option<real>>): (r: seq<real>)
    ensures |r| <= |xs|
    ensures r == [] <==> forall i | 0 <= i < |xs| :: xs[i].None?
  {
    if xs == [] then []
    else if xs[0].Some? then [xs[0].value] + NonNull(xs[1..])
    else NonNull(xs[1..])
  }

  /** A column with NULL read as 0. */
  function NullAsZero(xs: seq<Option<real>>): seq<real> {
    seq(|xs|, i requires 0 <= i < |xs| => xs[i].GetOr(0.0))
  }

  /** `NULLIF(x, 0)`. */
  function NullIfZero(x: Option<real>): (r: Option<real>)
    ensures r.None? <==> x.None? || x == Some(0.0)
    ensures r.Some? ==> r == x && r.value != 0.0
  {
    if x == Some(0.0) then None else x
  }

  /**
   * `a / b` on nullable operands: NULL when either is NULL. The divisor is never 0,
   * because every query here guards it with NULLIF. The division is real division:
   * were `amount` an integer column, PostgreSQL would divide two integers with
   * truncation instead.
   */
  function Divide(a: Option<real>, b: Option<real>): (r: Option<real>)
    requires b != Some(0.0)
    ensures r.None? <==> a.None? || b.None?
    ensures r.Some? ==> r.value * b.value == a.value
  {
    if a.Some? && b.Some? then Some(a.value / b.value) else None
  }

  /** `a - b` on nullable operands: NULL when either is NULL. */
  function Subtract(a: Option<real>, b: Option<real>): (r: Option<real>)
    ensures r.None? <==> a.None? || b.None?
    ensures r.Some? ==> r.value + b.value == a.value
  {
    if a.Some? && b.Some? then Some(a.value - b.value) else None
  }

  /** The non-NULL values of an integer column, as a set: what `COUNT(DISTINCT e)` counts. */
  function Distinct(xs: seq<Option<int>>): (r: set<int>)
    ensures forall v :: v in r <==> Some(v) in xs
    ensures r == {} <==> forall i | 0 <= i < |xs| :: xs[i].None?
  {
    var r := set i | 0 <= i < |xs| && xs[i].Some? :: xs[i].value;
    assert forall i | 0 <= i < |xs| && xs[i].Some? :: xs[i].value in r;
    r
  }

  /** The number of rows whose value is `v`: `COUNT(*)` of the group `v` under `GROUP BY`. */
  function Occurrences<T(==)>(xs: seq<T>, v: T): (n: nat)
    ensures n <= |xs|
    ensures n == 0 <==> v !in xs
  {
    if xs == [] then 0
    else (if xs[0] == v then 1 else 0) + Occurrences(xs[1..], v)
  }

  /** `COALESCE(SUM(e), 0)` is the sum of the non-NULL values, 0 when there is none. */
  lemma {:induction false} SumOfNonNull(xs: seq<Option<real>>)
    ensures SqlSum(xs).GetOr(0.0) == Sum(NonNull(xs))
  {
    if xs != [] {
      SumOfNonNull(xs[1..]);
    }
  }

  /** `COALESCE(SUM(e), 0)` is also the plain sum with NULL read as 0. */
  lemma {:induction false} SumNullAsZero(xs: seq<Option<real>>)
    ensures SqlSum(xs).GetOr(0.0) == Sum(NullAsZero(xs))
  {
    if xs != [] {
      SumNullAsZero(xs[1..]);
      assert NullAsZero(xs) == [xs[0].GetOr(0.0)] + NullAsZero(xs[1..]);
    }
  }

  /** `COALESCE(SUM(e), 0)` over the union of two groups of rows is the sum of the two. */
  lemma {:induction false} SumAppend(xs: seq<Option<real>>, ys: seq<Option<real>>)
    ensures SqlSum(xs + ys).GetOr(0.0) == SqlSum(xs).GetOr(0.0) + SqlSum(ys).GetOr(0.0)
  {
    if xs == [] {
      assert xs + ys == ys;
    } else {
      assert (xs + ys)[1..] == xs[1..] + ys;
      SumAppend(xs[1..], ys);
    }
  }
}
