/**
 * Means over columns that may hold nulls, and the one-decimal display of a
 * mean. Scores are integers, so exact real arithmetic stands in for the
 * source's floating point.
 */
module Stats {
  import opened JsonValue

  /** The numbers of a column, nulls dropped, in order. */
  function ValidValues(xs: seq<Option<real>>): (r: seq<real>)
    ensures |r| <= |xs|
    ensures |r| == 0 <==> forall i :: 0 <= i < |xs| ==> xs[i].None?
  {
    if xs == [] then []
    else
      var front := ValidValues(xs[..|xs| - 1]);
      assert forall i :: 0 <= i < |xs| - 1 ==> xs[..|xs| - 1][i] == xs[i];
      if xs[|xs| - 1].Some? then front + [xs[|xs| - 1].value] else front
  }

  /** `countValid`: how many entries of the column are numbers. */
  function CountValid(xs: seq<Option<real>>): (n: nat)
    ensures n <= |xs|
    ensures n == 0 <==> forall i :: 0 <= i < |xs| ==> xs[i].None?
  {
    |ValidValues(xs)|
  }

  function Sum(rs: seq<real>): real {
    if rs == [] then 0.0 else Sum(rs[..|rs| - 1]) + rs[|rs| - 1]
  }

  /**
   * `avg`: null exactly when the column holds no number, otherwise the sum
   * of its numbers over their count (never over the column's length).
   */
  function Avg(xs: seq<Option<real>>): (r: Option<real>)
    ensures r.None? <==> forall i :: 0 <= i < |xs| ==> xs[i].None?
    ensures r.Some? ==> r.value * (CountValid(xs) as real) == Sum(ValidValues(xs))
  {
    var n := CountValid(xs);
    if n == 0 then None else Some(Sum(ValidValues(xs)) / (n as real))
  }

  /** `diffMeans(a, b)`: mean of `a` minus mean of `b`, null when either mean is. */
  function DiffMeans(a: seq<Option<real>>, b: seq<Option<real>>): (r: Option<real>)
    ensures r.Some? <==> Avg(a).Some? && Avg(b).Some?
    ensures r.Some? ==> r.value + Avg(b).value == Avg(a).value
  {
    var av := Avg(a);
    var bv := Avg(b);
    if av.None? || bv.None? then None else Some(av.value - bv.value)
  }

  /** The numbers of a column, kept as a column (what the source pushes into per-group arrays). */
  function OnlyValid(xs: seq<Option<real>>): (r: seq<Option<real>>)
    ensures forall i :: 0 <= i < |r| ==> r[i].Some?
  {
    if xs == [] then []
    else OnlyValid(xs[..|xs| - 1]) + (if xs[|xs| - 1].Some? then [xs[|xs| - 1]] else [])
  }

  lemma {:induction false} OnlyValidValues(xs: seq<Option<real>>)
    ensures ValidValues(OnlyValid(xs)) == ValidValues(xs)
  {
    if xs != [] {
      var front := xs[..|xs| - 1];
      OnlyValidValues(front);
      var tail := if xs[|xs| - 1].Some? then [xs[|xs| - 1]] else [];
      ValidValuesAppend(OnlyValid(front), tail);
    }
  }

  lemma {:induction false} ValidValuesAppend(a: seq<Option<real>>, b: seq<Option<real>>)
    ensures ValidValues(a + b) == ValidValues(a) + ValidValues(b)
  {
    if b != [] {
      var ab := a + b;
      assert ab[..|ab| - 1] == a + b[..|b| - 1];
      ValidValuesAppend(a, b[..|b| - 1]);
    } else {
      assert a + b == a;
    }
  }

  /** Dropping the nulls before averaging changes nothing: the mean only ever sees numbers. */
  lemma AvgOfOnlyValid(xs: seq<Option<real>>)
    ensures Avg(OnlyValid(xs)) == Avg(xs)
  {
    OnlyValidValues(xs);
  }

  lemma {:induction false} SumBounds(rs: seq<real>, lo: real, hi: real)
    requires forall i :: 0 <= i < |rs| ==> lo <= rs[i] <= hi
    ensures lo * (|rs| as real) <= Sum(rs) <= hi * (|rs| as real)
  {
    if rs != [] {
      SumBounds(rs[..|rs| - 1], lo, hi);
    }
  }

  lemma {:induction false} ValidValuesFrom(xs: seq<Option<real>>, lo: real, hi: real)
    requires forall i :: 0 <= i < |xs| && xs[i].Some? ==> lo <= xs[i].value <= hi
    ensures forall i :: 0 <= i < |ValidValues(xs)| ==> lo <= ValidValues(xs)[i] <= hi
  {
    if xs != [] {
      ValidValuesFrom(xs[..|xs| - 1], lo, hi);
    }
  }

  /** A mean lies between any bounds every number of the column respects. */
  lemma AvgWithinBounds(xs: seq<Option<real>>, lo: real, hi: real)
    requires forall i :: 0 <= i < |xs| && xs[i].Some? ==> lo <= xs[i].value <= hi
    requires Avg(xs).Some?
    ensures lo <= Avg(xs).value <= hi
  {
    var vs := ValidValues(xs);
    var n := |vs| as real;
    ValidValuesFrom(xs, lo, hi);
    SumBounds(vs, lo, hi);
    var r := Avg(xs).value;
    QuotientBounds(r, n, Sum(vs), lo, hi);
  }

  lemma QuotientBounds(r: real, n: real, s: real, lo: real, hi: real)
    requires n > 0.0 && r * n == s && lo * n <= s <= hi * n
    ensures lo <= r <= hi
  {
    assert (r - lo) * n == s - lo * n;
    assert (hi - r) * n == hi * n - s;
    NonNegativeFactor(r - lo, n);
    NonNegativeFactor(hi - r, n);
  }

  lemma NonNegativeFactor(a: real, n: real)
    requires n > 0.0 && a * n >= 0.0
    ensures a >= 0.0
  {
  }

  /** `[null, 3, null, 7]` has two numbers and mean 5. */
  lemma AvgExample()
    ensures CountValid([None, Some(3.0), None, Some(7.0)]) == 2
    ensures Avg([None, Some(3.0), None, Some(7.0)]) == Some(5.0)
  {
    var x1: seq<Option<real>> := [None];
    var x2 := x1 + [Some(3.0)];
    var x3 := x2 + [None];
    var x4 := x3 + [Some(7.0)];
    assert x4 == [None, Some(3.0), None, Some(7.0)];
    assert x1[..0] == [];
    assert ValidValues(x1) == [];
    assert x2[..1] == x1;
    assert ValidValues(x2) == [3.0];
    assert x3[..2] == x2;
    assert ValidValues(x3) == [3.0];
    assert x4[..3] == x3;
    assert ValidValues(x4) == [3.0, 7.0];
    assert [3.0, 7.0][..1] == [3.0];
    assert Sum([3.0, 7.0]) == 10.0;
  }

  /** What `fmt` shows: a dash for null, otherwise a number of tenths. */
  datatype Display = Dash | Tenths(k: int)

  /** `Math.round(v * 10)`: JavaScript rounds halves up. */
  function RoundTenths(v: real): (k: int)
    ensures (k as real) / 10.0 - 0.05 <= v < (k as real) / 10.0 + 0.05
  {
    (10.0 * v + 0.5).Floor
  }

  /** `fmt`: a null mean shows as a dash, never as 0 or NaN; a number shows rounded to one decimal. */
  function Fmt(v: Option<real>): (d: Display)
    ensures d.Dash? <==> v.None?
    ensures v.Some? ==> (d.k as real) / 10.0 - 0.05 <= v.value < (d.k as real) / 10.0 + 0.05
  {
    if v.None? then Dash else Tenths(RoundTenths(v.value))
  }
}
