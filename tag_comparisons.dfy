/**
 * The tag comparison panel of the dashboard: for every food tag and every
 * score, the mean on days with the tag against days without it, kept when
 * both sides hold enough numbers, ordered by the size of the shown
 * difference, at most ten rows.
 */
module TagComparisons {
  import opened JsonValue
  import opened Stats
  import opened Projection
  import opened Analytics
  import opened Sorting

  /** `MIN_N`: the smallest number of scores on either side of a row. */
  const MIN_N: nat := 4

  /** How many rows the panel shows at most. */
  const MAX_ROWS: nat := 10

  /** `FOOD_TAGS`, in the order of the list. */
  const FOOD_TAGS: seq<FoodTag> := [Sugar, Alcohol, LateMeal, HighCarb, HighProtein, UltraProcessed, HighFiber, Spicy, Hydrated]

  /** The scores compared, in the order of the panel's `metrics` list. */
  const METRICS: seq<Metric> := [Focus, SleepQ, SymptomLoad, Energy]

  function TagIndex(t: FoodTag): (i: nat)
    ensures i < |FOOD_TAGS| && FOOD_TAGS[i] == t
  {
    match t
    case Sugar => 0
    case Alcohol => 1
    case LateMeal => 2
    case HighCarb => 3
    case HighProtein => 4
    case UltraProcessed => 5
    case HighFiber => 6
    case Spicy => 7
    case Hydrated => 8
  }

  function MetricIndex(m: Metric): (i: nat)
    ensures i < |METRICS| && METRICS[i] == m
  {
    match m
    case Focus => 0
    case SleepQ => 1
    case SymptomLoad => 2
    case Energy => 3
  }

  /** One comparison row: the two means and counts it shows, and their difference. */
  datatype TagRow = TagRow(
    tag: FoodTag,
    metric: Metric,
    onMean: real,
    onCount: nat,
    offMean: real,
    offCount: nat,
    delta: real)

  /** The score column of the days carrying the tag (`yes`) or not carrying it. */
  function Side(data: seq<DataPoint>, t: FoodTag, m: Metric, yes: bool): seq<Option<real>> {
    Column(Where(data, WithTag(t, yes)), m)
  }

  /**
   * The row of tag `t` and score `m` given its two columns: present exactly
   * when both hold at least `MIN_N` numbers, and then carrying both means,
   * both counts and the difference of the means.
   */
  function RowOf(t: FoodTag, m: Metric, on: seq<Option<real>>, off: seq<Option<real>>): (r: Option<TagRow>)
    ensures r.Some? <==> CountValid(on) >= MIN_N && CountValid(off) >= MIN_N
    ensures r.Some? ==>
      && r.value.tag == t && r.value.metric == m
      && Avg(on) == Some(r.value.onMean) && r.value.onCount == CountValid(on)
      && Avg(off) == Some(r.value.offMean) && r.value.offCount == CountValid(off)
      && r.value.delta == r.value.onMean - r.value.offMean
  {
    var nOn := CountValid(on);
    var nOff := CountValid(off);
    if nOn >= MIN_N && nOff >= MIN_N then
      var onMean := Avg(on).value;
      var offMean := Avg(off).value;
      Some(TagRow(t, m, onMean, nOn, offMean, nOff, onMean - offMean))
    else None
  }

  /** The row of tag `t` and score `m` over a set of days. */
  function RowFor(data: seq<DataPoint>, t: FoodTag, m: Metric): Option<TagRow> {
    RowOf(t, m, Side(data, t, m, true), Side(data, t, m, false))
  }

  function RowList(o: Option<TagRow>): (r: seq<TagRow>)
    ensures o.Some? ==> r == [o.value]
    ensures o.None? ==> r == []
  {
    if o.Some? then [o.value] else []
  }

  /** A table of cells: the row, if any, of each tag and score. */
  type Table = (FoodTag, Metric) -> Option<TagRow>

  /** The table of a set of days. */
  function TableOf(data: seq<DataPoint>): Table {
    (t: FoodTag, m: Metric) => RowFor(data, t, m)
  }

  /** Every row of the table sits in the cell of its own tag and score. */
  predicate Labelled(cells: Table) {
    forall t: FoodTag, m: Metric :: cells(t, m).Some? ==> cells(t, m).value.tag == t && cells(t, m).value.metric == m
  }

  lemma TableLabelled(data: seq<DataPoint>)
    ensures Labelled(TableOf(data))
  {
    forall t: FoodTag, m: Metric | TableOf(data)(t, m).Some?
      ensures TableOf(data)(t, m).value.tag == t && TableOf(data)(t, m).value.metric == m
    {
      assert TableOf(data)(t, m) == RowFor(data, t, m);
    }
  }

  /** The rows of tag `t` for the first `n` scores. */
  function MetricRows(cells: Table, t: FoodTag, n: nat): seq<TagRow>
    requires n <= |METRICS|
  {
    if n == 0 then [] else MetricRows(cells, t, n - 1) + RowList(cells(t, METRICS[n - 1]))
  }

  /** The rows of the first `n` tags, each tag's rows in score order. */
  function TagRows(cells: Table, n: nat): seq<TagRow>
    requires n <= |FOOD_TAGS|
  {
    if n == 0 then [] else TagRows(cells, n - 1) + MetricRows(cells, FOOD_TAGS[n - 1], |METRICS|)
  }

  /** Every row that passes its gate, tag by tag, score by score. */
  function Rows(data: seq<DataPoint>): seq<TagRow> {
    TagRows(TableOf(data), |FOOD_TAGS|)
  }

  /**
   * `deltaAbs`: the absolute value of the difference as the row shows it,
   * read back from its one-decimal text; a dash reads as 0.
   */
  function DeltaAbs(d: Display): (v: real)
    ensures v >= 0.0
    ensures d.Tenths? && d.k >= 0 ==> v == d.k as real / 10.0
    ensures d.Tenths? && d.k < 0 ==> v == -d.k as real / 10.0
  {
    match d
    case Dash => 0.0
    case Tenths(k) => (if k < 0 then -k else k) as real / 10.0
  }

  /** The sort key of a row. */
  function DeltaKey(r: TagRow): (k: real)
    ensures k >= 0.0
    ensures k - 0.05 <= (if r.delta < 0.0 then -r.delta else r.delta) <= k + 0.05
  {
    DeltaAbs(Fmt(Some(r.delta)))
  }

  /** `rows.slice(0, 10)` */
  function FirstRows(sorted: seq<TagRow>): (shown: seq<TagRow>)
    ensures |shown| == if |sorted| < MAX_ROWS then |sorted| else MAX_ROWS
    ensures shown == sorted[..|shown|]
  {
    if |sorted| > MAX_ROWS then sorted[..MAX_ROWS] else sorted
  }

  /** The rows the panel shows; none stands for the "not enough data" card. */
  function Shown(data: seq<DataPoint>): seq<TagRow> {
    FirstRows(SortDesc(Rows(data), DeltaKey))
  }

  lemma MetricRowsStep(cells: Table, t: FoodTag, j: nat, prefix: seq<TagRow>)
    requires j < |METRICS|
    ensures cells(t, METRICS[j]).None? ==> prefix + MetricRows(cells, t, j + 1) == prefix + MetricRows(cells, t, j)
    ensures cells(t, METRICS[j]).Some? ==>
      prefix + MetricRows(cells, t, j + 1) == prefix + MetricRows(cells, t, j) + [cells(t, METRICS[j]).value]
  {
    assert MetricRows(cells, t, j) + [] == MetricRows(cells, t, j);
  }

  /** The body of the inner loop: the row of `t` and `m` is pushed when both of its columns are large enough. */
  method PushRow(t: FoodTag, m: Metric, on: seq<Option<real>>, off: seq<Option<real>>, before: seq<TagRow>)
    returns (rows: seq<TagRow>)
    ensures rows == before + RowList(RowOf(t, m, on, off))
  {
    rows := before;
    var nOn := CountValid(on);
    var nOff := CountValid(off);
    if nOn >= MIN_N && nOff >= MIN_N {
      var onMean := Avg(on).value;
      var offMean := Avg(off).value;
      rows := rows + [TagRow(t, m, onMean, nOn, offMean, nOff, onMean - offMean)];
    } else {
      assert before + [] == before;
    }
  }

  /**
   * One pass of the inner loop of `renderTagComparisons`: for each score, the
   * row of tag `t` is pushed when both of its sides are large enough.
   */
  method CompareTag(data: seq<DataPoint>, t: FoodTag, before: seq<TagRow>) returns (rows: seq<TagRow>)
    ensures rows == before + MetricRows(TableOf(data), t, |METRICS|)
  {
    ghost var cells := TableOf(data);
    rows := before;
    assert MetricRows(cells, t, 0) == [];
    for j := 0 to |METRICS|
      invariant rows == before + MetricRows(cells, t, j)
    {
      var m := METRICS[j];
      var on := Side(data, t, m, true);
      var off := Side(data, t, m, false);
      assert cells(t, m) == RowOf(t, m, on, off);
      MetricRowsStep(cells, t, j, before);
      rows := PushRow(t, m, on, off, rows);
    }
  }

  /**
   * The computation of `renderTagComparisons`: every tag is compared on
   * every score, then the rows are sorted by the size of their shown
   * difference and cut to ten.
   */
  method RenderTagComparisons(data: seq<DataPoint>) returns (shown: seq<TagRow>)
    ensures shown == Shown(data)
  {
    var rows: seq<TagRow> := [];
    for i := 0 to |FOOD_TAGS|
      invariant rows == TagRows(TableOf(data), i)
    {
      rows := CompareTag(data, FOOD_TAGS[i], rows);
    }
    var sorted := SortDesc(rows, DeltaKey);
    shown := FirstRows(sorted);
  }

  // ---- What the panel promises ----

  lemma {:induction false} MetricRowsMembers(cells: Table, t: FoodTag, n: nat, r: TagRow)
    requires n <= |METRICS|
    ensures r in MetricRows(cells, t, n) <==> exists j :: 0 <= j < n && cells(t, METRICS[j]) == Some(r)
  {
    if n > 0 {
      MetricRowsMembers(cells, t, n - 1, r);
    }
  }

  lemma {:induction false} TagRowsMembers(cells: Table, n: nat, r: TagRow)
    requires n <= |FOOD_TAGS|
    ensures r in TagRows(cells, n) <==> exists i :: 0 <= i < n && r in MetricRows(cells, FOOD_TAGS[i], |METRICS|)
  {
    if n > 0 {
      TagRowsMembers(cells, n - 1, r);
      var front, last := TagRows(cells, n - 1), MetricRows(cells, FOOD_TAGS[n - 1], |METRICS|);
      assert TagRows(cells, n) == front + last;
      if r in last {
        assert 0 <= n - 1 < n && r in MetricRows(cells, FOOD_TAGS[n - 1], |METRICS|);
      }
      if exists i :: 0 <= i < n && r in MetricRows(cells, FOOD_TAGS[i], |METRICS|) {
        var i :| 0 <= i < n && r in MetricRows(cells, FOOD_TAGS[i], |METRICS|);
        assert i < n - 1 ==> r in front;
      }
    }
  }

  /**
   * A row is listed exactly when its tag and score pass the gate, with the
   * numbers that tag and score give; so there is at most one row per tag
   * and score, and none unless both sides hold `MIN_N` numbers.
   */
  lemma RowsExactly(data: seq<DataPoint>, r: TagRow)
    ensures r in Rows(data) <==> RowFor(data, r.tag, r.metric) == Some(r)
  {
    var cells := TableOf(data);
    TagRowsMembers(cells, |FOOD_TAGS|, r);
    if r in Rows(data) {
      var i :| 0 <= i < |FOOD_TAGS| && r in MetricRows(cells, FOOD_TAGS[i], |METRICS|);
      MetricRowsMembers(cells, FOOD_TAGS[i], |METRICS|, r);
      var j :| 0 <= j < |METRICS| && cells(FOOD_TAGS[i], METRICS[j]) == Some(r);
      assert RowFor(data, FOOD_TAGS[i], METRICS[j]) == Some(r);
    }
    if RowFor(data, r.tag, r.metric) == Some(r) {
      var i := TagIndex(r.tag);
      MetricRowsMembers(cells, FOOD_TAGS[i], |METRICS|, r);
      assert cells(FOOD_TAGS[i], METRICS[MetricIndex(r.metric)]) == Some(r);
    }
  }

  /** The position of a row's tag and score in the tag-then-score order. */
  function Rank(r: TagRow): nat {
    TagIndex(r.tag) * |METRICS| + MetricIndex(r.metric)
  }

  predicate RanksIn(rows: seq<TagRow>, lo: nat, hi: nat) {
    && (forall p :: 0 <= p < |rows| ==> lo <= Rank(rows[p]) < hi)
    && (forall p, q :: 0 <= p < q < |rows| ==> Rank(rows[p]) < Rank(rows[q]))
  }

  lemma RanksAppend(a: seq<TagRow>, b: seq<TagRow>, lo: nat, mid: nat, hi: nat)
    requires lo <= mid <= hi && RanksIn(a, lo, mid) && RanksIn(b, mid, hi)
    ensures RanksIn(a + b, lo, hi)
  {
    var ab := a + b;
    forall p | 0 <= p < |ab|
      ensures lo <= Rank(ab[p]) < hi
    {
      if p < |a| {
        assert ab[p] == a[p];
      } else {
        assert ab[p] == b[p - |a|];
      }
    }
    forall p, q | 0 <= p < q < |ab|
      ensures Rank(ab[p]) < Rank(ab[q])
    {
      if q < |a| {
        assert ab[p] == a[p] && ab[q] == a[q];
      } else if p < |a| {
        assert ab[p] == a[p] && ab[q] == b[q - |a|];
      } else {
        assert ab[p] == b[p - |a|] && ab[q] == b[q - |a|];
      }
    }
  }

  lemma {:induction false} MetricRowsRanks(cells: Table, i: nat, n: nat)
    requires Labelled(cells)
    requires i < |FOOD_TAGS| && n <= |METRICS|
    ensures RanksIn(MetricRows(cells, FOOD_TAGS[i], n), i * |METRICS|, i * |METRICS| + n)
  {
    if n > 0 {
      var t := FOOD_TAGS[i];
      MetricRowsRanks(cells, i, n - 1);
      var cell := cells(t, METRICS[n - 1]);
      var last := RowList(cell);
      assert TagIndex(t) == i;
      assert MetricIndex(METRICS[n - 1]) == n - 1;
      if cell.Some? {
        assert Rank(cell.value) == i * |METRICS| + n - 1;
      }
      assert RanksIn(last, i * |METRICS| + n - 1, i * |METRICS| + n);
      RanksAppend(MetricRows(cells, t, n - 1), last, i * |METRICS|, i * |METRICS| + n - 1, i * |METRICS| + n);
    }
  }

  lemma {:induction false} TagRowsRanks(cells: Table, n: nat)
    requires Labelled(cells)
    requires n <= |FOOD_TAGS|
    ensures RanksIn(TagRows(cells, n), 0, n * |METRICS|)
  {
    if n > 0 {
      TagRowsRanks(cells, n - 1);
      MetricRowsRanks(cells, n - 1, |METRICS|);
      RanksAppend(TagRows(cells, n - 1), MetricRows(cells, FOOD_TAGS[n - 1], |METRICS|), 0, (n - 1) * |METRICS|, n * |METRICS|);
    }
  }

  /** Before sorting, rows run tag by tag in list order, and within a tag score by score. */
  lemma RowsInListOrder(data: seq<DataPoint>)
    ensures forall p, q :: 0 <= p < q < |Rows(data)| ==> Rank(Rows(data)[p]) < Rank(Rows(data)[q])
  {
    TableLabelled(data);
    TagRowsRanks(TableOf(data), |FOOD_TAGS|);
  }

  /**
   * The panel shows the first rows of the sorted copy: all of them when
   * there are fewer than ten, otherwise ten; nothing exactly when there is
   * no row. (`Shown(data)` is this cut of `Rows(data)`.)
   */
  lemma ShownIsPrefix(rows: seq<TagRow>)
    ensures var sorted := SortDesc(rows, DeltaKey);
      var shown := FirstRows(sorted);
      && |sorted| == |rows|
      && |shown| == (if |rows| < MAX_ROWS then |rows| else MAX_ROWS)
      && shown == sorted[..|shown|]
      && (shown == [] <==> rows == [])
  {
    var sorted := SortDesc(rows, DeltaKey);
    assert |sorted| == |multiset(sorted)| == |multiset(rows)| == |rows|;
  }

  /**
   * The sorted copy holds the same rows by descending shown difference, so
   * a row left out never has a larger difference than a row shown.
   */
  lemma ShownLargestFirst(rows: seq<TagRow>)
    ensures var sorted := SortDesc(rows, DeltaKey);
      && SortedDesc(sorted, DeltaKey)
      && multiset(sorted) == multiset(rows)
      && (forall p, q :: 0 <= p < |FirstRows(sorted)| <= q < |sorted| ==> DeltaKey(sorted[p]) >= DeltaKey(sorted[q]))
  {
    SortDescSorted(rows, DeltaKey);
  }

  /** Rows with equal shown differences keep their order (for `Rows(data)`, tag then score). */
  lemma ShownTiesInListOrder(rows: seq<TagRow>, k: real)
    ensures WithKey(SortDesc(rows, DeltaKey), DeltaKey, k) == WithKey(rows, DeltaKey, k)
  {
    SortDescStable(rows, DeltaKey, k);
  }

  /** A tag no day carries yields no row at all. */
  lemma UnusedTagHasNoRow(data: seq<DataPoint>, t: FoodTag, m: Metric)
    requires forall i :: 0 <= i < |data| ==> !Tagged(data[i].tags, t)
    ensures RowFor(data, t, m).None?
  {
    var on := Where(data, WithTag(t, true));
    if on != [] {
      WhereKeepsExactly(data, WithTag(t, true), on[0]);
      assert false;
    }
  }
}
