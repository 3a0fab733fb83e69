/**
 * The "insights" panel of the dashboard: up to four gated comparisons over
 * the all-time points, of which the first three are shown, or a single
 * "not enough data" card when none qualifies.
 */
module Insights {
  import opened JsonValue
  import opened Stats
  import opened Projection
  import opened Analytics
  import opened Sorting

  /** `MIN_N`: the smallest group a comparison is drawn from. */
  const MIN_N: nat := 4

  /** One card of the panel, with the numbers its text shows. */
  datatype Insight =
    | CaffeineSleep(delta: Option<real>)
    | ScreenSleep(delta: Option<real>)
    | StressFocusSymptoms(focusDelta: Option<real>, symptomDelta: Option<real>)
    | PhaseFocus(best: Phase, worst: Phase, gap: real)
    | NotEnoughData

  /** The sleep-quality column of the points a test accepts. */
  function SleepOf(data: seq<DataPoint>, keep: Keep): seq<Option<real>> {
    Column(Where(data, keep), SleepQ)
  }

  /**
   * Sleep quality without evening caffeine against with it: shown only when
   * both sides hold at least `MIN_N` numbers, and then the difference of
   * the two means is defined.
   */
  function CaffeineInsight(data: seq<DataPoint>): (r: Option<Insight>)
    ensures var eve := SleepOf(data, EveningCaffeine(true));
      var notEve := SleepOf(data, EveningCaffeine(false));
      && (r.Some? <==> CountValid(eve) >= MIN_N && CountValid(notEve) >= MIN_N)
      && (r.Some? ==>
            r.value.CaffeineSleep? && r.value.delta.Some? && r.value.delta.value == Avg(notEve).value - Avg(eve).value)
  {
    var eve := SleepOf(data, EveningCaffeine(true));
    var notEve := SleepOf(data, EveningCaffeine(false));
    if CountValid(eve) >= MIN_N && CountValid(notEve) >= MIN_N then Some(CaffeineSleep(DiffMeans(notEve, eve)))
    else None
  }

  /** Sleep quality without a late screen against with one, gated in the same way. */
  function ScreenInsight(data: seq<DataPoint>): (r: Option<Insight>)
    ensures var late := SleepOf(data, LateScreen(true));
      var notLate := SleepOf(data, LateScreen(false));
      && (r.Some? <==> CountValid(late) >= MIN_N && CountValid(notLate) >= MIN_N)
      && (r.Some? ==>
            r.value.ScreenSleep? && r.value.delta.Some? && r.value.delta.value == Avg(notLate).value - Avg(late).value)
  {
    var late := SleepOf(data, LateScreen(true));
    var notLate := SleepOf(data, LateScreen(false));
    if CountValid(late) >= MIN_N && CountValid(notLate) >= MIN_N then Some(ScreenSleep(DiffMeans(notLate, late)))
    else None
  }

  /**
   * Focus at low stress against high stress, and symptom load the other way
   * round. The gate counts the points of each group, not the numbers in
   * them, so a shown card may carry undefined differences.
   */
  function StressInsight(data: seq<DataPoint>): (r: Option<Insight>)
    ensures r.Some? <==> |Where(data, HighStress)| >= MIN_N && |Where(data, LowStress)| >= MIN_N
    ensures r.Some? ==> r.value.StressFocusSymptoms?
    ensures r.Some? ==>
      && r.value.focusDelta == DiffMeans(Column(Where(data, LowStress), Focus), Column(Where(data, HighStress), Focus))
      && r.value.symptomDelta == DiffMeans(Column(Where(data, HighStress), SymptomLoad), Column(Where(data, LowStress), SymptomLoad))
  {
    var high := Where(data, HighStress);
    var low := Where(data, LowStress);
    if |high| >= MIN_N && |low| >= MIN_N then
      Some(StressFocusSymptoms(
        DiffMeans(Column(low, Focus), Column(high, Focus)),
        DiffMeans(Column(high, SymptomLoad), Column(low, SymptomLoad))))
    else None
  }

  /** Some point of `data` carries score `m`. */
  predicate HasScore(data: seq<DataPoint>, m: Metric) {
    exists i :: 0 <= i < |data| && Value(data[i], m).Some?
  }

  /** A column has a mean exactly when some point carries that score. */
  lemma ColumnDefined(data: seq<DataPoint>, m: Metric)
    ensures Avg(Column(data, m)).Some? <==> HasScore(data, m)
  {
    var c := Column(data, m);
    assert forall i :: 0 <= i < |data| ==> c[i] == Value(data[i], m);
  }

  /**
   * A shown stress card has a focus difference exactly when both groups
   * hold a focus score, and a symptom difference exactly when both hold a
   * symptom score.
   */
  lemma StressCardDefined(data: seq<DataPoint>)
    requires StressInsight(data).Some?
    ensures var high := Where(data, HighStress);
      var low := Where(data, LowStress);
      var r := StressInsight(data).value;
      && (r.focusDelta.Some? <==> HasScore(high, Focus) && HasScore(low, Focus))
      && (r.symptomDelta.Some? <==> HasScore(high, SymptomLoad) && HasScore(low, SymptomLoad))
  {
    var high := Where(data, HighStress);
    var low := Where(data, LowStress);
    var focusDelta := DiffMeans(Column(low, Focus), Column(high, Focus));
    var symptomDelta := DiffMeans(Column(high, SymptomLoad), Column(low, SymptomLoad));
    assert StressInsight(data).value == StressFocusSymptoms(focusDelta, symptomDelta);
    ColumnDefined(high, Focus);
    ColumnDefined(low, Focus);
    ColumnDefined(high, SymptomLoad);
    ColumnDefined(low, SymptomLoad);
  }

  /** `phaseAvg.filter(p => p.focus != null)` */
  function FocusDefined(avgs: seq<PhaseAverage>): (r: seq<PhaseAverage>)
    ensures forall i :: 0 <= i < |r| ==> r[i].focus.Some?
    ensures forall a :: a in r <==> a in avgs && a.focus.Some?
  {
    if avgs == [] then []
    else
      var front := avgs[..|avgs| - 1];
      var last := avgs[|avgs| - 1];
      assert avgs == front + [last];
      FocusDefined(front) + (if last.focus.Some? then [last] else [])
  }

  /** The sort key of `(a, b) => b.focus - a.focus`. */
  function FocusKey(a: PhaseAverage): real {
    if a.focus.Some? then a.focus.value else 0.0
  }

  /** The sort key of `(a, b) => a.focus - b.focus`, as a descending key. */
  function LowFocusKey(a: PhaseAverage): real {
    -FocusKey(a)
  }

  /**
   * The phase card drawn from the phases that have a focus mean: the head of
   * the copy sorted by descending focus against the head of the copy sorted
   * by ascending focus, shown when there are two such phases and the gap is
   * at least half a point.
   */
  function PhaseCard(focusPhases: seq<PhaseAverage>): (r: Option<Insight>)
    ensures r.Some? ==> r.value.PhaseFocus? && r.value.gap >= 0.5
    ensures r.Some? ==> |focusPhases| >= 2
  {
    if |focusPhases| >= 2 then
      var best := SortDesc(focusPhases, FocusKey)[0];
      var worst := SortDesc(focusPhases, LowFocusKey)[0];
      var gap := FocusKey(best) - FocusKey(worst);
      if gap >= 0.5 then Some(PhaseFocus(best.phase, worst.phase, gap)) else None
    else None
  }

  function PhaseInsight(data: seq<DataPoint>): (r: Option<Insight>)
    ensures r.Some? ==> r.value.PhaseFocus?
  {
    PhaseCard(FocusDefined(PhaseAverages(data)))
  }

  /** `opt ? [opt] : []` */
  function Listed(o: Option<Insight>): (r: seq<Insight>)
    ensures o.Some? ==> r == [o.value]
    ensures o.None? ==> r == []
  {
    if o.Some? then [o.value] else []
  }

  /** `if (card) insights.push(card)` */
  method PushCard(insights: seq<Insight>, card: Option<Insight>) returns (pushed: seq<Insight>)
    ensures pushed == insights + Listed(card)
  {
    pushed := insights;
    if card.Some? {
      pushed := pushed + [card.value];
    } else {
      assert insights + [] == insights;
    }
  }

  /** Every insight that qualifies, in the order they are pushed. */
  function Candidates(data: seq<DataPoint>): seq<Insight> {
    Listed(CaffeineInsight(data)) + Listed(ScreenInsight(data)) + Listed(StressInsight(data)) + Listed(PhaseInsight(data))
  }

  /** `insights.slice(0, 3)`, or the placeholder card when it is empty. */
  function ShownOf(candidates: seq<Insight>): (r: seq<Insight>)
    ensures 1 <= |r| <= 3
    ensures candidates == [] ==> r == [NotEnoughData]
    ensures candidates != [] ==> |r| == (if |candidates| < 3 then |candidates| else 3) && r == candidates[..|r|]
  {
    if candidates == [] then [NotEnoughData]
    else if |candidates| > 3 then candidates[..3]
    else candidates
  }

  /** The cards shown for the data. */
  function Shown(data: seq<DataPoint>): seq<Insight> {
    ShownOf(Candidates(data))
  }

  /**
   * The phase block of `renderInsights`: the phases with a focus mean, and
   * the heads of their two sorted copies.
   */
  method PhaseFocusCard(phaseAvg: seq<PhaseAverage>) returns (card: Option<Insight>)
    ensures card == PhaseCard(FocusDefined(phaseAvg))
  {
    var focusPhases := FocusDefined(phaseAvg);
    card := None;
    if |focusPhases| >= 2 {
      var best := SortDesc(focusPhases, FocusKey)[0];
      var worst := SortDesc(focusPhases, LowFocusKey)[0];
      var delta := FocusKey(best) - FocusKey(worst);
      if delta >= 0.5 {
        card := Some(PhaseFocus(best.phase, worst.phase, delta));
      }
    }
  }

  /**
   * The computation of `renderInsights`: each comparison whose gate opens
   * pushes its card, in the order of the source, then the first three are
   * kept.
   */
  method RenderInsights(data: seq<DataPoint>) returns (shown: seq<Insight>)
    ensures shown == Shown(data)
  {
    var insights: seq<Insight> := [];
    insights := PushCard(insights, CaffeineInsight(data));
    assert insights == Listed(CaffeineInsight(data));
    insights := PushCard(insights, ScreenInsight(data));
    insights := PushCard(insights, StressInsight(data));
    var phaseAvg := ComputePhaseAverages(data);
    var phaseCard := PhaseFocusCard(phaseAvg);
    insights := PushCard(insights, phaseCard);
    shown := ShownOf(insights);
  }

  // ---- What the panel promises ----

  /** No card is pushed twice and the placeholder is never pushed: at most four candidates. */
  lemma CandidatesShape(data: seq<DataPoint>)
    ensures |Candidates(data)| <= 4
    ensures NotEnoughData !in Candidates(data)
  {
    assert NotEnoughData !in Listed(CaffeineInsight(data));
    assert NotEnoughData !in Listed(ScreenInsight(data));
    assert NotEnoughData !in Listed(StressInsight(data));
    assert NotEnoughData !in Listed(PhaseInsight(data));
  }

  /** One to three cards; the placeholder exactly when nothing qualifies, and otherwise the leading candidates. */
  lemma ShownBounds(candidates: seq<Insight>)
    requires NotEnoughData !in candidates
    ensures 1 <= |ShownOf(candidates)| <= 3
    ensures ShownOf(candidates) == [NotEnoughData] <==> candidates == []
    ensures candidates != [] ==>
      |ShownOf(candidates)| == (if |candidates| < 3 then |candidates| else 3) &&
      ShownOf(candidates) == candidates[..|ShownOf(candidates)|]
  {
    if candidates != [] {
      assert ShownOf(candidates)[0] == candidates[0];
    }
  }

  /** Fewer than `MIN_N` evening-caffeine points can never show the caffeine card, whatever else is logged. */
  lemma FewEveningsNoCaffeineCard(data: seq<DataPoint>)
    requires |Where(data, EveningCaffeine(true))| < MIN_N
    ensures CaffeineInsight(data).None?
    ensures CaffeineSleep(Some(0.0)) !in Candidates(data) && forall d :: CaffeineSleep(d) !in Candidates(data)
  {
    var c := Candidates(data);
    forall d
      ensures CaffeineSleep(d) !in c
    {
      assert CaffeineSleep(d) !in Listed(ScreenInsight(data));
      assert CaffeineSleep(d) !in Listed(StressInsight(data));
      assert CaffeineSleep(d) !in Listed(PhaseInsight(data));
    }
  }

  lemma AvgOfFour(a: real, b: real, c: real, d: real)
    ensures CountValid([Some(a), Some(b), Some(c), Some(d)]) == 4
    ensures Avg([Some(a), Some(b), Some(c), Some(d)]) == Some((a + b + c + d) / 4.0)
  {
    var x1: seq<Option<real>> := [Some(a)];
    var x2 := x1 + [Some(b)];
    var x3 := x2 + [Some(c)];
    var x4 := x3 + [Some(d)];
    assert x4 == [Some(a), Some(b), Some(c), Some(d)];
    assert x1[..0] == [];
    assert ValidValues(x1) == [a];
    assert x2[..1] == x1;
    assert ValidValues(x2) == [a, b];
    assert x3[..2] == x2;
    assert ValidValues(x3) == [a, b, c];
    assert x4[..3] == x3;
    assert ValidValues(x4) == [a, b, c, d];
    var v1 := [a];
    var v2 := v1 + [b];
    var v3 := v2 + [c];
    var v4 := v3 + [d];
    assert v4 == [a, b, c, d];
    assert v1[..0] == [];
    assert Sum(v1) == a;
    assert v2[..1] == v1;
    assert Sum(v2) == a + b;
    assert v3[..2] == v2;
    assert Sum(v3) == a + b + c;
    assert v4[..3] == v3;
    assert Sum(v4) == a + b + c + d;
  }

  /** Evening sleep 8, 7, 6, 5 against 9, 8, 9, 8 otherwise: the card shows a difference of 2. */
  lemma CaffeineExample(data: seq<DataPoint>)
    requires SleepOf(data, EveningCaffeine(true)) == [Some(8.0), Some(7.0), Some(6.0), Some(5.0)]
    requires SleepOf(data, EveningCaffeine(false)) == [Some(9.0), Some(8.0), Some(9.0), Some(8.0)]
    ensures CaffeineInsight(data) == Some(CaffeineSleep(Some(2.0)))
    ensures Candidates(data)[0] == CaffeineSleep(Some(2.0))
  {
    AvgOfFour(8.0, 7.0, 6.0, 5.0);
    AvgOfFour(9.0, 8.0, 9.0, 8.0);
  }

  /** No point is in both stress groups. */
  lemma StressGroupsDisjoint(data: seq<DataPoint>, x: DataPoint)
    ensures !(x in Where(data, HighStress) && x in Where(data, LowStress))
  {
    WhereKeepsExactly(data, HighStress, x);
    WhereKeepsExactly(data, LowStress, x);
  }

  /** The card compares phase `fp[i]`, the first with the highest focus mean, with `fp[j]`, the first with the lowest. */
  predicate CardFor(fp: seq<PhaseAverage>, i: int, j: int, card: Insight)
    requires forall k :: 0 <= k < |fp| ==> fp[k].focus.Some?
  {
    && IsFirstMax(fp, FocusKey, i)
    && IsFirstMax(fp, LowFocusKey, j)
    && card == PhaseFocus(fp[i].phase, fp[j].phase, fp[i].focus.value - fp[j].focus.value)
    && card.gap >= 0.5
  }

  /** The phase card compares the first highest focus mean with the first lowest, in chart order. */
  lemma PhaseCardChoice(fp: seq<PhaseAverage>)
    requires forall i :: 0 <= i < |fp| ==> fp[i].focus.Some?
    requires PhaseCard(fp).Some?
    ensures exists i, j :: CardFor(fp, i, j, PhaseCard(fp).value)
  {
    HeadIsFirstMax(fp, FocusKey);
    HeadIsFirstMax(fp, LowFocusKey);
    var i :| IsFirstMax(fp, FocusKey, i) && fp[i] == SortDesc(fp, FocusKey)[0];
    var j :| IsFirstMax(fp, LowFocusKey, j) && fp[j] == SortDesc(fp, LowFocusKey)[0];
    var gap := fp[i].focus.value - fp[j].focus.value;
    assert FocusKey(fp[i]) - FocusKey(fp[j]) == gap;
    assert PhaseCard(fp) == Some(PhaseFocus(fp[i].phase, fp[j].phase, gap));
    assert CardFor(fp, i, j, PhaseCard(fp).value);
  }

  /**
   * The phase card appears exactly when two phases have focus means at
   * least half a point apart.
   */
  lemma PhaseCardGate(fp: seq<PhaseAverage>)
    requires forall i :: 0 <= i < |fp| ==> fp[i].focus.Some?
    ensures PhaseCard(fp).Some? <==>
      exists i, j :: 0 <= i < |fp| && 0 <= j < |fp| && fp[i].focus.value - fp[j].focus.value >= 0.5
  {
    if PhaseCard(fp).Some? {
      PhaseCardChoice(fp);
    } else if exists i, j :: 0 <= i < |fp| && 0 <= j < |fp| && fp[i].focus.value - fp[j].focus.value >= 0.5 {
      var i, j :| 0 <= i < |fp| && 0 <= j < |fp| && fp[i].focus.value - fp[j].focus.value >= 0.5;
      PhaseGapShows(fp, i, j);
      assert false;
    }
  }

  lemma PhaseGapShows(fp: seq<PhaseAverage>, i: nat, j: nat)
    requires forall k :: 0 <= k < |fp| ==> fp[k].focus.Some?
    requires i < |fp| && j < |fp| && fp[i].focus.value - fp[j].focus.value >= 0.5
    ensures PhaseCard(fp).Some?
  {
    assert i != j;
    HeadIsFirstMax(fp, FocusKey);
    HeadIsFirstMax(fp, LowFocusKey);
    var best := SortDesc(fp, FocusKey)[0];
    var worst := SortDesc(fp, LowFocusKey)[0];
    assert FocusKey(fp[i]) <= FocusKey(best);
    assert LowFocusKey(fp[j]) <= LowFocusKey(worst);
  }
}
