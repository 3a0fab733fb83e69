/**
 * Aggregates over the all-time points: the headline figures (mean scores
 * and minute totals) and the per-phase means of the cycle chart.
 */
module Analytics {
  import opened JsonValue
  import opened Stats
  import opened Projection

  /** The four scores the dashboard compares. */
  datatype Metric = Focus | SleepQ | SymptomLoad | Energy

  function Value(d: DataPoint, m: Metric): Option<real> {
    match m
    case Focus => d.focus
    case SleepQ => d.sleepQ
    case SymptomLoad => d.symptomLoad
    case Energy => d.energy
  }

  /** `data.map(d => d.<metric>)` */
  function Column(data: seq<DataPoint>, m: Metric): (c: seq<Option<real>>)
    ensures |c| == |data|
    ensures forall i :: 0 <= i < |data| ==> c[i] == Value(data[i], m)
  {
    if data == [] then [] else Column(data[..|data| - 1], m) + [Value(data[|data| - 1], m)]
  }

  datatype Phase = Menstrual | Follicular | Ovulation | Luteal

  /** The tags of `FOOD_TAGS`, in the order of the list. */
  datatype FoodTag = Sugar | Alcohol | LateMeal | HighCarb | HighProtein | UltraProcessed | HighFiber | Spicy | Hydrated

  function TagKey(t: FoodTag): string {
    match t
    case Sugar => "sugar"
    case Alcohol => "alcohol"
    case LateMeal => "lateMeal"
    case HighCarb => "highCarb"
    case HighProtein => "highProtein"
    case UltraProcessed => "ultraProcessed"
    case HighFiber => "highFiber"
    case Spicy => "spicy"
    case Hydrated => "hydrated"
  }

  /** `d.tags && d.tags[t.key]` */
  predicate Tagged(tags: Json, t: FoodTag) {
    Truthy(tags) && Truthy(Field(tags, TagKey(t)))
  }

  /** The tests the dashboard filters its points by. */
  datatype Keep =
    | PhaseIs(p: Phase)
    | EveningCaffeine(yes: bool)
    | LateScreen(yes: bool)
    | HighStress
    | LowStress
    | WithTag(t: FoodTag, yes: bool)

  predicate Holds(k: Keep, d: DataPoint) {
    match k
    case PhaseIs(p) => PhaseOf(d.phase) == Some(p)
    case EveningCaffeine(yes) => (d.caffeineTiming == JStr("evening")) == yes
    case LateScreen(yes) => d.screenLate == yes
    case HighStress => d.stress.Some? && d.stress.value >= 7.0
    case LowStress => d.stress.Some? && d.stress.value <= 3.0
    case WithTag(t, yes) => Tagged(d.tags, t) == yes
  }

  /** `data.filter(keep)`: the points the test accepts, in order. */
  function Where(data: seq<DataPoint>, keep: Keep): (r: seq<DataPoint>)
    ensures |r| <= |data|
  {
    if data == [] then []
    else
      var front := Where(data[..|data| - 1], keep);
      var x := data[|data| - 1];
      if Holds(keep, x) then front + [x] else front
  }

  lemma WhereAppend(data: seq<DataPoint>, x: DataPoint, keep: Keep)
    ensures Where(data + [x], keep) == Where(data, keep) + (if Holds(keep, x) then [x] else [])
  {
    assert (data + [x])[..|data|] == data;
  }

  lemma ColumnAppend(data: seq<DataPoint>, more: seq<DataPoint>, m: Metric)
    ensures Column(data + more, m) == Column(data, m) + Column(more, m)
  {
  }

  /** Every point the test accepts is kept, and nothing else. */
  lemma {:induction false} WhereKeepsExactly(data: seq<DataPoint>, keep: Keep, x: DataPoint)
    ensures x in Where(data, keep) <==> x in data && Holds(keep, x)
  {
    if data != [] {
      var front := data[..|data| - 1];
      WhereKeepsExactly(front, keep, x);
      assert data == front + [data[|data| - 1]];
    }
  }

  // ---- Headline figures ----

  /** `data.reduce((a, d) => a + (d.sportMin || 0), 0)` and the same for music. */
  function TotalMinutes(data: seq<DataPoint>, sport: bool): (t: real)
    ensures (forall i :: 0 <= i < |data| ==> data[i].sportMin >= 0.0 && data[i].musicMin >= 0.0) ==> t >= 0.0
  {
    if data == [] then 0.0
    else TotalMinutes(data[..|data| - 1], sport) + (if sport then data[|data| - 1].sportMin else data[|data| - 1].musicMin)
  }

  /** Totals over two stretches of data add up. */
  lemma {:induction false} TotalMinutesAdditive(a: seq<DataPoint>, b: seq<DataPoint>, sport: bool)
    ensures TotalMinutes(a + b, sport) == TotalMinutes(a, sport) + TotalMinutes(b, sport)
    decreases |b|
  {
    if b == [] {
      assert a + b == a;
    } else {
      var front := b[..|b| - 1];
      assert (a + b)[..|a + b| - 1] == a + front;
      TotalMinutesAdditive(a, front, sport);
    }
  }

  /** The six headline figures: four mean scores as shown, and the two minute totals. */
  datatype Kpis = Kpis(
    energy: Display,
    focus: Display,
    symptomLoad: Display,
    sleepQ: Display,
    sportMinutes: real,
    musicMinutes: real)

  function KpisOf(data: seq<DataPoint>): (k: Kpis)
    ensures k.energy.Dash? <==> forall i :: 0 <= i < |data| ==> data[i].energy.None?
    ensures k.focus.Dash? <==> forall i :: 0 <= i < |data| ==> data[i].focus.None?
    ensures k.symptomLoad.Dash? <==> forall i :: 0 <= i < |data| ==> data[i].symptomLoad.None?
    ensures k.sleepQ.Dash? <==> forall i :: 0 <= i < |data| ==> data[i].sleepQ.None?
  {
    KpiDash(data, Energy);
    KpiDash(data, Focus);
    KpiDash(data, SymptomLoad);
    KpiDash(data, SleepQ);
    Kpis(
      Fmt(Avg(Column(data, Energy))),
      Fmt(Avg(Column(data, Focus))),
      Fmt(Avg(Column(data, SymptomLoad))),
      Fmt(Avg(Column(data, SleepQ))),
      TotalMinutes(data, true),
      TotalMinutes(data, false))
  }

  /** A mean shows as a dash exactly when no point has that score. */
  lemma KpiDash(data: seq<DataPoint>, m: Metric)
    ensures Fmt(Avg(Column(data, m))).Dash? <==> forall i :: 0 <= i < |data| ==> Value(data[i], m).None?
  {
    var c := Column(data, m);
    assert forall i :: 0 <= i < |data| ==> c[i] == Value(data[i], m);
  }

  /** No data shows four dashes and zero minutes. */
  lemma KpisOfNothing()
    ensures KpisOf([]) == Kpis(Dash, Dash, Dash, Dash, 0.0, 0.0)
  {
  }

  // ---- Cycle phases ----

  /** `PHASES`, in the order of the chart. */
  const PHASES: seq<Phase> := [Menstrual, Follicular, Ovulation, Luteal]

  function PhaseKey(p: Phase): string {
    match p
    case Menstrual => "menstrual"
    case Follicular => "follicular"
    case Ovulation => "ovulation"
    case Luteal => "luteal"
  }

  function PhaseLabel(p: Phase): string {
    match p
    case Menstrual => "Menstruatie"
    case Follicular => "Folliculair"
    case Ovulation => "Ovulatie"
    case Luteal => "Luteaal"
  }

  /** `groups[d.phase]`: the phase whose key the point's phase names, if any. */
  function PhaseOf(v: Json): (r: Option<Phase>)
    ensures r.Some? ==> v == JStr(PhaseKey(r.value))
    ensures r.None? ==> forall p :: v != JStr(PhaseKey(p))
  {
    if v == JStr("menstrual") then Some(Menstrual)
    else if v == JStr("follicular") then Some(Follicular)
    else if v == JStr("ovulation") then Some(Ovulation)
    else if v == JStr("luteal") then Some(Luteal)
    else None
  }

  /** The points logged in phase `p`. */
  function InPhase(data: seq<DataPoint>, p: Phase): seq<DataPoint> {
    Where(data, PhaseIs(p))
  }

  /** One bar group of the cycle chart. */
  datatype PhaseAverage = PhaseAverage(phase: Phase, energy: Option<real>, focus: Option<real>, sleepQ: Option<real>)

  function AverageIn(data: seq<DataPoint>, p: Phase): PhaseAverage {
    var g := InPhase(data, p);
    PhaseAverage(p, Avg(Column(g, Energy)), Avg(Column(g, Focus)), Avg(Column(g, SleepQ)))
  }

  /** What `computePhaseAverages` returns: one record per phase, in the fixed order. */
  function PhaseAverages(data: seq<DataPoint>): (r: seq<PhaseAverage>)
    ensures |r| == 4
    ensures forall i :: 0 <= i < 4 ==> r[i].phase == PHASES[i]
  {
    seq(4, i requires 0 <= i < 4 => AverageIn(data, PHASES[i]))
  }

  lemma InPhaseAppend(data: seq<DataPoint>, x: DataPoint, p: Phase)
    ensures InPhase(data + [x], p) == InPhase(data, p) + (if PhaseOf(x.phase) == Some(p) then [x] else [])
  {
    WhereAppend(data, x, PhaseIs(p));
  }

  /** A point whose phase is not one of the four keys changes no record. */
  lemma OtherPhaseIgnored(data: seq<DataPoint>, x: DataPoint)
    requires PhaseOf(x.phase).None?
    ensures PhaseAverages(data + [x]) == PhaseAverages(data)
  {
    forall p: Phase
      ensures InPhase(data + [x], p) == InPhase(data, p)
    {
      InPhaseAppend(data, x, p);
    }
  }

  /** A point of phase `q` changes no record but that of `q`. */
  lemma OtherRecordsUnchanged(data: seq<DataPoint>, x: DataPoint, i: nat)
    requires i < 4 && PhaseOf(x.phase) != Some(PHASES[i])
    ensures PhaseAverages(data + [x])[i] == PhaseAverages(data)[i]
  {
    InPhaseAppend(data, x, PHASES[i]);
  }

  /** The per-phase arrays of `computePhaseAverages`. */
  datatype Group = Group(energy: seq<Option<real>>, focus: seq<Option<real>>, sleepQ: seq<Option<real>>)

  /** One point's turn: each of its defined scores is pushed onto the matching array. */
  function PushPoint(g: Group, d: DataPoint): Group {
    Group(
      if d.energy.Some? then g.energy + [d.energy] else g.energy,
      if d.focus.Some? then g.focus + [d.focus] else g.focus,
      if d.sleepQ.Some? then g.sleepQ + [d.sleepQ] else g.sleepQ)
  }

  /** The arrays of phase `p` after the points of `data`, visited in order. */
  function Pushed(data: seq<DataPoint>, p: Phase): Group {
    if data == [] then Group([], [], [])
    else
      var g := Pushed(data[..|data| - 1], p);
      var x := data[|data| - 1];
      if PhaseOf(x.phase) == Some(p) then PushPoint(g, x) else g
  }

  /** What the arrays of phase `p` should hold: the defined scores of that phase's points, in order. */
  function Collected(data: seq<DataPoint>, p: Phase): Group {
    var g := InPhase(data, p);
    Group(OnlyValid(Column(g, Energy)), OnlyValid(Column(g, Focus)), OnlyValid(Column(g, SleepQ)))
  }

  lemma OnlyValidSnoc(xs: seq<Option<real>>, x: Option<real>)
    ensures OnlyValid(xs + [x]) == OnlyValid(xs) + (if x.Some? then [x] else [])
  {
    assert (xs + [x])[..|xs|] == xs;
  }

  lemma CollectedColumnStep(g: seq<DataPoint>, x: DataPoint, m: Metric)
    ensures OnlyValid(Column(g + [x], m)) == OnlyValid(Column(g, m)) + (if Value(x, m).Some? then [Value(x, m)] else [])
  {
    ColumnAppend(g, [x], m);
    assert Column([x], m) == [Value(x, m)];
    OnlyValidSnoc(Column(g, m), Value(x, m));
  }

  lemma CollectedField(g: seq<DataPoint>, x: DataPoint, m: Metric)
    ensures OnlyValid(Column(g + [x], m)) ==
      if Value(x, m).Some? then OnlyValid(Column(g, m)) + [Value(x, m)] else OnlyValid(Column(g, m))
  {
    CollectedColumnStep(g, x, m);
  }

  lemma CollectedStepMine(data: seq<DataPoint>, x: DataPoint, p: Phase)
    requires PhaseOf(x.phase) == Some(p)
    ensures Collected(data + [x], p) == PushPoint(Collected(data, p), x)
  {
    var g := InPhase(data, p);
    InPhaseAppend(data, x, p);
    assert InPhase(data + [x], p) == g + [x];
    var before, after := Collected(data, p), Collected(data + [x], p);
    assert after.energy == (if x.energy.Some? then before.energy + [x.energy] else before.energy) by {
      CollectedField(g, x, Energy);
    }
    assert after.focus == (if x.focus.Some? then before.focus + [x.focus] else before.focus) by {
      CollectedField(g, x, Focus);
    }
    assert after.sleepQ == (if x.sleepQ.Some? then before.sleepQ + [x.sleepQ] else before.sleepQ) by {
      CollectedField(g, x, SleepQ);
    }
  }

  lemma CollectedStepOther(data: seq<DataPoint>, x: DataPoint, p: Phase)
    requires PhaseOf(x.phase) != Some(p)
    ensures Collected(data + [x], p) == Collected(data, p)
  {
    InPhaseAppend(data, x, p);
    assert InPhase(data, p) + [] == InPhase(data, p);
  }

  /** One point more changes the arrays of its own phase as `PushPoint` does, and no other phase's. */
  lemma CollectedStep(data: seq<DataPoint>, x: DataPoint, p: Phase)
    ensures Collected(data + [x], p) ==
      if PhaseOf(x.phase) == Some(p) then PushPoint(Collected(data, p), x) else Collected(data, p)
  {
    if PhaseOf(x.phase) == Some(p) {
      CollectedStepMine(data, x, p);
    } else {
      CollectedStepOther(data, x, p);
    }
  }

  /** Pushing point by point collects exactly the defined scores of each phase, in order. */
  lemma {:induction false} PushedCollects(data: seq<DataPoint>, p: Phase)
    ensures Pushed(data, p) == Collected(data, p)
  {
    if data == [] {
      assert InPhase(data, p) == [];
    } else {
      var front := data[..|data| - 1];
      PushedCollects(front, p);
      CollectedStep(front, data[|data| - 1], p);
      assert data == front + [data[|data| - 1]];
    }
  }

  lemma PrefixSnoc<T>(s: seq<T>, j: nat)
    requires j < |s|
    ensures s[..j + 1] == s[..j] + [s[j]]
  {
  }

  lemma PushedPrefix(data: seq<DataPoint>, i: nat, p: Phase)
    requires i < |data|
    ensures Pushed(data[..i + 1], p) ==
      if PhaseOf(data[i].phase) == Some(p) then PushPoint(Pushed(data[..i], p), data[i]) else Pushed(data[..i], p)
  {
    assert data[..i + 1][..i] == data[..i];
  }

  /** The first half of `computePhaseAverages`: one group of arrays per phase, holding only defined values. */
  method FillGroups(data: seq<DataPoint>) returns (groups: map<Phase, Group>)
    ensures forall p: Phase :: p in groups && groups[p] == Pushed(data, p)
  {
    var empty := Group([], [], []);
    groups := map[Menstrual := empty, Follicular := empty, Ovulation := empty, Luteal := empty];
    assert data[..0] == [];
    forall p: Phase
      ensures p in groups && groups[p] == Pushed(data[..0], p)
    {
      match p
      case Menstrual =>
      case Follicular =>
      case Ovulation =>
      case Luteal =>
    }
    for i := 0 to |data|
      invariant forall p: Phase :: p in groups && groups[p] == Pushed(data[..i], p)
    {
      var d := data[i];
      ghost var before := groups;
      var ph := PhaseOf(d.phase);
      if ph.Some? {
        var g := groups[ph.value];
        if d.energy.Some? {
          g := g.(energy := g.energy + [d.energy]);
        }
        if d.focus.Some? {
          g := g.(focus := g.focus + [d.focus]);
        }
        if d.sleepQ.Some? {
          g := g.(sleepQ := g.sleepQ + [d.sleepQ]);
        }
        assert g == PushPoint(before[ph.value], d);
        groups := groups[ph.value := g];
      }
      forall p: Phase
        ensures p in groups && groups[p] == Pushed(data[..i + 1], p)
      {
        PushedPrefix(data, i, p);
      }
    }
    assert data[..|data|] == data;
  }

  /**
   * `computePhaseAverages`: fills one group of arrays per phase, pushing only
   * defined values, then averages each group in the fixed phase order.
   */
  method ComputePhaseAverages(data: seq<DataPoint>) returns (avgs: seq<PhaseAverage>)
    ensures avgs == PhaseAverages(data)
  {
    var groups := FillGroups(data);
    ghost var all := PhaseAverages(data);
    avgs := [];
    for j := 0 to 4
      invariant avgs == all[..j]
    {
      var p := PHASES[j];
      var g := groups[p];
      AverageOfGroup(data, p);
      PrefixSnoc(all, j);
      avgs := avgs + [PhaseAverage(p, Avg(g.energy), Avg(g.focus), Avg(g.sleepQ))];
    }
    assert all[..|all|] == all;
  }

  /** Averaging the pushed numbers of a phase gives that phase's means. */
  lemma AverageOfGroup(data: seq<DataPoint>, p: Phase)
    ensures var g := Pushed(data, p);
      PhaseAverage(p, Avg(g.energy), Avg(g.focus), Avg(g.sleepQ)) == AverageIn(data, p)
  {
    PushedCollects(data, p);
    var c := InPhase(data, p);
    AvgOfOnlyValid(Column(c, Energy));
    AvgOfOnlyValid(Column(c, Focus));
    AvgOfOnlyValid(Column(c, SleepQ));
  }

  /** A phase mean lies within the range its scores respect. */
  lemma PhaseFocusWithin(data: seq<DataPoint>, i: nat, lo: real, hi: real)
    requires i < 4
    requires forall k :: 0 <= k < |data| && data[k].focus.Some? ==> lo <= data[k].focus.value <= hi
    requires PhaseAverages(data)[i].focus.Some?
    ensures lo <= PhaseAverages(data)[i].focus.value <= hi
  {
    var g := InPhase(data, PHASES[i]);
    var c := Column(g, Focus);
    forall k | 0 <= k < |c| && c[k].Some?
      ensures lo <= c[k].value <= hi
    {
      WhereKeepsExactly(data, PhaseIs(PHASES[i]), g[k]);
    }
    AvgWithinBounds(c, lo, hi);
  }
}
