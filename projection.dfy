/**
 * What the dashboard reads from the store: one point per calendar day of a
 * range (`computeRange`) and one point per stored record (`computeAllTimeData`).
 * Days are integers; the ISO text of a day is a function passed in, so no
 * calendar or time-zone arithmetic is modelled.
 */
module Projection {
  import opened JsonValue
  import opened EntryModel

  /** One day of a range: a score that is not a number reads as null, a missing minute count as 0. */
  datatype RangePoint = RangePoint(
    iso: string,
    dayLabel: string,
    energy: Option<real>,
    focus: Option<real>,
    symptomLoad: Option<real>,
    sleepQ: Option<real>,
    sportMin: real,
    musicMin: real)

  /** One stored record as the analytics see it. */
  datatype DataPoint = DataPoint(
    iso: string,
    energy: Option<real>,
    focus: Option<real>,
    symptomLoad: Option<real>,
    sleepQ: Option<real>,
    sportMin: real,
    musicMin: real,
    phase: Json,
    stress: Option<real>,
    caffeineTiming: Json,
    screenLate: bool,
    tags: Json)

  /** `typeof e.k === "number" ? e.k : null` */
  function Score(e: Entry, k: string): (r: Option<real>)
    ensures r.Some? <==> k in e && e[k].JNum?
    ensures r.Some? ==> e[k] == JNum(r.value)
  {
    NumberOrNull(Get(e, k))
  }

  /** `typeof e.activities?.k === "number" ? e.activities.k : 0` */
  function Minutes(e: Entry, k: string): (r: real)
    ensures Field(Get(e, "activities"), k).JNum? ==> r == Field(Get(e, "activities"), k).n
    ensures !Field(Get(e, "activities"), k).JNum? ==> r == 0.0
  {
    var v := Field(Get(e, "activities"), k);
    if v.JNum? then v.n else 0.0
  }

  /** `s.slice(a, b)` for `0 <= a <= b`: both ends are cut back to the string's length. */
  function Slice(s: string, a: nat, b: nat): (r: string)
    requires a <= b
    ensures |r| <= b - a
    ensures b <= |s| ==> r == s[a..b]
    ensures |s| <= a ==> r == ""
  {
    var hi := if b <= |s| then b else |s|;
    var lo := if a <= hi then a else hi;
    s[lo..hi]
  }

  /** `iso.slice(8,10) + "-" + iso.slice(5,7)` */
  function Label(iso: string): (l: string)
    ensures |iso| >= 10 ==> |l| == 5 && l[..2] == iso[8..10] && l[2] == '-' && l[3..] == iso[5..7]
  {
    Slice(iso, 8, 10) + "-" + Slice(iso, 5, 7)
  }

  /** The label of a `yyyy-mm-dd` date is `dd-mm`. */
  lemma LabelIsDayMonth(y: string, m: string, d: string)
    requires |y| == 4 && |m| == 2 && |d| == 2
    ensures Label(y + "-" + m + "-" + d) == d + "-" + m
  {
    var iso := y + "-" + m + "-" + d;
    assert iso[8..10] == d;
    assert iso[5..7] == m;
  }

  /** `entriesByDate[iso]`: None is `undefined`. */
  function Lookup(byDate: map<string, Entry>, iso: string): (r: Option<Entry>)
    ensures r.Some? <==> iso in byDate
    ensures r.Some? ==> r.value == byDate[iso]
  {
    if iso in byDate then Some(byDate[iso]) else None
  }

  /** The point of one day, from the record of that day if there is one. */
  function RangePointOf(iso: string, e: Option<Entry>): (p: RangePoint)
    ensures p.iso == iso && p.dayLabel == Label(iso)
    ensures e.None? ==> p.energy.None? && p.focus.None? && p.symptomLoad.None? && p.sleepQ.None?
  {
    match e
    case None => RangePoint(iso, Label(iso), None, None, None, None, 0.0, 0.0)
    case Some(x) =>
      RangePoint(iso, Label(iso), Score(x, "energyLevel"), Score(x, "focusLevel"), Score(x, "symptomLoad"),
        Score(x, "sleepQuality"), Minutes(x, "sportMinutes"), Minutes(x, "musicMinutes"))
  }

  /** A day with no record has null scores and no minutes, and so does a day holding only the default record. */
  lemma AbsentDayIsEmpty(iso: string)
    ensures var p := RangePointOf(iso, None);
      p.energy.None? && p.focus.None? && p.symptomLoad.None? && p.sleepQ.None? &&
      p.sportMin == 0.0 && p.musicMin == 0.0
    ensures RangePointOf(iso, Some(DefaultEntry(iso))) == RangePointOf(iso, None)
  {
  }

  /** A score of a day is present exactly when the day's record holds a number under that key. */
  lemma RangeScorePresent(iso: string, e: Option<Entry>)
    ensures RangePointOf(iso, e).energy.Some? <==> e.Some? && Get(e.value, "energyLevel").JNum?
    ensures RangePointOf(iso, e).focus.Some? <==> e.Some? && Get(e.value, "focusLevel").JNum?
    ensures RangePointOf(iso, e).symptomLoad.Some? <==> e.Some? && Get(e.value, "symptomLoad").JNum?
    ensures RangePointOf(iso, e).sleepQ.Some? <==> e.Some? && Get(e.value, "sleepQuality").JNum?
  {
  }

  /**
   * The `n` days ending at day `end`, oldest first: the `n - 1` days ending
   * the day before, then `end` itself. No days for `n <= 0`.
   */
  function Range(byDate: map<string, Entry>, end: int, n: int, isoOf: int -> string): (r: seq<RangePoint>)
    ensures |r| == if n < 0 then 0 else n
    ensures n > 0 ==> r[n - 1].iso == isoOf(end) && r[n - 1].dayLabel == Label(isoOf(end))
    decreases n
  {
    if n <= 0 then []
    else Range(byDate, end - 1, n - 1, isoOf) + [RangePointOf(isoOf(end), Lookup(byDate, isoOf(end)))]
  }

  /** A range of `n` days holds exactly `n` points, for consecutive days, the last one being `end`. */
  lemma {:induction false} RangeDays(byDate: map<string, Entry>, end: int, n: int, isoOf: int -> string)
    ensures |Range(byDate, end, n, isoOf)| == if n < 0 then 0 else n
    ensures forall i :: 0 <= i < |Range(byDate, end, n, isoOf)| ==>
      Range(byDate, end, n, isoOf)[i] == RangePointOf(isoOf(end - n + 1 + i), Lookup(byDate, isoOf(end - n + 1 + i)))
    decreases n
  {
    if n > 0 {
      RangeDays(byDate, end - 1, n - 1, isoOf);
    }
  }

  /** With an injective day naming, the days of a range carry distinct dates. */
  lemma RangeDatesDistinct(byDate: map<string, Entry>, end: int, n: int, isoOf: int -> string)
    requires forall a: int, b: int :: isoOf(a) == isoOf(b) ==> a == b
    ensures forall i, j :: 0 <= i < j < |Range(byDate, end, n, isoOf)| ==>
      Range(byDate, end, n, isoOf)[i].iso != Range(byDate, end, n, isoOf)[j].iso
  {
    RangeDays(byDate, end, n, isoOf);
  }

  /** The last point of a non-empty range is the anchor day. */
  lemma RangeEndsAtAnchor(byDate: map<string, Entry>, end: int, n: int, isoOf: int -> string)
    requires n > 0
    ensures |Range(byDate, end, n, isoOf)| == n && Range(byDate, end, n, isoOf)[n - 1].iso == isoOf(end)
  {
    RangeDays(byDate, end, n, isoOf);
  }

  /** The point `computeAllTimeData` makes of a record carrying a string date. */
  function DataPointOf(e: Entry): (p: DataPoint)
    requires Get(e, "dateISO").JStr?
    ensures p.iso == Get(e, "dateISO").s
    ensures !p.phase.JNull? && !p.caffeineTiming.JNull?
    ensures Truthy(p.tags)
  {
    DataPoint(
      Get(e, "dateISO").s,
      Score(e, "energyLevel"),
      Score(e, "focusLevel"),
      Score(e, "symptomLoad"),
      Score(e, "sleepQuality"),
      Minutes(e, "sportMinutes"),
      Minutes(e, "musicMinutes"),
      OrElse(Field(Get(e, "cycle"), "phase"), JStr("unknown")),
      Score(e, "stressLevel"),
      OrElse(Get(e, "caffeineTiming"), JStr("none")),
      Get(e, "screenLate") == JBool(true),
      if Truthy(Get(e, "foodTags")) then Get(e, "foodTags") else JObj(map[]))
  }

  /** A record left at its defaults gives a point with no scores, no minutes, phase "unknown" and no tags. */
  lemma DefaultDataPoint(date: string)
    ensures var p := DataPointOf(DefaultEntry(date));
      && p.iso == date
      && p.energy.None? && p.focus.None? && p.symptomLoad.None? && p.sleepQ.None? && p.stress.None?
      && p.sportMin == 0.0 && p.musicMin == 0.0
      && p.phase == JStr("unknown") && p.caffeineTiming == JStr("none")
      && !p.screenLate && p.tags == JObj(map[])
  {
  }

  /** Only `true` counts as a late screen; null, false and anything else do not. */
  lemma ScreenLateOnlyTrue(e: Entry)
    requires Get(e, "dateISO").JStr?
    ensures DataPointOf(e).screenLate <==> "screenLate" in e && e["screenLate"] == JBool(true)
  {
  }

  /** A missing or null phase or caffeine timing falls back to "unknown" and "none". */
  lemma MissingPhaseIsUnknown(e: Entry)
    requires Get(e, "dateISO").JStr?
    ensures Field(Get(e, "cycle"), "phase").JNull? ==> DataPointOf(e).phase == JStr("unknown")
    ensures !Field(Get(e, "cycle"), "phase").JNull? ==> DataPointOf(e).phase == Field(Get(e, "cycle"), "phase")
    ensures Get(e, "caffeineTiming").JNull? ==> DataPointOf(e).caffeineTiming == JStr("none")
  {
  }
}
