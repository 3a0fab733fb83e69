/**
 * Small helpers the entry form relies on: clamping of slider and minute
 * inputs, the tri-state select conversion, and the "is this day filled in"
 * test used by the date chips and the status pill.
 */
module FormHelpers {
  import opened JsonValue
  import opened EntryModel

  /** `clamp(n, min, max)` = `Math.max(min, Math.min(max, n))`. */
  function Clamp(n: real, lo: real, hi: real): (r: real)
    ensures r >= lo
    ensures lo <= hi ==> r <= hi
    ensures lo <= n <= hi ==> r == n
    ensures n < lo ==> r == lo
    ensures lo <= hi < n ==> r == hi
  {
    var capped := if hi < n then hi else n;
    if capped < lo then lo else capped
  }

  /** true, false, or unset (null). */
  predicate IsTriState(v: Json) {
    v.JNull? || v.JBool?
  }

  /** `selectValueToBool`: "true" and "false" map to booleans, anything else to null. */
  function SelectValueToBool(s: string): (v: Json)
    ensures IsTriState(v)
    ensures v.JBool? <==> s == "true" || s == "false"
  {
    if s == "true" then JBool(true)
    else if s == "false" then JBool(false)
    else JNull
  }

  /**
   * `boolToSelectValue`: the select value for a stored field. A tri-state
   * value survives the trip through the select; anything else reads as unset.
   */
  function BoolToSelectValue(v: Json): (s: string)
    ensures s == "true" || s == "false" || s == "null"
    ensures IsTriState(v) ==> SelectValueToBool(s) == v
    ensures !IsTriState(v) ==> SelectValueToBool(s) == JNull
  {
    if v == JBool(true) then "true"
    else if v == JBool(false) then "false"
    else "null"
  }

  /** The three select values come back unchanged from a conversion to a tri-state and back. */
  lemma SelectValueRoundTrip(s: string)
    requires s == "true" || s == "false" || s == "null"
    ensures BoolToSelectValue(SelectValueToBool(s)) == s
  {
  }

  /** The characters JavaScript's `trim` removes. */
  predicate IsWhitespace(c: char) {
    var x := c as int;
    x == 0x09 || x == 0x0A || x == 0x0B || x == 0x0C || x == 0x0D || x == 0x20 ||
    x == 0xA0 || x == 0x1680 || (0x2000 <= x <= 0x200A) || x == 0x2028 || x == 0x2029 ||
    x == 0x202F || x == 0x205F || x == 0x3000 || x == 0xFEFF
  }

  /** `s.trim().length > 0` */
  predicate HasText(s: string) {
    exists i :: 0 <= i < |s| && !IsWhitespace(s[i])
  }

  /** `(v || "").trim().length > 0`, for a value that is a string or falsy. */
  predicate TextIn(v: Json) {
    v.JStr? && HasText(v.s)
  }

  /** A value `(v || "").trim()` accepts without throwing. */
  predicate Trimmable(v: Json) {
    !Truthy(v) || v.JStr?
  }

  /**
   * What `isEntryFilled` demands of a record: every text field it trims is a
   * string or falsy, and `energyGivers`, when set, is an array.
   */
  predicate TrimSafe(e: Entry) {
    && Trimmable(Get(e, "notes"))
    && (forall v :: v in ValueSet(Get(e, "food")) ==> Trimmable(v))
    && (Truthy(Get(e, "energyGivers")) ==> Get(e, "energyGivers").JArr?)
    && (forall v :: v in ValueSet(Get(e, "energyGivers")) ==> Trimmable(v))
    && Trimmable(Field(Get(e, "cycle"), "cycleDay"))
    && Trimmable(Field(Get(e, "cycle"), "symptoms"))
  }

  const SCORE_KEYS: seq<string> := ["energyLevel", "focusLevel", "symptomLoad", "sleepQuality", "stressLevel"]

  predicate AnyScore(e: Entry) {
    exists i :: 0 <= i < |SCORE_KEYS| && Get(e, SCORE_KEYS[i]).JNum?
  }

  predicate AnyText(e: Entry) {
    var cycle := Get(e, "cycle");
    var activities := Get(e, "activities");
    || TextIn(Get(e, "notes"))
    || (exists v :: v in ValueSet(Get(e, "food")) && TextIn(v))
    || (exists v :: v in ValueSet(Get(e, "energyGivers")) && TextIn(v))
    || (Truthy(cycle) &&
         (TextIn(Field(cycle, "cycleDay")) || TextIn(Field(cycle, "symptoms")) ||
          Field(cycle, "bleeding") != JStr("none") || Field(cycle, "phase") != JStr("unknown")))
    || (Truthy(activities) &&
         (Field(activities, "sportMinutes").JNum? || Field(activities, "musicMinutes").JNum?))
  }

  predicate AnyBool(e: Entry) {
    var activities := Get(e, "activities");
    Get(e, "wokeRested").JBool? || Get(e, "screenLate").JBool? || Get(e, "medsAsPlanned").JBool? ||
    Field(activities, "didSport").JBool? || Field(activities, "didMusic").JBool?
  }

  predicate AnyTag(e: Entry) {
    JBool(true) in ValueSet(Get(e, "foodTags"))
  }

  /**
   * `isEntryFilled`: a missing record is not filled; a record is filled when
   * it holds a score, some text, a non-default cycle field, a minute count,
   * a set tri-state or a set food tag.
   */
  function IsEntryFilled(e: Option<Entry>): (r: bool)
    requires e.Some? ==> TrimSafe(e.value)
    ensures r ==> e.Some?
    ensures e.Some? && AnyScore(e.value) ==> r
  {
    match e
    case None => false
    case Some(x) => AnyScore(x) || AnyText(x) || AnyBool(x) || AnyTag(x)
  }

  lemma DefaultFoodIsBlank(date: string)
    ensures forall v :: v in ValueSet(DefaultEntry(date)["food"]) ==> v == JStr("")
  {
    var food := DefaultEntry(date)["food"].fields;
    forall v | v in ValueSet(DefaultEntry(date)["food"])
      ensures v == JStr("")
    {
      var k :| k in food && food[k] == v;
    }
  }

  lemma DefaultGiversAreBlank(date: string)
    ensures forall v :: v in ValueSet(DefaultEntry(date)["energyGivers"]) ==> v == JStr("")
  {
    var givers := DefaultEntry(date)["energyGivers"].items;
    forall v | v in ValueSet(DefaultEntry(date)["energyGivers"])
      ensures v == JStr("")
    {
      var i :| 0 <= i < |givers| && givers[i] == v;
    }
  }

  lemma DefaultIsTrimSafe(date: string)
    ensures TrimSafe(DefaultEntry(date))
  {
    DefaultFoodIsBlank(date);
    DefaultGiversAreBlank(date);
  }

  /** The zero-value record of any date counts as not filled in. */
  lemma DefaultIsNotFilled(date: string)
    ensures TrimSafe(DefaultEntry(date))
    ensures !IsEntryFilled(Some(DefaultEntry(date)))
  {
    DefaultIsTrimSafe(date);
    DefaultFoodIsBlank(date);
    DefaultGiversAreBlank(date);
  }

  /** Fields the test never reads (`savedAt`, `_touched`, unknown keys) do not change the verdict. */
  lemma FilledIgnoresOtherKeys(e: Entry, k: string, v: Json)
    requires k !in SCORE_KEYS && k !in {"notes", "food", "energyGivers", "cycle", "activities",
      "wokeRested", "screenLate", "medsAsPlanned", "foodTags"}
    requires TrimSafe(e)
    ensures TrimSafe(e[k := v])
    ensures IsEntryFilled(Some(e[k := v])) == IsEntryFilled(Some(e))
  {
    var e' := e[k := v];
    assert forall j :: j != k ==> Get(e', j) == Get(e, j);
    assert forall i :: 0 <= i < |SCORE_KEYS| ==> Get(e', SCORE_KEYS[i]) == Get(e, SCORE_KEYS[i]);
  }
}
