/**
 * The daily entry: its zero value for a date, the one-level-deep merge that
 * overlays a stored or imported record onto that zero value, and the
 * `foodTags` fallback applied when entries are loaded.
 */
module EntryModel {
  import opened JsonValue

  /** One day's record: the fields of the merged JavaScript object. */
  type Entry = map<string, Json>

  /** The zero-value record for a date (`DEFAULT_ENTRY`). */
  function DefaultEntry(date: string): Entry {
    map[
      "dateISO" := JStr(date),
      "energyLevel" := JNull,
      "focusLevel" := JNull,
      "symptomLoad" := JNull,
      "sleepQuality" := JNull,
      "sleepHours" := JNull,
      "wokeRested" := JNull,
      "stressLevel" := JNull,
      "caffeineTiming" := JStr("none"),
      "screenLate" := JNull,
      "medsAsPlanned" := JNull,
      "energyGivers" := JArr([JStr(""), JStr(""), JStr("")]),
      "food" := JObj(map["breakfast" := JStr(""), "lunch" := JStr(""), "dinner" := JStr(""), "snacks" := JStr("")]),
      "foodTags" := JObj(map[]),
      "cycle" := JObj(map["bleeding" := JStr("none"), "cycleDay" := JStr(""), "phase" := JStr("unknown"), "symptoms" := JStr("")]),
      "activities" := JObj(map["didSport" := JNull, "sportMinutes" := JNull, "didMusic" := JNull, "musicMinutes" := JNull]),
      "notes" := JStr(""),
      "savedAt" := JNull
    ]
  }

  /** `{...(out[k] || {})}`: what the base contributes under key `k` when the patch holds an object there. */
  function BaseSpread(base: Entry, k: string): map<string, Json> {
    if k in base then Spread(base[k]) else map[]
  }

  /**
   * `deepMerge(obj, patch)`: a patch value that is an object (not an array,
   * not null) is spread over the base's value key by key, one level deep;
   * any other patch value replaces the base's value wholesale.
   */
  function DeepMerge(obj: Entry, patch: Entry): (out: Entry)
    ensures out.Keys == obj.Keys + patch.Keys
    ensures forall k :: k in obj && k !in patch ==> out[k] == obj[k]
    ensures forall k :: k in patch && !patch[k].JObj? ==> out[k] == patch[k]
    ensures forall k :: k in patch && patch[k].JObj? ==>
      out[k].JObj? && out[k].fields.Keys == BaseSpread(obj, k).Keys + patch[k].fields.Keys &&
      (forall j :: j in patch[k].fields ==> out[k].fields[j] == patch[k].fields[j]) &&
      (forall j :: j in BaseSpread(obj, k) && j !in patch[k].fields ==> out[k].fields[j] == BaseSpread(obj, k)[j])
  {
    map k | k in obj.Keys + patch.Keys ::
      if k in patch then
        (if patch[k].JObj? then JObj(BaseSpread(obj, k) + patch[k].fields) else patch[k])
      else obj[k]
  }

  /** `merged.foodTags = merged.foodTags || {}` */
  function FillFoodTags(e: Entry): (r: Entry)
    ensures r.Keys == e.Keys + {"foodTags"}
    ensures Truthy(r["foodTags"])
    ensures forall k :: k in e && k != "foodTags" ==> r[k] == e[k]
    ensures "foodTags" in e && Truthy(e["foodTags"]) ==> r == e
    ensures !Truthy(Get(e, "foodTags")) ==> r["foodTags"] == JObj(map[])
  {
    e["foodTags" := if Truthy(Get(e, "foodTags")) then e["foodTags"] else JObj(map[])]
  }

  /** The record `normalizeEntries` keeps for an element whose date is `date`. */
  function NormalizeEntry(e: Entry, date: string): (r: Entry)
    ensures r.Keys == DefaultEntry(date).Keys + e.Keys + {"foodTags"}
    ensures Truthy(r["foodTags"])
    ensures forall k :: k in e && k != "foodTags" && !e[k].JObj? ==> r[k] == e[k]
    ensures forall k :: k in DefaultEntry(date) && k !in e && k != "foodTags" ==> r[k] == DefaultEntry(date)[k]
  {
    FillFoodTags(DeepMerge(DefaultEntry(date), e))
  }

  /**
   * A record that loading leaves unchanged: it carries its date, every
   * default key, a truthy `foodTags`, and every nested object it holds
   * under a default key already has the keys that default spreads.
   */
  predicate IsNormal(e: Entry, date: string) {
    var d := DefaultEntry(date);
    && d.Keys <= e.Keys
    && e["dateISO"] == JStr(date)
    && Truthy(e["foodTags"])
    && forall k :: k in d && e[k].JObj? ==> Spread(d[k]).Keys <= e[k].fields.Keys
  }

  lemma UnionAbsorbed(a: map<string, Json>, f: map<string, Json>)
    requires a.Keys <= f.Keys
    ensures a + f == f
  {
  }

  /** Normalising a record whose own date is `date` yields a normal record. */
  lemma NormalizeIsNormal(e: Entry, date: string)
    requires Get(e, "dateISO") == JStr(date)
    ensures IsNormal(NormalizeEntry(e, date), date)
  {
    var d := DefaultEntry(date);
    var m := DeepMerge(d, e);
    var n := FillFoodTags(m);
    forall k | k in d && n[k].JObj?
      ensures Spread(d[k]).Keys <= n[k].fields.Keys
    {
      if k != "foodTags" {
        assert n[k] == m[k];
        if k in e && e[k].JObj? {
          assert m[k].fields.Keys == Spread(d[k]).Keys + e[k].fields.Keys;
        }
      }
    }
  }

  /** Normal records are exactly the fixed points of normalisation (for their own date). */
  lemma NormalIsFixpoint(e: Entry, date: string)
    ensures IsNormal(e, date) <==> (Get(e, "dateISO") == JStr(date) && NormalizeEntry(e, date) == e)
  {
    if IsNormal(e, date) {
      var d := DefaultEntry(date);
      var m := DeepMerge(d, e);
      forall k | k in e
        ensures m[k] == e[k]
      {
        if e[k].JObj? {
          UnionAbsorbed(BaseSpread(d, k), e[k].fields);
        }
      }
      assert m.Keys == e.Keys;
      assert m == e;
    }
    if Get(e, "dateISO") == JStr(date) && NormalizeEntry(e, date) == e {
      NormalizeIsNormal(e, date);
      assert IsNormal(NormalizeEntry(e, date), date);
    }
  }

  /** `normalize(normalize(e)) == normalize(e)` for a record carrying its date. */
  lemma NormalizeIdempotent(e: Entry, date: string)
    requires Get(e, "dateISO") == JStr(date)
    ensures NormalizeEntry(NormalizeEntry(e, date), date) == NormalizeEntry(e, date)
  {
    NormalizeIsNormal(e, date);
    NormalIsFixpoint(NormalizeEntry(e, date), date);
  }

  /** Merging the same patch twice changes nothing the first merge did not. */
  lemma DeepMergeIdempotent(obj: Entry, patch: Entry)
    ensures DeepMerge(DeepMerge(obj, patch), patch) == DeepMerge(obj, patch)
  {
    var once := DeepMerge(obj, patch);
    var twice := DeepMerge(once, patch);
    assert twice.Keys == once.Keys;
    forall k | k in twice
      ensures twice[k] == once[k]
    {
      if k in patch && patch[k].JObj? {
        var f := patch[k].fields;
        var b := BaseSpread(obj, k);
        assert once[k] == JObj(b + f);
        assert BaseSpread(once, k) == b + f;
        assert (b + f) + f == b + f;
      }
    }
  }

  /** A record holding only its date normalises to the default record. */
  lemma NormalizeBareDate(date: string)
    ensures NormalizeEntry(map["dateISO" := JStr(date)], date) == DefaultEntry(date)
  {
    var e := map["dateISO" := JStr(date)];
    var m := DeepMerge(DefaultEntry(date), e);
    assert m == DefaultEntry(date);
  }

  /** A patched score wins and every other field keeps its default. */
  lemma NormalizePatchedScore(date: string, score: real)
    ensures NormalizeEntry(map["dateISO" := JStr(date), "energyLevel" := JNum(score)], date)
         == DefaultEntry(date)["energyLevel" := JNum(score)]
  {
    var e := map["dateISO" := JStr(date), "energyLevel" := JNum(score)];
    var m := DeepMerge(DefaultEntry(date), e);
    assert m == DefaultEntry(date)["energyLevel" := JNum(score)];
  }

  /** The default record is already normal. */
  lemma DefaultIsNormal(date: string)
    ensures IsNormal(DefaultEntry(date), date)
  {
    var d := DefaultEntry(date);
    forall k | k in d && d[k].JObj?
      ensures Spread(d[k]).Keys <= d[k].fields.Keys
    {
    }
  }
}
