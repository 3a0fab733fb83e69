/**
 * The tracker's state as the page keeps it: local storage, the entries
 * by date, the selected date and the draft being edited; with the actions
 * that change it (loading, choosing a date, saving, importing) and the two
 * projections the dashboard reads from it.
 */
module App {
  import opened JsonValue
  import opened EntryModel
  import opened Store
  import opened Projection

  /** `draft._touched = draft._touched || {}` */
  function WithTouched(e: Entry): (d: Entry)
    ensures d.Keys == e.Keys + {"_touched"}
    ensures forall k :: k in e && k != "_touched" ==> d[k] == e[k]
    ensures Truthy(d["_touched"])
  {
    e["_touched" := if Truthy(Get(e, "_touched")) then e["_touched"] else JObj(map[])]
  }

  /** The record the save button stores: the draft without `_touched`, stamped with `savedAt`. */
  function ToSave(draft: Entry, now: string): (e: Entry)
    ensures e.Keys == draft.Keys - {"_touched"} + {"savedAt"}
    ensures "_touched" !in e && e["savedAt"] == JStr(now)
    ensures forall k :: k in draft && k != "_touched" && k != "savedAt" ==> e[k] == draft[k]
  {
    (draft - {"_touched"})["savedAt" := JStr(now)]
  }

  /** An element of the re-read array that confirms the save: an object with the saved date and stamp. */
  predicate Confirms(x: Json, iso: string, stamp: string) {
    x.JObj? && Get(x.fields, "dateISO") == JStr(iso) && Get(x.fields, "savedAt") == JStr(stamp)
  }

  /** `Array.isArray(parsed) && parsed.some(...)` */
  predicate Confirmed(parsed: Json, iso: string, stamp: string) {
    parsed.JArr? && exists i :: 0 <= i < |parsed.items| && Confirms(parsed.items[i], iso, stamp)
  }

  /** The import loop: each dated element merged onto the default for its date, a later duplicate winning. */
  method ImportEntries(items: seq<Json>) returns (byDate: map<string, Entry>)
    ensures byDate == Collect(items, false)
  {
    byDate := map[];
    for i := 0 to |items|
      invariant byDate == Collect(items[..i], false)
    {
      var e := items[i];
      var date := DateOf(e);
      if date.Some? {
        byDate := byDate[date.value := DeepMerge(DefaultEntry(date.value), e.fields)];
      }
      CollectStep(items, i, false);
    }
    assert items[..|items|] == items;
  }

  /**
   * The all-time points built so far: `data[i]` is the point of the record
   * under `dates[i]`, each dated record of `m` outside `rest` appears once.
   */
  ghost predicate AllTimeSoFar(m: map<string, Entry>, rest: set<string>, data: seq<DataPoint>, dates: seq<string>)
    requires Keyed(m)
  {
    && |data| == |dates|
    && (forall i :: 0 <= i < |dates| ==> dates[i] in m && dates[i] != "" && dates[i] !in rest)
    && (forall i :: 0 <= i < |dates| ==> data[i] == DataPointOf(m[dates[i]]))
    && (forall i, j :: 0 <= i < j < |dates| ==> dates[i] != dates[j])
    && (forall d :: d in m && d != "" && d !in rest ==> d in dates)
  }

  lemma AllTimeStep(m: map<string, Entry>, rest: set<string>, data: seq<DataPoint>, dates: seq<string>, d: string)
    requires Keyed(m) && rest <= m.Keys && d in rest && AllTimeSoFar(m, rest, data, dates)
    ensures Truthy(Get(m[d], "dateISO")) <==> d != ""
    ensures d != "" ==> AllTimeSoFar(m, rest - {d}, data + [DataPointOf(m[d])], dates + [d])
    ensures d == "" ==> AllTimeSoFar(m, rest - {d}, data, dates)
  {
    if d != "" {
      var data', dates' := data + [DataPointOf(m[d])], dates + [d];
      forall i | 0 <= i < |dates'|
        ensures dates'[i] in m && dates'[i] != "" && dates'[i] !in rest - {d}
        ensures data'[i] == DataPointOf(m[dates'[i]])
      {
        if i < |dates| {
          assert dates'[i] == dates[i] && data'[i] == data[i];
        }
      }
    }
  }

  class Tracker {
    /** `localStorage` */
    var storage: Storage
    /** `entriesByDate` */
    var entriesByDate: map<string, Entry>
    /** `selectedISO` */
    var selectedISO: string
    /** `draft` */
    var draft: Entry

    /** Every record sits under its own date, and the draft belongs to the selected date. */
    ghost predicate Valid()
      reads this
    {
      Keyed(entriesByDate) && Get(draft, "dateISO") == JStr(selectedISO)
    }

    /** Start-up: load the entries (migrating if need be), then select `today`. */
    constructor(st: Storage, today: string)
      ensures Valid()
      ensures entriesByDate == Loaded(st) && Loaded(storage) == entriesByDate
      ensures !NeedsMigration(st) ==> storage == st
      ensures NeedsMigration(st) ==>
        && STORAGE_KEY in storage && storage[STORAGE_KEY].Wellformed? && storage[STORAGE_KEY].value.JArr?
        && Listing(storage[STORAGE_KEY].value.items, entriesByDate)
        && storage == st[STORAGE_KEY := storage[STORAGE_KEY]]
      ensures selectedISO == today && draft == WithTouched(GetOrCreate(entriesByDate, today))
    {
      storage := st;
      entriesByDate := map[];
      selectedISO := today;
      draft := map[];
      new;
      LoadEntries();
      SetSelectedDate(today);
    }

    /**
     * `loadEntries`: the current key if it holds text; otherwise the first
     * legacy key holding text, newest first, whose records are then written
     * to the current key; otherwise nothing. Either way, loading the
     * storage again afterwards gives the same map.
     */
    method LoadEntries()
      modifies this
      ensures entriesByDate == Loaded(old(storage))
      ensures Loaded(storage) == entriesByDate
      ensures !NeedsMigration(old(storage)) ==> storage == old(storage)
      ensures NeedsMigration(old(storage)) ==>
        && STORAGE_KEY in storage && storage[STORAGE_KEY].Wellformed? && storage[STORAGE_KEY].value.JArr?
        && Listing(storage[STORAGE_KEY].value.items, entriesByDate)
        && storage == old(storage)[STORAGE_KEY := storage[STORAGE_KEY]]
      ensures selectedISO == old(selectedISO) && draft == old(draft)
    {
      var rawNew := GetItem(storage, STORAGE_KEY);
      if Present(storage, STORAGE_KEY) {
        entriesByDate := NormalizeEntries(SafeJsonParse(rawNew, JArr([])));
        return;
      }
      var i := 0;
      while i < |LEGACY_KEYS|
        invariant 0 <= i <= |LEGACY_KEYS|
        invariant forall j :: 0 <= j < i ==> !Present(storage, LEGACY_KEYS[j])
        invariant storage == old(storage) && selectedISO == old(selectedISO) && draft == old(draft)
      {
        var raw := GetItem(storage, LEGACY_KEYS[i]);
        if Present(storage, LEGACY_KEYS[i]) {
          var migrated := NormalizeEntries(SafeJsonParse(raw, JArr([])));
          LoadSource(storage, i);
          var arr := AnyListing(migrated);
          MigrationIsStable(storage, arr);
          storage := storage[STORAGE_KEY := Wellformed(JArr(arr))];
          entriesByDate := migrated;
          return;
        }
        i := i + 1;
      }
      entriesByDate := map[];
    }

    /** `saveEntries`: the records, sorted by date, written to the current key. */
    method SaveEntries() returns (arr: seq<Json>)
      requires Keyed(entriesByDate)
      modifies this
      ensures Listing(arr, entriesByDate) && SortedByDate(arr)
      ensures storage == old(storage)[STORAGE_KEY := Wellformed(JArr(arr))]
      ensures entriesByDate == old(entriesByDate) && selectedISO == old(selectedISO) && draft == old(draft)
    {
      arr := SortedListing(entriesByDate);
      storage := storage[STORAGE_KEY := Wellformed(JArr(arr))];
    }

    /** `setSelectedDate`: the draft becomes a copy of the stored record or the default, marked with `_touched`. */
    method SetSelectedDate(iso: string)
      requires Keyed(entriesByDate)
      modifies this
      ensures Valid()
      ensures selectedISO == iso && draft == WithTouched(GetOrCreate(entriesByDate, iso))
      ensures storage == old(storage) && entriesByDate == old(entriesByDate)
    {
      selectedISO := iso;
      draft := WithTouched(GetOrCreate(entriesByDate, selectedISO));
    }

    /**
     * The save button: the draft, without `_touched` and stamped `savedAt`,
     * replaces the record of the selected date; every other date keeps its
     * record; the map is written back; and re-reading the current key always
     * confirms the save.
     */
    method Save(now: string) returns (ok: bool)
      requires Valid()
      modifies this
      ensures Valid()
      ensures entriesByDate == old(entriesByDate)[selectedISO := ToSave(draft, now)]
      ensures selectedISO == old(selectedISO) && draft == old(draft)
      ensures STORAGE_KEY in storage && storage[STORAGE_KEY].Wellformed? && storage[STORAGE_KEY].value.JArr?
      ensures Listing(storage[STORAGE_KEY].value.items, entriesByDate) && SortedByDate(storage[STORAGE_KEY].value.items)
      ensures storage == old(storage)[STORAGE_KEY := storage[STORAGE_KEY]]
      ensures ok
    {
      var toSave := draft - {"_touched"};
      toSave := toSave["savedAt" := JStr(now)];
      entriesByDate := entriesByDate[selectedISO := toSave];
      var arr := SaveEntries();
      var raw := GetItem(storage, STORAGE_KEY);
      var parsed := SafeJsonParse(raw, JArr([]));
      SavedIsListed(arr, entriesByDate, selectedISO);
      ok := Confirmed(parsed, selectedISO, now);
    }

    /**
     * The import button: text that does not parse to an array changes
     * nothing; an array replaces every record by the dated elements, each
     * merged onto the default (without the `foodTags` fill), writes them
     * back and re-selects the current date.
     */
    method Import(text: Stored) returns (imported: bool)
      requires Valid()
      modifies this
      ensures Valid()
      ensures imported <==> SafeJsonParse(Some(text), JNull).JArr?
      ensures !imported ==> storage == old(storage) && entriesByDate == old(entriesByDate) && draft == old(draft)
      ensures imported ==> entriesByDate == Collect(SafeJsonParse(Some(text), JNull).items, false)
      ensures imported ==> STORAGE_KEY in storage && storage[STORAGE_KEY].Wellformed? && storage[STORAGE_KEY].value.JArr?
      ensures imported ==> Listing(storage[STORAGE_KEY].value.items, entriesByDate)
      ensures imported ==> SortedByDate(storage[STORAGE_KEY].value.items)
      ensures imported ==> storage == old(storage)[STORAGE_KEY := storage[STORAGE_KEY]]
      ensures imported ==> draft == WithTouched(GetOrCreate(entriesByDate, selectedISO))
      ensures selectedISO == old(selectedISO)
    {
      var arr := SafeJsonParse(Some(text), JNull);
      if !arr.JArr? {
        return false;
      }
      var byDate := ImportEntries(arr.items);
      entriesByDate := byDate;
      var written := SaveEntries();
      SetSelectedDate(selectedISO);
      imported := true;
    }

    /** `computeRange`: the points of the `daysBack` days ending at day `end`, oldest first. */
    method ComputeRange(end: int, daysBack: int, isoOf: int -> string) returns (out: seq<RangePoint>)
      ensures out == Range(entriesByDate, end, daysBack, isoOf)
    {
      var start := end - daysBack + 1;
      out := [];
      var i := 0;
      while i < daysBack
        invariant daysBack <= 0 ==> i == 0
        invariant daysBack > 0 ==> 0 <= i <= daysBack
        invariant out == Range(entriesByDate, start + i - 1, i, isoOf)
      {
        var iso := isoOf(start + i);
        var e := Lookup(entriesByDate, iso);
        out := out + [RangePointOf(iso, e)];
        i := i + 1;
      }
    }

    /**
     * `computeAllTimeData`: one point per record whose date is set, each
     * record once; `dates` gives the date of each point, in the order the
     * records were visited.
     */
    method ComputeAllTimeData() returns (data: seq<DataPoint>, ghost dates: seq<string>)
      requires Keyed(entriesByDate)
      ensures |data| == |dates|
      ensures forall i :: 0 <= i < |dates| ==> dates[i] in entriesByDate && dates[i] != ""
      ensures forall i :: 0 <= i < |dates| ==> data[i] == DataPointOf(entriesByDate[dates[i]])
      ensures forall i, j :: 0 <= i < j < |dates| ==> dates[i] != dates[j]
      ensures forall d :: d in entriesByDate && d != "" ==> d in dates
    {
      data := [];
      dates := [];
      var rest := entriesByDate.Keys;
      while rest != {}
        invariant rest <= entriesByDate.Keys
        invariant AllTimeSoFar(entriesByDate, rest, data, dates)
        decreases |rest|
      {
        var d :| d in rest;
        var e := entriesByDate[d];
        AllTimeStep(entriesByDate, rest, data, dates, d);
        if Truthy(Get(e, "dateISO")) {
          data := data + [DataPointOf(e)];
          dates := dates + [d];
        }
        rest := rest - {d};
      }
    }
  }

  /** The record of `iso` in a keyed map appears in any listing of it. */
  lemma SavedIsListed(arr: seq<Json>, m: map<string, Entry>, iso: string)
    requires Keyed(m) && Listing(arr, m) && iso in m
    ensures exists i :: 0 <= i < |arr| && arr[i] == JObj(m[iso])
  {
    DateKeysMember(arr, iso);
    var i :| 0 <= i < |arr| && DateKey(arr[i]) == iso;
    assert RecordOf(arr[i], m);
  }

  lemma {:induction false} DateKeysMember(arr: seq<Json>, d: string)
    requires d in DateKeys(arr)
    ensures exists i :: 0 <= i < |arr| && DateKey(arr[i]) == d
  {
    if DateKey(arr[|arr| - 1]) != d {
      DateKeysMember(arr[..|arr| - 1], d);
      var i :| 0 <= i < |arr| - 1 && DateKey(arr[..|arr| - 1][i]) == d;
      assert arr[i] == arr[..|arr| - 1][i];
    }
  }

  lemma {:induction false} DateKeysHas(arr: seq<Json>, i: nat)
    requires i < |arr|
    ensures DateKey(arr[i]) in DateKeys(arr)
  {
    if i < |arr| - 1 {
      DateKeysHas(arr[..|arr| - 1], i);
      assert arr[..|arr| - 1][i] == arr[i];
    }
  }

  /** The dates loading keeps from an array are the dates it carries, less the empty one. */
  lemma DatesInKeys(arr: seq<Json>)
    ensures DatesIn(arr) == DateKeys(arr) - {""}
  {
    forall d
      ensures d in DatesIn(arr) <==> d in DateKeys(arr) && d != ""
    {
      if d in DatesIn(arr) {
        var i :| 0 <= i < |arr| && DateOf(arr[i]).Some? && DateOf(arr[i]).value == d;
        DateKeysHas(arr, i);
      }
      if d in DateKeys(arr) && d != "" {
        DateKeysMember(arr, d);
        var i :| 0 <= i < |arr| && DateKey(arr[i]) == d;
        assert DateOf(arr[i]) == Some(d);
      }
    }
  }

  /**
   * After any save, the next load holds exactly the saved dates other than
   * the empty one: a record saved under the empty date is not loaded back.
   */
  lemma SaveThenLoadKeys(st: Storage, arr: seq<Json>, m: map<string, Entry>)
    requires Listing(arr, m)
    ensures Loaded(st[STORAGE_KEY := Wellformed(JArr(arr))]).Keys == m.Keys - {""}
  {
    LoadCurrent(st, arr);
    CollectKeys(arr, true);
    DatesInKeys(arr);
  }

  /** After any save, the next load gives each saved record under a non-empty date back, re-normalised. */
  lemma SaveThenLoadRecord(st: Storage, arr: seq<Json>, m: map<string, Entry>, d: string)
    requires Keyed(m) && Listing(arr, m) && d in m && d != ""
    ensures d in Loaded(st[STORAGE_KEY := Wellformed(JArr(arr))])
    ensures Loaded(st[STORAGE_KEY := Wellformed(JArr(arr))])[d] == NormalizeEntry(m[d], d)
  {
    LoadCurrent(st, arr);
    DateKeysMember(arr, d);
    var i :| 0 <= i < |arr| && DateKey(arr[i]) == d;
    assert RecordOf(arr[i], m);
    assert DateOf(arr[i]) == Some(d);
    forall j | i < j < |arr|
      ensures DateOf(arr[j]) != DateOf(arr[i])
    {
      assert DateKey(arr[j]) != d;
    }
    CollectLastWins(arr, true, i);
  }

  /** After an import, each date's record is the last element carrying that date, merged onto the default. */
  lemma ImportLastWins(items: seq<Json>, i: nat, d: string)
    requires i < |items| && DateOf(items[i]) == Some(d)
    requires forall j :: i < j < |items| ==> DateOf(items[j]) != Some(d)
    ensures GetOrCreate(Collect(items, false), d) == DeepMerge(DefaultEntry(d), items[i].fields)
  {
    CollectLastWins(items, false, i);
  }

  /** After an import, a date no element carries reads as the default record. */
  lemma ImportedMissingIsDefault(items: seq<Json>, d: string)
    requires forall j :: 0 <= j < |items| ==> DateOf(items[j]) != Some(d)
    ensures GetOrCreate(Collect(items, false), d) == DefaultEntry(d)
  {
    CollectKeys(items, false);
  }
}
