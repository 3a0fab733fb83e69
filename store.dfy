/**
 * The entry store's persistence rules: reading the current key or migrating
 * from the newest legacy key, normalising every record found, and writing
 * the entries back as an array sorted by date.
 */
module Store {
  import opened JsonValue
  import opened EntryModel

  const STORAGE_KEY: string := "fleur_wellbeing_add_tracker_clean_v1"

  /** Legacy keys, newest first: the order in which migration tries them. */
  const LEGACY_KEYS: seq<string> :=
    ["fleur_daily_tracker_v4", "fleur_daily_tracker_v3", "fleur_daily_tracker_v2", "fleur_daily_tracker_v1"]

  /**
   * A string held in local storage, known by what `JSON.parse` makes of it:
   * the empty string, a non-empty text that does not parse, or a text that
   * parses to a value.
   */
  datatype Stored = EmptyText | Malformed | Wellformed(value: Json)

  /** Local storage: key to stored string. */
  type Storage = map<string, Stored>

  /** `localStorage.getItem(k)`: None is JavaScript's null. */
  function GetItem(st: Storage, k: string): Option<Stored> {
    if k in st then Some(st[k]) else None
  }

  /** `if (raw)`: the key holds a non-empty string. */
  predicate Present(st: Storage, k: string) {
    k in st && !st[k].EmptyText?
  }

  /**
   * `safeJsonParse(raw, fallback)`: never fails; a missing, empty or
   * malformed text, and a text that parses to null, all give the fallback.
   */
  function SafeJsonParse(raw: Option<Stored>, fallback: Json): (v: Json)
    ensures raw.Some? && raw.value.Wellformed? && !raw.value.value.JNull? ==> v == raw.value.value
    ensures !(raw.Some? && raw.value.Wellformed?) ==> v == fallback
    ensures v.JNull? ==> fallback.JNull?
  {
    match raw
    case Some(Wellformed(x)) => if x.JNull? then fallback else x
    case _ => fallback
  }

  /** `e?.dateISO` when it is a non-empty string; any other element is skipped. */
  function DateOf(v: Json): (r: Option<string>)
    ensures r.Some? ==> r.value != "" && v.JObj? && Get(v.fields, "dateISO") == JStr(r.value)
    ensures v.JObj? && Get(v.fields, "dateISO").JStr? && Get(v.fields, "dateISO").s != "" ==> r.Some?
  {
    if v.JObj? && Get(v.fields, "dateISO").JStr? && Get(v.fields, "dateISO").s != "" then
      Some(Get(v.fields, "dateISO").s)
    else None
  }

  /**
   * The record kept for one element: loading merges it onto the default and
   * fills a falsy `foodTags`; importing only merges.
   */
  function EntryFor(e: Entry, date: string, fillFoodTags: bool): Entry {
    if fillFoodTags then NormalizeEntry(e, date) else DeepMerge(DefaultEntry(date), e)
  }

  /** Every record is keyed by its own date. */
  predicate Keyed(m: map<string, Entry>) {
    forall d :: d in m ==> Get(m[d], "dateISO") == JStr(d)
  }

  predicate AllNormal(m: map<string, Entry>) {
    forall d :: d in m ==> IsNormal(m[d], d)
  }

  /**
   * The `byDate` map built by walking the elements in order: an element
   * without a date is dropped, a later duplicate overwrites an earlier one.
   * Every record kept is keyed by its own non-empty date, and with the
   * `foodTags` fill it is normal.
   */
  function Collect(items: seq<Json>, fillFoodTags: bool): (byDate: map<string, Entry>)
    ensures Keyed(byDate) && "" !in byDate
    ensures fillFoodTags ==> AllNormal(byDate)
  {
    if items == [] then map[]
    else
      var front := Collect(items[..|items| - 1], fillFoodTags);
      var e := items[|items| - 1];
      match DateOf(e)
      case None => front
      case Some(d) =>
        NormalizeIsNormal(e.fields, d);
        front[d := EntryFor(e.fields, d, fillFoodTags)]
  }

  /** The dates of the elements that carry one. */
  function DatesIn(items: seq<Json>): set<string> {
    set i | 0 <= i < |items| && DateOf(items[i]).Some? :: DateOf(items[i]).value
  }

  /** Exactly the dates the elements carry become keys. */
  lemma {:induction false} CollectKeys(items: seq<Json>, fillFoodTags: bool)
    ensures Collect(items, fillFoodTags).Keys == DatesIn(items)
  {
    if items != [] {
      var front := items[..|items| - 1];
      CollectKeys(front, fillFoodTags);
      var x := items[|items| - 1];
      forall d | d in DatesIn(items)
        ensures d in DatesIn(front) || DateOf(x) == Some(d)
      {
        var i :| 0 <= i < |items| && DateOf(items[i]).Some? && DateOf(items[i]).value == d;
        if i < |items| - 1 {
          assert front[i] == items[i];
        }
      }
      forall d | d in DatesIn(front)
        ensures d in DatesIn(items)
      {
        var i :| 0 <= i < |front| && DateOf(front[i]).Some? && DateOf(front[i]).value == d;
        assert items[i] == front[i];
      }
      if DateOf(x).Some? {
        assert DateOf(items[|items| - 1]).value in DatesIn(items);
      }
    }
  }

  /** The record under a date comes from the last element carrying that date. */
  lemma {:induction false} CollectLastWins(items: seq<Json>, fillFoodTags: bool, i: nat)
    requires i < |items| && DateOf(items[i]).Some?
    requires forall j :: i < j < |items| ==> DateOf(items[j]) != DateOf(items[i])
    ensures DateOf(items[i]).value in Collect(items, fillFoodTags)
    ensures Collect(items, fillFoodTags)[DateOf(items[i]).value]
         == EntryFor(items[i].fields, DateOf(items[i]).value, fillFoodTags)
  {
    var front := items[..|items| - 1];
    if i < |items| - 1 {
      assert front[i] == items[i];
      CollectLastWins(front, fillFoodTags, i);
    }
  }

  /** `normalizeEntries(arr)`: a non-array gives the empty map. */
  function Normalized(arr: Json): (byDate: map<string, Entry>)
    ensures Keyed(byDate) && AllNormal(byDate) && "" !in byDate
    ensures !arr.JArr? ==> byDate == map[]
  {
    if arr.JArr? then Collect(arr.items, true) else map[]
  }

  /** One more element: dropped without a date, otherwise written over its date. */
  lemma CollectStep(items: seq<Json>, i: nat, fillFoodTags: bool)
    requires i < |items|
    ensures Collect(items[..i + 1], fillFoodTags) ==
      match DateOf(items[i])
      case None => Collect(items[..i], fillFoodTags)
      case Some(d) => Collect(items[..i], fillFoodTags)[d := EntryFor(items[i].fields, d, fillFoodTags)]
  {
    assert items[..i + 1][..i] == items[..i];
  }

  /** `normalizeEntries`, filling `byDate` one element at a time. */
  method NormalizeEntries(arr: Json) returns (byDate: map<string, Entry>)
    ensures byDate == Normalized(arr)
  {
    var items := if arr.JArr? then arr.items else [];
    byDate := map[];
    var i := 0;
    while i < |items|
      invariant 0 <= i <= |items|
      invariant byDate == Collect(items[..i], true)
    {
      var e := items[i];
      var date := DateOf(e);
      if date.Some? {
        byDate := byDate[date.value := NormalizeEntry(e.fields, date.value)];
      }
      CollectStep(items, i, true);
      i := i + 1;
    }
    assert items[..i] == items;
  }

  /** The first key of `keys` that holds a non-empty string, by index. */
  function FirstPresent(st: Storage, keys: seq<string>): (r: Option<nat>)
    ensures r.Some? ==> r.value < |keys| && Present(st, keys[r.value])
    ensures r.Some? ==> forall j :: 0 <= j < r.value ==> !Present(st, keys[j])
    ensures r.None? <==> forall j :: 0 <= j < |keys| ==> !Present(st, keys[j])
  {
    if keys == [] then None
    else if Present(st, keys[0]) then Some(0)
    else
      var rest := FirstPresent(st, keys[1..]);
      if rest.Some? then Some(rest.value + 1) else None
  }

  /** Loading finds nothing at the current key and has a legacy key to migrate from. */
  predicate NeedsMigration(st: Storage) {
    !Present(st, STORAGE_KEY) && FirstPresent(st, LEGACY_KEYS).Some?
  }

  /** The entries `loadEntries` returns for a storage state. */
  function Loaded(st: Storage): (byDate: map<string, Entry>)
    ensures Keyed(byDate) && AllNormal(byDate) && "" !in byDate
  {
    if Present(st, STORAGE_KEY) then Normalized(SafeJsonParse(GetItem(st, STORAGE_KEY), JArr([])))
    else
      match FirstPresent(st, LEGACY_KEYS)
      case Some(i) => Normalized(SafeJsonParse(GetItem(st, LEGACY_KEYS[i]), JArr([])))
      case None => map[]
  }

  /** Where loading reads from: the current key, else the first legacy key holding text, newest first. */
  lemma LoadSource(st: Storage, i: nat)
    requires i < |LEGACY_KEYS| && !Present(st, STORAGE_KEY) && Present(st, LEGACY_KEYS[i])
    requires forall j :: 0 <= j < i ==> !Present(st, LEGACY_KEYS[j])
    ensures Loaded(st) == Normalized(SafeJsonParse(Some(st[LEGACY_KEYS[i]]), JArr([])))
  {
    var r := FirstPresent(st, LEGACY_KEYS);
    assert r.Some?;
    assert !(r.value < i);
    assert r.value == i;
  }

  /** With no text at the current key nor at any legacy key, loading gives no entries. */
  lemma LoadedEmpty(st: Storage)
    requires !Present(st, STORAGE_KEY)
    requires forall j :: 0 <= j < |LEGACY_KEYS| ==> !Present(st, LEGACY_KEYS[j])
    ensures Loaded(st) == map[]
  {
  }

  // ---- The order `saveEntries` sorts by ----

  /** `a.localeCompare(b) < 0` on ISO date strings: code-point lexicographic order. */
  predicate Before(a: string, b: string) {
    if a == [] then b != []
    else if b == [] then false
    else if a[0] == b[0] then Before(a[1..], b[1..])
    else a[0] < b[0]
  }

  lemma {:induction false} BeforeIrreflexive(a: string)
    ensures !Before(a, a)
  {
    if a != [] {
      BeforeIrreflexive(a[1..]);
    }
  }

  lemma {:induction false} BeforeTransitive(a: string, b: string, c: string)
    requires Before(a, b) && Before(b, c)
    ensures Before(a, c)
  {
    if a != [] && b != [] && c != [] && a[0] == b[0] && b[0] == c[0] {
      BeforeTransitive(a[1..], b[1..], c[1..]);
    }
  }

  lemma {:induction false} BeforeTotal(a: string, b: string)
    requires a != b
    ensures Before(a, b) || Before(b, a)
  {
    if a != [] && b != [] && a[0] == b[0] {
      assert a == [a[0]] + a[1..] && b == [b[0]] + b[1..];
      BeforeTotal(a[1..], b[1..]);
    }
  }

  /** `d` is the first date of `s`. */
  predicate Earliest(d: string, s: set<string>) {
    d in s && forall x :: x in s && x != d ==> Before(d, x)
  }

  /** Every non-empty finite set of dates has a first one. */
  lemma {:induction false} EarliestExists(s: set<string>)
    requires s != {}
    ensures exists d :: Earliest(d, s)
  {
    var y :| y in s;
    if s == {y} {
      assert Earliest(y, s);
    } else {
      var r := s - {y};
      EarliestExists(r);
      var d :| Earliest(d, r);
      if Before(d, y) {
        forall x | x in s && x != d
          ensures Before(d, x)
        {
          if x != y {
            assert x in r;
          }
        }
        assert Earliest(d, s);
      } else {
        BeforeTotal(d, y);
        forall x | x in s && x != y
          ensures Before(y, x)
        {
          if x != d {
            assert x in r;
            BeforeTransitive(y, d, x);
          }
        }
        assert Earliest(y, s);
      }
    }
  }

  // ---- The array written to storage ----

  /** The date an element of the stored array carries. */
  function DateKey(v: Json): string {
    if v.JObj? && Get(v.fields, "dateISO").JStr? then Get(v.fields, "dateISO").s else ""
  }

  /** The dates an array's elements carry. */
  function DateKeys(arr: seq<Json>): set<string> {
    if arr == [] then {} else DateKeys(arr[..|arr| - 1]) + {DateKey(arr[|arr| - 1])}
  }

  lemma DateKeysAppend(arr: seq<Json>, x: Json)
    ensures DateKeys(arr + [x]) == DateKeys(arr) + {DateKey(x)}
  {
    assert (arr + [x])[..|arr|] == arr;
  }

  /** `x` is the record `m` holds under the date `x` carries. */
  predicate RecordOf(x: Json, m: map<string, Entry>) {
    DateKey(x) in m && x == JObj(m[DateKey(x)])
  }

  /** No two elements carry the same date. */
  predicate DistinctDates(arr: seq<Json>) {
    forall i, j :: 0 <= i < j < |arr| ==> DateKey(arr[i]) != DateKey(arr[j])
  }

  /** `arr` lists each record of `m` exactly once, as an object carrying its date. */
  predicate Listing(arr: seq<Json>, m: map<string, Entry>) {
    && DateKeys(arr) == m.Keys
    && (forall i :: 0 <= i < |arr| ==> RecordOf(arr[i], m))
    && DistinctDates(arr)
  }

  /** Strictly ascending by date. */
  predicate SortedByDate(arr: seq<Json>) {
    forall i, j :: 0 <= i < j < |arr| ==> Before(DateKey(arr[i]), DateKey(arr[j]))
  }

  /** A listing under construction: `arr` holds, once each, the records of every date not in `rest`. */
  predicate ListedExcept(arr: seq<Json>, m: map<string, Entry>, rest: set<string>) {
    && rest <= m.Keys
    && DateKeys(arr) == m.Keys - rest
    && (forall i :: 0 <= i < |arr| ==> RecordOf(arr[i], m) && DateKey(arr[i]) !in rest)
    && DistinctDates(arr)
  }

  /** Appending the record of a date still to go keeps the construction on track. */
  lemma ListStep(arr: seq<Json>, m: map<string, Entry>, rest: set<string>, d: string)
    requires Keyed(m) && ListedExcept(arr, m, rest) && d in rest
    ensures DateKey(JObj(m[d])) == d
    ensures ListedExcept(arr + [JObj(m[d])], m, rest - {d})
  {
    var x := JObj(m[d]);
    var a := arr + [x];
    assert DateKey(x) == d;
    DateKeysAppend(arr, x);
    forall i | 0 <= i < |a|
      ensures RecordOf(a[i], m) && DateKey(a[i]) !in rest - {d}
    {
      if i < |arr| {
        assert a[i] == arr[i];
      }
    }
    forall i, j | 0 <= i < j < |a|
      ensures DateKey(a[i]) != DateKey(a[j])
    {
      assert a[i] == arr[i];
      if j < |arr| {
        assert a[j] == arr[j];
      }
    }
  }

  /** Sorted so far, and every listed date comes before every date still to go. */
  predicate SortedBelow(arr: seq<Json>, rest: set<string>) {
    && SortedByDate(arr)
    && forall i, x :: 0 <= i < |arr| && x in rest ==> Before(DateKey(arr[i]), x)
  }

  /** Appending the earliest date still to go keeps the listing sorted. */
  lemma SortedStep(arr: seq<Json>, rest: set<string>, x: Json)
    requires SortedBelow(arr, rest) && Earliest(DateKey(x), rest)
    ensures SortedBelow(arr + [x], rest - {DateKey(x)})
  {
    var a := arr + [x];
    forall i, j | 0 <= i < j < |a|
      ensures Before(DateKey(a[i]), DateKey(a[j]))
    {
      assert a[i] == arr[i];
      if j < |arr| {
        assert a[j] == arr[j];
      }
    }
    forall i, y | 0 <= i < |a| && y in rest - {DateKey(x)}
      ensures Before(DateKey(a[i]), y)
    {
      if i < |arr| {
        assert a[i] == arr[i];
      }
    }
  }

  /** `Object.values(byDate).sort(by dateISO)`: picks the earliest remaining date each round. */
  method SortedListing(m: map<string, Entry>) returns (arr: seq<Json>)
    requires Keyed(m)
    ensures Listing(arr, m) && SortedByDate(arr)
  {
    arr := [];
    var rest := m.Keys;
    while rest != {}
      invariant ListedExcept(arr, m, rest)
      invariant SortedBelow(arr, rest)
      decreases |rest|
    {
      EarliestExists(rest);
      var d :| Earliest(d, rest);
      ListStep(arr, m, rest, d);
      SortedStep(arr, rest, JObj(m[d]));
      arr := arr + [JObj(m[d])];
      rest := rest - {d};
    }
  }

  /** `Object.values(migrated)`: every record once, in an order the model leaves open. */
  method AnyListing(m: map<string, Entry>) returns (arr: seq<Json>)
    requires Keyed(m)
    ensures Listing(arr, m)
  {
    arr := [];
    var rest := m.Keys;
    while rest != {}
      invariant ListedExcept(arr, m, rest)
      decreases |rest|
    {
      var d :| d in rest;
      ListStep(arr, m, rest, d);
      arr := arr + [JObj(m[d])];
      rest := rest - {d};
    }
  }

  // ---- Round trip ----

  /** Loading keeps element `x` as the record `m` holds under its date. */
  predicate Reloads(x: Json, m: map<string, Entry>) {
    && DateOf(x) == Some(DateKey(x))
    && DateKey(x) in m
    && EntryFor(x.fields, DateKey(x), true) == m[DateKey(x)]
  }

  /** A normal record of a listing is loaded back as itself. */
  lemma ReloadRecord(x: Json, m: map<string, Entry>)
    requires Keyed(m) && AllNormal(m) && "" !in m && RecordOf(x, m)
    ensures Reloads(x, m)
  {
    var d := DateKey(x);
    NormalIsFixpoint(m[d], d);
  }

  /** Loading keeps every element of `arr` as the record `m` holds under its date. */
  predicate AllReload(arr: seq<Json>, m: map<string, Entry>) {
    arr == [] || (AllReload(arr[..|arr| - 1], m) && Reloads(arr[|arr| - 1], m))
  }

  lemma {:induction false} ListingReloads(arr: seq<Json>, m: map<string, Entry>)
    requires Keyed(m) && AllNormal(m) && "" !in m
    requires forall i :: 0 <= i < |arr| ==> RecordOf(arr[i], m)
    ensures AllReload(arr, m)
  {
    if arr != [] {
      var front := arr[..|arr| - 1];
      assert forall i :: 0 <= i < |front| ==> front[i] == arr[i];
      ListingReloads(front, m);
      ReloadRecord(arr[|arr| - 1], m);
    }
  }

  /** Collecting elements that reload gives exactly their dates, each mapped to its record in `m`. */
  lemma {:induction false} CollectListing(arr: seq<Json>, m: map<string, Entry>)
    requires AllReload(arr, m)
    ensures Collect(arr, true).Keys == DateKeys(arr)
    ensures forall d :: d in Collect(arr, true) ==> d in m && Collect(arr, true)[d] == m[d]
  {
    if arr != [] {
      CollectListing(arr[..|arr| - 1], m);
    }
  }

  /** Loading with a parsed array at the current key normalises that array. */
  lemma LoadCurrent(st: Storage, arr: seq<Json>)
    ensures Loaded(st[STORAGE_KEY := Wellformed(JArr(arr))]) == Collect(arr, true)
  {
    var st' := st[STORAGE_KEY := Wellformed(JArr(arr))];
    assert Present(st', STORAGE_KEY);
    assert SafeJsonParse(GetItem(st', STORAGE_KEY), JArr([])) == JArr(arr);
  }

  /**
   * Loading what saving wrote gives back the saved map, for any order of
   * the array, when every record is normal, keyed by its own date and that
   * date is not empty.
   */
  lemma SaveLoadRoundTrip(st: Storage, arr: seq<Json>, m: map<string, Entry>)
    requires Keyed(m) && AllNormal(m) && "" !in m && Listing(arr, m)
    ensures Loaded(st[STORAGE_KEY := Wellformed(JArr(arr))]) == m
  {
    LoadCurrent(st, arr);
    ListingReloads(arr, m);
    ReloadedIsSame(arr, m);
  }

  lemma ReloadedIsSame(arr: seq<Json>, m: map<string, Entry>)
    requires AllReload(arr, m) && DateKeys(arr) == m.Keys
    ensures Collect(arr, true) == m
  {
    CollectListing(arr, m);
  }

  /** After migration writes the migrated records to the current key, loading again gives the same map. */
  lemma MigrationIsStable(st: Storage, arr: seq<Json>)
    requires Listing(arr, Loaded(st))
    ensures Loaded(st[STORAGE_KEY := Wellformed(JArr(arr))]) == Loaded(st)
  {
    SaveLoadRoundTrip(st, arr, Loaded(st));
  }

  /** `getOrCreate`: the stored record, or the default for that date; the store is not touched. */
  function GetOrCreate(m: map<string, Entry>, iso: string): (e: Entry)
    ensures Keyed(m) ==> Get(e, "dateISO") == JStr(iso)
    ensures iso in m ==> e == m[iso]
    ensures iso !in m ==> e == DefaultEntry(iso)
  {
    if iso in m then m[iso] else DefaultEntry(iso)
  }
}
