# Wellbeing tracker core in Dafny

This project models the data and analytics core of the single-page
wellbeing tracker (`app.js`). The tracker keeps one record per calendar day:
scores, food notes, cycle details, food tags and a few yes/no flags. Records
are stored under one `localStorage` key as a JSON array. The dashboard then
summarises a snapshot of the records. The model covers the following:

- **Raw JSON** (`JsonValue`): the values `JSON.parse` can produce, with objects
  as maps. It includes the JavaScript truthiness test and object spread
  (`{...v}`), where a string or array spreads by index.
- **Records** (`EntryModel`): the default record of a date
  (`DEFAULT_ENTRY`), the one-level-deep `deepMerge`, the `foodTags` fallback,
  and normalisation of one stored object.
- **The store** (`Store`): storage is an abstract map from key to the text
  stored there. That text is classified by what `JSON.parse` makes of it:
  empty, malformed, or a well-formed value. The module covers `safeJsonParse`,
  `normalizeEntries` (a loop with a last-wins overwrite), `loadEntries` with
  its migration from the four legacy keys, `saveEntries` (sorted by date) and
  `getOrCreate`.
- **The page state** (`App.Tracker`): a class holding the storage, the
  in-memory map `entriesByDate`, the selected date and the draft being edited.
  Its methods are:
  - the start-up load;
  - `setSelectedDate`;
  - the save button, which replaces one record, stamps `savedAt` and confirms
    the write by reading storage back;
  - the import button, which either rejects the text or replaces the whole
    store;
  - the two dashboard projections, `computeRange` and `computeAllTimeData`.
- **Helpers and statistics** (`Stats`, `FormHelpers`): `clamp`, `fmt`
  (rounding to tenths, or a dash for null), `avg`, `countValid` and
  `diffMeans`. Means use exact `real` arithmetic. Also modelled: the tri-state
  select converters and `isEntryFilled`.
- **Dashboard points** (`Projection`): the day points of a range, with the
  calendar abstracted as a day index plus a naming function `isoOf`. Also the
  point made of each stored record.
- **Aggregation** (`Analytics`, `Insights`, `TagComparisons`, `Sorting`):
  - the KPI figures;
  - `computePhaseAverages`, as a loop that pushes into per-phase groups;
  - the gated insight cards, of which at most three are shown, with a
    placeholder when there are none;
  - the tag × metric comparison rows: built in nested loops, sorted stably by
    the absolute value of the rounded delta, and cut to ten.

One behaviour worth knowing is modelled as written. The save handler
confirms a save when the written array contains the record. A record saved
under the empty date is therefore confirmed, but the next load drops it,
because `normalizeEntries` skips records without a date.
`App.SaveThenLoadKeys` states this: after a save, the loaded keys are the
in-memory keys minus `""`.

## Model

| member | source | states |
|---|---|---|
| JsonValue.IndexKey | app.js:56 | the key an array or string element spreads under is never empty |
| JsonValue.Chars | app.js:56 | spreading a string yields one entry per character |
| JsonValue.NumberOrNull | app.js:584 | a value reads as a number exactly when it is a JSON number (`typeof v === "number"`) |
| Stats.ValidValues | app.js:122 | the kept numbers are no more than the inputs, and there are none exactly when every input is null |
| Stats.CountValid | app.js:127-129 | the count is at most the length and is zero exactly when every element is null |
| Stats.Avg | app.js:121-125 | null exactly when no element is a number; otherwise the mean times the count equals the sum of the valid numbers |
| Stats.DiffMeans | app.js:645-649 | defined exactly when both means are defined, and then it is the first mean minus the second |
| Stats.OnlyValid | app.js:122 | the filtered list holds only numbers |
| Stats.OnlyValidValues | app.js:122 | filtering out nulls first does not change the numbers the mean uses |
| Stats.ValidValuesAppend | app.js:122 | the valid numbers of a concatenation are those of each part, in order |
| Stats.Sum | app.js:124 | the `reduce` total of the valid numbers; no contract of its own, its bounds are stated by `Stats.SumBounds` |
| Stats.AvgOfOnlyValid | app.js:121-125 | the mean ignores nulls: it is the same as the mean of the numbers alone |
| Stats.SumBounds | app.js:124 | a sum of numbers between lo and hi lies between n·lo and n·hi |
| Stats.ValidValuesFrom | app.js:122 | bounds on the inputs carry over to the kept numbers |
| Stats.AvgWithinBounds | app.js:121-125 | a defined mean lies between any bounds of its valid inputs |
| Stats.AvgExample | app.js:121-129 | on [null, 3, null, 7] the count is 2 and the mean is 5 |
| Stats.RoundTenths | app.js:105 | the rounded tenths lie within half a tenth of the value, rounding halves up |
| Stats.Fmt | app.js:103-106 | a dash exactly for null; otherwise tenths within half a tenth of the value |
| FormHelpers.Clamp | app.js:101 | the result is at least min, at most max when min ≤ max, the input when in range, and the nearer bound otherwise |
| FormHelpers.SelectValueToBool | app.js:137-141 | always true, false or null; a boolean exactly for "true" and "false" |
| FormHelpers.BoolToSelectValue | app.js:132-136 | always one of the three option strings; converting back gives the original tri-state, and anything else gives null |
| FormHelpers.SelectValueRoundTrip | app.js:132-141 | each of the three option strings survives string → value → string |
| FormHelpers.IsEntryFilled | app.js:143-154 | a missing record is never filled; a record with any numeric score is filled |
| FormHelpers.DefaultIsTrimSafe | app.js:143-154 | the default record has only string text fields |
| FormHelpers.DefaultIsNotFilled | app.js:27-46 | the default record of any date does not count as filled |
| FormHelpers.FilledIgnoresOtherKeys | app.js:143-154 | changing a key the test never reads does not change whether a record is filled |
| FormHelpers.DefaultFoodIsBlank | app.js:27-46 | every default food note is an empty string |
| FormHelpers.DefaultGiversAreBlank | app.js:27-46 | every default energy-giver slot is an empty string |
| EntryModel.DeepMerge | app.js:52-62 | keys are those of both sides; default keys the patch lacks are kept; non-object patch values (arrays, primitives, null) replace wholesale; object patch values override the default's nested object key by key, one level only |
| EntryModel.FillFoodTags | app.js:70 | afterwards `foodTags` is truthy, other keys are unchanged, a truthy `foodTags` is left as it is, and a missing or falsy one becomes the empty object |
| EntryModel.NormalizeEntry | app.js:68-70 | the normalised record has every default key, every key of the stored object and `foodTags`; `foodTags` is truthy; a stored non-object value is kept as stored; a default key the object lacks keeps its default |
| EntryModel.DefaultEntry | app.js:27-46 | the zero-value record of a date: its date, null scores, blank texts, empty tags, not saved; no contract of its own, its properties are stated by `EntryModel.DefaultIsNormal`, `EntryModel.NormalizeBareDate`, `FormHelpers.DefaultIsNotFilled` and `Projection.DefaultDataPoint` |
| EntryModel.NormalizeIsNormal | app.js:64-74 | normalising a record keyed by its own date gives a normal record: every default key is present and `foodTags` is truthy |
| EntryModel.NormalIsFixpoint | app.js:64-74 | a record is normal exactly when it carries its date and normalisation leaves it unchanged |
| EntryModel.NormalizeIdempotent | app.js:64-74 | normalising an already-normalised record returns it unchanged |
| EntryModel.DeepMergeIdempotent | app.js:52-62 | merging the same patch twice equals merging it once |
| EntryModel.NormalizeBareDate | app.js:27-74 | an object holding only a date normalises to the default record of that date |
| EntryModel.NormalizePatchedScore | app.js:52-74 | a stored score overrides the default null and nothing else changes |
| EntryModel.DefaultIsNormal | app.js:27-46 | the default record is normal for its date |
| Store.SafeJsonParse | app.js:48-50 | a parsed non-null value is returned; missing, empty or malformed text, or text that parses to null, gives the fallback |
| Store.DateOf | app.js:67 | an element counts exactly when it is an object whose `dateISO` is a non-empty string, and the key is that string |
| Store.Collect | app.js:64-74 | every collected record is keyed by its own date, the empty date never appears, and with the `foodTags` fallback every record is normal |
| Store.CollectKeys | app.js:64-74 | the keys are exactly the dates of the elements that carry one, so undated elements are dropped |
| Store.CollectLastWins | app.js:71 | the record under a date comes from the last element carrying that date |
| Store.Normalized | app.js:64-74 | a non-array input gives the empty map; the result is keyed, normal and has no empty date |
| Store.NormalizeEntries | app.js:64-74 | the `forEach` loop builds exactly the normalised map |
| Store.CollectStep | app.js:66-72 | one more element overwrites (or adds) only its own date |
| Store.FirstPresent | app.js:80-88 | finds the first legacy key holding non-empty text, in the order v4, v3, v2, v1, or none |
| Store.Loaded | app.js:76-90 | the loaded map is keyed, normal and has no empty date |
| Store.LoadSource | app.js:80-88 | when the current key is empty, the first non-empty legacy key is the one loaded |
| Store.LoadedEmpty | app.js:89 | when neither the current key nor any legacy key holds text, loading gives the empty map |
| Store.BeforeIrreflexive | app.js:93 | the date order used for sorting is irreflexive |
| Store.BeforeTransitive | app.js:93 | the date order is transitive |
| Store.BeforeTotal | app.js:93 | any two different dates are ordered |
| Store.EarliestExists | app.js:93 | every non-empty set of dates has an earliest one |
| Store.DateKeysAppend | app.js:92-95 | the dates of a written array grow by the date of each pushed record |
| Store.ListStep | app.js:92-95 | pushing the record of a not-yet-written date keeps the array an exact, duplicate-free listing of the map |
| Store.SortedStep | app.js:93 | pushing the earliest remaining date keeps the array sorted ascending by date |
| Store.SortedListing | app.js:92-95 | the written array lists every record of the map exactly once, sorted ascending by date |
| Store.AnyListing | app.js:85 | the migration write lists every record exactly once, in no particular order |
| Store.ReloadRecord | app.js:64-74 | a written normal record reads back as itself under its own date |
| Store.ListingReloads | app.js:64-74 | every record of a listing of a normal map reads back as itself |
| Store.CollectListing | app.js:64-74 | reading a listing back yields its dates, each with its original record |
| Store.LoadCurrent | app.js:77-78 | when the current key holds an array, loading normalises exactly that array |
| Store.SaveLoadRoundTrip | app.js:76-95 | writing a listing of a normal map and loading it again returns the same map |
| Store.ReloadedIsSame | app.js:64-74 | a listing whose dates are the map's keys reads back as the map itself |
| Store.MigrationIsStable | app.js:83-86 | after the migration write, the next load returns the migrated map, without migrating again |
| Store.GetOrCreate | app.js:97-99 | the stored record when the date is present, otherwise the default record of that date (nothing is inserted); either way it carries that date |
| Projection.Score | app.js:584-587 | a score is present exactly when the record holds a number under that key |
| Projection.Minutes | app.js:588-589 | numeric minutes are kept; anything else becomes 0 |
| Projection.Slice | app.js:583 | `String.slice` within bounds is the substring, and past the end it is empty |
| Projection.Label | app.js:583 | for a date string of at least ten characters the label is five characters: the day, a dash, the month |
| Projection.LabelIsDayMonth | app.js:583 | the label of a `yyyy-mm-dd` date is `dd-mm` |
| Projection.Lookup | app.js:580 | the day's record is found exactly when its date is stored |
| Projection.RangePointOf | app.js:580-590 | the point carries its date and that date's label; a day without a record has no scores |
| Projection.AbsentDayIsEmpty | app.js:580-590 | a day without a record has null scores and 0 minutes, the same as a day holding only the default record |
| Projection.RangeScorePresent | app.js:584-587 | each score of a day is present exactly when that day's record holds a number |
| Projection.Range | app.js:571-593 | n days give exactly n points (none for n ≤ 0), the last one carrying the name and label of the day `isoOf(end)` |
| Projection.RangeDays | app.js:571-593 | `computeRange(end, n)` yields exactly n points, one per consecutive day index, the last being the day index `end` (named `isoOf(end)`) |
| Projection.RangeDatesDistinct | app.js:571-593 | the days of a range carry distinct dates |
| Projection.RangeEndsAtAnchor | app.js:571-593 | the last point of a non-empty range is the day named `isoOf(end)` |
| Projection.DataPointOf | app.js:596-609 | the point carries the record's date; its phase and caffeine timing are never null (the `??` defaults); its tags are always truthy |
| Projection.DefaultDataPoint | app.js:595-610 | a default record gives a point with no scores, 0 minutes, phase "unknown", caffeine "none", no late screen and no tags |
| Projection.ScreenLateOnlyTrue | app.js:607 | only a stored `true` counts as a late screen |
| Projection.MissingPhaseIsUnknown | app.js:604-606 | a null phase becomes "unknown" and a null caffeine timing becomes "none"; any other value is kept |
| Analytics.Column | app.js:614-617 | the metric column has one entry per point, each that point's score |
| Analytics.Where | app.js:655-656 | a filter keeps at most the points it is given |
| Analytics.WhereAppend | app.js:655-656 | filtering a list with one more point adds that point exactly when it passes |
| Analytics.ColumnAppend | app.js:614-617 | the column of a concatenation is the concatenation of the columns |
| Analytics.WhereKeepsExactly | app.js:655-656 | a point is kept exactly when it is in the data and passes the test |
| Analytics.TotalMinutes | app.js:618-619 | the minute total is never negative when no point has negative minutes |
| Analytics.TotalMinutesAdditive | app.js:618-619 | the minute totals add up over concatenated data |
| Analytics.KpisOf | app.js:612-628 | each of the four mean KPIs shows a dash exactly when no point has that score |
| Analytics.KpiDash | app.js:614-617 | a mean KPI shows a dash exactly when no point has that score |
| Analytics.KpisOfNothing | app.js:612-628 | with no data, the KPIs are four dashes and zero minutes |
| Analytics.PhaseOf | app.js:633-634 | a phase value names a group exactly when it is one of the four phase keys |
| Analytics.PhaseAverages | app.js:630-643 | exactly four records, in the fixed order menstrual, follicular, ovulation, luteal |
| Analytics.InPhaseAppend | app.js:633-638 | one more point joins only the group of its own phase |
| Analytics.OtherPhaseIgnored | app.js:634 | a point with any other phase changes no record |
| Analytics.OtherRecordsUnchanged | app.js:633-638 | a point leaves every other phase's record unchanged |
| Analytics.CollectedStep | app.js:635-637 | one more point pushes its numeric energy, focus and sleep scores onto its own phase's group only |
| Analytics.PushedCollects | app.js:633-638 | the pushed groups hold exactly the numeric scores of the points of each phase |
| Analytics.FillGroups | app.js:631-638 | the grouping loop leaves in each phase's group exactly the numeric scores of its points |
| Analytics.ComputePhaseAverages | app.js:630-643 | the method returns exactly the four phase records of the data |
| Analytics.AverageOfGroup | app.js:639-642 | each record's means are the means of its group's arrays |
| Analytics.PhaseFocusWithin | app.js:630-643 | a phase's focus mean lies within any bounds of the focus scores |
| Insights.CaffeineInsight | app.js:655-660 | the card appears exactly when both the evening and the other points have at least 4 sleep scores; its delta is the non-evening mean minus the evening mean |
| Insights.ScreenInsight | app.js:662-667 | the card appears exactly when both sides have at least 4 sleep scores; its delta is the mean without a late screen minus the mean with one |
| Insights.StressInsight | app.js:669-675 | the card appears exactly when at least 4 points have stress ≥ 7 and at least 4 have stress ≤ 3 (the gate counts points, not scores); it shows focus at low stress minus focus at high stress, and symptom load at high stress minus symptom load at low stress |
| Insights.ColumnDefined | app.js:121-125 | a column's mean is defined exactly when some point has that score |
| Insights.StressCardDefined | app.js:671-673 | each of the stress card's deltas is defined exactly when both groups contain that score |
| Insights.StressGroupsDisjoint | app.js:669-670 | no point is in both the high-stress and the low-stress group |
| Insights.FocusDefined | app.js:678 | keeps exactly the phase records with a defined focus mean |
| Insights.PhaseCard | app.js:679-686 | a card needs at least two defined phases and carries a gap of at least 0.5 |
| Insights.PhaseInsight | app.js:677-687 | the phase insight is always a phase-focus card |
| Insights.PhaseCardChoice | app.js:680-683 | the card compares the first phase with the highest focus mean against the first with the lowest |
| Insights.PhaseCardGate | app.js:679-686 | the card appears exactly when two phases' focus means differ by at least 0.5 |
| Insights.PhaseGapShows | app.js:679-686 | any two phases at least 0.5 apart make the card appear |
| Insights.Listed | app.js:658 | a card is pushed exactly when there is one |
| Insights.ShownOf | app.js:689 | one to three cards: the placeholder alone when there is no candidate, otherwise the first min(3, n) candidates in order |
| Insights.PushCard | app.js:658 | pushing appends the card when there is one and otherwise leaves the list unchanged |
| Insights.PhaseFocusCard | app.js:677-687 | the method computes exactly the phase card of the defined phases |
| Insights.RenderInsights | app.js:651-689 | the list shown is exactly the first three candidate cards, or the placeholder |
| Insights.CandidatesShape | app.js:651-687 | at most four candidate cards, never the placeholder |
| Insights.ShownBounds | app.js:689 | between one and three cards are shown; the placeholder alone exactly when no card qualifies; otherwise the first three candidates in order |
| Insights.FewEveningsNoCaffeineCard | app.js:657 | fewer than 4 evening-caffeine points means no caffeine card |
| Insights.AvgOfFour | app.js:121-125 | four numbers count 4 and average to their sum over 4 |
| Insights.CaffeineExample | app.js:655-660 | evening [8,7,6,5] against not-evening [9,8,9,8] gives a delta of 2.0, shown as the first card |
| TagComparisons.TagIndex | app.js:4-14 | each food tag has a position in the fixed tag list |
| TagComparisons.MetricIndex | app.js:701-706 | each metric has a position in the fixed metric list |
| TagComparisons.RowOf | app.js:709-716 | a row exists exactly when both the tag-on and the tag-off groups hold at least 4 numbers; it carries both means and counts, and delta = on-mean − off-mean |
| TagComparisons.RowList | app.js:714-715 | a row is pushed exactly when the gate holds |
| TagComparisons.TableLabelled | app.js:707-718 | each row is labelled with the tag and metric it compares |
| TagComparisons.DeltaAbs | app.js:720-725 | the sort key is never negative; it is the absolute value of the rounded delta |
| TagComparisons.DeltaKey | app.js:720-726 | a row's sort key is never negative and lies within half a tenth of the absolute delta |
| TagComparisons.FirstRows | app.js:733 | at most ten rows are shown, and they are the first rows of the sorted list |
| TagComparisons.MetricRowsStep | app.js:708-717 | each metric adds its row, if any, after the previous metrics' rows |
| TagComparisons.PushRow | app.js:709-716 | the gate pushes exactly the row the comparison defines, and no other |
| TagComparisons.CompareTag | app.js:708-717 | the inner loop appends the rows of one tag, in metric order |
| TagComparisons.RenderTagComparisons | app.js:698-733 | the nested loops, the stable sort and the cut yield exactly the specified rows shown |
| TagComparisons.MetricRowsMembers | app.js:708-717 | a row is in one tag's rows exactly when some metric's comparison yields it |
| TagComparisons.TagRowsMembers | app.js:707-718 | a row is in the rows exactly when some tag's rows contain it |
| TagComparisons.RowsExactly | app.js:707-718 | a row is listed exactly when its comparison passes the gate and yields that row |
| TagComparisons.RanksAppend | app.js:707-718 | rows from consecutive position ranges stay in strictly increasing position order |
| TagComparisons.MetricRowsRanks | app.js:708-717 | one tag's rows appear in metric order |
| TagComparisons.TagRowsRanks | app.js:707-718 | the rows appear in tag-then-metric order |
| TagComparisons.RowsInListOrder | app.js:707-718 | before sorting, the rows are strictly in tag-then-metric order, so none repeats |
| TagComparisons.ShownIsPrefix | app.js:726-733 | the sort keeps every row; the shown rows are the first min(n, 10) of the sorted list; nothing is shown exactly when no row qualifies |
| TagComparisons.ShownLargestFirst | app.js:726 | the sorted rows are a permutation by descending absolute delta, and no cut row has a larger key than a shown one |
| TagComparisons.ShownTiesInListOrder | app.js:726 | rows with equal keys keep their tag-then-metric order (the sort is stable) |
| TagComparisons.UnusedTagHasNoRow | app.js:709-713 | a tag set on no point yields no row for any metric |
| Sorting.Insert | app.js:726 | inserting adds exactly the one element |
| Sorting.SortDesc | app.js:726 | sorting is a permutation |
| Sorting.InsertSorted | app.js:726 | inserting into a descending list keeps it descending |
| Sorting.SortDescSorted | app.js:726 | the result is in descending key order and a permutation of the input |
| Sorting.WithKeyAppend | app.js:726 | the elements with a given key, taken from a concatenation, are those of each part in order |
| Sorting.WithKeyBelow | app.js:726 | a list whose keys are all below k has no element with key k |
| Sorting.SortedTail | app.js:726 | the tail of a descending list is descending and no key in it exceeds the head's |
| Sorting.InsertStable | app.js:726 | insertion puts a new element after the existing elements with the same key |
| Sorting.InsertStableBehind | app.js:726 | insertion past a head with a key at least as large keeps the order of equal keys |
| Sorting.InsertStableAhead | app.js:726 | insertion before a smaller head keeps the order of equal keys |
| Sorting.SortDescStable | app.js:726 | the elements with any given key keep their input order |
| Sorting.WithKeyFirst | app.js:680 | the first element with a key is the first position holding it |
| Sorting.HeadIsFirstMax | app.js:680-681 | the head of the sort is the first element with the largest key |
| App.WithTouched | app.js:320 | the draft gains a truthy `_touched`, and every other field is kept |
| App.ToSave | app.js:506-508 | the saved record drops `_touched`, sets `savedAt` to the time stamp, and keeps every other field |
| App.ImportEntries | app.js:392-393 | the import loop keys each dated element by its date, last wins, with no `foodTags` fallback |
| App.AllTimeStep | app.js:595-610 | visiting one more stored date adds its point exactly when the date is non-empty |
| App.Tracker.constructor | app.js:184-186 | start-up loads the store; when it migrates, a listing of the migrated records is written under the current key and every other key is untouched, and otherwise storage is left alone; it then selects today and drafts today's record |
| App.Tracker.LoadEntries | app.js:76-90 | the in-memory map is the loaded map; the migration write holds a listing of it and reloads to the same map; without migration storage is untouched |
| App.Tracker.SaveEntries | app.js:92-95 | storage gets a sorted listing of the in-memory map under the current key, and nothing else changes |
| App.Tracker.SetSelectedDate | app.js:316-321 | selects the date and drafts the stored record or the default, with `_touched`; the store is untouched |
| App.Tracker.Save | app.js:505-515 | only the selected date's record changes (to the draft without `_touched`, with the new `savedAt`); storage holds a sorted listing of the new map; the write is confirmed |
| App.Confirmed | app.js:513-515 | the confirmation test: the re-read value is an array with an object carrying the selected date and the new stamp; no contract of its own, `App.SavedIsListed` and `App.Tracker.Save` state that it holds |
| App.SavedIsListed | app.js:513-515 | a saved record is found in the written array, so the confirmation holds |
| App.Tracker.Import | app.js:389-398 | imports exactly when the text parses to an array; otherwise nothing changes; on an array the map is replaced by the imported records, written under the current key sorted by date with every other key untouched, and the draft is re-selected |
| App.Tracker.ComputeRange | app.js:571-593 | the counting loop builds exactly the range of `daysBack` points ending at `end` |
| App.Tracker.ComputeAllTimeData | app.js:595-610 | one point per stored record with a non-empty date, each from its own record, with no date twice |
| App.DateKeysMember | app.js:93 | every date of a written array belongs to some element |
| App.DateKeysHas | app.js:93 | each element's date is among the array's dates |
| App.DatesInKeys | app.js:67 | the dates that reload are the written dates except the empty one |
| App.SaveThenLoadKeys | app.js:76-95 | after a save, the next load holds exactly the in-memory dates except the empty date |
| App.SaveThenLoadRecord | app.js:64-95 | after a save, every non-empty date loads back as the normalised form of the record saved |
| App.ImportLastWins | app.js:393 | an imported date holds the default merged with the last element carrying it |
| App.ImportedMissingIsDefault | app.js:393 | a date no element carries reads back as its default record |

## Left out

- The service worker, DOM binding, form rendering, toasts, alerts, the
  `innerHTML` text of the cards and rows, and the canvas charts are not
  modelled. These are display only. The cards and rows are returned as
  records instead.
- Draft edits made by the form handlers are left out. These include the
  clamping in the input handlers and the `_touched` marks per field. The
  draft enters the model through `SetSelectedDate`; `Save` takes it as it
  stands.
- `localStorage`, `JSON.parse` and `JSON.stringify` are abstract. Storage is
  a map from key to the parse outcome of its text. A stored value is not
  serialised, and the deep copies made by `JSON.parse(JSON.stringify(x))`
  are the identity.
- App.Tracker.Save: a storage write that throws (quota exceeded) is not
  modelled, so the confirmation always holds (`ok` is always true).
- The JavaScript `Date`, time zones and `toISOString` are not modelled. A day
  is an integer and its ISO name is the parameter `isoOf`. The save time
  stamp is a parameter.
- Projection.Range: "ends at the anchor day" means the day whose name is
  `isoOf(end)`. In the source, `new Date(endISO)` (app.js:572) reads the date
  as midnight UTC, while `toISODate` (app.js:24) reads local fields. West of
  UTC, every range therefore ends on the day before `endISO`, and the anchor
  day's record is not shown. The model does not capture this shift.
- Object key order is not modelled. The migration writes "some listing" of
  the migrated map (`Store.AnyListing`). `App.Tracker.ComputeAllTimeData`
  visits the dates in an unspecified order, so its points are stated as a
  set of distinct dates.
- `localeCompare` is modelled as code-point order on strings. That is the
  same order for ISO `yyyy-mm-dd` dates.
- Numbers are exact reals. The model has no floating point, no NaN
  (`Number.isNaN` never holds) and no number-to-text conversion. `fmt`
  yields the rounded tenths as an integer, and `deltaAbs` reads that integer
  back instead of parsing text.
- Store.DateOf: a record whose `dateISO` is truthy but not a string (a
  number, say) is dropped. The source keys it by the string form of that
  value. On import, such a record also makes the date comparator of
  `saveEntries` throw a TypeError (app.js:93). The in-memory map has then
  already been replaced (app.js:394), but nothing is written, no success
  alert appears and the date is not re-selected. The model cannot show this
  partial update: its import always completes.
- Analytics.PhaseOf: the source finds a point's phase group with
  `groups[d.phase]` (app.js:634), which also sees the names inherited from
  the object prototype ("constructor", "toString", "hasOwnProperty",
  "__proto__"). A point with such a phase and a numeric score makes the push
  at app.js:635-637 throw a TypeError. The model treats it as any other
  unknown phase and ignores it (`Analytics.OtherPhaseIgnored`).
- Store.Collect: a record dated "__proto__" is an ordinary date in the model.
  In the source, `byDate["__proto__"] = merged` (app.js:71) replaces the
  object's prototype instead of adding a key, so `Object.values` later omits
  that record.
- Projection.DataPointOf: requires the record's date to be a string, since
  only such records reach it from the store.
- The phase of a point is compared as stored. The source's `String()`
  coercion of non-string phases is not modelled.
- FormHelpers.IsEntryFilled: requires every text field it trims to be a
  string or falsy. On any other value the source throws a TypeError, which
  the model does not represent.
- The tag-row sort is a stable insertion sort on a sequence, not in place on
  an array. The result is the same because the source's sort is stable.
- Loops are split into helper methods. `renderTagComparisons` uses
  `CompareTag` and `PushRow`, `renderInsights` uses `PushCard` and
  `PhaseFocusCard`, and import uses `ImportEntries`. Each is a faithful step
  of the original loop.
- The reload of a saved map is stated per key and per record
  (`App.SaveThenLoadKeys`, `App.SaveThenLoadRecord`), not as one map
  equality. For maps that are already normal, `Store.SaveLoadRoundTrip`
  states the equality.
- The export, clipboard and cache-reset handlers are not modelled. They are
  I/O.
