# DPR event detection: a Dafny model of the event bookkeeping

The direct-potable-reuse event detector reads a tag catalog and an event
catalog, pulls one time window of sensor readings, and builds a wide table
with one row per minute and one column per tag. It then backfills missing
columns, adds four derived 0/1 indicator columns, and hands each event's
sub-table to a quality checker. An event is flagged when the checker's
quality index for its primary column is below 1. Finally it notifies about
events that the previous run did not report.

This project models that bookkeeping. The quality checker itself stays
outside. Its calls are recorded as a plan of steps, and its quality index
is an input.

Modules, one per concern:

- `Wrappers` (wrappers.dfy): `Option`, `Result` and the Python exceptions the code can raise.
- `Catalog` (catalog.dfy): the TagIDs-cell parser (`int()` of each comma-separated piece), `dict(zip(...))`, the uniqueness warnings of the two catalog checks, the config-versus-database id comparison and the datetime-order check.
- `Frames` (frames.dfy): the wide table as a value (`Table`: rows by timestamp, plus an explicit column set, because a column of nulls is still a column). `WideFrame` is the table updated in place. The module also holds the two backfill helpers, the all-missing test and main's backfill loops.
- `LongSeries` (long_series.dfy): the query window, the floor to the minute, the empty-window exit, keep-first de-duplication on (TagID, Datetime), naming by tag, and the pivot.
- `DerivedSignals` (derived_signals.dfy): the absolute value of the error and difference tags, and the four indicator columns, both per row and over the table.
- `EventAssembly` (event_assembly.dfy):
  - each event's column list and sub-table;
  - the primary-tag dictionary and how its arguments bind;
  - the time filters by process;
  - the check table as data;
  - the plan of quality-checker calls.
- `EventFlags` (event_flags.dfy): the event loop. It reads the quality index, updates the flags and builds the detected-events list. It exists in two versions: as written, and with the missing-entry case handled.
- `Notification` (notification.dfy): the new-events filter and the stored-events list as a small state machine.

Timestamps are integer seconds. Sensor values are `Option<real>`, where
`None` is a null. Strings are `seq<char>`.

## Model

The rule predicates `DerivedSignals.RoProcessHolds`, `RoMonitoringHolds`,
`RoWaterQualityHolds` and `OzoneWaterQualityHolds` (main.py:177-218) are
definitions. Their meaning over a row is stated by the rows of
`DerivedSignals.DerivedRowMeaning` and `DerivedSignals.DerivedColumnsMeaning`.
The loops `EventFlags.RunAsWritten` and `EventFlags.RunCorrected`
(main.py:231-376) are likewise definitions. What they promise is stated by
the `EventFlags.Run…`, `FlagIffTriggered`, `CorrectedAgreesWhereAsWrittenCompletes`
and `MultiTagEventStopsRun` rows. `Catalog.ParseTagIds` (library.py:159) is
stated by the `Catalog.ParseTagIdsPieces` row.

| member | source | states |
|---|---|---|
| Catalog.ParseInt | library.py:159 | `int()` of one piece: a blank text is a ValueError (`None`), and a value needs at least one digit after the white space is stripped |
| Catalog.IntTextRoundTrip | library.py:159 | `int()` reads the decimal text of every integer back to that integer |
| Catalog.Split | library.py:159 | `str.split(',')` yields at least one piece, no piece holds a comma, and joining the pieces with commas gives back the text |
| Catalog.SplitJoin | library.py:159 | splitting the comma-join of comma-free pieces returns exactly those pieces |
| Catalog.ParseAll | library.py:159 | the list comprehension succeeds iff every piece parses, gives each piece's value in order, and otherwise raises ValueError |
| Catalog.ParseTagIdsPieces | library.py:159 | a TagIDs text converts iff every piece of its comma split is an integer, and then to those integers in order |
| Catalog.ConvertCell | library.py:156-165 | an int `v` becomes `[v]`, a string becomes its parsed ids (or ValueError), NaN becomes `[]`, and any other float is left unchanged |
| Catalog.TagIdsTextRoundTrip | library.py:155-161 | the text `"a,b,c"` of a non-empty id list converts back to exactly those ids, in order |
| Catalog.EmptyPieceRaises | library.py:158-163 | a string with an empty piece, including `''`, raises ValueError; the `'' -> []` branch is never reached for strings |
| Catalog.ConvertItemsToListOfInts | library.py:135-167 | the loop keeps the key set and replaces each value by its conversion; it is a ValueError iff some value fails to convert |
| Catalog.AsTagLists | main.py:154-156 | iterating the converted values succeeds iff every value became a list; a float left unconverted raises TypeError |
| Catalog.IsUnique | library.py:76-81 | `is_unique` holds iff no two entries are equal |
| Catalog.TagsTableWarnings | library.py:45-81 | warns "empty" iff there are no rows, "TagID not unique" iff two rows share an id, and "Tag not unique" iff two rows share a tag |
| Catalog.EventsTableWarnings | library.py:99-131 | warns "empty" iff there are no rows and "EventID not unique" iff two rows share an id |
| Catalog.ZipDict | main.py:109-112 | `dict(zip(keys, values))` has exactly the listed keys |
| Catalog.ZipDictLastWins | main.py:109-112 | a key maps to the value of its last occurrence |
| Catalog.TagDict | main.py:109 | the tag dictionary's keys are the catalog's TagIDs |
| Catalog.TagDictOfUniqueIds | main.py:109 | with unique TagIDs, every row's id maps to that row's display name |
| Catalog.TagNames | library.py:343 | `[tag_dict[i] for i in ids]` succeeds iff every id is known and gives the names in order; otherwise KeyError |
| Catalog.RowsMissing | library.py:232 | the rows whose TagID is absent from the database set, and only those |
| Catalog.CompareWithSql | library.py:223-237 | warns with `config - sql` iff the config ids are not a subset of the database ids, and returns `[]` exactly when they are |
| Catalog.CheckDatetimeOrder | library.py:25-29 | raises iff the start is after the end |
| Frames.Backfilled | library.py:309-311 | an absent column is added with every cell set to the fill value; a present column leaves the table as it is; old cells are kept |
| Frames.BackfilledIdempotent | library.py:309-311 | backfilling the same tag twice equals backfilling it once |
| Frames.BackfilledLeavesOtherColumns | library.py:326-329 | no other column changes in any row |
| Frames.AddsColumnsOfTransitive | main.py:145-157 | successive backfills compose: rows are the same, old cells are kept, and new columns hold the fill value |
| Frames.WithColumn | main.py:165-166 | assigning a column sets it on every row, keeps the row set and leaves every other cell alone |
| Frames.WideFrame.constructor | main.py:129-130 | the frame starts as the pivoted table |
| Frames.WideFrame.AddStatusColumnIfMissing | library.py:297-311 | the frame becomes its backfill with 1.0, and a warning is logged iff the column was absent |
| Frames.WideFrame.AddValueColumnIfMissing | library.py:313-329 | an unknown TagID is a KeyError that leaves the frame unchanged; otherwise the frame becomes its backfill with null |
| Frames.WideFrame.SetColumn | main.py:165-166 | the frame becomes the table with that column assigned |
| Frames.AllAbsent | library.py:347 | true iff none of the names is a column |
| Frames.AllTagsMissing | library.py:331-351 | KeyError iff some id is unknown; False for an empty list; otherwise True iff every name is absent |
| Frames.BackfillStatusTags | main.py:137-148 | KeyError iff one of ids 43, 64, 48 or 49 is unknown (frame unchanged); otherwise the four status names, each now a column, with only 1.0 columns added |
| Frames.BackfillEventTags | main.py:155-157 | adds exactly the event's missing names as null columns; KeyError iff an id is unknown |
| Frames.BackfillValueTags | main.py:154-158 | adds exactly the referenced names as null columns; afterwards every event's flag is False and other flags are kept; KeyError iff some id is unknown |
| LongSeries.Window | library.py:269 | the query returns exactly the readings in `[start, end)` whose TagID is in the set |
| LongSeries.FloorToMinute | library.py:285 | the floor is a multiple of 60 and satisfies `floor <= t < floor + 60` |
| LongSeries.FloorToMinuteIdempotent | library.py:285 | flooring twice equals flooring once |
| LongSeries.FloorToMinuteSameMinute | library.py:283-285 | every second of minute `m` floors to `60 * m` |
| LongSeries.FloorAll | library.py:284-285 | every reading keeps its tag and value and has its time floored |
| LongSeries.DropDuplicates | library.py:293 | no two readings share (TagID, Datetime), and the set of pairs is unchanged |
| LongSeries.DropDuplicatesKeepsFirst | library.py:293 | the result is the first occurrence of each pair, taken at increasing positions, so values are first-seen and order is kept |
| LongSeries.DropDuplicatesOfUnique | library.py:293 | a series without duplicates is unchanged |
| LongSeries.NormaliseSeries | library.py:283-293 | an empty window exits; otherwise the series is non-empty, duplicate-free, minute-aligned, and has the floored input's pairs |
| LongSeries.NameReadings | main.py:124-125 | each reading keeps its time and value and carries its tag's name |
| LongSeries.CellAt | main.py:129 | a (time, name) pair that no reading has is null |
| LongSeries.Pivot | main.py:129-130 | the pivot fails with duplicate entries iff two readings land in one cell; otherwise there is one row per timestamp and one column per name |
| LongSeries.PivotCell | main.py:129-130 | every reading's value sits in its cell |
| LongSeries.PivotMissingPair | main.py:129-130 | a cell that no reading fills is null |
| LongSeries.BuildWideTable | main.py:121-130 | normalisation, naming and pivot of the window's readings (the query's filter is `LongSeries.Window`) together give a well-formed table |
| LongSeries.BuildWideTableOutcome | main.py:121-130 | with distinct tag names, an empty window exits and otherwise the rows are exactly the floored minutes of the window |
| LongSeries.SharedNameStopsPivot | main.py:124-129 | two TagIDs with one name in the same minute make the pivot fail |
| DerivedSignals.AbsCell | main.py:166 | `abs` keeps nulls null and otherwise gives the non-negative magnitude |
| DerivedSignals.AbsCellIdempotent | main.py:165-166 | `abs` twice equals `abs` once |
| DerivedSignals.AbsColumn | main.py:166 | the absolute column covers every row |
| DerivedSignals.SignalTagsOf | main.py:177-217 | the nine sensor lookups succeed iff all nine ids are known, and then bind the permeate TOC to tag 15, the two permeate conductivities to tags 29 and 31, the feed TOC to tag 1, the LRV to tag 17, the two OSP differences to tags 91 and 92, the production error to tag 86 and the demand to tag 59; otherwise KeyError |
| DerivedSignals.Indicator | main.py:180 | `np.where(c, 1, 0)` is 1 iff the condition holds, else 0 |
| DerivedSignals.RuleValues | main.py:177-218 | a rule's column is 0 or 1 on every row |
| DerivedSignals.AllNullRowSetsRoIndicators | main.py:177-218 | an all-null row sets the three RO indicators to 1 and the ozone one to 0 |
| DerivedSignals.RoProcessAndWaterQualityExclusive | main.py:177-196 | RO Process and RO Water Quality hold together iff both conductivities are null and TOC is > 50 or null |
| DerivedSignals.ConductivityAt125ClearsBoth | main.py:178-195 | a conductivity of exactly 125 makes both RO Process and RO Water Quality 0 |
| DerivedSignals.OzoneRuleOnRawValues | main.py:162-218 | on raw values, Ozone WQ holds iff tags 91, 92 and 86 are non-null with magnitude < 0.1, and demand is > 6.0 or null |
| DerivedSignals.AbsColumnInPlace | main.py:166 | KeyError iff the column is absent (frame unchanged); otherwise the column is replaced by its absolute values |
| DerivedSignals.ApplyAbsToErrorTags | main.py:162-166 | succeeds iff tags 86, 67, 91 and 92 are known and present; then exactly those columns hold absolute values and nothing else changes |
| DerivedSignals.AbsStep | main.py:165-166 | each loop step extends "absolute values applied" by one column |
| DerivedSignals.AddRuleColumn | main.py:177-218 | KeyError iff an input column is absent (frame unchanged); otherwise the rule's column is set |
| DerivedSignals.AddDerivedColumns | main.py:170-218 | the four assignments, in source order, leave the frame equal to the derived table, or fail exactly when that table does |
| DerivedSignals.DerivedTable | main.py:170-218 | the derived table keeps every row and adds exactly the rule columns |
| DerivedSignals.DerivedRowMeaning | main.py:177-218 | on one row, each indicator is 1 exactly when its rule holds, and every other cell is unchanged |
| DerivedSignals.DerivedColumnsMeaning | main.py:170-218 | on the whole table, each indicator cell is 1 exactly when its rule holds on that row, and every other cell is unchanged |
| EventAssembly.DerivedColumnOf | main.py:248-255 | events 5, 6, 7 and 15, and only those, have an indicator column |
| EventAssembly.EventColumns | main.py:240-255 | the configured names in order, with the indicator inserted at index 0 exactly for 5, 6, 7 and 15; KeyError for an unknown id |
| EventAssembly.SubFrameColumns | main.py:265 | the event's columns followed by the four status tags |
| EventAssembly.SelectColumns | main.py:266 | selection succeeds iff every column exists, and keeps rows and cells |
| EventAssembly.SubFrameAvailable | main.py:154-266 | after the backfill and the indicator columns, every event's sub-table can be selected |
| EventAssembly.BindPrimaryNames | library.py:353 | binding succeeds iff exactly five names are passed; otherwise TypeError |
| EventAssembly.PrimaryCallAsWrittenRaises | main.py:226 | the call as written, with four names, raises TypeError |
| EventAssembly.PrimaryArgsCorrected | main.py:226 | the corrected call binds the four indicator names and the ozone-monitoring name |
| EventAssembly.PrimaryEntryOf | library.py:369-388 | one tag gives its name; none gives None; many tags give the configured name (5: RO process, 6: RO monitoring, 7: RO water quality, 14: ozone monitoring, 15: ozone water quality) and no entry for any other event; an unknown single id is a KeyError |
| EventAssembly.CreatePrimaryEventTags | library.py:353-391 | the dictionary holds exactly the events that get an entry, each with that entry; KeyError iff one lookup fails |
| EventAssembly.PrimaryIsAColumn | library.py:369-384 | with the corrected call, a non-empty event's primary name is one of its own columns (for event 14 only when that name is one) |
| EventAssembly.TimeFilters | main.py:270-286 | the plant filter comes first, then MF adds MF, Ozone adds BAC1 then BAC2, and others add nothing |
| EventAssembly.CheckTable | main.py:289-350 | events 1, 2, 5, 6, 7 and 9 to 15 have checks; any other event has none (the warning branch) |
| EventAssembly.CheckTableShape | main.py:289-350 | every check has one open bound and at least two failures; indicator checks are `[None, 0]` range checks on the event's own indicator, placed first |
| EventAssembly.CheckKeys | main.py:291-349 | each check's key is its tag's name or its indicator; KeyError for an unknown id |
| EventAssembly.EventPlan | main.py:264-350 | the plan starts with the plant filter, then one missing-data check per column; for an event with checks it ends with one check call per row of the check table, on that check's key; it is a KeyError exactly when a check names an unknown tag id |
| EventAssembly.EventPlanFilters | main.py:270-286 | the filters in a plan are exactly the process's time filters, in order |
| EventFlags.InitialFlags | main.py:114 | flags for ids 1 to n, all False |
| EventFlags.Prepare | main.py:240-350 | an event with no tags is skipped; an event with tags is evaluated on its columns exactly when the id is in the events dictionary, its columns resolve, every sub-table column exists and its plan builds; any failure is a KeyError |
| EventFlags.PrimaryIndex | main.py:357 | `QCI[primary[e]]` succeeds iff the event has a named entry that is one of its columns with an index; otherwise KeyError |
| EventFlags.VerdictAsWritten | main.py:240-357 | one row as written: a failed preparation or a missing primary index stops the loop with KeyError; an event with no tags does nothing; the row triggers iff its primary index is below 1 |
| EventFlags.VerdictCorrected | main.py:240-357 | one row, corrected: it fails iff its preparation fails; a missing primary index leaves the flag alone; the row triggers iff its primary index is below 1 |
| EventFlags.VerdictsAgree | main.py:357 | wherever the row as written succeeds, the corrected row gives the same result |
| EventFlags.RecordOutcome | main.py:357-376 | the flag is raised when triggered; the text is appended iff the flag is then set; KeyError for an id with no flag; other flags are kept |
| EventFlags.DetectEvents | main.py:229-376 | the event loop computes the corrected run over the catalog |
| EventFlags.RunKeepsRaisedFlags | main.py:357-358 | flags only move from False to True, and none disappears |
| EventFlags.RunRaisedByTrigger | main.py:357-358 | a flag that ends True was True already, or a row of that event had index < 1 |
| EventFlags.RunTriggerRaises | main.py:357-358 | every row whose primary index is < 1 leaves its flag True |
| EventFlags.RunDetectedFlagged | main.py:374-376 | the detected list only grows at its end, and each new entry is the text of an event whose flag ends True |
| EventFlags.RunDetectedExactly | main.py:357-376 | the detected list is the start followed by the texts of the evaluated rows whose event's flag is set right after the row (set at the start, or raised by a triggering row up to and including it), in catalog order |
| EventFlags.RunDetectsTriggered | main.py:357-376 | every triggering row's text is in the detected list |
| EventFlags.FlagIffTriggered | main.py:357-358 | starting from all-False flags, a flag ends True iff some row of that event triggers |
| EventFlags.CorrectedAgreesWhereAsWrittenCompletes | main.py:357-358 | wherever the loop as written completes, the corrected loop gives the same flags and list |
| EventFlags.MultiTagEventStopsRun | library.py:385-386 | a two-tag event 9 gets no primary entry, so the loop as written raises KeyError while the corrected loop keeps its flag False |
| Notification.Unseen | main.py:457-460 | a detected event is new iff it is not stored, and there are never more new events than detected ones |
| Notification.UnseenIsSubsequence | main.py:457-460 | the new events keep detection order, and every detected entry the store lacks is kept, a repeated one once per occurrence |
| Notification.UnseenOfCovered | main.py:457-460 | nothing is new when the store holds every detected event |
| Notification.NewEvents | main.py:457-460 | the loop computes the new-events list |
| Notification.EventStore.constructor | main.py:450-454 | the stored list is the file's list, or empty when there is no file |
| Notification.EventStore.Notify | main.py:448-469 | when live, the new events are sent and the store becomes the detected list iff some are new (otherwise unchanged); afterwards the store holds every detected event |
| Notification.NotifyTwiceSendsOnce | main.py:457-469 | a second live run over the same detections sends nothing |
| Notification.ClearedEventIsNotifiedAgain | main.py:463-469 | the store keeps only the last notifying run's list, so an event that cleared and came back is notified again |

## Left out

- The SQL connection, the query strings and the pandas reads: `Window` stands for the query's filter.
- Reading the Excel catalog, and the datetime string format check.
- The quality checker's internals. The model leaves out how `check_range`, `check_increment` and `check_missing` judge data, how successive time filters combine, and what `min_failures` counts. The plan records the calls. The quality index is an input map from column name to real.
- The rendering steps: plots, heatmaps, HTML reports, CSS, the dashboard (with its `dashboard_content` dictionary), `facetplot_by_tag` and `reset_directory`.
- The desktop notification and its message text, logging, and the JSON file I/O. A stored file without an `events` key is not modelled.
- The `__main__` loop over days and its console input.
- Floating point. Sensor values appear only in comparisons with constants and in `abs`, so they are exact reals.
- Sub-second timestamps and time zones: timestamps are whole seconds.
- Catalog.ParseInt: `int()` is modelled for ASCII whitespace, an optional sign, and ASCII digits with single underscores between them. Other Unicode digits and spaces, which Python also accepts, are not modelled.
- The type and column-presence warnings of the two catalog checks: only the emptiness and uniqueness warnings are modelled.
- The warning for a TagID set that cannot be converted, and the empty `TagID IN ()` query.
- LongSeries.NameReadings: requires every TagID of the window to be in the tag dictionary. The query only returns configured TagIDs, so `map` never yields NaN names here.
- The docstring of `convert_items_to_list_of_ints` says an empty value becomes `[]`. The code tests for `str` first, so `''` raises ValueError. The model follows the code (`Catalog.EmptyPieceRaises`).
- Aliasing: `convert_items_to_list_of_ints` mutates the dictionary it is given and returns it. The model returns the new dictionary as a value.

## Findings

| source | as written | input that shows it | evidently intended | confidence | as-written member | corrected member |
|---|---|---|---|---|---|---|
| main.py:226 | `create_primary_event_tags_dict` is called with six arguments, but library.py:353 declares seven; the call raises TypeError before the event loop | any catalog: the four indicator names are passed and `name_ozone_monitoring` is missing | pass a fifth name, for the ozone monitoring event | not executed | EventAssembly.PrimaryCallAsWrittenRaises | EventAssembly.PrimaryArgsCorrected |
| main.py:357 | `QCI[primary_event_tags[eventid]]` is evaluated for every non-empty event, but library.py:385-386 gives a multi-tag event outside {5, 6, 7, 14, 15} no entry, so the loop raises KeyError | event 9 with TagIDs `"40,41"`, once the main.py:226 call passes all five names (`BindPrimaryNames(PrimaryArgsCorrected(...))`) | skip the flag update for an event with no usable primary tag (its warning is already logged) | not executed | EventFlags.MultiTagEventStopsRun | EventFlags.DetectEvents |
