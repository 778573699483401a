/** What main prepares for each event before handing it to the quality
    checker: the event's column list, its primary tag, the time filters
    and the hard-coded table of range/increment checks. */
module EventAssembly {
  import opened Wrappers
  import opened Catalog
  import opened Frames
  import opened DerivedSignals

  // ---------------------------------------------------------------------
  // The event's columns
  // ---------------------------------------------------------------------

  /** The indicator column main puts in front of an event's tags. */
  function DerivedColumnOf(eventId: EventId): (r: Option<TagName>)
    ensures r.Some? <==> eventId in {5, 6, 7, 15}
    ensures r.Some? ==> r.value in IndicatorColumns
  {
    if eventId == 5 then Some(RoProcessName)
    else if eventId == 6 then Some(RoMonitoringName)
    else if eventId == 7 then Some(RoWaterQualityName)
    else if eventId == 15 then Some(OzoneWaterQualityName)
    else None
  }

  /** event_tags: the configured tag names in order, with the indicator
      column inserted at index 0 for events 5, 6, 7 and 15. */
  function EventColumns(eventId: EventId, tagIds: seq<TagId>, tagDict: map<TagId, TagName>): (r: Result<seq<TagName>>)
    ensures r.Ok? <==> forall i :: 0 <= i < |tagIds| ==> tagIds[i] in tagDict
    ensures r.Err? ==> r.fault == KeyError
    ensures r.Ok? && DerivedColumnOf(eventId).Some? ==>
      |r.value| == |tagIds| + 1 && r.value[0] == DerivedColumnOf(eventId).value
      && forall i :: 0 <= i < |tagIds| ==> r.value[i + 1] == tagDict[tagIds[i]]
    ensures r.Ok? && DerivedColumnOf(eventId).None? ==>
      |r.value| == |tagIds| && forall i :: 0 <= i < |tagIds| ==> r.value[i] == tagDict[tagIds[i]]
  {
    match TagNames(tagDict, tagIds)
    case Err(f) => Err(f)
    case Ok(names) =>
      match DerivedColumnOf(eventId)
      case Some(d) => Ok([d] + names)
      case None => Ok(names)
  }

  /** event_and_status_tags: the event's columns followed by the four
      status tags. */
  function SubFrameColumns(eventCols: seq<TagName>, status: StatusTags): (r: seq<TagName>)
    ensures |r| == |eventCols| + 4 && r[..|eventCols|] == eventCols
    ensures r[|eventCols|..] == [status.plant, status.mf, status.bac1, status.bac2]
  {
    eventCols + status.AsList()
  }

  /** df_wide[columns]: KeyError when one is missing; otherwise the same
      rows restricted to the listed columns. */
  function SelectColumns(tb: Table, cols: seq<TagName>): (r: Result<Table>)
    requires tb.Valid()
    ensures r.Ok? <==> forall i :: 0 <= i < |cols| ==> cols[i] in tb.columns
    ensures r.Err? ==> r.fault == KeyError
    ensures r.Ok? ==> r.value.Valid() && r.value.rows.Keys == tb.rows.Keys
    ensures r.Ok? ==> r.value.columns == set i | 0 <= i < |cols| :: cols[i]
    ensures r.Ok? ==> forall t, n :: t in r.value.rows && n in r.value.columns ==> r.value.rows[t][n] == tb.rows[t][n]
  {
    if forall i :: 0 <= i < |cols| ==> cols[i] in tb.columns then
      var keep := set i | 0 <= i < |cols| :: cols[i];
      Ok(Table(map t | t in tb.rows :: map n | n in keep :: tb.rows[t][n], keep))
    else Err(KeyError)
  }

  /** Once the backfill has run and the indicator columns exist, the
      sub-frame of any event can be selected. */
  lemma SubFrameAvailable(tb: Table, tagDict: map<TagId, TagName>, eventDict: map<EventId, seq<TagId>>,
                          eventId: EventId, status: StatusTags)
    requires tb.Valid() && eventId in eventDict && AllIdsKnown(tagDict, eventDict)
    requires ReferencedNames(tagDict, eventDict) + IndicatorColumns + (set n | n in status.AsList()) <= tb.columns
    ensures EventColumns(eventId, eventDict[eventId], tagDict).Ok?
    ensures SelectColumns(tb, SubFrameColumns(EventColumns(eventId, eventDict[eventId], tagDict).value, status)).Ok?
  {
    var ids := eventDict[eventId];
    var cols := EventColumns(eventId, ids, tagDict).value;
    var sub := SubFrameColumns(cols, status);
    forall i | 0 <= i < |sub| ensures sub[i] in tb.columns {
      if i >= |cols| {
        assert sub[i] == status.AsList()[i - |cols|];
      } else if DerivedColumnOf(eventId).Some? {
        if i > 0 {
          assert tagDict[ids[i - 1]] in ReferencedNames(tagDict, eventDict);
        }
      } else {
        assert tagDict[ids[i]] in ReferencedNames(tagDict, eventDict);
      }
    }
  }

  // ---------------------------------------------------------------------
  // create_primary_event_tags_dict
  // ---------------------------------------------------------------------

  /** An entry of the primary-tag dictionary: a tag name, or None for an
      event without tags. */
  datatype PrimaryEntry = Named(tag: TagName) | NoTags

  /** The five name parameters of create_primary_event_tags_dict. */
  datatype PrimaryNames = PrimaryNames(
    roProcess: TagName, roMonitoring: TagName, roWaterQuality: TagName,
    ozoneWaterQuality: TagName, ozoneMonitoring: TagName)

  /** Python's binding of positional arguments to the five name parameters:
      any other count raises TypeError before the body runs. */
  function BindPrimaryNames(args: seq<TagName>): (r: Result<PrimaryNames>)
    ensures r.Ok? <==> |args| == 5
    ensures r.Err? ==> r.fault == TypeError
    ensures r.Ok? ==> r.value.roProcess == args[0] && r.value.ozoneMonitoring == args[4]
  {
    if |args| == 5 then Ok(PrimaryNames(args[0], args[1], args[2], args[3], args[4]))
    else Err(TypeError)
  }

  /** The names main passes, as written: four of them. */
  const PrimaryArgsAsWritten: seq<TagName> := [RoProcessName, RoMonitoringName, RoWaterQualityName, OzoneWaterQualityName]

  /** As written, the call raises TypeError whatever the catalog. */
  lemma PrimaryCallAsWrittenRaises()
    ensures BindPrimaryNames(PrimaryArgsAsWritten) == Err(TypeError)
  {
  }

  /** The intended call: the four indicator names and a name for the ozone
      monitoring event. */
  function PrimaryArgsCorrected(ozoneMonitoring: TagName): (r: seq<TagName>)
    ensures BindPrimaryNames(r).Ok?
    ensures BindPrimaryNames(r).value ==
      PrimaryNames(RoProcessName, RoMonitoringName, RoWaterQualityName, OzoneWaterQualityName, ozoneMonitoring)
  {
    PrimaryArgsAsWritten + [ozoneMonitoring]
  }

  /** The entry one event gets: None when it has no tags, its tag's name
      when it has one (KeyError for an unknown id), the configured name
      for a multi-tag event 5, 6, 7, 14 or 15, and no entry (a warning)
      for any other multi-tag event. */
  function PrimaryEntryOf(eventId: EventId, tagIds: seq<TagId>, tagDict: map<TagId, TagName>, names: PrimaryNames)
    : (r: Result<Option<PrimaryEntry>>)
    ensures r.Err? <==> |tagIds| == 1 && tagIds[0] !in tagDict
    ensures r.Err? ==> r.fault == KeyError
    ensures r.Ok? && tagIds == [] ==> r.value == Some(NoTags)
    ensures r.Ok? && |tagIds| == 1 ==> r.value == Some(Named(tagDict[tagIds[0]]))
    ensures r.Ok? && |tagIds| > 1 ==> (r.value.None? <==> eventId !in {5, 6, 7, 14, 15})
    ensures r.Ok? && |tagIds| > 1 && eventId == 14 ==> r.value == Some(Named(names.ozoneMonitoring))
    ensures r.Ok? && |tagIds| > 1 && eventId == 5 ==> r.value == Some(Named(names.roProcess))
    ensures r.Ok? && |tagIds| > 1 && eventId == 6 ==> r.value == Some(Named(names.roMonitoring))
    ensures r.Ok? && |tagIds| > 1 && eventId == 7 ==> r.value == Some(Named(names.roWaterQuality))
    ensures r.Ok? && |tagIds| > 1 && eventId == 15 ==> r.value == Some(Named(names.ozoneWaterQuality))
  {
    if |tagIds| == 1 then
      if tagIds[0] in tagDict then Ok(Some(Named(tagDict[tagIds[0]]))) else Err(KeyError)
    else if |tagIds| > 1 then
      if eventId == 5 then Ok(Some(Named(names.roProcess)))
      else if eventId == 6 then Ok(Some(Named(names.roMonitoring)))
      else if eventId == 7 then Ok(Some(Named(names.roWaterQuality)))
      else if eventId == 14 then Ok(Some(Named(names.ozoneMonitoring)))
      else if eventId == 15 then Ok(Some(Named(names.ozoneWaterQuality)))
      else Ok(None)
    else Ok(Some(NoTags))
  }

  /** The loop of create_primary_event_tags_dict over the events. */
  method CreatePrimaryEventTags(eventDict: map<EventId, seq<TagId>>, order: seq<EventId>,
                                tagDict: map<TagId, TagName>, names: PrimaryNames)
    returns (r: Result<map<EventId, PrimaryEntry>>)
    requires IsKeyOrder(order, eventDict.Keys)
    ensures r.Ok? <==> forall e :: e in eventDict ==> PrimaryEntryOf(e, eventDict[e], tagDict, names).Ok?
    ensures r.Err? ==> r.fault == KeyError
    ensures r.Ok? ==> forall e :: e in r.value <==> e in eventDict && PrimaryEntryOf(e, eventDict[e], tagDict, names).value.Some?
    ensures r.Ok? ==> forall e :: e in r.value ==> Some(r.value[e]) == PrimaryEntryOf(e, eventDict[e], tagDict, names).value
  {
    var primary: map<EventId, PrimaryEntry> := map[];
    for i := 0 to |order|
      invariant forall e :: e in primary ==> e in order[..i] && e in eventDict
      invariant forall j :: 0 <= j < i ==> PrimaryEntryOf(order[j], eventDict[order[j]], tagDict, names).Ok?
      invariant forall j :: 0 <= j < i && PrimaryEntryOf(order[j], eventDict[order[j]], tagDict, names).value.Some? ==> order[j] in primary
      invariant forall e :: e in primary ==> Some(primary[e]) == PrimaryEntryOf(e, eventDict[e], tagDict, names).value
    {
      var e := order[i];
      var entry := PrimaryEntryOf(e, eventDict[e], tagDict, names);
      if entry.Err? {
        return Err(entry.fault);
      }
      if entry.value.Some? {
        primary := primary[e := entry.value.value];
      }
      assert order[..i + 1] == order[..i] + [e];
    }
    forall e | e in eventDict ensures PrimaryEntryOf(e, eventDict[e], tagDict, names).Ok? {
      var j :| 0 <= j < |order| && order[j] == e;
    }
    forall e | e in eventDict && PrimaryEntryOf(e, eventDict[e], tagDict, names).value.Some? ensures e in primary {
      var j :| 0 <= j < |order| && order[j] == e;
    }
    return Ok(primary);
  }

  /** With the corrected arguments, the primary tag of every non-empty
      event with an entry is one of its own columns, except for a
      multi-tag event 14 whose ozone-monitoring name is not among them. */
  lemma PrimaryIsAColumn(eventId: EventId, tagIds: seq<TagId>, tagDict: map<TagId, TagName>, ozoneMonitoring: TagName)
    requires tagIds != [] && forall i :: 0 <= i < |tagIds| ==> tagIds[i] in tagDict
    requires PrimaryEntryOf(eventId, tagIds, tagDict, BindPrimaryNames(PrimaryArgsCorrected(ozoneMonitoring)).value).value.Some?
    requires eventId == 14 && |tagIds| > 1 ==> ozoneMonitoring in EventColumns(eventId, tagIds, tagDict).value
    ensures var entry := PrimaryEntryOf(eventId, tagIds, tagDict, BindPrimaryNames(PrimaryArgsCorrected(ozoneMonitoring)).value).value.value;
      entry.Named? && entry.tag in EventColumns(eventId, tagIds, tagDict).value
  {
    var cols := EventColumns(eventId, tagIds, tagDict).value;
    if |tagIds| == 1 {
      if DerivedColumnOf(eventId).Some? {
        assert cols[1] == tagDict[tagIds[0]];
      } else {
        assert cols[0] == tagDict[tagIds[0]];
      }
    } else if eventId != 14 {
      assert cols[0] == DerivedColumnOf(eventId).value;
    }
  }

  // ---------------------------------------------------------------------
  // Time filters and the check table
  // ---------------------------------------------------------------------

  /** The status tags whose "== 1" time filters are added, in order. */
  function TimeFilters(process: string, status: StatusTags): (r: seq<TagName>)
    ensures |r| >= 1 && r[0] == status.plant
    ensures process == "MF" ==> r[1..] == [status.mf]
    ensures process == "Ozone" ==> r[1..] == [status.bac1, status.bac2]
    ensures process != "MF" && process != "Ozone" ==> r == [status.plant]
  {
    [status.plant] + (if process == "MF" then [status.mf]
                      else if process == "Ozone" then [status.bac1, status.bac2]
                      else [])
  }

  datatype CheckKind = Range | Increment

  /** What a check reads: a configured tag (by id) or an indicator column. */
  datatype Target = Raw(tagId: TagId) | Derived(column: TagName)

  /** pm.check_range / pm.check_increment with its bound and min_failures. */
  datatype Check = Check(kind: CheckKind, target: Target, lower: Option<real>, upper: Option<real>, minFailures: nat)

  function RangeBelow(target: Target, upper: real, minFailures: nat): Check {
    Check(Range, target, None, Some(upper), minFailures)
  }

  function RangeAbove(target: Target, lower: real, minFailures: nat): Check {
    Check(Range, target, Some(lower), None, minFailures)
  }

  /** The if-chain of checks per event id; None is the "incorrect logic"
      branch that logs a warning and runs no check. */
  function CheckTable(eventId: EventId): (r: Option<seq<Check>>)
    ensures r.None? <==> eventId !in {1, 2, 5, 6, 7, 9, 10, 11, 12, 13, 14, 15}
    ensures r.Some? ==> |r.value| >= 1
  {
    if eventId == 1 then Some([RangeBelow(Raw(10), 0.15, 15)])
    else if eventId == 2 then Some([Check(Increment, Raw(10), Some(0.0001), None, 30)])
    else if eventId == 5 then Some([RangeBelow(Derived(RoProcessName), 0.0, 30), RangeBelow(Raw(15), 50.0, 30),
                                    RangeBelow(Raw(29), 125.0, 15), RangeBelow(Raw(31), 125.0, 15)])
    else if eventId == 6 then Some([RangeBelow(Derived(RoMonitoringName), 0.0, 30), RangeAbove(Raw(1), 3780.0, 30),
                                    RangeAbove(Raw(17), 2.1, 30)])
    else if eventId == 7 then Some([RangeBelow(Derived(RoWaterQualityName), 0.0, 30), RangeBelow(Raw(15), 50.0, 30),
                                    RangeAbove(Raw(29), 125.0, 5), RangeAbove(Raw(31), 125.0, 5)])
    else if eventId == 9 then Some([RangeAbove(Raw(40), 300.0, 5)])
    else if eventId == 10 then Some([Check(Increment, Raw(65), Some(0.01), None, 30)])
    else if eventId == 11 then Some([RangeAbove(Raw(32), 96.0, 15)])
    else if eventId == 12 then Some([RangeBelow(Raw(83), 1.0, 15)])
    else if eventId == 13 then Some([RangeBelow(Raw(86), 0.05, 15)])
    else if eventId == 14 then Some([RangeBelow(Raw(67), 0.1, 15)])
    else if eventId == 15 then Some([RangeBelow(Derived(OzoneWaterQualityName), 0.0, 15), RangeAbove(Raw(91), 0.1, 2),
                                     RangeAbove(Raw(92), 0.1, 2), RangeAbove(Raw(86), 0.1, 2), RangeBelow(Raw(59), 6.0, 15)])
    else None
  }

  /** The shape of every entry of the check table: one open bound, at
      least two failures, and an indicator check bounded by [None, 0]
      placed first, on the event's own indicator column, exactly for the
      events that have one. */
  lemma CheckTableShape(eventId: EventId)
    requires CheckTable(eventId).Some?
    ensures forall c :: c in CheckTable(eventId).value ==> (c.lower.None? <==> c.upper.Some?)
    ensures forall c :: c in CheckTable(eventId).value ==> c.minFailures >= 2
    ensures forall c :: c in CheckTable(eventId).value && c.target.Derived? ==>
      c.kind == Range && c.lower == None && c.upper == Some(0.0) && Some(c.target.column) == DerivedColumnOf(eventId)
    ensures CheckTable(eventId).value[0].target.Derived? <==> DerivedColumnOf(eventId).Some?
    ensures forall i :: 0 < i < |CheckTable(eventId).value| ==> CheckTable(eventId).value[i].target.Raw?
  {
  }

  /** pm.check_range(key=tag_dict[id], …): the key of every check;
      KeyError for an unknown id. */
  function CheckKeys(checks: seq<Check>, tagDict: map<TagId, TagName>): (r: Result<seq<TagName>>)
    ensures r.Ok? <==> forall i :: 0 <= i < |checks| && checks[i].target.Raw? ==> checks[i].target.tagId in tagDict
    ensures r.Err? ==> r.fault == KeyError
    ensures r.Ok? ==> |r.value| == |checks|
    ensures r.Ok? ==> forall i :: 0 <= i < |checks| ==>
      r.value[i] == (match checks[i].target case Raw(id) => tagDict[id] case Derived(col) => col)
  {
    if checks == [] then Ok([])
    else
      var head: Result<TagName> := match checks[0].target
        case Raw(id) => if id in tagDict then Ok(tagDict[id]) else Err(KeyError)
        case Derived(col) => Ok(col);
      match head
      case Err(f) => Err(f)
      case Ok(k) =>
        match CheckKeys(checks[1..], tagDict)
        case Err(f) =>
          assert exists i :: 1 <= i < |checks| && checks[i].target.Raw? && checks[i].target.tagId !in tagDict by {
            var j :| 0 <= j < |checks[1..]| && checks[1..][j].target.Raw? && checks[1..][j].target.tagId !in tagDict;
            assert checks[j + 1] == checks[1..][j];
          }
          Err(f)
        case Ok(rest) =>
          assert forall i :: 1 <= i < |checks| ==> checks[i] == checks[1..][i - 1];
          Ok([k] + rest)
  }

  // ---------------------------------------------------------------------
  // The calls on the quality-check object, as data
  // ---------------------------------------------------------------------

  datatype PmStep =
    | AddTimeFilter(statusTag: TagName)         // pm.add_time_filter(pm.data[tag] == 1)
    | CheckMissing(tag: TagName)                 // pm.check_missing(tag)
    | RunCheck(check: Check, key: TagName)       // pm.check_range / pm.check_increment

  function MissingChecks(cols: seq<TagName>): (r: seq<PmStep>)
    ensures |r| == |cols| && forall i :: 0 <= i < |cols| ==> r[i] == CheckMissing(cols[i])
  {
    if cols == [] then [] else [CheckMissing(cols[0])] + MissingChecks(cols[1..])
  }

  function FilterSteps(tags: seq<TagName>): (r: seq<PmStep>)
    ensures |r| == |tags| && forall i :: 0 <= i < |tags| ==> r[i] == AddTimeFilter(tags[i])
  {
    if tags == [] then [] else [AddTimeFilter(tags[0])] + FilterSteps(tags[1..])
  }

  function CheckSteps(checks: seq<Check>, keys: seq<TagName>): (r: seq<PmStep>)
    requires |keys| == |checks|
    ensures |r| == |checks| && forall i :: 0 <= i < |checks| ==> r[i] == RunCheck(checks[i], keys[i])
  {
    if checks == [] then [] else [RunCheck(checks[0], keys[0])] + CheckSteps(checks[1..], keys[1..])
  }

  /** Everything main asks of the quality checker for one non-empty event,
      in order: the plant filter, a missing-data check per event column,
      the process filters, then the event's checks. */
  function EventPlan(eventId: EventId, process: string, cols: seq<TagName>, status: StatusTags,
                     tagDict: map<TagId, TagName>): (r: Result<seq<PmStep>>)
    ensures r.Err? ==> r.fault == KeyError
    ensures r.Ok? ==> |r.value| >= 1 + |cols| && r.value[0] == AddTimeFilter(status.plant)
    ensures r.Ok? ==> forall i :: 0 <= i < |cols| ==> r.value[1 + i] == CheckMissing(cols[i])
    ensures CheckTable(eventId).None? ==> r.Ok? && |r.value| == |cols| + |TimeFilters(process, status)|
    ensures r.Err? <==> CheckTable(eventId).Some? && CheckKeys(CheckTable(eventId).value, tagDict).Err?
    ensures r.Ok? && CheckTable(eventId).Some? ==>
      var checks, n := CheckTable(eventId).value, |cols| + |TimeFilters(process, status)|;
      && |r.value| == n + |checks|
      && forall i :: 0 <= i < |checks| ==> r.value[n + i] == RunCheck(checks[i], CheckKeys(checks, tagDict).value[i])
  {
    var filters := TimeFilters(process, status);
    var head := [AddTimeFilter(status.plant)] + MissingChecks(cols) + FilterSteps(filters[1..]);
    match CheckTable(eventId)
    case None => Ok(head)
    case Some(checks) =>
      match CheckKeys(checks, tagDict)
      case Err(f) => Err(f)
      case Ok(keys) => Ok(head + CheckSteps(checks, keys))
  }

  /** The filters of a plan are exactly the process's time filters, in
      order, whatever the checks. */
  lemma EventPlanFilters(eventId: EventId, process: string, cols: seq<TagName>, status: StatusTags,
                         tagDict: map<TagId, TagName>)
    requires EventPlan(eventId, process, cols, status, tagDict).Ok?
    ensures var plan := EventPlan(eventId, process, cols, status, tagDict).value;
      FiltersOf(plan) == TimeFilters(process, status)
  {
    var filters := TimeFilters(process, status);
    var plan := EventPlan(eventId, process, cols, status, tagDict).value;
    var head := [AddTimeFilter(status.plant)] + MissingChecks(cols) + FilterSteps(filters[1..]);
    FiltersOfAppend([AddTimeFilter(status.plant)], MissingChecks(cols));
    FiltersOfAppend([AddTimeFilter(status.plant)] + MissingChecks(cols), FilterSteps(filters[1..]));
    NoFiltersInMissingChecks(cols);
    FiltersOfFilterSteps(filters[1..]);
    assert [status.plant] + filters[1..] == filters;
    match CheckTable(eventId)
    case None =>
    case Some(checks) =>
      var keys := CheckKeys(checks, tagDict).value;
      FiltersOfAppend(head, CheckSteps(checks, keys));
      NoFiltersInCheckSteps(checks, keys);
  }

  /** The status tags of the time-filter steps, in order. */
  function FiltersOf(steps: seq<PmStep>): seq<TagName> {
    if steps == [] then []
    else (if steps[0].AddTimeFilter? then [steps[0].statusTag] else []) + FiltersOf(steps[1..])
  }

  lemma {:induction false} FiltersOfAppend(a: seq<PmStep>, b: seq<PmStep>)
    ensures FiltersOf(a + b) == FiltersOf(a) + FiltersOf(b)
    decreases |a|
  {
    if a == [] {
      assert a + b == b;
    } else {
      assert (a + b)[0] == a[0] && (a + b)[1..] == a[1..] + b;
      FiltersOfAppend(a[1..], b);
    }
  }

  lemma {:induction false} NoFiltersInMissingChecks(cols: seq<TagName>)
    ensures FiltersOf(MissingChecks(cols)) == []
    decreases |cols|
  {
    if cols != [] {
      NoFiltersInMissingChecks(cols[1..]);
    }
  }

  lemma {:induction false} FiltersOfFilterSteps(tags: seq<TagName>)
    ensures FiltersOf(FilterSteps(tags)) == tags
    decreases |tags|
  {
    if tags != [] {
      FiltersOfFilterSteps(tags[1..]);
    }
  }

  lemma {:induction false} NoFiltersInCheckSteps(checks: seq<Check>, keys: seq<TagName>)
    requires |keys| == |checks|
    ensures FiltersOf(CheckSteps(checks, keys)) == []
    decreases |checks|
  {
    if checks != [] {
      NoFiltersInCheckSteps(checks[1..], keys[1..]);
    }
  }
}
