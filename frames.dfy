/** The wide frame (one row per timestamp, one column per tag name) and the
    policy that backfills the columns the data lacks: production-status
    columns are assumed "in production" (1.0), value columns are null. */
module Frames {
  import opened Wrappers
  import opened Catalog

  /** Seconds since an epoch. */
  type Timestamp = int

  /** A sensor value; None is pandas' NaN. */
  type Cell = Option<real>

  type Row = map<TagName, Cell>

  datatype Table = Table(rows: map<Timestamp, Row>, columns: set<TagName>) {
    /** Every row has a cell for every column and for nothing else. */
    ghost predicate Valid() {
      forall t :: t in rows ==> rows[t].Keys == columns
    }
  }

  /** `after` is `before` with some columns added, each filled with v:
      the same timestamps, the old columns still there with the old cells. */
  ghost predicate AddsColumnsOf(before: Table, after: Table, v: Cell) {
    && after.rows.Keys == before.rows.Keys
    && before.columns <= after.columns
    && (forall t, n :: t in before.rows && n in before.rows[t] ==>
          n in after.rows[t] && after.rows[t][n] == before.rows[t][n])
    && (forall t, n :: t in after.rows && n in after.rows[t] && n !in before.columns ==>
          after.rows[t][n] == v)
  }

  lemma AddsColumnsOfTransitive(a: Table, b: Table, c: Table, v: Cell)
    requires b.Valid() && AddsColumnsOf(a, b, v) && AddsColumnsOf(b, c, v)
    ensures AddsColumnsOf(a, c, v)
  {
  }

  /** The backfill helpers' effect: `tag` is added, filled with v, when it
      is not a column yet; a present column is left as it is. */
  function Backfilled(tb: Table, tag: TagName, v: Cell): (r: Table)
    ensures r.columns == tb.columns + {tag}
    ensures tag in tb.columns ==> r == tb
    ensures tb.Valid() ==> r.Valid()
    ensures tb.Valid() ==> AddsColumnsOf(tb, r, v)
    ensures tag !in tb.columns ==> forall t :: t in r.rows ==> tag in r.rows[t] && r.rows[t][tag] == v
  {
    if tag in tb.columns then tb
    else Table(map t | t in tb.rows :: tb.rows[t][tag := v], tb.columns + {tag})
  }

  /** Backfilling the same column twice is backfilling it once. */
  lemma BackfilledIdempotent(tb: Table, tag: TagName, v: Cell)
    ensures Backfilled(Backfilled(tb, tag, v), tag, v) == Backfilled(tb, tag, v)
  {
  }

  /** Backfilling one column never touches another column. */
  lemma BackfilledLeavesOtherColumns(tb: Table, tag: TagName, v: Cell, t: Timestamp, n: TagName)
    requires tb.Valid() && t in tb.rows && n in tb.columns && n != tag
    ensures Backfilled(tb, tag, v).rows[t][n] == tb.rows[t][n]
  {
  }

  /** df_wide[tag] = values: the column is set (added or replaced). */
  function WithColumn(tb: Table, tag: TagName, values: map<Timestamp, Cell>): (r: Table)
    requires values.Keys == tb.rows.Keys
    ensures r.rows.Keys == tb.rows.Keys && r.columns == tb.columns + {tag}
    ensures forall t :: t in r.rows ==> tag in r.rows[t] && r.rows[t][tag] == values[t]
    ensures tb.Valid() ==> r.Valid()
    ensures forall t, n :: t in tb.rows && n in tb.rows[t] && n != tag ==>
      n in r.rows[t] && r.rows[t][n] == tb.rows[t][n]
  {
    Table(map t | t in tb.rows :: tb.rows[t][tag := values[t]], tb.columns + {tag})
  }

  /** The data frame the program mutates in place. */
  class WideFrame {
    var rows: map<Timestamp, Row>
    var columns: set<TagName>

    function View(): Table
      reads this
    {
      Table(rows, columns)
    }

    ghost predicate Valid()
      reads this
    {
      View().Valid()
    }

    constructor (tb: Table)
      requires tb.Valid()
      ensures Valid() && View() == tb
    {
      rows := tb.rows;
      columns := tb.columns;
    }

    /** check_for_missing_status_tag: an absent status column is created
        with every value 1.0 (in production), and a warning is logged. */
    method AddStatusColumnIfMissing(tag: TagName) returns (warned: bool)
      requires Valid()
      modifies this
      ensures Valid()
      ensures View() == Backfilled(old(View()), tag, Some(1.0))
      ensures warned <==> tag !in old(columns)
    {
      warned := tag !in columns;
      if warned {
        rows := map t | t in rows :: rows[t][tag := Some(1.0)];
        columns := columns + {tag};
      }
    }

    /** check_for_missing_value_tag: the id is looked up first (KeyError when
        unknown); an absent column is created with every value NaN. */
    method AddValueColumnIfMissing(tagDict: map<TagId, TagName>, tagId: TagId) returns (r: Result<bool>)
      requires Valid()
      modifies this
      ensures Valid()
      ensures tagId !in tagDict ==> r == Err(KeyError) && View() == old(View())
      ensures tagId in tagDict ==> r == Ok(tagDict[tagId] !in old(columns))
      ensures tagId in tagDict ==> View() == Backfilled(old(View()), tagDict[tagId], None)
    {
      if tagId !in tagDict {
        return Err(KeyError);
      }
      var tag := tagDict[tagId];
      r := Ok(tag !in columns);
      if tag !in columns {
        rows := map t | t in rows :: rows[t][tag := None];
        columns := columns + {tag};
      }
    }

    /** df_wide[tag] = values. */
    method SetColumn(tag: TagName, values: map<Timestamp, Cell>)
      requires Valid() && values.Keys == rows.Keys
      modifies this
      ensures Valid()
      ensures View() == WithColumn(old(View()), tag, values)
    {
      rows := map t | t in rows :: rows[t][tag := values[t]];
      columns := columns + {tag};
    }
  }

  // ---------------------------------------------------------------------
  // check_all_tags_missing_for_event
  // ---------------------------------------------------------------------

  /** all(tag not in columns for tag in names), short-circuiting. */
  function AllAbsent(names: seq<TagName>, columns: set<TagName>): (r: bool)
    ensures r <==> forall i :: 0 <= i < |names| ==> names[i] !in columns
  {
    if names == [] then true
    else if names[0] in columns then false
    else
      var rest := AllAbsent(names[1..], columns);
      assert rest <==> forall i :: 1 <= i < |names| ==> names[i] !in columns by {
        assert forall i :: 1 <= i < |names| ==> names[i] == names[1..][i - 1];
      }
      rest
  }

  /** False for an event without tags; otherwise True exactly when none of
      the event's tag names is a column. An unknown id raises KeyError. */
  function AllTagsMissing(columns: set<TagName>, tagDict: map<TagId, TagName>, tagIds: seq<TagId>): (r: Result<bool>)
    ensures r.Err? <==> exists i :: 0 <= i < |tagIds| && tagIds[i] !in tagDict
    ensures r.Err? ==> r.fault == KeyError
    ensures tagIds == [] ==> r == Ok(false)
    ensures r.Ok? ==> (r.value <==> tagIds != [] && forall i :: 0 <= i < |tagIds| ==> tagDict[tagIds[i]] !in columns)
  {
    match TagNames(tagDict, tagIds)
    case Err(f) => Err(f)
    case Ok(names) => if names == [] then Ok(false) else Ok(AllAbsent(names, columns))
  }

  // ---------------------------------------------------------------------
  // The backfill steps of main
  // ---------------------------------------------------------------------

  /** The four production-status tag names: plant-wide, MF, BAC1, BAC2. */
  datatype StatusTags = StatusTags(plant: TagName, mf: TagName, bac1: TagName, bac2: TagName) {
    function AsList(): seq<TagName> {
      [plant, mf, bac1, bac2]
    }
  }

  const PlantStatusId: TagId := 43
  const MfStatusId: TagId := 64
  const Bac1StatusId: TagId := 48
  const Bac2StatusId: TagId := 49

  /** Looks the four status tags up (KeyError when one is unknown) and
      backfills each absent one with 1.0, plant-wide first. */
  method BackfillStatusTags(frame: WideFrame, tagDict: map<TagId, TagName>) returns (r: Result<StatusTags>)
    requires frame.Valid()
    modifies frame
    ensures frame.Valid()
    ensures r.Ok? <==> {PlantStatusId, MfStatusId, Bac1StatusId, Bac2StatusId} <= tagDict.Keys
    ensures r.Err? ==> r.fault == KeyError && frame.View() == old(frame.View())
    ensures r.Ok? ==> r.value == StatusTags(tagDict[PlantStatusId], tagDict[MfStatusId], tagDict[Bac1StatusId], tagDict[Bac2StatusId])
    ensures r.Ok? ==> frame.columns == old(frame.columns) + set n | n in r.value.AsList()
    ensures r.Ok? ==> AddsColumnsOf(old(frame.View()), frame.View(), Some(1.0))
  {
    if !({PlantStatusId, MfStatusId, Bac1StatusId, Bac2StatusId} <= tagDict.Keys) {
      return Err(KeyError);
    }
    var st := StatusTags(tagDict[PlantStatusId], tagDict[MfStatusId], tagDict[Bac1StatusId], tagDict[Bac2StatusId]);
    ghost var v0 := frame.View();
    var _ := frame.AddStatusColumnIfMissing(st.plant);
    ghost var v1 := frame.View();
    var _ := frame.AddStatusColumnIfMissing(st.mf);
    ghost var v2 := frame.View();
    var _ := frame.AddStatusColumnIfMissing(st.bac1);
    ghost var v3 := frame.View();
    var _ := frame.AddStatusColumnIfMissing(st.bac2);
    AddsColumnsOfTransitive(v0, v1, v2, Some(1.0));
    AddsColumnsOfTransitive(v0, v2, v3, Some(1.0));
    AddsColumnsOfTransitive(v0, v3, frame.View(), Some(1.0));
    return Ok(st);
  }

  /** Every tag id of every event is known to the tag dictionary. */
  ghost predicate AllIdsKnown(tagDict: map<TagId, TagName>, eventDict: map<EventId, seq<TagId>>) {
    forall e, i :: e in eventDict && 0 <= i < |eventDict[e]| ==> eventDict[e][i] in tagDict
  }

  /** The names of all tags the events refer to. */
  ghost function ReferencedNames(tagDict: map<TagId, TagName>, eventDict: map<EventId, seq<TagId>>): set<TagName>
    requires AllIdsKnown(tagDict, eventDict)
  {
    set e, i | e in eventDict && 0 <= i < |eventDict[e]| :: tagDict[eventDict[e][i]]
  }

  /** The inner loop for one event: backfill each of its tags with NaN. */
  method BackfillEventTags(frame: WideFrame, tagDict: map<TagId, TagName>, tagIds: seq<TagId>) returns (r: Result<()>)
    requires frame.Valid()
    modifies frame
    ensures frame.Valid()
    ensures AddsColumnsOf(old(frame.View()), frame.View(), None)
    ensures r.Ok? <==> forall i :: 0 <= i < |tagIds| ==> tagIds[i] in tagDict
    ensures r.Err? ==> r.fault == KeyError
    ensures r.Ok? ==> frame.columns == old(frame.columns) + set i | 0 <= i < |tagIds| :: tagDict[tagIds[i]]
  {
    ghost var v0 := frame.View();
    for j := 0 to |tagIds|
      invariant frame.Valid()
      invariant AddsColumnsOf(v0, frame.View(), None)
      invariant forall i :: 0 <= i < j ==> tagIds[i] in tagDict
      invariant frame.columns == v0.columns + set i | 0 <= i < j :: tagDict[tagIds[i]]
    {
      ghost var before := frame.View();
      var added := frame.AddValueColumnIfMissing(tagDict, tagIds[j]);
      if added.Err? {
        return Err(added.fault);
      }
      AddsColumnsOfTransitive(v0, before, frame.View(), None);
      assert (set i | 0 <= i < j + 1 :: tagDict[tagIds[i]]) == (set i | 0 <= i < j :: tagDict[tagIds[i]]) + {tagDict[tagIds[j]]};
    }
    return Ok(());
  }

  /** Every event listed in `es` is in the dictionary and all its tag ids
      are known. */
  ghost predicate KnownFor(tagDict: map<TagId, TagName>, eventDict: map<EventId, seq<TagId>>, es: seq<EventId>) {
    forall a :: 0 <= a < |es| ==> es[a] in eventDict && IdsKnown(tagDict, eventDict[es[a]])
  }

  ghost predicate IdsKnown(tagDict: map<TagId, TagName>, tagIds: seq<TagId>) {
    forall i :: 0 <= i < |tagIds| ==> tagIds[i] in tagDict
  }

  /** The names of the tags of the events listed in `es`. */
  ghost function NamesOf(tagDict: map<TagId, TagName>, eventDict: map<EventId, seq<TagId>>, es: seq<EventId>): set<TagName>
    requires KnownFor(tagDict, eventDict, es)
    decreases |es|
  {
    if es == [] then {}
    else
      var n := |es| - 1;
      assert forall a :: 0 <= a < n ==> es[..n][a] == es[a];
      NamesOf(tagDict, eventDict, es[..n]) + set i | 0 <= i < |eventDict[es[n]]| :: tagDict[eventDict[es[n]][i]]
  }

  /** A name is in NamesOf exactly when some tag of a listed event has it. */
  lemma {:induction false} NamesOfMember(tagDict: map<TagId, TagName>, eventDict: map<EventId, seq<TagId>>, es: seq<EventId>, x: TagName)
    requires KnownFor(tagDict, eventDict, es)
    ensures x in NamesOf(tagDict, eventDict, es) <==>
      exists a, i :: 0 <= a < |es| && 0 <= i < |eventDict[es[a]]| && tagDict[eventDict[es[a]][i]] == x
    decreases |es|
  {
    if es != [] {
      var n := |es| - 1;
      assert forall a :: 0 <= a < n ==> es[..n][a] == es[a];
      NamesOfMember(tagDict, eventDict, es[..n], x);
      if exists a, i :: 0 <= a < |es| && 0 <= i < |eventDict[es[a]]| && tagDict[eventDict[es[a]][i]] == x {
        var a, i :| 0 <= a < |es| && 0 <= i < |eventDict[es[a]]| && tagDict[eventDict[es[a]][i]] == x;
        if a < n {
          assert es[..n][a] == es[a];
        }
      }
    }
  }

  /** Listing every key, NamesOf gives all referenced names. */
  lemma NamesOfAllKeys(tagDict: map<TagId, TagName>, eventDict: map<EventId, seq<TagId>>, order: seq<EventId>)
    requires IsKeyOrder(order, eventDict.Keys) && KnownFor(tagDict, eventDict, order)
    ensures AllIdsKnown(tagDict, eventDict)
    ensures NamesOf(tagDict, eventDict, order) == ReferencedNames(tagDict, eventDict)
  {
    forall e, i | e in eventDict && 0 <= i < |eventDict[e]| ensures eventDict[e][i] in tagDict {
      var a :| 0 <= a < |order| && order[a] == e;
    }
    forall x | x in ReferencedNames(tagDict, eventDict) ensures x in NamesOf(tagDict, eventDict, order) {
      var e, i :| e in eventDict && 0 <= i < |eventDict[e]| && tagDict[eventDict[e][i]] == x;
      var a :| 0 <= a < |order| && order[a] == e;
      NamesOfMember(tagDict, eventDict, order, x);
    }
    forall x | x in NamesOf(tagDict, eventDict, order) ensures x in ReferencedNames(tagDict, eventDict) {
      NamesOfMember(tagDict, eventDict, order, x);
      var a, i :| 0 <= a < |order| && 0 <= i < |eventDict[order[a]]| && tagDict[eventDict[order[a]][i]] == x;
      var e := order[a];
      assert e in eventDict && 0 <= i < |eventDict[e]| && tagDict[eventDict[e][i]] == x;
    }
  }

  /** The flags after clearing the events of `es` one by one. */
  ghost function ClearedFlags(flags: map<EventId, bool>, es: seq<EventId>): map<EventId, bool>
    decreases |es|
  {
    if es == [] then flags else ClearedFlags(flags, es[..|es| - 1])[es[|es| - 1] := false]
  }

  lemma {:induction false} ClearedFlagsFacts(flags: map<EventId, bool>, es: seq<EventId>)
    ensures ClearedFlags(flags, es).Keys == flags.Keys + set a | 0 <= a < |es| :: es[a]
    ensures forall e :: e in ClearedFlags(flags, es) ==> ClearedFlags(flags, es)[e] == (e !in es && flags[e])
    decreases |es|
  {
    if es != [] {
      var n := |es| - 1;
      ClearedFlagsFacts(flags, es[..n]);
      assert (set a | 0 <= a < |es| :: es[a]) == (set a | 0 <= a < n :: es[..n][a]) + {es[n]};
      assert forall e :: e in es <==> e in es[..n] || e == es[n];
    }
  }

  /** The loop of main over the events dictionary: each event's tags are
      backfilled with NaN, then its flag is set to "all its tags are
      missing". Since the backfill runs first, every flag it sets is False. */
  method BackfillValueTags(frame: WideFrame, tagDict: map<TagId, TagName>, eventDict: map<EventId, seq<TagId>>,
                           order: seq<EventId>, flags: map<EventId, bool>)
    returns (r: Result<map<EventId, bool>>)
    requires frame.Valid() && IsKeyOrder(order, eventDict.Keys)
    modifies frame
    ensures frame.Valid()
    ensures AddsColumnsOf(old(frame.View()), frame.View(), None)
    ensures r.Ok? <==> AllIdsKnown(tagDict, eventDict)
    ensures r.Err? ==> r.fault == KeyError
    ensures r.Ok? ==> frame.columns == old(frame.columns) + ReferencedNames(tagDict, eventDict)
    ensures r.Ok? ==> r.value.Keys == flags.Keys + eventDict.Keys
    ensures r.Ok? ==> forall e :: e in r.value ==> r.value[e] == (if e in eventDict then false else flags[e])
  {
    ghost var v0 := frame.View();
    var acc := flags;
    for k := 0 to |order|
      invariant frame.Valid()
      invariant AddsColumnsOf(v0, frame.View(), None)
      invariant KnownFor(tagDict, eventDict, order[..k])
      invariant frame.columns == v0.columns + NamesOf(tagDict, eventDict, order[..k])
      invariant acc == ClearedFlags(flags, order[..k])
    {
      assert order[..k + 1][..k] == order[..k];
      var e := order[k];
      var tagIds := eventDict[e];
      ghost var before := frame.View();
      var step := BackfillEventTags(frame, tagDict, tagIds);
      AddsColumnsOfTransitive(v0, before, frame.View(), None);
      if step.Err? {
        return Err(step.fault);
      }
      var missing := AllTagsMissing(frame.columns, tagDict, tagIds);
      assert missing == Ok(false);
      acc := acc[e := missing.value];
    }
    assert order[..|order|] == order;
    NamesOfAllKeys(tagDict, eventDict, order);
    ClearedFlagsFacts(flags, order);
    assert (set a | 0 <= a < |order| :: order[a]) == eventDict.Keys by {
      forall e | e in eventDict ensures e in (set a | 0 <= a < |order| :: order[a]) {
        var a :| 0 <= a < |order| && order[a] == e;
      }
    }
    return Ok(acc);
  }
}
