/** The long (one reading per row) series read from the historian, its
    normalisation (minute floor, empty-window exit, de-duplication) and the
    pivot to the wide frame. */
module LongSeries {
  import opened Wrappers
  import opened Catalog
  import opened Frames

  /** One row of the query result: TagID, Datetime, Value. */
  datatype Reading = Reading(tagId: TagId, time: Timestamp, value: Cell)

  // ---------------------------------------------------------------------
  // The query window
  // ---------------------------------------------------------------------

  /** The rows the query selects: start <= time < end and a configured id. */
  function Window(db: seq<Reading>, start: Timestamp, end: Timestamp, ids: set<TagId>): (r: seq<Reading>)
    ensures forall i :: 0 <= i < |r| ==> r[i] in db && start <= r[i].time < end && r[i].tagId in ids
    ensures forall x :: x in db && start <= x.time < end && x.tagId in ids ==> x in r
  {
    if db == [] then []
    else
      var rest := Window(db[1..], start, end, ids);
      if start <= db[0].time < end && db[0].tagId in ids then [db[0]] + rest else rest
  }

  // ---------------------------------------------------------------------
  // Minute floor
  // ---------------------------------------------------------------------

  /** dt.floor('min') on seconds; Dafny's % is Euclidean, so this also
      rounds times before the epoch down. */
  function FloorToMinute(t: Timestamp): (r: Timestamp)
    ensures r % 60 == 0
    ensures r <= t < r + 60
  {
    t - t % 60
  }

  /** Flooring a floored time changes nothing. */
  lemma FloorToMinuteIdempotent(t: Timestamp)
    ensures FloorToMinute(FloorToMinute(t)) == FloorToMinute(t)
  {
    var f := FloorToMinute(t);
    assert f % 60 == 0;
  }

  /** Two times within the same minute floor to the same value. */
  lemma FloorToMinuteSameMinute(t: Timestamp, m: int)
    requires 60 * m <= t < 60 * m + 60
    ensures FloorToMinute(t) == 60 * m
  {
    var f := FloorToMinute(t);
    assert f % 60 == 0 && f <= t < f + 60;
    var q := f / 60;
    assert f == 60 * q;
  }

  function FloorAll(s: seq<Reading>): (r: seq<Reading>)
    ensures |r| == |s|
    ensures forall i :: 0 <= i < |s| ==> r[i] == s[i].(time := FloorToMinute(s[i].time))
  {
    if s == [] then [] else [s[0].(time := FloorToMinute(s[0].time))] + FloorAll(s[1..])
  }

  // ---------------------------------------------------------------------
  // drop_duplicates(subset=['TagID','Datetime'], keep='first')
  // ---------------------------------------------------------------------

  type SeriesKey = (TagId, Timestamp)

  function KeyOf(x: Reading): SeriesKey {
    (x.tagId, x.time)
  }

  function KeysOf(s: seq<Reading>): set<SeriesKey> {
    set i | 0 <= i < |s| :: KeyOf(s[i])
  }

  /** No two readings share (TagID, Datetime). */
  predicate UniqueKeys(s: seq<Reading>) {
    forall i, j :: 0 <= i < j < |s| ==> KeyOf(s[i]) != KeyOf(s[j])
  }

  /** s[i] is the first reading with its key. */
  ghost predicate IsFirstAt(s: seq<Reading>, i: int) {
    0 <= i < |s| && forall j :: 0 <= j < i ==> KeyOf(s[j]) != KeyOf(s[i])
  }

  function DropDuplicates(s: seq<Reading>): (r: seq<Reading>)
    ensures UniqueKeys(r)
    ensures KeysOf(r) == KeysOf(s)
    ensures |r| <= |s|
    decreases |s|
  {
    if s == [] then []
    else
      var prev := DropDuplicates(s[..|s| - 1]);
      var x := s[|s| - 1];
      assert KeysOf(s) == KeysOf(s[..|s| - 1]) + {KeyOf(x)} by {
        assert forall i :: 0 <= i < |s| - 1 ==> s[..|s| - 1][i] == s[i];
      }
      if KeyOf(x) in KeysOf(prev) then prev
      else
        KeysOfSnoc(prev, x);
        prev + [x]
  }

  lemma KeysOfSnoc(s: seq<Reading>, x: Reading)
    ensures KeysOf(s + [x]) == KeysOf(s) + {KeyOf(x)}
  {
    assert forall i :: 0 <= i < |s| ==> (s + [x])[i] == s[i];
    assert (s + [x])[|s|] == x;
  }

  /** The first positions of a prefix are the first positions of the
      whole series that lie inside the prefix. */
  lemma FirstsOfInit(s: seq<Reading>)
    requires s != []
    ensures forall i :: IsFirstAt(s[..|s| - 1], i) <==> 0 <= i < |s| - 1 && IsFirstAt(s, i)
  {
    var init := s[..|s| - 1];
    forall i ensures IsFirstAt(init, i) <==> 0 <= i < |s| - 1 && IsFirstAt(s, i) {
      if 0 <= i < |init| {
        assert forall j :: 0 <= j <= i ==> init[j] == s[j];
      }
    }
  }

  ghost predicate Increasing(idx: seq<nat>) {
    forall a, b :: 0 <= a < b < |idx| ==> idx[a] < idx[b]
  }

  /** r is read off s at the first positions idx. */
  ghost predicate PicksFirsts(s: seq<Reading>, r: seq<Reading>, idx: seq<nat>) {
    |idx| == |r| && forall a :: 0 <= a < |idx| ==> IsFirstAt(s, idx[a]) && r[a] == s[idx[a]]
  }

  /** Every first position of s is among idx. */
  ghost predicate CoversFirsts(s: seq<Reading>, idx: seq<nat>) {
    forall i :: IsFirstAt(s, i) ==> i in idx
  }

  /** keep='first' and order: the result is the subsequence of the input
      made of the first reading of every key. `idx` names the positions. */
  lemma {:induction false} DropDuplicatesKeepsFirst(s: seq<Reading>) returns (idx: seq<nat>)
    ensures Increasing(idx)
    ensures PicksFirsts(s, DropDuplicates(s), idx)
    ensures CoversFirsts(s, idx)
    decreases |s|
  {
    if s == [] {
      return [];
    }
    var init := s[..|s| - 1];
    var x := s[|s| - 1];
    var prevIdx := DropDuplicatesKeepsFirst(init);
    var prev := DropDuplicates(init);
    FirstsOfInit(s);
    if KeyOf(x) in KeysOf(prev) {
      assert KeyOf(x) in KeysOf(init);
      var j :| 0 <= j < |init| && KeyOf(init[j]) == KeyOf(x);
      assert s[j] == init[j];
      assert !IsFirstAt(s, |s| - 1);
      idx := prevIdx;
      assert DropDuplicates(s) == prev;
    } else {
      SnocFirst(s, prev, prevIdx);
      idx := prevIdx + [|s| - 1];
    }
  }

  lemma SnocFirst(s: seq<Reading>, prev: seq<Reading>, prevIdx: seq<nat>)
    requires s != [] && prev == DropDuplicates(s[..|s| - 1])
    requires KeyOf(s[|s| - 1]) !in KeysOf(prev)
    requires forall i :: IsFirstAt(s[..|s| - 1], i) <==> 0 <= i < |s| - 1 && IsFirstAt(s, i)
    requires Increasing(prevIdx) && PicksFirsts(s[..|s| - 1], prev, prevIdx) && CoversFirsts(s[..|s| - 1], prevIdx)
    ensures DropDuplicates(s) == prev + [s[|s| - 1]]
    ensures Increasing(prevIdx + [|s| - 1])
    ensures PicksFirsts(s, prev + [s[|s| - 1]], prevIdx + [|s| - 1])
    ensures CoversFirsts(s, prevIdx + [|s| - 1])
  {
    var init := s[..|s| - 1];
    var x := s[|s| - 1];
    assert KeyOf(x) !in KeysOf(init);
    SnocFirstIsFirst(s);
    SnocFirstIncreasing(s, prevIdx);
    SnocFirstPicks(s, prev, prevIdx);
    SnocFirstCovers(s, prevIdx);
  }

  lemma SnocFirstIsFirst(s: seq<Reading>)
    requires s != [] && KeyOf(s[|s| - 1]) !in KeysOf(s[..|s| - 1])
    ensures IsFirstAt(s, |s| - 1)
  {
    var init := s[..|s| - 1];
    forall j | 0 <= j < |s| - 1 ensures KeyOf(s[j]) != KeyOf(s[|s| - 1]) {
      assert s[j] == init[j];
    }
  }

  lemma SnocFirstIncreasing(s: seq<Reading>, prevIdx: seq<nat>)
    requires s != []
    requires Increasing(prevIdx)
    requires forall a :: 0 <= a < |prevIdx| ==> IsFirstAt(s[..|s| - 1], prevIdx[a])
    ensures Increasing(prevIdx + [|s| - 1])
  {
    var idx := prevIdx + [|s| - 1];
    forall a, b | 0 <= a < b < |idx| ensures idx[a] < idx[b] {
      assert idx[a] == prevIdx[a];
      assert IsFirstAt(s[..|s| - 1], prevIdx[a]);
    }
  }

  lemma SnocFirstPicks(s: seq<Reading>, prev: seq<Reading>, prevIdx: seq<nat>)
    requires s != [] && IsFirstAt(s, |s| - 1)
    requires forall i :: IsFirstAt(s[..|s| - 1], i) <==> 0 <= i < |s| - 1 && IsFirstAt(s, i)
    requires PicksFirsts(s[..|s| - 1], prev, prevIdx)
    ensures PicksFirsts(s, prev + [s[|s| - 1]], prevIdx + [|s| - 1])
  {
    var init := s[..|s| - 1];
    var idx := prevIdx + [|s| - 1];
    var r := prev + [s[|s| - 1]];
    forall a | 0 <= a < |idx| ensures IsFirstAt(s, idx[a]) && r[a] == s[idx[a]] {
      if a < |prevIdx| {
        assert IsFirstAt(init, prevIdx[a]);
        assert init[prevIdx[a]] == s[prevIdx[a]];
      }
    }
  }

  lemma SnocFirstCovers(s: seq<Reading>, prevIdx: seq<nat>)
    requires s != []
    requires forall i :: IsFirstAt(s[..|s| - 1], i) <==> 0 <= i < |s| - 1 && IsFirstAt(s, i)
    requires CoversFirsts(s[..|s| - 1], prevIdx)
    ensures CoversFirsts(s, prevIdx + [|s| - 1])
  {
    var idx := prevIdx + [|s| - 1];
    forall i | IsFirstAt(s, i) ensures i in idx {
      if i == |s| - 1 {
        assert idx[|prevIdx|] == i;
      } else {
        assert IsFirstAt(s[..|s| - 1], i);
        assert i in prevIdx;
      }
    }
  }

  /** A series without repeated keys is left as it is. */
  lemma {:induction false} DropDuplicatesOfUnique(s: seq<Reading>)
    requires UniqueKeys(s)
    ensures DropDuplicates(s) == s
    decreases |s|
  {
    if s != [] {
      var init := s[..|s| - 1];
      assert UniqueKeys(init);
      DropDuplicatesOfUnique(init);
      assert KeyOf(s[|s| - 1]) !in KeysOf(init);
      assert init + [s[|s| - 1]] == s;
    }
  }

  /** The normalisation steps of create_df_from_sql: floor every timestamp,
      exit when the window holds no rows, then keep the first reading of
      every (TagID, Datetime) pair. */
  function NormaliseSeries(rows: seq<Reading>): (r: Result<seq<Reading>>)
    ensures r.Err? <==> rows == []
    ensures r.Err? ==> r.fault == EmptyWindow
    ensures r.Ok? ==> r.value != [] && UniqueKeys(r.value)
    ensures r.Ok? ==> KeysOf(r.value) == KeysOf(FloorAll(rows))
    ensures r.Ok? ==> forall i :: 0 <= i < |r.value| ==> r.value[i].time % 60 == 0
  {
    var floored := FloorAll(rows);
    if floored == [] then Err(EmptyWindow)
    else
      var d := DropDuplicates(floored);
      assert KeyOf(floored[0]) in KeysOf(d);
      assert forall i :: 0 <= i < |d| ==> KeyOf(d[i]) in KeysOf(floored);
      Ok(d)
  }

  // ---------------------------------------------------------------------
  // Naming and pivoting
  // ---------------------------------------------------------------------

  /** Datetime, Tag, Value. */
  datatype NamedReading = NamedReading(time: Timestamp, tag: TagName, value: Cell)

  /** df['Tag'] = df['TagID'].map(tag_dict). Every id is known, because the
      query only asks for the configured ids. */
  function NameReadings(rows: seq<Reading>, tagDict: map<TagId, TagName>): (r: seq<NamedReading>)
    requires forall i :: 0 <= i < |rows| ==> rows[i].tagId in tagDict
    ensures |r| == |rows|
    ensures forall i :: 0 <= i < |rows| ==>
      r[i] == NamedReading(rows[i].time, tagDict[rows[i].tagId], rows[i].value)
  {
    if rows == [] then []
    else [NamedReading(rows[0].time, tagDict[rows[0].tagId], rows[0].value)] + NameReadings(rows[1..], tagDict)
  }

  function Times(named: seq<NamedReading>): set<Timestamp> {
    set i | 0 <= i < |named| :: named[i].time
  }

  function Tags(named: seq<NamedReading>): set<TagName> {
    set i | 0 <= i < |named| :: named[i].tag
  }

  /** No two readings land in the same (timestamp, tag name) cell. */
  predicate DistinctCells(named: seq<NamedReading>) {
    forall i, j :: 0 <= i < j < |named| ==> (named[i].time, named[i].tag) != (named[j].time, named[j].tag)
  }

  /** The value of the first reading for (t, n); null when there is none. */
  function CellAt(named: seq<NamedReading>, t: Timestamp, n: TagName): (r: Cell)
    ensures (forall i :: 0 <= i < |named| ==> (named[i].time, named[i].tag) != (t, n)) ==> r == None
  {
    if named == [] then None
    else if named[0].time == t && named[0].tag == n then named[0].value
    else
      assert forall i :: 1 <= i < |named| ==> named[1..][i - 1] == named[i];
      CellAt(named[1..], t, n)
  }

  /** df1.pivot(index='Datetime', columns='Tag', values='Value'): one row
      per timestamp, one column per tag name; pandas refuses to pivot when
      one cell would receive two values. */
  function Pivot(named: seq<NamedReading>): (r: Result<Table>)
    ensures r.Err? <==> !DistinctCells(named)
    ensures r.Err? ==> r.fault == DuplicateEntries
    ensures r.Ok? ==> r.value.Valid()
    ensures r.Ok? ==> r.value.rows.Keys == Times(named) && r.value.columns == Tags(named)
  {
    if !DistinctCells(named) then Err(DuplicateEntries)
    else
      var tags := Tags(named);
      Ok(Table(map t | t in Times(named) :: map n | n in tags :: CellAt(named, t, n), tags))
  }

  /** Every reading ends up in its own cell of the pivoted table. */
  lemma {:induction false} PivotCell(named: seq<NamedReading>, i: nat)
    requires DistinctCells(named) && i < |named|
    ensures Pivot(named).Ok?
    ensures CellOf(Pivot(named).value, named[i].time, named[i].tag) == named[i].value
  {
    CellAtFirst(named, i);
  }

  /** A (timestamp, tag) pair with no reading is a null cell. */
  lemma PivotMissingPair(named: seq<NamedReading>, t: Timestamp, n: TagName)
    requires DistinctCells(named)
    requires t in Times(named) && n in Tags(named)
    requires forall i :: 0 <= i < |named| ==> (named[i].time, named[i].tag) != (t, n)
    ensures CellOf(Pivot(named).value, t, n) == None
  {
  }

  /** The cell (t, n) of a table, null outside it. */
  function CellOf(tb: Table, t: Timestamp, n: TagName): Cell {
    if t in tb.rows && n in tb.rows[t] then tb.rows[t][n] else None
  }

  lemma {:induction false} CellAtFirst(named: seq<NamedReading>, i: nat)
    requires DistinctCells(named) && i < |named|
    ensures CellAt(named, named[i].time, named[i].tag) == named[i].value
    decreases i
  {
    if i > 0 {
      var rest := named[1..];
      assert rest[i - 1] == named[i];
      assert DistinctCells(rest) by {
        forall a, b | 0 <= a < b < |rest| ensures (rest[a].time, rest[a].tag) != (rest[b].time, rest[b].tag) {
          assert rest[a] == named[a + 1] && rest[b] == named[b + 1];
        }
      }
      CellAtFirst(rest, i - 1);
      assert (named[0].time, named[0].tag) != (named[i].time, named[i].tag);
    }
  }

  // ---------------------------------------------------------------------
  // From the query result to the wide frame
  // ---------------------------------------------------------------------

  /** create_df_from_sql's normalisation, the naming and the pivot. */
  function BuildWideTable(rows: seq<Reading>, tagDict: map<TagId, TagName>): (r: Result<Table>)
    requires forall i :: 0 <= i < |rows| ==> rows[i].tagId in tagDict
    ensures r.Ok? ==> r.value.Valid()
  {
    match NormaliseSeries(rows)
    case Err(f) => Err(f)
    case Ok(series) =>
      assert forall i :: 0 <= i < |series| ==> series[i].tagId in tagDict by {
        forall i | 0 <= i < |series| ensures series[i].tagId in tagDict {
          assert KeyOf(series[i]) in KeysOf(FloorAll(rows));
        }
      }
      Pivot(NameReadings(series, tagDict))
  }

  /** Distinct ids have distinct names. */
  ghost predicate NamesInjective(tagDict: map<TagId, TagName>) {
    forall a, b :: a in tagDict && b in tagDict && a != b ==> tagDict[a] != tagDict[b]
  }

  /** With distinct names the pipeline stops only on an empty window, and
      otherwise every floored minute of the window is a row. */
  lemma BuildWideTableOutcome(rows: seq<Reading>, tagDict: map<TagId, TagName>)
    requires forall i :: 0 <= i < |rows| ==> rows[i].tagId in tagDict
    requires NamesInjective(tagDict)
    ensures rows == [] ==> BuildWideTable(rows, tagDict) == Err(EmptyWindow)
    ensures rows != [] ==> BuildWideTable(rows, tagDict).Ok?
    ensures rows != [] ==> BuildWideTable(rows, tagDict).value.rows.Keys == set i | 0 <= i < |rows| :: FloorToMinute(rows[i].time)
  {
    if rows != [] {
      var floored := FloorAll(rows);
      var series := NormaliseSeries(rows).value;
      forall i | 0 <= i < |series| ensures series[i].tagId in tagDict {
        assert KeyOf(series[i]) in KeysOf(floored);
      }
      var named := NameReadings(series, tagDict);
      assert DistinctCells(named) by {
        forall a, b | 0 <= a < b < |named| ensures (named[a].time, named[a].tag) != (named[b].time, named[b].tag) {
          assert KeyOf(series[a]) != KeyOf(series[b]);
        }
      }
      assert Times(named) == set i | 0 <= i < |rows| :: FloorToMinute(rows[i].time) by {
        forall t | t in Times(named) ensures t in set i | 0 <= i < |rows| :: FloorToMinute(rows[i].time) {
          var a :| 0 <= a < |named| && named[a].time == t;
          assert KeyOf(series[a]) in KeysOf(floored);
          var i :| 0 <= i < |floored| && KeyOf(floored[i]) == KeyOf(series[a]);
        }
        forall i | 0 <= i < |rows| ensures FloorToMinute(rows[i].time) in Times(named) {
          assert KeyOf(floored[i]) in KeysOf(series);
          var a :| 0 <= a < |series| && KeyOf(series[a]) == KeyOf(floored[i]);
          assert named[a].time == FloorToMinute(rows[i].time);
        }
      }
    }
  }

  /** Two ids that share a name and report in the same minute stop the
      pivot. */
  lemma SharedNameStopsPivot(a: Reading, b: Reading, tagDict: map<TagId, TagName>)
    requires a.tagId in tagDict && b.tagId in tagDict
    requires a.tagId != b.tagId && tagDict[a.tagId] == tagDict[b.tagId]
    requires FloorToMinute(a.time) == FloorToMinute(b.time)
    ensures BuildWideTable([a, b], tagDict) == Err(DuplicateEntries)
  {
    var series := NormaliseSeries([a, b]).value;
    var floored := FloorAll([a, b]);
    assert KeyOf(floored[0]) != KeyOf(floored[1]);
    DropDuplicatesOfUnique(floored);
    assert series == floored;
    var named := NameReadings(series, tagDict);
    assert !DistinctCells(named) by {
      assert (named[0].time, named[0].tag) == (named[1].time, named[1].tag);
    }
  }
}
