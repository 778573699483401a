/** The tag and event catalogs: the TagIDs cell parser, the uniqueness
    checks on the two tables, the id-to-name dictionary, the comparison of
    configured tag ids with those present in the database, and the check on
    the order of the requested window's end points. */
module Catalog {
  import opened Wrappers

  type TagId = int
  type EventId = int
  type TagName = string

  // ---------------------------------------------------------------------
  // Python's int() applied to a piece of text
  // ---------------------------------------------------------------------

  /** The ASCII characters str.strip() and int() treat as white space:
      space, tab, line feed, vertical tab, form feed, carriage return and
      the four separators 0x1C to 0x1F. */
  predicate IsSpace(c: char) {
    c == ' ' || c == '\t' || c == '\n' || c == '\r' || c as int == 11 || c as int == 12 || 28 <= c as int <= 31
  }

  predicate IsDigit(c: char) {
    '0' <= c <= '9'
  }

  function TrimStart(s: string): (r: string)
    ensures |r| <= |s| && r == s[|s| - |r|..]
    ensures r != [] ==> !IsSpace(r[0])
  {
    if s != [] && IsSpace(s[0]) then TrimStart(s[1..]) else s
  }

  function TrimEnd(s: string): (r: string)
    ensures |r| <= |s| && r == s[..|r|]
    ensures r != [] ==> !IsSpace(r[|r| - 1])
  {
    if s != [] && IsSpace(s[|s| - 1]) then TrimEnd(s[..|s| - 1]) else s
  }

  /** Leading and trailing white space removed, as int() does before parsing. */
  function Strip(s: string): string {
    TrimEnd(TrimStart(s))
  }

  /** The digit text int() accepts in base 10: digits, with single
      underscores allowed between two digits. */
  predicate IsDigitText(s: string) {
    && |s| > 0
    && IsDigit(s[0])
    && IsDigit(s[|s| - 1])
    && (forall i :: 0 <= i < |s| ==> IsDigit(s[i]) || s[i] == '_')
    && (forall i :: 0 <= i < |s| - 1 ==> DigitAfterUnderscore(s, i))
  }

  /** An underscore at i is followed by a digit. */
  predicate DigitAfterUnderscore(s: string, i: int)
    requires 0 <= i < |s| - 1
  {
    s[i] == '_' ==> IsDigit(s[i + 1])
  }

  /** The number written by the digits of s, underscores skipped. */
  function DigitsValue(s: string): nat {
    if s == [] then 0
    else if IsDigit(s[|s| - 1]) then 10 * DigitsValue(s[..|s| - 1]) + (s[|s| - 1] as int - '0' as int)
    else DigitsValue(s[..|s| - 1])
  }

  /** int(s) in base 10: None stands for the ValueError it raises. */
  function ParseInt(s: string): (r: Option<int>)
    ensures Strip(s) == [] ==> r == None
    ensures r.Some? ==> exists i :: 0 <= i < |Strip(s)| && IsDigit(Strip(s)[i])
  {
    ParseStripped(Strip(s))
  }

  /** int() of text with no surrounding white space: an optional sign,
      then digit text. */
  function ParseStripped(t: string): (r: Option<int>)
    ensures t == [] ==> r == None
    ensures r.Some? ==> exists i :: 0 <= i < |t| && IsDigit(t[i])
  {
    if |t| > 0 && (t[0] == '-' || t[0] == '+') then
      if IsDigitText(t[1..]) then
        var v: int := DigitsValue(t[1..]);
        Some(if t[0] == '-' then -v else v)
      else None
    else if IsDigitText(t) then Some(DigitsValue(t))
    else None
  }

  function DigitChar(d: nat): (c: char)
    requires d < 10
    ensures IsDigit(c) && c as int - '0' as int == d
  {
    ('0' as int + d) as char
  }

  /** The decimal text of a natural number, as str() writes it. */
  function NatText(n: nat): (r: string)
    ensures |r| > 0 && forall i :: 0 <= i < |r| ==> IsDigit(r[i])
  {
    if n < 10 then [DigitChar(n)] else NatText(n / 10) + [DigitChar(n % 10)]
  }

  /** The decimal text of an integer, as str() writes it. */
  function IntText(n: int): string {
    if n < 0 then "-" + NatText(-n) else NatText(n)
  }

  lemma {:induction false} NatTextValue(n: nat)
    ensures DigitsValue(NatText(n)) == n
  {
    if n >= 10 {
      NatTextValue(n / 10);
      var s := NatText(n);
      assert s[..|s| - 1] == NatText(n / 10);
    }
  }

  lemma StripNoSpace(s: string)
    requires s != [] && !IsSpace(s[0]) && !IsSpace(s[|s| - 1])
    ensures Strip(s) == s
  {
  }

  /** int(str(n)) == n. */
  lemma IntTextRoundTrip(n: int)
    ensures ParseInt(IntText(n)) == Some(n)
  {
    StripNoSpace(IntText(n));
    ParseStrippedIntText(n);
  }

  lemma {:induction false} ParseStrippedIntText(n: int)
    ensures ParseStripped(IntText(n)) == Some(n)
  {
    var m: nat := if n < 0 then -n else n;
    var d, t := NatText(m), IntText(n);
    NatTextIsDigitText(m);
    NatTextValue(m);
    if n < 0 {
      assert t[0] == '-' && t[1..] == d;
    } else {
      assert t == d && IsDigit(t[0]);
    }
  }

  lemma NatTextIsDigitText(n: nat)
    ensures IsDigitText(NatText(n))
  {
    var d := NatText(n);
    forall i | 0 <= i < |d| - 1 ensures DigitAfterUnderscore(d, i) {
      assert IsDigit(d[i]);
    }
  }

  lemma IntTextNoComma(n: int)
    ensures ',' !in IntText(n)
  {
    var d := NatText(if n < 0 then -n else n);
    var t := IntText(n);
    forall k | 0 <= k < |t| ensures t[k] != ',' {
      if n < 0 && k > 0 { assert t[k] == d[k - 1]; }
    }
  }

  // ---------------------------------------------------------------------
  // str.split(',') and its inverse, ','.join(...)
  // ---------------------------------------------------------------------

  function JoinComma(pieces: seq<string>): string
    requires |pieces| >= 1
  {
    if |pieces| == 1 then pieces[0] else pieces[0] + "," + JoinComma(pieces[1..])
  }

  /** s.split(','): never empty, no piece holds a comma, and joining the
      pieces with commas gives s back. */
  function Split(s: string): (r: seq<string>)
    ensures |r| >= 1
    ensures forall i :: 0 <= i < |r| ==> ',' !in r[i]
    ensures JoinComma(r) == s
  {
    if s == [] then [""]
    else
      var rest := Split(s[1..]);
      if s[0] == ',' then
        assert JoinComma([""] + rest) == "," + JoinComma(rest);
        [""] + rest
      else
        var r := [[s[0]] + rest[0]] + rest[1..];
        assert r[1..] == rest[1..];
        assert JoinComma(r) == [s[0]] + JoinComma(rest) by {
          if |rest| > 1 {
            assert JoinComma(rest) == rest[0] + "," + JoinComma(rest[1..]);
          }
        }
        r
  }

  lemma {:induction false} SplitNoComma(a: string)
    requires ',' !in a
    ensures Split(a) == [a]
  {
    if a != [] {
      SplitNoComma(a[1..]);
      assert [a[0]] + a[1..] == a;
    }
  }

  lemma {:induction false} SplitAfterPiece(a: string, b: string)
    requires ',' !in a
    ensures Split(a + "," + b) == [a] + Split(b)
  {
    var s := a + "," + b;
    if a == [] {
      assert s == [','] + b && s[1..] == b;
    } else {
      assert s[0] == a[0] && s[1..] == a[1..] + "," + b;
      SplitAfterPiece(a[1..], b);
      var rest := Split(s[1..]);
      assert rest[0] == a[1..] && rest[1..] == Split(b);
      assert [a[0]] + a[1..] == a;
      assert Split(s) == [[s[0]] + rest[0]] + rest[1..];
    }
  }

  /** Splitting a comma-joined list of comma-free pieces gives the pieces back. */
  lemma {:induction false} SplitJoin(pieces: seq<string>)
    requires |pieces| >= 1
    requires forall i :: 0 <= i < |pieces| ==> ',' !in pieces[i]
    ensures Split(JoinComma(pieces)) == pieces
  {
    if |pieces| == 1 {
      SplitNoComma(pieces[0]);
    } else {
      SplitJoin(pieces[1..]);
      SplitAfterPiece(pieces[0], JoinComma(pieces[1..]));
      assert [pieces[0]] + pieces[1..] == pieces;
    }
  }

  // ---------------------------------------------------------------------
  // convert_items_to_list_of_ints
  // ---------------------------------------------------------------------

  /** What a TagIDs cell of the events sheet holds once read: a Python int,
      a str, or a float (NaN for a blank cell). */
  datatype TagIdsCell = IntCell(n: int) | StrCell(text: string) | FloatCell(isNaN: bool, x: real)

  /** A converted cell: a list of tag ids, or the original value left in
      place (with a warning) when no branch applies. */
  datatype Converted = TagList(ids: seq<TagId>) | Unconverted(cell: TagIdsCell)

  /** The first None stops the list; otherwise the values in order. */
  function Collect(opts: seq<Option<int>>): (r: Result<seq<int>>)
    ensures r.Ok? <==> forall i :: 0 <= i < |opts| ==> opts[i].Some?
    ensures r.Ok? ==> |r.value| == |opts|
    ensures r.Ok? ==> forall i :: 0 <= i < |opts| ==> Some(r.value[i]) == opts[i]
    ensures r.Err? ==> r.fault == ValueError
  {
    if opts == [] then Ok([])
    else match opts[0]
      case None => Err(ValueError)
      case Some(n) =>
        match Collect(opts[1..])
        case Err(f) => Err(f)
        case Ok(ns) => Ok([n] + ns)
  }

  /** [int(i) for i in pieces]; the first malformed piece raises ValueError. */
  function ParseAll(pieces: seq<string>): (r: Result<seq<int>>)
    ensures r.Ok? <==> forall i :: 0 <= i < |pieces| ==> ParseInt(pieces[i]).Some?
    ensures r.Ok? ==> |r.value| == |pieces|
    ensures r.Ok? ==> forall i :: 0 <= i < |pieces| ==> Some(r.value[i]) == ParseInt(pieces[i])
    ensures r.Err? ==> r.fault == ValueError
  {
    var opts := seq(|pieces|, i requires 0 <= i < |pieces| => ParseInt(pieces[i]));
    assert forall i :: 0 <= i < |pieces| ==> opts[i] == ParseInt(pieces[i]);
    Collect(opts)
  }

  /** [int(i) for i in text.split(',')]. */
  function ParseTagIds(text: string): (r: Result<seq<int>>)
    ensures r.Err? ==> r.fault == ValueError
  {
    ParseAll(Split(text))
  }

  /** A TagIDs text converts iff every comma-separated piece is an
      integer, and then to those integers in order. */
  lemma ParseTagIdsPieces(text: string, pieces: seq<string>)
    requires pieces == Split(text)
    ensures ParseTagIds(text).Ok? <==> forall i :: 0 <= i < |pieces| ==> ParseInt(pieces[i]).Some?
    ensures ParseTagIds(text).Ok? ==> |ParseTagIds(text).value| == |pieces|
    ensures ParseTagIds(text).Ok? ==> forall i :: 0 <= i < |pieces| ==> Some(ParseTagIds(text).value[i]) == ParseInt(pieces[i])
  {
  }

  /** One iteration of the conversion loop. The str test comes before the NaN
      test, so an empty string reaches int('') and raises. */
  function ConvertCell(c: TagIdsCell): (r: Result<Converted>)
    ensures c.IntCell? ==> r == Ok(TagList([c.n]))
    ensures c.FloatCell? ==> r == Ok(if c.isNaN then TagList([]) else Unconverted(c))
    ensures c.StrCell? ==> (r.Ok? <==> ParseTagIds(c.text).Ok?)
    ensures c.StrCell? && r.Ok? ==> r.value == TagList(ParseTagIds(c.text).value)
    ensures r.Ok? && r.value.Unconverted? ==> c.FloatCell? && !c.isNaN
  {
    match c
    case IntCell(n) => Ok(TagList([n]))
    case StrCell(text) =>
      var parsed := ParseTagIds(text);
      if parsed.Ok? then Ok(TagList(parsed.value)) else Err(ValueError)
    case FloatCell(isNaN, _) => if isNaN then Ok(TagList([])) else Ok(Unconverted(c))
  }

  /** The comma-separated text a configuration author writes for a list of ids. */
  function TagIdsText(ids: seq<int>): string
    requires |ids| >= 1
  {
    JoinComma(seq(|ids|, i requires 0 <= i < |ids| => IntText(ids[i])))
  }

  /** A cell written as "a,b,c" converts to [a, b, c], in order. */
  lemma {:induction false} TagIdsTextRoundTrip(ids: seq<int>)
    requires |ids| >= 1
    ensures ConvertCell(StrCell(TagIdsText(ids))) == Ok(TagList(ids))
  {
    var pieces := seq(|ids|, i requires 0 <= i < |ids| => IntText(ids[i]));
    forall i | 0 <= i < |pieces| ensures ',' !in pieces[i] && ParseInt(pieces[i]) == Some(ids[i]) {
      IntTextRoundTrip(ids[i]);
      IntTextNoComma(ids[i]);
    }
    SplitJoin(pieces);
    var r := ParseAll(pieces);
    assert r.Ok?;
    assert r.value == ids;
  }

  /** Any text with an empty piece (the empty string itself, a doubled or a
      trailing comma) makes the conversion raise ValueError instead of giving
      the empty list the docstring promises. */
  lemma EmptyPieceRaises(text: string, k: nat)
    requires k < |Split(text)| && Split(text)[k] == ""
    ensures ConvertCell(StrCell(text)) == Err(ValueError)
  {
    assert ParseInt(Split(text)[k]) == None;
  }

  /** `order` lists the keys of `m` in the dictionary's iteration order
      (Python dicts iterate in insertion order). */
  ghost predicate IsKeyOrder(order: seq<EventId>, keys: set<EventId>) {
    && (forall k :: k in keys ==> k in order)
    && (forall i :: 0 <= i < |order| ==> order[i] in keys)
  }

  /** The loop over the events dictionary: every value is replaced by its
      conversion and the key set does not change; one malformed text aborts
      the whole conversion with ValueError. */
  method ConvertItemsToListOfInts(eventDict: map<EventId, TagIdsCell>, order: seq<EventId>)
    returns (r: Result<map<EventId, Converted>>)
    requires IsKeyOrder(order, eventDict.Keys)
    ensures r.Ok? <==> forall k :: k in eventDict ==> ConvertCell(eventDict[k]).Ok?
    ensures r.Ok? ==> r.value.Keys == eventDict.Keys
    ensures r.Ok? ==> forall k :: k in eventDict ==> Ok(r.value[k]) == ConvertCell(eventDict[k])
    ensures r.Err? ==> r.fault == ValueError
  {
    var converted: map<EventId, Converted> := map[];
    for i := 0 to |order|
      invariant converted.Keys == set j | 0 <= j < i :: order[j]
      invariant forall k :: k in converted ==> Ok(converted[k]) == ConvertCell(eventDict[k])
    {
      var k := order[i];
      var c := ConvertCell(eventDict[k]);
      if c.Err? {
        return Err(c.fault);
      }
      converted := converted[k := c.value];
    }
    assert converted.Keys == eventDict.Keys by {
      forall k | k in eventDict ensures k in converted {
        var j :| 0 <= j < |order| && order[j] == k;
      }
      forall k | k in converted ensures k in eventDict {
        var j :| 0 <= j < |order| && order[j] == k;
        assert k in order;
      }
    }
    return Ok(converted);
  }

  /** The event loop iterates each converted value: a value left unconverted
      (a float) is not iterable and raises TypeError there. */
  function AsTagLists(converted: map<EventId, Converted>): (r: Result<map<EventId, seq<TagId>>>)
    ensures r.Ok? <==> forall k :: k in converted ==> converted[k].TagList?
    ensures r.Ok? ==> r.value.Keys == converted.Keys
    ensures r.Ok? ==> forall k :: k in converted ==> r.value[k] == converted[k].ids
    ensures r.Err? ==> r.fault == TypeError
  {
    if forall k :: k in converted ==> converted[k].TagList? then
      Ok(map k | k in converted :: converted[k].ids)
    else Err(TypeError)
  }

  // ---------------------------------------------------------------------
  // The two tables, and dict(zip(...)) over their columns
  // ---------------------------------------------------------------------

  /** A row of the Tags sheet; `display` is the "Tag (Units)" column, the name
      the tag gets in the wide frame. */
  datatype TagRow = TagRow(id: TagId, tag: string, process: string, units: string, display: TagName)

  /** A row of the Events sheet. */
  datatype EventRow = EventRow(id: EventId, text: string, process: string, kind: string, tagIds: TagIdsCell)

  /** pandas' `is_unique` on a column. */
  function IsUnique<T(==)>(s: seq<T>): (r: bool)
    ensures r <==> forall i, j :: 0 <= i < j < |s| ==> s[i] != s[j]
  {
    if s == [] then true
    else if s[0] in s[1..] then
      assert exists j :: 1 <= j < |s| && s[j] == s[0] by {
        var j' :| 0 <= j' < |s[1..]| && s[1..][j'] == s[0];
        assert s[j' + 1] == s[0];
      }
      false
    else
      var u := IsUnique(s[1..]);
      assert u ==> forall i, j :: 0 <= i < j < |s| ==> s[i] != s[j] by {
        if u {
          forall i, j | 0 <= i < j < |s| ensures s[i] != s[j] {
            if i > 0 { assert s[i] == s[1..][i - 1] && s[j] == s[1..][j - 1]; }
            else { assert s[j] == s[1..][j - 1]; }
          }
        }
      }
      assert !u ==> exists i, j :: 0 <= i < j < |s| && s[i] == s[j] by {
        if !u {
          var i', j' :| 0 <= i' < j' < |s[1..]| && s[1..][i'] == s[1..][j'];
          assert s[i' + 1] == s[j' + 1];
        }
      }
      u
  }

  function TagIds(rows: seq<TagRow>): (r: seq<TagId>)
    ensures |r| == |rows| && forall i :: 0 <= i < |rows| ==> r[i] == rows[i].id
  {
    seq(|rows|, i requires 0 <= i < |rows| => rows[i].id)
  }

  datatype TableWarning = EmptyTable | IdsNotUnique | TagsNotUnique

  function RowTags(rows: seq<TagRow>): (r: seq<TagName>)
    ensures |r| == |rows| && forall i :: 0 <= i < |rows| ==> r[i] == rows[i].tag
  {
    seq(|rows|, i requires 0 <= i < |rows| => rows[i].tag)
  }

  /** The warning w when it is raised, nothing otherwise. */
  function Warn(raised: bool, w: TableWarning): (r: seq<TableWarning>)
    ensures forall x :: x in r <==> raised && x == w
  {
    if raised then [w] else []
  }

  /** The warnings of check_tags_table about the rows: an empty table, a
      repeated TagID, a repeated Tag. */
  function TagsTableWarnings(rows: seq<TagRow>): (r: seq<TableWarning>)
    ensures EmptyTable in r <==> rows == []
    ensures IdsNotUnique in r <==> exists i, j :: 0 <= i < j < |rows| && rows[i].id == rows[j].id
    ensures TagsNotUnique in r <==> exists i, j :: 0 <= i < j < |rows| && rows[i].tag == rows[j].tag
  {
    var ids, tags := TagIds(rows), RowTags(rows);
    Warn(rows == [], EmptyTable) + Warn(!IsUnique(ids), IdsNotUnique) + Warn(!IsUnique(tags), TagsNotUnique)
  }

  /** The warnings of check_events_table about the rows: an empty table, a
      repeated EventID. */
  function EventsTableWarnings(rows: seq<EventRow>): (r: seq<TableWarning>)
    ensures EmptyTable in r <==> rows == []
    ensures IdsNotUnique in r <==> exists i, j :: 0 <= i < j < |rows| && rows[i].id == rows[j].id
    ensures TagsNotUnique !in r
  {
    var ids := seq(|rows|, i requires 0 <= i < |rows| => rows[i].id);
    assert forall i :: 0 <= i < |rows| ==> ids[i] == rows[i].id;
    Warn(rows == [], EmptyTable) + Warn(!IsUnique(ids), IdsNotUnique)
  }

  /** dict(zip(keys, values)): a later pair overwrites an earlier one with the
      same key. */
  function ZipDict<K, V>(keys: seq<K>, values: seq<V>): (r: map<K, V>)
    requires |keys| == |values|
    ensures r.Keys == set i | 0 <= i < |keys| :: keys[i]
  {
    if keys == [] then map[]
    else ZipDict(keys[..|keys| - 1], values[..|values| - 1])[keys[|keys| - 1] := values[|values| - 1]]
  }

  /** A key maps to the value paired with its LAST occurrence. */
  lemma {:induction false} ZipDictLastWins<K, V>(keys: seq<K>, values: seq<V>, i: nat)
    requires |keys| == |values| && i < |keys|
    requires forall j :: i < j < |keys| ==> keys[j] != keys[i]
    ensures keys[i] in ZipDict(keys, values) && ZipDict(keys, values)[keys[i]] == values[i]
  {
    if i < |keys| - 1 {
      ZipDictLastWins(keys[..|keys| - 1], values[..|values| - 1], i);
    }
  }

  /** tag_dict: TagID to "Tag (Units)". */
  function TagDict(rows: seq<TagRow>): (r: map<TagId, TagName>)
    ensures r.Keys == IdSet(rows)
  {
    var ids := TagIds(rows);
    var displays := seq(|rows|, i requires 0 <= i < |rows| => rows[i].display);
    assert (set i | 0 <= i < |ids| :: ids[i]) == set i | 0 <= i < |rows| :: rows[i].id;
    ZipDict(ids, displays)
  }

  /** With unique TagIDs (what check_tags_table warns about otherwise) every
      row's id maps to that row's display. */
  lemma TagDictOfUniqueIds(rows: seq<TagRow>, i: nat)
    requires i < |rows| && IsUnique(TagIds(rows))
    ensures rows[i].id in TagDict(rows) && TagDict(rows)[rows[i].id] == rows[i].display
  {
    var ids := TagIds(rows);
    var displays := seq(|rows|, i requires 0 <= i < |rows| => rows[i].display);
    ZipDictLastWins(ids, displays, i);
  }

  /** [tag_dict[tagid] for tagid in ids]: the first id missing from the
      dictionary raises KeyError. */
  function TagNames(tagDict: map<TagId, TagName>, ids: seq<TagId>): (r: Result<seq<TagName>>)
    ensures r.Ok? <==> forall i :: 0 <= i < |ids| ==> ids[i] in tagDict
    ensures r.Ok? ==> |r.value| == |ids|
    ensures r.Ok? ==> forall i :: 0 <= i < |ids| ==> r.value[i] == tagDict[ids[i]]
    ensures r.Err? ==> r.fault == KeyError
  {
    if ids == [] then Ok([])
    else if ids[0] !in tagDict then Err(KeyError)
    else match TagNames(tagDict, ids[1..])
      case Err(f) => Err(f)
      case Ok(names) => Ok([tagDict[ids[0]]] + names)
  }

  // ---------------------------------------------------------------------
  // check_tagids_missing_from_sql (the set logic) and check_datetime_order
  // ---------------------------------------------------------------------

  function IdSet(rows: seq<TagRow>): set<TagId> {
    set i | 0 <= i < |rows| :: rows[i].id
  }

  /** The rows of the tags table whose id is not among `present`, in order. */
  function RowsMissing(rows: seq<TagRow>, present: set<TagId>): (r: seq<TagRow>)
    ensures forall row :: row in r <==> row in rows && row.id !in present
    ensures |r| <= |rows|
  {
    if rows == [] then []
    else
      var rest := RowsMissing(rows[1..], present);
      assert forall row :: row in rows <==> row == rows[0] || row in rows[1..];
      if rows[0].id in present then rest else [rows[0]] + rest
  }

  /** What the comparison logs and returns. */
  datatype SqlComparison = SqlComparison(warning: Option<set<TagId>>, missingRows: seq<TagRow>)

  /** The configured ids are compared with the ids the database holds for
      the window: a warning names config minus database exactly when the
      configuration is not a subset, and the rows of the missing ids are
      returned; otherwise nothing is returned. */
  function CompareWithSql(rows: seq<TagRow>, sqlIds: set<TagId>): (r: SqlComparison)
    ensures r.warning.Some? <==> !(IdSet(rows) <= sqlIds)
    ensures r.warning.Some? ==> r.warning.value == IdSet(rows) - sqlIds && r.warning.value != {}
    ensures r.missingRows == [] <==> IdSet(rows) <= sqlIds
    ensures forall row :: row in r.missingRows <==> row in rows && row.id !in sqlIds
  {
    if IdSet(rows) <= sqlIds then
      assert forall row :: row in rows ==> row.id in sqlIds by {
        forall row | row in rows ensures row.id in sqlIds {
          var i :| 0 <= i < |rows| && rows[i] == row;
          assert rows[i].id in IdSet(rows);
        }
      }
      SqlComparison(None, [])
    else
      var missing := IdSet(rows) - sqlIds;
      var id :| id in missing;
      var i :| 0 <= i < |rows| && rows[i].id == id;
      assert rows[i] in RowsMissing(rows, sqlIds);
      SqlComparison(Some(missing), RowsMissing(rows, sqlIds))
  }

  /** check_datetime_order: a start after the end ends the run (a bare
      `raise` outside a handler raises RuntimeError); equal end points pass. */
  function CheckDatetimeOrder(start: int, end: int): (r: Result<()>)
    ensures r.Ok? <==> start <= end
    ensures r.Err? ==> r.fault == RuntimeError
  {
    if start > end then Err(RuntimeError) else Ok(())
  }
}
