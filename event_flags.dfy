/** The event loop of main: every catalog row with tags is evaluated,
    its flag is raised when the quality index of its primary column is
    below 1, and the texts of flagged events are collected in catalog
    order. The quality index itself comes from the quality checker and is
    an input here. */
module EventFlags {
  import opened Wrappers
  import opened Catalog
  import opened Frames
  import opened EventAssembly

  /** event_flags = dict.fromkeys(range(1, n + 1), False). */
  function InitialFlags(n: nat): (r: map<EventId, bool>)
    ensures forall e :: e in r <==> 1 <= e <= n
    ensures forall e :: e in r ==> !r[e]
  {
    if n == 0 then map[] else InitialFlags(n - 1)[n := false]
  }

  /** The flags and the detected-events list. */
  datatype Progress = Progress(flags: map<EventId, bool>, detected: seq<string>)

  /** What every event's evaluation reads: the two dictionaries, the
      columns of the wide frame, the status tags and the primary tags. */
  datatype Context = Context(
    eventDict: map<EventId, seq<TagId>>,
    tagDict: map<TagId, TagName>,
    columns: set<TagName>,
    status: StatusTags,
    primary: map<EventId, PrimaryEntry>)

  /** How far an event gets before its quality index is read. */
  datatype Preparation = Skipped | Evaluated(cols: seq<TagName>)

  /** Every column of the event's sub-frame is a column of the wide frame. */
  predicate SubFrameSelectable(cols: seq<TagName>, status: StatusTags, columns: set<TagName>) {
    var sub := SubFrameColumns(cols, status);
    forall i :: 0 <= i < |sub| ==> sub[i] in columns
  }

  /** The event's tags, the sub-frame selection and the quality-checker
      calls: an event without tags only gets a placeholder. */
  function Prepare(ctx: Context, row: EventRow): (r: Result<Preparation>)
    ensures r.Err? ==> r.fault == KeyError
    ensures r.Ok? <==> (row.id in ctx.eventDict &&
      (|| ctx.eventDict[row.id] == []
       || (var cols := EventColumns(row.id, ctx.eventDict[row.id], ctx.tagDict);
           && cols.Ok?
           && SubFrameSelectable(cols.value, ctx.status, ctx.columns)
           && EventPlan(row.id, row.process, cols.value, ctx.status, ctx.tagDict).Ok?)))
    ensures r == Ok(Skipped) <==> row.id in ctx.eventDict && ctx.eventDict[row.id] == []
    ensures r.Ok? && ctx.eventDict[row.id] != [] ==> r.value.Evaluated?
    ensures r.Ok? && r.value.Evaluated? ==>
      row.id in ctx.eventDict && EventColumns(row.id, ctx.eventDict[row.id], ctx.tagDict) == Ok(r.value.cols)
  {
    if row.id !in ctx.eventDict then Err(KeyError)
    else
      var ids := ctx.eventDict[row.id];
      if ids == [] then Ok(Skipped)
      else
        match EventColumns(row.id, ids, ctx.tagDict)
        case Err(f) => Err(f)
        case Ok(cols) =>
          if !SubFrameSelectable(cols, ctx.status, ctx.columns) then Err(KeyError)
          else
            match EventPlan(row.id, row.process, cols, ctx.status, ctx.tagDict)
            case Err(f) => Err(f)
            case Ok(_) => Ok(Evaluated(cols))
  }

  /** QCI[primary_event_tags[eventid]]: KeyError when the event has no
      entry, when its entry is None, or when the name is not one of the
      event's columns (the index only covers those). */
  function PrimaryIndex(primary: map<EventId, PrimaryEntry>, eventId: EventId, cols: seq<TagName>,
                        qci: map<TagName, real>): (r: Result<real>)
    ensures r.Ok? <==> eventId in primary && primary[eventId].Named?
                       && primary[eventId].tag in cols && primary[eventId].tag in qci
    ensures r.Err? ==> r.fault == KeyError
    ensures r.Ok? ==> r.value == qci[primary[eventId].tag]
  {
    if eventId in primary && primary[eventId].Named? && primary[eventId].tag in cols && primary[eventId].tag in qci
    then Ok(qci[primary[eventId].tag])
    else Err(KeyError)
  }

  /** Raise the flag when triggered, then read it back (KeyError for an id
      that has no flag) and append the text when it is set. */
  function RecordOutcome(p: Progress, eventId: EventId, text: string, trigger: bool): (r: Result<Progress>)
    ensures r.Err? <==> !trigger && eventId !in p.flags
    ensures r.Err? ==> r.fault == KeyError
    ensures r.Ok? ==> r.value.flags.Keys == p.flags.Keys + {eventId}
    ensures r.Ok? ==> (r.value.flags[eventId] <==> trigger || p.flags[eventId])
    ensures r.Ok? ==> forall e :: e in p.flags && e != eventId ==> r.value.flags[e] == p.flags[e]
    ensures r.Ok? && r.value.flags[eventId] ==> r.value.detected == p.detected + [text]
    ensures r.Ok? && !r.value.flags[eventId] ==> r.value.detected == p.detected
  {
    var flags := if trigger then p.flags[eventId := true] else p.flags;
    if eventId !in flags then Err(KeyError)
    else Ok(Progress(flags, if flags[eventId] then p.detected + [text] else p.detected))
  }

  /** What one catalog row does: Err stops the loop, None leaves the
      flags and the list alone (an event without tags), and Some(t)
      records the outcome with trigger t. */
  type Verdict = Result<Option<bool>>

  /** The row raises its event's flag: it has tags, its preparation
      succeeds, and the quality index of its primary column is below 1. */
  ghost predicate Triggered(ctx: Context, row: EventRow, qci: map<TagName, real>) {
    && Prepare(ctx, row).Ok? && Prepare(ctx, row).value.Evaluated?
    && PrimaryIndex(ctx.primary, row.id, Prepare(ctx, row).value.cols, qci).Ok?
    && PrimaryIndex(ctx.primary, row.id, Prepare(ctx, row).value.cols, qci).value < 1.0
  }

  /** One catalog row, as written: a missing primary index stops the run. */
  function VerdictAsWritten(ctx: Context, row: EventRow, qci: map<TagName, real>): (r: Verdict)
    ensures r.Err? <==> (Prepare(ctx, row).Err? ||
      (Prepare(ctx, row).Ok? && Prepare(ctx, row).value.Evaluated? &&
       PrimaryIndex(ctx.primary, row.id, Prepare(ctx, row).value.cols, qci).Err?))
    ensures r.Err? ==> r.fault == KeyError
    ensures r == Ok(None) <==> Prepare(ctx, row) == Ok(Skipped)
    ensures r == Ok(Some(true)) <==> Triggered(ctx, row, qci)
  {
    match Prepare(ctx, row)
    case Err(f) => Err(f)
    case Ok(Skipped) => Ok(None)
    case Ok(Evaluated(cols)) =>
      match PrimaryIndex(ctx.primary, row.id, cols, qci)
      case Err(f) => Err(f)
      case Ok(v) => Ok(Some(v < 1.0))
  }

  /** One catalog row, corrected: an event without a usable primary index
      keeps its flag (the warning already logged says why). */
  function VerdictCorrected(ctx: Context, row: EventRow, qci: map<TagName, real>): (r: Verdict)
    ensures r.Err? <==> Prepare(ctx, row).Err?
    ensures r.Err? ==> r.fault == KeyError
    ensures r == Ok(None) <==> Prepare(ctx, row) == Ok(Skipped)
    ensures r == Ok(Some(true)) <==> Triggered(ctx, row, qci)
  {
    match Prepare(ctx, row)
    case Err(f) => Err(f)
    case Ok(Skipped) => Ok(None)
    case Ok(Evaluated(cols)) =>
      match PrimaryIndex(ctx.primary, row.id, cols, qci)
      case Err(_) => Ok(Some(false))
      case Ok(v) => Ok(Some(v < 1.0))
  }

  /** The correction only differs where the code as written fails. */
  lemma VerdictsAgree(ctx: Context, row: EventRow, qci: map<TagName, real>)
    ensures VerdictAsWritten(ctx, row, qci).Ok? ==> VerdictCorrected(ctx, row, qci) == VerdictAsWritten(ctx, row, qci)
  {
  }

  function Record(p: Progress, row: EventRow, v: Verdict): Result<Progress> {
    match v
    case Err(f) => Err(f)
    case Ok(None) => Ok(p)
    case Ok(Some(t)) => RecordOutcome(p, row.id, row.text, t)
  }

  /** The loop over the catalog rows, given each row's verdict. */
  function Apply(p: Progress, rows: seq<EventRow>, vs: seq<Verdict>): Result<Progress>
    requires |vs| == |rows|
    decreases |rows|
  {
    if rows == [] then Ok(p)
    else
      var n := |rows| - 1;
      match Apply(p, rows[..n], vs[..n])
      case Err(f) => Err(f)
      case Ok(q) => Record(q, rows[n], vs[n])
  }

  function VerdictsAsWritten(ctx: Context, rows: seq<EventRow>, qcis: seq<map<TagName, real>>): (r: seq<Verdict>)
    requires |qcis| == |rows|
    ensures |r| == |rows| && forall i :: 0 <= i < |rows| ==> r[i] == VerdictAsWritten(ctx, rows[i], qcis[i])
  {
    seq(|rows|, i requires 0 <= i < |rows| => VerdictAsWritten(ctx, rows[i], qcis[i]))
  }

  function VerdictsCorrected(ctx: Context, rows: seq<EventRow>, qcis: seq<map<TagName, real>>): (r: seq<Verdict>)
    requires |qcis| == |rows|
    ensures |r| == |rows| && forall i :: 0 <= i < |rows| ==> r[i] == VerdictCorrected(ctx, rows[i], qcis[i])
  {
    seq(|rows|, i requires 0 <= i < |rows| => VerdictCorrected(ctx, rows[i], qcis[i]))
  }

  function RunAsWritten(ctx: Context, p: Progress, rows: seq<EventRow>, qcis: seq<map<TagName, real>>): Result<Progress>
    requires |qcis| == |rows|
  {
    Apply(p, rows, VerdictsAsWritten(ctx, rows, qcis))
  }

  function RunCorrected(ctx: Context, p: Progress, rows: seq<EventRow>, qcis: seq<map<TagName, real>>): Result<Progress>
    requires |qcis| == |rows|
  {
    Apply(p, rows, VerdictsCorrected(ctx, rows, qcis))
  }

  // ---------------------------------------------------------------------
  // The imperative loop
  // ---------------------------------------------------------------------

  /** The event loop of main, with the corrected primary-index lookup. */
  method DetectEvents(ctx: Context, catalog: seq<EventRow>, qcis: seq<map<TagName, real>>, flags: map<EventId, bool>)
    returns (r: Result<Progress>)
    requires |qcis| == |catalog|
    ensures r == RunCorrected(ctx, Progress(flags, []), catalog, qcis)
  {
    ghost var vs := VerdictsCorrected(ctx, catalog, qcis);
    var prog := Progress(flags, []);
    for i := 0 to |catalog|
      invariant Apply(Progress(flags, []), catalog[..i], vs[..i]) == Ok(prog)
    {
      ApplyStep(Progress(flags, []), catalog, vs, i);
      var row := catalog[i];
      var prep := Prepare(ctx, row);
      if prep.Err? {
        ApplyErrSticks(Progress(flags, []), catalog, vs, i + 1);
        return Err(prep.fault);
      }
      if prep.value.Evaluated? {
        var index := PrimaryIndex(ctx.primary, row.id, prep.value.cols, qcis[i]);
        var trigger := index.Ok? && index.value < 1.0;
        assert vs[i] == Ok(Some(trigger));
        if trigger {
          prog := prog.(flags := prog.flags[row.id := true]);
        }
        if row.id !in prog.flags {
          ApplyErrSticks(Progress(flags, []), catalog, vs, i + 1);
          return Err(KeyError);
        }
        if prog.flags[row.id] {
          prog := prog.(detected := prog.detected + [row.text]);
        }
      } else {
        assert vs[i] == Ok(None);
      }
    }
    assert catalog[..|catalog|] == catalog && vs[..|vs|] == vs;
    return Ok(prog);
  }

  /** The run over one more row is the run over the prefix followed by
      that row's step. */
  lemma ApplyStep(p: Progress, rows: seq<EventRow>, vs: seq<Verdict>, i: nat)
    requires |vs| == |rows| && i < |rows|
    ensures Apply(p, rows[..i + 1], vs[..i + 1])
      == match Apply(p, rows[..i], vs[..i]) case Err(f) => Err(f) case Ok(q) => Record(q, rows[i], vs[i])
  {
    assert rows[..i + 1][..i] == rows[..i] && vs[..i + 1][..i] == vs[..i];
  }

  /** A run that fails on a prefix fails as a whole, with the same fault. */
  lemma {:induction false} ApplyErrSticks(p: Progress, rows: seq<EventRow>, vs: seq<Verdict>, k: nat)
    requires |vs| == |rows| && k <= |rows|
    requires Apply(p, rows[..k], vs[..k]).Err?
    ensures Apply(p, rows, vs) == Apply(p, rows[..k], vs[..k])
    decreases |rows| - k
  {
    if k < |rows| {
      assert rows[..k + 1][..k] == rows[..k] && vs[..k + 1][..k] == vs[..k];
      ApplyErrSticks(p, rows, vs, k + 1);
    } else {
      assert rows[..k] == rows && vs[..k] == vs;
    }
  }

  // ---------------------------------------------------------------------
  // Properties of the loop, for any verdicts
  // ---------------------------------------------------------------------

  /** A non-empty run is its prefix's run followed by one step. */
  lemma ApplyUnfold(p: Progress, rows: seq<EventRow>, vs: seq<Verdict>)
    requires |vs| == |rows| && rows != []
    requires Apply(p, rows, vs).Ok?
    ensures Apply(p, rows[..|rows| - 1], vs[..|rows| - 1]).Ok?
    ensures Apply(p, rows, vs) == Record(Apply(p, rows[..|rows| - 1], vs[..|rows| - 1]).value, rows[|rows| - 1], vs[|rows| - 1])
  {
  }

  /** One step keeps every flag, and every raised flag stays raised. */
  lemma RecordKeepsFlags(p: Progress, row: EventRow, v: Verdict)
    requires Record(p, row, v).Ok?
    ensures p.flags.Keys <= Record(p, row, v).value.flags.Keys
    ensures forall e :: e in p.flags && p.flags[e] ==> Record(p, row, v).value.flags[e]
  {
  }

  /** One step raises no flag but its own event's, and that one only
      when the verdict is a trigger. */
  lemma RecordRaisesOnlyTriggered(p: Progress, row: EventRow, v: Verdict, e: EventId)
    requires Record(p, row, v).Ok?
    requires e in Record(p, row, v).value.flags && Record(p, row, v).value.flags[e]
    requires !(e in p.flags && p.flags[e])
    ensures e == row.id && v == Ok(Some(true))
  {
  }

  /** A trigger raises its event's flag. */
  lemma RecordTriggerRaises(p: Progress, row: EventRow)
    requires Record(p, row, Ok(Some(true))).Ok?
    ensures row.id in Record(p, row, Ok(Some(true))).value.flags
    ensures Record(p, row, Ok(Some(true))).value.flags[row.id]
  {
  }

  /** One step appends at most the row's own text, and only with its
      flag set. */
  lemma RecordDetected(p: Progress, row: EventRow, v: Verdict)
    requires Record(p, row, v).Ok?
    ensures var q := Record(p, row, v).value;
      q.detected == p.detected || (q.detected == p.detected + [row.text] && row.id in q.flags && q.flags[row.id])
  {
  }

  lemma {:induction false} ApplyKeepsRaisedFlags(p: Progress, rows: seq<EventRow>, vs: seq<Verdict>)
    requires |vs| == |rows| && Apply(p, rows, vs).Ok?
    ensures p.flags.Keys <= Apply(p, rows, vs).value.flags.Keys
    ensures forall e :: e in p.flags && p.flags[e] ==> Apply(p, rows, vs).value.flags[e]
    decreases |rows|
  {
    if rows != [] {
      var n := |rows| - 1;
      ApplyUnfold(p, rows, vs);
      ApplyKeepsRaisedFlags(p, rows[..n], vs[..n]);
      RecordKeepsFlags(Apply(p, rows[..n], vs[..n]).value, rows[n], vs[n]);
    }
  }

  lemma {:induction false} ApplyRaisedByTrigger(p: Progress, rows: seq<EventRow>, vs: seq<Verdict>, e: EventId) returns (i: nat)
    requires |vs| == |rows| && Apply(p, rows, vs).Ok?
    requires e in Apply(p, rows, vs).value.flags && Apply(p, rows, vs).value.flags[e]
    requires !(e in p.flags && p.flags[e])
    ensures i < |rows| && rows[i].id == e && vs[i] == Ok(Some(true))
    decreases |rows|
  {
    var n := |rows| - 1;
    ApplyUnfold(p, rows, vs);
    var mid := Apply(p, rows[..n], vs[..n]).value;
    if e in mid.flags && mid.flags[e] {
      i := ApplyRaisedByTrigger(p, rows[..n], vs[..n], e);
      assert rows[..n][i] == rows[i] && vs[..n][i] == vs[i];
    } else {
      RecordRaisesOnlyTriggered(mid, rows[n], vs[n], e);
      i := n;
    }
  }

  lemma {:induction false} ApplyTriggerRaises(p: Progress, rows: seq<EventRow>, vs: seq<Verdict>, i: nat)
    requires |vs| == |rows| && i < |rows| && Apply(p, rows, vs).Ok?
    requires vs[i] == Ok(Some(true))
    ensures rows[i].id in Apply(p, rows, vs).value.flags && Apply(p, rows, vs).value.flags[rows[i].id]
    decreases |rows|
  {
    var n := |rows| - 1;
    ApplyUnfold(p, rows, vs);
    var mid := Apply(p, rows[..n], vs[..n]).value;
    if i < n {
      assert rows[..n][i] == rows[i] && vs[..n][i] == vs[i];
      ApplyTriggerRaises(p, rows[..n], vs[..n], i);
      RecordKeepsFlags(mid, rows[n], vs[n]);
    } else {
      RecordTriggerRaises(mid, rows[n]);
    }
  }

  lemma {:induction false} ApplyDetectedFlagged(p: Progress, rows: seq<EventRow>, vs: seq<Verdict>, k: nat) returns (i: nat)
    requires |vs| == |rows| && Apply(p, rows, vs).Ok?
    requires |p.detected| <= k < |Apply(p, rows, vs).value.detected|
    ensures i < |rows| && rows[i].text == Apply(p, rows, vs).value.detected[k]
    ensures rows[i].id in Apply(p, rows, vs).value.flags && Apply(p, rows, vs).value.flags[rows[i].id]
    decreases |rows|
  {
    var n := |rows| - 1;
    ApplyUnfold(p, rows, vs);
    var mid := Apply(p, rows[..n], vs[..n]).value;
    var q := Apply(p, rows, vs).value;
    RecordDetected(mid, rows[n], vs[n]);
    RecordKeepsFlags(mid, rows[n], vs[n]);
    if k < |mid.detected| {
      assert q.detected[k] == mid.detected[k];
      i := ApplyDetectedFlagged(p, rows[..n], vs[..n], k);
      assert rows[..n][i] == rows[i];
    } else {
      i := n;
    }
  }

  lemma {:induction false} ApplyDetectedPrefix(p: Progress, rows: seq<EventRow>, vs: seq<Verdict>)
    requires |vs| == |rows| && Apply(p, rows, vs).Ok?
    ensures |p.detected| <= |Apply(p, rows, vs).value.detected|
    ensures Apply(p, rows, vs).value.detected[..|p.detected|] == p.detected
    decreases |rows|
  {
    if rows != [] {
      var n := |rows| - 1;
      ApplyUnfold(p, rows, vs);
      ApplyDetectedPrefix(p, rows[..n], vs[..n]);
      var mid := Apply(p, rows[..n], vs[..n]).value;
      RecordDetected(mid, rows[n], vs[n]);
      assert Apply(p, rows, vs).value.detected[..|mid.detected|] == mid.detected;
    }
  }

  lemma {:induction false} ApplyAgrees(p: Progress, rows: seq<EventRow>, a: seq<Verdict>, b: seq<Verdict>)
    requires |a| == |rows| && |b| == |rows|
    requires forall i :: 0 <= i < |rows| && a[i].Ok? ==> b[i] == a[i]
    requires Apply(p, rows, a).Ok?
    ensures Apply(p, rows, b) == Apply(p, rows, a)
    decreases |rows|
  {
    if rows != [] {
      var n := |rows| - 1;
      ApplyAgrees(p, rows[..n], a[..n], b[..n]);
    }
  }

  /** Event e's flag is set once `rows` have run: it was set at the start,
      or one of these rows of e triggered. */
  ghost predicate RaisedBy(flags: map<EventId, bool>, rows: seq<EventRow>, vs: seq<Verdict>, e: EventId)
    requires |vs| == |rows|
  {
    (e in flags && flags[e]) || exists j :: 0 <= j < |rows| && rows[j].id == e && vs[j] == Ok(Some(true))
  }

  /** The texts the loop appends, in catalog order: those of the evaluated
      rows whose event's flag is set right after the row. */
  ghost function ExpectedDetected(flags: map<EventId, bool>, rows: seq<EventRow>, vs: seq<Verdict>): seq<string>
    requires |vs| == |rows|
    decreases |rows|
  {
    if rows == [] then []
    else
      var n := |rows| - 1;
      ExpectedDetected(flags, rows[..n], vs[..n])
        + (if vs[n].Ok? && vs[n].value.Some? && RaisedBy(flags, rows, vs, rows[n].id) then [rows[n].text] else [])
  }

  lemma RaisedBySnoc(flags: map<EventId, bool>, rows: seq<EventRow>, vs: seq<Verdict>, e: EventId)
    requires |vs| == |rows| && rows != []
    ensures var n := |rows| - 1;
      RaisedBy(flags, rows, vs, e) <==>
        RaisedBy(flags, rows[..n], vs[..n], e) || (rows[n].id == e && vs[n] == Ok(Some(true)))
  {
    var n := |rows| - 1;
    if exists j :: 0 <= j < |rows| && rows[j].id == e && vs[j] == Ok(Some(true)) {
      var j :| 0 <= j < |rows| && rows[j].id == e && vs[j] == Ok(Some(true));
      if j < n {
        assert rows[..n][j] == rows[j] && vs[..n][j] == vs[j];
      }
    }
    if exists j :: 0 <= j < n && rows[..n][j].id == e && vs[..n][j] == Ok(Some(true)) {
      var j :| 0 <= j < n && rows[..n][j].id == e && vs[..n][j] == Ok(Some(true));
      assert rows[j] == rows[..n][j] && vs[j] == vs[..n][j];
    }
  }

  /** After a completed run, a flag is set exactly when RaisedBy says so. */
  lemma {:induction false} ApplyFlagsRaised(p: Progress, rows: seq<EventRow>, vs: seq<Verdict>, e: EventId)
    requires |vs| == |rows| && Apply(p, rows, vs).Ok?
    ensures (e in Apply(p, rows, vs).value.flags && Apply(p, rows, vs).value.flags[e]) <==> RaisedBy(p.flags, rows, vs, e)
    decreases |rows|
  {
    if rows != [] {
      var n := |rows| - 1;
      ApplyUnfold(p, rows, vs);
      ApplyFlagsRaised(p, rows[..n], vs[..n], e);
      RaisedBySnoc(p.flags, rows, vs, e);
    }
  }

  /** The detected list of a completed run is its start followed by exactly
      ExpectedDetected. */
  lemma {:induction false} ApplyDetectedExactly(p: Progress, rows: seq<EventRow>, vs: seq<Verdict>)
    requires |vs| == |rows| && Apply(p, rows, vs).Ok?
    ensures Apply(p, rows, vs).value.detected == p.detected + ExpectedDetected(p.flags, rows, vs)
    decreases |rows|
  {
    if rows != [] {
      var n := |rows| - 1;
      ApplyUnfold(p, rows, vs);
      ApplyDetectedExactly(p, rows[..n], vs[..n]);
      ApplyFlagsRaised(p, rows, vs, rows[n].id);
      var mid := Apply(p, rows[..n], vs[..n]).value;
      var tail := if vs[n].Ok? && vs[n].value.Some? && RaisedBy(p.flags, rows, vs, rows[n].id) then [rows[n].text] else [];
      assert Apply(p, rows, vs).value.detected == mid.detected + tail;
      assert p.detected + ExpectedDetected(p.flags, rows[..n], vs[..n]) + tail
        == p.detected + (ExpectedDetected(p.flags, rows[..n], vs[..n]) + tail);
    }
  }

  /** A triggering row's text is among the texts the loop appends. */
  lemma {:induction false} ExpectedDetectedHasTrigger(flags: map<EventId, bool>, rows: seq<EventRow>, vs: seq<Verdict>, i: nat)
    requires |vs| == |rows| && i < |rows| && vs[i] == Ok(Some(true))
    ensures rows[i].text in ExpectedDetected(flags, rows, vs)
    decreases |rows|
  {
    var n := |rows| - 1;
    if i < n {
      assert rows[..n][i] == rows[i] && vs[..n][i] == vs[i];
      ExpectedDetectedHasTrigger(flags, rows[..n], vs[..n], i);
    } else {
      assert RaisedBy(flags, rows, vs, rows[n].id);
    }
  }

  // ---------------------------------------------------------------------
  // Properties of the corrected loop
  // ---------------------------------------------------------------------

  /** Over the whole loop flags only move from False to True, and no
      flag disappears. */
  lemma RunKeepsRaisedFlags(ctx: Context, p: Progress, rows: seq<EventRow>, qcis: seq<map<TagName, real>>)
    requires |qcis| == |rows| && RunCorrected(ctx, p, rows, qcis).Ok?
    ensures p.flags.Keys <= RunCorrected(ctx, p, rows, qcis).value.flags.Keys
    ensures forall e :: e in p.flags && p.flags[e] ==> RunCorrected(ctx, p, rows, qcis).value.flags[e]
  {
    ApplyKeepsRaisedFlags(p, rows, VerdictsCorrected(ctx, rows, qcis));
  }

  /** A flag that ends True was True before or was raised by a triggered
      row of its event. */
  lemma RunRaisedByTrigger(ctx: Context, p: Progress, rows: seq<EventRow>, qcis: seq<map<TagName, real>>, e: EventId)
    returns (i: nat)
    requires |qcis| == |rows| && RunCorrected(ctx, p, rows, qcis).Ok?
    requires e in RunCorrected(ctx, p, rows, qcis).value.flags && RunCorrected(ctx, p, rows, qcis).value.flags[e]
    requires !(e in p.flags && p.flags[e])
    ensures i < |rows| && rows[i].id == e && Triggered(ctx, rows[i], qcis[i])
  {
    i := ApplyRaisedByTrigger(p, rows, VerdictsCorrected(ctx, rows, qcis), e);
  }

  /** Every triggered row's flag ends True. */
  lemma RunTriggerRaises(ctx: Context, p: Progress, rows: seq<EventRow>, qcis: seq<map<TagName, real>>, i: nat)
    requires |qcis| == |rows| && i < |rows| && RunCorrected(ctx, p, rows, qcis).Ok?
    requires Triggered(ctx, rows[i], qcis[i])
    ensures rows[i].id in RunCorrected(ctx, p, rows, qcis).value.flags
    ensures RunCorrected(ctx, p, rows, qcis).value.flags[rows[i].id]
  {
    ApplyTriggerRaises(p, rows, VerdictsCorrected(ctx, rows, qcis), i);
  }

  /** Every entry of q's detected list from position `from` on is the text
      of one of the rows whose flag is set in q. */
  predicate DetectedFromFlagged(rows: seq<EventRow>, q: Progress, from: nat) {
    forall k :: from <= k < |q.detected| ==> TextOfFlaggedRow(rows, q, q.detected[k])
  }

  /** Some row with this text has its flag set in q. */
  predicate TextOfFlaggedRow(rows: seq<EventRow>, q: Progress, text: string) {
    exists i :: 0 <= i < |rows| && rows[i].text == text && rows[i].id in q.flags && q.flags[rows[i].id]
  }

  /** The detected list only grows at its end, and every new entry is the
      text of a row whose flag ends True. */
  lemma RunDetectedFlagged(ctx: Context, p: Progress, rows: seq<EventRow>, qcis: seq<map<TagName, real>>)
    requires |qcis| == |rows| && RunCorrected(ctx, p, rows, qcis).Ok?
    ensures var q := RunCorrected(ctx, p, rows, qcis).value;
      |p.detected| <= |q.detected| && q.detected[..|p.detected|] == p.detected
    ensures DetectedFromFlagged(rows, RunCorrected(ctx, p, rows, qcis).value, |p.detected|)
  {
    var vs := VerdictsCorrected(ctx, rows, qcis);
    ApplyDetectedPrefix(p, rows, vs);
    var q := RunCorrected(ctx, p, rows, qcis).value;
    forall k | |p.detected| <= k < |q.detected| ensures TextOfFlaggedRow(rows, q, q.detected[k]) {
      var i := ApplyDetectedFlagged(p, rows, vs, k);
    }
  }

  /** The detected list is exactly the start followed by the texts of the
      evaluated rows whose flag is set right after the row, in catalog
      order: nothing flagged is dropped and nothing else is added. */
  lemma RunDetectedExactly(ctx: Context, p: Progress, rows: seq<EventRow>, qcis: seq<map<TagName, real>>)
    requires |qcis| == |rows| && RunCorrected(ctx, p, rows, qcis).Ok?
    ensures RunCorrected(ctx, p, rows, qcis).value.detected
      == p.detected + ExpectedDetected(p.flags, rows, VerdictsCorrected(ctx, rows, qcis))
  {
    ApplyDetectedExactly(p, rows, VerdictsCorrected(ctx, rows, qcis));
  }

  /** Every triggering row's text ends up in the detected list. */
  lemma RunDetectsTriggered(ctx: Context, p: Progress, rows: seq<EventRow>, qcis: seq<map<TagName, real>>, i: nat)
    requires |qcis| == |rows| && i < |rows| && RunCorrected(ctx, p, rows, qcis).Ok?
    requires Triggered(ctx, rows[i], qcis[i])
    ensures rows[i].text in RunCorrected(ctx, p, rows, qcis).value.detected
  {
    var vs := VerdictsCorrected(ctx, rows, qcis);
    ApplyDetectedExactly(p, rows, vs);
    ExpectedDetectedHasTrigger(p.flags, rows, vs, i);
  }

  /** Starting from flags that are all False (as the backfill leaves
      them), a flag ends True exactly when a row of its event triggers. */
  lemma FlagIffTriggered(ctx: Context, p: Progress, rows: seq<EventRow>, qcis: seq<map<TagName, real>>, e: EventId)
    requires |qcis| == |rows| && RunCorrected(ctx, p, rows, qcis).Ok?
    requires forall x :: x in p.flags ==> !p.flags[x]
    requires e in RunCorrected(ctx, p, rows, qcis).value.flags
    ensures RunCorrected(ctx, p, rows, qcis).value.flags[e]
      <==> exists i :: 0 <= i < |rows| && rows[i].id == e && Triggered(ctx, rows[i], qcis[i])
  {
    if RunCorrected(ctx, p, rows, qcis).value.flags[e] {
      var i := RunRaisedByTrigger(ctx, p, rows, qcis, e);
    }
    if exists i :: 0 <= i < |rows| && rows[i].id == e && Triggered(ctx, rows[i], qcis[i]) {
      var i :| 0 <= i < |rows| && rows[i].id == e && Triggered(ctx, rows[i], qcis[i]);
      RunTriggerRaises(ctx, p, rows, qcis, i);
    }
  }

  /** The correction changes nothing where the code as written completes. */
  lemma CorrectedAgreesWhereAsWrittenCompletes(ctx: Context, p: Progress, rows: seq<EventRow>, qcis: seq<map<TagName, real>>)
    requires |qcis| == |rows|
    requires RunAsWritten(ctx, p, rows, qcis).Ok?
    ensures RunCorrected(ctx, p, rows, qcis) == RunAsWritten(ctx, p, rows, qcis)
  {
    var a, b := VerdictsAsWritten(ctx, rows, qcis), VerdictsCorrected(ctx, rows, qcis);
    forall i | 0 <= i < |rows| && a[i].Ok? ensures b[i] == a[i] {
      VerdictsAgree(ctx, rows[i], qcis[i]);
    }
    ApplyAgrees(p, rows, a, b);
  }

  // ---------------------------------------------------------------------
  // The unguarded primary-index lookup
  // ---------------------------------------------------------------------

  const CounterStatus: StatusTags := StatusTags("Plant", "MF", "BAC1", "BAC2")

  /** A catalog whose event 9 lists two tags. */
  function CounterContext(): Context {
    Context(
      map[9 := [40, 41]],
      map[40 := "UV Intensity", 41 := "UV Dose"],
      {"UV Intensity", "UV Dose", "Plant", "MF", "BAC1", "BAC2"},
      CounterStatus,
      map[])
  }

  const CounterRow: EventRow := EventRow(9, "UVAOP Process", "UVAOP", "Process", StrCell("40,41"))

  const CounterQci: map<TagName, real> := map["UV Intensity" := 0.5, "UV Dose" := 1.0]

  /** Event 9's row passes preparation with its two tag names as columns. */
  lemma CounterRowPrepared()
    ensures Prepare(CounterContext(), CounterRow) == Ok(Evaluated(["UV Intensity", "UV Dose"]))
  {
    var ctx := CounterContext();
    var cols := ["UV Intensity", "UV Dose"];
    var names := TagNames(ctx.tagDict, [40, 41]);
    assert names.Ok? && |names.value| == 2;
    assert names.value[0] == cols[0] && names.value[1] == cols[1];
    assert names.value == cols;
    assert EventColumns(9, [40, 41], ctx.tagDict) == Ok(cols);
    assert CheckKeys([RangeAbove(Raw(40), 300.0, 5)], ctx.tagDict).Ok?;
  }

  /** Event 9's row has no primary index: as written it fails, corrected
      it does not trigger. */
  lemma CounterRowVerdicts()
    ensures VerdictAsWritten(CounterContext(), CounterRow, CounterQci) == Err(KeyError)
    ensures VerdictCorrected(CounterContext(), CounterRow, CounterQci) == Ok(Some(false))
  {
    CounterRowPrepared();
    assert PrimaryIndex(CounterContext().primary, 9, ["UV Intensity", "UV Dose"], CounterQci) == Err(KeyError);
  }

  /** Event 9 with two tags gets no primary entry, so the code as written
      stops with KeyError at the index lookup, while the corrected loop
      leaves its flag False and goes on. */
  lemma MultiTagEventStopsRun()
    ensures PrimaryEntryOf(9, [40, 41], CounterContext().tagDict, BindPrimaryNames(PrimaryArgsCorrected("Ozone Monitoring Event")).value) == Ok(None)
    ensures RunAsWritten(CounterContext(), Progress(map[9 := false], []), [CounterRow], [CounterQci]) == Err(KeyError)
    ensures RunCorrected(CounterContext(), Progress(map[9 := false], []), [CounterRow], [CounterQci])
      == Ok(Progress(map[9 := false], []))
  {
    var ctx, rows, qcis := CounterContext(), [CounterRow], [CounterQci];
    CounterRowVerdicts();
    assert VerdictsAsWritten(ctx, rows, qcis) == [Err(KeyError)];
    assert VerdictsCorrected(ctx, rows, qcis) == [Ok(Some(false))];
    assert rows[..0] == [] && rows[..1] == rows;
    ApplyStep(Progress(map[9 := false], []), rows, [Err(KeyError)], 0);
    ApplyStep(Progress(map[9 := false], []), rows, [Ok(Some(false))], 0);
  }
}
