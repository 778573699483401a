/** The signal preparation of main: error/difference tags are replaced by
    their absolute values, then four 0/1 indicator columns are derived
    row by row from threshold rules. A comparison with a null value is
    false; the rules that tolerate nulls say so explicitly. */
module DerivedSignals {
  import opened Wrappers
  import opened Catalog
  import opened Frames

  // ---------------------------------------------------------------------
  // Absolute values
  // ---------------------------------------------------------------------

  function AbsCell(c: Cell): (r: Cell)
    ensures r.None? <==> c.None?
    ensures r.Some? ==> r.value >= 0.0 && (r.value == c.value || r.value == -c.value)
  {
    match c
    case None => None
    case Some(x) => Some(if x < 0.0 then -x else x)
  }

  lemma AbsCellIdempotent(c: Cell)
    ensures AbsCell(AbsCell(c)) == AbsCell(c)
  {
  }

  /** The ids of the error/difference tags: ozone production error,
      ozone monitoring difference and the two OSP meter differences. */
  const ErrorTagIds: seq<TagId> := [86, 67, 91, 92]

  /** df_wide[tag].abs() as a column. */
  function AbsColumn(tb: Table, tag: TagName): (r: map<Timestamp, Cell>)
    requires tb.Valid() && tag in tb.columns
    ensures r.Keys == tb.rows.Keys
  {
    map t | t in tb.rows :: AbsCell(tb.rows[t][tag])
  }

  /** Every listed column holds the absolute values of `before`; the rest
      of the table is as it was. */
  ghost predicate AbsAppliedTo(before: Table, after: Table, tags: set<TagName>) {
    && before.Valid()
    && after.rows.Keys == before.rows.Keys
    && after.columns == before.columns
    && after.Valid()
    && forall t, n :: t in after.rows && n in after.columns ==>
         after.rows[t][n] == (if n in tags then AbsCell(before.rows[t][n]) else before.rows[t][n])
  }

  // ---------------------------------------------------------------------
  // The indicator rules
  // ---------------------------------------------------------------------

  /** pandas' `>` and `<` against a constant: false on NaN. */
  predicate Above(c: Cell, k: real) {
    c.Some? && c.value > k
  }

  predicate Below(c: Cell, k: real) {
    c.Some? && c.value < k
  }

  /** `(x > k) | x.isna()`. */
  predicate AboveOrNull(c: Cell, k: real) {
    Above(c, k) || c.None?
  }

  /** `(x < k) | x.isna()`. */
  predicate BelowOrNull(c: Cell, k: real) {
    Below(c, k) || c.None?
  }

  /** The sensor tags the rules read. */
  datatype SignalTags = SignalTags(
    permeateToc: TagName,      // id 15, RO combined permeate TOC
    condA: TagName,            // id 29, RO train A permeate conductivity
    condB: TagName,            // id 31, RO train B permeate conductivity
    feedToc: TagName,          // id 1, RO feed TOC
    lrv: TagName,              // id 17, RO LRV via TOC
    osp4Diff: TagName,         // id 91
    osp7Diff: TagName,         // id 92
    productionError: TagName,  // id 86
    demand: TagName)           // id 59

  const SignalTagIds: set<TagId> := {15, 29, 31, 1, 17, 91, 92, 86, 59}

  /** tag_dict lookups of the nine sensor tags. */
  function SignalTagsOf(tagDict: map<TagId, TagName>): (r: Result<SignalTags>)
    ensures r.Ok? <==> SignalTagIds <= tagDict.Keys
    ensures r.Err? ==> r.fault == KeyError
    ensures r.Ok? ==> r.value == SignalTags(tagDict[15], tagDict[29], tagDict[31], tagDict[1], tagDict[17],
                                            tagDict[91], tagDict[92], tagDict[86], tagDict[59])
  {
    if SignalTagIds <= tagDict.Keys then
      Ok(SignalTags(tagDict[15], tagDict[29], tagDict[31], tagDict[1], tagDict[17],
                    tagDict[91], tagDict[92], tagDict[86], tagDict[59]))
    else Err(KeyError)
  }

  datatype Rule = RoProcess | RoMonitoring | RoWaterQuality | OzoneWaterQuality

  const RoProcessName: TagName := "RO Process Event"
  const RoMonitoringName: TagName := "RO Monitoring Event"
  const RoWaterQualityName: TagName := "RO Water Quality Event"
  const OzoneWaterQualityName: TagName := "Ozone Water Quality Event"

  /** The column each rule creates. */
  function RuleColumn(rule: Rule): TagName {
    match rule
    case RoProcess => RoProcessName
    case RoMonitoring => RoMonitoringName
    case RoWaterQuality => RoWaterQualityName
    case OzoneWaterQuality => OzoneWaterQualityName
  }

  /** The columns each rule reads. */
  function RuleInputs(rule: Rule, s: SignalTags): set<TagName> {
    match rule
    case RoProcess => {s.permeateToc, s.condA, s.condB}
    case RoMonitoring => {s.feedToc, s.lrv}
    case RoWaterQuality => {s.permeateToc, s.condA, s.condB}
    case OzoneWaterQuality => {s.osp4Diff, s.osp7Diff, s.productionError, s.demand}
  }

  /** RO process: TOC > 50 ppb, both conductivities > 125; null satisfies. */
  predicate RoProcessHolds(toc: Cell, condA: Cell, condB: Cell) {
    AboveOrNull(toc, 50.0) && AboveOrNull(condA, 125.0) && AboveOrNull(condB, 125.0)
  }

  /** RO monitoring: feed TOC < 3780 ppb and LRV < 2.1; null satisfies. */
  predicate RoMonitoringHolds(feedToc: Cell, lrv: Cell) {
    BelowOrNull(feedToc, 3780.0) && BelowOrNull(lrv, 2.1)
  }

  /** RO water quality: TOC > 50 ppb, both conductivities < 125; null satisfies. */
  predicate RoWaterQualityHolds(toc: Cell, condA: Cell, condB: Cell) {
    AboveOrNull(toc, 50.0) && BelowOrNull(condA, 125.0) && BelowOrNull(condB, 125.0)
  }

  /** Ozone water quality: the three differences < 0.1 (null violates),
      demand > 6.0 mg/L (null satisfies). */
  predicate OzoneWaterQualityHolds(osp4: Cell, osp7: Cell, prodErr: Cell, demand: Cell) {
    Below(osp4, 0.1) && Below(osp7, 0.1) && Below(prodErr, 0.1) && AboveOrNull(demand, 6.0)
  }

  function RuleHolds(rule: Rule, row: Row, s: SignalTags): bool
    requires RuleInputs(rule, s) <= row.Keys
  {
    match rule
    case RoProcess => RoProcessHolds(row[s.permeateToc], row[s.condA], row[s.condB])
    case RoMonitoring => RoMonitoringHolds(row[s.feedToc], row[s.lrv])
    case RoWaterQuality => RoWaterQualityHolds(row[s.permeateToc], row[s.condA], row[s.condB])
    case OzoneWaterQuality => OzoneWaterQualityHolds(row[s.osp4Diff], row[s.osp7Diff], row[s.productionError], row[s.demand])
  }

  /** np.where(cond, 1, 0). */
  function Indicator(b: bool): (r: Cell)
    ensures r.Some? && (r.value == 1.0 || r.value == 0.0)
    ensures r.value == 1.0 <==> b
  {
    Some(if b then 1.0 else 0.0)
  }

  /** The column a rule produces over the whole table. */
  function RuleValues(tb: Table, rule: Rule, s: SignalTags): (r: map<Timestamp, Cell>)
    requires tb.Valid() && RuleInputs(rule, s) <= tb.columns
    ensures r.Keys == tb.rows.Keys
    ensures forall t :: t in r ==> r[t].Some? && (r[t].value == 0.0 || r[t].value == 1.0)
  {
    map t | t in tb.rows :: Indicator(RuleHolds(rule, tb.rows[t], s))
  }

  // ---------------------------------------------------------------------
  // Properties of the rules
  // ---------------------------------------------------------------------

  /** A row with every input null sets the three RO indicators. */
  lemma AllNullRowSetsRoIndicators()
    ensures RoProcessHolds(None, None, None)
    ensures RoMonitoringHolds(None, None)
    ensures RoWaterQualityHolds(None, None, None)
    ensures !OzoneWaterQualityHolds(None, None, None, None)
  {
  }

  /** RO process and RO water quality hold together only when both
      conductivities are null. */
  lemma RoProcessAndWaterQualityExclusive(toc: Cell, condA: Cell, condB: Cell)
    ensures RoProcessHolds(toc, condA, condB) && RoWaterQualityHolds(toc, condA, condB)
      <==> AboveOrNull(toc, 50.0) && condA.None? && condB.None?
  {
  }

  /** A conductivity of exactly 125 clears both indicators. */
  lemma ConductivityAt125ClearsBoth(toc: Cell, condA: Cell, condB: Cell)
    requires condA == Some(125.0) || condB == Some(125.0)
    ensures !RoProcessHolds(toc, condA, condB) && !RoWaterQualityHolds(toc, condA, condB)
  {
  }

  /** After the absolute-value step, the ozone rule holds exactly when the
      three raw differences are present and within ±0.1 (exclusive) and
      the demand is above 6.0 or missing. */
  lemma OzoneRuleOnRawValues(raw91: Cell, raw92: Cell, raw86: Cell, demand: Cell)
    ensures OzoneWaterQualityHolds(AbsCell(raw91), AbsCell(raw92), AbsCell(raw86), demand)
      <==> && raw91.Some? && -0.1 < raw91.value < 0.1
           && raw92.Some? && -0.1 < raw92.value < 0.1
           && raw86.Some? && -0.1 < raw86.value < 0.1
           && (demand.None? || demand.value > 6.0)
  {
  }

  // ---------------------------------------------------------------------
  // The frame operations
  // ---------------------------------------------------------------------

  /** Every error/difference id is known and its column exists. */
  predicate ErrorTagsPresent(tagDict: map<TagId, TagName>, columns: set<TagName>) {
    forall i :: 0 <= i < |ErrorTagIds| ==> ErrorTagIds[i] in tagDict && tagDict[ErrorTagIds[i]] in columns
  }

  lemma ErrorTagMissing(tagDict: map<TagId, TagName>, columns: set<TagName>, k: nat)
    requires k < |ErrorTagIds| && !(ErrorTagIds[k] in tagDict && tagDict[ErrorTagIds[k]] in columns)
    ensures !ErrorTagsPresent(tagDict, columns)
  {
  }

  /** `df_wide[tag] = df_wide[tag].abs()`: KeyError on a missing column. */
  method AbsColumnInPlace(frame: WideFrame, tag: TagName) returns (r: Result<()>)
    requires frame.Valid()
    modifies frame
    ensures frame.Valid()
    ensures r.Err? <==> tag !in old(frame.columns)
    ensures r.Err? ==> r.fault == KeyError && frame.View() == old(frame.View())
    ensures r.Ok? ==> frame.View() == WithColumn(old(frame.View()), tag, AbsColumn(old(frame.View()), tag))
  {
    if tag !in frame.columns {
      return Err(KeyError);
    }
    frame.SetColumn(tag, AbsColumn(frame.View(), tag));
    return Ok(());
  }

  /** The absolute-value step of main: the four names are looked up, then
      each column is replaced by its absolute values. Two ids sharing a
      name make that column's update run twice, which changes nothing. */
  method ApplyAbsToErrorTags(frame: WideFrame, tagDict: map<TagId, TagName>) returns (r: Result<()>)
    requires frame.Valid()
    modifies frame
    ensures frame.Valid()
    ensures r.Ok? <==> ErrorTagsPresent(tagDict, old(frame.columns))
    ensures r.Err? ==> r.fault == KeyError
    ensures r.Ok? ==> AbsAppliedTo(old(frame.View()), frame.View(), set i | 0 <= i < |ErrorTagIds| :: tagDict[ErrorTagIds[i]])
  {
    var names := TagNames(tagDict, ErrorTagIds);
    if names.Err? {
      return Err(names.fault);
    }
    var tags := names.value;
    ghost var v0 := frame.View();
    for k := 0 to |tags|
      invariant frame.Valid()
      invariant forall i :: 0 <= i < k ==> tags[i] in v0.columns
      invariant AbsAppliedTo(v0, frame.View(), set i | 0 <= i < k :: tags[i])
    {
      ghost var done := set i | 0 <= i < k :: tags[i];
      ghost var before := frame.View();
      var step := AbsColumnInPlace(frame, tags[k]);
      if step.Err? {
        assert tags[k] == tagDict[ErrorTagIds[k]] && tags[k] !in v0.columns;
        ErrorTagMissing(tagDict, v0.columns, k);
        return Err(step.fault);
      }
      AbsStep(v0, before, frame.View(), done, tags[k]);
      assert (set i | 0 <= i < k + 1 :: tags[i]) == done + {tags[k]};
    }
    assert (set i | 0 <= i < |ErrorTagIds| :: tagDict[ErrorTagIds[i]]) == set i | 0 <= i < |tags| :: tags[i];
    return Ok(());
  }

  /** Taking the absolute values of one more column extends the set of
      columns holding absolute values; doing it twice changes nothing. */
  lemma AbsStep(v0: Table, before: Table, after: Table, done: set<TagName>, tag: TagName)
    requires AbsAppliedTo(v0, before, done) && tag in before.columns
    requires after == WithColumn(before, tag, AbsColumn(before, tag))
    ensures AbsAppliedTo(v0, after, done + {tag})
  {
    forall t, n | t in after.rows && n in after.columns
      ensures after.rows[t][n] == (if n in done + {tag} then AbsCell(v0.rows[t][n]) else v0.rows[t][n])
    {
      if n == tag {
        AbsCellIdempotent(v0.rows[t][n]);
      }
    }
  }

  /** One indicator column: KeyError when an input column is missing. */
  method AddRuleColumn(frame: WideFrame, rule: Rule, s: SignalTags) returns (r: Result<()>)
    requires frame.Valid()
    modifies frame
    ensures frame.Valid()
    ensures r.Err? <==> !(RuleInputs(rule, s) <= old(frame.columns))
    ensures r.Err? ==> r.fault == KeyError && frame.View() == old(frame.View())
    ensures r.Ok? ==> frame.View() == WithColumn(old(frame.View()), RuleColumn(rule), RuleValues(old(frame.View()), rule, s))
  {
    if !(RuleInputs(rule, s) <= frame.columns) {
      return Err(KeyError);
    }
    frame.SetColumn(RuleColumn(rule), RuleValues(frame.View(), rule, s));
    return Ok(());
  }

  /** The derived columns, in the order main creates them. */
  const RuleOrder: seq<Rule> := [RoProcess, RoMonitoring, RoWaterQuality, OzoneWaterQuality]

  /** The four indicator columns added one after the other. */
  method AddDerivedColumns(frame: WideFrame, s: SignalTags) returns (r: Result<()>)
    requires frame.Valid()
    modifies frame
    ensures frame.Valid()
    ensures r.Err? <==> DerivedTable(old(frame.View()), s, RuleOrder).Err?
    ensures r.Err? ==> r.fault == KeyError
    ensures r.Ok? ==> DerivedTable(old(frame.View()), s, RuleOrder) == Ok(frame.View())
  {
    ghost var v0 := frame.View();
    for k := 0 to |RuleOrder|
      invariant frame.Valid()
      invariant DerivedTable(v0, s, RuleOrder[..k]) == Ok(frame.View())
    {
      assert RuleOrder[..k + 1][..k] == RuleOrder[..k];
      var step := AddRuleColumn(frame, RuleOrder[k], s);
      if step.Err? {
        assert DerivedTable(v0, s, RuleOrder[..k + 1]).Err?;
        DerivedTableErrSticks(v0, s, RuleOrder, k + 1);
        return Err(step.fault);
      }
    }
    assert RuleOrder[..|RuleOrder|] == RuleOrder;
    return Ok(());
  }

  function RuleColumns(rules: seq<Rule>): (r: set<TagName>)
    ensures forall i :: 0 <= i < |rules| ==> RuleColumn(rules[i]) in r
  {
    if rules == [] then {} else RuleColumns(rules[..|rules| - 1]) + {RuleColumn(rules[|rules| - 1])}
  }

  /** Once a prefix of the rules fails, every longer prefix fails. */
  lemma {:induction false} DerivedTableErrSticks(tb: Table, s: SignalTags, rules: seq<Rule>, k: nat)
    requires tb.Valid() && k <= |rules|
    requires DerivedTable(tb, s, rules[..k]).Err?
    ensures DerivedTable(tb, s, rules).Err?
    decreases |rules| - k
  {
    if k < |rules| {
      assert rules[..k + 1][..k] == rules[..k];
      DerivedTableErrSticks(tb, s, rules, k + 1);
    } else {
      assert rules[..k] == rules;
    }
  }

  /** The table after the rules in `rules` are applied in order; KeyError
      as soon as one rule misses an input column. */
  function DerivedTable(tb: Table, s: SignalTags, rules: seq<Rule>): (r: Result<Table>)
    requires tb.Valid()
    ensures r.Ok? ==> r.value.Valid() && r.value.rows.Keys == tb.rows.Keys
    ensures r.Ok? ==> r.value.columns == tb.columns + RuleColumns(rules)
    ensures r.Err? ==> r.fault == KeyError
    decreases |rules|
  {
    if rules == [] then Ok(tb)
    else
      var last := rules[|rules| - 1];
      match DerivedTable(tb, s, rules[..|rules| - 1])
      case Err(f) => Err(f)
      case Ok(mid) =>
        if !(RuleInputs(last, s) <= mid.columns) then Err(KeyError)
        else Ok(WithColumn(mid, RuleColumn(last), RuleValues(mid, last, s)))
  }

  /** The sensor columns the four rules read. */
  function SensorColumns(s: SignalTags): set<TagName> {
    {s.permeateToc, s.condA, s.condB, s.feedToc, s.lrv, s.osp4Diff, s.osp7Diff, s.productionError, s.demand}
  }

  const IndicatorColumns: set<TagName> := {RoProcessName, RoMonitoringName, RoWaterQualityName, OzoneWaterQualityName}

  /** The indicator names are pairwise distinct. */
  lemma IndicatorNamesDistinct()
    ensures |RoProcessName| == 16 && |RoMonitoringName| == 19
    ensures |RoWaterQualityName| == 22 && |OzoneWaterQualityName| == 25
  {
  }

  /** One rule applied to a row: the row gains the rule's indicator. */
  function RowStep(row: Row, rule: Rule, s: SignalTags): (r: Row)
    requires RuleInputs(rule, s) <= row.Keys
    ensures r.Keys == row.Keys + {RuleColumn(rule)}
  {
    row[RuleColumn(rule) := Indicator(RuleHolds(rule, row, s))]
  }

  /** A row after the four rules, in the order main applies them. */
  function DerivedRow(row: Row, s: SignalTags): (r: Row)
    requires SensorColumns(s) <= row.Keys
    ensures r.Keys == row.Keys + IndicatorColumns
  {
    var r1 := RowStep(row, RoProcess, s);
    var r2 := RowStep(r1, RoMonitoring, s);
    var r3 := RowStep(r2, RoWaterQuality, s);
    RowStep(r3, OzoneWaterQuality, s)
  }

  /** Applying a rule to the table applies it to each row. */
  lemma RuleStep(before: Table, rule: Rule, s: SignalTags, t: Timestamp) returns (after: Table)
    requires before.Valid() && RuleInputs(rule, s) <= before.columns && t in before.rows
    ensures after == WithColumn(before, RuleColumn(rule), RuleValues(before, rule, s))
    ensures after.Valid() && after.rows.Keys == before.rows.Keys
    ensures after.columns == before.columns + {RuleColumn(rule)}
    ensures after.rows[t] == RowStep(before.rows[t], rule, s)
  {
    after := WithColumn(before, RuleColumn(rule), RuleValues(before, rule, s));
  }

  /** With the sensor columns present, the four rules apply one after the
      other. */
  lemma DerivedTableOfRuleOrder(tb: Table, s: SignalTags, t1: Table, t2: Table, t3: Table, t4: Table)
    requires tb.Valid() && SensorColumns(s) <= tb.columns
    requires t1 == WithColumn(tb, RoProcessName, RuleValues(tb, RoProcess, s))
    requires t2.Valid() && t3.Valid()
    requires RuleInputs(RoMonitoring, s) <= t1.columns && t2 == WithColumn(t1, RoMonitoringName, RuleValues(t1, RoMonitoring, s))
    requires RuleInputs(RoWaterQuality, s) <= t2.columns && t3 == WithColumn(t2, RoWaterQualityName, RuleValues(t2, RoWaterQuality, s))
    requires RuleInputs(OzoneWaterQuality, s) <= t3.columns && t4 == WithColumn(t3, OzoneWaterQualityName, RuleValues(t3, OzoneWaterQuality, s))
    ensures DerivedTable(tb, s, RuleOrder) == Ok(t4)
  {
    assert RuleOrder[..1][..0] == [];
    assert DerivedTable(tb, s, RuleOrder[..1]) == Ok(t1);
    assert RuleOrder[..2][..1] == RuleOrder[..1];
    assert DerivedTable(tb, s, RuleOrder[..2]) == Ok(t2);
    assert RuleOrder[..3][..2] == RuleOrder[..2];
    assert DerivedTable(tb, s, RuleOrder[..3]) == Ok(t3);
    assert RuleOrder[..4][..3] == RuleOrder[..3];
    assert RuleOrder[..4] == RuleOrder;
  }

  lemma InputsAreSensors(s: SignalTags)
    ensures RuleInputs(RoProcess, s) <= SensorColumns(s)
    ensures RuleInputs(RoMonitoring, s) <= SensorColumns(s)
    ensures RuleInputs(RoWaterQuality, s) <= SensorColumns(s)
    ensures RuleInputs(OzoneWaterQuality, s) <= SensorColumns(s)
  {
  }

  /** The four rule steps on a table with the sensor columns present. */
  lemma RuleChain(tb: Table, s: SignalTags, t: Timestamp) returns (t1: Table, t2: Table, t3: Table, t4: Table)
    requires tb.Valid() && SensorColumns(s) <= tb.columns && t in tb.rows
    ensures t1 == WithColumn(tb, RoProcessName, RuleValues(tb, RoProcess, s))
    ensures t2.Valid() && t3.Valid()
    ensures RuleInputs(RoMonitoring, s) <= t1.columns && t2 == WithColumn(t1, RoMonitoringName, RuleValues(t1, RoMonitoring, s))
    ensures RuleInputs(RoWaterQuality, s) <= t2.columns && t3 == WithColumn(t2, RoWaterQualityName, RuleValues(t2, RoWaterQuality, s))
    ensures RuleInputs(OzoneWaterQuality, s) <= t3.columns && t4 == WithColumn(t3, OzoneWaterQualityName, RuleValues(t3, OzoneWaterQuality, s))
    ensures t in t4.rows && t4.rows[t] == DerivedRow(tb.rows[t], s)
  {
    InputsAreSensors(s);
    t1 := RuleStep(tb, RoProcess, s, t);
    t2 := RuleStep(t1, RoMonitoring, s, t);
    t3 := RuleStep(t2, RoWaterQuality, s, t);
    t4 := RuleStep(t3, OzoneWaterQuality, s, t);
  }

  /** With the sensor columns present, every row of the result is the
      row-level derivation of the input row. */
  lemma DerivedTableRows(tb: Table, s: SignalTags, t: Timestamp) returns (result: Table)
    requires tb.Valid() && SensorColumns(s) <= tb.columns && t in tb.rows
    ensures DerivedTable(tb, s, RuleOrder) == Ok(result)
    ensures t in result.rows && result.rows[t] == DerivedRow(tb.rows[t], s)
  {
    var t1, t2, t3, t4 := RuleChain(tb, s, t);
    DerivedTableOfRuleOrder(tb, s, t1, t2, t3, t4);
    result := t4;
  }

  /** When no sensor tag carries one of the indicator names, a derived
      row holds the four rules evaluated on the row's own sensor values
      and keeps every other cell. */
  lemma DerivedRowMeaning(row: Row, s: SignalTags)
    requires SensorColumns(s) <= row.Keys
    requires SensorColumns(s) !! IndicatorColumns
    ensures DerivedRow(row, s)[RoProcessName] == Indicator(RoProcessHolds(row[s.permeateToc], row[s.condA], row[s.condB]))
    ensures DerivedRow(row, s)[RoMonitoringName] == Indicator(RoMonitoringHolds(row[s.feedToc], row[s.lrv]))
    ensures DerivedRow(row, s)[RoWaterQualityName] == Indicator(RoWaterQualityHolds(row[s.permeateToc], row[s.condA], row[s.condB]))
    ensures DerivedRow(row, s)[OzoneWaterQualityName] == Indicator(OzoneWaterQualityHolds(row[s.osp4Diff], row[s.osp7Diff], row[s.productionError], row[s.demand]))
    ensures forall n :: n in row && n !in IndicatorColumns ==> DerivedRow(row, s)[n] == row[n]
  {
    IndicatorNamesDistinct();
    var r1 := RowStep(row, RoProcess, s);
    var r2 := RowStep(r1, RoMonitoring, s);
    var r3 := RowStep(r2, RoWaterQuality, s);
    assert forall n :: n in SensorColumns(s) ==> r3[n] == r2[n] == r1[n] == row[n];
  }

  /** When no sensor tag carries one of the indicator names, every row's
      indicators are the four rules evaluated on that row's sensor values,
      and every other column is unchanged. */
  lemma DerivedColumnsMeaning(tb: Table, s: SignalTags, t: Timestamp) returns (result: Table)
    requires tb.Valid() && SensorColumns(s) <= tb.columns
    requires SensorColumns(s) !! IndicatorColumns
    requires t in tb.rows
    ensures DerivedTable(tb, s, RuleOrder) == Ok(result)
    ensures t in result.rows && IndicatorColumns <= result.rows[t].Keys
    ensures result.rows[t][RoProcessName] == Indicator(RoProcessHolds(tb.rows[t][s.permeateToc], tb.rows[t][s.condA], tb.rows[t][s.condB]))
    ensures result.rows[t][RoMonitoringName] == Indicator(RoMonitoringHolds(tb.rows[t][s.feedToc], tb.rows[t][s.lrv]))
    ensures result.rows[t][RoWaterQualityName] == Indicator(RoWaterQualityHolds(tb.rows[t][s.permeateToc], tb.rows[t][s.condA], tb.rows[t][s.condB]))
    ensures result.rows[t][OzoneWaterQualityName] == Indicator(OzoneWaterQualityHolds(tb.rows[t][s.osp4Diff], tb.rows[t][s.osp7Diff], tb.rows[t][s.productionError], tb.rows[t][s.demand]))
    ensures forall n :: n in tb.columns && n !in IndicatorColumns ==> n in result.rows[t] && result.rows[t][n] == tb.rows[t][n]
  {
    result := DerivedTableRows(tb, s, t);
    DerivedRowMeaning(tb.rows[t], s);
  }
}
