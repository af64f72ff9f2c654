/** From item values to grades: the chain of `ssat/application/_analysis_service.py`. */
module Analysis {
  import opened Prelude
  import opened Ordering
  import opened Sums
  import opened Grouping
  import opened Mapping
  import opened AnalysisTypes
  import opened Items
  import opened ItemMeans
  import opened ControlComparison
  import SeedStability
  import opened StrategyStability
  import Interval
  import opened Reliability

  /** What the rank correlations and the operator profile are computed for. */
  datatype Comparing = Comparing(primary: string, scope: string, rankTopK: nat, clusterThreshold: real,
                                 profileTopK: nat)

  /** Everything beside the data: requested metrics, thresholds, resampling, and the square root. */
  datatype Config = Config(
    names: Option<set<string>>, control: Settings, cvZero: real, comparing: Comparing,
    interval: Interval.Settings, pick: Interval.Picks, sqrt: real -> real)

  function CellsOf(items: seq<Item>, cfg: Config): seq<Interval.Cell> {
    Interval.Cells(Interval.Population(items, cfg.names))
  }

  /** Something can be resampled, or nothing has to be. */
  predicate Resamplable(items: seq<Item>, cfg: Config) { CellsOf(items, cfg) == [] || Interval.InRange(cfg.interval) }

  lemma CellsNonEmpty(rows: seq<Item>)
    ensures Interval.NonEmpty(Interval.Cells(rows))
  {
    var cells := Interval.Cells(rows);
    forall i | 0 <= i < |cells| ensures cells[i].values != [] {
      assert cells[i] in cells;
      Interval.CellValues(rows, cells[i]);
    }
  }

  function EvidenceOf(items: seq<Item>, pairs: seq<Pair>, cfg: Config): Evidence
    requires Resamplable(items, cfg)
  {
    CellsNonEmpty(Interval.Population(items, cfg.names));
    Evidence(ControlRows(items, pairs, cfg.names, cfg.control, cfg.sqrt),
             SeedStability.SeedRows(items, cfg.names, cfg.cvZero, cfg.sqrt),
             StrategyRows(items, cfg.names),
             Interval.IntervalRows(CellsOf(items, cfg), cfg.interval, cfg.pick))
  }

  // ------------------------------------------------- one strategy row per anchor

  function SameKey(am: AnchorMetric): AnchorMetric { am }

  lemma StrategyRowsSorted(items: seq<Item>, names: Option<set<string>>)
    ensures StrategyRows(items, names)
            == MapSeq(SortBy(StrategyKeys(items, names), AnchorMetricLe), StrategyRowOf(items, names))
  {
    SortCommutes(StrategyKeys(items, names), StrategyRowOf(items, names), AnchorMetricLe, StrategyLe);
  }

  /** The scorer finds the row of an anchor exactly when some operator has a mean there. */
  lemma StrategyFound(items: seq<Item>, names: Option<set<string>>, am: AnchorMetric)
    ensures Last(Select(StrategyRows(items, names), KeyOfRow, am))
            == if am in StrategyKeys(items, names) then Some(StrategyRowOf(items, names)(am)) else None
  {
    var keys := SortBy(StrategyKeys(items, names), AnchorMetricLe);
    var rowOf := StrategyRowOf(items, names);
    StrategyRowsSorted(items, names);
    KeysAreGroups(WantedOps(items, names), PairOf);
    SortDistinct(StrategyKeys(items, names), AnchorMetricLe);
    SortMembers(StrategyKeys(items, names), AnchorMetricLe);
    SelectMapped(keys, rowOf, SameKey, KeyOfRow, am);
    if am in keys {
      SelectOfDistinct(keys, SameKey, am);
      assert MapSeq([am], rowOf) == [rowOf(am)];
    } else {
      NoneSelected(keys, SameKey, am);
    }
  }

  lemma ControlKeysEligible(items: seq<Item>, pairs: seq<Pair>, cfg: Config, row: ControlRow)
    requires row in ControlRows(items, pairs, cfg.names, cfg.control, cfg.sqrt)
    ensures ControlKey(row) in StrategyKeys(items, cfg.names)
  {
    var kept := Filter(CellKeys(items), Compared(items, cfg.names));
    var rowOf := ControlRowOf(items, pairs, cfg.control, cfg.sqrt);
    var rows := MapSeq(kept, rowOf);
    SortMembers(rows, RowLe);
    FilterMembers(CellKeys(items), Compared(items, cfg.names));
    var i :| 0 <= i < |rows| && rows[i] == row;
    assert kept[i] in kept;
    assert row == rowOf(kept[i]);
    RowKeepsKey(items, pairs, cfg, kept[i]);
    CellReachesStrategies(items, cfg.names, kept[i]);
  }

  lemma RowKeepsKey(items: seq<Item>, pairs: seq<Pair>, cfg: Config, key: CellKey)
    ensures ControlRowOf(items, pairs, cfg.control, cfg.sqrt)(key).key == key
  {
    ComparedKey(key, CellValue(items)(key), Select(pairs, PlaceOf, Place(key.anchor, key.condition)), CellMean(items),
                cfg);
  }

  lemma ComparedKey(key: CellKey, target: real, matched: seq<Pair>, mean: CellKey -> Option<real>, cfg: Config)
    ensures CompareOne(key, target, matched, mean, cfg.control, cfg.sqrt).key == key
  {
  }

  lemma CellReachesStrategies(items: seq<Item>, names: Option<set<string>>, cell: CellKey)
    requires cell in CellKeys(items) && Compared(items, names)(cell)
    ensures AnchorMetric(cell.anchor, cell.metric) in StrategyKeys(items, names)
  {
    var am := AnchorMetric(cell.anchor, cell.metric);
    KeysAreGroups(CellKeys(items), OpOf);
    MeansExist(items);
    assert OpOf(cell) in OpKeys(items);
    assert ValueAt(items, am, cell.condition.op).Some?;
    StrategyKeyMeaning(items, names, am);
    assert Eligible(items, names, am);
  }

  lemma StrategyRowKeys(items: seq<Item>, names: Option<set<string>>, am: AnchorMetric)
    ensures (exists row :: row in StrategyRows(items, names) && KeyOfRow(row) == am)
            <==> am in StrategyKeys(items, names)
  {
    var keys, rows := SortBy(StrategyKeys(items, names), AnchorMetricLe), StrategyRows(items, names);
    StrategyRowsSorted(items, names);
    SortMembers(StrategyKeys(items, names), AnchorMetricLe);
    forall row | row in rows ensures KeyOfRow(row) in StrategyKeys(items, names) {
      var i :| 0 <= i < |keys| && rows[i] == row;
      assert keys[i] in keys;
    }
    if am in StrategyKeys(items, names) {
      var i :| 0 <= i < |keys| && keys[i] == am;
      assert rows[i] in rows && KeyOfRow(rows[i]) == am;
    }
  }

  /** A requested metric at a non-control anchor that some operator has a mean for. */
  ghost predicate Graded(items: seq<Item>, names: Option<set<string>>, am: AnchorMetric) {
    Eligible(items, names, am) && exists op :: ValueAt(items, am, op).Some?
  }

  /** The scorer's keys are exactly these anchors. */
  lemma ScoredAnchors(items: seq<Item>, pairs: seq<Pair>, cfg: Config, am: AnchorMetric)
    requires Resamplable(items, cfg)
    ensures am in ScoredKeys(EvidenceOf(items, pairs, cfg)) <==> Graded(items, cfg.names, am)
  {
    StrategyKeyMeaning(items, cfg.names, am);
    StrategyRowKeys(items, cfg.names, am);
    forall row | row in ControlRows(items, pairs, cfg.names, cfg.control, cfg.sqrt) && ControlKey(row) == am
      ensures am in StrategyKeys(items, cfg.names)
    {
      ControlKeysEligible(items, pairs, cfg, row);
    }
  }

  // ---------------------------------------------------------------- end to end

  ghost predicate OpsDisagree(items: seq<Item>, am: AnchorMetric) {
    exists a, b :: ValueAt(items, am, a).Some? && ValueAt(items, am, b).Some?
                   && !SameSign(ValueAt(items, am, a).value, ValueAt(items, am, b).value)
  }

  lemma RowSigns(items: seq<Item>, names: Option<set<string>>, am: AnchorMetric)
    requires am in StrategyKeys(items, names)
    ensures var row := StrategyRowOf(items, names)(am);
            && row.signs != map[] && AreSigns(row.signs)
            && (row.agreement == 1.0 <==> OneSign(row.signs))
            && (forall op :: op in row.signs <==> ValueAt(items, am, op).Some?)
            && (forall op :: op in row.signs ==> row.signs[op] == Sign(ValueAt(items, am, op).value))
  {
    StrategyKeyMeaning(items, names, am);
    var row := StrategyRowOf(items, names)(am);
    forall op ensures In(row.values, op) == ValueAt(items, am, op) { RowValues(items, names, am, op); }
    var op :| ValueAt(items, am, op).Some?;
    assert In(row.values, op).Some?;
    StrategyRowMeaning(am, row.values);
    SignsMeaning(row.values);
  }

  lemma OneSignOf(signs: Signs, items: seq<Item>, am: AnchorMetric)
    requires forall op :: op in signs <==> ValueAt(items, am, op).Some?
    requires forall op :: op in signs ==> signs[op] == Sign(ValueAt(items, am, op).value)
    ensures OneSign(signs) <==> !OpsDisagree(items, am)
  {
    if OpsDisagree(items, am) {
      var a, b :| ValueAt(items, am, a).Some? && ValueAt(items, am, b).Some?
                  && !SameSign(ValueAt(items, am, a).value, ValueAt(items, am, b).value);
      assert a in signs && b in signs;
    } else {
      forall a, b | a in signs && b in signs ensures signs[a] == signs[b] {
        assert ValueAt(items, am, a).Some? && ValueAt(items, am, b).Some?;
      }
    }
  }

  lemma OneSignMeaning(items: seq<Item>, names: Option<set<string>>, am: AnchorMetric)
    requires am in StrategyKeys(items, names)
    ensures OneSign(StrategyRowOf(items, names)(am).signs) <==> !OpsDisagree(items, am)
  {
    RowSigns(items, names, am);
    OneSignOf(StrategyRowOf(items, names)(am).signs, items, am);
  }

  /** The grade an anchor gets, end to end. */
  function GradeAt(items: seq<Item>, pairs: seq<Pair>, cfg: Config, limits: Limits, am: AnchorMetric): Grade
    requires Resamplable(items, cfg)
  {
    ScoreOfKey(EvidenceOf(items, pairs, cfg), limits)(am).grade
  }

  lemma SignFlagSeen(ev: Evidence, limits: Limits, am: AnchorMetric, row: StrategyRow)
    requires Last(Select(ev.strategies, KeyOfRow, am)) == Some(row) && row.signs != map[]
    ensures var grade := ScoreOfKey(ev, limits)(am).grade;
            && (grade == Unreliable <==> row.agreement != 1.0)
            && (grade in {Moderate, High} ==> TopCount(row.signs) >= 2)
  {
  }

  /** A graded anchor is UNRELIABLE exactly when two operators' two-stage means differ in sign. */
  lemma UnreliableIffSignsDiffer(items: seq<Item>, pairs: seq<Pair>, cfg: Config, limits: Limits, am: AnchorMetric)
    requires Resamplable(items, cfg) && Graded(items, cfg.names, am)
    ensures GradeAt(items, pairs, cfg, limits, am) == Unreliable <==> OpsDisagree(items, am)
  {
    StrategyKeyMeaning(items, cfg.names, am);
    StrategyFound(items, cfg.names, am);
    RowSigns(items, cfg.names, am);
    OneSignMeaning(items, cfg.names, am);
    SignFlagSeen(EvidenceOf(items, pairs, cfg), limits, am, StrategyRowOf(items, cfg.names)(am));
  }

  /** At least two operators have a mean here, and all that do share one sign. */
  ghost predicate TwoAgree(items: seq<Item>, am: AnchorMetric) {
    && (exists a, b :: a != b && ValueAt(items, am, a).Some? && ValueAt(items, am, b).Some?)
    && !OpsDisagree(items, am)
  }

  /** MODERATE and HIGH both need at least two operators, all sharing one sign. */
  lemma ModerateNeedsTwoAgreeing(items: seq<Item>, pairs: seq<Pair>, cfg: Config, limits: Limits, am: AnchorMetric)
    requires Resamplable(items, cfg) && Graded(items, cfg.names, am)
    requires GradeAt(items, pairs, cfg, limits, am) == Moderate || GradeAt(items, pairs, cfg, limits, am) == High
    ensures TwoAgree(items, am)
  {
    StrategyKeyMeaning(items, cfg.names, am);
    StrategyFound(items, cfg.names, am);
    SignFlagAllows(items, cfg.names, am);
    RowSigns(items, cfg.names, am);
    SignFlagSeen(EvidenceOf(items, pairs, cfg), limits, am, StrategyRowOf(items, cfg.names)(am));
    UnreliableIffSignsDiffer(items, pairs, cfg, limits, am);
  }

  lemma SignFlagAllows(items: seq<Item>, names: Option<set<string>>, am: AnchorMetric)
    requires am in StrategyKeys(items, names)
    ensures TopCount(StrategyRowOf(items, names)(am).signs) >= 2
            ==> exists a, b :: a != b && ValueAt(items, am, a).Some? && ValueAt(items, am, b).Some?
  {
    RowSigns(items, names, am);
    var signs := StrategyRowOf(items, names)(am).signs;
    TopCountMeaning(signs);
    if TopCount(signs) >= 2 {
      var a, b := TwoKeys(signs);
      assert ValueAt(items, am, a).Some? && ValueAt(items, am, b).Some?;
    }
  }

  lemma TwoKeys(signs: Signs) returns (a: string, b: string)
    requires |signs| >= 2
    ensures a in signs && b in signs && a != b
  {
    a :| a in signs;
    var rest := signs.Keys - {a};
    assert |signs.Keys| == |signs| && |rest| >= 1;
    b :| b in rest;
  }

  function RegionKeyOf(am: AnchorMetric): RegionMetric { RegionMetric(am.anchor.region, am.metric) }

  ghost predicate IsIntervalFor(ev: Evidence, am: AnchorMetric, row: Interval.IntervalRow) {
    row in ev.intervals && row.key == RegionKeyOf(am)
  }

  /** The region has a bootstrap interval for the metric, and it lies on one side of zero. */
  ghost predicate IntervalClear(ev: Evidence, am: AnchorMetric) {
    exists row :: IsIntervalFor(ev, am, row) && (row.ciLow > 0.0 || row.ciHigh < 0.0)
  }

  ghost predicate AnyInterval(ev: Evidence, am: AnchorMetric) { exists row :: IsIntervalFor(ev, am, row) }

  /** No region has two intervals for one metric, and each says truly whether it excludes zero. */
  ghost predicate IntervalsKeyed(rows: seq<Interval.IntervalRow>) {
    && (forall i, j :: 0 <= i < j < |rows| ==> rows[i].key != rows[j].key)
    && (forall row :: row in rows ==> (row.excludesZero <==> row.ciLow > 0.0 || row.ciHigh < 0.0))
  }

  lemma IntervalsAreKeyed(items: seq<Item>, cfg: Config)
    requires Resamplable(items, cfg)
    ensures Interval.NonEmpty(CellsOf(items, cfg))
    ensures IntervalsKeyed(Interval.IntervalRows(CellsOf(items, cfg), cfg.interval, cfg.pick))
  {
    var population := Interval.Population(items, cfg.names);
    var cells := CellsOf(items, cfg);
    CellsNonEmpty(population);
    Interval.CellKeysDistinct(population);
    var rows := Interval.IntervalRows(cells, cfg.interval, cfg.pick);
    forall row | row in rows ensures row.excludesZero <==> row.ciLow > 0.0 || row.ciHigh < 0.0 {
      var g :| 0 <= g < |rows| && rows[g] == row;
      assert row == Interval.IntervalRowOf(cells[g], g, cfg.interval, cfg.pick);
    }
  }

  /** The interval flag, read off the rows. */
  lemma IntervalFlagMeaning(ev: Evidence, am: AnchorMetric)
    requires IntervalsKeyed(ev.intervals)
    ensures var flag := CiFlag(Last(Select(ev.intervals, IntervalKey, RegionKeyOf(am))));
            && (flag == Yes <==> IntervalClear(ev, am))
            && (flag == Unavailable <==> !AnyInterval(ev, am))
  {
    var rows, rm := ev.intervals, RegionKeyOf(am);
    if row :| IsIntervalFor(ev, am, row) {
      SelectOfDistinct(rows, IntervalKey, row);
      forall other | IsIntervalFor(ev, am, other) ensures other == row { SelectOfDistinct(rows, IntervalKey, other); }
    } else {
      forall i | 0 <= i < |rows| ensures IntervalKey(rows[i]) != rm {
        assert rows[i] in rows;
        assert !IsIntervalFor(ev, am, rows[i]);
      }
      NoneSelected(rows, IntervalKey, rm);
    }
  }

  lemma TwoKeysCount(signs: Signs, a: string, b: string)
    requires a in signs && b in signs && a != b
    ensures |signs| >= 2
  {
    assert {a, b} <= signs.Keys;
    SubsetSize({a, b}, signs.Keys);
    assert |signs.Keys| == |signs|;
  }

  /** Some two operators with a mean here share its sign. */
  ghost predicate TwoOpsShareSign(items: seq<Item>, am: AnchorMetric) {
    exists a, b :: a != b && ValueAt(items, am, a).Some? && ValueAt(items, am, b).Some?
                   && SameSign(ValueAt(items, am, a).value, ValueAt(items, am, b).value)
  }

  ghost predicate AreSignsAt(signs: Signs, items: seq<Item>, am: AnchorMetric) {
    && (forall op :: op in signs <==> ValueAt(items, am, op).Some?)
    && (forall op :: op in signs ==> signs[op] == Sign(ValueAt(items, am, op).value))
  }

  lemma SharedSignsIff(signs: Signs, items: seq<Item>, am: AnchorMetric)
    requires AreSignsAt(signs, items, am)
    ensures TwoShare(signs) <==> TwoOpsShareSign(items, am)
  {
    if TwoShare(signs) {
      var a, b :| a in signs && b in signs && a != b && signs[a] == signs[b];
      SignMeaning(ValueAt(items, am, a).value, ValueAt(items, am, b).value);
      assert ValueAt(items, am, a).Some? && ValueAt(items, am, b).Some?;
    }
    if TwoOpsShareSign(items, am) {
      var a, b :| a != b && ValueAt(items, am, a).Some? && ValueAt(items, am, b).Some?
                  && SameSign(ValueAt(items, am, a).value, ValueAt(items, am, b).value);
      SignMeaning(ValueAt(items, am, a).value, ValueAt(items, am, b).value);
      assert a in signs && b in signs && signs[a] == signs[b];
    }
  }

  lemma SharedSigns(items: seq<Item>, names: Option<set<string>>, am: AnchorMetric)
    requires am in StrategyKeys(items, names)
    ensures TopCount(StrategyRowOf(items, names)(am).signs) >= 2 <==> TwoOpsShareSign(items, am)
  {
    var signs := StrategyRowOf(items, names)(am).signs;
    RowSigns(items, names, am);
    TopCountTwoIff(signs);
    SharedSignsIff(signs, items, am);
  }

  // -------------------------------------------------------- flags and grades, exactly

  /** The rows the scorer reads for an anchor and metric. */
  function ControlsFor(ev: Evidence, am: AnchorMetric): seq<ControlRow> { Select(ev.controls, ControlKey, am) }

  function SeedsFor(ev: Evidence, am: AnchorMetric): seq<SeedStability.SeedRow> { Select(ev.seeds, SeedKey, am) }

  /** A flag is TRUE, FALSE or UNAVAILABLE. */
  predicate FlagIs(flag: Flag, yes: bool, known: bool) {
    flag == if !known then Unavailable else if yes then Yes else No
  }

  ghost predicate FlagsRead(row: ReliabilityRow, items: seq<Item>, ev: Evidence, limits: Limits, am: AnchorMetric) {
    var controls, seeds := ControlsFor(ev, am), SeedsFor(ev, am);
    && row.key == am && row.jitterStable == Unavailable
    && FlagIs(row.signConsistent, !OpsDisagree(items, am), true)
    && FlagIs(row.multiStrategy, TwoOpsShareSign(items, am), true)
    && FlagIs(row.exceedsControl, ScoreAbove(controls, limits.z), AnyScore(controls))
    && FlagIs(row.ciExcludesZero, IntervalClear(ev, am), AnyInterval(ev, am))
    && FlagIs(row.seedStable, AllBelow(seeds, limits.cv), exists seed :: seed in seeds && seed.cv.Some?)
    && FlagIs(row.areaMatched, !exists c :: c in controls && c.available == Yes && c.areaMatched == No,
              exists c :: c in controls && c.available == Yes)
  }

  lemma ScoreRead(ev: Evidence, limits: Limits, am: AnchorMetric, strategy: StrategyRow)
    requires Last(Select(ev.strategies, KeyOfRow, am)) == Some(strategy) && strategy.signs != map[]
    ensures var row := ScoreOfKey(ev, limits)(am);
            && row.key == am && row.jitterStable == Unavailable
            && row.signConsistent == (if strategy.agreement == 1.0 then Yes else No)
            && row.multiStrategy == (if TopCount(strategy.signs) >= 2 then Yes else No)
            && row.exceedsControl == ExceedsFlag(ControlsFor(ev, am), limits.z)
            && row.seedStable == SeedFlag(SeedsFor(ev, am), limits.cv)
            && row.areaMatched == AreaFlag(ControlsFor(ev, am))
            && row.ciExcludesZero == CiFlag(Last(Select(ev.intervals, IntervalKey, RegionKeyOf(am))))
            && row.grade == GradeOf(row.signConsistent, row.exceedsControl, row.multiStrategy, row.ciExcludesZero)
  {
  }

  /** Every flag of a graded anchor, read off the operators' means and the rows of the other tables. */
  lemma FlagsExactly(items: seq<Item>, pairs: seq<Pair>, cfg: Config, limits: Limits, am: AnchorMetric)
    requires Resamplable(items, cfg) && Graded(items, cfg.names, am)
    ensures var ev := EvidenceOf(items, pairs, cfg); FlagsRead(ScoreOfKey(ev, limits)(am), items, ev, limits, am)
  {
    var ev, strategy := EvidenceOf(items, pairs, cfg), StrategyRowOf(items, cfg.names)(am);
    StrategyKeyMeaning(items, cfg.names, am);
    StrategyFound(items, cfg.names, am);
    RowSigns(items, cfg.names, am);
    OneSignMeaning(items, cfg.names, am);
    SharedSigns(items, cfg.names, am);
    IntervalsAreKeyed(items, cfg);
    IntervalFlagMeaning(ev, am);
    ExceedsMeaning(ControlsFor(ev, am), limits.z);
    SeedFlagMeaning(SeedsFor(ev, am), limits.cv);
    AreaFlagMeaning(ControlsFor(ev, am));
    ScoreRead(ev, limits, am, strategy);
  }

  lemma TwoAgreeIff(items: seq<Item>, names: Option<set<string>>, am: AnchorMetric)
    requires Graded(items, names, am)
    ensures TwoAgree(items, am) <==> !OpsDisagree(items, am) && TwoOpsShareSign(items, am)
  {
    if TwoAgree(items, am) {
      var a, b :| a != b && ValueAt(items, am, a).Some? && ValueAt(items, am, b).Some?;
      assert SameSign(ValueAt(items, am, a).value, ValueAt(items, am, b).value);
    }
  }

  /** What the grade of an anchor depends on. */
  datatype Findings = Findings(disagree: bool, twoAgree: bool, above: bool, scored: bool, clear: bool, measured: bool)

  ghost function FindingsAt(items: seq<Item>, ev: Evidence, limits: Limits, am: AnchorMetric): Findings {
    var controls := ControlsFor(ev, am);
    Findings(OpsDisagree(items, am), TwoAgree(items, am), ScoreAbove(controls, limits.z), AnyScore(controls),
             IntervalClear(ev, am), AnyInterval(ev, am))
  }

  /** The grade the findings call for. */
  predicate GradeFollows(grade: Grade, f: Findings) {
    && (grade == Unreliable <==> f.disagree)
    && (grade == High <==> f.twoAgree && f.above && f.clear)
    && (grade == Moderate <==>
        f.twoAgree && (f.above || !f.scored) && (f.clear || !f.measured) && !(f.above && f.clear))
    && (grade == Low <==> !f.disagree && (!f.twoAgree || (f.scored && !f.above) || (f.measured && !f.clear)))
  }

  lemma FlagsDecide(signs: Flag, exceeds: Flag, multi: Flag, ci: Flag, share: bool, f: Findings)
    requires FlagIs(signs, !f.disagree, true) && FlagIs(exceeds, f.above, f.scored) && FlagIs(multi, share, true)
    requires FlagIs(ci, f.clear, f.measured)
    requires (f.twoAgree <==> !f.disagree && share) && (f.above ==> f.scored) && (f.clear ==> f.measured)
    ensures GradeFollows(GradeOf(signs, exceeds, multi, ci), f)
  {
  }

  lemma FlagsGiveGrade(row: ReliabilityRow, items: seq<Item>, ev: Evidence, limits: Limits, am: AnchorMetric)
    requires FlagsRead(row, items, ev, limits, am)
    requires row.grade == GradeOf(row.signConsistent, row.exceedsControl, row.multiStrategy, row.ciExcludesZero)
    requires TwoAgree(items, am) <==> !OpsDisagree(items, am) && TwoOpsShareSign(items, am)
    ensures GradeFollows(row.grade, FindingsAt(items, ev, limits, am))
  {
    FlagsDecide(row.signConsistent, row.exceedsControl, row.multiStrategy, row.ciExcludesZero,
                TwoOpsShareSign(items, am), FindingsAt(items, ev, limits, am));
  }

  lemma GradeScored(ev: Evidence, limits: Limits, am: AnchorMetric)
    ensures var row := ScoreOfKey(ev, limits)(am);
            row.grade == GradeOf(row.signConsistent, row.exceedsControl, row.multiStrategy, row.ciExcludesZero)
  {
  }

  /**
    UNRELIABLE: two operators differ in sign. HIGH: two or more agree, a score clears the threshold and the interval
    is on one side of zero. MODERATE: two or more agree, and of score and interval neither speaks against and not both
    speak for. LOW: a lone operator, or a score or an interval that speaks against.
   */
  lemma GradesExactly(items: seq<Item>, pairs: seq<Pair>, cfg: Config, limits: Limits, am: AnchorMetric)
    requires Resamplable(items, cfg) && Graded(items, cfg.names, am)
    ensures var ev := EvidenceOf(items, pairs, cfg);
            GradeFollows(GradeAt(items, pairs, cfg, limits, am), FindingsAt(items, ev, limits, am))
  {
    var ev := EvidenceOf(items, pairs, cfg);
    FlagsExactly(items, pairs, cfg, limits, am);
    TwoAgreeIff(items, cfg.names, am);
    GradeScored(ev, limits, am);
    FlagsGiveGrade(ScoreOfKey(ev, limits)(am), items, ev, limits, am);
  }

  /**
    HIGH exactly when two or more operators share one sign, a score clears the threshold, and the
    interval excludes zero.
   */
  lemma HighIff(items: seq<Item>, pairs: seq<Pair>, cfg: Config, limits: Limits, am: AnchorMetric)
    requires Resamplable(items, cfg) && Graded(items, cfg.names, am)
    ensures var ev := EvidenceOf(items, pairs, cfg);
            GradeAt(items, pairs, cfg, limits, am) == High
            <==> TwoAgree(items, am) && ScoreAbove(ControlsFor(ev, am), limits.z) && IntervalClear(ev, am)
  {
    GradesExactly(items, pairs, cfg, limits, am);
  }
}
