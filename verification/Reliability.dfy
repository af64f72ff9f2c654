/** Reliability grades: `ssat/analysis/reliability.py`. */
module Reliability {
  import opened Prelude
  import opened Ordering
  import opened Sums
  import opened Grouping
  import opened AnalysisTypes
  import opened Items
  import opened ItemMeans
  import opened ControlComparison
  import opened SeedStability
  import opened StrategyStability
  import opened Interval

  datatype ReliabilityRow = ReliabilityRow(
    key: AnchorMetric,
    signConsistent: Flag, exceedsControl: Flag, seedStable: Flag, jitterStable: Flag,
    multiStrategy: Flag, ciExcludesZero: Flag, areaMatched: Flag,
    grade: Grade)

  /** The four tables the scorer reads. */
  datatype Evidence = Evidence(
    controls: seq<ControlRow>, seeds: seq<SeedRow>, strategies: seq<StrategyRow>, intervals: seq<IntervalRow>)

  datatype Limits = Limits(z: real, cv: real)

  // ----------------------------------------------------------------------- flags

  function GradeOf(signs: Flag, exceeds: Flag, multi: Flag, ci: Flag): Grade {
    if signs == No then Unreliable
    else if signs == Yes && exceeds == Yes && multi == Yes && ci == Yes then High
    else if signs == Yes && (exceeds == Yes || multi == Yes || ci == Yes) && exceeds != No && multi != No
      && ci != No then Moderate
    else Low
  }

  function SignFlag(row: Option<StrategyRow>): Flag {
    if row.None? || row.value.signs == map[] then Unavailable
    else if row.value.agreement == 1.0 then Yes else No
  }

  function MultiFlag(row: Option<StrategyRow>): Flag {
    if row.None? || row.value.signs == map[] then Unavailable
    else if TopCount(row.value.signs) >= 2 then Yes else No
  }

  function MaxOf(values: seq<real>): real
    requires values != []
  {
    if |values| == 1 then values[0]
    else
      var rest := MaxOf(values[1..]);
      if values[0] < rest then rest else values[0]
  }

  predicate HasScore(row: ControlRow) { row.available == Yes && row.z.Some? }

  function ScoreOf(row: ControlRow): real { ValueOr0(row.z) }

  function ExceedsFlag(rows: seq<ControlRow>, threshold: real): Flag {
    var evaluable := MapSeq(Filter(rows, HasScore), ScoreOf);
    if evaluable == [] then Unavailable else if MaxOf(evaluable) > threshold then Yes else No
  }

  predicate HasVariation(row: SeedRow) { row.cv.Some? }

  function VariationIn(row: SeedRow): real { ValueOr0(row.cv) }

  function SeedFlag(rows: seq<SeedRow>, threshold: real): Flag {
    var evaluable := MapSeq(Filter(rows, HasVariation), VariationIn);
    if evaluable == [] then Unavailable else if MaxOf(evaluable) < threshold then Yes else No
  }

  predicate HasControl(row: ControlRow) { row.available == Yes }

  predicate AreaDiffers(row: ControlRow) { row.areaMatched == No }

  function AreaFlag(rows: seq<ControlRow>): Flag {
    var evaluable := Filter(rows, HasControl);
    if evaluable == [] then Unavailable else if Filter(evaluable, AreaDiffers) != [] then No else Yes
  }

  function CiFlag(row: Option<IntervalRow>): Flag {
    if row.None? then Unavailable else if row.value.excludesZero then Yes else No
  }

  // ------------------------------------------------------------------------ rows

  function ControlKey(row: ControlRow): AnchorMetric { AnchorMetric(row.key.anchor, row.key.metric) }

  function SeedKey(row: SeedRow): AnchorMetric { AnchorMetric(row.key.anchor, row.key.metric) }

  function IntervalKey(row: IntervalRow): RegionMetric { row.key }

  function Score(am: AnchorMetric, strategy: Option<StrategyRow>, controls: seq<ControlRow>, seeds: seq<SeedRow>,
                 interval: Option<IntervalRow>, limits: Limits): ReliabilityRow
  {
    var signs, exceeds := SignFlag(strategy), ExceedsFlag(controls, limits.z);
    var multi, ci := MultiFlag(strategy), CiFlag(interval);
    ReliabilityRow(am, signs, exceeds, SeedFlag(seeds, limits.cv), Unavailable, multi, ci, AreaFlag(controls),
                   GradeOf(signs, exceeds, multi, ci))
  }

  function ScoreOfKey(ev: Evidence, limits: Limits): AnchorMetric -> ReliabilityRow {
    (am: AnchorMetric) =>
      Score(am, Last(Select(ev.strategies, KeyOfRow, am)), Select(ev.controls, ControlKey, am),
            Select(ev.seeds, SeedKey, am),
            Last(Select(ev.intervals, IntervalKey, RegionMetric(am.anchor.region, am.metric))), limits)
  }

  function KeySet(ev: Evidence): set<AnchorMetric> {
    (set row | row in ev.strategies :: KeyOfRow(row)) + (set row | row in ev.controls :: ControlKey(row))
  }

  lemma KeysOrdered()
    ensures TotalOrder(AnchorMetricLe)
  {
    forall x, y ensures AnchorMetricLe(x, y) || AnchorMetricLe(y, x) { LexLeTotal(Fields(x), Fields(y)); }
    forall x, y, z | AnchorMetricLe(x, y) && AnchorMetricLe(y, z) ensures AnchorMetricLe(x, z) {
      LexLeTransitive(Fields(x), Fields(y), Fields(z));
    }
    forall x, y | AnchorMetricLe(x, y) && AnchorMetricLe(y, x) ensures x == y {
      LexLeAntisymmetric(Fields(x), Fields(y));
      FieldsInjective(x, y);
    }
  }

  lemma FieldsInjective(x: AnchorMetric, y: AnchorMetric)
    requires Fields(x) == Fields(y)
    ensures x == y
  {
    var f, g := Fields(x), Fields(y);
    assert f[0] == g[0] && f[1] == g[1] && f[2] == g[2] && f[3] == g[3];
    assert x.anchor.invert == y.anchor.invert by { assert "1"[0] != "0"[0]; }
  }

  ghost function ScoredKeys(ev: Evidence): (keys: seq<AnchorMetric>)
    ensures Distinct(keys) && forall am :: am in keys <==> am in KeySet(ev)
  {
    KeysOrdered();
    Listed(KeySet(ev), AnchorMetricLe)
  }

  ghost function ReliabilityRows(ev: Evidence, limits: Limits): seq<ReliabilityRow> {
    MapSeq(ScoredKeys(ev), ScoreOfKey(ev, limits))
  }

  method SortedKeys(ev: Evidence) returns (keys: seq<AnchorMetric>)
    ensures keys == ScoredKeys(ev)
  {
    KeysOrdered();
    keys := SortedSet(KeySet(ev), AnchorMetricLe);
  }

  /** `compute_reliability`. */
  method ComputeReliability(ev: Evidence, limits: Limits) returns (rows: seq<ReliabilityRow>)
    ensures rows == ReliabilityRows(ev, limits)
  {
    var strategyBy := IndexRows(ev.strategies, KeyOfRow);
    var controlBy := GroupsOf(ev.controls, ControlKey);
    var seedBy := GroupsOf(ev.seeds, SeedKey);
    var intervalBy := IndexRows(ev.intervals, IntervalKey);
    var keys := SortedKeys(ev);
    forall am ensures ScoreOfKey(ev, limits)(am) == ScoreFrom(am, strategyBy, controlBy, seedBy, intervalBy, limits) {
      assert Find(strategyBy, am) == Last(Select(ev.strategies, KeyOfRow, am));
      assert GroupAt(controlBy, am) == Select(ev.controls, ControlKey, am);
      assert GroupAt(seedBy, am) == Select(ev.seeds, SeedKey, am);
      var rm := RegionMetric(am.anchor.region, am.metric);
      assert Find(intervalBy, rm) == Last(Select(ev.intervals, IntervalKey, rm));
    }
    rows := ScoreAll(keys, strategyBy, controlBy, seedBy, intervalBy, limits, ScoreOfKey(ev, limits));
  }

  function ScoreFrom(am: AnchorMetric, strategyBy: map<AnchorMetric, StrategyRow>,
                     controlBy: map<AnchorMetric, seq<ControlRow>>,
                     seedBy: map<AnchorMetric, seq<SeedRow>>, intervalBy: map<RegionMetric, IntervalRow>,
                     limits: Limits): ReliabilityRow
  {
    Score(am, Find(strategyBy, am), GroupAt(controlBy, am), GroupAt(seedBy, am),
          Find(intervalBy, RegionMetric(am.anchor.region, am.metric)), limits)
  }

  method ScoreAll(keys: seq<AnchorMetric>, strategyBy: map<AnchorMetric, StrategyRow>,
                  controlBy: map<AnchorMetric, seq<ControlRow>>,
                  seedBy: map<AnchorMetric, seq<SeedRow>>, intervalBy: map<RegionMetric, IntervalRow>, limits: Limits,
                  ghost rowOf: AnchorMetric -> ReliabilityRow)
    returns (rows: seq<ReliabilityRow>)
    requires forall am :: rowOf(am) == ScoreFrom(am, strategyBy, controlBy, seedBy, intervalBy, limits)
    ensures rows == MapSeq(keys, rowOf)
  {
    rows := [];
    for i := 0 to |keys|
      invariant |rows| == i && forall j :: 0 <= j < i ==> rows[j] == rowOf(keys[j])
    {
      rows := rows + [ScoreFrom(keys[i], strategyBy, controlBy, seedBy, intervalBy, limits)];
    }
  }

  lemma InKeySet(ev: Evidence, am: AnchorMetric)
    ensures am in KeySet(ev)
            <==> (exists s :: s in ev.strategies && s.anchor == am.anchor && s.metric == am.metric)
                 || (exists c :: c in ev.controls && c.key.anchor == am.anchor && c.key.metric == am.metric)
  {
    if s :| s in ev.strategies && s.anchor == am.anchor && s.metric == am.metric { assert KeyOfRow(s) == am; }
    if c :| c in ev.controls && c.key.anchor == am.anchor && c.key.metric == am.metric { assert ControlKey(c) == am; }
  }

  lemma RowOfScoredKey(ev: Evidence, limits: Limits, am: AnchorMetric)
    ensures am in KeySet(ev) <==> exists row :: row in ReliabilityRows(ev, limits) && row.key == am
  {
    var keys, rows := ScoredKeys(ev), ReliabilityRows(ev, limits);
    if am in KeySet(ev) {
      var i :| 0 <= i < |keys| && keys[i] == am;
      assert rows[i] in rows && rows[i].key == am;
    }
    if row :| row in rows && row.key == am {
      var i :| 0 <= i < |rows| && rows[i] == row;
      assert keys[i] == am && keys[i] in keys;
    }
  }

  /** There is a row for exactly the anchors and metrics of the strategy and the control table. */
  lemma RowWhere(ev: Evidence, limits: Limits, am: AnchorMetric)
    ensures (exists row :: row in ReliabilityRows(ev, limits) && row.key == am)
            <==> (exists s :: s in ev.strategies && s.anchor == am.anchor && s.metric == am.metric)
                 || (exists c :: c in ev.controls && c.key.anchor == am.anchor && c.key.metric == am.metric)
  {
    InKeySet(ev, am);
    RowOfScoredKey(ev, limits, am);
  }

  /** Each key once, by sample, region, polarity and metric. */
  lemma RowsOrdered(ev: Evidence, limits: Limits, i: nat, j: nat)
    requires i < j < |ReliabilityRows(ev, limits)|
    ensures var x, y := ReliabilityRows(ev, limits)[i].key, ReliabilityRows(ev, limits)[j].key;
            && x != y
            && LexLe([x.anchor.sample, x.anchor.region, if x.anchor.invert then "1" else "0", x.metric],
                     [y.anchor.sample, y.anchor.region, if y.anchor.invert then "1" else "0", y.metric])
  {
    KeysOrdered();
    var keys := ScoredKeys(ev);
    assert IsSortedSet(keys, KeySet(ev), AnchorMetricLe);
    assert AnchorMetricLe(keys[i], keys[j]);
  }

  // --------------------------------------------------------------- what flags mean

  lemma {:induction false} MaxIsLargest(values: seq<real>)
    requires values != []
    ensures MaxOf(values) in values && forall v :: v in values ==> v <= MaxOf(values)
  {
    if |values| > 1 {
      MaxIsLargest(values[1..]);
      assert values == [values[0]] + values[1..];
    }
  }

  /** Some compared condition has a standard score above the threshold. */
  ghost predicate ScoreAbove(rows: seq<ControlRow>, threshold: real) {
    exists row :: row in rows && row.available == Yes && row.z.Some? && row.z.value > threshold
  }

  ghost predicate AnyScore(rows: seq<ControlRow>) { exists row :: row in rows && row.available == Yes && row.z.Some? }

  lemma ScoresListed(rows: seq<ControlRow>, v: real)
    ensures v in MapSeq(Filter(rows, HasScore), ScoreOf)
            <==> exists row :: row in rows && HasScore(row) && ScoreOf(row) == v
  {
    var scored := Filter(rows, HasScore);
    var values := MapSeq(scored, ScoreOf);
    FilterMembers(rows, HasScore);
    if v in values {
      var i :| 0 <= i < |values| && values[i] == v;
      assert scored[i] in scored;
    }
    forall row | row in rows && HasScore(row) && ScoreOf(row) == v ensures v in values {
      var i :| 0 <= i < |scored| && scored[i] == row;
      assert values[i] == v;
    }
  }

  /** The flag is raised exactly when some evaluable condition clears the threshold. */
  lemma ExceedsMeaning(rows: seq<ControlRow>, threshold: real)
    ensures ExceedsFlag(rows, threshold) == Yes <==> ScoreAbove(rows, threshold)
    ensures ExceedsFlag(rows, threshold) == Unavailable <==> !AnyScore(rows)
  {
    var values := MapSeq(Filter(rows, HasScore), ScoreOf);
    if values != [] {
      MaxIsLargest(values);
      ScoresListed(rows, MaxOf(values));
      ScoresListed(rows, values[0]);
      assert values[0] in values;
      forall row | row in rows && HasScore(row)
        ensures ScoreOf(row) <= MaxOf(values)
      {
        ScoresListed(rows, ScoreOf(row));
      }
    } else {
      forall row | row in rows ensures !HasScore(row) { ScoresListed(rows, ScoreOf(row)); }
    }
  }

  ghost predicate AllBelow(rows: seq<SeedRow>, threshold: real) {
    forall row :: row in rows && row.cv.Some? ==> row.cv.value < threshold
  }

  lemma VariationsListed(rows: seq<SeedRow>, v: real)
    ensures v in MapSeq(Filter(rows, HasVariation), VariationIn)
            <==> exists row :: row in rows && HasVariation(row) && VariationIn(row) == v
  {
    var kept := Filter(rows, HasVariation);
    var values := MapSeq(kept, VariationIn);
    FilterMembers(rows, HasVariation);
    if v in values {
      var i :| 0 <= i < |values| && values[i] == v;
      assert kept[i] in kept;
    }
    forall row | row in rows && HasVariation(row) && VariationIn(row) == v ensures v in values {
      var i :| 0 <= i < |kept| && kept[i] == row;
      assert values[i] == v;
    }
  }

  /** Stable means every condition with a variation stays below the threshold. */
  lemma SeedFlagMeaning(rows: seq<SeedRow>, threshold: real)
    ensures SeedFlag(rows, threshold) == Unavailable <==> !exists row :: row in rows && row.cv.Some?
    ensures SeedFlag(rows, threshold) != Unavailable ==>
            (SeedFlag(rows, threshold) == Yes <==> AllBelow(rows, threshold))
  {
    var values := MapSeq(Filter(rows, HasVariation), VariationIn);
    if values != [] {
      MaxIsLargest(values);
      VariationsListed(rows, MaxOf(values));
      forall row | row in rows && HasVariation(row)
        ensures VariationIn(row) <= MaxOf(values)
      {
        VariationsListed(rows, VariationIn(row));
      }
    } else {
      forall row | row in rows ensures !HasVariation(row) { VariationsListed(rows, VariationIn(row)); }
    }
  }

  /** One condition outside the tolerance is enough; conditions without controls do not count. */
  lemma AreaFlagMeaning(rows: seq<ControlRow>)
    ensures AreaFlag(rows) == No <==> exists row :: row in rows && row.available == Yes && row.areaMatched == No
    ensures AreaFlag(rows) == Unavailable <==> !exists row :: row in rows && row.available == Yes
  {
    var kept := Filter(rows, HasControl);
    FilterMembers(rows, HasControl);
    FilterMembers(kept, AreaDiffers);
    if kept != [] { assert kept[0] in kept; }
    if Filter(kept, AreaDiffers) != [] { assert Filter(kept, AreaDiffers)[0] in Filter(kept, AreaDiffers); }
    forall row | row in rows && HasControl(row) ensures kept != [] { assert row in kept; }
    forall row | row in rows && HasControl(row) && AreaDiffers(row)
      ensures Filter(kept, AreaDiffers) != []
    {
      assert row in Filter(kept, AreaDiffers);
    }
  }

  /**
    The grade of any flags: one sign is a must, and of the three core flags all, some or none may
    speak for or against.
   */
  lemma GradeMeaning(signs: Flag, exceeds: Flag, multi: Flag, ci: Flag)
    ensures var grade, core := GradeOf(signs, exceeds, multi, ci), {exceeds, multi, ci};
            && (grade == Unreliable <==> signs == No)
            && (grade == High <==> signs == Yes && core == {Yes})
            && (grade == Moderate <==> signs == Yes && Yes in core && No !in core && core != {Yes})
  {
    assert {exceeds, multi, ci} == {Yes} <==> exceeds == Yes && multi == Yes && ci == Yes;
  }

  /** Without operators to compare, an anchor is LOW whatever the other tables say. */
  lemma NoOperatorsMeansLow(ev: Evidence, limits: Limits, am: AnchorMetric)
    requires forall row :: row in ev.strategies && KeyOfRow(row) == am ==> row.signs == map[]
    ensures var row := ScoreOfKey(ev, limits)(am);
            row.signConsistent == Unavailable && row.multiStrategy == Unavailable && row.grade == Low
  {
    var rows := Select(ev.strategies, KeyOfRow, am);
    SelectMembers(ev.strategies, KeyOfRow, am);
    if rows != [] { assert rows[|rows| - 1] in rows; }
  }

  // ------------------------------------------------------------------- thresholds

  /** Raising the threshold keeps the keys and their order; a grade stays or falls to LOW, and UNRELIABLE rows stay. */
  lemma ZThresholdOnlyLowers(ev: Evidence, z: real, higher: real, cv: real)
    requires z <= higher
    ensures var rows, raised := ReliabilityRows(ev, Limits(z, cv)), ReliabilityRows(ev, Limits(higher, cv));
            && |rows| == |raised|
            && forall i :: 0 <= i < |rows| ==>
                 && raised[i].key == rows[i].key
                 && (raised[i].grade == rows[i].grade || raised[i].grade == Low)
                 && (raised[i].grade == Unreliable <==> rows[i].grade == Unreliable)
                 && (raised[i].exceedsControl == Unavailable <==> rows[i].exceedsControl == Unavailable)
  {
    var keys := ScoredKeys(ev);
    var rows, raised := ReliabilityRows(ev, Limits(z, cv)), ReliabilityRows(ev, Limits(higher, cv));
    forall i | 0 <= i < |rows|
      ensures raised[i].key == rows[i].key && (raised[i].grade == rows[i].grade || raised[i].grade == Low)
              && (raised[i].grade == Unreliable <==> rows[i].grade == Unreliable)
              && (raised[i].exceedsControl == Unavailable <==> rows[i].exceedsControl == Unavailable)
    {
      var controls := Select(ev.controls, ControlKey, keys[i]);
      ExceedsMeaning(controls, z);
      ExceedsMeaning(controls, higher);
    }
  }
}
