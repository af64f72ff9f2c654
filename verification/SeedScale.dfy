/** The seed flag under a change of unit: it moves exactly when its zero-guard does. */
module SeedScale {
  import opened Prelude
  import opened Ordering
  import opened Sums
  import opened Grouping
  import opened Mapping
  import opened AnalysisTypes
  import opened Items
  import opened ItemMeans
  import opened Spread
  import opened ControlComparison
  import opened SeedStability
  import opened Reliability
  import opened Analysis
  import opened ScaledStatistics
  import ScaleFree
  import RankCorrelation

  // ------------------------------------------------------------- one condition

  /** Two or more repeats with a non-zero mean that clears the zero-guard once multiplied by `c`. */
  predicate Evaluable(values: seq<real>, zero: real, c: real) {
    |values| >= 2 && Mean(values) != 0.0 && Times(c)(Abs(Mean(values))) >= zero
  }

  /** The variation, whatever the guard says. */
  function Variation(values: seq<real>, sqrt: real -> real): real {
    if values == [] || Mean(values) == 0.0 then 0.0 else Std(values, sqrt) / Abs(Mean(values))
  }

  lemma RowVariation(key: CellKey, values: seq<real>, zero: real, sqrt: real -> real)
    requires values != []
    ensures var row := SeedRowOf(key, values, zero, sqrt);
            && (HasVariation(row) <==> Evaluable(values, zero, 1.0))
            && (HasVariation(row) ==> VariationIn(row) == Variation(values, sqrt))
  {
    assert Times(1.0)(Abs(Mean(values))) == Abs(Mean(values));
  }

  lemma VariationScaled(values: seq<real>, c: real, zero: real, sqrt: real -> real)
    requires c > 0.0 && RankCorrelation.IsSqrt(sqrt)
    ensures Variation(Scaled(values, c), sqrt) == Variation(values, sqrt)
    ensures Evaluable(Scaled(values, c), zero, 1.0) <==> Evaluable(values, zero, c)
  {
    if values != [] {
      var mean, std := Mean(values), Std(values, sqrt);
      MeanTimes(values, c);
      StdScaled(values, c, sqrt);
      AbsScaled(c, mean, Times(c)(mean));
      assert Times(1.0)(Abs(Times(c)(mean))) == Times(c)(Abs(mean));
      if mean != 0.0 {
        PositiveFactor(c, mean);
        QuotientScaled(std, Abs(mean), c, Times(c)(std), Times(c)(Abs(mean)));
      }
    }
  }

  lemma FactorGrows(a: real, low: real, high: real)
    requires a >= 0.0 && low <= high
    ensures Times(low)(a) <= Times(high)(a)
  {
    ProductNonNegative(high - low, a);
    assert high * a - low * a == (high - low) * a;
  }

  // --------------------------------------------------------------- one anchor

  /** A requested condition of this anchor and metric. */
  predicate WantedAt(items: seq<Item>, names: Option<set<string>>, am: AnchorMetric, key: CellKey) {
    key in CellKeys(items) && Requested(names, key.metric) && AnchorMetric(key.anchor, key.metric) == am
  }

  /** One with a variation, once all values are multiplied by `c`. */
  predicate EvaluatedAt(items: seq<Item>, cfg: Config, am: AnchorMetric, c: real, key: CellKey) {
    WantedAt(items, cfg.names, am, key) && Evaluable(CellValues(items, key), cfg.cvZero, c)
  }

  function VariationAt(items: seq<Item>, cfg: Config, key: CellKey): real {
    Variation(CellValues(items, key), cfg.sqrt)
  }

  function SeedGroup(items: seq<Item>, cfg: Config, am: AnchorMetric): seq<SeedRow> {
    Select(SeedRows(items, cfg.names, cfg.cvZero, cfg.sqrt), SeedKey, am)
  }

  /** The seed flag an anchor gets. */
  function SeedFlagAt(items: seq<Item>, cfg: Config, limits: Limits, am: AnchorMetric): Flag {
    SeedFlag(SeedGroup(items, cfg, am), limits.cv)
  }

  lemma RowKept(items: seq<Item>, cfg: Config, key: CellKey)
    requires key in CellKeys(items)
    ensures CellValues(items, key) != []
    ensures RowFor(items, cfg.cvZero, cfg.sqrt)(key) == SeedRowOf(key, CellValues(items, key), cfg.cvZero, cfg.sqrt)
    ensures RowFor(items, cfg.cvZero, cfg.sqrt)(key).key == key
  {
    MeansExist(items);
    assert CellMean(items)(key).Some?;
  }

  lemma SeedGroupRows(items: seq<Item>, cfg: Config, am: AnchorMetric, row: SeedRow)
    ensures row in SeedGroup(items, cfg, am)
            <==> exists key :: WantedAt(items, cfg.names, am, key) && row == RowFor(items, cfg.cvZero, cfg.sqrt)(key)
  {
    var kept, rowFor := Filter(CellKeys(items), WantedCell(cfg.names)), RowFor(items, cfg.cvZero, cfg.sqrt);
    var rows := MapSeq(kept, rowFor);
    SelectMembers(SeedRows(items, cfg.names, cfg.cvZero, cfg.sqrt), SeedKey, am);
    SortMembers(rows, SeedLe);
    FilterMembers(CellKeys(items), WantedCell(cfg.names));
    if row in SeedGroup(items, cfg, am) {
      var i :| 0 <= i < |rows| && rows[i] == row;
      assert kept[i] in kept;
      RowKept(items, cfg, kept[i]);
      assert WantedAt(items, cfg.names, am, kept[i]);
    }
    if key :| WantedAt(items, cfg.names, am, key) && row == rowFor(key) {
      assert key in kept;
      RowKept(items, cfg, key);
      var i :| 0 <= i < |kept| && kept[i] == key;
      assert rows[i] in rows;
    }
  }

  ghost predicate AnyEvaluated(items: seq<Item>, cfg: Config, am: AnchorMetric, c: real) {
    exists key :: EvaluatedAt(items, cfg, am, c, key)
  }

  ghost predicate AllStable(items: seq<Item>, cfg: Config, limits: Limits, am: AnchorMetric, c: real) {
    forall key :: EvaluatedAt(items, cfg, am, c, key) ==> VariationAt(items, cfg, key) < limits.cv
  }

  lemma RowOfKey(items: seq<Item>, cfg: Config, am: AnchorMetric, key: CellKey)
    requires WantedAt(items, cfg.names, am, key)
    ensures var row := RowFor(items, cfg.cvZero, cfg.sqrt)(key);
            && row in SeedGroup(items, cfg, am)
            && (HasVariation(row) <==> EvaluatedAt(items, cfg, am, 1.0, key))
            && (HasVariation(row) ==> VariationIn(row) == VariationAt(items, cfg, key))
  {
    RowKept(items, cfg, key);
    RowVariation(key, CellValues(items, key), cfg.cvZero, cfg.sqrt);
    SeedGroupRows(items, cfg, am, RowFor(items, cfg.cvZero, cfg.sqrt)(key));
  }

  lemma CellOfRow(items: seq<Item>, cfg: Config, am: AnchorMetric, row: SeedRow) returns (key: CellKey)
    requires row in SeedGroup(items, cfg, am) && HasVariation(row)
    ensures EvaluatedAt(items, cfg, am, 1.0, key) && VariationAt(items, cfg, key) == VariationIn(row)
  {
    SeedGroupRows(items, cfg, am, row);
    key :| WantedAt(items, cfg.names, am, key) && row == RowFor(items, cfg.cvZero, cfg.sqrt)(key);
    RowOfKey(items, cfg, am, key);
  }

  lemma EvaluatedIffVaries(items: seq<Item>, cfg: Config, am: AnchorMetric)
    ensures (exists row :: row in SeedGroup(items, cfg, am) && HasVariation(row)) <==> AnyEvaluated(items, cfg, am, 1.0)
  {
    if row :| row in SeedGroup(items, cfg, am) && HasVariation(row) {
      var key := CellOfRow(items, cfg, am, row);
    }
    if key :| EvaluatedAt(items, cfg, am, 1.0, key) { RowOfKey(items, cfg, am, key); }
  }

  lemma StableIffBelow(items: seq<Item>, cfg: Config, limits: Limits, am: AnchorMetric)
    ensures AllBelow(SeedGroup(items, cfg, am), limits.cv) <==> AllStable(items, cfg, limits, am, 1.0)
  {
    if AllStable(items, cfg, limits, am, 1.0) {
      forall row | row in SeedGroup(items, cfg, am) && HasVariation(row) ensures VariationIn(row) < limits.cv {
        var key := CellOfRow(items, cfg, am, row);
      }
    }
    if AllBelow(SeedGroup(items, cfg, am), limits.cv) {
      forall key | EvaluatedAt(items, cfg, am, 1.0, key) ensures VariationAt(items, cfg, key) < limits.cv {
        RowOfKey(items, cfg, am, key);
      }
    }
  }

  /** The flag of an anchor, read off its conditions. */
  lemma SeedFlagByCells(items: seq<Item>, cfg: Config, limits: Limits, am: AnchorMetric)
    ensures SeedFlagAt(items, cfg, limits, am)
            == if !AnyEvaluated(items, cfg, am, 1.0) then Unavailable
               else if AllStable(items, cfg, limits, am, 1.0) then Yes else No
  {
    SeedFlagMeaning(SeedGroup(items, cfg, am), limits.cv);
    EvaluatedIffVaries(items, cfg, am);
    StableIffBelow(items, cfg, limits, am);
  }

  // ------------------------------------------------------------ change of unit

  lemma CellValuesScaled(items: seq<Item>, c: real, key: CellKey)
    ensures CellValues(ScaleAll(items, c), key) == Scaled(CellValues(items, key), c)
  {
    FilterMapped(items, ScaleBy(c), IsAvailable, IsAvailable);
    SelectMapped(Filter(items, IsAvailable), ScaleBy(c), CellOf, CellOf, key);
    DegradationsScaled(Select(Filter(items, IsAvailable), CellOf, key), c);
  }

  lemma EvaluatedScaled(items: seq<Item>, cfg: Config, am: AnchorMetric, c: real, key: CellKey)
    requires c > 0.0 && RankCorrelation.IsSqrt(cfg.sqrt)
    ensures EvaluatedAt(ScaleAll(items, c), cfg, am, 1.0, key) <==> EvaluatedAt(items, cfg, am, c, key)
    ensures VariationAt(ScaleAll(items, c), cfg, key) == VariationAt(items, cfg, key)
  {
    CellsScaled(items, c);
    CellValuesScaled(items, c, key);
    VariationScaled(CellValues(items, key), c, cfg.cvZero, cfg.sqrt);
  }

  /** The flag after multiplying every value by `c`, read off the conditions before. */
  lemma SeedFlagScaled(items: seq<Item>, cfg: Config, limits: Limits, am: AnchorMetric, c: real)
    requires c > 0.0 && RankCorrelation.IsSqrt(cfg.sqrt)
    ensures SeedFlagAt(ScaleAll(items, c), cfg, limits, am)
            == if !AnyEvaluated(items, cfg, am, c) then Unavailable
               else if AllStable(items, cfg, limits, am, c) then Yes else No
  {
    var items' := ScaleAll(items, c);
    SeedFlagByCells(items', cfg, limits, am);
    forall key
      ensures EvaluatedAt(items', cfg, am, 1.0, key) <==> EvaluatedAt(items, cfg, am, c, key)
      ensures VariationAt(items', cfg, key) == VariationAt(items, cfg, key)
    {
      EvaluatedScaled(items, cfg, am, c, key);
    }
  }

  lemma EvaluatedGrows(items: seq<Item>, cfg: Config, am: AnchorMetric, low: real, high: real, key: CellKey)
    requires low <= high && EvaluatedAt(items, cfg, am, low, key)
    ensures EvaluatedAt(items, cfg, am, high, key)
  {
    FactorGrows(Abs(Mean(CellValues(items, key))), low, high);
  }

  /** A condition that clears the guard at the larger of two factors alone, and is not below the threshold. */
  predicate Upsets(items: seq<Item>, cfg: Config, limits: Limits, am: AnchorMetric, low: real, high: real, key: CellKey)
  {
    EvaluatedAt(items, cfg, am, high, key) && !EvaluatedAt(items, cfg, am, low, key)
      && VariationAt(items, cfg, key) >= limits.cv
  }

  /**
    Between two factors the flag moves: none of the anchor's conditions had a variation and one gets it,
    or all that had one were below the threshold and one that gets it is not.
   */
  ghost predicate FlagMoves(items: seq<Item>, cfg: Config, limits: Limits, am: AnchorMetric, low: real, high: real) {
    if !AnyEvaluated(items, cfg, am, low) then AnyEvaluated(items, cfg, am, high)
    else AllStable(items, cfg, limits, am, low) && exists key :: Upsets(items, cfg, limits, am, low, high, key)
  }

  lemma StableGrows(items: seq<Item>, cfg: Config, limits: Limits, am: AnchorMetric, low: real, high: real)
    requires low <= high
    ensures AnyEvaluated(items, cfg, am, low) ==> AnyEvaluated(items, cfg, am, high)
    ensures AllStable(items, cfg, limits, am, high)
            <==> AllStable(items, cfg, limits, am, low) && !exists key :: Upsets(items, cfg, limits, am, low, high, key)
  {
    forall key | EvaluatedAt(items, cfg, am, low, key) ensures EvaluatedAt(items, cfg, am, high, key) {
      EvaluatedGrows(items, cfg, am, low, high, key);
    }
    if AllStable(items, cfg, limits, am, low) && !exists key :: Upsets(items, cfg, limits, am, low, high, key) {
      forall key | EvaluatedAt(items, cfg, am, high, key) ensures VariationAt(items, cfg, key) < limits.cv {
        assert !Upsets(items, cfg, limits, am, low, high, key);
      }
    }
  }

  function Smaller(c: real): real { if c < 1.0 then c else 1.0 }

  function Larger(c: real): real { if c < 1.0 then 1.0 else c }

  /** Multiplying every value by `c` changes an anchor's seed flag exactly when it moves between `c` and 1. */
  lemma SeedFlagChangesIff(items: seq<Item>, cfg: Config, limits: Limits, am: AnchorMetric, c: real)
    requires c > 0.0 && RankCorrelation.IsSqrt(cfg.sqrt)
    ensures SeedFlagAt(ScaleAll(items, c), cfg, limits, am) != SeedFlagAt(items, cfg, limits, am)
            <==> FlagMoves(items, cfg, limits, am, Smaller(c), Larger(c))
  {
    SeedFlagByCells(items, cfg, limits, am);
    SeedFlagScaled(items, cfg, limits, am, c);
    StableGrows(items, cfg, limits, am, Smaller(c), Larger(c));
  }

  // ------------------------------------------------------------------ all rows

  lemma VerdictScaled(items: seq<Item>, pairs: seq<Pair>, cfg: Config, limits: Limits, c: real, am: AnchorMetric)
    requires Resamplable(items, cfg) && c > 0.0 && RankCorrelation.IsSqrt(cfg.sqrt)
    ensures Resamplable(ScaleAll(items, c), cfg)
    ensures ScoreOfKey(EvidenceOf(ScaleAll(items, c), pairs, cfg), limits)(am)
            == ScoreOfKey(EvidenceOf(items, pairs, cfg), limits)(am)
            <==> SeedFlagAt(ScaleAll(items, c), cfg, limits, am) == SeedFlagAt(items, cfg, limits, am)
  {
    ScaleFree.EvidenceScaled(items, pairs, cfg, c);
    var ev, ev' := EvidenceOf(items, pairs, cfg), EvidenceOf(ScaleAll(items, c), pairs, cfg);
    ScaleFree.VerdictSeesErased(ev, limits, am);
    ScaleFree.VerdictSeesErased(ev', limits, am);
    SeedFlagScored(items, pairs, cfg, limits, am);
    SeedFlagScored(ScaleAll(items, c), pairs, cfg, limits, am);
    SameButSeed(ScoreOfKey(ev, limits)(am), ScoreOfKey(ev', limits)(am));
  }

  lemma SeedFlagScored(items: seq<Item>, pairs: seq<Pair>, cfg: Config, limits: Limits, am: AnchorMetric)
    requires Resamplable(items, cfg)
    ensures ScoreOfKey(EvidenceOf(items, pairs, cfg), limits)(am).seedStable == SeedFlagAt(items, cfg, limits, am)
  {
  }

  lemma SameButSeed(row: ReliabilityRow, row': ReliabilityRow)
    requires ScaleFree.WithoutSeed(row') == ScaleFree.WithoutSeed(row)
    ensures row' == row <==> row'.seedStable == row.seedStable
  {
  }

  ghost predicate VerdictKept(ev: Evidence, ev': Evidence, limits: Limits, am: AnchorMetric) {
    ScoreOfKey(ev', limits)(am) == ScoreOfKey(ev, limits)(am)
  }

  ghost predicate SameVerdicts(ev: Evidence, ev': Evidence, limits: Limits) {
    forall am {:trigger VerdictKept(ev, ev', limits, am)} :: am in ScoredKeys(ev) ==> VerdictKept(ev, ev', limits, am)
  }

  lemma RowsEqualIff(ev: Evidence, ev': Evidence, limits: Limits)
    requires ScaleFree.Erased(ev) == ScaleFree.Erased(ev')
    ensures ReliabilityRows(ev', limits) == ReliabilityRows(ev, limits) <==> SameVerdicts(ev, ev', limits)
  {
    ScaleFree.KeySetSeesErased(ev);
    ScaleFree.KeySetSeesErased(ev');
    MapsEqualIff(ScoredKeys(ev), ScoreOfKey(ev', limits), ScoreOfKey(ev, limits));
    assert SameVerdicts(ev, ev', limits)
      <==> forall am :: am in ScoredKeys(ev) ==> ScoreOfKey(ev', limits)(am) == ScoreOfKey(ev, limits)(am) by {
      assert forall am ::
        VerdictKept(ev, ev', limits, am) <==> ScoreOfKey(ev', limits)(am) == ScoreOfKey(ev, limits)(am);
    }
  }

  lemma MapsEqualIff<T(!new), U>(s: seq<T>, f: T -> U, g: T -> U)
    ensures MapSeq(s, f) == MapSeq(s, g) <==> forall x :: x in s ==> f(x) == g(x)
  {
    if MapSeq(s, f) == MapSeq(s, g) {
      forall x | x in s ensures f(x) == g(x) {
        var i :| 0 <= i < |s| && s[i] == x;
        assert MapSeq(s, f)[i] == MapSeq(s, g)[i];
      }
    }
  }

  lemma GradedVerdictKept(items: seq<Item>, pairs: seq<Pair>, cfg: Config, limits: Limits, c: real, am: AnchorMetric)
    requires Resamplable(items, cfg) && c > 0.0 && RankCorrelation.IsSqrt(cfg.sqrt)
    ensures Resamplable(ScaleAll(items, c), cfg)
    ensures am in ScoredKeys(EvidenceOf(items, pairs, cfg)) <==> Graded(items, cfg.names, am)
    ensures VerdictKept(EvidenceOf(items, pairs, cfg), EvidenceOf(ScaleAll(items, c), pairs, cfg), limits, am)
            <==> !FlagMoves(items, cfg, limits, am, Smaller(c), Larger(c))
  {
    ScoredAnchors(items, pairs, cfg, am);
    VerdictScaled(items, pairs, cfg, limits, c, am);
    SeedFlagChangesIff(items, cfg, limits, am, c);
  }

  /** No graded anchor's seed flag moves between `c` and 1. */
  ghost predicate NoFlagMoves(items: seq<Item>, cfg: Config, limits: Limits, c: real) {
    forall am :: Graded(items, cfg.names, am) ==> !FlagMoves(items, cfg, limits, am, Smaller(c), Larger(c))
  }

  lemma SameVerdictsIff(ev: Evidence, ev': Evidence, limits: Limits, items: seq<Item>, cfg: Config, c: real)
    requires forall am :: am in ScoredKeys(ev) <==> Graded(items, cfg.names, am)
    requires forall am ::
             VerdictKept(ev, ev', limits, am) <==> !FlagMoves(items, cfg, limits, am, Smaller(c), Larger(c))
    ensures SameVerdicts(ev, ev', limits) <==> NoFlagMoves(items, cfg, limits, c)
  {
  }

  /**
    The rows of the reliability table survive a change of unit, every flag included, exactly when no
    graded anchor's seed flag moves.
   */
  lemma RowsScaleFreeIff(items: seq<Item>, pairs: seq<Pair>, cfg: Config, limits: Limits, c: real)
    requires Resamplable(items, cfg) && c > 0.0 && RankCorrelation.IsSqrt(cfg.sqrt)
    ensures Resamplable(ScaleAll(items, c), cfg)
    ensures ReliabilityRows(EvidenceOf(ScaleAll(items, c), pairs, cfg), limits)
            == ReliabilityRows(EvidenceOf(items, pairs, cfg), limits)
            <==> NoFlagMoves(items, cfg, limits, c)
  {
    ScaleFree.EvidenceScaled(items, pairs, cfg, c);
    RowsEqualIff(EvidenceOf(items, pairs, cfg), EvidenceOf(ScaleAll(items, c), pairs, cfg), limits);
    forall am
      ensures am in ScoredKeys(EvidenceOf(items, pairs, cfg)) <==> Graded(items, cfg.names, am)
      ensures VerdictKept(EvidenceOf(items, pairs, cfg), EvidenceOf(ScaleAll(items, c), pairs, cfg), limits, am)
              <==> !FlagMoves(items, cfg, limits, am, Smaller(c), Larger(c))
    {
      GradedVerdictKept(items, pairs, cfg, limits, c, am);
    }
    SameVerdictsIff(EvidenceOf(items, pairs, cfg), EvidenceOf(ScaleAll(items, c), pairs, cfg), limits, items, cfg, c);
  }

  /** The zero-guard answers alike before and after for every requested condition with repeats. */
  ghost predicate GuardKept(items: seq<Item>, cfg: Config, c: real) {
    forall key :: key in CellKeys(items) && Requested(cfg.names, key.metric) ==>
      (Evaluable(CellValues(items, key), cfg.cvZero, c) <==> Evaluable(CellValues(items, key), cfg.cvZero, 1.0))
  }

  lemma GuardKeptFlagStays(items: seq<Item>, cfg: Config, limits: Limits, c: real, am: AnchorMetric)
    requires GuardKept(items, cfg, c)
    ensures !FlagMoves(items, cfg, limits, am, Smaller(c), Larger(c))
  {
    forall key ensures EvaluatedAt(items, cfg, am, c, key) <==> EvaluatedAt(items, cfg, am, 1.0, key) {}
  }

  /** Then the rows are equal, seed flag included. */
  lemma GuardKeptKeepsRows(items: seq<Item>, pairs: seq<Pair>, cfg: Config, limits: Limits, c: real)
    requires Resamplable(items, cfg) && c > 0.0 && RankCorrelation.IsSqrt(cfg.sqrt) && GuardKept(items, cfg, c)
    ensures Resamplable(ScaleAll(items, c), cfg)
    ensures ReliabilityRows(EvidenceOf(ScaleAll(items, c), pairs, cfg), limits)
            == ReliabilityRows(EvidenceOf(items, pairs, cfg), limits)
  {
    forall am
      ensures !FlagMoves(items, cfg, limits, am, Smaller(c), Larger(c))
    {
      GuardKeptFlagStays(items, cfg, limits, c, am);
    }
    RowsScaleFreeIff(items, pairs, cfg, limits, c);
  }

  // ---------------------------------------------------------------- an example

  /**
    With the default thresholds, two equal repeats of 1e-7 say nothing, and a hundred times as large
    they are stable.
   */
  lemma SeedFlagDependsOnScale(key: CellKey, sqrt: real -> real)
    requires RankCorrelation.IsSqrt(sqrt)
    ensures SeedFlag([SeedRowOf(key, [0.0000001, 0.0000001], 0.000001, sqrt)], 0.2) == Unavailable
    ensures Scaled([0.0000001, 0.0000001], 100.0) != []
    ensures SeedFlag([SeedRowOf(key, Scaled([0.0000001, 0.0000001], 100.0), 0.000001, sqrt)], 0.2) == Yes
  {
    var values := [0.0000001, 0.0000001];
    var row, row' := SeedRowOf(key, values, 0.000001, sqrt), SeedRowOf(key, [0.00001, 0.00001], 0.000001, sqrt);
    assert Scaled(values, 100.0) == [0.00001, 0.00001];
    MeanOfEqual(values);
    MeanOfEqual([0.00001, 0.00001]);
    StdZeroIffConstant([0.00001, 0.00001], sqrt);
    SeedRowMeaning(key, [0.00001, 0.00001], 0.000001, sqrt);
    assert row.cv == None && row'.cv == Some(0.0);
    SeedFlagMeaning([row], 0.2);
    SeedFlagMeaning([row'], 0.2);
    assert row' in [row'];
  }
}
