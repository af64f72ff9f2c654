/** Grades do not depend on the unit of degradation. */
module ScaleFree {
  import opened Prelude
  import opened Sums
  import opened Grouping
  import opened Mapping
  import opened AnalysisTypes
  import opened Items
  import SeedStability
  import opened ItemMeans
  import opened ControlComparison
  import opened StrategyStability
  import opened Reliability
  import opened Analysis
  import opened ScaledStatistics
  import Interval
  import RankCorrelation

  /** What everything but the seed flag reads of the evidence. */
  function Erased(ev: Evidence): Evidence {
    Evidence(MapSeq(ev.controls, EraseControl), [], MapSeq(ev.strategies, EraseStrategy),
             MapSeq(ev.intervals, EraseInterval))
  }

  function WithoutSeed(row: ReliabilityRow): ReliabilityRow { row.(seedStable := Unavailable) }

  function WithoutSeeds(ev: Evidence, limits: Limits): AnchorMetric -> ReliabilityRow {
    am => WithoutSeed(ScoreOfKey(ev, limits)(am))
  }

  lemma LastMapped<T>(rows: seq<T>, f: T -> T)
    ensures Last(MapSeq(rows, f)) == if rows == [] then None else Some(f(rows[|rows| - 1]))
  {
  }

  lemma StrategyFlagsSeen(row: Option<StrategyRow>)
    ensures row.Some? ==>
            SignFlag(Some(EraseStrategy(row.value))) == SignFlag(row)
            && MultiFlag(Some(EraseStrategy(row.value))) == MultiFlag(row)
  {
  }

  lemma StrategySeen(rows: seq<StrategyRow>, am: AnchorMetric)
    ensures var row, erased :=
            Last(Select(rows, KeyOfRow, am)), Last(Select(MapSeq(rows, EraseStrategy), KeyOfRow, am));
            SignFlag(erased) == SignFlag(row) && MultiFlag(erased) == MultiFlag(row)
  {
    SelectMapped(rows, EraseStrategy, KeyOfRow, KeyOfRow, am);
    LastMapped(Select(rows, KeyOfRow, am), EraseStrategy);
    StrategyFlagsSeen(Last(Select(rows, KeyOfRow, am)));
  }

  lemma ControlSeen(rows: seq<ControlRow>, am: AnchorMetric, z: real)
    ensures var group, erased := Select(rows, ControlKey, am), Select(MapSeq(rows, EraseControl), ControlKey, am);
            ExceedsFlag(erased, z) == ExceedsFlag(group, z) && AreaFlag(erased) == AreaFlag(group)
  {
    var group := Select(rows, ControlKey, am);
    SelectMapped(rows, EraseControl, ControlKey, ControlKey, am);
    FilterMapped(group, EraseControl, HasScore, HasScore);
    MapMapped(Filter(group, HasScore), EraseControl, ScoreOf, ScoreOf);
    FilterMapped(group, EraseControl, HasControl, HasControl);
    FilterMapped(Filter(group, HasControl), EraseControl, AreaDiffers, AreaDiffers);
  }

  lemma IntervalSeen(rows: seq<Interval.IntervalRow>, rm: RegionMetric)
    ensures CiFlag(Last(Select(MapSeq(rows, EraseInterval), IntervalKey, rm)))
            == CiFlag(Last(Select(rows, IntervalKey, rm)))
  {
    SelectMapped(rows, EraseInterval, IntervalKey, IntervalKey, rm);
    LastMapped(Select(rows, IntervalKey, rm), EraseInterval);
  }

  lemma SameFlagsSameVerdict(am: AnchorMetric, limits: Limits,
                             strategy: Option<StrategyRow>, controls: seq<ControlRow>,
                             seeds: seq<SeedStability.SeedRow>, interval: Option<Interval.IntervalRow>,
                             strategy': Option<StrategyRow>, controls': seq<ControlRow>,
                             seeds': seq<SeedStability.SeedRow>, interval': Option<Interval.IntervalRow>)
    requires SignFlag(strategy') == SignFlag(strategy) && MultiFlag(strategy') == MultiFlag(strategy)
    requires ExceedsFlag(controls', limits.z) == ExceedsFlag(controls, limits.z)
             && AreaFlag(controls') == AreaFlag(controls)
    requires CiFlag(interval') == CiFlag(interval)
    ensures WithoutSeed(Score(am, strategy', controls', seeds', interval', limits))
            == WithoutSeed(Score(am, strategy, controls, seeds, interval, limits))
  {
  }

  lemma ScoreUnfolded(ev: Evidence, limits: Limits, am: AnchorMetric)
    ensures WithoutSeeds(ev, limits)(am)
            == WithoutSeed(Score(am, Last(Select(ev.strategies, KeyOfRow, am)), Select(ev.controls, ControlKey, am),
                                 Select(ev.seeds, SeedKey, am),
                                 Last(Select(ev.intervals, IntervalKey, RegionMetric(am.anchor.region, am.metric))),
                                 limits))
  {
    assert ScoreOfKey(ev, limits)(am)
           == Score(am, Last(Select(ev.strategies, KeyOfRow, am)), Select(ev.controls, ControlKey, am),
                    Select(ev.seeds, SeedKey, am),
                    Last(Select(ev.intervals, IntervalKey, RegionMetric(am.anchor.region, am.metric))), limits);
  }

  /** Apart from the seed flag, a row's verdict is read off the erased evidence. */
  lemma VerdictSeesErased(ev: Evidence, limits: Limits, am: AnchorMetric)
    ensures WithoutSeeds(Erased(ev), limits)(am) == WithoutSeeds(ev, limits)(am)
  {
    var rm, er := RegionMetric(am.anchor.region, am.metric), Erased(ev);
    StrategySeen(ev.strategies, am);
    ControlSeen(ev.controls, am, limits.z);
    IntervalSeen(ev.intervals, rm);
    ScoreUnfolded(ev, limits, am);
    ScoreUnfolded(er, limits, am);
    SameFlagsSameVerdict(am, limits,
      Last(Select(ev.strategies, KeyOfRow, am)), Select(ev.controls, ControlKey, am), Select(ev.seeds, SeedKey, am),
      Last(Select(ev.intervals, IntervalKey, rm)),
      Last(Select(er.strategies, KeyOfRow, am)), Select(er.controls, ControlKey, am), Select(er.seeds, SeedKey, am),
      Last(Select(er.intervals, IntervalKey, rm)));
  }

  lemma KeysSeen<T(!new)>(rows: seq<T>, f: T -> T, key: T -> AnchorMetric, am: AnchorMetric)
    requires forall x :: key(f(x)) == key(x)
    ensures (exists row :: row in MapSeq(rows, f) && key(row) == am) <==> (exists row :: row in rows && key(row) == am)
  {
    forall row | row in MapSeq(rows, f) && key(row) == am ensures exists x :: x in rows && key(x) == am {
      var i :| 0 <= i < |rows| && MapSeq(rows, f)[i] == row;
      assert rows[i] in rows && key(rows[i]) == am;
    }
    forall row | row in rows && key(row) == am ensures exists x :: x in MapSeq(rows, f) && key(x) == am {
      var i :| 0 <= i < |rows| && rows[i] == row;
      assert MapSeq(rows, f)[i] in MapSeq(rows, f) && key(MapSeq(rows, f)[i]) == am;
    }
  }

  lemma KeySetSeesErased(ev: Evidence)
    ensures KeySet(Erased(ev)) == KeySet(ev)
  {
    forall am ensures am in KeySet(Erased(ev)) <==> am in KeySet(ev) {
      KeysSeen(ev.strategies, EraseStrategy, KeyOfRow, am);
      KeysSeen(ev.controls, EraseControl, ControlKey, am);
    }
  }

  /** Evidence that erases alike grades alike. */
  lemma SameErasedSameGrades(ev: Evidence, ev': Evidence, limits: Limits)
    requires Erased(ev) == Erased(ev')
    ensures MapSeq(ReliabilityRows(ev', limits), WithoutSeed) == MapSeq(ReliabilityRows(ev, limits), WithoutSeed)
  {
    KeySetSeesErased(ev);
    KeySetSeesErased(ev');
    var keys := ScoredKeys(ev);
    assert ScoredKeys(ev') == keys;
    MapMapped(keys, ScoreOfKey(ev, limits), WithoutSeed, WithoutSeeds(ev, limits));
    MapMapped(keys, ScoreOfKey(ev', limits), WithoutSeed, WithoutSeeds(ev', limits));
    forall am ensures WithoutSeeds(ev', limits)(am) == WithoutSeeds(ev, limits)(am) {
      VerdictSeesErased(ev, limits, am);
      VerdictSeesErased(ev', limits, am);
    }
    MapAgreesOn(keys, WithoutSeeds(ev', limits), WithoutSeeds(ev, limits));
  }

  lemma CellsOfScaled(items: seq<Item>, cfg: Config, c: real)
    ensures CellsOf(ScaleAll(items, c), cfg) == MapSeq(CellsOf(items, cfg), ScaleCell(c))
  {
    PopulationScaled(items, c, cfg.names);
    IntervalCellsScaled(Interval.Population(items, cfg.names), c);
  }

  lemma EvidenceScaled(items: seq<Item>, pairs: seq<Pair>, cfg: Config, c: real)
    requires Resamplable(items, cfg) && c > 0.0 && RankCorrelation.IsSqrt(cfg.sqrt)
    ensures Resamplable(ScaleAll(items, c), cfg)
    ensures Erased(EvidenceOf(ScaleAll(items, c), pairs, cfg)) == Erased(EvidenceOf(items, pairs, cfg))
  {
    ControlRowsScaled(items, c, pairs, cfg.names, cfg.control, cfg.sqrt);
    StrategyRowsScaled(items, c, cfg.names);
    CellsOfScaled(items, cfg, c);
    CellsNonEmpty(Interval.Population(items, cfg.names));
    IntervalRowsScaled(CellsOf(items, cfg), c, cfg.interval, cfg.pick);
  }

  /**
    Multiplying every degradation by one positive constant changes no grade, no key and no flag but the
    seed flag, for fixed bootstrap draws.
   */
  lemma GradesScaleFree(items: seq<Item>, pairs: seq<Pair>, cfg: Config, limits: Limits, c: real)
    requires Resamplable(items, cfg) && c > 0.0 && RankCorrelation.IsSqrt(cfg.sqrt)
    ensures Resamplable(ScaleAll(items, c), cfg)
    ensures MapSeq(ReliabilityRows(EvidenceOf(ScaleAll(items, c), pairs, cfg), limits), WithoutSeed)
            == MapSeq(ReliabilityRows(EvidenceOf(items, pairs, cfg), limits), WithoutSeed)
  {
    EvidenceScaled(items, pairs, cfg, c);
    SameErasedSameGrades(EvidenceOf(items, pairs, cfg), EvidenceOf(ScaleAll(items, c), pairs, cfg), limits);
  }
}
