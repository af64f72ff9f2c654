/** The chain of `ssat/application/_analysis_service.py`, and when it raises. */
module AnalysisChain {
  import opened Prelude
  import opened Ordering
  import opened Grouping
  import opened AnalysisTypes
  import opened Items
  import opened ItemMeans
  import opened ControlComparison
  import opened StrategyStability
  import opened Reliability
  import opened Analysis
  import opened RankCorrelation
  import opened RegionRanks
  import SeedStability
  import Interval
  import Profile = StrategyProfile
  import Clustering
  import Indexer
  import ControlMatching
  import RegionKeys
  import Sums

  /** The tables the chain hands on. */
  datatype Report = Report(
    index: Indexer.Comparison,
    rankRows: seq<RankCorrelationRow>, profile: seq<Profile.ProfileRow>, reliability: seq<ReliabilityRow>)

  /** The service leaves both zero-guards at their positive defaults and names its scope. */
  predicate Defaults(cfg: Config) {
    && cfg.control.ratioZero > 0.0 && cfg.cvZero > 0.0 && cfg.comparing.scope != ""
    && 0.0 <= cfg.interval.lowPct <= cfg.interval.highPct <= 100.0
  }

  // ------------------------------------------------------------------ its inputs

  /** One item of the dump, and one metric row of the store; `degradation` is meaningless unless `available`. */
  datatype ContextItem = ContextItem(id: string, row: Indexer.ContextRow)
  datatype MetricRow = MetricRow(id: string, metric: string, available: bool, degradation: real)

  /** A dump with the metrics computed on it. */
  datatype Run = Run(context: seq<ContextItem>, metrics: seq<MetricRow>)

  function RowIn(item: ContextItem): Indexer.ContextRow { item.row }

  function MetricId(row: MetricRow): string { row.id }

  /** `item_context`, as the indexer reads it. */
  function ContextOf(run: Run): seq<Indexer.ContextRow> { Sums.MapSeq(run.context, RowIn) }

  function JoinedWith(row: Indexer.ContextRow): MetricRow -> Item {
    (m: MetricRow) => Item(row.sample, row.region, row.invert, row.op, row.params, m.metric, row.isControl, m.available,
                           m.degradation)
  }

  /** `context.merge(metrics, on="item_id", how="inner")`: in context order, then in metric order. */
  function Join(context: seq<ContextItem>, metrics: seq<MetricRow>): seq<Item> {
    if context == [] then []
    else Sums.MapSeq(Select(metrics, MetricId, context[0].id), JoinedWith(context[0].row)) + Join(context[1..], metrics)
  }

  /** `item_values`. */
  function ItemValues(run: Run): seq<Item> { Join(run.context, run.metrics) }

  /** The item's identity comes from the dump, its measurement from the metric row with the same id. */
  predicate Joins(c: ContextItem, m: MetricRow, item: Item) {
    && c.id == m.id
    && item.sample == c.row.sample && item.region == c.row.region && item.invert == c.row.invert
    && item.op == c.row.op && item.params == c.row.params && item.isControl == c.row.isControl
    && item.metric == m.metric && item.available == m.available && item.degradation == m.degradation
  }

  /** The joined table holds exactly the pairs of an item and a metric row with one id. */
  lemma {:induction false} JoinMeaning(context: seq<ContextItem>, metrics: seq<MetricRow>, item: Item)
    ensures item in Join(context, metrics) <==> exists c, m :: c in context && m in metrics && Joins(c, m, item)
  {
    if context != [] {
      var c, rest := context[0], context[1..];
      assert context == [c] + rest;
      JoinMeaning(rest, metrics, item);
      JoinedRows(c, metrics, item);
    }
  }

  lemma JoinedRows(c: ContextItem, metrics: seq<MetricRow>, item: Item)
    ensures item in Sums.MapSeq(Select(metrics, MetricId, c.id), JoinedWith(c.row))
            <==> exists m :: m in metrics && Joins(c, m, item)
  {
    var mine := Select(metrics, MetricId, c.id);
    var rows := Sums.MapSeq(mine, JoinedWith(c.row));
    SelectMembers(metrics, MetricId, c.id);
    if item in rows {
      var i :| 0 <= i < |rows| && rows[i] == item;
      assert mine[i] in mine;
      assert Joins(c, mine[i], item);
    }
    if m :| m in metrics && Joins(c, m, item) {
      var i :| 0 <= i < |mine| && mine[i] == m;
      assert rows[i] == item;
    }
  }

  function HasId(id: string): MetricRow -> bool { (m: MetricRow) => m.id == id }

  lemma {:induction false} RowsOfId(metrics: seq<MetricRow>, id: string)
    ensures Select(metrics, MetricId, id) == Filter(metrics, HasId(id))
  {
    if metrics != [] { RowsOfId(metrics[1..], id); }
  }

  /** In dump order, and for one item in metric order, repetitions included. */
  lemma {:induction false} JoinOrder(front: seq<ContextItem>, c: ContextItem, metrics: seq<MetricRow>)
    returns (own: seq<Item>, mine: seq<MetricRow>)
    ensures Join(front + [c], metrics) == Join(front, metrics) + own
    ensures mine == Filter(metrics, HasId(c.id))
    ensures |own| == |mine| && forall i :: 0 <= i < |own| ==> Joins(c, mine[i], own[i])
  {
    if front == [] {
      mine, own := Filter(metrics, HasId(c.id)), Sums.MapSeq(Select(metrics, MetricId, c.id), JoinedWith(c.row));
      assert (front + [c])[1..] == [];
      RowsOfId(metrics, c.id);
      FilterMembers(metrics, HasId(c.id));
      forall i | 0 <= i < |mine| ensures Joins(c, mine[i], own[i]) { assert mine[i] in mine; }
    } else {
      own, mine := JoinOrder(front[1..], c, metrics);
      assert (front + [c])[1..] == front[1..] + [c];
    }
  }

  // ------------------------------------------------------------- when it raises

  predicate CellsNamed(items: seq<Item>, names: Option<set<string>>) {
    forall i :: 0 <= i < |CellKeys(items)| ==> Requested(names, CellKeys(items)[i].metric) ==>
      CellKeys(items)[i].metric != ""
  }

  /** An operator with a two-stage mean at some eligible anchor on the primary metric. */
  ghost predicate OpObserved(items: seq<Item>, cfg: Config, op: string) {
    exists anchor: AnchorKey :: Eligible(items, cfg.names, AnchorMetric(anchor, cfg.comparing.primary))
                                && ValueAt(items, AnchorMetric(anchor, cfg.comparing.primary), op).Some?
  }

  /** Every name is there, every operator observed on the primary metric is a known one, and resampling can be done. */
  ghost predicate Computable(items: seq<Item>, cfg: Config) {
    && KeysNamed(items) && CellsNamed(items, cfg.names) && Resamplable(items, cfg)
    && forall op :: OpObserved(items, cfg, op) ==> Profile.ParseOp(op).Some?
  }

  lemma CellNamed(items: seq<Item>, names: Option<set<string>>, key: CellKey)
    requires CellsNamed(items, names) && key in CellKeys(items) && Requested(names, key.metric)
    ensures key.metric != ""
  {
    var i :| 0 <= i < |CellKeys(items)| && CellKeys(items)[i] == key;
    assert Requested(names, CellKeys(items)[i].metric);
  }

  lemma CellOrigin(items: seq<Item>, key: CellKey) returns (item: Item)
    requires key in CellKeys(items)
    ensures item in items && item.available && CellOf(item) == key
  {
    KeysAreGroups(Filter(items, IsAvailable), CellOf);
    item :| item in Filter(items, IsAvailable) && CellOf(item) == key;
    FilterMembers(items, IsAvailable);
  }

  lemma OpOrigin(items: seq<Item>, key: OpKey) returns (cell: CellKey)
    requires OpMean(items)(key).Some?
    ensures cell in CellKeys(items) && OpOf(cell) == key
  {
    MeansExist(items);
    KeysAreGroups(CellKeys(items), OpOf);
    cell :| cell in CellKeys(items) && OpOf(cell) == key;
  }

  /** The seed stage raises exactly over a missing name; what it lets through, the comparison lets through too. */
  lemma NamesDecide(items: seq<Item>, pairs: seq<Pair>, cfg: Config)
    requires Defaults(cfg)
    ensures SeedStability.Repeatable(items, cfg.names, cfg.cvZero) <==> KeysNamed(items) && CellsNamed(items, cfg.names)
    ensures KeysNamed(items) && CellsNamed(items, cfg.names) ==> Comparable(items, pairs, cfg.names, cfg.control)
  {
    var keys := CellKeys(items);
    forall k | k in keys && Requested(cfg.names, k.metric) && CellsNamed(items, cfg.names) ensures k.metric != "" {
      CellNamed(items, cfg.names, k);
    }
    if SeedStability.Repeatable(items, cfg.names, cfg.cvZero) {
      forall i | 0 <= i < |keys| && Requested(cfg.names, keys[i].metric) ensures keys[i].metric != "" {
        assert keys[i] in keys && SeedStability.WantedCell(cfg.names)(keys[i]);
        assert !SeedStability.SeedRaisesAt(items, cfg.cvZero)(keys[i]);
      }
    }
  }

  lemma StrategiesNamed(items: seq<Item>, names: Option<set<string>>)
    requires CellsNamed(items, names)
    ensures MetricsNamed(StrategyKeys(items, names))
  {
    var keys := StrategyKeys(items, names);
    forall i | 0 <= i < |keys| ensures keys[i].metric != "" {
      assert keys[i] in keys;
      StrategyKeyMeaning(items, names, keys[i]);
      var op :| ValueAt(items, keys[i], op).Some?;
      var cell := OpOrigin(items, OpKey(keys[i].anchor, op, keys[i].metric));
      CellNamed(items, names, cell);
    }
  }

  lemma RankedNamed(items: seq<Item>, metric: string)
    requires KeysNamed(items)
    ensures "" !in ValuesOfItems(items, metric)
  {
    var values := ValuesOfItems(items, metric);
    ValuesOfItemsMeaning(items, metric);
    RankedOperators(values, items, metric, "");
    forall key: OpKey | OpMean(items)(key).Some? ensures key.op != "" {
      var cell := OpOrigin(items, key);
      var item := CellOrigin(items, cell);
      var i :| 0 <= i < |items| && items[i] == item;
      assert ConditionNamed(items[i]);
    }
  }

  lemma IntervalsNamed(items: seq<Item>, cfg: Config)
    requires KeysNamed(items) && CellsNamed(items, cfg.names)
    ensures var cells := CellsOf(items, cfg); forall g :: 0 <= g < |cells| ==> Interval.Named(cells[g].key)
  {
    var rows := Interval.Population(items, cfg.names);
    var cells := CellsOf(items, cfg);
    forall g | 0 <= g < |cells| ensures Interval.Named(cells[g].key) {
      assert cells[g] in cells;
      var item := IntervalOrigin(rows, cells[g]);
      FilterMembers(Filter(items, IsUsable), Interval.Wanted(cfg.names));
      FilterMembers(items, IsUsable);
      var i :| 0 <= i < |items| && items[i] == item;
      assert AnchorNamed(items[i]);
      AvailableCell(items, item);
      CellNamed(items, cfg.names, CellOf(item));
    }
  }

  lemma AvailableCell(items: seq<Item>, item: Item)
    requires item in items && item.available
    ensures CellOf(item) in CellKeys(items)
  {
    FilterMembers(items, IsAvailable);
    KeysAreGroups(Filter(items, IsAvailable), CellOf);
    assert item in Filter(items, IsAvailable);
  }

  lemma IntervalOrigin(rows: seq<Item>, cell: Interval.Cell) returns (item: Item)
    requires cell in Interval.Cells(rows)
    ensures item in rows && item.region == cell.key.region && item.metric == cell.key.metric
  {
    Interval.CellValues(rows, cell);
    var pairs := Interval.PerSampleMeans(rows);
    var chosen := Select(pairs, Interval.PairRegion, cell.key);
    assert chosen != [];
    SelectMembers(pairs, Interval.PairRegion, cell.key);
    var pair := chosen[0];
    assert pair in chosen;
    var keys := Keys(rows, SampleKeyOf);
    var i :| 0 <= i < |keys| && pairs[i] == pair;
    assert keys[i] in keys;
    KeysAreGroups(rows, SampleKeyOf);
    item :| item in rows && SampleKeyOf(item) == keys[i];
  }

  // ----------------------------------------------------------- observed operators

  lemma ObservedMeaning(items: seq<Item>, cfg: Config, op: string)
    ensures Profile.Observed(StrategyRows(items, cfg.names), cfg.comparing.primary, op) <==> OpObserved(items, cfg, op)
  {
    var rows, metric := StrategyRows(items, cfg.names), cfg.comparing.primary;
    if Profile.Observed(rows, metric, op) {
      var row :| row in rows && row.metric == metric && op in row.values;
      StrategyRowIn(items, cfg.names, row);
      var am := KeyOfRow(row);
      StrategyKeyMeaning(items, cfg.names, am);
      RowValues(items, cfg.names, am, op);
      assert am == AnchorMetric(row.anchor, metric);
    }
    forall anchor: AnchorKey | Eligible(items, cfg.names, AnchorMetric(anchor, metric))
      && ValueAt(items, AnchorMetric(anchor, metric), op).Some?
      ensures Profile.Observed(rows, metric, op)
    {
      var am := AnchorMetric(anchor, metric);
      StrategyKeyMeaning(items, cfg.names, am);
      StrategyRowKeys(items, cfg.names, am);
      var row :| row in rows && KeyOfRow(row) == am;
      StrategyRowIn(items, cfg.names, row);
      RowValues(items, cfg.names, am, op);
    }
  }

  lemma StrategyRowIn(items: seq<Item>, names: Option<set<string>>, row: StrategyRow)
    requires row in StrategyRows(items, names)
    ensures KeyOfRow(row) in StrategyKeys(items, names) && row == StrategyRowOf(items, names)(KeyOfRow(row))
  {
    var keys := SortBy(StrategyKeys(items, names), AnchorMetricLe);
    StrategyRowsSorted(items, names);
    SortMembers(StrategyKeys(items, names), AnchorMetricLe);
    var i :| 0 <= i < |keys| && StrategyRows(items, names)[i] == row;
    assert keys[i] in keys && KeyOfRow(row) == keys[i];
  }

  // ------------------------------------------------------------------- the chain

  ghost function RankRowsIn(items: seq<Item>, cfg: Config): seq<RankCorrelationRow> {
    RankRowsOf(items, cfg.comparing.primary, cfg.comparing.rankTopK, cfg.comparing.scope, cfg.sqrt)
  }

  /** The profile of the observed operators, clustered by the rank correlations of the same items. */
  ghost predicate IsProfile(profile: seq<Profile.ProfileRow>, given: Profile.Inputs, items: seq<Item>, cfg: Config) {
    && given.rows == StrategyRows(items, cfg.names) && given.metric == cfg.comparing.primary
       && given.topK == cfg.comparing.profileTopK
    && Sorted(given.ops, StrLe) && Distinct(given.ops) && (forall op :: op in given.ops <==> OpObserved(items, cfg, op))
    && Profile.IsLookup(given.lookup, RankRowsIn(items, cfg))
    && Profile.IsOpClustering(given.ops, given.lookup, cfg.comparing.clusterThreshold, given.ids)
    && given.Complete() && Profile.AreProfileRows(profile, |given.ops|, given) && Profile.AllProfilesAccepted(profile)
  }

  /** `compute_strategy_stability`: both tables, over the same two-stage means. */
  method ComputeStrategyStability(items: seq<Item>, cfg: Config)
    returns (result: Result<(seq<StrategyRow>, seq<RankCorrelationRow>), Failure>)
    requires IsSqrt(cfg.sqrt)
    ensures var values := ValuesOfItems(items, cfg.comparing.primary);
            result.Ok? <==> AnchorsNamed(items) && MetricsNamed(StrategyKeys(items, cfg.names))
                            && (|values| < 2 || (cfg.comparing.scope != "" && "" !in values))
    ensures result.Ok? ==>
            result.value == (StrategyRows(items, cfg.names), RankRowsIn(items, cfg))
            && AllRanked(result.value.1)
  {
    var strategies := PerAnchorStrategyRows(items, cfg.names);
    if strategies.Err? { return Err(strategies.error); }
    var ranks := RankRowsOfItems(items, cfg.comparing.primary, cfg.comparing.rankTopK, cfg.comparing.scope, cfg.sqrt);
    if ranks.Err? { return Err(ranks.error); }
    RankRowsAccepted(RankingOf(items, cfg.comparing.primary, cfg.comparing.rankTopK, cfg.comparing.scope, cfg.sqrt));
    result := Ok((strategies.value, ranks.value));
  }

  /** The operator profile of the items: it raises exactly over an unknown operator. */
  method ProfileOf(items: seq<Item>, cfg: Config, strategies: seq<StrategyRow>, ranks: seq<RankCorrelationRow>)
    returns (result: Result<seq<Profile.ProfileRow>, Failure>, ghost given: Profile.Inputs)
    requires strategies == StrategyRows(items, cfg.names) && ranks == RankRowsIn(items, cfg) && AllRanked(ranks)
    ensures result.Ok? <==> forall op :: OpObserved(items, cfg, op) ==> Profile.ParseOp(op).Some?
    ensures result.Ok? ==> IsProfile(result.value, given, items, cfg)
  {
    var profile, inputs := Profile.ComputeStrategyProfile(strategies, ranks, cfg.comparing.primary,
                                                          cfg.comparing.clusterThreshold, cfg.comparing.profileTopK);
    given := inputs;
    forall op ensures op in given.ops <==> OpObserved(items, cfg, op) { ObservedMeaning(items, cfg, op); }
    result := if profile.Err? then Err(UnknownOperator(profile.error)) else Ok(profile.value);
  }

  lemma IntervalsPass(items: seq<Item>, cfg: Config)
    requires Defaults(cfg) && KeysNamed(items) && CellsNamed(items, cfg.names) && Resamplable(items, cfg)
    requires Interval.NonEmpty(CellsOf(items, cfg))
    ensures Interval.AllAccepted(Interval.IntervalRows(CellsOf(items, cfg), cfg.interval, cfg.pick))
  {
    IntervalsNamed(items, cfg);
    Interval.IntervalsAcceptedIff(CellsOf(items, cfg), cfg.interval, cfg.pick);
  }

  method IntervalsOf(items: seq<Item>, cfg: Config) returns (result: Result<seq<Interval.IntervalRow>, Failure>)
    requires Defaults(cfg) && KeysNamed(items) && CellsNamed(items, cfg.names)
    ensures Interval.NonEmpty(CellsOf(items, cfg)) && (result.Ok? <==> Resamplable(items, cfg))
    ensures result.Ok? ==> result.value == Interval.IntervalRows(CellsOf(items, cfg), cfg.interval, cfg.pick)
  {
    CellsNonEmpty(Interval.Population(items, cfg.names));
    if Resamplable(items, cfg) { IntervalsPass(items, cfg); }
    result := Interval.ComputeIntervals(items, cfg.names, cfg.interval, cfg.pick);
  }

  /** The statistics of the chain: they succeed exactly on a computable table. */
  method Statistics(items: seq<Item>, index: Indexer.Comparison, cfg: Config, limits: Limits)
    returns (result: Result<Report, Failure>, ghost given: Profile.Inputs)
    requires Defaults(cfg) && IsSqrt(cfg.sqrt)
    ensures result.Ok? <==> Computable(items, cfg)
    ensures result.Ok? ==> result.value.index == index
    ensures result.Ok? ==> result.value.reliability == ReliabilityRows(EvidenceOf(items, index.pairs, cfg), limits)
    ensures result.Ok? ==>
            result.value.rankRows == RankRowsIn(items, cfg)
            && IsProfile(result.value.profile, given, items, cfg)
  {
    given := Profile.Inputs([], map[], map[], [], "", 0);
    NamesDecide(items, index.pairs, cfg);
    var controls := CompareToControls(items, index.pairs, cfg.names, cfg.control, cfg.sqrt);
    if controls.Err? { return Err(controls.error), given; }
    var seeds := SeedStability.ComputeSeedStability(items, cfg.names, cfg.cvZero, cfg.sqrt);
    if seeds.Err? { return Err(seeds.error), given; }
    StrategiesNamed(items, cfg.names);
    RankedNamed(items, cfg.comparing.primary);
    var stability := ComputeStrategyStability(items, cfg);
    var profile;
    profile, given := ProfileOf(items, cfg, stability.value.0, stability.value.1);
    if profile.Err? { return Err(profile.error), given; }
    var intervals := IntervalsOf(items, cfg);
    if intervals.Err? { return Err(intervals.error), given; }
    var rows := ComputeReliability(Evidence(controls.value, seeds.value, stability.value.0, intervals.value), limits);
    result := Ok(Report(index, stability.value.1, profile.value, rows));
  }

  /** What a run needs to be analysed: a metric row at all, a sound context, and a computable joined table. */
  ghost predicate Analysable(run: Run, cfg: Config) {
    run.metrics != [] && Indexer.Indexable(ContextOf(run)) && Computable(ItemValues(run), cfg)
  }

  /** `analyze`: the joined table, the index of the same context, and the statistics of both. */
  method Analyse(run: Run, cfg: Config, limits: Limits)
    returns (result: Result<Report, Failure>, ghost given: Profile.Inputs)
    requires Defaults(cfg) && IsSqrt(cfg.sqrt)
    ensures result.Ok? <==> Analysable(run, cfg)
    ensures result.Ok? ==> Indexer.IsIndex(result.value.index, ContextOf(run), cfg.control.areaTolerance)
    ensures result.Ok? ==>
              result.value.reliability == ReliabilityRows(EvidenceOf(ItemValues(run), result.value.index.pairs, cfg),
                                                          limits)
    ensures result.Ok? ==>
              result.value.rankRows == RankRowsIn(ItemValues(run), cfg)
                && IsProfile(result.value.profile, given, ItemValues(run), cfg)
  {
    given := Profile.Inputs([], map[], map[], [], "", 0);
    if run.metrics == [] { return Err(NoMetricRows), given; }
    var index, _, _ := Indexer.BuildIndex(ContextOf(run), cfg.control.areaTolerance);
    if index.Err? { return Err(index.error), given; }
    result, given := Statistics(ItemValues(run), index.value, cfg, limits);
  }

  // ------------------------------------------------------------ what it promises

  /** End to end: across clusters, agreement stays strictly below the cluster threshold for every operator. */
  lemma AcrossBelowEndToEnd(profile: seq<Profile.ProfileRow>, given: Profile.Inputs, items: seq<Item>, cfg: Config)
    requires IsProfile(profile, given, items, cfg)
    ensures forall i :: 0 <= i < |profile| && profile[i].meanCorrAcross.Some? ==>
            profile[i].meanCorrAcross.value < cfg.comparing.clusterThreshold
  {
    RankRowsOrdered(RankingOf(items, cfg.comparing.primary, cfg.comparing.rankTopK, cfg.comparing.scope, cfg.sqrt));
    Profile.OrderedRowsGiveOneOrder(RankRowsIn(items, cfg), given.lookup);
    Profile.OneOrderSameSide(Clustering.Graph(given.ops, given.lookup, cfg.comparing.clusterThreshold));
    forall i | 0 <= i < |profile|
      ensures profile[i].meanCorrAcross.Some? ==> profile[i].meanCorrAcross.value < cfg.comparing.clusterThreshold
    {
      assert Profile.IsProfileRow(profile[i], given.ops[i], given);
      Profile.ProfileAcrossBelow(profile[i], given.ops[i], given, cfg.comparing.clusterThreshold);
    }
  }

  /** End to end: all rows are ALIGNED exactly when the declared partition is the partition into components. */
  lemma AllAlignedEndToEnd(profile: seq<Profile.ProfileRow>, given: Profile.Inputs, items: seq<Item>, cfg: Config)
    requires IsProfile(profile, given, items, cfg)
    ensures (forall i :: 0 <= i < |profile| ==> profile[i].alignment == Profile.Aligned)
            <==> Profile.PartitionsAgree(Clustering.Graph(given.ops, given.lookup, cfg.comparing.clusterThreshold),
                                         Profile.DeclaredGroups(given.ops))
  {
    Profile.RowsAlignedIff(profile, given, cfg.comparing.clusterThreshold);
  }

  /** The indexer asks for every name the statistics ask of an item. */
  lemma IndexableItemsNamed(run: Run)
    requires Indexer.Indexable(ContextOf(run))
    ensures KeysNamed(ItemValues(run))
  {
    var context, items := ContextOf(run), ItemValues(run);
    forall i | 0 <= i < |items| ensures AnchorNamed(items[i]) && ConditionNamed(items[i]) {
      JoinMeaning(run.context, run.metrics, items[i]);
      var c, m :| c in run.context && m in run.metrics && Joins(c, m, items[i]);
      var k :| 0 <= k < |run.context| && run.context[k] == c;
      assert context[k] == c.row;
      ContextRowNamed(context, c.row);
    }
  }

  lemma GroupNamed(context: seq<Indexer.ContextRow>, anchor: AnchorKey)
    requires Indexer.NoneFails(context, Keys(context, Indexer.AnchorOf)) && anchor in Keys(context, Indexer.AnchorOf)
    ensures Indexer.ConditionsNamed(Select(context, Indexer.AnchorOf, anchor))
  {
    var order := Keys(context, Indexer.AnchorOf);
    var i :| 0 <= i < |order| && order[i] == anchor;
    assert Indexer.FailureAt(context)(order[i]) == None;
  }

  lemma ContextRowNamed(context: seq<Indexer.ContextRow>, row: Indexer.ContextRow)
    requires Indexer.NoneFails(context, Keys(context, Indexer.AnchorOf)) && row in context
    ensures row.op != "" && row.params != ""
  {
    RowInGroup(context, Indexer.AnchorOf, row);
    GroupNamed(context, Indexer.AnchorOf(row));
    NamedRow(Select(context, Indexer.AnchorOf, Indexer.AnchorOf(row)), row);
  }

  lemma NamedRow(rows: seq<Indexer.ContextRow>, row: Indexer.ContextRow)
    requires Indexer.ConditionsNamed(rows) && row in rows
    ensures row.op != "" && row.params != ""
  {
  }

  /** One available target item with an operator outside the five stops the whole analysis. */
  lemma UnknownOperatorStops(items: seq<Item>, cfg: Config, item: Item)
    requires item in items && item.available && item.metric == cfg.comparing.primary
             && Requested(cfg.names, item.metric)
    requires !IsControlAnchor(items)(AnchorOf(item)) && Profile.ParseOp(item.op).None?
    ensures !Computable(items, cfg)
  {
    var am := AnchorMetric(AnchorOf(item), item.metric);
    AvailableCell(items, item);
    MeansExist(items);
    KeysAreGroups(CellKeys(items), OpOf);
    assert OpOf(CellOf(item)) in OpKeys(items);
    assert Eligible(items, cfg.names, am) && ValueAt(items, am, item.op).Some?;
    assert OpObserved(items, cfg, item.op);
  }

  /** For instance a table of one item, filled with an unknown strategy. */
  lemma UnknownOperatorExample(cfg: Config)
    requires cfg.comparing.primary == "margin_drop" && cfg.names == None
    ensures !Computable([Item("s", "r::0", false, "no_such_fill", "p", "margin_drop", false, true, 1.0)], cfg)
  {
    var item := Item("s", "r::0", false, "no_such_fill", "p", "margin_drop", false, true, 1.0);
    SelectCons(item, [], AnchorOf, AnchorOf(item));
    assert [item] + [] == [item];
    assert item in [item];
    UnknownOperatorStops([item], cfg, item);
  }

  /** One blurred control item whose reference names its own region, with one metric row. */
  function SelfNamingRow(): Indexer.ContextRow {
    var target := ControlMatching.JObject(map["region_id" := ControlMatching.JString("c"),
                                              "region_instance_id" := ControlMatching.JString("0")]);
    Indexer.ContextRow("s", "c::0", "k", None, None, false, "blur", "p", true,
                       Some(ControlMatching.JObject(map["target_region" := target])))
  }

  function SelfNamingRun(): Run { Run([ContextItem("i", SelfNamingRow())], [MetricRow("i", "margin_drop", true, 1.0)]) }

  lemma SelfNamingIndexed()
    ensures var context := ContextOf(SelfNamingRun());
            && Indexer.RowsNamed(context) && Indexer.GeometryAgrees(context)
            && Indexer.NoneFails(context, Keys(context, Indexer.AnchorOf)) && Indexer.SomeNamesItself(context)
  {
    var row, context := SelfNamingRow(), ContextOf(SelfNamingRun());
    var anchor := Indexer.AnchorOf(row);
    assert context == [row];
    assert Sums.MapSeq(context, Indexer.GeoOf) == [Indexer.GeoOf(row)];
    assert Keys(context, Indexer.AnchorOf) == [anchor] by { assert context[..0] == []; }
    SelectCons(row, [], Indexer.AnchorOf, anchor);
    assert [row] + [] == [row];
    assert Select(context, Indexer.AnchorOf, anchor) == [row];
    assert Indexer.IntendedAreas([row]) == [None] && Indexer.EffectiveAreas([row]) == [None];
    assert Indexer.MeanArea([None]) == None;
    assert Indexer.AnchorFailure([row]) == None;
    assert Indexer.FailureAt(context)(anchor) == None;
    SelfNamingReference();
    assert anchor in Keys(context, Indexer.AnchorOf) && Indexer.SelfNaming(context, anchor);
  }

  lemma SelfNamingReference()
    ensures ControlMatching.TargetRegion(SelfNamingRow().regionParams) == Some("c::0")
  {
    assert RegionKeys.RegionKey("c", "0") == "c::0";
  }

  lemma SelfNamingComputable(cfg: Config)
    ensures Computable(ItemValues(SelfNamingRun()), cfg)
  {
    var run, items := SelfNamingRun(), ItemValues(SelfNamingRun());
    var item := JoinedWith(SelfNamingRow())(run.metrics[0]);
    SelectCons(run.metrics[0], [], MetricId, "i");
    assert run.metrics == [run.metrics[0]] + [];
    assert Sums.MapSeq([run.metrics[0]], JoinedWith(SelfNamingRow())) == [item];
    assert items == [item] + [];
    LoneControlComputable(item, cfg);
  }

  lemma LoneControlComputable(item: Item, cfg: Config)
    requires item.isControl && AnchorNamed(item) && ConditionNamed(item) && item.metric != ""
    ensures Computable([item], cfg)
  {
    var items := [item];
    forall i | 0 <= i < |CellKeys(items)| ensures CellKeys(items)[i].metric != "" {
      var origin := CellOrigin(items, CellKeys(items)[i]);
    }
    FilterCons(item, [], IsUsable);
    assert items == [item] + [];
    assert Interval.Population(items, cfg.names) == [];
    SelectCons(item, [], AnchorOf, AnchorOf(item));
    forall op, anchor | ValueAt(items, AnchorMetric(anchor, cfg.comparing.primary), op).Some?
      ensures IsControlAnchor(items)(anchor)
    {
      var cell := OpOrigin(items, OpKey(anchor, op, cfg.comparing.primary));
      var origin := CellOrigin(items, cell);
    }
  }

  /**
    The statistics would accept it, and names, geometry and flags are in order; the self-reference
    alone stops the chain.
   */
  lemma SelfNamingStops(cfg: Config)
    ensures var run := SelfNamingRun();
            && Computable(ItemValues(run), cfg)
            && Indexer.RowsNamed(ContextOf(run)) && Indexer.GeometryAgrees(ContextOf(run))
            && Indexer.NoneFails(ContextOf(run), Keys(ContextOf(run), Indexer.AnchorOf))
            && Indexer.SomeNamesItself(ContextOf(run)) && !Analysable(run, cfg)
  {
    SelfNamingIndexed();
    SelfNamingComputable(cfg);
  }
}
