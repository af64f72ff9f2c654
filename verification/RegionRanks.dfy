/**
  Pooling operator means into region values: the first half of `_rank_correlation_rows` of
  `ssat/analysis/stability.py`.
 */
module RegionRanks {
  import opened Prelude
  import opened Ordering
  import opened Sums
  import opened Grouping
  import opened AnalysisTypes
  import opened Items
  import opened Aggregate
  import opened ItemMeans
  import opened RankCorrelation

  datatype OpRegion = OpRegion(op: string, region: string)

  function PlaceOf(key: OpKey): OpRegion { OpRegion(key.op, key.anchor.region) }

  /** Target anchors on the primary metric. */
  function Primary(items: seq<Item>, metric: string): OpKey -> bool {
    (key: OpKey) => key.metric == metric && !IsControlAnchor(items)(key.anchor)
  }

  /** The anchor values one operator contributes to one region. */
  function PooledValues(items: seq<Item>, metric: string, place: OpRegion): seq<real> {
    MapSeq(Select(Filter(OpKeys(items), Primary(items, metric)), PlaceOf, place), OpValue(items))
  }

  type Pools = map<string, map<string, seq<real>>>

  /** `pools[op][region]`, of nested `defaultdict`s. */
  function PoolAt(pools: Pools, place: OpRegion): seq<real> {
    if place.op in pools && place.region in pools[place.op] then pools[place.op][place.region] else []
  }

  ghost predicate NoEmptyPools(pools: Pools) {
    forall op :: op in pools ==> pools[op] != map[] && forall region :: region in pools[op] ==> pools[op][region] != []
  }

  /** `pools[op][region].append(value)`. */
  function Append(pools: Pools, place: OpRegion, value: real): Pools {
    var inner := if place.op in pools then pools[place.op] else map[];
    pools[place.op := inner[place.region := PoolAt(pools, place) + [value]]]
  }

  lemma AppendMeaning(pools: Pools, place: OpRegion, value: real, other: OpRegion)
    ensures PoolAt(Append(pools, place, value), other) == PoolAt(pools, other)
            + (if other == place then [value] else [])
  {
  }

  lemma AppendKeepsNonEmpty(pools: Pools, place: OpRegion, value: real)
    requires NoEmptyPools(pools)
    ensures NoEmptyPools(Append(pools, place, value))
  {
    var more := Append(pools, place, value);
    forall op | op in more ensures more[op] != map[] && forall region :: region in more[op] ==> more[op][region] != [] {
      if op == place.op { assert place.region in more[op]; }
    }
  }

  ghost predicate Pooled(pools: Pools, keys: seq<OpKey>, value: OpKey -> real) {
    && NoEmptyPools(pools)
    && forall place {:trigger PoolAt(pools, place)} ::
       PoolAt(pools, place) == MapSeq(Select(keys, PlaceOf, place), value)
  }

  lemma PoolOneMore(pools: Pools, keys: seq<OpKey>, key: OpKey, value: OpKey -> real)
    requires Pooled(pools, keys, value)
    ensures Pooled(Append(pools, PlaceOf(key), value(key)), keys + [key], value)
  {
    AppendKeepsNonEmpty(pools, PlaceOf(key), value(key));
    forall place
      ensures PoolAt(Append(pools, PlaceOf(key), value(key)), place)
              == MapSeq(Select(keys + [key], PlaceOf, place), value)
    {
      AppendMeaning(pools, PlaceOf(key), value(key), place);
      SelectAppend(keys, [key], PlaceOf, place);
      MapAppend(Select(keys, PlaceOf, place), Select([key], PlaceOf, place), value);
      assert PoolAt(pools, place) == MapSeq(Select(keys, PlaceOf, place), value);
    }
  }

  lemma PoolStep(pools: Pools, order: seq<OpKey>, i: nat, kept: OpKey -> bool, value: OpKey -> real)
    requires i < |order| && Pooled(pools, Filter(order[..i], kept), value)
    ensures Pooled(if kept(order[i]) then Append(pools, PlaceOf(order[i]), value(order[i]))
                   else pools, Filter(order[..i + 1], kept), value)
  {
    assert order[..i + 1] == order[..i] + [order[i]];
    FilterAppend(order[..i], [order[i]], kept);
    assert Filter([order[i]], kept) == if kept(order[i]) then [order[i]] else [];
    if kept(order[i]) {
      PoolOneMore(pools, Filter(order[..i], kept), order[i], value);
    } else {
      assert Filter(order[..i], kept) + [] == Filter(order[..i], kept);
    }
  }

  method PoolValues(order: seq<OpKey>, means: map<OpKey, real>, controls: map<AnchorKey, bool>, metric: string,
                    ghost kept: OpKey -> bool, ghost value: OpKey -> real)
    returns (pools: Pools)
    requires forall key :: key in order ==> value(key) == ValueOr0(Get(means, key))
    requires forall key: OpKey :: kept(key) == (key.metric == metric && !Flagged(controls, key.anchor))
    ensures Pooled(pools, Filter(order, kept), value)
  {
    pools := map[];
    for i := 0 to |order|
      invariant Pooled(pools, Filter(order[..i], kept), value)
    {
      var key := order[i];
      assert key in order;
      PoolStep(pools, order, i, kept, value);
      if key.metric == metric && !Flagged(controls, key.anchor) {
        pools := Append(pools, PlaceOf(key), ValueOr0(Get(means, key)));
      }
    }
    assert order[..|order|] == order;
  }

  function RegionValue(values: ValuesByOp, place: OpRegion): Option<real> {
    if place.op in values && place.region in values[place.op] then Some(values[place.op][place.region]) else None
  }

  /** Operators and regions with at least one target anchor value, each region with the mean over its anchors. */
  ghost predicate RegionMeans(values: ValuesByOp, items: seq<Item>, metric: string) {
    && (forall op :: op in values ==> values[op] != map[])
    && forall place {:trigger RegionValue(values, place)} ::
       RegionValue(values, place) == MeanOrNone(PooledValues(items, metric, place))
  }

  lemma PoolsMeaning(pools: Pools, values: ValuesByOp, items: seq<Item>, metric: string)
    requires Pooled(pools, Filter(OpKeys(items), Primary(items, metric)), OpValue(items))
    requires values.Keys == pools.Keys
    requires forall op :: op in pools ==> values[op].Keys == pools[op].Keys
    requires forall op, region :: op in pools && region in pools[op] ==>
             pools[op][region] != [] && values[op][region] == Mean(pools[op][region])
    ensures RegionMeans(values, items, metric)
  {
    forall op | op in values ensures values[op] != map[] {
      var region :| region in pools[op];
      assert region in values[op];
    }
    forall place ensures RegionValue(values, place) == MeanOrNone(PooledValues(items, metric, place)) {
      assert PoolAt(pools, place) == PooledValues(items, metric, place);
    }
  }

  method MeansOfPools(pools: Pools, ghost items: seq<Item>, ghost metric: string) returns (values: ValuesByOp)
    requires Pooled(pools, Filter(OpKeys(items), Primary(items, metric)), OpValue(items))
    ensures values == ValuesOfItems(items, metric) && RegionMeans(values, items, metric)
  {
    values := map op | op in pools :: map region | region in pools[op] :: Mean(pools[op][region]);
    PoolsMeaning(pools, values, items, metric);
    ValuesOfItemsMeaning(items, metric);
    RegionMeansUnique(values, ValuesOfItems(items, metric), items, metric);
  }

  function RankedOps(keys: seq<OpKey>): set<string> { set key | key in keys :: key.op }

  function RankedRegions(keys: seq<OpKey>, op: string): set<string> {
    set key | key in keys && key.op == op :: key.anchor.region
  }

  /** `region_value_by_op`, as a function of the items. */
  function ValuesOfItems(items: seq<Item>, metric: string): ValuesByOp {
    var kept := Filter(OpKeys(items), Primary(items, metric));
    map op | op in RankedOps(kept) ::
      map region | region in RankedRegions(kept, op) ::
        ValueOr0(MeanOrNone(PooledValues(items, metric, OpRegion(op, region))))
  }

  lemma RankedPlace(keys: seq<OpKey>, place: OpRegion)
    ensures Select(keys, PlaceOf, place) != []
            <==> place.op in RankedOps(keys) && place.region in RankedRegions(keys, place.op)
  {
    SelectMembers(keys, PlaceOf, place);
    var chosen := Select(keys, PlaceOf, place);
    if chosen != [] { assert chosen[0] in chosen; }
    if place.op in RankedOps(keys) && place.region in RankedRegions(keys, place.op) {
      var key :| key in keys && key.op == place.op && key.anchor.region == place.region;
      assert PlaceOf(key) == place;
      assert key in chosen;
    }
  }

  lemma ValuesOfItemsMeaning(items: seq<Item>, metric: string)
    ensures RegionMeans(ValuesOfItems(items, metric), items, metric)
  {
    var values, kept := ValuesOfItems(items, metric), Filter(OpKeys(items), Primary(items, metric));
    forall op | op in values ensures values[op] != map[] {
      var key :| key in kept && key.op == op;
      assert key.anchor.region in values[op];
    }
    forall place
      ensures RegionValue(values, place) == MeanOrNone(PooledValues(items, metric, place))
    {
      RankedPlace(kept, place);
    }
  }

  /** The dicts are determined by what they hold. */
  lemma RegionMeansUnique(values: ValuesByOp, values': ValuesByOp, items: seq<Item>, metric: string)
    requires RegionMeans(values, items, metric) && RegionMeans(values', items, metric)
    ensures values == values'
  {
    forall place ensures RegionValue(values, place) == RegionValue(values', place) {
      assert RegionValue(values, place) == MeanOrNone(PooledValues(items, metric, place));
    }
    SameRegionValues(values, values');
    SameRegionValues(values', values);
    forall op | op in values ensures values[op] == values'[op] {
      forall region ensures region in values[op] <==> region in values'[op] {
        assert RegionValue(values, OpRegion(op, region)) == RegionValue(values', OpRegion(op, region));
      }
      forall region | region in values[op] ensures values[op][region] == values'[op][region] {
        assert RegionValue(values, OpRegion(op, region)) == RegionValue(values', OpRegion(op, region));
      }
    }
  }

  lemma SameRegionValues(values: ValuesByOp, values': ValuesByOp)
    requires forall op :: op in values ==> values[op] != map[]
    requires forall place :: RegionValue(values, place) == RegionValue(values', place)
    ensures forall op :: op in values ==> op in values'
  {
    forall op | op in values ensures op in values' {
      var region :| region in values[op];
      assert RegionValue(values, OpRegion(op, region)).Some?;
    }
  }

  /** `region_value_by_op`. */
  method RegionValuesByOp(items: seq<Item>, metric: string) returns (values: ValuesByOp)
    ensures values == ValuesOfItems(items, metric) && RegionMeans(values, items, metric)
  {
    var order, means := OpLevelMeans(items);
    var controls := ControlAnchors(items);
    forall key
      ensures OpValue(items)(key) == ValueOr0(Get(means, key))
    {
      assert Get(means, key) == OpMean(items)(key);
    }
    forall key: OpKey ensures Primary(items, metric)(key) == (key.metric == metric && !Flagged(controls, key.anchor)) {
      assert Flagged(controls, key.anchor) == IsControlAnchor(items)(key.anchor);
    }
    var pools := PoolValues(order, means, controls, metric, Primary(items, metric), OpValue(items));
    values := MeansOfPools(pools, items, metric);
  }

  function RankingOf(items: seq<Item>, metric: string, topK: nat, scope: string, sqrt: real -> real): Ranking {
    Ranking(ValuesOfItems(items, metric), topK, scope, sqrt)
  }

  /** The rank correlation rows of the items: one for every pair of operators measured on the metric, in pair order. */
  ghost function RankRowsOf(items: seq<Item>, metric: string, topK: nat, scope: string,
                            sqrt: real -> real): seq<RankCorrelationRow>
  {
    var r := RankingOf(items, metric, topK, scope, sqrt);
    RankRows(r, OpsOf(r.values))
  }

  /** `_rank_correlation_rows`: raises exactly over an unnamed anchor, operator or scope. */
  method RankRowsOfItems(items: seq<Item>, metric: string, topK: nat, scope: string, sqrt: real -> real)
    returns (result: Result<seq<RankCorrelationRow>, Failure>)
    requires IsSqrt(sqrt)
    ensures var values := ValuesOfItems(items, metric);
            result.Ok? <==> AnchorsNamed(items) && (|values| < 2 || (scope != "" && "" !in values))
    ensures result.Ok? ==> result.value == RankRowsOf(items, metric, topK, scope, sqrt)
  {
    if !AnchorsNamed(items) { return Err(EmptyName); }
    var values := RegionValuesByOp(items, metric);
    RankRowsAccepted(Ranking(values, topK, scope, sqrt));
    result := RankCorrelationRows(Ranking(values, topK, scope, sqrt));
  }

  /** The target anchors of a region that have a mean for the operator on the metric, each once, and those means. */
  ghost predicate ArePooled(items: seq<Item>, metric: string, place: OpRegion, keys: seq<OpKey>, values: seq<real>) {
    && Distinct(keys) && |values| == |keys|
    && (forall key :: key in keys
                      <==> key.op == place.op && key.anchor.region == place.region && key.metric == metric
                           && !IsControlAnchor(items)(key.anchor) && OpMean(items)(key).Some?)
    && (forall i :: 0 <= i < |keys| ==> OpMean(items)(keys[i]) == Some(values[i]))
  }

  function PooledKeys(items: seq<Item>, metric: string, place: OpRegion): seq<OpKey> {
    Select(Filter(OpKeys(items), Primary(items, metric)), PlaceOf, place)
  }

  lemma PooledKeysMeaning(items: seq<Item>, metric: string, place: OpRegion)
    ensures ArePooled(items, metric, place, PooledKeys(items, metric, place), PooledValues(items, metric, place))
  {
    var kept, keys := Filter(OpKeys(items), Primary(items, metric)), PooledKeys(items, metric, place);
    MeansExist(items);
    KeysAreGroups(CellKeys(items), OpOf);
    FilterDistinct(OpKeys(items), Primary(items, metric));
    FilterMembers(OpKeys(items), Primary(items, metric));
    SelectDistinct(kept, PlaceOf, place);
    SelectMembers(kept, PlaceOf, place);
    forall i | 0 <= i < |keys| ensures OpMean(items)(keys[i]).Some? { assert keys[i] in keys; }
  }

  /** A region's value averages the operator's means over its target anchors. */
  lemma RegionValueMeaning(items: seq<Item>, metric: string, place: OpRegion)
    returns (keys: seq<OpKey>, values: seq<real>)
    ensures ArePooled(items, metric, place, keys, values)
    ensures Averages(RegionValue(ValuesOfItems(items, metric), place), values)
  {
    keys, values := PooledKeys(items, metric, place), PooledValues(items, metric, place);
    PooledKeysMeaning(items, metric, place);
    MeanAverages(values);
    ValuesOfItemsMeaning(items, metric);
    assert RegionValue(ValuesOfItems(items, metric), place) == MeanOrNone(PooledValues(items, metric, place));
  }

  /** An operator is ranked exactly when some target anchor has a mean for it on the metric. */
  lemma RankedOperators(values: ValuesByOp, items: seq<Item>, metric: string, op: string)
    requires RegionMeans(values, items, metric)
    ensures op in values <==> exists anchor: AnchorKey ::
            !IsControlAnchor(items)(anchor) && OpMean(items)(OpKey(anchor, op, metric)).Some?
  {
    var kept := Filter(OpKeys(items), Primary(items, metric));
    FilterMembers(OpKeys(items), Primary(items, metric));
    MeansExist(items);
    if op in values {
      var region :| region in values[op];
      var place := OpRegion(op, region);
      assert RegionValue(values, place).Some?;
      SelectMembers(kept, PlaceOf, place);
      var key := Select(kept, PlaceOf, place)[0];
      assert key in Select(kept, PlaceOf, place);
      assert key == OpKey(key.anchor, op, metric);
    }
    if anchor: AnchorKey :| !IsControlAnchor(items)(anchor) && OpMean(items)(OpKey(anchor, op, metric)).Some? {
      var key := OpKey(anchor, op, metric);
      assert key in kept;
      SelectMembers(kept, PlaceOf, PlaceOf(key));
      assert key in Select(kept, PlaceOf, PlaceOf(key));
      assert RegionValue(values, PlaceOf(key)).Some?;
    }
  }
}
