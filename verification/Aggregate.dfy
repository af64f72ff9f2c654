/** Spatial profiles and region metrics: `ssat/metrics/aggregate.py`. */
module Aggregate {
  import opened Prelude
  import opened Ordering
  import opened Sums
  import opened Grouping
  import opened Items

  /** One (sample, region, metric) value; `None` when no item was available. */
  datatype SpatialRow = SpatialRow(key: SampleKey, degradation: Option<real>)

  datatype RegionRow = RegionRow(
    key: RegionMetric, kind: string, nSamples: nat, nValid: nat, flipRate: Option<real>, metricMean: Option<real>)

  function MeanOrNone(values: seq<real>): Option<real> {
    if values == [] then None else Some(Mean(values))
  }

  // ------------------------------------------------------------ spatial profile

  /** `[item.degradation for item in items if item.available]` of one group. */
  function GroupValues(rows: seq<Item>, key: SampleKey): seq<real> {
    MapSeq(Filter(Select(rows, SampleKeyOf, key), IsAvailable), Degradation)
  }

  function SpatialRowOf(rows: seq<Item>): SampleKey -> SpatialRow {
    key => SpatialRow(key, MeanOrNone(GroupValues(rows, key)))
  }

  function SpatialProfile(rows: seq<Item>): seq<SpatialRow> {
    MapSeq(Keys(rows, SampleKeyOf), SpatialRowOf(rows))
  }

  /** `_aggregate_spatial_profile`; `rows` are the non-control items. */
  method AggregateSpatialProfile(rows: seq<Item>) returns (result: seq<SpatialRow>)
    ensures result == SpatialProfile(rows)
  {
    var order, groups := GroupRows(rows, SampleKeyOf);
    result := SpatialRows(order, groups, SpatialRowOf(rows));
  }

  method SpatialRows(order: seq<SampleKey>, groups: map<SampleKey, seq<Item>>, ghost rowOf: SampleKey -> SpatialRow)
    returns (result: seq<SpatialRow>)
    requires forall k :: k in order ==>
             k in groups && rowOf(k) == SpatialRow(k, MeanOrNone(MapSeq(Filter(groups[k], IsAvailable), Degradation)))
    ensures result == MapSeq(order, rowOf)
  {
    result := [];
    for i := 0 to |order|
      invariant |result| == i && forall j :: 0 <= j < i ==> result[j] == rowOf(order[j])
    {
      assert order[i] in order;
      var valid := MapSeq(Filter(groups[order[i]], IsAvailable), Degradation);
      result := result + [SpatialRow(order[i], MeanOrNone(valid))];
    }
  }

  // ------------------------------------------------------------- region metrics

  function RegionOf(row: SpatialRow): RegionMetric { RegionPart(row.key) }

  predicate IsKnown(row: SpatialRow) { row.degradation.Some? }

  function KnownValue(row: SpatialRow): real { if row.degradation.Some? then row.degradation.value else 0.0 }

  /** `[row.degradation for row in rows if row.degradation is not None]`. */
  function KnownValues(rows: seq<SpatialRow>): seq<real> {
    MapSeq(Filter(rows, IsKnown), KnownValue)
  }

  /** What the run knows about regions and metrics beside the values. */
  datatype Catalog = Catalog(kindOf: string -> string, binary: set<string>)

  function RegionRowOf(spatial: seq<SpatialRow>, catalog: Catalog): RegionMetric -> RegionRow {
    key =>
      var rows := Select(spatial, RegionOf, key);
      var mean := MeanOrNone(KnownValues(rows));
      RegionRow(key, catalog.kindOf(key.region), |rows|, |KnownValues(rows)|,
                if key.metric in catalog.binary then mean else None, mean)
  }

  function RegionMetrics(spatial: seq<SpatialRow>, catalog: Catalog): seq<RegionRow> {
    MapSeq(Keys(spatial, RegionOf), RegionRowOf(spatial, catalog))
  }

  /** `_aggregate_region_metrics`: a macro-average over samples. */
  method AggregateRegionMetrics(spatial: seq<SpatialRow>, catalog: Catalog) returns (result: seq<RegionRow>)
    ensures result == RegionMetrics(spatial, catalog)
  {
    var order, groups := GroupRows(spatial, RegionOf);
    var rowOf := RegionRowOf(spatial, catalog);
    result := [];
    for i := 0 to |order|
      invariant result == MapSeq(order[..i], rowOf)
    {
      var key := order[i];
      assert key in order;
      var valid := KnownValues(groups[key]);
      var mean := MeanOrNone(valid);
      MapAppend(order[..i], [key], rowOf);
      assert order[..i + 1] == order[..i] + [key];
      result := result + [RegionRow(key, catalog.kindOf(key.region), |groups[key]|, |valid|,
                                    if key.metric in catalog.binary then mean else None, mean)];
    }
    assert order[..|order|] == order;
  }

  // -------------------------------------------------------------- what rows hold

  /** `mean` is the mean of `values`; there is none when there are no values. */
  ghost predicate Averages(mean: Option<real>, values: seq<real>) {
    if values == [] then mean == None else mean.Some? && Repeat(mean.value, |values|) == Sum(values)
  }

  lemma MeanAverages(values: seq<real>)
    ensures Averages(MeanOrNone(values), values)
  {
    if values != [] { MeanRepeated(values); }
  }

  function AvailableAt(key: SampleKey): Item -> bool {
    (item: Item) => item.available && item.sample == key.sample && item.region == key.region
      && item.metric == key.metric
  }

  lemma {:induction false} GroupIsFilter(rows: seq<Item>, key: SampleKey)
    ensures Filter(Select(rows, SampleKeyOf, key), IsAvailable) == Filter(rows, AvailableAt(key))
  {
    if rows != [] { GroupIsFilter(rows[1..], key); }
  }

  predicate IsOfSample(item: Item, key: SampleKey) {
    item.sample == key.sample && item.region == key.region && item.metric == key.metric
  }

  /** Rows have distinct keys, and each averages the available items of its sample, region and metric. */
  lemma SpatialProfileMeaning(rows: seq<Item>)
    ensures var profile := SpatialProfile(rows);
            && (forall i, j :: 0 <= i < j < |profile| ==> profile[i].key != profile[j].key)
            && (forall i :: 0 <= i < |profile| ==>
                Averages(profile[i].degradation, MapSeq(Filter(rows, AvailableAt(profile[i].key)), Degradation)))
  {
    var keys, profile := Keys(rows, SampleKeyOf), SpatialProfile(rows);
    KeysAreGroups(rows, SampleKeyOf);
    forall i | 0 <= i < |profile|
      ensures Averages(profile[i].degradation, MapSeq(Filter(rows, AvailableAt(profile[i].key)), Degradation))
    {
      GroupIsFilter(rows, keys[i]);
      MeanAverages(GroupValues(rows, keys[i]));
    }
  }

  /** There is a row exactly where some item, available or not, was recorded. */
  lemma SpatialRowWhere(rows: seq<Item>, key: SampleKey)
    ensures (exists row :: row in SpatialProfile(rows) && row.key == key)
            <==> exists item :: item in rows && IsOfSample(item, key)
  {
    var keys, profile := Keys(rows, SampleKeyOf), SpatialProfile(rows);
    KeysAreGroups(rows, SampleKeyOf);
    if row :| row in profile && row.key == key {
      var i :| 0 <= i < |profile| && profile[i] == row;
      assert keys[i] in keys;
      var item :| item in rows && SampleKeyOf(item) == keys[i];
      assert IsOfSample(item, key);
    }
    if item :| item in rows && IsOfSample(item, key) {
      assert SampleKeyOf(item) == key && key in keys;
      var i :| 0 <= i < |keys| && keys[i] == key;
      assert profile[i] in profile;
    }
  }

  function InRegion(key: RegionMetric): SpatialRow -> bool {
    (row: SpatialRow) => row.key.region == key.region && row.key.metric == key.metric
  }

  function KnownInRegion(key: RegionMetric): SpatialRow -> bool {
    (row: SpatialRow) => row.degradation.Some? && row.key.region == key.region && row.key.metric == key.metric
  }

  lemma {:induction false} RegionIsFilter(spatial: seq<SpatialRow>, key: RegionMetric)
    ensures Select(spatial, RegionOf, key) == Filter(spatial, InRegion(key))
    ensures Filter(Select(spatial, RegionOf, key), IsKnown) == Filter(spatial, KnownInRegion(key))
  {
    if spatial != [] { RegionIsFilter(spatial[1..], key); }
  }

  /**
    A region's row: how many samples, how many with a value, their mean, and again as flip rate for
    a binary metric.
   */
  ghost predicate IsRegionRow(row: RegionRow, spatial: seq<SpatialRow>, catalog: Catalog) {
    var known := Filter(spatial, KnownInRegion(row.key));
    && row.kind == catalog.kindOf(row.key.region)
    && row.nSamples == |Filter(spatial, InRegion(row.key))| && row.nValid == |known|
    && Averages(row.metricMean, MapSeq(known, KnownValue))
    && row.flipRate == (if row.key.metric in catalog.binary then row.metricMean else None)
  }

  lemma RegionRowMeaning(spatial: seq<SpatialRow>, catalog: Catalog, key: RegionMetric)
    ensures var row := RegionRowOf(spatial, catalog)(key); row.key == key && IsRegionRow(row, spatial, catalog)
  {
    RegionIsFilter(spatial, key);
    MeanAverages(KnownValues(Select(spatial, RegionOf, key)));
  }

  lemma RegionMetricsMeaning(spatial: seq<SpatialRow>, catalog: Catalog)
    ensures var rows := RegionMetrics(spatial, catalog);
            && (forall i, j :: 0 <= i < j < |rows| ==> rows[i].key != rows[j].key)
            && (forall i :: 0 <= i < |rows| ==> IsRegionRow(rows[i], spatial, catalog))
  {
    var keys, rows := Keys(spatial, RegionOf), RegionMetrics(spatial, catalog);
    KeysAreGroups(spatial, RegionOf);
    forall i | 0 <= i < |rows| ensures rows[i].key == keys[i] && IsRegionRow(rows[i], spatial, catalog) {
      RegionRowMeaning(spatial, catalog, keys[i]);
    }
  }

  /** There is a row exactly for the regions and metrics of the profile. */
  lemma RegionRowWhere(spatial: seq<SpatialRow>, catalog: Catalog, key: RegionMetric)
    ensures (exists row :: row in RegionMetrics(spatial, catalog) && row.key == key)
            <==> exists x :: x in spatial && x.key.region == key.region && x.key.metric == key.metric
  {
    var keys, rows := Keys(spatial, RegionOf), RegionMetrics(spatial, catalog);
    KeysAreGroups(spatial, RegionOf);
    if row :| row in rows && row.key == key {
      var i :| 0 <= i < |rows| && rows[i] == row;
      assert keys[i] in keys;
    }
    if x :| x in spatial && x.key.region == key.region && x.key.metric == key.metric {
      assert RegionOf(x) == key && key in keys;
      var i :| 0 <= i < |keys| && keys[i] == key;
      assert rows[i] in rows;
    }
  }

  // -------------------------------------------------------------- what they mean

  /** The mean of one sample's available target items for a region and metric. */
  function SampleMean(items: seq<Item>): SampleKey -> real {
    key => KnownValue(SpatialRow(key,
                                 MeanOrNone(MapSeq(Select(Filter(items, IsUsable), SampleKeyOf, key), Degradation))))
  }

  /** Filtering controls first and then availability is filtering for usable items. */
  lemma {:induction false} UsableGroup(items: seq<Item>, key: SampleKey)
    ensures Filter(Select(Filter(items, IsTarget), SampleKeyOf, key), IsAvailable)
            == Select(Filter(items, IsUsable), SampleKeyOf, key)
  {
    if items != [] { UsableGroup(items[1..], key); }
  }

  lemma {:induction false} KnownOfMap(keys: seq<SampleKey>, rowOf: SampleKey -> SpatialRow, p: SampleKey -> bool,
                                      v: SampleKey -> real)
    requires forall k :: rowOf(k).degradation == if p(k) then Some(v(k)) else None
    ensures KnownValues(MapSeq(keys, rowOf)) == MapSeq(Filter(keys, p), v)
  {
    if keys != [] {
      KnownOfMap(keys[1..], rowOf, p, v);
      assert MapSeq(keys, rowOf)[1..] == MapSeq(keys[1..], rowOf);
      assert rowOf(keys[0]) == MapSeq(keys, rowOf)[0];
    }
  }

  lemma {:induction false} SelectOfMap(keys: seq<SampleKey>, rowOf: SampleKey -> SpatialRow, rm: RegionMetric)
    requires forall k :: rowOf(k).key == k
    ensures Select(MapSeq(keys, rowOf), RegionOf, rm) == MapSeq(Select(keys, RegionPart, rm), rowOf)
  {
    if keys != [] {
      SelectOfMap(keys[1..], rowOf, rm);
      assert MapSeq(keys, rowOf)[1..] == MapSeq(keys[1..], rowOf);
    }
  }

  lemma {:induction false} FilterDistinct<T(!new)>(s: seq<T>, p: T -> bool)
    requires Distinct(s)
    ensures Distinct(Filter(s, p))
  {
    if s != [] {
      FilterDistinct(s[1..], p);
      FilterMembers(s[1..], p);
      assert s[0] !in s[1..];
    }
  }

  lemma {:induction false} SelectDistinct<T(!new), K>(s: seq<T>, key: T -> K, k: K)
    requires Distinct(s)
    ensures Distinct(Select(s, key, k))
  {
    if s != [] {
      SelectDistinct(s[1..], key, k);
      SelectMembers(s[1..], key, k);
      assert s[0] !in s[1..];
    }
  }

  predicate HasUsable(items: seq<Item>, key: SampleKey) {
    Select(Filter(items, IsUsable), SampleKeyOf, key) != []
  }

  function UsableKeys(items: seq<Item>): SampleKey -> bool {
    key => HasUsable(items, key)
  }

  /** The sample keys behind one region mean: each sample with a usable item, once. */
  function RegionSamples(items: seq<Item>, rm: RegionMetric): seq<SampleKey> {
    Filter(Select(Keys(Filter(items, IsTarget), SampleKeyOf), RegionPart, rm), UsableKeys(items))
  }

  lemma RegionSamplesMeaning(items: seq<Item>, rm: RegionMetric)
    ensures Distinct(RegionSamples(items, rm))
    ensures forall k :: k in RegionSamples(items, rm) <==> RegionPart(k) == rm && HasUsable(items, k)
  {
    var targets := Filter(items, IsTarget);
    var keys := Keys(targets, SampleKeyOf);
    KeysAreGroups(targets, SampleKeyOf);
    SelectDistinct(keys, RegionPart, rm);
    FilterDistinct(Select(keys, RegionPart, rm), UsableKeys(items));
    SelectMembers(keys, RegionPart, rm);
    FilterMembers(Select(keys, RegionPart, rm), UsableKeys(items));
    forall k | HasUsable(items, k) ensures k in keys {
      UsableGroup(items, k);
      var x := Select(Filter(items, IsUsable), SampleKeyOf, k)[0];
      assert x in Filter(Select(targets, SampleKeyOf, k), IsAvailable);
      FilterMembers(Select(targets, SampleKeyOf, k), IsAvailable);
      SelectMembers(targets, SampleKeyOf, k);
    }
  }

  /** A region's known values are the sample means of its samples. */
  lemma RegionValues(items: seq<Item>, rm: RegionMetric)
    ensures KnownValues(Select(SpatialProfile(Filter(items, IsTarget)), RegionOf, rm))
            == MapSeq(RegionSamples(items, rm), SampleMean(items))
  {
    var targets := Filter(items, IsTarget);
    var keys, rowOf := Keys(targets, SampleKeyOf), SpatialRowOf(targets);
    SelectOfMap(keys, rowOf, rm);
    forall k ensures rowOf(k).degradation == if UsableKeys(items)(k) then Some(SampleMean(items)(k)) else None {
      UsableGroup(items, k);
    }
    KnownOfMap(Select(keys, RegionPart, rm), rowOf, UsableKeys(items), SampleMean(items));
  }
}
