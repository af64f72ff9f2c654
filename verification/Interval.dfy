/** Bootstrap confidence intervals per region and metric: `ssat/analysis/interval.py`. */
module Interval {
  import opened Prelude
  import opened Ordering
  import opened Sums
  import opened Grouping
  import opened AnalysisTypes
  import opened Items
  import opened Percentiles
  import Aggregate

  datatype IntervalRow = IntervalRow(
    key: RegionMetric, pointEstimate: real, ciLow: real, ciHigh: real, nBootstrap: nat, excludesZero: bool)

  predicate Named(key: RegionMetric) { key.region != "" && key.metric != "" }

  /** The row constructor's checks. */
  predicate RowAccepted(row: IntervalRow) {
    Named(row.key) && row.ciLow <= row.ciHigh && (row.excludesZero <==> row.ciLow > 0.0 || row.ciHigh < 0.0)
  }

  /** The random generator's index choices: any function of group, resample and draw. */
  type Picks = (nat, nat, nat) -> nat

  /** Percentages and the number of resamples. */
  datatype Settings = Settings(nBootstrap: int, lowPct: real, highPct: real)

  /** What drawing and numpy's percentiles need, once there is something to draw from. */
  predicate InRange(s: Settings) {
    s.nBootstrap >= 1 && 0.0 <= s.lowPct <= 100.0 && 0.0 <= s.highPct <= 100.0
  }

  // -------------------------------------------------------------- two-stage means

  function Wanted(names: Option<set<string>>): Item -> bool {
    (item: Item) => names.None? || item.metric in names.value
  }

  /** Available non-control items of the requested metrics. */
  function Population(items: seq<Item>, names: Option<set<string>>): seq<Item> {
    Filter(Filter(items, IsUsable), Wanted(names))
  }

  /** Stage one: the mean of one sample's group. */
  function GroupMean(rows: seq<Item>): SampleKey -> real {
    (key: SampleKey) =>
      var values := MapSeq(Select(rows, SampleKeyOf, key), Degradation);
      if values == [] then 0.0 else Mean(values)
  }

  datatype SampleValue = SampleValue(key: SampleKey, value: real)

  function SampleValueOf(rows: seq<Item>): SampleKey -> SampleValue {
    key => SampleValue(key, GroupMean(rows)(key))
  }

  /** `_per_sample_region_metric_means`, as the items of the returned dict. */
  function PerSampleMeans(rows: seq<Item>): seq<SampleValue> {
    MapSeq(Keys(rows, SampleKeyOf), SampleValueOf(rows))
  }

  function PairRegion(pair: SampleValue): RegionMetric { RegionPart(pair.key) }

  function PairValue(pair: SampleValue): real { pair.value }

  /** One region and metric with its per-sample means. */
  datatype Cell = Cell(key: RegionMetric, values: seq<real>)

  function CellOf(pairs: seq<SampleValue>): RegionMetric -> Cell {
    key => Cell(key, MapSeq(Select(pairs, PairRegion, key), PairValue))
  }

  function RegionMetricLe(x: RegionMetric, y: RegionMetric): bool {
    StrLt(x.region, y.region) || (x.region == y.region && StrLe(x.metric, y.metric))
  }

  /** The grouped means in key order. */
  function Cells(rows: seq<Item>): seq<Cell> {
    var pairs := PerSampleMeans(rows);
    MapSeq(SortBy(Keys(pairs, PairRegion), RegionMetricLe), CellOf(pairs))
  }

  // ----------------------------------------------------------------- resampling

  function Resample(values: seq<real>, g: nat, r: nat, n: nat, pick: Picks): (draws: seq<real>)
    requires values != [] && n <= |values|
    ensures |draws| == n && forall j :: 0 <= j < n ==> draws[j] in values
  {
    if n == 0 then [] else Resample(values, g, r, n - 1, pick) + [values[pick(g, r, n - 1) % |values|]]
  }

  /** `rng.choice(values, size=(count, n)).mean(axis=1)`. */
  function ResampleMeans(values: seq<real>, g: nat, count: nat, pick: Picks): (means: seq<real>)
    requires values != []
    ensures |means| == count
  {
    if count == 0 then []
    else ResampleMeans(values, g, count - 1, pick) + [Mean(Resample(values, g, count - 1, |values|, pick))]
  }

  function IntervalRowOf(cell: Cell, g: nat, s: Settings, pick: Picks): IntervalRow
    requires cell.values != [] && InRange(s)
  {
    var means := ResampleMeans(cell.values, g, s.nBootstrap, pick);
    var low, high := Percentile(means, s.lowPct), Percentile(means, s.highPct);
    IntervalRow(cell.key, Mean(cell.values), low, high, s.nBootstrap, low > 0.0 || high < 0.0)
  }

  ghost predicate NonEmpty(cells: seq<Cell>) {
    forall i :: 0 <= i < |cells| ==> cells[i].values != []
  }

  /** The row of each cell, whatever the row constructor says. */
  function IntervalRows(cells: seq<Cell>, s: Settings, pick: Picks): (rows: seq<IntervalRow>)
    requires (cells == [] || InRange(s)) && NonEmpty(cells)
    ensures |rows| == |cells| && forall g :: 0 <= g < |cells| ==> rows[g] == IntervalRowOf(cells[g], g, s, pick)
  {
    if cells == [] then []
    else
      var g := |cells| - 1;
      IntervalRows(cells[..g], s, pick) + [IntervalRowOf(cells[g], g, s, pick)]
  }

  ghost predicate AllAccepted(rows: seq<IntervalRow>) {
    forall i :: 0 <= i < |rows| ==> RowAccepted(rows[i])
  }

  method GroupCells(rows: seq<Item>) returns (cells: seq<Cell>)
    ensures cells == Cells(rows) && NonEmpty(cells)
  {
    var pairs := PerSampleMeans(rows);
    var keys, groups := GroupRows(pairs, PairRegion);
    var order := SortBy(keys, RegionMetricLe);
    SortMembers(keys, RegionMetricLe);
    KeysHaveRows(pairs, PairRegion);
    cells := CellsInOrder(order, groups, CellOf(pairs));
  }

  method CellsInOrder(order: seq<RegionMetric>, groups: map<RegionMetric, seq<SampleValue>>,
                      ghost cellOf: RegionMetric -> Cell)
    returns (cells: seq<Cell>)
    requires forall k :: k in order ==>
             k in groups && groups[k] != [] && cellOf(k) == Cell(k, MapSeq(groups[k], PairValue))
    ensures cells == MapSeq(order, cellOf) && NonEmpty(cells)
  {
    cells := [];
    for g := 0 to |order|
      invariant |cells| == g && NonEmpty(cells)
      invariant forall j :: 0 <= j < g ==> cells[j] == cellOf(order[j])
    {
      assert order[g] in order;
      cells := cells + [Cell(order[g], MapSeq(groups[order[g]], PairValue))];
    }
  }

  /**
    `compute_intervals`: it raises without a resample or a percentage in range, or at the first row
    its constructor rejects.
   */
  method ComputeIntervals(items: seq<Item>, names: Option<set<string>>, s: Settings, pick: Picks)
    returns (result: Result<seq<IntervalRow>, Failure>)
    ensures var cells := Cells(Population(items, names));
            && NonEmpty(cells)
            && (result.Ok? <==> (cells == [] || InRange(s)) && AllAccepted(IntervalRows(cells, s, pick)))
            && (result.Ok? ==> result.value == IntervalRows(cells, s, pick))
  {
    var cells := GroupCells(Population(items, names));
    if cells != [] && !InRange(s) { return Err(BadResampling); }
    result := BuildRows(cells, s, pick);
  }

  method BuildRows(cells: seq<Cell>, s: Settings, pick: Picks) returns (result: Result<seq<IntervalRow>, Failure>)
    requires (cells == [] || InRange(s)) && NonEmpty(cells)
    ensures result.Ok? <==> AllAccepted(IntervalRows(cells, s, pick))
    ensures result.Ok? ==> result.value == IntervalRows(cells, s, pick)
  {
    var out: seq<IntervalRow> := [];
    for g := 0 to |cells|
      invariant |out| == g && AllAccepted(out)
      invariant forall j :: 0 <= j < g ==> out[j] == IntervalRowOf(cells[j], j, s, pick)
    {
      var row := IntervalRowOf(cells[g], g, s, pick);
      if !Named(row.key) || !(row.ciLow <= row.ciHigh) {
        assert !RowAccepted(IntervalRows(cells, s, pick)[g]);
        return Err(RowRejected);
      }
      out := out + [row];
    }
    result := Ok(out);
  }

  // --------------------------------------------------------- what the rows promise

  lemma {:induction false} ResampleMeansBounded(values: seq<real>, g: nat, count: nat, pick: Picks, lo: real, hi: real)
    requires values != [] && forall v :: v in values ==> lo <= v <= hi
    ensures forall i :: 0 <= i < count ==> lo <= ResampleMeans(values, g, count, pick)[i] <= hi
  {
    if count > 0 {
      ResampleMeansBounded(values, g, count - 1, pick, lo, hi);
      var draws := Resample(values, g, count - 1, |values|, pick);
      forall j | 0 <= j < |draws| ensures lo <= draws[j] <= hi { assert draws[j] in values; }
      MeanAtLeast(draws, lo);
      MeanAtMost(draws, hi);
    }
  }

  /**
    Whatever the draws: the interval is ordered, inside the range of the per-sample means, and
    accepted unless a name is empty.
   */
  lemma IntervalInsideValues(cell: Cell, g: nat, s: Settings, pick: Picks, lo: real, hi: real)
    requires cell.values != [] && InRange(s) && s.lowPct <= s.highPct && forall v :: v in cell.values ==> lo <= v <= hi
    ensures var row := IntervalRowOf(cell, g, s, pick);
            lo <= row.ciLow <= row.ciHigh <= hi && lo <= row.pointEstimate <= hi
              && (RowAccepted(row) <==> Named(cell.key))
  {
    ResampleMeansBounded(cell.values, g, s.nBootstrap, pick, lo, hi);
    PercentileBounds(ResampleMeans(cell.values, g, s.nBootstrap, pick), s.lowPct, s.highPct, lo, hi);
    forall i | 0 <= i < |cell.values| ensures lo <= cell.values[i] <= hi { assert cell.values[i] in cell.values; }
    MeanAtLeast(cell.values, lo);
    MeanAtMost(cell.values, hi);
  }

  /** The mean of as many draws as there are values, each at the place the generator picked. */
  ghost predicate IsResampleMean(mean: real, values: seq<real>, g: nat, r: nat, pick: Picks)
    requires values != []
  {
    exists draws: seq<real> :: DrawnFrom(draws, values, g, r, pick) && Repeat(mean, |draws|) == Sum(draws)
  }

  ghost predicate DrawnFrom(draws: seq<real>, values: seq<real>, g: nat, r: nat, pick: Picks)
    requires values != []
  {
    |draws| == |values| && forall j :: 0 <= j < |draws| ==> draws[j] == values[pick(g, r, j) % |values|]
  }

  lemma {:induction false} ResampleDraws(values: seq<real>, g: nat, r: nat, n: nat, pick: Picks)
    requires values != [] && n <= |values|
    ensures var draws := Resample(values, g, r, n, pick);
            forall j :: 0 <= j < n ==> draws[j] == values[pick(g, r, j) % |values|]
  {
    if n > 0 { ResampleDraws(values, g, r, n - 1, pick); }
  }

  lemma OneResample(values: seq<real>, g: nat, r: nat, pick: Picks)
    requires values != []
    ensures IsResampleMean(Mean(Resample(values, g, r, |values|, pick)), values, g, r, pick)
  {
    var draws := Resample(values, g, r, |values|, pick);
    ResampleDraws(values, g, r, |values|, pick);
    MeanRepeated(draws);
    assert DrawnFrom(draws, values, g, r, pick);
  }

  ghost predicate AreResampleMeans(means: seq<real>, values: seq<real>, g: nat, pick: Picks)
    requires values != []
  {
    forall r :: 0 <= r < |means| ==> IsResampleMean(means[r], values, g, r, pick)
  }

  lemma OneMoreResample(means: seq<real>, mean: real, values: seq<real>, g: nat, pick: Picks)
    requires values != [] && AreResampleMeans(means, values, g, pick)
    requires IsResampleMean(mean, values, g, |means|, pick)
    ensures AreResampleMeans(means + [mean], values, g, pick)
  {
  }

  lemma {:induction false} ResampleMeansDrawn(values: seq<real>, g: nat, count: nat, pick: Picks)
    requires values != []
    ensures AreResampleMeans(ResampleMeans(values, g, count, pick), values, g, pick)
  {
    if count > 0 {
      ResampleMeansDrawn(values, g, count - 1, pick);
      OneResample(values, g, count - 1, pick);
      OneMoreResample(ResampleMeans(values, g, count - 1, pick), Mean(Resample(values, g, count - 1, |values|, pick)),
                      values, g, pick);
    }
  }

  /** A row's numbers: the mean of the values, and two percentiles of as many resample means as were asked for. */
  ghost predicate IsIntervalRow(row: IntervalRow, cell: Cell, g: nat, s: Settings, pick: Picks, means: seq<real>)
    requires cell.values != []
  {
    && row.key == cell.key && row.nBootstrap == s.nBootstrap == |means|
    && Repeat(row.pointEstimate, |cell.values|) == Sum(cell.values)
    && AreResampleMeans(means, cell.values, g, pick)
    && IsPercentile(means, s.lowPct, row.ciLow) && IsPercentile(means, s.highPct, row.ciHigh)
    && (row.excludesZero <==> row.ciLow > 0.0 || row.ciHigh < 0.0)
  }

  lemma OneIntervalRow(cell: Cell, g: nat, s: Settings, pick: Picks)
    requires InRange(s) && cell.values != []
    ensures IsIntervalRow(IntervalRowOf(cell, g, s, pick), cell, g, s, pick,
                          ResampleMeans(cell.values, g, s.nBootstrap, pick))
  {
    var means := ResampleMeans(cell.values, g, s.nBootstrap, pick);
    ResampleMeansDrawn(cell.values, g, s.nBootstrap, pick);
    MeanRepeated(cell.values);
    PercentileMeaning(means, s.lowPct);
    PercentileMeaning(means, s.highPct);
  }

  /** What the rows of `compute_intervals` hold, cell by cell. */
  lemma IntervalRowMeaning(cells: seq<Cell>, s: Settings, pick: Picks, g: nat) returns (means: seq<real>)
    requires InRange(s) && NonEmpty(cells) && g < |cells|
    ensures cells[g].values != []
    ensures IsIntervalRow(IntervalRows(cells, s, pick)[g], cells[g], g, s, pick, means)
  {
    OneIntervalRow(cells[g], g, s, pick);
    means := ResampleMeans(cells[g].values, g, s.nBootstrap, pick);
  }

  // ------------------------------------------------------- what the cells average

  /** The usable items of one sample, region and metric. */
  function OfSample(key: SampleKey): Item -> bool {
    (item: Item) => item.available && !item.isControl && SampleKeyOf(item) == key
  }

  /** The mean degradation of those items, of which there is one at least. */
  ghost predicate IsSampleMean(mean: real, items: seq<Item>, key: SampleKey) {
    var values := MapSeq(Filter(items, OfSample(key)), Degradation);
    values != [] && Repeat(mean, |values|) == Sum(values)
  }

  lemma {:induction false} SampleGroup(items: seq<Item>, names: Option<set<string>>, key: SampleKey)
    requires WantsMetric(names, key.metric)
    ensures Select(Population(items, names), SampleKeyOf, key) == Filter(items, OfSample(key))
  {
    if items != [] { SampleGroup(items[1..], names, key); }
  }

  /** A cell averages the means of the samples that have a usable item for its region and metric, each sample once. */
  ghost predicate IsCell(cell: Cell, items: seq<Item>, keys: seq<SampleKey>) {
    && |keys| == |cell.values| && Distinct(keys)
    && (forall i :: 0 <= i < |keys| ==> RegionPart(keys[i]) == cell.key && IsSampleMean(cell.values[i], items, keys[i]))
    && (forall item ::
        item in items && item.available && !item.isControl && RegionPart(SampleKeyOf(item)) == cell.key
        ==> SampleKeyOf(item) in keys)
  }

  /** The sample keys behind a cell. */
  function CellSamples(rows: seq<Item>, rm: RegionMetric): seq<SampleKey> {
    Select(Keys(rows, SampleKeyOf), RegionPart, rm)
  }

  lemma CellSamplesMeaning(rows: seq<Item>, rm: RegionMetric)
    ensures Distinct(CellSamples(rows, rm))
    ensures forall key :: key in CellSamples(rows, rm)
                          <==> RegionPart(key) == rm && exists item :: item in rows && SampleKeyOf(item) == key
  {
    KeysAreGroups(rows, SampleKeyOf);
    Aggregate.SelectDistinct(Keys(rows, SampleKeyOf), RegionPart, rm);
    SelectMembers(Keys(rows, SampleKeyOf), RegionPart, rm);
  }

  lemma SampleMeanOf(items: seq<Item>, names: Option<set<string>>, key: SampleKey)
    requires WantsMetric(names, key.metric) && Select(Population(items, names), SampleKeyOf, key) != []
    ensures IsSampleMean(GroupMean(Population(items, names))(key), items, key)
  {
    SampleGroup(items, names, key);
    MeanRepeated(MapSeq(Filter(items, OfSample(key)), Degradation));
  }

  lemma CellMeaning(items: seq<Item>, names: Option<set<string>>, cell: Cell)
    requires cell in Cells(Population(items, names))
    ensures WantsMetric(names, cell.key.metric)
    ensures IsCell(cell, items, CellSamples(Population(items, names), cell.key))
  {
    var rows := Population(items, names);
    var keys := CellSamples(rows, cell.key);
    CellValues(rows, cell);
    PairsOfRegion(Keys(rows, SampleKeyOf), rows, cell.key);
    assert cell.values == MapSeq(keys, GroupMean(rows));
    CellSamplesMeaning(rows, cell.key);
    PopulationMembers(items, names);
    assert keys[0] in keys;
    KeysHaveRows(rows, SampleKeyOf);
    SelectMembers(Keys(rows, SampleKeyOf), RegionPart, cell.key);
    forall i | 0 <= i < |keys| ensures RegionPart(keys[i]) == cell.key && IsSampleMean(cell.values[i], items, keys[i]) {
      assert keys[i] in keys;
      SampleMeanOf(items, names, keys[i]);
    }
  }

  lemma PopulationMembers(items: seq<Item>, names: Option<set<string>>)
    ensures forall item :: item in Population(items, names)
                           <==> item in items && item.available && !item.isControl && WantsMetric(names, item.metric)
  {
    FilterMembers(items, IsUsable);
    FilterMembers(Filter(items, IsUsable), Wanted(names));
  }

  /** Cells come in key order, one for a region and metric at most. */
  lemma CellsInKeyOrder(rows: seq<Item>)
    ensures var cells := Cells(rows);
            forall i, j :: 0 <= i < j < |cells| ==>
              && cells[i].key != cells[j].key
              && LexLe([cells[i].key.region, cells[i].key.metric], [cells[j].key.region, cells[j].key.metric])
  {
    var keys := Keys(PerSampleMeans(rows), PairRegion);
    RegionMetricLeIsTotal();
    SortSorts(keys, RegionMetricLe);
    CellKeysDistinct(rows);
    var order, cells := SortBy(keys, RegionMetricLe), Cells(rows);
    forall i, j | 0 <= i < j < |cells|
      ensures LexLe([cells[i].key.region, cells[i].key.metric], [cells[j].key.region, cells[j].key.metric])
    {
      assert cells[i].key == order[i] && cells[j].key == order[j];
      assert RegionMetricLe(order[i], order[j]);
      LexPair(order[i].region, order[i].metric, order[j].region, order[j].metric);
    }
  }

  /**
    The rows are made and accepted exactly when there is nothing to resample or the settings are in range, and every
    row has names and its bounds in order.
   */
  lemma AcceptedMeaning(cells: seq<Cell>, s: Settings, pick: Picks)
    requires NonEmpty(cells)
    ensures InRange(s) <==> s.nBootstrap >= 1 && 0.0 <= s.lowPct <= 100.0 && 0.0 <= s.highPct <= 100.0
    ensures cells == [] || InRange(s) ==>
              (AllAccepted(IntervalRows(cells, s, pick)) <==>
               forall row :: row in IntervalRows(cells, s, pick) ==>
                 row.key.region != "" && row.key.metric != "" && row.ciLow <= row.ciHigh)
  {
    if cells == [] || InRange(s) {
      var rows := IntervalRows(cells, s, pick);
      forall g | 0 <= g < |rows|
        ensures rows[g] in rows
        ensures RowAccepted(rows[g])
                <==> rows[g].key.region != "" && rows[g].key.metric != "" && rows[g].ciLow <= rows[g].ciHigh
      {
        assert rows[g] == IntervalRowOf(cells[g], g, s, pick);
      }
    }
  }

  /** There is a cell exactly where some wanted item is usable. */
  lemma CellWhere(items: seq<Item>, names: Option<set<string>>, rm: RegionMetric)
    ensures (exists cell :: cell in Cells(Population(items, names)) && cell.key == rm)
            <==> WantsMetric(names, rm.metric) && exists item ::
                 item in items && item.available && !item.isControl && RegionPart(SampleKeyOf(item)) == rm
  {
    var rows := Population(items, names);
    var keys := CellSamples(rows, rm);
    CellExists(rows, rm);
    PairsOfRegion(Keys(rows, SampleKeyOf), rows, rm);
    CellSamplesMeaning(rows, rm);
    PopulationMembers(items, names);
    if keys != [] { assert keys[0] in keys; }
    forall item | item in rows && RegionPart(SampleKeyOf(item)) == rm ensures keys != [] {
      assert SampleKeyOf(item) in keys;
    }
  }

  lemma RegionMetricLeIsTotal()
    ensures TotalPreorder(RegionMetricLe)
  {
    StrLeIsTotalOrder();
  }

  lemma {:induction false} Extremes(values: seq<real>) returns (lo: real, hi: real)
    requires values != []
    ensures lo in values && hi in values && forall v :: v in values ==> lo <= v <= hi
  {
    lo, hi := values[0], values[0];
    if |values| > 1 {
      var lo', hi' := Extremes(values[1..]);
      assert values == [values[0]] + values[1..];
      if lo' < lo { lo := lo'; }
      if hi' > hi { hi := hi'; }
    }
  }

  /** If the per-sample means share a strict sign, every bootstrap interval excludes zero on that side. */
  lemma SharedSignExcludesZero(cell: Cell, g: nat, s: Settings, pick: Picks)
    requires cell.values != [] && InRange(s) && s.lowPct <= s.highPct
    requires (forall v :: v in cell.values ==> v > 0.0) || (forall v :: v in cell.values ==> v < 0.0)
    ensures var row := IntervalRowOf(cell, g, s, pick);
            row.excludesZero && (row.ciLow > 0.0 <==> row.pointEstimate > 0.0)
  {
    var lo, hi := Extremes(cell.values);
    IntervalInsideValues(cell, g, s, pick, lo, hi);
  }

  /** With the percentages in order, `compute_intervals` raises only over an empty name, whatever the draws. */
  lemma IntervalsAcceptedIff(cells: seq<Cell>, s: Settings, pick: Picks)
    requires (cells == [] || InRange(s)) && s.lowPct <= s.highPct && NonEmpty(cells)
    ensures AllAccepted(IntervalRows(cells, s, pick))
            <==> forall g :: 0 <= g < |cells| ==> cells[g].key.region != "" && cells[g].key.metric != ""
  {
    var rows := IntervalRows(cells, s, pick);
    forall g | 0 <= g < |cells| ensures RowAccepted(rows[g]) <==> Named(cells[g].key) {
      var lo, hi := Extremes(cells[g].values);
      IntervalInsideValues(cells[g], g, s, pick, lo, hi);
    }
  }

  // ------------------------------------------- agreement with the region metrics

  predicate WantsMetric(names: Option<set<string>>, metric: string) {
    names.None? || metric in names.value
  }

  lemma {:induction false} WantedGroup(rows: seq<Item>, names: Option<set<string>>, key: SampleKey)
    requires WantsMetric(names, key.metric)
    ensures Select(Filter(rows, Wanted(names)), SampleKeyOf, key) == Select(rows, SampleKeyOf, key)
  {
    if rows != [] { WantedGroup(rows[1..], names, key); }
  }

  /** The keys behind an interval and behind a region mean are the same samples. */
  lemma SameSamples(items: seq<Item>, names: Option<set<string>>, rm: RegionMetric)
    requires WantsMetric(names, rm.metric)
    ensures var keys := Select(Keys(Population(items, names), SampleKeyOf), RegionPart, rm);
            Distinct(keys) && forall k :: k in keys <==> k in Aggregate.RegionSamples(items, rm)
  {
    var rows := Population(items, names);
    var keys := Keys(rows, SampleKeyOf);
    KeysHaveRows(rows, SampleKeyOf);
    KeysAreGroups(rows, SampleKeyOf);
    Aggregate.SelectDistinct(keys, RegionPart, rm);
    SelectMembers(keys, RegionPart, rm);
    Aggregate.RegionSamplesMeaning(items, rm);
    forall k | RegionPart(k) == rm ensures k in keys <==> Aggregate.HasUsable(items, k) {
      WantedGroup(Filter(items, IsUsable), names, k);
    }
  }

  lemma {:induction false} MapAgrees(keys: seq<SampleKey>, f: SampleKey -> real, g: SampleKey -> real)
    requires forall i :: 0 <= i < |keys| ==> f(keys[i]) == g(keys[i])
    ensures MapSeq(keys, f) == MapSeq(keys, g)
  {
  }

  lemma {:induction false} PairsOfRegion(keys: seq<SampleKey>, rows: seq<Item>, rm: RegionMetric)
    ensures MapSeq(Select(MapSeq(keys, SampleValueOf(rows)), PairRegion, rm), PairValue)
            == MapSeq(Select(keys, RegionPart, rm), GroupMean(rows))
  {
    if keys != [] {
      PairsOfRegion(keys[1..], rows, rm);
      assert MapSeq(keys, SampleValueOf(rows))[1..] == MapSeq(keys[1..], SampleValueOf(rows));
    }
  }

  /** The per-sample means of one region and metric; empty when no row is emitted for it. */
  function RegionValues(rows: seq<Item>, rm: RegionMetric): seq<real> {
    CellOf(PerSampleMeans(rows))(rm).values
  }

  lemma CellListed(rows: seq<Item>, rm: RegionMetric)
    ensures var order := SortBy(Keys(PerSampleMeans(rows), PairRegion), RegionMetricLe);
            rm in order <==> RegionValues(rows, rm) != []
  {
    SortMembers(Keys(PerSampleMeans(rows), PairRegion), RegionMetricLe);
    KeysHaveRows(PerSampleMeans(rows), PairRegion);
  }

  /** One cell for each region and metric. */
  lemma CellKeysDistinct(rows: seq<Item>)
    ensures var cells := Cells(rows); forall i, j :: 0 <= i < j < |cells| ==> cells[i].key != cells[j].key
  {
    var pairs := PerSampleMeans(rows);
    KeysAreGroups(pairs, PairRegion);
    SortDistinct(Keys(pairs, PairRegion), RegionMetricLe);
  }

  lemma CellValues(rows: seq<Item>, cell: Cell)
    requires cell in Cells(rows)
    ensures cell.values == RegionValues(rows, cell.key) && cell.values != []
  {
    var order := SortBy(Keys(PerSampleMeans(rows), PairRegion), RegionMetricLe);
    var i :| 0 <= i < |order| && Cells(rows)[i] == cell;
    assert cell == CellOf(PerSampleMeans(rows))(order[i]) && order[i] in order;
    CellListed(rows, order[i]);
  }

  lemma CellExists(rows: seq<Item>, rm: RegionMetric)
    ensures RegionValues(rows, rm) != [] <==> exists cell :: cell in Cells(rows) && cell.key == rm
    ensures forall cell :: cell in Cells(rows) ==> cell.values == RegionValues(rows, cell.key)
  {
    var order := SortBy(Keys(PerSampleMeans(rows), PairRegion), RegionMetricLe);
    CellListed(rows, rm);
    if RegionValues(rows, rm) != [] {
      var i :| 0 <= i < |order| && order[i] == rm;
      assert Cells(rows)[i] == CellOf(PerSampleMeans(rows))(rm);
      assert Cells(rows)[i] in Cells(rows);
    }
    forall cell | cell in Cells(rows)
      ensures cell.values == RegionValues(rows, cell.key) && cell.values != []
    {
      CellValues(rows, cell);
    }
  }

  /**
    The two separately written macro-averages agree: an interval row exists exactly when the
    region mean is known, its point estimate is that mean, and both average the same number of samples.
   */
  lemma PointEstimateIsRegionMean(items: seq<Item>, names: Option<set<string>>, catalog: Aggregate.Catalog,
                                  rm: RegionMetric)
    requires WantsMetric(names, rm.metric)
    ensures var rows := Population(items, names);
            var values := RegionValues(rows, rm);
            var region := Aggregate.RegionRowOf(Aggregate.SpatialProfile(Filter(items, IsTarget)), catalog)(rm);
            && ((exists cell :: cell in Cells(rows) && cell.key == rm) <==> region.metricMean.Some?)
            && (forall cell :: cell in Cells(rows) && cell.key == rm ==>
                cell.values != [] && region.metricMean == Some(Mean(cell.values)) && region.nValid == |cell.values|)
  {
    var rows := Population(items, names);
    CellExists(rows, rm);
    ValuesAreRegionValues(items, names, rm);
  }

  lemma ValuesAreRegionValues(items: seq<Item>, names: Option<set<string>>, rm: RegionMetric)
    requires WantsMetric(names, rm.metric)
    ensures var values := RegionValues(Population(items, names), rm);
            var known := Aggregate.KnownValues(Select(Aggregate.SpatialProfile(Filter(items, IsTarget)),
                                                      Aggregate.RegionOf, rm));
            Sum(values) == Sum(known) && |values| == |known|
  {
    var rows := Population(items, names);
    var keys, samples := Select(Keys(rows, SampleKeyOf), RegionPart, rm), Aggregate.RegionSamples(items, rm);
    var mean := Aggregate.SampleMean(items);
    PairsOfRegion(Keys(rows, SampleKeyOf), rows, rm);
    SelectMembers(Keys(rows, SampleKeyOf), RegionPart, rm);
    forall i | 0 <= i < |keys| ensures GroupMean(rows)(keys[i]) == mean(keys[i]) {
      assert keys[i] in keys;
      WantedGroup(Filter(items, IsUsable), names, keys[i]);
    }
    MapAgrees(keys, GroupMean(rows), mean);
    SameSamples(items, names, rm);
    Aggregate.RegionSamplesMeaning(items, rm);
    TotalSameSet(keys, samples, mean);
    SumMap(keys, mean);
    SumMap(samples, mean);
    Aggregate.RegionValues(items, rm);
  }
}
