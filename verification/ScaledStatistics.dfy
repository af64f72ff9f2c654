/** Every statistic under a change of unit: all degradations multiplied by one positive constant. */
module ScaledStatistics {
  import opened Prelude
  import opened Ordering
  import opened Sums
  import opened Grouping
  import opened Mapping
  import opened AnalysisTypes
  import opened Items
  import opened Aggregate
  import opened ItemMeans
  import opened Spread
  import opened ControlComparison
  import opened StrategyStability
  import opened Percentiles
  import Interval
  import RankCorrelation

  function ScaleBy(c: real): Item -> Item { (item: Item) => ScaledItem(item, c) }

  function ScaleAll(items: seq<Item>, c: real): seq<Item> { MapSeq(items, ScaleBy(c)) }

  function ScaleOption(value: Option<real>, c: real): Option<real> {
    if value.None? then None else Some(Times(c)(value.value))
  }

  lemma DegradationsScaled(items: seq<Item>, c: real)
    ensures MapSeq(ScaleAll(items, c), Degradation) == Scaled(MapSeq(items, Degradation), c)
  {
    var left, right := MapSeq(ScaleAll(items, c), Degradation), Scaled(MapSeq(items, Degradation), c);
    forall i | 0 <= i < |items| ensures left[i] == right[i] {
      OneDegradation(items[i], c);
      assert left[i] == Degradation(ScaleBy(c)(items[i]));
      assert right[i] == Times(c)(Degradation(items[i]));
    }
  }

  lemma OneDegradation(item: Item, c: real)
    ensures Degradation(ScaleBy(c)(item)) == Times(c)(Degradation(item))
  {
  }

  lemma MeanOrNoneScaled(values: seq<real>, c: real)
    ensures MeanOrNone(Scaled(values, c)) == ScaleOption(MeanOrNone(values), c)
  {
    if values != [] { MeanTimes(values, c); }
  }

  lemma ScaledOr0(value: Option<real>, c: real)
    ensures ValueOr0(ScaleOption(value, c)) == Times(c)(ValueOr0(value))
  {
  }

  // ----------------------------------------------------------------------- means

  lemma CellsScaled(items: seq<Item>, c: real)
    ensures CellKeys(ScaleAll(items, c)) == CellKeys(items)
    ensures OpKeys(ScaleAll(items, c)) == OpKeys(items)
  {
    FilterMapped(items, ScaleBy(c), IsAvailable, IsAvailable);
    KeysMapped(Filter(items, IsAvailable), ScaleBy(c), CellOf, CellOf);
  }

  lemma CellMeanScaled(items: seq<Item>, c: real, key: CellKey)
    ensures CellMean(ScaleAll(items, c))(key) == ScaleOption(CellMean(items)(key), c)
    ensures CellValue(ScaleAll(items, c))(key) == Times(c)(CellValue(items)(key))
  {
    FilterMapped(items, ScaleBy(c), IsAvailable, IsAvailable);
    SelectMapped(Filter(items, IsAvailable), ScaleBy(c), CellOf, CellOf, key);
    DegradationsScaled(Select(Filter(items, IsAvailable), CellOf, key), c);
    MeanOrNoneScaled(CellValues(items, key), c);
    ScaledOr0(CellMean(items)(key), c);
  }

  lemma OpMeanScaled(items: seq<Item>, c: real, key: OpKey)
    ensures OpMean(ScaleAll(items, c))(key) == ScaleOption(OpMean(items)(key), c)
    ensures OpValue(ScaleAll(items, c))(key) == Times(c)(OpValue(items)(key))
  {
    var cells := Select(CellKeys(items), OpOf, key);
    CellsScaled(items, c);
    forall k ensures CellValue(ScaleAll(items, c))(k) == Times(c)(CellValue(items)(k)) { CellMeanScaled(items, c, k); }
    MapMapped(cells, CellValue(items), Times(c), CellValue(ScaleAll(items, c)));
    MeanOrNoneScaled(MapSeq(cells, CellValue(items)), c);
    ScaledOr0(OpMean(items)(key), c);
  }

  lemma ControlFlagsScaled(items: seq<Item>, c: real, anchor: AnchorKey)
    ensures IsControlAnchor(ScaleAll(items, c))(anchor) == IsControlAnchor(items)(anchor)
  {
    SelectMapped(items, ScaleBy(c), AnchorOf, AnchorOf, anchor);
    var rows := Select(items, AnchorOf, anchor);
    if rows != [] { assert MapSeq(rows, ScaleBy(c))[0].isControl == rows[0].isControl; }
  }

  // ------------------------------------------------------------------ comparisons

  /** What the grades read of a comparison. */
  function EraseControl(row: ControlRow): ControlRow {
    row.(mean := None, std := None, excess := None, ratio := None)
  }

  lemma ControlValuesScaled(matched: seq<Pair>, key: CellKey, items: seq<Item>, c: real)
    ensures ControlValues(matched, key, CellMean(ScaleAll(items, c)))
            == Scaled(ControlValues(matched, key, CellMean(items)), c)
  {
    var mean, mean' := CellMean(items), CellMean(ScaleAll(items, c));
    forall pair ensures HasMean(key, mean')(pair) == HasMean(key, mean)(pair)
                        && Times(c)(MeanAt(key, mean)(pair)) == MeanAt(key, mean')(pair)
    {
      CellMeanScaled(items, c, ControlCell(key)(pair));
      ScaledOr0(mean(ControlCell(key)(pair)), c);
    }
    FilterSame(matched, HasMean(key, mean'), HasMean(key, mean));
    var usable := Filter(matched, HasMean(key, mean));
    MapMapped(usable, MeanAt(key, mean), Times(c), MeanAt(key, mean'));
  }

  /** The standard score has no unit. */
  lemma ScoreScaled(target: real, values: seq<real>, c: real, sqrt: real -> real)
    requires values != [] && c > 0.0 && RankCorrelation.IsSqrt(sqrt)
    ensures var values' := Scaled(values, c);
            values' != [] && StandardScore(Times(c)(target), Mean(values'), Std(values', sqrt), |values'|)
                             == StandardScore(target, Mean(values), Std(values, sqrt), |values|)
  {
    MeanTimes(values, c);
    StdScaled(values, c, sqrt);
    var std, std' := Std(values, sqrt), Std(Scaled(values, c), sqrt);
    if std != 0.0 {
      ScaledScore(target, Mean(values), std, c, Times(c)(target), Mean(Scaled(values, c)), std');
    } else {
      assert std' == 0.0;
    }
  }

  lemma ComparisonScaled(items: seq<Item>, c: real, key: CellKey, matched: seq<Pair>, cfg: Settings, sqrt: real -> real)
    requires c > 0.0 && RankCorrelation.IsSqrt(sqrt)
    ensures EraseControl(CompareOne(key, CellValue(ScaleAll(items, c))(key), matched, CellMean(ScaleAll(items, c)), cfg,
                                    sqrt))
            == EraseControl(CompareOne(key, CellValue(items)(key), matched, CellMean(items), cfg, sqrt))
  {
    var values := ControlValues(matched, key, CellMean(items));
    ControlValuesScaled(matched, key, items, c);
    CellMeanScaled(items, c, key);
    if values != [] { ScoreScaled(CellValue(items)(key), values, c, sqrt); }
  }

  function ErasedRow(items: seq<Item>, pairs: seq<Pair>, cfg: Settings, sqrt: real -> real): CellKey -> ControlRow {
    key => EraseControl(ControlRowOf(items, pairs, cfg, sqrt)(key))
  }

  lemma ErasedControlRows(items: seq<Item>, pairs: seq<Pair>, names: Option<set<string>>, cfg: Settings,
                          sqrt: real -> real)
    ensures MapSeq(ControlRows(items, pairs, names, cfg, sqrt), EraseControl)
            == SortBy(MapSeq(Filter(CellKeys(items), Compared(items, names)), ErasedRow(items, pairs, cfg, sqrt)),
                      RowLe)
  {
    var kept, rowOf := Filter(CellKeys(items), Compared(items, names)), ControlRowOf(items, pairs, cfg, sqrt);
    SortCommutes(MapSeq(kept, rowOf), EraseControl, RowLe, RowLe);
    MapMapped(kept, rowOf, EraseControl, ErasedRow(items, pairs, cfg, sqrt));
  }

  lemma ControlRowsScaled(items: seq<Item>, c: real, pairs: seq<Pair>, names: Option<set<string>>, cfg: Settings,
                          sqrt: real -> real)
    requires c > 0.0 && RankCorrelation.IsSqrt(sqrt)
    ensures MapSeq(ControlRows(ScaleAll(items, c), pairs, names, cfg, sqrt), EraseControl)
            == MapSeq(ControlRows(items, pairs, names, cfg, sqrt), EraseControl)
  {
    var items' := ScaleAll(items, c);
    ErasedControlRows(items, pairs, names, cfg, sqrt);
    ErasedControlRows(items', pairs, names, cfg, sqrt);
    CellsScaled(items, c);
    forall key
      ensures Compared(items', names)(key) == Compared(items, names)(key)
    {
      ControlFlagsScaled(items, c, key.anchor);
    }
    FilterSame(CellKeys(items), Compared(items', names), Compared(items, names));
    forall key ensures ErasedRow(items', pairs, cfg, sqrt)(key) == ErasedRow(items, pairs, cfg, sqrt)(key) {
      ComparisonScaled(items, c, key, Select(pairs, PlaceOf, Place(key.anchor, key.condition)), cfg, sqrt);
    }
    MapAgreesOn(Filter(CellKeys(items), Compared(items, names)), ErasedRow(items', pairs, cfg, sqrt),
                ErasedRow(items, pairs, cfg, sqrt));
  }

  // ------------------------------------------------------------------- strategies

  function EraseStrategy(row: StrategyRow): StrategyRow { row.(values := map[]) }

  lemma SignScaled(c: real, v: real)
    requires c > 0.0
    ensures Sign(Times(c)(v)) == Sign(v)
  {
    if v > 0.0 { RankCorrelation.PositiveProduct(c, v); } else if v < 0.0 { RankCorrelation.PositiveProduct(c, -v); }
  }

  lemma {:induction false} SignsScaled(ops: seq<OpKey>, v: OpKey -> real, v': OpKey -> real)
    requires forall k :: Sign(v'(k)) == Sign(v(k))
    ensures SignsOf(ValueMap(ops, v')) == SignsOf(ValueMap(ops, v))
  {
    if ops != [] {
      var n := |ops| - 1;
      SignsScaled(ops[..n], v, v');
      SignsOfUpdate(ValueMap(ops[..n], v), ops[n].op, v(ops[n]));
      SignsOfUpdate(ValueMap(ops[..n], v'), ops[n].op, v'(ops[n]));
    }
  }

  lemma SignsOfUpdate(values: map<string, real>, op: string, x: real)
    ensures SignsOf(values[op := x]) == SignsOf(values)[op := Sign(x)]
  {
    var left, right := SignsOf(values[op := x]), SignsOf(values)[op := Sign(x)];
    assert left.Keys == right.Keys;
    assert forall o :: o in left ==> left[o] == right[o];
  }

  function ErasedStrategy(items: seq<Item>, names: Option<set<string>>): AnchorMetric -> StrategyRow {
    am => EraseStrategy(StrategyRowOf(items, names)(am))
  }

  lemma WantedOpsScaled(items: seq<Item>, c: real, names: Option<set<string>>)
    ensures WantedOps(ScaleAll(items, c), names) == WantedOps(items, names)
  {
    CellsScaled(items, c);
    forall key ensures WantedOp(ScaleAll(items, c), names)(key) == WantedOp(items, names)(key) {
      ControlFlagsScaled(items, c, key.anchor);
    }
    FilterSame(OpKeys(items), WantedOp(ScaleAll(items, c), names), WantedOp(items, names));
  }

  lemma StrategyScaled(items: seq<Item>, c: real, names: Option<set<string>>, am: AnchorMetric)
    requires c > 0.0
    ensures ErasedStrategy(ScaleAll(items, c), names)(am) == ErasedStrategy(items, names)(am)
  {
    WantedOpsScaled(items, c, names);
    var v, v' := OpValue(items), OpValue(ScaleAll(items, c));
    forall k ensures Sign(v'(k)) == Sign(v(k)) {
      OpMeanScaled(items, c, k);
      SignScaled(c, v(k));
    }
    var ops := Select(WantedOps(items, names), PairOf, am);
    SignsScaled(ops, v, v');
    ErasedBySigns(am, ValueMap(ops, v), ValueMap(ops, v'));
    assert StrategyRowOf(ScaleAll(items, c), names)(am) == StrategyRowFrom(am, ValueMap(ops, v'));
    assert StrategyRowOf(items, names)(am) == StrategyRowFrom(am, ValueMap(ops, v));
  }

  lemma ErasedBySigns(am: AnchorMetric, values: map<string, real>, values': map<string, real>)
    requires SignsOf(values) == SignsOf(values')
    ensures EraseStrategy(StrategyRowFrom(am, values)) == EraseStrategy(StrategyRowFrom(am, values'))
  {
  }

  lemma ErasedStrategyRows(items: seq<Item>, names: Option<set<string>>)
    ensures MapSeq(StrategyRows(items, names), EraseStrategy)
            == SortBy(MapSeq(StrategyKeys(items, names), ErasedStrategy(items, names)), StrategyLe)
  {
    var keys, rowOf := StrategyKeys(items, names), StrategyRowOf(items, names);
    SortCommutes(MapSeq(keys, rowOf), EraseStrategy, StrategyLe, StrategyLe);
    MapMapped(keys, rowOf, EraseStrategy, ErasedStrategy(items, names));
  }

  lemma StrategyRowsScaled(items: seq<Item>, c: real, names: Option<set<string>>)
    requires c > 0.0
    ensures MapSeq(StrategyRows(ScaleAll(items, c), names), EraseStrategy)
            == MapSeq(StrategyRows(items, names), EraseStrategy)
  {
    var items' := ScaleAll(items, c);
    ErasedStrategyRows(items, names);
    ErasedStrategyRows(items', names);
    WantedOpsScaled(items, c, names);
    forall am
      ensures ErasedStrategy(items', names)(am) == ErasedStrategy(items, names)(am)
    {
      StrategyScaled(items, c, names, am);
    }
    MapAgreesOn(StrategyKeys(items, names), ErasedStrategy(items', names), ErasedStrategy(items, names));
  }

  // -------------------------------------------------------------------- intervals

  function ScalePair(c: real): Interval.SampleValue -> Interval.SampleValue {
    (pair: Interval.SampleValue) => Interval.SampleValue(pair.key, Times(c)(pair.value))
  }

  function ScaleCell(c: real): Interval.Cell -> Interval.Cell {
    (cell: Interval.Cell) => Interval.Cell(cell.key, Scaled(cell.values, c))
  }

  lemma PopulationScaled(items: seq<Item>, c: real, names: Option<set<string>>)
    ensures Interval.Population(ScaleAll(items, c), names) == ScaleAll(Interval.Population(items, names), c)
  {
    FilterMapped(items, ScaleBy(c), IsUsable, IsUsable);
    FilterMapped(Filter(items, IsUsable), ScaleBy(c), Interval.Wanted(names), Interval.Wanted(names));
  }

  lemma GroupMeanScaled(rows: seq<Item>, c: real, key: SampleKey)
    ensures Interval.GroupMean(ScaleAll(rows, c))(key) == Times(c)(Interval.GroupMean(rows)(key))
  {
    var chosen := Select(rows, SampleKeyOf, key);
    SelectMapped(rows, ScaleBy(c), SampleKeyOf, SampleKeyOf, key);
    DegradationsScaled(chosen, c);
    if chosen != [] { MeanTimes(MapSeq(chosen, Degradation), c); }
  }

  lemma SampleValueScaled(rows: seq<Item>, c: real, key: SampleKey)
    ensures Interval.SampleValueOf(ScaleAll(rows, c))(key) == ScalePair(c)(Interval.SampleValueOf(rows)(key))
  {
    GroupMeanScaled(rows, c, key);
  }

  lemma PairsScaled(rows: seq<Item>, c: real)
    ensures Interval.PerSampleMeans(ScaleAll(rows, c)) == MapSeq(Interval.PerSampleMeans(rows), ScalePair(c))
  {
    var keys := Keys(rows, SampleKeyOf);
    KeysMapped(rows, ScaleBy(c), SampleKeyOf, SampleKeyOf);
    forall key
      ensures Interval.SampleValueOf(ScaleAll(rows, c))(key) == ScalePair(c)(Interval.SampleValueOf(rows)(key))
    {
      SampleValueScaled(rows, c, key);
    }
    MapMapped(keys, Interval.SampleValueOf(rows), ScalePair(c), Interval.SampleValueOf(ScaleAll(rows, c)));
  }

  function ScaledValue(c: real): Interval.SampleValue -> real { (pair: Interval.SampleValue) => Times(c)(pair.value) }

  lemma CellScaled(pairs: seq<Interval.SampleValue>, c: real, rm: RegionMetric)
    ensures Interval.CellOf(MapSeq(pairs, ScalePair(c)))(rm) == ScaleCell(c)(Interval.CellOf(pairs)(rm))
  {
    var chosen := Select(pairs, Interval.PairRegion, rm);
    SelectMapped(pairs, ScalePair(c), Interval.PairRegion, Interval.PairRegion, rm);
    MapMapped(chosen, ScalePair(c), Interval.PairValue, ScaledValue(c));
    MapMapped(chosen, Interval.PairValue, Times(c), ScaledValue(c));
  }

  lemma IntervalCellsScaled(rows: seq<Item>, c: real)
    ensures Interval.Cells(ScaleAll(rows, c)) == MapSeq(Interval.Cells(rows), ScaleCell(c))
  {
    var pairs := Interval.PerSampleMeans(rows);
    var order := SortBy(Keys(pairs, Interval.PairRegion), Interval.RegionMetricLe);
    PairsScaled(rows, c);
    KeysMapped(pairs, ScalePair(c), Interval.PairRegion, Interval.PairRegion);
    forall rm ensures Interval.CellOf(MapSeq(pairs, ScalePair(c)))(rm) == ScaleCell(c)(Interval.CellOf(pairs)(rm)) {
      CellScaled(pairs, c, rm);
    }
    MapMapped(order, Interval.CellOf(pairs), ScaleCell(c), Interval.CellOf(MapSeq(pairs, ScalePair(c))));
  }

  lemma {:induction false} ResampleScaled(values: seq<real>, c: real, g: nat, r: nat, n: nat, pick: Interval.Picks)
    requires values != [] && n <= |values|
    ensures Scaled(values, c) != []
    ensures Interval.Resample(Scaled(values, c), g, r, n, pick) == Scaled(Interval.Resample(values, g, r, n, pick), c)
  {
    if n > 0 {
      ResampleScaled(values, c, g, r, n - 1, pick);
      MapAppend(Interval.Resample(values, g, r, n - 1, pick), [values[pick(g, r, n - 1) % |values|]], Times(c));
    }
  }

  lemma {:induction false} ResampleMeansScaled(values: seq<real>, c: real, g: nat, count: nat, pick: Interval.Picks)
    requires values != []
    ensures Scaled(values, c) != []
    ensures Interval.ResampleMeans(Scaled(values, c), g, count, pick)
            == Scaled(Interval.ResampleMeans(values, g, count, pick), c)
  {
    if count > 0 {
      ResampleMeansScaled(values, c, g, count - 1, pick);
      var before, last := Interval.ResampleMeans(values, g, count - 1, pick),
        Mean(Interval.Resample(values, g, count - 1, |values|, pick));
      LastMeanScaled(values, c, g, count - 1, pick);
      MapAppend(before, [last], Times(c));
      assert Interval.ResampleMeans(values, g, count, pick) == before + [last];
      assert MapSeq([last], Times(c)) == [Times(c)(last)];
    }
  }

  lemma LastMeanScaled(values: seq<real>, c: real, g: nat, r: nat, pick: Interval.Picks)
    requires values != []
    ensures var values' := Scaled(values, c);
            values' != [] && Mean(Interval.Resample(values', g, r, |values'|, pick))
              == Times(c)(Mean(Interval.Resample(values, g, r, |values|, pick)))
  {
    ResampleScaled(values, c, g, r, |values|, pick);
    MeanTimes(Interval.Resample(values, g, r, |values|, pick), c);
  }

  function EraseInterval(row: Interval.IntervalRow): Interval.IntervalRow {
    row.(pointEstimate := 0.0, ciLow := 0.0, ciHigh := 0.0)
  }

  lemma IntervalScaled(cell: Interval.Cell, c: real, g: nat, s: Interval.Settings, pick: Interval.Picks)
    requires cell.values != [] && Interval.InRange(s) && c > 0.0
    ensures ScaleCell(c)(cell).values != []
    ensures var row, row' := Interval.IntervalRowOf(cell, g, s, pick),
            Interval.IntervalRowOf(ScaleCell(c)(cell), g, s, pick);
            && row'.pointEstimate == Times(c)(row.pointEstimate)
            && row'.ciLow == Times(c)(row.ciLow) && row'.ciHigh == Times(c)(row.ciHigh)
            && EraseInterval(row') == EraseInterval(row)
  {
    var means := Interval.ResampleMeans(cell.values, g, s.nBootstrap, pick);
    MeanTimes(cell.values, c);
    ResampleMeansScaled(cell.values, c, g, s.nBootstrap, pick);
    PercentileScaled(means, s.lowPct, c);
    PercentileScaled(means, s.highPct, c);
    SignScaled(c, Percentile(means, s.lowPct));
    SignScaled(c, Percentile(means, s.highPct));
  }

  lemma CellsStayNonEmpty(cells: seq<Interval.Cell>, c: real)
    requires Interval.NonEmpty(cells)
    ensures Interval.NonEmpty(MapSeq(cells, ScaleCell(c)))
  {
    var cells' := MapSeq(cells, ScaleCell(c));
    forall g | 0 <= g < |cells'| ensures cells'[g].values != [] { assert cells[g].values != []; }
  }

  lemma IntervalRowScaled(cells: seq<Interval.Cell>, c: real, s: Interval.Settings, pick: Interval.Picks, g: nat)
    requires (cells == [] || Interval.InRange(s)) && Interval.NonEmpty(cells) && c > 0.0 && g < |cells|
    ensures Interval.NonEmpty(MapSeq(cells, ScaleCell(c)))
    ensures EraseInterval(Interval.IntervalRows(MapSeq(cells, ScaleCell(c)), s, pick)[g])
            == EraseInterval(Interval.IntervalRows(cells, s, pick)[g])
  {
    CellsStayNonEmpty(cells, c);
    IntervalScaled(cells[g], c, g, s, pick);
  }

  lemma {:induction false} SameErased(rows: seq<Interval.IntervalRow>, rows': seq<Interval.IntervalRow>)
    requires |rows| == |rows'|
    requires forall g :: 0 <= g < |rows| ==> EraseInterval(rows'[g]) == EraseInterval(rows[g])
    ensures MapSeq(rows', EraseInterval) == MapSeq(rows, EraseInterval)
  {
  }

  lemma IntervalRowsScaled(cells: seq<Interval.Cell>, c: real, s: Interval.Settings, pick: Interval.Picks)
    requires (cells == [] || Interval.InRange(s)) && Interval.NonEmpty(cells) && c > 0.0
    ensures Interval.NonEmpty(MapSeq(cells, ScaleCell(c)))
    ensures MapSeq(Interval.IntervalRows(MapSeq(cells, ScaleCell(c)), s, pick), EraseInterval)
            == MapSeq(Interval.IntervalRows(cells, s, pick), EraseInterval)
  {
    CellsStayNonEmpty(cells, c);
    var rows := Interval.IntervalRows(cells, s, pick);
    var rows' := Interval.IntervalRows(MapSeq(cells, ScaleCell(c)), s, pick);
    forall g | 0 <= g < |cells| ensures EraseInterval(rows'[g]) == EraseInterval(rows[g]) {
      IntervalRowScaled(cells, c, s, pick, g);
    }
    SameErased(rows, rows');
  }
}
