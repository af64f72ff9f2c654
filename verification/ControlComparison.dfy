/** Comparing a target with its matched controls: `ssat/analysis/control.py`. */
module ControlComparison {
  import opened Prelude
  import opened Ordering
  import opened Sums
  import opened Grouping
  import opened Mapping
  import opened AnalysisTypes
  import opened Items
  import opened ItemMeans
  import opened Spread
  import RankCorrelation
  import ControlMatching

  type Pair = ControlMatching.Pair

  datatype ControlRow = ControlRow(
    key: CellKey, available: Flag, areaMatched: Flag,
    mean: Option<real>, std: Option<real>, nControls: nat,
    excess: Option<real>, ratio: Option<real>, z: Option<real>)

  /** The row constructor's checks. */
  predicate ControlRowAccepted(row: ControlRow) {
    && row.key.metric != ""
    && (row.std.Some? ==> row.std.value >= 0.0)
    && (row.available != Yes ==> row.mean.None? && row.std.None? && row.excess.None? && row.ratio.None? && row.z.None?
                                 && row.nControls == 0 && row.areaMatched == Unavailable)
  }

  datatype Settings = Settings(ratioZero: real, areaTolerance: real)

  /** The condition of a target that a pair belongs to. */
  datatype Place = Place(target: AnchorKey, condition: ConditionKey)

  function PlaceOf(pair: Pair): Place { Place(pair.target, pair.condition) }

  function ControlCell(key: CellKey): Pair -> CellKey {
    (pair: Pair) => CellKey(pair.control, key.condition, key.metric)
  }

  function HasMean(key: CellKey, mean: CellKey -> Option<real>): Pair -> bool {
    pair => mean(ControlCell(key)(pair)).Some?
  }

  function MeanAt(key: CellKey, mean: CellKey -> Option<real>): Pair -> real {
    pair => ValueOr0(mean(ControlCell(key)(pair)))
  }

  /** The usable values among a target's matched controls. */
  function ControlValues(matched: seq<Pair>, key: CellKey, mean: CellKey -> Option<real>): seq<real> {
    MapSeq(Filter(matched, HasMean(key, mean)), MeanAt(key, mean))
  }

  predicate AreaFits(pair: Pair, tolerance: real) {
    pair.ratio.Some? && ControlMatching.WithinTolerance(pair.ratio.value, tolerance)
  }

  predicate AreasFit(matched: seq<Pair>, tolerance: real) {
    forall i :: 0 <= i < |matched| ==> AreaFits(matched[i], tolerance)
  }

  function Abs(x: real): real { if x < 0.0 then -x else x }

  /** A threshold that is not positive lets a zero mean through to the division. */
  predicate DividesByZero(mean: real, zero: real) { mean == 0.0 && zero <= 0.0 }

  function Ratio(target: real, mean: real, zero: real): Option<real> {
    if Abs(mean) >= zero && mean != 0.0 then Some(target / mean) else None
  }

  function StandardScore(target: real, mean: real, std: real, n: nat): Option<real> {
    if std != 0.0 && n >= 2 then Some((target - mean) / std) else None
  }

  function AvailableRow(key: CellKey, target: real, values: seq<real>, fits: bool, cfg: Settings,
                        sqrt: real -> real): ControlRow
    requires values != []
  {
    var mean, std := Mean(values), Std(values, sqrt);
    ControlRow(key, Yes, if fits then Yes else No, Some(mean), Some(std), |values|,
               Some(target - mean), Ratio(target, mean, cfg.ratioZero), StandardScore(target, mean, std, |values|))
  }

  function CompareOne(key: CellKey, target: real, matched: seq<Pair>, mean: CellKey -> Option<real>, cfg: Settings,
                      sqrt: real -> real): ControlRow
  {
    var values := ControlValues(matched, key, mean);
    if values == [] then ControlRow(key, Unavailable, Unavailable, None, None, 0, None, None, None)
    else AvailableRow(key, target, values, AreasFit(matched, cfg.areaTolerance), cfg, sqrt)
  }

  /** `_compare_one` raises over an empty metric name, or over a division by zero. */
  predicate ComparisonRaises(key: CellKey, values: seq<real>, cfg: Settings) {
    key.metric == "" || (values != [] && DividesByZero(Mean(values), cfg.ratioZero))
  }

  lemma MeanOfOpposites(x: real)
    ensures Mean([x, -x]) == 0.0
  {
    assert [x, -x][1..] == [-x] && Sum([-x]) == -x;
    assert Sum([x, -x]) == 0.0;
  }

  /** Two controls that cancel out raise exactly when the threshold is not positive. */
  lemma CancellingControlsRaiseIff(key: CellKey, cfg: Settings)
    requires key.metric != ""
    ensures ComparisonRaises(key, [1.0, -1.0], cfg) <==> cfg.ratioZero <= 0.0
  {
    MeanOfOpposites(1.0);
  }

  function RaisesAt(items: seq<Item>, pairs: seq<Pair>, cfg: Settings): CellKey -> bool {
    (key: CellKey) => ComparisonRaises(key,
                                       ControlValues(Select(pairs, PlaceOf, Place(key.anchor, key.condition)), key,
                                                     CellMean(items)), cfg)
  }

  /** Non-control anchors and requested metrics. */
  function Compared(items: seq<Item>, names: Option<set<string>>): CellKey -> bool {
    (key: CellKey) => Requested(names, key.metric) && !IsControlAnchor(items)(key.anchor)
  }

  function ControlRowOf(items: seq<Item>, pairs: seq<Pair>, cfg: Settings, sqrt: real -> real): CellKey -> ControlRow {
    (key: CellKey) =>
      CompareOne(key, CellValue(items)(key), Select(pairs, PlaceOf, Place(key.anchor, key.condition)), CellMean(items),
                 cfg, sqrt)
  }

  /** `(sample_id, region_key, perturb_op, perturb_params_hash, metric_name)`, compared as a tuple. */
  predicate CellLe(x: CellKey, y: CellKey) {
    LexLe(CellFields(x), CellFields(y))
  }

  function CellFields(x: CellKey): seq<string> {
    [x.anchor.sample, x.anchor.region, x.condition.op, x.condition.params, x.metric]
  }

  predicate RowLe(x: ControlRow, y: ControlRow) { CellLe(x.key, y.key) }

  function ControlRows(items: seq<Item>, pairs: seq<Pair>, names: Option<set<string>>, cfg: Settings,
                       sqrt: real -> real): seq<ControlRow>
  {
    SortBy(MapSeq(Filter(CellKeys(items), Compared(items, names)), ControlRowOf(items, pairs, cfg, sqrt)), RowLe)
  }

  // --------------------------------------------------------------------- methods

  /** The `area_matched` scan: it stops at the first misfit. */
  method ScanAreas(matched: seq<Pair>, tolerance: real) returns (flag: Flag)
    ensures flag == if AreasFit(matched, tolerance) then Yes else No
  {
    flag := Yes;
    for i := 0 to |matched|
      invariant flag == Yes && AreasFit(matched[..i], tolerance)
    {
      if matched[i].ratio.None? || !ControlMatching.WithinTolerance(matched[i].ratio.value, tolerance) {
        assert !AreaFits(matched[i], tolerance);
        return No;
      }
    }
    assert matched[..|matched|] == matched;
  }

  method CollectControls(matched: seq<Pair>, key: CellKey, means: map<CellKey, real>,
                         ghost mean: CellKey -> Option<real>)
    returns (values: seq<real>)
    requires Represents(means, mean)
    ensures values == ControlValues(matched, key, mean)
  {
    values := [];
    for i := 0 to |matched|
      invariant values == ControlValues(matched[..i], key, mean)
    {
      CollectStep(matched, i, HasMean(key, mean), MeanAt(key, mean));
      var cell := ControlCell(key)(matched[i]);
      var value := Get(means, cell);
      assert value == mean(cell);
      if value.Some? { values := values + [value.value]; }
    }
    assert matched[..|matched|] == matched;
  }

  /** `_compare_one`. */
  method CompareOneTarget(key: CellKey, target: real, matched: seq<Pair>, means: map<CellKey, real>,
                          ghost mean: CellKey -> Option<real>, cfg: Settings, sqrt: real -> real)
    returns (result: Result<ControlRow, Failure>)
    requires Represents(means, mean)
    ensures result.Ok? <==> !ComparisonRaises(key, ControlValues(matched, key, mean), cfg)
    ensures result.Ok? ==> result.value == CompareOne(key, target, matched, mean, cfg, sqrt)
  {
    var values := CollectControls(matched, key, means, mean);
    if values != [] && DividesByZero(Mean(values), cfg.ratioZero) { return Err(DivisionByZero); }
    if key.metric == "" { return Err(EmptyName); }
    if values == [] { return Ok(ControlRow(key, Unavailable, Unavailable, None, None, 0, None, None, None)); }
    var areaMatched := ScanAreas(matched, cfg.areaTolerance);
    result := Ok(AvailableRow(key, target, values, areaMatched == Yes, cfg, sqrt));
  }

  /** The comparison raises exactly over an unnamed key, or where some compared cell raises. */
  ghost predicate Comparable(items: seq<Item>, pairs: seq<Pair>, names: Option<set<string>>, cfg: Settings) {
    KeysNamed(items) && NoneRaises(CellKeys(items), Compared(items, names), RaisesAt(items, pairs, cfg))
  }

  ghost predicate NoneRaises(order: seq<CellKey>, kept: CellKey -> bool, raises: CellKey -> bool) {
    forall k :: k in order && kept(k) ==> !raises(k)
  }

  /** `compare_to_controls`. */
  method CompareToControls(items: seq<Item>, pairs: seq<Pair>, names: Option<set<string>>, cfg: Settings,
                           sqrt: real -> real)
    returns (result: Result<seq<ControlRow>, Failure>)
    ensures result.Ok? <==> Comparable(items, pairs, names, cfg)
    ensures result.Ok? ==> result.value == ControlRows(items, pairs, names, cfg, sqrt)
  {
    if !KeysNamed(items) { return Err(EmptyName); }
    var order, means := AnchorLevelMeans(items);
    var controls := ControlAnchors(items);
    var pairsAt := GroupsOf(pairs, PlaceOf);
    var rows := CompareAll(order, means, controls, pairsAt, names, cfg, sqrt, items, pairs);
    if rows.Err? { return Err(rows.error); }
    result := Ok(SortBy(rows.value, RowLe));
  }

  method CompareAll(order: seq<CellKey>, means: map<CellKey, real>, controls: map<AnchorKey, bool>,
                    pairsAt: map<Place, seq<Pair>>,
                    names: Option<set<string>>, cfg: Settings, sqrt: real -> real, ghost items: seq<Item>,
                    ghost pairs: seq<Pair>)
    returns (result: Result<seq<ControlRow>, Failure>)
    requires Represents(means, CellMean(items))
    requires forall a: AnchorKey {:trigger Flagged(controls, a)} :: Flagged(controls, a) == IsControlAnchor(items)(a)
    requires forall place {:trigger GroupAt(pairsAt, place)} :: GroupAt(pairsAt, place) == Select(pairs, PlaceOf, place)
    ensures result.Ok? <==> NoneRaises(order, Compared(items, names), RaisesAt(items, pairs, cfg))
    ensures result.Ok? ==>
            result.value == MapSeq(Filter(order, Compared(items, names)), ControlRowOf(items, pairs, cfg, sqrt))
  {
    ghost var compared, raises, rowOf :=
        Compared(items, names), RaisesAt(items, pairs, cfg), ControlRowOf(items, pairs, cfg, sqrt);
    var rows := [];
    for i := 0 to |order|
      invariant rows == MapSeq(Filter(order[..i], compared), rowOf) && NoneRaises(order[..i], compared, raises)
    {
      var key := order[i];
      CollectStep(order, i, compared, rowOf);
      OneMoreKey(order, i, compared, raises);
      assert compared(key) == (Requested(names, key.metric) && !Flagged(controls, key.anchor));
      if Requested(names, key.metric) && !Flagged(controls, key.anchor) {
        var row := CompareCell(key, means, pairsAt, cfg, sqrt, items, pairs);
        if row.Err? {
          assert key in order;
          return Err(row.error);
        }
        rows := rows + [row.value];
      }
    }
    assert order[..|order|] == order;
    result := Ok(rows);
  }

  lemma OneMoreKey(order: seq<CellKey>, i: nat, kept: CellKey -> bool, raises: CellKey -> bool)
    requires i < |order|
    ensures NoneRaises(order[..i + 1], kept, raises)
            <==> NoneRaises(order[..i], kept, raises) && (kept(order[i]) ==> !raises(order[i]))
  {
    assert order[..i + 1] == order[..i] + [order[i]];
    assert order[i] in order[..i + 1];
  }

  method CompareCell(key: CellKey, means: map<CellKey, real>, pairsAt: map<Place, seq<Pair>>, cfg: Settings,
                     sqrt: real -> real,
                     ghost items: seq<Item>, ghost pairs: seq<Pair>)
    returns (result: Result<ControlRow, Failure>)
    requires Represents(means, CellMean(items))
    requires forall place {:trigger GroupAt(pairsAt, place)} :: GroupAt(pairsAt, place) == Select(pairs, PlaceOf, place)
    ensures result.Ok? <==> !RaisesAt(items, pairs, cfg)(key)
    ensures result.Ok? ==> result.value == ControlRowOf(items, pairs, cfg, sqrt)(key)
  {
    var matched := GroupAt(pairsAt, Place(key.anchor, key.condition));
    var target := ValueOr0(Get(means, key));
    assert target == CellValue(items)(key);
    result := CompareOneTarget(key, target, matched, means, CellMean(items), cfg, sqrt);
  }

  // --------------------------------------------------------------- what is compared

  /** The control was measured on the metric under the condition. */
  function Measured(key: CellKey, mean: CellKey -> Option<real>): Pair -> bool {
    (pair: Pair) => mean(CellKey(pair.control, key.condition, key.metric)).Some?
  }

  /** The values are the means of the measured controls, in the order of their pairs. */
  lemma ControlValuesMeaning(matched: seq<Pair>, key: CellKey, mean: CellKey -> Option<real>)
    ensures var usable, values := Filter(matched, Measured(key, mean)), ControlValues(matched, key, mean);
            && |values| == |usable|
            && forall i :: 0 <= i < |usable| ==>
                 mean(CellKey(usable[i].control, key.condition, key.metric)) == Some(values[i])
  {
    FilterMembers(matched, Measured(key, mean));
    forall pair ensures HasMean(key, mean)(pair) == Measured(key, mean)(pair) {
      assert ControlCell(key)(pair) == CellKey(pair.control, key.condition, key.metric);
    }
    FilterSame(matched, HasMean(key, mean), Measured(key, mean));
    var usable, values := Filter(matched, Measured(key, mean)), ControlValues(matched, key, mean);
    forall i | 0 <= i < |usable|
      ensures mean(CellKey(usable[i].control, key.condition, key.metric)) == Some(values[i])
    {
      assert usable[i] in usable && Measured(key, mean)(usable[i]);
      assert usable == Filter(matched, HasMean(key, mean));
      assert values[i] == MeanAt(key, mean)(usable[i]) == ValueOr0(mean(ControlCell(key)(usable[i])));
      assert ControlCell(key)(usable[i]) == CellKey(usable[i].control, key.condition, key.metric);
    }
  }

  /** The pairs matched to one target under one condition. */
  function MatchedTo(key: CellKey): Pair -> bool {
    (pair: Pair) => pair.target == key.anchor && pair.condition == key.condition
  }

  lemma {:induction false} MatchedIsFilter(pairs: seq<Pair>, key: CellKey)
    ensures Select(pairs, PlaceOf, Place(key.anchor, key.condition)) == Filter(pairs, MatchedTo(key))
  {
    if pairs != [] { MatchedIsFilter(pairs[1..], key); }
  }

  /** A target cell: measured, on a requested metric, and not at a control anchor. */
  ghost predicate IsTargetCell(items: seq<Item>, names: Option<set<string>>, key: CellKey) {
    CellMean(items)(key).Some? && (names.Some? ==> key.metric in names.value) && !IsControlAnchor(items)(key.anchor)
  }

  lemma RowHasKey(items: seq<Item>, pairs: seq<Pair>, cfg: Settings, sqrt: real -> real, key: CellKey)
    ensures ControlRowOf(items, pairs, cfg, sqrt)(key).key == key
  {
    ComparisonHasKey(key, CellValue(items)(key), Select(pairs, PlaceOf, Place(key.anchor, key.condition)),
                     CellMean(items), cfg, sqrt);
  }

  lemma ComparisonHasKey(key: CellKey, target: real, matched: seq<Pair>, mean: CellKey -> Option<real>, cfg: Settings,
                         sqrt: real -> real)
    ensures CompareOne(key, target, matched, mean, cfg, sqrt).key == key
  {
  }

  function TargetCells(items: seq<Item>, names: Option<set<string>>): seq<CellKey> {
    Filter(CellKeys(items), Compared(items, names))
  }

  lemma TargetCellsMeaning(items: seq<Item>, names: Option<set<string>>, key: CellKey)
    ensures key in TargetCells(items, names) <==> IsTargetCell(items, names, key)
  {
    FilterMembers(CellKeys(items), Compared(items, names));
    MeansExist(items);
    assert key in CellKeys(items) <==> CellMean(items)(key).Some?;
    assert Compared(items, names)(key) <==> Requested(names, key.metric) && !IsControlAnchor(items)(key.anchor);
  }

  /** The comparison of a target cell: its mean against the pairs matched to it under its condition. */
  lemma ComparedPairs(items: seq<Item>, pairs: seq<Pair>, cfg: Settings, sqrt: real -> real, key: CellKey)
    requires CellMean(items)(key).Some?
    ensures ControlRowOf(items, pairs, cfg, sqrt)(key)
            == CompareOne(key, CellMean(items)(key).value, Filter(pairs, MatchedTo(key)), CellMean(items), cfg, sqrt)
  {
    MatchedIsFilter(pairs, key);
    assert CellValue(items)(key) == ValueOr0(CellMean(items)(key));
  }

  /** There is one row for every target cell and no other. */
  lemma ControlRowsMeaning(items: seq<Item>, pairs: seq<Pair>, names: Option<set<string>>, cfg: Settings,
                           sqrt: real -> real, key: CellKey, row: ControlRow)
    ensures row in ControlRows(items, pairs, names, cfg, sqrt) && row.key == key
            <==> key in TargetCells(items, names) && row == ControlRowOf(items, pairs, cfg, sqrt)(key)
  {
    var kept, rowOf := TargetCells(items, names), ControlRowOf(items, pairs, cfg, sqrt);
    var rows := MapSeq(kept, rowOf);
    SortMembers(rows, RowLe);
    RowHasKey(items, pairs, cfg, sqrt, key);
    if key in kept && row == rowOf(key) {
      var i :| 0 <= i < |kept| && kept[i] == key;
      assert rows[i] in rows;
    }
    if row in rows && row.key == key {
      var i :| 0 <= i < |rows| && rows[i] == row;
      RowHasKey(items, pairs, cfg, sqrt, kept[i]);
      assert kept[i] in kept;
    }
  }

  /** Rows come in the order of sample, region, operator, parameters and metric. */
  lemma ControlRowsOrdered(items: seq<Item>, pairs: seq<Pair>, names: Option<set<string>>, cfg: Settings,
                           sqrt: real -> real, i: nat, j: nat)
    requires i < j < |ControlRows(items, pairs, names, cfg, sqrt)|
    ensures var x, y := ControlRows(items, pairs, names, cfg, sqrt)[i].key,
            ControlRows(items, pairs, names, cfg, sqrt)[j].key;
            LexLe([x.anchor.sample, x.anchor.region, x.condition.op, x.condition.params, x.metric],
                  [y.anchor.sample, y.anchor.region, y.condition.op, y.condition.params, y.metric])
  {
    var rows := MapSeq(TargetCells(items, names), ControlRowOf(items, pairs, cfg, sqrt));
    RowLeIsPreorder();
    SortSorts(rows, RowLe);
    assert RowLe(SortBy(rows, RowLe)[i], SortBy(rows, RowLe)[j]);
  }

  lemma RowLeIsPreorder()
    ensures TotalPreorder(RowLe)
  {
    forall x, y ensures RowLe(x, y) || RowLe(y, x) { LexLeTotal(CellFields(x.key), CellFields(y.key)); }
    forall x, y, z | RowLe(x, y) && RowLe(y, z) ensures RowLe(x, z) {
      LexLeTransitive(CellFields(x.key), CellFields(y.key), CellFields(z.key));
    }
  }

  // ------------------------------------------------------------------ what it means

  lemma AreasFitMeaning(matched: seq<Pair>, tolerance: real)
    ensures AreasFit(matched, tolerance)
            <==> forall pair :: pair in matched ==>
                 pair.ratio.Some? && 1.0 - tolerance <= pair.ratio.value <= 1.0 + tolerance
  {
    forall i | 0 <= i < |matched| ensures matched[i] in matched {}
  }

  /**
    What makes the comparison of a target cell raise: no metric name, or controls whose mean is zero
    under a threshold that lets it through.
   */
  ghost predicate TargetRaises(items: seq<Item>, pairs: seq<Pair>, cfg: Settings, key: CellKey) {
    var values := ControlValues(Filter(pairs, MatchedTo(key)), key, CellMean(items));
    key.metric == "" || (values != [] && Mean(values) == 0.0 && cfg.ratioZero <= 0.0)
  }

  /** The stage raises over a missing name, or where some target cell does. */
  lemma ComparableIff(items: seq<Item>, pairs: seq<Pair>, names: Option<set<string>>, cfg: Settings)
    ensures Comparable(items, pairs, names, cfg)
            <==> KeysNamed(items) && forall key :: IsTargetCell(items, names, key) ==>
                 !TargetRaises(items, pairs, cfg, key)
  {
    forall key ensures key in CellKeys(items) && Compared(items, names)(key) <==> IsTargetCell(items, names, key) {
      TargetCellsMeaning(items, names, key);
      FilterMembers(CellKeys(items), Compared(items, names));
    }
    forall key ensures RaisesAt(items, pairs, cfg)(key) <==> TargetRaises(items, pairs, cfg, key) {
      MatchedIsFilter(pairs, key);
    }
  }

  /**
    The constructor rejects a row exactly over an empty metric name; a row is available exactly when some matched
    control has a value, and has a standard score exactly when two or more controls have differing values.
   */
  lemma ControlRowMeaning(key: CellKey, target: real, matched: seq<Pair>, mean: CellKey -> Option<real>, cfg: Settings,
                          sqrt: real -> real)
    requires RankCorrelation.IsSqrt(sqrt)
    ensures var row := CompareOne(key, target, matched, mean, cfg, sqrt);
            var values := ControlValues(matched, key, mean);
            && (ControlRowAccepted(row) <==> key.metric != "")
            && (row.available == Yes <==> exists pair :: pair in matched && mean(ControlCell(key)(pair)).Some?)
            && (row.z.Some? <==> |values| >= 2 && !AllEqual(values))
            && (row.areaMatched == Yes
                <==> row.available == Yes && forall pair :: pair in matched ==>
                     pair.ratio.Some? && 1.0 - cfg.areaTolerance <= pair.ratio.value <= 1.0 + cfg.areaTolerance)
            && (row.areaMatched == Unavailable <==> row.available != Yes)
            && (row.available == Yes || row.available == Unavailable)
  {
    var values := ControlValues(matched, key, mean);
    FilterMembers(matched, HasMean(key, mean));
    AreasFitMeaning(matched, cfg.areaTolerance);
    if values == [] {
      forall pair | pair in matched ensures mean(ControlCell(key)(pair)).None? {
        assert pair in matched && HasMean(key, mean)(pair) ==> pair in Filter(matched, HasMean(key, mean));
      }
    } else {
      var pair := Filter(matched, HasMean(key, mean))[0];
      assert pair in Filter(matched, HasMean(key, mean));
      StdNonNegative(values, sqrt);
      StdZeroIffConstant(values, sqrt);
    }
  }

  /** The numbers of an available row, each pinned down by what it undoes. */
  lemma ControlRowNumbers(key: CellKey, target: real, matched: seq<Pair>, mean: CellKey -> Option<real>, cfg: Settings,
                          sqrt: real -> real)
    requires RankCorrelation.IsSqrt(sqrt) && ControlValues(matched, key, mean) != []
    ensures var row := CompareOne(key, target, matched, mean, cfg, sqrt);
            var values := ControlValues(matched, key, mean);
            && row.nControls == |values| && row.mean.Some? && row.std.Some? && row.excess.Some?
            && Repeat(row.mean.value, |values|) == Sum(values)
            && row.std.value >= 0.0
            && Repeat(Square(row.std.value), |values|) + Repeat(Square(row.mean.value), |values|) == SquareSum(values)
            && row.excess.value + row.mean.value == target
            && (row.ratio.Some? <==> Abs(row.mean.value) >= cfg.ratioZero && row.mean.value != 0.0)
            && (row.ratio.Some? ==> RankCorrelation.Product(row.ratio.value, row.mean.value) == target)
            && (row.z.Some? ==> RankCorrelation.Product(row.z.value, row.std.value) == row.excess.value)
  {
    var values := ControlValues(matched, key, mean);
    MeanRepeated(values);
    VarianceMeaning(values);
    RootSquared(values, sqrt);
    if Mean(values) != 0.0 { QuotientUndone(target, Mean(values)); }
    if Std(values, sqrt) != 0.0 { QuotientUndone(target - Mean(values), Std(values, sqrt)); }
  }

  lemma QuotientUndone(a: real, b: real)
    requires b != 0.0
    ensures RankCorrelation.Product(a / b, b) == a
  {
  }
}
