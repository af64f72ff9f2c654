/** Variation over repeated trials: `compute_seed_stability` of `ssat/analysis/stability.py`. */
module SeedStability {
  import opened Prelude
  import opened Ordering
  import opened Sums
  import opened Grouping
  import opened Mapping
  import opened AnalysisTypes
  import opened Items
  import opened ItemMeans
  import opened Spread
  import opened ControlComparison
  import RankCorrelation

  datatype SeedRow = SeedRow(key: CellKey, mean: real, std: Option<real>, cv: Option<real>, nSeeds: nat)

  /** The row constructor's checks. */
  predicate SeedRowAccepted(row: SeedRow) {
    && row.key.metric != ""
    && (row.std.Some? ==> row.std.value >= 0.0) && (row.cv.Some? ==> row.cv.value >= 0.0)
  }

  function VariationOf(std: real, mean: real, zero: real): Option<real> {
    if Abs(mean) >= zero && mean != 0.0 then Some(std / Abs(mean)) else None
  }

  /** A row raises over an empty metric name, or over a division by zero. */
  predicate SeedRaises(key: CellKey, values: seq<real>, zero: real) {
    key.metric == "" || (|values| >= 2 && DividesByZero(Mean(values), zero))
  }

  function SeedRaisesAt(items: seq<Item>, zero: real): CellKey -> bool {
    key => SeedRaises(key, CellValues(items, key), zero)
  }

  /** One row from the repeats of a condition. */
  function SeedRowOf(key: CellKey, values: seq<real>, zero: real, sqrt: real -> real): SeedRow
    requires values != []
  {
    var mean, std := Mean(values), Std(values, sqrt);
    if |values| >= 2 then SeedRow(key, mean, Some(std), VariationOf(std, mean, zero), |values|)
    else SeedRow(key, mean, None, None, |values|)
  }

  function RowFor(items: seq<Item>, zero: real, sqrt: real -> real): CellKey -> SeedRow {
    key => if CellValues(items, key) == [] then SeedRow(key, 0.0, None, None, 0)
           else SeedRowOf(key, CellValues(items, key), zero, sqrt)
  }

  function WantedCell(names: Option<set<string>>): CellKey -> bool { (key: CellKey) => Requested(names, key.metric) }

  /** `(sample, region, invert, op, params, metric)`; `False` sorts before `True`. */
  predicate SeedLe(x: SeedRow, y: SeedRow) { LexLe(SeedFields(x.key), SeedFields(y.key)) }

  function SeedFields(x: CellKey): seq<string> {
    [x.anchor.sample, x.anchor.region, if x.anchor.invert then "1" else "0",
     x.condition.op, x.condition.params, x.metric]
  }

  function SeedRows(items: seq<Item>, names: Option<set<string>>, zero: real, sqrt: real -> real): seq<SeedRow> {
    SortBy(MapSeq(Filter(CellKeys(items), WantedCell(names)), RowFor(items, zero, sqrt)), SeedLe)
  }

  ghost predicate Repeatable(items: seq<Item>, names: Option<set<string>>, zero: real) {
    KeysNamed(items) && NoneRaises(CellKeys(items), WantedCell(names), SeedRaisesAt(items, zero))
  }

  /** `compute_seed_stability`: control anchors are included. */
  method ComputeSeedStability(items: seq<Item>, names: Option<set<string>>, zero: real, sqrt: real -> real)
    returns (result: Result<seq<SeedRow>, Failure>)
    ensures result.Ok? <==> Repeatable(items, names, zero)
    ensures result.Ok? ==> result.value == SeedRows(items, names, zero, sqrt)
  {
    if !KeysNamed(items) { return Err(EmptyName); }
    var order, groups := GroupRows(Filter(items, IsAvailable), CellOf);
    KeysHaveRows(Filter(items, IsAvailable), CellOf);
    var rows := RowsInOrder(order, groups, names, zero, sqrt, RowFor(items, zero, sqrt), SeedRaisesAt(items, zero));
    if rows.Err? { return Err(rows.error); }
    result := Ok(SortBy(rows.value, SeedLe));
  }

  method RowsInOrder(order: seq<CellKey>, groups: map<CellKey, seq<Item>>, names: Option<set<string>>, zero: real,
                     sqrt: real -> real, ghost rowOf: CellKey -> SeedRow, ghost raises: CellKey -> bool)
    returns (result: Result<seq<SeedRow>, Failure>)
    requires forall k :: k in order ==>
             k in groups && groups[k] != [] && rowOf(k) == SeedRowOf(k, MapSeq(groups[k], Degradation), zero, sqrt)
    requires forall k :: k in order ==> raises(k) == SeedRaises(k, MapSeq(groups[k], Degradation), zero)
    ensures result.Ok? <==> NoneRaises(order, WantedCell(names), raises)
    ensures result.Ok? ==> result.value == MapSeq(Filter(order, WantedCell(names)), rowOf)
  {
    var rows := [];
    for i := 0 to |order|
      invariant rows == MapSeq(Filter(order[..i], WantedCell(names)), rowOf)
                && NoneRaises(order[..i], WantedCell(names), raises)
    {
      var key := order[i];
      assert key in order;
      CollectStep(order, i, WantedCell(names), rowOf);
      if Requested(names, key.metric) {
        var values := MapSeq(groups[key], Degradation);
        if |values| >= 2 && DividesByZero(Mean(values), zero) { return Err(DivisionByZero); }
        if key.metric == "" { return Err(EmptyName); }
        rows := rows + [SeedRowOf(key, values, zero, sqrt)];
      }
      assert order[..i + 1] == order[..i] + [key];
    }
    assert order[..|order|] == order;
    result := Ok(rows);
  }

  /** Rows are rejected exactly over an empty metric name; variation is zero exactly for repeats that agree. */
  lemma SeedRowMeaning(key: CellKey, values: seq<real>, zero: real, sqrt: real -> real)
    requires values != [] && RankCorrelation.IsSqrt(sqrt)
    ensures var row := SeedRowOf(key, values, zero, sqrt);
            && (SeedRowAccepted(row) <==> key.metric != "")
            && (row.cv.Some? <==> |values| >= 2 && Abs(row.mean) >= zero && row.mean != 0.0)
            && (row.cv.Some? ==> (row.cv.value == 0.0 <==> AllEqual(values)))
            && (row.cv.Some? ==> RankCorrelation.Product(row.cv.value, Abs(row.mean)) == row.std.value)
  {
    StdNonNegative(values, sqrt);
    StdZeroIffConstant(values, sqrt);
    if Mean(values) != 0.0 {
      QuotientSign(Std(values, sqrt), Abs(Mean(values)));
      QuotientUndone(Std(values, sqrt), Abs(Mean(values)));
    }
  }

  /** A row holds the number of repeats, their mean and, from two on, their spread. */
  lemma SeedRowNumbers(key: CellKey, values: seq<real>, zero: real, sqrt: real -> real)
    requires values != [] && RankCorrelation.IsSqrt(sqrt)
    ensures var row := SeedRowOf(key, values, zero, sqrt);
            && row.key == key && row.nSeeds == |values| && Repeat(row.mean, |values|) == Sum(values)
            && (row.std.Some? <==> |values| >= 2)
            && (row.std.Some? ==>
                && row.std.value >= 0.0
                && Repeat(Square(row.std.value), |values|) + Repeat(Square(row.mean), |values|) == SquareSum(values))
  {
    MeanRepeated(values);
    SeedSpread(values, sqrt);
  }

  lemma SeedSpread(values: seq<real>, sqrt: real -> real)
    requires values != [] && RankCorrelation.IsSqrt(sqrt)
    ensures Std(values, sqrt) >= 0.0
    ensures Repeat(Square(Std(values, sqrt)), |values|) + Repeat(Square(Mean(values)), |values|) == SquareSum(values)
  {
    StdNonNegative(values, sqrt);
    RootSquared(values, sqrt);
    VarianceMeaning(values);
  }

  // ------------------------------------------------------------- which rows there are

  /** Measured, and on a requested metric. */
  ghost predicate IsSeedCell(items: seq<Item>, names: Option<set<string>>, key: CellKey) {
    CellMean(items)(key).Some? && (names.Some? ==> key.metric in names.value)
  }

  function SeedCells(items: seq<Item>, names: Option<set<string>>): seq<CellKey> {
    Filter(CellKeys(items), WantedCell(names))
  }

  lemma SeedCellsMeaning(items: seq<Item>, names: Option<set<string>>, key: CellKey)
    ensures key in SeedCells(items, names) <==> IsSeedCell(items, names, key)
  {
    FilterMembers(CellKeys(items), WantedCell(names));
    MeansExist(items);
    assert key in CellKeys(items) <==> CellMean(items)(key).Some?;
    assert WantedCell(names)(key) <==> Requested(names, key.metric);
  }

  /** A row is made of the available items of its anchor, condition and metric. */
  lemma SeedRowOfItems(items: seq<Item>, zero: real, sqrt: real -> real, key: CellKey)
    ensures RowFor(items, zero, sqrt)(key).key == key
    ensures CellMean(items)(key).Some? ==>
              && MapSeq(Filter(items, InCell(key)), Degradation) != []
              && RowFor(items, zero, sqrt)(key)
                 == SeedRowOf(key, MapSeq(Filter(items, InCell(key)), Degradation), zero, sqrt)
  {
    CellIsFilter(items, key);
  }

  /** There is one row for every such condition and no other. */
  lemma SeedRowsMeaning(items: seq<Item>, names: Option<set<string>>, zero: real, sqrt: real -> real, key: CellKey,
                        row: SeedRow)
    ensures row in SeedRows(items, names, zero, sqrt) && row.key == key
            <==> key in SeedCells(items, names) && row == RowFor(items, zero, sqrt)(key)
  {
    var kept, rowFor := SeedCells(items, names), RowFor(items, zero, sqrt);
    var rows := MapSeq(kept, rowFor);
    SortMembers(rows, SeedLe);
    SeedRowOfItems(items, zero, sqrt, key);
    if key in kept && row == rowFor(key) {
      var i :| 0 <= i < |kept| && kept[i] == key;
      assert rows[i] in rows;
    }
    if row in rows && row.key == key {
      var i :| 0 <= i < |rows| && rows[i] == row;
      SeedRowOfItems(items, zero, sqrt, kept[i]);
      assert kept[i] in kept;
    }
  }

  /** Rows come in the order of sample, region, polarity, operator, parameters and metric. */
  lemma SeedRowsOrdered(items: seq<Item>, names: Option<set<string>>, zero: real, sqrt: real -> real, i: nat, j: nat)
    requires i < j < |SeedRows(items, names, zero, sqrt)|
    ensures var x, y := SeedRows(items, names, zero, sqrt)[i].key, SeedRows(items, names, zero, sqrt)[j].key;
            LexLe([x.anchor.sample, x.anchor.region, if x.anchor.invert then "1" else "0",
                   x.condition.op, x.condition.params, x.metric],
                  [y.anchor.sample, y.anchor.region, if y.anchor.invert then "1" else "0",
                   y.condition.op, y.condition.params, y.metric])
  {
    var rows := MapSeq(SeedCells(items, names), RowFor(items, zero, sqrt));
    SeedLeIsPreorder();
    SortSorts(rows, SeedLe);
    assert SeedLe(SortBy(rows, SeedLe)[i], SortBy(rows, SeedLe)[j]);
  }

  lemma SeedLeIsPreorder()
    ensures TotalPreorder(SeedLe)
  {
    forall x, y ensures SeedLe(x, y) || SeedLe(y, x) { LexLeTotal(SeedFields(x.key), SeedFields(y.key)); }
    forall x, y, z | SeedLe(x, y) && SeedLe(y, z) ensures SeedLe(x, z) {
      LexLeTransitive(SeedFields(x.key), SeedFields(y.key), SeedFields(z.key));
    }
  }

  /**
    The stage raises over a missing name, or over two or more repeats whose mean is zero under a
    threshold that lets it through.
   */
  lemma RepeatableIff(items: seq<Item>, names: Option<set<string>>, zero: real)
    ensures Repeatable(items, names, zero)
            <==> KeysNamed(items) && forall key :: IsSeedCell(items, names, key) ==>
                 key.metric != ""
                 && !(|MapSeq(Filter(items, InCell(key)), Degradation)| >= 2
                      && CellMean(items)(key) == Some(0.0) && zero <= 0.0)
  {
    forall key ensures key in CellKeys(items) && WantedCell(names)(key) <==> IsSeedCell(items, names, key) {
      SeedCellsMeaning(items, names, key);
      FilterMembers(CellKeys(items), WantedCell(names));
    }
    forall key ensures SeedRaisesAt(items, zero)(key)
                       <==> key.metric == "" || (|MapSeq(Filter(items, InCell(key)), Degradation)| >= 2
                                                 && CellMean(items)(key) == Some(0.0) && zero <= 0.0) {
      CellIsFilter(items, key);
    }
  }

  /** Two repeats that cancel out raise exactly when the threshold is not positive. */
  lemma CancellingRepeatsRaiseIff(key: CellKey, zero: real)
    requires key.metric != ""
    ensures SeedRaises(key, [1.0, -1.0], zero) <==> zero <= 0.0
  {
    MeanOfOpposites(1.0);
  }

  lemma QuotientSign(a: real, b: real)
    requires a >= 0.0 && b > 0.0
    ensures a / b >= 0.0 && (a / b == 0.0 <==> a == 0.0)
  {
    assert (a / b) * b == a;
  }

  // ------------------------------------------------------- the guard is not scale-free

  lemma AbsScaled(c: real, x: real, y: real)
    requires c > 0.0 && y == c * x
    ensures Abs(y) == Times(c)(Abs(x))
  {
    if x < 0.0 { RankCorrelation.PositiveProduct(c, -x); } else if x > 0.0 { RankCorrelation.PositiveProduct(c, x); }
  }

  lemma QuotientScaled(a: real, b: real, c: real, a': real, b': real)
    requires c > 0.0 && b != 0.0 && a' == c * a && b' == c * b
    ensures b' != 0.0 && a' / b' == a / b
  {
    StandardScoreScaled(a, 0.0, b, c);
  }

  lemma VariationOfScaled(std: real, mean: real, c: real, zero: real, std': real, mean': real)
    requires c > 0.0 && std' == c * std && mean' == c * mean
    ensures VariationOf(std', mean', zero) == VariationOf(std, mean, zero)
            <==> mean == 0.0 || (Times(c)(Abs(mean)) >= zero <==> Abs(mean) >= zero)
  {
    AbsScaled(c, mean, mean');
    if mean != 0.0 { PositiveFactor(c, mean); }
    if mean != 0.0 && Abs(mean) >= zero && Abs(mean') >= zero { QuotientScaled(std, Abs(mean), c, std', Abs(mean')); }
  }

  /**
    Multiplying all repeats by `c` leaves `seed_cv` alone exactly when their mean is zero or the
    zero-guard answers alike before and after.
   */
  lemma VariationScalesIff(key: CellKey, values: seq<real>, c: real, zero: real, sqrt: real -> real)
    requires |values| >= 2 && c > 0.0 && RankCorrelation.IsSqrt(sqrt)
    ensures Scaled(values, c) != []
    ensures SeedRowOf(key, Scaled(values, c), zero, sqrt).cv == SeedRowOf(key, values, zero, sqrt).cv
            <==> Mean(values) == 0.0 || (Times(c)(Abs(Mean(values))) >= zero <==> Abs(Mean(values)) >= zero)
  {
    MeanScaled(values, c);
    StdScaled(values, c, sqrt);
    VariationOfScaled(Std(values, sqrt), Mean(values), c, zero, Std(Scaled(values, c), sqrt), Mean(Scaled(values, c)));
  }
}
