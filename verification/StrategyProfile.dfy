/** Operator profiles: `compute_strategy_profile` of `ssat/analysis/strategy_profile.py`. */
module StrategyProfile {
  import opened Prelude
  import opened Ordering
  import opened Sums
  import opened Grouping
  import opened AnalysisTypes
  import opened Clustering

  // ------------------------------------------------------- correlation lookup

  /** `spearman_excl_top1` is preferred over `spearman`. */
  function PreferredWeight(row: RankCorrelationRow): Option<real> {
    if row.spearmanExclTop.Some? then row.spearmanExclTop else row.spearman
  }

  function PairOf(row: RankCorrelationRow): (string, string) { (row.opA, row.opB) }

  /** What the rows store for a pair in this order: the preferred weight of the last row naming it. */
  function StoredWeight(rows: seq<RankCorrelationRow>, pair: (string, string)): Option<Option<real>> {
    var last := Last(Select(rows, PairOf, pair));
    if last.None? then None else Some(PreferredWeight(last.value))
  }

  ghost predicate IsLookup(lookup: Lookup<string>, rows: seq<RankCorrelationRow>) {
    forall pair: (string, string) {:trigger Find(lookup, pair)} :: Find(lookup, pair) == StoredWeight(rows, pair)
  }

  lemma StoredOneMore(rows: seq<RankCorrelationRow>, row: RankCorrelationRow, pair: (string, string))
    ensures StoredWeight(rows + [row], pair) == if pair == PairOf(row) then Some(PreferredWeight(row))
            else StoredWeight(rows, pair)
  {
    SelectAppend(rows, [row], PairOf, pair);
  }

  /** `_correlation_lookup`: a pair is a key exactly when some row names it so, and then the last such row decides. */
  method CorrelationLookup(rows: seq<RankCorrelationRow>) returns (lookup: Lookup<string>)
    ensures IsLookup(lookup, rows)
  {
    lookup := map[];
    for i := 0 to |rows|
      invariant IsLookup(lookup, rows[..i])
    {
      assert rows[..i + 1] == rows[..i] + [rows[i]];
      ghost var before := lookup;
      lookup := lookup[(rows[i].opA, rows[i].opB) := PreferredWeight(rows[i])];
      forall pair ensures Find(lookup, pair) == StoredWeight(rows[..i + 1], pair) {
        StoredOneMore(rows[..i], rows[i], pair);
        assert Find(before, pair) == StoredWeight(rows[..i], pair);
      }
    }
    assert rows[..|rows|] == rows;
  }

  /** A pair is a key exactly when some row names it in this order. */
  lemma LookupKeys(rows: seq<RankCorrelationRow>, lookup: Lookup<string>, a: string, b: string)
    requires IsLookup(lookup, rows)
    ensures (a, b) in lookup <==> exists row :: row in rows && row.opA == a && row.opB == b
  {
    SelectMembers(rows, PairOf, (a, b));
    assert Find(lookup, (a, b)) == StoredWeight(rows, (a, b));
    var named := Select(rows, PairOf, (a, b));
    if named != [] { assert named[|named| - 1] in named; }
  }

  /** The last row naming a pair gives its reduced correlation if it has one, else its full one. */
  lemma LookupMeaning(rows: seq<RankCorrelationRow>, lookup: Lookup<string>, i: nat)
    requires IsLookup(lookup, rows) && i < |rows|
    requires forall j :: i < j < |rows| ==> rows[j].opA != rows[i].opA || rows[j].opB != rows[i].opB
    ensures var pair := (rows[i].opA, rows[i].opB);
            && pair in lookup
            && (rows[i].spearmanExclTop.Some? ==> lookup[pair] == rows[i].spearmanExclTop)
            && (rows[i].spearmanExclTop.None? ==> lookup[pair] == rows[i].spearman)
  {
    var pair := (rows[i].opA, rows[i].opB);
    LastSelected(rows, i, pair);
    assert Find(lookup, pair) == StoredWeight(rows, pair);
  }

  lemma LastSelected(rows: seq<RankCorrelationRow>, i: nat, pair: (string, string))
    requires i < |rows| && PairOf(rows[i]) == pair && forall j :: i < j < |rows| ==> PairOf(rows[j]) != pair
    ensures Last(Select(rows, PairOf, pair)) == Some(rows[i])
  {
    assert rows == rows[..i] + ([rows[i]] + rows[i + 1..]);
    SelectAppend(rows[..i], [rows[i]] + rows[i + 1..], PairOf, pair);
    SelectCons(rows[i], rows[i + 1..], PairOf, pair);
    NoneSelected(rows[i + 1..], PairOf, pair);
  }

  /** A stored weight comes from a row that names the pair in this order. */
  lemma StoredOrigin(rows: seq<RankCorrelationRow>, lookup: Lookup<string>, pair: (string, string))
    returns (row: RankCorrelationRow)
    requires IsLookup(lookup, rows) && pair in lookup
    ensures row in rows && PairOf(row) == pair && lookup[pair] == PreferredWeight(row)
  {
    assert Find(lookup, pair) == StoredWeight(rows, pair);
    var named := Select(rows, PairOf, pair);
    row := named[|named| - 1];
    SelectMembers(rows, PairOf, pair);
    assert row in named;
  }

  /** Each unordered pair is stored in one order only. */
  ghost predicate OneOrder<T(!new)>(lookup: Lookup<T>) {
    forall a, b :: (a, b) in lookup && (b, a) in lookup ==> a == b
  }

  /** Rank-correlation rows come with `op_a` before `op_b`, so their lookup has one order per pair. */
  lemma OrderedRowsGiveOneOrder(rows: seq<RankCorrelationRow>, lookup: Lookup<string>)
    requires IsLookup(lookup, rows) && forall row :: row in rows ==> StrLt(row.opA, row.opB)
    ensures OneOrder(lookup)
  {
    forall a, b | (a, b) in lookup ensures StrLt(a, b) {
      var row := StoredOrigin(rows, lookup, (a, b));
    }
    forall a, b ensures (a, b) in lookup ==> (b, a) !in lookup { StrLtAsymmetric(a, b); }
  }

  lemma StrLtAsymmetric(a: string, b: string)
    ensures !(StrLt(a, b) && StrLt(b, a))
  {
    if StrLe(a, b) && StrLe(b, a) { StrLeAntisymmetric(a, b); }
  }

  // -------------------------------------------------------- mean correlations

  /** Whether `other` counts for the within- or across-cluster mean of an operator in cluster `id`. */
  predicate Counted<T(==)>(op: T, other: T, ids: map<T, Option<nat>>, id: nat, within: bool) {
    other != op && ((other in ids && ids[other] == Some(id)) == within)
  }

  function CountedWeights<T(==)>(op: T, ops: seq<T>, ids: map<T, Option<nat>>, id: nat, lookup: Lookup<T>,
                                 within: bool): seq<real>
  {
    if ops == [] then []
    else
      var other := ops[|ops| - 1];
      var weight := LookupWeight(op, other, lookup);
      CountedWeights(op, ops[..|ops| - 1], ids, id, lookup, within)
      + (if Counted(op, other, ids, id, within) && weight.Some? then [weight.value] else [])
  }

  function MeanCorrOf<T(==)>(op: T, ops: seq<T>, ids: map<T, Option<nat>>, lookup: Lookup<T>,
                             within: bool): Option<real>
  {
    if op !in ids || ids[op] == None then None
    else
      var values := CountedWeights(op, ops, ids, ids[op].value, lookup, within);
      if values == [] then None else Some(Mean(values))
  }

  /** `_mean_corr`. */
  method MeanCorr<T(==)>(op: T, ops: seq<T>, ids: map<T, Option<nat>>, lookup: Lookup<T>, within: bool)
    returns (mean: Option<real>)
    ensures mean == MeanCorrOf(op, ops, ids, lookup, within)
  {
    if op !in ids || ids[op] == None { return None; }
    var id := ids[op].value;
    var values := [];
    for i := 0 to |ops|
      invariant values == CountedWeights(op, ops[..i], ids, id, lookup, within)
    {
      assert ops[..i + 1][..i] == ops[..i];
      var other := ops[i];
      if Counted(op, other, ids, id, within) {
        var weight := LookupWeight(op, other, lookup);
        if weight.Some? { values := values + [weight.value]; }
      }
    }
    assert ops[..|ops|] == ops;
    mean := if values == [] then None else Some(Mean(values));
  }

  ghost predicate IsCountedWeight<T(!new)>(op: T, ops: seq<T>, ids: map<T, Option<nat>>, id: nat, lookup: Lookup<T>,
                                           within: bool, v: real)
  {
    exists other :: other in ops && Counted(op, other, ids, id, within) && LookupWeight(op, other, lookup) == Some(v)
  }

  /** The mean's terms are exactly the known weights to the counted operators. */
  lemma {:induction false} CountedWeightsOrigin<T(!new)>(op: T, ops: seq<T>, ids: map<T, Option<nat>>, id: nat,
                                                         lookup: Lookup<T>, within: bool)
    ensures forall v :: v in CountedWeights(op, ops, ids, id, lookup, within) <==>
              IsCountedWeight(op, ops, ids, id, lookup, within, v)
  {
    if ops != [] {
      var init, last := ops[..|ops| - 1], ops[|ops| - 1];
      CountedWeightsOrigin(op, init, ids, id, lookup, within);
      assert ops == init + [last];
      forall v
        ensures v in CountedWeights(op, ops, ids, id, lookup, within)
                <==> IsCountedWeight(op, ops, ids, id, lookup, within, v)
      {
        if IsCountedWeight(op, init, ids, id, lookup, within, v) {
          var other :| other in init && Counted(op, other, ids, id, within)
            && LookupWeight(op, other, lookup) == Some(v);
          assert other in ops;
        }
        if Counted(op, last, ids, id, within) && LookupWeight(op, last, lookup) == Some(v) { assert last in ops; }
      }
    }
  }

  /** The other operators counted: in the cluster or outside it, with a known weight to `op`. */
  function CountsWith<T(==)>(op: T, ids: map<T, Option<nat>>, id: nat, lookup: Lookup<T>, within: bool): T -> bool {
    other => other != op && (other in ids && ids[other] == Some(id) <==> within)
      && LookupWeight(op, other, lookup).Some?
  }

  lemma {:induction false} CountedWeightsMeaning<T(!new)>(op: T, ops: seq<T>, ids: map<T, Option<nat>>, id: nat,
                                                          lookup: Lookup<T>, within: bool)
    ensures var others := Filter(ops, CountsWith(op, ids, id, lookup, within));
            var values := CountedWeights(op, ops, ids, id, lookup, within);
            && |values| == |others|
            && forall i :: 0 <= i < |others| ==> LookupWeight(op, others[i], lookup) == Some(values[i])
  {
    if ops != [] {
      var n := |ops| - 1;
      CountedWeightsMeaning(op, ops[..n], ids, id, lookup, within);
      assert ops == ops[..n] + [ops[n]];
      FilterAppend(ops[..n], [ops[n]], CountsWith(op, ids, id, lookup, within));
    }
  }

  /** The mean of an operator with an id averages its weights to the counted operators; without an id there is none. */
  lemma MeanCorrMeaning<T(!new)>(op: T, ops: seq<T>, ids: map<T, Option<nat>>, lookup: Lookup<T>, within: bool)
    ensures var mean := MeanCorrOf(op, ops, ids, lookup, within);
            if op !in ids || ids[op].None? then mean == None
            else
              var values := CountedWeights(op, ops, ids, ids[op].value, lookup, within);
              if values == [] then mean == None else mean.Some? && Repeat(mean.value, |values|) == Sum(values)
  {
    if op in ids && ids[op].Some? {
      var values := CountedWeights(op, ops, ids, ids[op].value, lookup, within);
      if values != [] { MeanRepeated(values); }
    }
  }

  /** A mean of values below a bound is below it: it is at most the largest value. */
  lemma {:induction false} GreatestOf(s: seq<real>) returns (top: real)
    requires s != []
    ensures top in s && forall i :: 0 <= i < |s| ==> s[i] <= top
  {
    top := s[0];
    if |s| > 1 {
      var rest := GreatestOf(s[1..]);
      if rest > top { top := rest; }
    }
  }

  lemma MeanBelow(s: seq<real>, bound: real)
    requires s != [] && forall i :: 0 <= i < |s| ==> s[i] < bound
    ensures Mean(s) < bound
  {
    var top := GreatestOf(s);
    MeanAtMost(s, top);
  }

  function Numbered<T(==)>(ids: map<T, nat>): map<T, Option<nat>> {
    map op | op in ids :: Some(ids[op])
  }

  /** The weight read for `a` against `b` reaches the threshold. */
  predicate Reaches<T(==)>(g: Graph<T>, a: T, b: T) {
    var w := LookupWeight(a, b, g.lookup);
    w.Some? && w.value >= g.threshold
  }

  /** Both readings of every pair lie on the same side of the threshold: a test on the lookup alone. */
  ghost predicate SameSide<T(!new)>(g: Graph<T>) {
    forall a, b :: a in g.ops && b in g.ops ==> (Reaches(g, a, b) <==> Reaches(g, b, a))
  }

  /**
    The edge test reads a pair in operator order; the other reading of an unconnected pair stays
    below the threshold.
   */
  ghost predicate SecondReadingsBelow<T(!new)>(g: Graph<T>) {
    forall i, j {:trigger g.ops[i], g.ops[j]} :: 0 <= i < j < |g.ops| && !Connected(g, g.ops[i], g.ops[j]) ==>
      !Reaches(g, g.ops[j], g.ops[i])
  }

  lemma OneOrderSameSide<T(!new)>(g: Graph<T>)
    requires OneOrder(g.lookup)
    ensures SameSide(g)
  {
    forall a, b | a in g.ops && b in g.ops ensures LookupWeight(a, b, g.lookup) == LookupWeight(b, a, g.lookup) {}
  }

  lemma FirstReadingLinks<T(!new)>(g: Graph<T>, i: nat, j: nat)
    requires i < j < |g.ops| && Reaches(g, g.ops[i], g.ops[j])
    ensures Connected(g, g.ops[i], g.ops[j])
  {
    assert EdgeAt(g, i, j);
    assert Linked(g, g.ops[i], g.ops[j]);
    LinkedConnects(g, g.ops[i], g.ops[j]);
  }

  lemma SameSideBelow<T(!new)>(g: Graph<T>)
    requires SameSide(g)
    ensures SecondReadingsBelow(g)
  {
    forall i, j {:trigger g.ops[i], g.ops[j]} | 0 <= i < j < |g.ops| && !Connected(g, g.ops[i], g.ops[j])
      ensures !Reaches(g, g.ops[j], g.ops[i])
    {
      assert g.ops[i] in g.ops && g.ops[j] in g.ops;
      if Reaches(g, g.ops[i], g.ops[j]) { FirstReadingLinks(g, i, j); }
    }
  }

  lemma UnlinkedBelow<T(!new)>(g: Graph<T>, a: T, b: T)
    requires SecondReadingsBelow(g) && a in g.ops && b in g.ops && !Connected(g, a, b)
    ensures !Reaches(g, a, b)
  {
    var i :| 0 <= i < |g.ops| && g.ops[i] == a;
    var j :| 0 <= j < |g.ops| && g.ops[j] == b;
    if i < j {
      if Reaches(g, a, b) { FirstReadingLinks(g, i, j); }
    } else if i == j {
      ConnectedReflexive(g, a);
    } else if Connected(g, b, a) {
      ConnectedSymmetric(g, b, a);
    }
  }

  /** What the across-cluster mean of an operator averages. */
  function AcrossWeights<T(==)>(g: Graph<T>, ids: map<T, nat>, op: T): seq<real>
    requires op in ids
  {
    CountedWeights(op, g.ops, Numbered(ids), ids[op], g.lookup, false)
  }

  lemma AcrossWeightsOrigin<T(!new)>(g: Graph<T>, le: (T, T) -> bool, ids: map<T, nat>, op: T, v: real)
    requires IsClustering(g, le, ids) && op in g.ops
    ensures v in AcrossWeights(g, ids, op)
            <==> exists other ::
                 other in g.ops && !Connected(g, op, other) && LookupWeight(op, other, g.lookup) == Some(v)
  {
    var n := Numbered(ids);
    assert op in ids;
    CountedWeightsOrigin(op, g.ops, n, ids[op], g.lookup, false);
    forall other | other in g.ops ensures Counted(op, other, n, ids[op], false) <==> !Connected(g, op, other) {
      assert other in ids;
      ConnectedReflexive(g, op);
    }
    if v in AcrossWeights(g, ids, op) {
      assert IsCountedWeight(op, g.ops, n, ids[op], g.lookup, false, v);
    }
    forall other | other in g.ops && !Connected(g, op, other) && LookupWeight(op, other, g.lookup) == Some(v)
      ensures v in AcrossWeights(g, ids, op)
    {
      assert IsCountedWeight(op, g.ops, n, ids[op], g.lookup, false, v);
    }
  }

  /**
    Every weight read across clusters is below the threshold exactly when no unconnected pair's
    second reading reaches it.
   */
  lemma AcrossWeightsBelowIff<T(!new)>(g: Graph<T>, le: (T, T) -> bool, ids: map<T, nat>)
    requires IsClustering(g, le, ids)
    ensures (forall op, v :: op in ids && v in AcrossWeights(g, ids, op) ==> v < g.threshold)
            <==> SecondReadingsBelow(g)
  {
    if SecondReadingsBelow(g) {
      forall op, v | op in ids && v in AcrossWeights(g, ids, op) ensures v < g.threshold {
        AcrossWeightsOrigin(g, le, ids, op, v);
        var other :| other in g.ops && !Connected(g, op, other) && LookupWeight(op, other, g.lookup) == Some(v);
        UnlinkedBelow(g, op, other);
      }
    }
    if forall op, v :: op in ids && v in AcrossWeights(g, ids, op) ==> v < g.threshold {
      forall i, j {:trigger g.ops[i], g.ops[j]} | 0 <= i < j < |g.ops| && !Connected(g, g.ops[i], g.ops[j])
        ensures !Reaches(g, g.ops[j], g.ops[i])
      {
        SecondReadingCounted(g, le, ids, g.ops[i], g.ops[j]);
      }
    }
  }

  lemma SecondReadingCounted<T(!new)>(g: Graph<T>, le: (T, T) -> bool, ids: map<T, nat>, a: T, b: T)
    requires IsClustering(g, le, ids) && a in g.ops && b in g.ops && !Connected(g, a, b)
    ensures b in ids && (LookupWeight(b, a, g.lookup).Some? ==>
                         LookupWeight(b, a, g.lookup).value in AcrossWeights(g, ids, b))
  {
    assert b in ids;
    if Connected(g, b, a) { ConnectedSymmetric(g, b, a); }
    var w := LookupWeight(b, a, g.lookup);
    if w.Some? { AcrossWeightsOrigin(g, le, ids, b, w.value); }
  }

  /** Across-cluster agreement, where known, is strictly below the cluster threshold. */
  lemma AcrossBelowThreshold<T(!new)>(g: Graph<T>, le: (T, T) -> bool, ids: map<T, nat>, op: T)
    requires SecondReadingsBelow(g) && IsClustering(g, le, ids) && op in g.ops
    ensures var mean := MeanCorrOf(op, g.ops, Numbered(ids), g.lookup, false);
            mean.Some? ==> mean.value < g.threshold
  {
    assert op in ids;
    AcrossWeightsBelowIff(g, le, ids);
    var values := AcrossWeights(g, ids, op);
    forall i | 0 <= i < |values| ensures values[i] < g.threshold { assert values[i] in values; }
    if values != [] { MeanBelow(values, g.threshold); }
  }

  /** Storing both orders of a pair breaks the bound: the edge test and the mean read different cells. */
  lemma BothOrdersBreakTheBound<T(!new)>(a: T, b: T, le: (T, T) -> bool, low: real, threshold: real, high: real)
    requires TotalOrder(le) && le(a, b) && a != b && low < threshold <= high
    ensures var lookup: Lookup<T> := map[(a, b) := Some(low), (b, a) := Some(high)];
            && IsClustering(Graph([a, b], lookup, threshold), le, map[a := 0, b := 1])
            && MeanCorrOf(b, [a, b], Numbered(map[a := 0, b := 1]), lookup, false) == Some(high)
  {
    var lookup: Lookup<T> := map[(a, b) := Some(low), (b, a) := Some(high)];
    var g := Graph([a, b], lookup, threshold);
    var ids: map<T, nat> := map[a := 0, b := 1];
    assert !EdgeAt(g, 0, 1);
    forall x, y | Connected(g, x, y) ensures x == y {
      var p :| Chain(g, p) && p[0] == x && p[|p| - 1] == y;
      assert |p| > 1 ==> Linked(g, p[0], p[1]);
    }
    assert a in g.ops && b in g.ops;
    ConnectedReflexive(g, a);
    ConnectedReflexive(g, b);
    assert le(a, a) && le(b, b);
    assert IsLeader(g, le, a, a) && IsLeader(g, le, b, b);
    assert HasLeader(g, le, a) && HasLeader(g, le, b);
    assert IdUsed(ids, 0) by { assert ids[a] == 0; }
    var n := Numbered(ids);
    assert [a, b][..1] == [a] && [a][..0] == [];
    assert Counted(b, a, n, 1, false) && !Counted(b, b, n, 1, false);
    assert CountedWeights(b, [a], n, 1, lookup, false) == [high];
    assert CountedWeights(b, [a, b], n, 1, lookup, false) == [high];
    assert Sum([high]) == high;
    assert Mean([high]) == high;
  }

  // -------------------------------------------------------- raising the threshold

  lemma RaisingThresholdKeepsFewerLinks<T(!new)>(g: Graph<T>, higher: real, a: T, b: T)
    requires higher >= g.threshold && Connected(g.(threshold := higher), a, b)
    ensures Connected(g, a, b)
  {
    var g' := g.(threshold := higher);
    var p :| Chain(g', p) && p[0] == a && p[|p| - 1] == b;
    forall i | 0 <= i < |p| - 1 ensures Linked(g, p[i], p[i + 1]) {
      assert Linked(g', p[i], p[i + 1]);
      var k: nat, l: nat :| k < l < |g.ops| && EdgeAt(g', k, l)
                            && ((p[i], p[i + 1]) == (g.ops[k], g.ops[l]) || (p[i + 1], p[i]) == (g.ops[k], g.ops[l]));
      assert EdgeAt(g, k, l);
    }
    assert Chain(g, p);
  }

  /** Raising the threshold only splits clusters. */
  lemma RaisingThresholdOnlySplits<T(!new)>(g: Graph<T>, higher: real, le: (T, T) -> bool, ids: map<T, nat>,
                                            ids': map<T, nat>)
    requires higher >= g.threshold
    requires IsClustering(g, le, ids) && IsClustering(g.(threshold := higher), le, ids')
    ensures forall a, b :: a in ids && b in ids && ids'[a] == ids'[b] ==> ids[a] == ids[b]
  {
    var g' := g.(threshold := higher);
    forall a, b | a in ids && b in ids && ids'[a] == ids'[b] ensures ids[a] == ids[b] {
      assert Connected(g', a, b);
      RaisingThresholdKeepsFewerLinks(g, higher, a, b);
    }
  }

  // ----------------------------------------------------------------- alignment

  datatype Alignment = Aligned | Partial | Divergent

  function DeclaredGroup<T(==)>(op: T, ops: seq<T>, declared: map<T, bool>): set<T>
    requires op in ops && forall x :: x in ops ==> x in declared
  {
    set x | x in ops && declared[x] == declared[op]
  }

  function EmpiricalGroup<T(==)>(op: T, ops: seq<T>, ids: map<T, Option<nat>>): set<T>
    requires op in ids && forall x :: x in ops ==> x in ids
  {
    if ids[op].Some? then set x | x in ops && ids[x] == ids[op] else {op}
  }

  /** `_alignment`: the Jaccard index of the declared and the empirical group, in three steps. */
  function AlignmentOf<T(==)>(op: T, ops: seq<T>, declared: map<T, bool>, ids: map<T, Option<nat>>): Alignment
    requires op in ops && forall x :: x in ops ==> x in declared && x in ids
  {
    var d, e := DeclaredGroup(op, ops, declared), EmpiricalGroup(op, ops, ids);
    var jaccard := if |d + e| != 0 then (|d * e| as real) / (|d + e| as real) else 1.0;
    if jaccard >= 1.0 then Aligned else if jaccard >= 0.5 then Partial else Divergent
  }

  lemma RatioAtLeast(x: real, n: real, q: real)
    requires n > 0.0
    ensures x / n >= q <==> x >= q * n
  {
    assert (x / n) * n == x;
    if x / n >= q { assert (x / n) * n >= q * n; } else { CancelContrapositive(x / n, q, n); }
  }

  lemma CancelContrapositive(a: real, b: real, n: real)
    requires n > 0.0 && a < b
    ensures a * n < b * n
  {
  }

  /** ALIGNED means equal groups; PARTIAL means sharing at least half of the joint membership. */
  lemma AlignmentMeaning<T>(op: T, ops: seq<T>, declared: map<T, bool>, ids: map<T, Option<nat>>)
    requires op in ops && forall x :: x in ops ==> x in declared && x in ids
    ensures var d, e := DeclaredGroup(op, ops, declared), EmpiricalGroup(op, ops, ids);
            && (AlignmentOf(op, ops, declared, ids) == Aligned <==> d == e)
            && (AlignmentOf(op, ops, declared, ids) == Divergent <==> 2 * |d * e| < |d + e|)
  {
    var d, e := DeclaredGroup(op, ops, declared), EmpiricalGroup(op, ops, ids);
    assert op in d && op in d + e;
    SubsetSize(d * e, d + e);
    SubsetSize({op}, d + e);
    var x, n := |d * e| as real, |d + e| as real;
    RatioAtLeast(x, n, 1.0);
    RatioAtLeast(x, n, 0.5);
    if d * e == d + e {
      forall y ensures y in d <==> y in e { assert y in d + e <==> y in d * e; }
    }
    assert d == e ==> d * e == d && d + e == d;
  }

  /** The declared partition is the partition into components. */
  ghost predicate PartitionsAgree<T(!new)>(g: Graph<T>, declared: map<T, bool>)
    requires forall x :: x in g.ops ==> x in declared
  {
    forall a, b {:trigger Connected(g, a, b)} ::
      a in g.ops && b in g.ops ==> (declared[a] == declared[b] <==> Connected(g, a, b))
  }

  lemma GroupMembers<T(!new)>(g: Graph<T>, le: (T, T) -> bool, ids: map<T, nat>, declared: map<T, bool>, a: T, b: T)
    requires IsClustering(g, le, ids) && (forall x :: x in g.ops ==> x in declared) && a in g.ops
    ensures b in DeclaredGroup(a, g.ops, declared) <==> b in g.ops && declared[a] == declared[b]
    ensures b in EmpiricalGroup(a, g.ops, Numbered(ids)) <==> b in g.ops && Connected(g, a, b)
  {
    if b in g.ops { assert ids[a] == ids[b] <==> Connected(g, a, b); }
  }

  /** With ids, every operator is ALIGNED exactly when the declared partition is the partition into components. */
  lemma NumberedAlignedIff<T(!new)>(g: Graph<T>, le: (T, T) -> bool, ids: map<T, nat>, declared: map<T, bool>)
    requires IsClustering(g, le, ids) && forall x :: x in g.ops ==> x in declared
    ensures (forall op :: op in g.ops ==> AlignmentOf(op, g.ops, declared, Numbered(ids)) == Aligned)
            <==> PartitionsAgree(g, declared)
  {
    var n := Numbered(ids);
    if PartitionsAgree(g, declared) {
      forall op | op in g.ops ensures AlignmentOf(op, g.ops, declared, n) == Aligned {
        AlignmentMeaning(op, g.ops, declared, n);
        forall x ensures x in DeclaredGroup(op, g.ops, declared) <==> x in EmpiricalGroup(op, g.ops, n) {
          GroupMembers(g, le, ids, declared, op, x);
        }
      }
    }
    if forall op :: op in g.ops ==> AlignmentOf(op, g.ops, declared, n) == Aligned {
      forall a, b {:trigger Connected(g, a, b)} | a in g.ops && b in g.ops
        ensures declared[a] == declared[b] <==> Connected(g, a, b)
      {
        AlignmentMeaning(a, g.ops, declared, n);
        GroupMembers(g, le, ids, declared, a, b);
      }
    }
  }

  // ------------------------------------------------------- sign-group summary

  /** `(region_key, value)` of every anchor that `op` was measured on. */
  function OpValues(rows: seq<StrategyRow>, op: string, metric: string): seq<(string, real)> {
    if rows == [] then []
    else
      (if rows[0].metric == metric && op in rows[0].values then [(rows[0].anchor.region, rows[0].values[op])] else [])
      + OpValues(rows[1..], op, metric)
  }

  /** Highest value first, ties by region key. */
  predicate RankedBefore(x: (string, real), y: (string, real)) {
    x.1 > y.1 || (x.1 == y.1 && StrLe(x.0, y.0))
  }

  function ValueOf(x: (string, real)): real { x.1 }

  function PositiveOne(x: (string, real)): real { if x.1 > 0.0 then 1.0 else 0.0 }

  datatype SignSummary = SignSummary(meanExclTop: Option<real>, signRatioPositive: Option<real>, nAnchors: nat)

  /** `_sign_group_summary`. */
  function SignGroupSummary(rows: seq<StrategyRow>, op: string, metric: string, topK: nat): SignSummary {
    var values := OpValues(rows, op, metric);
    if values == [] then SignSummary(None, None, 0)
    else
      var ranked := SortBy(values, RankedBefore);
      var remaining := if topK <= |ranked| then ranked[topK..] else [];
      SignSummary(if remaining == [] then None else Some(Mean(MapSeq(remaining, ValueOf))),
                  Some(Total(values, PositiveOne) / (|values| as real)),
                  |values|)
  }

  lemma RankedBeforeIsPreorder()
    ensures TotalPreorder(RankedBefore)
  {
    StrLeIsTotalOrder();
  }

  lemma {:induction false} PositiveCountBounds(values: seq<(string, real)>)
    ensures 0.0 <= Total(values, PositiveOne) <= |values| as real
  {
    if values != [] { PositiveCountBounds(values[1..]); }
  }

  lemma {:induction false} JoinedSumAtLeast(top: seq<real>, rest: seq<real>, m: real)
    requires Repeat(m, |rest|) <= Sum(rest) && forall i :: 0 <= i < |top| ==> m <= top[i]
    ensures Repeat(m, |top + rest|) <= Sum(top + rest)
  {
    if top == [] {
      assert top + rest == rest;
    } else {
      assert (top + rest)[1..] == top[1..] + rest;
      JoinedSumAtLeast(top[1..], rest, m);
    }
  }

  /** If every dropped value is at least every kept one, dropping cannot raise the mean. */
  lemma DroppingTopLowersMean(top: seq<real>, rest: seq<real>)
    requires rest != [] && forall i, j :: 0 <= i < |top| && 0 <= j < |rest| ==> top[i] >= rest[j]
    ensures Mean(rest) <= Mean(top + rest)
  {
    forall i | 0 <= i < |top| ensures Mean(rest) <= top[i] { MeanAtMost(rest, top[i]); }
    MeanRepeated(rest);
    JoinedSumAtLeast(top, rest, Mean(rest));
    SumAboveGivesMean(top + rest, Mean(rest));
  }

  ghost predicate Falls(ranked: seq<(string, real)>) {
    forall i, j :: 0 <= i < j < |ranked| ==> ranked[i].1 >= ranked[j].1
  }

  lemma RankedFalls(values: seq<(string, real)>)
    ensures |SortBy(values, RankedBefore)| == |values| && Falls(SortBy(values, RankedBefore))
  {
    SortPermutes(values, RankedBefore);
    RankedBeforeIsPreorder();
    SortSorts(values, RankedBefore);
    var ranked := SortBy(values, RankedBefore);
    forall i, j | 0 <= i < j < |ranked| ensures ranked[i].1 >= ranked[j].1 {
      assert RankedBefore(ranked[i], ranked[j]);
    }
  }

  lemma DroppingFirstLowersMean(ranked: seq<(string, real)>, k: nat)
    requires Falls(ranked) && k < |ranked|
    ensures Mean(MapSeq(ranked[k..], ValueOf)) <= Mean(MapSeq(ranked, ValueOf))
  {
    var top, rest := MapSeq(ranked[..k], ValueOf), MapSeq(ranked[k..], ValueOf);
    assert MapSeq(ranked, ValueOf) == top + rest by {
      assert ranked == ranked[..k] + ranked[k..];
      MapAppend(ranked[..k], ranked[k..], ValueOf);
    }
    forall i, j | 0 <= i < |top| && 0 <= j < |rest| ensures top[i] >= rest[j] { FirstAbove(ranked, k, i, j); }
    DroppingTopLowersMean(top, rest);
  }

  lemma FirstAbove(ranked: seq<(string, real)>, k: nat, i: nat, j: nat)
    requires Falls(ranked) && i < k && k + j < |ranked|
    ensures MapSeq(ranked[..k], ValueOf)[i] >= MapSeq(ranked[k..], ValueOf)[j]
  {
    assert ranked[i].1 >= ranked[k + j].1;
  }

  lemma DroppingRankedLowersMean(values: seq<(string, real)>, topK: nat)
    requires topK < |values|
    ensures var ranked := SortBy(values, RankedBefore);
            && |ranked| == |values|
            && Mean(MapSeq(ranked[topK..], ValueOf)) <= Mean(MapSeq(values, ValueOf))
  {
    RankedFalls(values);
    SortPermutes(values, RankedBefore);
    MeanPermuted(values, SortBy(values, RankedBefore));
    DroppingFirstLowersMean(SortBy(values, RankedBefore), topK);
  }

  lemma MeanPermuted(s: seq<(string, real)>, t: seq<(string, real)>)
    requires s != [] && |t| == |s| && multiset(s) == multiset(t)
    ensures Mean(MapSeq(s, ValueOf)) == Mean(MapSeq(t, ValueOf))
  {
    TotalPermutation(s, t, ValueOf);
    SumMap(s, ValueOf);
    SumMap(t, ValueOf);
  }

  /** The summary counts the anchors, its ratio is a fraction, and excluding the top never raises the mean. */
  lemma SignSummaryMeaning(rows: seq<StrategyRow>, op: string, metric: string, topK: nat)
    ensures var values, summary := OpValues(rows, op, metric), SignGroupSummary(rows, op, metric, topK);
            && summary.nAnchors == |values|
            && (summary.signRatioPositive.Some? <==> values != [])
            && (summary.signRatioPositive.Some? ==> 0.0 <= summary.signRatioPositive.value <= 1.0)
            && (summary.meanExclTop.Some? <==> topK < |values|)
            && (summary.meanExclTop.Some? ==> summary.meanExclTop.value <= Mean(MapSeq(values, ValueOf)))
  {
    var values := OpValues(rows, op, metric);
    if values != [] {
      PositiveCountBounds(values);
      DivideBounds(Total(values, PositiveOne), |values| as real, 0.0, 1.0);
      SortPermutes(values, RankedBefore);
      if topK < |values| { DroppingRankedLowersMean(values, topK); }
    }
  }

  /** The rows that measure an operator on a metric. */
  function Measuring(op: string, metric: string): StrategyRow -> bool {
    (row: StrategyRow) => row.metric == metric && op in row.values
  }

  /** Its region, and the operator's value there. */
  function ValueThere(op: string): StrategyRow -> (string, real) {
    (row: StrategyRow) => (row.anchor.region, if op in row.values then row.values[op] else 0.0)
  }

  /** One value for each such row. */
  lemma {:induction false} OpValuesMeaning(rows: seq<StrategyRow>, op: string, metric: string)
    ensures OpValues(rows, op, metric) == MapSeq(Filter(rows, Measuring(op, metric)), ValueThere(op))
  {
    if rows != [] {
      OpValuesMeaning(rows[1..], op, metric);
      var rest := Filter(rows[1..], Measuring(op, metric));
      if Measuring(op, metric)(rows[0]) {
        assert Filter(rows, Measuring(op, metric)) == [rows[0]] + rest;
        assert ([rows[0]] + rest)[1..] == rest;
      }
    }
  }

  predicate IsPositive(x: (string, real)) { x.1 > 0.0 }

  lemma {:induction false} PositivesCounted(values: seq<(string, real)>)
    ensures Total(values, PositiveOne) == |Filter(values, IsPositive)| as real
  {
    if values != [] { PositivesCounted(values[1..]); }
  }

  lemma {:induction false} ValuesTotal(values: seq<(string, real)>)
    ensures Sum(MapSeq(values, ValueOf)) == Total(values, ValueOf)
  {
    SumMap(values, ValueOf);
  }

  /** From the largest value down, equal values by region. */
  ghost predicate Descends(order: seq<(string, real)>) {
    forall i, j :: 0 <= i < j < |order| ==>
      order[i].1 > order[j].1 || (order[i].1 == order[j].1 && StrLe(order[i].0, order[j].0))
  }

  lemma RatioMeaning(values: seq<(string, real)>)
    requires values != []
    ensures Repeat(Total(values, PositiveOne) / (|values| as real), |values|) == |Filter(values, IsPositive)| as real
  {
    PositivesCounted(values);
    RepeatIsProduct(Total(values, PositiveOne) / (|values| as real), |values|);
  }

  lemma RankedDescends(values: seq<(string, real)>)
    ensures var order := SortBy(values, RankedBefore);
            multiset(order) == multiset(values) && |order| == |values| && Descends(order)
  {
    var order := SortBy(values, RankedBefore);
    SortPermutes(values, RankedBefore);
    RankedBeforeIsPreorder();
    SortSorts(values, RankedBefore);
    forall i, j | 0 <= i < j < |order| ensures RankedBefore(order[i], order[j]) {}
  }

  /** The mean of the values that remain when the first `topK` go. */
  ghost predicate IsMeanWithout(mean: Option<real>, order: seq<(string, real)>, topK: nat) {
    if topK >= |order| then mean == None
    else mean.Some? && Repeat(mean.value, |order| - topK) == Sum(MapSeq(order[topK..], ValueOf))
  }

  lemma RemainingMean(order: seq<(string, real)>, topK: nat)
    requires topK < |order|
    ensures IsMeanWithout(Some(Mean(MapSeq(order[topK..], ValueOf))), order, topK)
  {
    MeanRepeated(MapSeq(order[topK..], ValueOf));
  }

  /** The ratio is the part of positive values; the mean is that of the values left when the largest `topK` go. */
  lemma SignSummaryNumbers(rows: seq<StrategyRow>, op: string, metric: string, topK: nat)
    returns (order: seq<(string, real)>)
    ensures var values, summary := OpValues(rows, op, metric), SignGroupSummary(rows, op, metric, topK);
            && multiset(order) == multiset(values) && Descends(order) && summary.nAnchors == |values|
            && IsMeanWithout(summary.meanExclTop, order, topK)
            && (if values == [] then summary.signRatioPositive == None
                else summary.signRatioPositive.Some?
                     && Repeat(summary.signRatioPositive.value, |values|) == |Filter(values, IsPositive)| as real)
  {
    var values := OpValues(rows, op, metric);
    order := SortBy(values, RankedBefore);
    RankedDescends(values);
    if values != [] { RatioMeaning(values); }
    if topK < |values| { RemainingMean(order, topK); }
  }

  // ------------------------------------------------------------- whole profile

  datatype PerturbationOp = ConstantFill | MeanFill | Blur | GaussianNoise | PatchShuffle

  /** `PerturbationOp(op)`: any other string is an error. */
  function ParseOp(op: string): Option<PerturbationOp> {
    if op == "constant_fill" then Some(ConstantFill)
    else if op == "mean_fill" then Some(MeanFill)
    else if op == "blur" then Some(Blur)
    else if op == "gaussian_noise" then Some(GaussianNoise)
    else if op == "patch_shuffle" then Some(PatchShuffle)
    else None
  }

  datatype Declared = Declared(preservesStatistics: bool, preservesLocalTexture: bool, isGlobal: bool)

  function DeclaredOf(op: PerturbationOp): Declared {
    match op
    case ConstantFill => Declared(false, false, false)
    case MeanFill => Declared(true, false, false)
    case Blur => Declared(true, false, true)
    case GaussianNoise => Declared(false, false, false)
    case PatchShuffle => Declared(true, true, true)
  }

  /** The five operators by name, and what is declared of each. */
  lemma DeclaredMeaning(op: string)
    ensures ParseOp(op).Some? <==> op in {"constant_fill", "mean_fill", "blur", "gaussian_noise", "patch_shuffle"}
    ensures ParseOp(op).Some? ==>
              var declared := DeclaredOf(ParseOp(op).value);
              && (declared.preservesStatistics <==> op in {"mean_fill", "blur", "patch_shuffle"})
              && (declared.preservesLocalTexture <==> op == "patch_shuffle")
              && (declared.isGlobal <==> op in {"blur", "patch_shuffle"})
  {
  }

  datatype ProfileRow = ProfileRow(
    op: string, declared: Declared, clusterId: Option<nat>,
    meanCorrWithin: Option<real>, meanCorrAcross: Option<real>, alignment: Alignment, summary: SignSummary)

  ghost predicate Observed(rows: seq<StrategyRow>, metric: string, op: string) {
    exists row :: row in rows && row.metric == metric && op in row.values
  }

  /** `_observed_ops`: the operators measured for the metric, sorted. */
  method ObservedOps(rows: seq<StrategyRow>, metric: string) returns (ops: seq<string>)
    ensures Sorted(ops, StrLe) && Distinct(ops)
    ensures forall op :: op in ops <==> Observed(rows, metric, op)
  {
    var observed: set<string> := {};
    for i := 0 to |rows|
      invariant forall op :: op in observed <==> Observed(rows[..i], metric, op)
    {
      var row := rows[i];
      assert rows[..i + 1] == rows[..i] + [row];
      forall op ensures Observed(rows[..i + 1], metric, op)
                        <==> Observed(rows[..i], metric, op) || (row.metric == metric && op in row.values)
      {
        if Observed(rows[..i], metric, op) {
          var r :| r in rows[..i] && r.metric == metric && op in r.values;
          assert r in rows[..i + 1];
        }
        assert row in rows[..i + 1];
      }
      if row.metric == metric { observed := observed + row.values.Keys; }
    }
    assert rows[..|rows|] == rows;
    StrLeIsTotalOrder();
    ops := SortedSet(observed, StrLe);
  }

  /** `declared_group_by_op`, for the operators the table knows. */
  function DeclaredGroups(ops: seq<string>): map<string, bool> {
    map op | op in ops && ParseOp(op).Some? :: DeclaredOf(ParseOp(op).value).preservesStatistics
  }

  /** What every row is computed from. */
  datatype Inputs = Inputs(ops: seq<string>, ids: map<string, Option<nat>>, lookup: Lookup<string>,
                           rows: seq<StrategyRow>, metric: string, topK: nat)
  {
    ghost predicate Complete() {
      forall x :: x in ops ==> x in ids && ParseOp(x).Some?
    }
  }

  /** Every field of one operator's profile row. */
  ghost predicate IsProfileRow(row: ProfileRow, op: string, given: Inputs)
    requires op in given.ops && given.Complete()
  {
    && row.op == op && row.declared == DeclaredOf(ParseOp(op).value)
    && row.clusterId == given.ids[op]
    && row.meanCorrWithin == MeanCorrOf(op, given.ops, given.ids, given.lookup, true)
    && row.meanCorrAcross == MeanCorrOf(op, given.ops, given.ids, given.lookup, false)
    && row.alignment == AlignmentOf(op, given.ops, DeclaredGroups(given.ops), given.ids)
    && row.summary == SignGroupSummary(given.rows, op, given.metric, given.topK)
  }

  ghost predicate AreProfileRows(profile: seq<ProfileRow>, count: nat, given: Inputs)
    requires given.Complete() && count <= |given.ops|
  {
    |profile| == count && forall i :: 0 <= i < count ==> IsProfileRow(profile[i], given.ops[i], given)
  }

  ghost predicate IsOpClustering(ops: seq<string>, lookup: Lookup<string>, threshold: real,
                                 ids: map<string, Option<nat>>)
  {
    if |ops| < 2 then ids == map op | op in ops :: None
    else exists ids': map<string, nat> ::
        IsClustering(Graph(ops, lookup, threshold), StrLe, ids') && ids == map op | op in ids' :: Some(ids'[op])
  }

  lemma ClusteringCoversOps(ops: seq<string>, lookup: Lookup<string>, threshold: real, ids: map<string, Option<nat>>)
    requires IsOpClustering(ops, lookup, threshold, ids)
    ensures forall op :: op in ops ==> op in ids
  {
  }

  /**
    Every operator is ALIGNED exactly when the declared partition is the partition into components,
    a lone operator included.
   */
  lemma AllAlignedIffPartitionsAgree(ops: seq<string>, lookup: Lookup<string>, threshold: real,
                                     ids: map<string, Option<nat>>,
                                     declared: map<string, bool>)
    requires IsOpClustering(ops, lookup, threshold, ids) && forall x :: x in ops ==> x in declared
    ensures forall x :: x in ops ==> x in ids
    ensures (forall op :: op in ops ==> AlignmentOf(op, ops, declared, ids) == Aligned)
            <==> PartitionsAgree(Graph(ops, lookup, threshold), declared)
  {
    var g := Graph(ops, lookup, threshold);
    if |ops| >= 2 {
      var numbers: map<string, nat> :| IsClustering(g, StrLe, numbers)
        && ids == map x | x in numbers :: Some(numbers[x]);
      assert ids == Numbered(numbers);
      NumberedAlignedIff(g, StrLe, numbers, declared);
    } else {
      LoneAligned(g, declared, ids);
    }
  }

  lemma LoneAligned<T(!new)>(g: Graph<T>, declared: map<T, bool>, ids: map<T, Option<nat>>)
    requires |g.ops| < 2 && forall x :: x in g.ops ==> x in declared && x in ids && ids[x] == None
    ensures PartitionsAgree(g, declared)
    ensures forall op :: op in g.ops ==> AlignmentOf(op, g.ops, declared, ids) == Aligned
  {
    if g.ops != [] {
      var op := g.ops[0];
      assert g.ops == [op];
      ConnectedReflexive(g, op);
      OwnGroups(op, declared, ids);
      AlignmentMeaning(op, [op], declared, ids);
    }
  }

  lemma OwnGroups<T>(op: T, declared: map<T, bool>, ids: map<T, Option<nat>>)
    requires op in declared && op in ids && ids[op] == None
    ensures DeclaredGroup(op, [op], declared) == EmpiricalGroup(op, [op], ids)
  {
    forall x ensures x in DeclaredGroup(op, [op], declared) <==> x == op {}
  }

  function ByOp(x: ProfileRow, y: ProfileRow): bool { StrLe(x.op, y.op) }

  method ProfileRowFor(op: string, given: Inputs) returns (row: ProfileRow)
    requires op in given.ops && given.Complete()
    ensures IsProfileRow(row, op, given)
  {
    var within := MeanCorr(op, given.ops, given.ids, given.lookup, true);
    var across := MeanCorr(op, given.ops, given.ids, given.lookup, false);
    row := ProfileRow(op, DeclaredOf(ParseOp(op).value), given.ids[op], within, across,
                      AlignmentOf(op, given.ops, DeclaredGroups(given.ops), given.ids),
                      SignGroupSummary(given.rows, op, given.metric, given.topK));
  }

  lemma OneMoreProfile(profile: seq<ProfileRow>, row: ProfileRow, i: nat, given: Inputs)
    requires given.Complete() && i < |given.ops| && AreProfileRows(profile, i, given)
             && IsProfileRow(row, given.ops[i], given)
    ensures AreProfileRows(profile + [row], i + 1, given)
  {
    forall j | 0 <= j < i + 1 ensures IsProfileRow((profile + [row])[j], given.ops[j], given) {
      assert j < i ==> IsProfileRow(profile[j], given.ops[j], given);
    }
  }

  method ProfileRows(given: Inputs) returns (profile: seq<ProfileRow>)
    requires given.Complete()
    ensures AreProfileRows(profile, |given.ops|, given)
  {
    profile := [];
    for i := 0 to |given.ops|
      invariant AreProfileRows(profile, i, given)
    {
      assert given.ops[i] in given.ops;
      var row := ProfileRowFor(given.ops[i], given);
      OneMoreProfile(profile, row, i, given);
      profile := profile + [row];
    }
  }

  lemma ProfileIsSorted(profile: seq<ProfileRow>, given: Inputs)
    requires given.Complete() && AreProfileRows(profile, |given.ops|, given) && Sorted(given.ops, StrLe)
    ensures Sorted(profile, ByOp)
  {
    forall i, j | 0 <= i < j < |profile| ensures ByOp(profile[i], profile[j]) {
      assert IsProfileRow(profile[i], given.ops[i], given) && IsProfileRow(profile[j], given.ops[j], given);
      assert StrLe(given.ops[i], given.ops[j]);
    }
  }

  /** The row constructor's checks. */
  predicate ProfileRowAccepted(row: ProfileRow) {
    && row.op != "" && CorrelationOrNone(row.meanCorrWithin) && CorrelationOrNone(row.meanCorrAcross)
    && (row.summary.signRatioPositive.Some? ==> 0.0 <= row.summary.signRatioPositive.value <= 1.0)
  }

  /** Means of correlations are correlations. */
  lemma MeanCorrInRange(op: string, given: Inputs, rankRows: seq<RankCorrelationRow>, within: bool)
    requires IsLookup(given.lookup, rankRows) && AllRanked(rankRows)
    ensures CorrelationOrNone(MeanCorrOf(op, given.ops, given.ids, given.lookup, within))
  {
    if op in given.ids && given.ids[op].Some? {
      var id := given.ids[op].value;
      var values := CountedWeights(op, given.ops, given.ids, id, given.lookup, within);
      CountedWeightsOrigin(op, given.ops, given.ids, id, given.lookup, within);
      forall i | 0 <= i < |values| ensures -1.0 <= values[i] <= 1.0 {
        assert values[i] in values;
        assert IsCountedWeight(op, given.ops, given.ids, id, given.lookup, within, values[i]);
        var other :| other in given.ops && LookupWeight(op, other, given.lookup) == Some(values[i]);
        WeightInRange(op, other, given.lookup, rankRows);
      }
      if values != [] {
        MeanAtLeast(values, -1.0);
        MeanAtMost(values, 1.0);
      }
    }
  }

  lemma WeightInRange(a: string, b: string, lookup: Lookup<string>, rankRows: seq<RankCorrelationRow>)
    requires IsLookup(lookup, rankRows) && AllRanked(rankRows)
    ensures CorrelationOrNone(LookupWeight(a, b, lookup))
  {
    if (a, b) in lookup || (b, a) in lookup {
      var row := StoredOrigin(rankRows, lookup, if (a, b) in lookup then (a, b) else (b, a));
      var k :| 0 <= k < |rankRows| && rankRows[k] == row;
      assert RankRowAccepted(rankRows[k]);
    }
  }

  /** Accepted correlations give accepted rows: the row constructor never raises. */
  lemma ProfileAccepted(row: ProfileRow, op: string, given: Inputs, rankRows: seq<RankCorrelationRow>)
    requires op in given.ops && given.Complete() && IsProfileRow(row, op, given)
    requires IsLookup(given.lookup, rankRows) && AllRanked(rankRows)
    ensures ProfileRowAccepted(row)
  {
    MeanCorrInRange(op, given, rankRows, true);
    MeanCorrInRange(op, given, rankRows, false);
    SignSummaryMeaning(given.rows, op, given.metric, given.topK);
    assert ParseOp(op).Some?;
  }

  /** Rows over pairs stored in one order: every across-cluster mean is below the threshold. */
  lemma ProfileAcrossBelow(row: ProfileRow, op: string, given: Inputs, threshold: real)
    requires op in given.ops && given.Complete() && IsProfileRow(row, op, given)
    requires IsOpClustering(given.ops, given.lookup, threshold, given.ids)
             && SameSide(Graph(given.ops, given.lookup, threshold))
    ensures row.meanCorrAcross.Some? ==> row.meanCorrAcross.value < threshold
  {
    if |given.ops| >= 2 {
      var g := Graph(given.ops, given.lookup, threshold);
      var ids: map<string, nat> :| IsClustering(g, StrLe, ids) && given.ids == map x | x in ids :: Some(ids[x]);
      assert given.ids == Numbered(ids);
      SameSideBelow(g);
      AcrossBelowThreshold(g, StrLe, ids, op);
    }
  }

  lemma RowAlignment(profile: seq<ProfileRow>, given: Inputs, i: nat)
    requires given.Complete() && AreProfileRows(profile, |given.ops|, given) && i < |profile|
    ensures |profile| == |given.ops|
    ensures profile[i].alignment == AlignmentOf(given.ops[i], given.ops, DeclaredGroups(given.ops), given.ids)
  {
    assert IsProfileRow(profile[i], given.ops[i], given);
  }

  lemma RowsAlign(profile: seq<ProfileRow>, given: Inputs)
    requires given.Complete() && AreProfileRows(profile, |given.ops|, given)
    ensures (forall i :: 0 <= i < |profile| ==> profile[i].alignment == Aligned)
            <==> forall op :: op in given.ops ==>
                 AlignmentOf(op, given.ops, DeclaredGroups(given.ops), given.ids) == Aligned
  {
    var ops := given.ops;
    if forall i :: 0 <= i < |profile| ==> profile[i].alignment == Aligned {
      forall op | op in ops ensures AlignmentOf(op, ops, DeclaredGroups(ops), given.ids) == Aligned {
        var i :| 0 <= i < |ops| && ops[i] == op;
        RowAlignment(profile, given, i);
      }
    }
    if forall op :: op in ops ==> AlignmentOf(op, ops, DeclaredGroups(ops), given.ids) == Aligned {
      forall i | 0 <= i < |profile| ensures profile[i].alignment == Aligned { RowAlignment(profile, given, i); }
    }
  }

  /** Read off the rows: all are ALIGNED exactly when the declared partition is the partition into components. */
  lemma RowsAlignedIff(profile: seq<ProfileRow>, given: Inputs, threshold: real)
    requires given.Complete() && AreProfileRows(profile, |given.ops|, given)
    requires IsOpClustering(given.ops, given.lookup, threshold, given.ids)
    ensures (forall i :: 0 <= i < |profile| ==> profile[i].alignment == Aligned)
            <==> PartitionsAgree(Graph(given.ops, given.lookup, threshold), DeclaredGroups(given.ops))
  {
    RowsAlign(profile, given);
    AllAlignedIffPartitionsAgree(given.ops, given.lookup, threshold, given.ids, DeclaredGroups(given.ops));
  }

  ghost predicate AllProfilesAccepted(profile: seq<ProfileRow>) {
    forall i :: 0 <= i < |profile| ==> ProfileRowAccepted(profile[i])
  }

  lemma ProfilesAccepted(profile: seq<ProfileRow>, given: Inputs, rankRows: seq<RankCorrelationRow>)
    requires given.Complete() && AreProfileRows(profile, |given.ops|, given) && IsLookup(given.lookup, rankRows)
             && AllRanked(rankRows)
    ensures AllProfilesAccepted(profile)
  {
    forall i | 0 <= i < |profile| ensures ProfileRowAccepted(profile[i]) {
      assert IsProfileRow(profile[i], given.ops[i], given);
      ProfileAccepted(profile[i], given.ops[i], given, rankRows);
    }
  }

  lemma AllParsedComplete(given: Inputs)
    requires (forall op :: op in given.ops ==> op in given.ids) && forall j :: 0 <= j < |given.ops| ==>
             ParseOp(given.ops[j]).Some?
    ensures given.Complete()
  {
  }

  /** `compute_strategy_profile`: an unknown operator is an error, otherwise one row per observed operator. */
  method ComputeStrategyProfile(rows: seq<StrategyRow>, rankRows: seq<RankCorrelationRow>, metric: string,
                                threshold: real, topK: nat)
    returns (result: Result<seq<ProfileRow>, string>, given: Inputs)
    requires AllRanked(rankRows)
    ensures IsLookup(given.lookup, rankRows) && given.rows == rows && given.metric == metric && given.topK == topK
    ensures Sorted(given.ops, StrLe) && Distinct(given.ops)
    ensures forall op :: op in given.ops <==> Observed(rows, metric, op)
    ensures IsOpClustering(given.ops, given.lookup, threshold, given.ids)
    ensures result.Ok? <==> forall op :: op in given.ops ==> ParseOp(op).Some?
    ensures result.Err? ==> result.error in given.ops && ParseOp(result.error) == None
    ensures result.Ok? ==>
            given.Complete() && AreProfileRows(result.value, |given.ops|, given) && AllProfilesAccepted(result.value)
  {
    var ops := ObservedOps(rows, metric);
    var lookup := CorrelationLookup(rankRows);
    StrLeIsTotalOrder();
    var ids := ClusterOps(ops, lookup, threshold, StrLe);
    given := Inputs(ops, ids, lookup, rows, metric, topK);
    ClusteringCoversOps(ops, lookup, threshold, ids);
    for i := 0 to |ops|
      invariant forall j :: 0 <= j < i ==> ParseOp(ops[j]).Some?
    {
      if ParseOp(ops[i]) == None {
        assert ops[i] in given.ops;
        return Err(ops[i]), given;
      }
    }
    AllParsedComplete(given);
    var profile := ProfileRows(given);
    ProfileIsSorted(profile, given);
    SortOfSorted(profile, ByOp);
    ProfilesAccepted(profile, given, rankRows);
    result := Ok(SortBy(profile, ByOp));
  }
}
