/**
  Spearman correlation between operators: `_spearman_correlation` and `_one_rank_correlation` of
  `ssat/analysis/stability.py`.
 */
module RankCorrelation {
  import opened Prelude
  import opened Ordering
  import opened Sums
  import opened AnalysisTypes
  import opened Pairing

  // -------------------------------------------------------------- average ranks

  function CountLess(s: seq<real>, v: real): nat {
    if s == [] then 0 else (if s[0] < v then 1 else 0) + CountLess(s[1..], v)
  }

  function CountEqual(s: seq<real>, v: real): nat {
    if s == [] then 0 else (if s[0] == v then 1 else 0) + CountEqual(s[1..], v)
  }

  function CountGreater(s: seq<real>, v: real): nat {
    if s == [] then 0 else (if s[0] > v then 1 else 0) + CountGreater(s[1..], v)
  }

  /** pandas' average rank: ties share the mean of the places they occupy. */
  function RankIn(s: seq<real>): real -> real {
    v => (CountLess(s, v) as real) + (CountEqual(s, v) as real + 1.0) / 2.0
  }

  /** `pd.Series(s).rank()`. */
  function Ranks(s: seq<real>): seq<real> {
    MapSeq(s, RankIn(s))
  }

  lemma {:induction false} CountsPartition(s: seq<real>, v: real)
    ensures CountLess(s, v) + CountEqual(s, v) + CountGreater(s, v) == |s|
  {
    if s != [] { CountsPartition(s[1..], v); }
  }

  /** Sums of the counts of `s` over the values in `t`. */
  function TotalLess(s: seq<real>, t: seq<real>): nat {
    if t == [] then 0 else CountLess(s, t[0]) + TotalLess(s, t[1..])
  }

  function TotalGreater(s: seq<real>, t: seq<real>): nat {
    if t == [] then 0 else CountGreater(s, t[0]) + TotalGreater(s, t[1..])
  }

  lemma {:induction false} TotalGreaterCons(s: seq<real>, t: seq<real>)
    requires s != []
    ensures TotalGreater(s, t) == CountLess(t, s[0]) + TotalGreater(s[1..], t)
  {
    if t != [] { TotalGreaterCons(s, t[1..]); }
  }

  /** Counting the pairs `u < v` from either side. */
  lemma {:induction false} LessMirrorsGreater(s: seq<real>, t: seq<real>)
    ensures TotalLess(s, t) == TotalGreater(t, s)
  {
    if t == [] {
      NoneGreater(s);
    } else {
      LessMirrorsGreater(s, t[1..]);
      TotalGreaterCons(t, s);
    }
  }

  lemma {:induction false} NoneGreater(s: seq<real>)
    ensures TotalGreater([], s) == 0
  {
    if s != [] { NoneGreater(s[1..]); }
  }

  lemma {:induction false} DoubledRankSum(s: seq<real>, t: seq<real>)
    ensures 2.0 * Total(t, RankIn(s))
            == (TotalLess(s, t) as real) - (TotalGreater(s, t) as real) + ((|s| + 1) * |t|) as real
  {
    if t != [] {
      DoubledRankSum(s, t[1..]);
      CountsPartition(s, t[0]);
      assert (|s| + 1) * |t| == (|s| + 1) * |t[1..]| + (|s| + 1);
    }
  }

  /** Ranks always sum to n(n+1)/2, whatever the ties. */
  lemma RanksSum(s: seq<real>)
    ensures 2.0 * Sum(Ranks(s)) == (|s| * (|s| + 1)) as real
  {
    DoubledRankSum(s, s);
    LessMirrorsGreater(s, s);
    SumMap(s, RankIn(s));
    assert (|s| + 1) * |s| == |s| * (|s| + 1);
  }

  /** The two sequences order their positions alike. */
  ghost predicate SameOrder(x: seq<real>, y: seq<real>) {
    |x| == |y| && forall i, j :: 0 <= i < |x| && 0 <= j < |x| ==> (x[i] < x[j] <==> y[i] < y[j])
  }

  lemma {:induction false} CountsAgree(x: seq<real>, y: seq<real>, v: real, w: real)
    requires |x| == |y| && forall j :: 0 <= j < |x| ==> (x[j] < v <==> y[j] < w) && (x[j] > v <==> y[j] > w)
    ensures CountLess(x, v) == CountLess(y, w) && CountEqual(x, v) == CountEqual(y, w)
  {
    if x != [] {
      assert (x[0] < v <==> y[0] < w) && (x[0] > v <==> y[0] > w);
      CountsAgree(x[1..], y[1..], v, w);
    }
  }

  /** Ranks see only the order of the values. */
  lemma RanksSeeOrderOnly(x: seq<real>, y: seq<real>)
    requires SameOrder(x, y)
    ensures Ranks(x) == Ranks(y)
  {
    forall i | 0 <= i < |x| ensures Ranks(x)[i] == Ranks(y)[i] { CountsAgree(x, y, x[i], y[i]); }
  }

  // -------------------------------------------------------- Pearson correlation

  function Product(a: real, b: real): real { a * b }

  function Dot(x: seq<real>, y: seq<real>): real
    requires |x| == |y|
  {
    if x == [] then 0.0 else Product(x[0], y[0]) + Dot(x[1..], y[1..])
  }

  function Minus(m: real): real -> real { v => v - m }

  function Centered(s: seq<real>): seq<real>
    requires s != []
  {
    MapSeq(s, Minus(Mean(s)))
  }

  /** The square root is a parameter, taken as exact. */
  ghost predicate IsSqrt(sqrt: real -> real) {
    forall v {:trigger sqrt(v)} :: v >= 0.0 ==> sqrt(v) >= 0.0 && sqrt(v) * sqrt(v) == v
  }

  function Quotient(b: real, squared: real, sqrt: real -> real): Option<real> {
    var divisor := sqrt(squared);
    if divisor == 0.0 then None else Some(b / divisor)
  }

  /** `Series.corr`: undefined when either series is constant. */
  function Pearson(x: seq<real>, y: seq<real>, sqrt: real -> real): Option<real>
    requires |x| == |y| > 0
  {
    var a, b := Centered(x), Centered(y);
    Quotient(Dot(a, b), Product(Dot(a, a), Dot(b, b)), sqrt)
  }

  function Quadratic(p: real, q: real, a: real, b: real, c: real): real {
    p * p * a - 2.0 * p * q * b + q * q * c
  }

  /** Adding one term of each sum adds the square `(p*x - q*y)^2`. */
  lemma QuadraticStep(p: real, q: real, a: real, b: real, c: real, x: real, y: real, a': real, b': real, c': real)
    requires a' == Product(x, x) + a && b' == Product(x, y) + b && c' == Product(y, y) + c
    ensures Quadratic(p, q, a', b', c') >= Quadratic(p, q, a, b, c)
  {
    var z := p * x - q * y;
    assert z * z >= 0.0;
    assert z * z == p * p * (x * x) - 2.0 * p * q * (x * y) + q * q * (y * y);
  }

  lemma {:induction false} QuadraticNonNegative(x: seq<real>, y: seq<real>, p: real, q: real)
    requires |x| == |y|
    ensures Quadratic(p, q, Dot(x, x), Dot(x, y), Dot(y, y)) >= 0.0
  {
    if x != [] {
      var s, t := x[1..], y[1..];
      QuadraticNonNegative(s, t, p, q);
      QuadraticStep(p, q, Dot(s, s), Dot(s, t), Dot(t, t), x[0], y[0], Dot(x, x), Dot(x, y), Dot(y, y));
    }
  }

  lemma PositiveProduct(a: real, b: real)
    requires a > 0.0 && b > 0.0
    ensures Product(a, b) > 0.0
  {
  }

  lemma NegatedFactors(a: real)
    ensures Product(-a, -a) == Product(a, a)
  {
  }

  lemma ProductSelf(v: real)
    ensures Product(v, v) >= 0.0 && (Product(v, v) == 0.0 ==> v == 0.0)
  {
    if v > 0.0 {
      PositiveProduct(v, v);
    } else if v < 0.0 {
      PositiveProduct(-v, -v);
      NegatedFactors(v);
    }
  }

  lemma ProductZero(u: real)
    ensures Product(u, 0.0) == 0.0
  {
  }

  lemma {:induction false} DotSelf(x: seq<real>)
    ensures Dot(x, x) >= 0.0
  {
    if x != [] {
      DotSelf(x[1..]);
      ProductSelf(x[0]);
    }
  }

  lemma {:induction false} DotWithZero(x: seq<real>, y: seq<real>)
    requires |x| == |y| && Dot(y, y) == 0.0
    ensures Dot(x, y) == 0.0
  {
    if y != [] {
      DotSelf(y[1..]);
      ProductSelf(y[0]);
      ProductZero(x[0]);
      DotWithZero(x[1..], y[1..]);
    }
  }

  lemma CauchySchwarzFromQuadratic(a: real, b: real, c: real)
    requires c > 0.0 && Quadratic(c, b, a, b, c) >= 0.0
    ensures Product(b, b) <= Product(a, c)
  {
    assert Quadratic(c, b, a, b, c) == (a * c) * c - (b * b) * c;
    CancelFactor(b * b, a * c, c);
  }

  lemma CauchySchwarz(x: seq<real>, y: seq<real>)
    requires |x| == |y|
    ensures Product(Dot(x, y), Dot(x, y)) <= Product(Dot(x, x), Dot(y, y))
  {
    DotSelf(y);
    if Dot(y, y) == 0.0 {
      DotWithZero(x, y);
      ProductZero(Dot(x, x));
      ProductZero(Dot(x, y));
    } else {
      QuadraticNonNegative(x, y, Dot(y, y), Dot(x, y));
      CauchySchwarzFromQuadratic(Dot(x, x), Dot(x, y), Dot(y, y));
    }
  }

  lemma SquareGrows(b: real, d: real)
    requires b > d >= 0.0
    ensures b * b > d * d
  {
    assert b * b - d * d == (b - d) * (b + d);
    PositiveProduct(b - d, b + d);
  }

  lemma SquareOrder(b: real, d: real)
    requires d > 0.0 && b * b <= d * d
    ensures -d <= b <= d
  {
    if b > d { SquareGrows(b, d); }
    if -b > d { SquareGrows(-b, d); }
  }

  lemma QuotientInUnit(b: real, d: real)
    requires d > 0.0 && -d <= b <= d
    ensures -1.0 <= b / d <= 1.0
  {
    DivideAtMost(b, d, 1.0);
    DivideAtLeast(b, d, -1.0);
  }

  /** A defined correlation lies in [-1, 1]. */
  lemma PearsonBounded(x: seq<real>, y: seq<real>, sqrt: real -> real)
    requires |x| == |y| > 0 && IsSqrt(sqrt)
    ensures CorrelationOrNone(Pearson(x, y, sqrt))
  {
    DotsBounded(Centered(x), Centered(y), sqrt);
  }

  lemma DotsBounded(a: seq<real>, b: seq<real>, sqrt: real -> real)
    requires |a| == |b| && IsSqrt(sqrt)
    ensures CorrelationOrNone(Quotient(Dot(a, b), Product(Dot(a, a), Dot(b, b)), sqrt))
  {
    CauchySchwarz(a, b);
    BoundFromSquares(Dot(a, b), Product(Dot(a, a), Dot(b, b)), sqrt);
  }

  lemma BoundFromSquares(b: real, v: real, sqrt: real -> real)
    requires IsSqrt(sqrt) && Product(b, b) <= v
    ensures CorrelationOrNone(Quotient(b, v, sqrt))
  {
    ProductSelf(b);
    var d := sqrt(v);
    if d != 0.0 {
      assert d * d == v;
      SquareOrder(b, d);
      QuotientInUnit(b, d);
    }
  }

  lemma {:induction false} DotSymmetric(x: seq<real>, y: seq<real>)
    requires |x| == |y|
    ensures Dot(x, y) == Dot(y, x)
  {
    if x != [] { DotSymmetric(x[1..], y[1..]); }
  }

  lemma PearsonSymmetric(x: seq<real>, y: seq<real>, sqrt: real -> real)
    requires |x| == |y| > 0
    ensures Pearson(x, y, sqrt) == Pearson(y, x, sqrt)
  {
    var a, b := Centered(x), Centered(y);
    DotSymmetric(a, b);
    assert Product(Dot(a, a), Dot(b, b)) == Product(Dot(b, b), Dot(a, a));
  }

  // ------------------------------------------------------- Spearman over regions

  ghost function Shared(a: map<string, real>, b: map<string, real>): (keys: seq<string>)
    ensures IsSortedSet(keys, a.Keys * b.Keys, StrLe)
  {
    StrLeIsTotalOrder();
    Listed(a.Keys * b.Keys, StrLe)
  }

  function ValuesAt(m: map<string, real>, keys: seq<string>): (values: seq<real>)
    requires forall k :: k in keys ==> k in m
    ensures |values| == |keys| && forall i :: 0 <= i < |keys| ==> values[i] == m[keys[i]]
  {
    if keys == [] then [] else [m[keys[0]]] + ValuesAt(m, keys[1..])
  }

  /** Correlation of the ranks over the given regions; fewer than two leave it undefined. */
  function SpearmanOn(a: map<string, real>, b: map<string, real>, keys: seq<string>, sqrt: real -> real): Option<real>
    requires forall k :: k in keys ==> k in a && k in b
  {
    if |keys| < 2 then None else Pearson(Ranks(ValuesAt(a, keys)), Ranks(ValuesAt(b, keys)), sqrt)
  }

  /** Highest value of `a` first, ties by region key. */
  function Dominance(a: map<string, real>): (string, string) -> bool {
    (x: string, y: string) =>
      var u, v := if x in a then a[x] else 0.0, if y in a then a[y] else 0.0;
      u > v || (u == v && StrLe(x, y))
  }

  /** The shared regions without the `topK` that `a` ranks highest, in key order. */
  function Remaining(a: map<string, real>, keys: seq<string>, topK: nat): seq<string> {
    var ranked := SortBy(keys, Dominance(a));
    Without(keys, if topK <= |ranked| then ranked[..topK] else ranked)
  }

  function Without(keys: seq<string>, dropped: seq<string>): (rest: seq<string>)
    ensures forall k :: k in rest <==> k in keys && k !in dropped
  {
    if keys == [] then []
    else if keys[0] in dropped then Without(keys[1..], dropped)
    else [keys[0]] + Without(keys[1..], dropped)
  }

  /** `_one_rank_correlation`. */
  method OneRankCorrelation(opA: string, opB: string, a: map<string, real>, b: map<string, real>,
                            topK: nat, scope: string, sqrt: real -> real)
    returns (row: RankCorrelationRow)
    ensures var keys := Shared(a, b);
            && row == RankCorrelationRow(opA, opB, SpearmanOn(a, b, keys, sqrt), |keys|,
                                         SpearmanOn(a, b, Remaining(a, keys, topK), sqrt), scope)
  {
    StrLeIsTotalOrder();
    var keys := SortedSet(a.Keys * b.Keys, StrLe);
    row := RankCorrelationRow(opA, opB, SpearmanOn(a, b, keys, sqrt), |keys|,
                              SpearmanOn(a, b, Remaining(a, keys, topK), sqrt), scope);
  }

  /** The row constructor never rejects a correlation: Cauchy-Schwarz keeps it in [-1, 1]. */
  lemma SpearmanBounded(a: map<string, real>, b: map<string, real>, keys: seq<string>, sqrt: real -> real)
    requires IsSqrt(sqrt) && forall k :: k in keys ==> k in a && k in b
    ensures CorrelationOrNone(SpearmanOn(a, b, keys, sqrt))
  {
    if |keys| >= 2 { PearsonBounded(Ranks(ValuesAt(a, keys)), Ranks(ValuesAt(b, keys)), sqrt); }
  }

  lemma SpearmanSymmetric(a: map<string, real>, b: map<string, real>, sqrt: real -> real)
    ensures Shared(a, b) == Shared(b, a)
    ensures SpearmanOn(a, b, Shared(a, b), sqrt) == SpearmanOn(b, a, Shared(b, a), sqrt)
  {
    assert a.Keys * b.Keys == b.Keys * a.Keys;
    var keys := Shared(a, b);
    if |keys| >= 2 { PearsonSymmetric(Ranks(ValuesAt(a, keys)), Ranks(ValuesAt(b, keys)), sqrt); }
  }

  /** Only the order of an operator's region values matters: any strictly increasing transform keeps Spearman. */
  lemma SpearmanSeesOrderOnly(a: map<string, real>, a': map<string, real>, b: map<string, real>, sqrt: real -> real)
    requires a.Keys == a'.Keys
    requires forall k, l :: k in a && l in a ==> (a[k] < a[l] <==> a'[k] < a'[l])
    ensures SpearmanOn(a', b, Shared(a', b), sqrt) == SpearmanOn(a, b, Shared(a, b), sqrt)
  {
    var keys := Shared(a, b);
    assert a.Keys * b.Keys == a'.Keys * b.Keys;
    forall i, j | 0 <= i < |keys| && 0 <= j < |keys|
      ensures ValuesAt(a, keys)[i] < ValuesAt(a, keys)[j] <==> ValuesAt(a', keys)[i] < ValuesAt(a', keys)[j]
    {
      assert keys[i] in keys && keys[j] in keys;
    }
    RanksSeeOrderOnly(ValuesAt(a, keys), ValuesAt(a', keys));
  }

  // --------------------------------------------------------------- every pair

  type ValuesByOp = map<string, map<string, real>>

  /** Region values per operator, how many top regions to exclude, the label, and the square root. */
  datatype Ranking = Ranking(values: ValuesByOp, topK: nat, scope: string, sqrt: real -> real)

  function ValuesFor(r: Ranking, op: string): map<string, real> { if op in r.values then r.values[op] else map[] }

  /** The row of one pair of operators. */
  ghost function RankRow(r: Ranking, opA: string, opB: string): RankCorrelationRow {
    var a, b := ValuesFor(r, opA), ValuesFor(r, opB);
    var keys := Shared(a, b);
    RankCorrelationRow(opA, opB, SpearmanOn(a, b, keys, r.sqrt), |keys|,
                       SpearmanOn(a, b, Remaining(a, keys, r.topK), r.sqrt), r.scope)
  }

  ghost function RankRowOf(r: Ranking): (string, string) -> RankCorrelationRow {
    (opA, opB) => RankRow(r, opA, opB)
  }

  /** One row for every pair: the first operator against all later ones, then the second, and so on. */
  ghost function RankRows(r: Ranking, ops: seq<string>): seq<RankCorrelationRow> { AllPairs(RankRowOf(r), ops) }

  /** The operators in name order. */
  ghost function OpsOf(values: ValuesByOp): (ops: seq<string>)
    ensures IsSortedSet(ops, values.Keys, StrLe)
  {
    StrLeIsTotalOrder();
    Listed(values.Keys, StrLe)
  }

  method SortedOps(values: ValuesByOp) returns (ops: seq<string>)
    ensures ops == OpsOf(values)
  {
    StrLeIsTotalOrder();
    ops := SortedSet(values.Keys, StrLe);
  }

  method PairRow(r: Ranking, opA: string, opB: string) returns (row: RankCorrelationRow)
    ensures row == RankRowOf(r)(opA, opB)
  {
    row := OneRankCorrelation(opA, opB, ValuesFor(r, opA), ValuesFor(r, opB), r.topK, r.scope, r.sqrt);
  }

  /** The rows of one operator against every later one; the first rejected row raises. */
  method RowsFrom(i: nat, ops: seq<string>, r: Ranking, ghost rowOf: (string, string) -> RankCorrelationRow)
    returns (result: Result<seq<RankCorrelationRow>, Failure>)
    requires i < |ops| && rowOf == RankRowOf(r)
    ensures result.Ok? <==> AllRanked(PairsWith(rowOf, ops[i], ops[i + 1..]))
    ensures result.Ok? ==> result.value == PairsWith(rowOf, ops[i], ops[i + 1..])
  {
    ghost var all := PairsWith(rowOf, ops[i], ops[i + 1..]);
    var rows := [];
    for j := i + 1 to |ops|
      invariant |rows| == j - i - 1 && rows == all[..j - i - 1] && AllRanked(rows)
    {
      var row := PairRow(r, ops[i], ops[j]);
      assert all[j - i - 1] == row && all[..j - i] == all[..j - i - 1] + [row];
      if !RankRowAccepted(row) { return Err(RowRejected); }
      rows := rows + [row];
    }
    assert all[..|all|] == all;
    result := Ok(rows);
  }

  /** `_rank_correlation_rows`, from each operator's region values. */
  method RankCorrelationRows(r: Ranking) returns (result: Result<seq<RankCorrelationRow>, Failure>)
    ensures result.Ok? <==> AllRanked(RankRows(r, OpsOf(r.values)))
    ensures result.Ok? ==> result.value == RankRows(r, OpsOf(r.values))
  {
    var ops := SortedOps(r.values);
    ghost var rowOf := RankRowOf(r);
    var rows := [];
    for i := 0 to |ops|
      invariant AllRanked(rows) && AllPairs(rowOf, ops) == rows + AllPairs(rowOf, ops[i..])
    {
      var more := RowsFrom(i, ops, r, rowOf);
      PairsFrom(rowOf, ops, i, rows);
      if more.Err? {
        RejectedInside(rows, PairsWith(rowOf, ops[i], ops[i + 1..]), AllPairs(rowOf, ops[i + 1..]));
        return Err(more.error);
      }
      rows := rows + more.value;
    }
    assert rows + AllPairs(rowOf, ops[|ops|..]) == rows;
    result := Ok(rows);
  }

  lemma RejectedInside(front: seq<RankCorrelationRow>, middle: seq<RankCorrelationRow>, back: seq<RankCorrelationRow>)
    requires !AllRanked(middle)
    ensures !AllRanked((front + middle) + back)
  {
    var k :| 0 <= k < |middle| && !RankRowAccepted(middle[k]);
    assert ((front + middle) + back)[|front| + k] == middle[k];
  }

  // ------------------------------------------------------------- what the rows are

  /** There are n(n-1)/2 rows, and the row of operators `i < j` stands at its place in pair order. */
  lemma RankRowAt(r: Ranking, ops: seq<string>, i: nat, j: nat)
    requires i < j < |ops|
    ensures var rows := RankRows(r, ops);
            && 2 * |rows| == |ops| * (|ops| - 1)
            && StartOf(|ops|, i) + (j - i - 1) < |rows|
            && rows[StartOf(|ops|, i) + (j - i - 1)] == RankRow(r, ops[i], ops[j])
  {
    PairCount(RankRowOf(r), ops);
    PairAt(RankRowOf(r), ops, i, j);
  }

  lemma RankRowInRange(r: Ranking, opA: string, opB: string)
    requires IsSqrt(r.sqrt)
    ensures CorrelationOrNone(RankRow(r, opA, opB).spearman) && CorrelationOrNone(RankRow(r, opA, opB).spearmanExclTop)
  {
    var a, b := ValuesFor(r, opA), ValuesFor(r, opB);
    SpearmanBounded(a, b, Shared(a, b), r.sqrt);
    SpearmanBounded(a, b, Remaining(a, Shared(a, b), r.topK), r.sqrt);
  }

  /** A pair's row is rejected only over an empty name. */
  lemma RankRowRejected(r: Ranking, opA: string, opB: string)
    requires IsSqrt(r.sqrt) && opA != opB
    ensures RankRowAccepted(RankRow(r, opA, opB)) <==> opA != "" && opB != "" && r.scope != ""
  {
    RankRowInRange(r, opA, opB);
  }

  /** Every row is the row of two operators in name order. */
  lemma RankRowOrigin(r: Ranking, k: nat) returns (opA: string, opB: string)
    requires k < |RankRows(r, OpsOf(r.values))|
    ensures RankRows(r, OpsOf(r.values))[k] == RankRow(r, opA, opB) && opA in r.values && opB in r.values
            && StrLt(opA, opB)
  {
    var ops := OpsOf(r.values);
    var i, j := PairOrigin(RankRowOf(r), ops, k);
    opA, opB := ops[i], ops[j];
    assert opA in ops && opB in ops && StrLe(opA, opB);
  }

  /** No correlation is ever rejected: the constructor raises only over an empty name, once there is a pair. */
  lemma RankRowsAccepted(r: Ranking)
    requires IsSqrt(r.sqrt)
    ensures AllRanked(RankRows(r, OpsOf(r.values))) <==> |r.values| < 2 || (r.scope != "" && "" !in r.values)
  {
    var rows := RankRows(r, OpsOf(r.values));
    OpsCount(r.values);
    if r.scope != "" && "" !in r.values {
      forall k | 0 <= k < |rows| ensures RankRowAccepted(rows[k]) {
        var opA, opB := RankRowOrigin(r, k);
        RankRowRejected(r, opA, opB);
      }
    } else if |r.values| >= 2 {
      EmptyNameRejected(r);
    } else {
      PairCount(RankRowOf(r), OpsOf(r.values));
      NoPairs(|OpsOf(r.values)|, |rows|);
    }
  }

  lemma NoPairs(n: nat, count: nat)
    requires n < 2 && 2 * count == n * (n - 1)
    ensures count == 0
  {
  }

  lemma EmptyNameRejected(r: Ranking)
    requires IsSqrt(r.sqrt) && |OpsOf(r.values)| >= 2 && (r.scope == "" || "" in r.values)
    ensures !AllRanked(RankRows(r, OpsOf(r.values)))
  {
    var ops := OpsOf(r.values);
    if r.scope == "" {
      RankRowAt(r, ops, 0, 1);
      RankRowRejected(r, ops[0], ops[1]);
    } else {
      var i :| 0 <= i < |ops| && ops[i] == "";
      var j := if i == 0 then 1 else i;
      RankRowAt(r, ops, 0, j);
      RankRowRejected(r, ops[0], ops[j]);
    }
  }

  lemma OpsCount(values: ValuesByOp)
    ensures |OpsOf(values)| == |values|
  {
    var ops := OpsOf(values);
    DistinctCount(ops);
    assert (set op | op in ops) == values.Keys;
    assert |values.Keys| == |values|;
  }

  lemma {:induction false} DistinctCount<T>(ops: seq<T>)
    requires Distinct(ops)
    ensures |set op | op in ops| == |ops|
  {
    if ops != [] {
      DistinctCount(ops[1..]);
      assert ops == [ops[0]] + ops[1..];
      assert (set op | op in ops) == {ops[0]} + (set op | op in ops[1..]);
    }
  }

  /** Rows come with their first operator before their second. */
  lemma RankRowsOrdered(r: Ranking)
    ensures forall row :: row in RankRows(r, OpsOf(r.values)) ==> StrLt(row.opA, row.opB)
  {
    var rows := RankRows(r, OpsOf(r.values));
    forall row | row in rows ensures StrLt(row.opA, row.opB) {
      var k :| 0 <= k < |rows| && rows[k] == row;
      var opA, opB := RankRowOrigin(r, k);
    }
  }
}
