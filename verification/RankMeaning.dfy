/** What ranks, correlations and exclusions are, said without the formulas of `RankCorrelation`. */
module RankMeaning {
  import opened Prelude
  import opened Ordering
  import opened Sums
  import opened Grouping
  import opened Percentiles
  import opened RankCorrelation

  // ---------------------------------------------------------------------- ranks

  function Below(v: real): real -> real { x => if x < v then 1.0 else 0.0 }

  function At(v: real): real -> real { x => if x == v then 1.0 else 0.0 }

  lemma {:induction false} CountsAreTotals(s: seq<real>, v: real)
    ensures CountLess(s, v) as real == Total(s, Below(v)) && CountEqual(s, v) as real == Total(s, At(v))
  {
    if s != [] { CountsAreTotals(s[1..], v); }
  }

  lemma CountsPermuted(s: seq<real>, t: seq<real>, v: real)
    requires multiset(s) == multiset(t)
    ensures CountLess(s, v) == CountLess(t, v) && CountEqual(s, v) == CountEqual(t, v)
  {
    CountsAreTotals(s, v);
    CountsAreTotals(t, v);
    TotalPermutation(s, t, Below(v));
    TotalPermutation(s, t, At(v));
  }

  lemma {:induction false} NoneBelow(s: seq<real>, v: real)
    requires forall i :: 0 <= i < |s| ==> s[i] >= v
    ensures CountLess(s, v) == 0
  {
    if s != [] { NoneBelow(s[1..], v); }
  }

  lemma {:induction false} NoneAt(s: seq<real>, v: real)
    requires forall i :: 0 <= i < |s| ==> s[i] > v
    ensures CountEqual(s, v) == 0
  {
    if s != [] { NoneAt(s[1..], v); }
  }

  /** In sorted order the smaller values come first, and then the equal ones. */
  lemma {:induction false} CountsInOrder(order: seq<real>, v: real, p: nat)
    requires Sorted(order, RealLe) && p < |order|
    ensures order[p] < v <==> p < CountLess(order, v)
    ensures order[p] <= v <==> p < CountLess(order, v) + CountEqual(order, v)
  {
    var rest := order[1..];
    forall i | 0 <= i < |rest| ensures order[0] <= rest[i] { assert RealLe(order[0], order[i + 1]); }
    forall i, j | 0 <= i < j < |rest| ensures RealLe(rest[i], rest[j]) { assert RealLe(order[i + 1], order[j + 1]); }
    if order[0] >= v { NoneBelow(rest, v); }
    if order[0] > v { NoneAt(rest, v); }
    if p > 0 { CountsInOrder(rest, v, p - 1); }
  }

  /** The value fills the places `lo`, ..., `hi - 1` of the order, counted from 0. */
  ghost predicate Fills(order: seq<real>, v: real, lo: nat, hi: nat) {
    lo < hi <= |order| && forall p :: 0 <= p < |order| ==> (order[p] == v <==> lo <= p < hi)
  }

  /** The rank of a value is the mean of the first and the last place, counted from 1, that it fills in sorted order. */
  lemma RankIsMeanPlace(s: seq<real>, order: seq<real>, i: nat) returns (lo: nat, hi: nat)
    requires i < |s| && Sorted(order, RealLe) && multiset(order) == multiset(s)
    ensures Fills(order, s[i], lo, hi) && 2.0 * Ranks(s)[i] == (lo + 1 + hi) as real
  {
    var v := s[i];
    lo, hi := CountLess(order, v), CountLess(order, v) + CountEqual(order, v);
    CountsPermuted(s, order, v);
    forall p | 0 <= p < |order| ensures order[p] == v <==> lo <= p < hi { CountsInOrder(order, v, p); }
    assert v in multiset(order);
    var q :| 0 <= q < |order| && order[q] == v;
    CountsPartition(order, v);
  }

  // ---------------------------------------------------------------- correlations

  /** The sum of the products of like-placed values. */
  function CrossSum(x: seq<real>, y: seq<real>): real
    requires |x| == |y|
  {
    if x == [] then 0.0 else x[0] * y[0] + CrossSum(x[1..], y[1..])
  }

  /** `c` is the sum of the products, less that of the means. */
  predicate IsCoVariation(c: real, x: seq<real>, y: seq<real>)
    requires |x| == |y| > 0
  {
    c + Repeat(Product(Mean(x), Mean(y)), |x|) == CrossSum(x, y)
  }

  /** The sum of the products of the distances from `m` and from `k`. */
  function Deviations(x: seq<real>, m: real, y: seq<real>, k: real): real
    requires |x| == |y|
  {
    Dot(MapSeq(x, Minus(m)), MapSeq(y, Minus(k)))
  }

  lemma DeviationsStep(x: seq<real>, m: real, y: seq<real>, k: real)
    requires |x| == |y| > 0
    ensures Deviations(x, m, y, k) == Product(x[0] - m, y[0] - k) + Deviations(x[1..], m, y[1..], k)
  {
    var a, b := MapSeq(x, Minus(m)), MapSeq(y, Minus(k));
    assert a[1..] == MapSeq(x[1..], Minus(m)) && b[1..] == MapSeq(y[1..], Minus(k));
    assert a[0] == Minus(m)(x[0]) && b[0] == Minus(k)(y[0]);
  }

  lemma ProductOfDifferences(u: real, m: real, v: real, k: real)
    ensures (u - m) * (v - k) == u * v - m * v - k * u + m * k
  {
    assert (u - m) * (v - k) == u * (v - k) - m * (v - k);
    assert u * (v - k) == u * v - u * k;
    assert m * (v - k) == m * v - m * k;
  }

  lemma Distributes(m: real, v: real, rest: real, sum: real)
    requires sum == v + rest
    ensures Product(m, sum) == m * v + Product(m, rest)
  {
  }

  lemma AddProduct(u: real, m: real, v: real, k: real, sumX: real, restX: real, sumY: real, restY: real, cross: real,
                   deviations: real, repeated: real)
    requires sumX == u + restX && sumY == v + restY
    requires deviations == cross - Product(m, restY) - Product(k, restX) + repeated
    ensures Product(u - m, v - k) + deviations
            == (u * v + cross) - Product(m, sumY) - Product(k, sumX) + (Product(m, k) + repeated)
  {
    ProductOfDifferences(u, m, v, k);
    Distributes(m, v, restY, sumY);
    Distributes(k, u, restX, sumX);
  }

  lemma {:induction false} DeviationsFrom(x: seq<real>, m: real, y: seq<real>, k: real)
    requires |x| == |y|
    ensures Deviations(x, m, y, k)
            == CrossSum(x, y) - Product(m, Sum(y)) - Product(k, Sum(x)) + Repeat(Product(m, k), |x|)
  {
    if x != [] {
      DeviationsFrom(x[1..], m, y[1..], k);
      DeviationsStep(x, m, y, k);
      AddProduct(x[0], m, y[0], k, Sum(x), Sum(x[1..]), Sum(y), Sum(y[1..]), CrossSum(x[1..], y[1..]),
                 Deviations(x[1..], m, y[1..], k), Repeat(Product(m, k), |x| - 1));
    }
  }

  lemma ProductOfMean(m: real, k: real, n: nat, sum: real)
    requires sum == k * (n as real)
    ensures Product(m, sum) == Repeat(Product(m, k), n) == Repeat(Product(k, m), n)
  {
    RepeatIsProduct(Product(m, k), n);
    assert m * (k * (n as real)) == (m * k) * (n as real);
    assert m * k == k * m;
  }

  lemma SumIsMeanTimes(s: seq<real>)
    requires s != []
    ensures Sum(s) == Mean(s) * (|s| as real)
  {
    MeanRepeated(s);
    RepeatIsProduct(Mean(s), |s|);
  }

  lemma CenteredCoVariation(x: seq<real>, y: seq<real>)
    requires |x| == |y| > 0
    ensures IsCoVariation(Dot(Centered(x), Centered(y)), x, y)
  {
    DeviationsFrom(x, Mean(x), y, Mean(y));
    SumIsMeanTimes(x);
    SumIsMeanTimes(y);
    ProductOfMean(Mean(x), Mean(y), |y|, Sum(y));
    ProductOfMean(Mean(y), Mean(x), |x|, Sum(x));
  }

  /** The joint variation over the root of the product of the two own ones; undefined when that root is zero. */
  ghost predicate IsCorrelation(r: Option<real>, x: seq<real>, y: seq<real>, joint: real, own: real, other: real,
                                root: real)
    requires |x| == |y| > 0
  {
    && IsCoVariation(joint, x, y) && IsCoVariation(own, x, x) && IsCoVariation(other, y, y)
    && root >= 0.0 && Product(root, root) == Product(own, other)
    && (if root == 0.0 then r == None else r.Some? && Product(r.value, root) == joint)
  }

  lemma OwnVariationNonNegative(own: real, other: real)
    requires own >= 0.0 && other >= 0.0
    ensures Product(own, other) >= 0.0
  {
  }

  lemma QuotientTimes(b: real, d: real)
    requires d != 0.0
    ensures Product(b / d, d) == b
  {
  }

  lemma PearsonMeaning(x: seq<real>, y: seq<real>, sqrt: real -> real)
    returns (joint: real, own: real, other: real, root: real)
    requires |x| == |y| > 0 && IsSqrt(sqrt)
    ensures IsCorrelation(Pearson(x, y, sqrt), x, y, joint, own, other, root)
  {
    var a, b := Centered(x), Centered(y);
    joint, own, other := Dot(a, b), Dot(a, a), Dot(b, b);
    root := sqrt(Product(own, other));
    CenteredCoVariation(x, y);
    CenteredCoVariation(x, x);
    CenteredCoVariation(y, y);
    DotSelf(a);
    DotSelf(b);
    OwnVariationNonNegative(own, other);
    if root != 0.0 { QuotientTimes(joint, root); }
  }

  /** Over two or more regions the Spearman correlation is that of the ranks; over fewer there is none. */
  lemma SpearmanMeaning(a: map<string, real>, b: map<string, real>, keys: seq<string>, sqrt: real -> real)
    returns (joint: real, own: real, other: real, root: real)
    requires IsSqrt(sqrt) && forall k :: k in keys ==> k in a && k in b
    ensures |keys| < 2 ==> SpearmanOn(a, b, keys, sqrt) == None
    ensures |keys| >= 2 ==>
              IsCorrelation(SpearmanOn(a, b, keys, sqrt), Ranks(ValuesAt(a, keys)), Ranks(ValuesAt(b, keys)),
                            joint, own, other, root)
  {
    joint, own, other, root := 0.0, 0.0, 0.0, 0.0;
    if |keys| >= 2 {
      joint, own, other, root := PearsonMeaning(Ranks(ValuesAt(a, keys)), Ranks(ValuesAt(b, keys)), sqrt);
    }
  }

  // ------------------------------------------------------------------- exclusions

  function NotAmong(dropped: seq<string>): string -> bool { k => k !in dropped }

  lemma {:induction false} WithoutIsFilter(keys: seq<string>, dropped: seq<string>)
    ensures Without(keys, dropped) == Filter(keys, NotAmong(dropped))
  {
    if keys != [] { WithoutIsFilter(keys[1..], dropped); }
  }

  /** From the highest value down, equal values by region. */
  ghost predicate RanksDown(order: seq<string>, a: map<string, real>)
    requires forall k :: k in order ==> k in a
  {
    forall i, j :: 0 <= i < j < |order| ==>
      a[order[i]] > a[order[j]] || (a[order[i]] == a[order[j]] && StrLe(order[i], order[j]))
  }

  lemma DominanceIsPreorder(a: map<string, real>)
    ensures TotalPreorder(Dominance(a))
  {
    StrLeIsTotalOrder();
  }

  /** What remains are the regions other than the first operator's `topK` highest, in their old order. */
  lemma RemainingMeaning(a: map<string, real>, keys: seq<string>, topK: nat) returns (order: seq<string>)
    requires forall k :: k in keys ==> k in a
    ensures multiset(order) == multiset(keys) && |order| == |keys| && (forall k :: k in order ==> k in a)
    ensures RanksDown(order, a)
    ensures Remaining(a, keys, topK) == Filter(keys, NotAmong(order[..if topK <= |order| then topK else |order|]))
  {
    order := SortBy(keys, Dominance(a));
    SortPermutes(keys, Dominance(a));
    SortMembers(keys, Dominance(a));
    DominanceIsPreorder(a);
    SortSorts(keys, Dominance(a));
    forall i, j | 0 <= i < j < |order|
      ensures a[order[i]] > a[order[j]] || (a[order[i]] == a[order[j]] && StrLe(order[i], order[j]))
    {
      assert order[i] in order && order[j] in order;
      assert Dominance(a)(order[i], order[j]);
    }
    assert order[..|order|] == order;
    WithoutIsFilter(keys, if topK <= |order| then order[..topK] else order);
  }
}
