/** When the top-excluded correlation of `_one_rank_correlation` (`ssat/analysis/stability.py`) is symmetric. */
module ReducedCorrelation {
  import opened Prelude
  import opened Ordering
  import opened Sums
  import opened RankCorrelation
  import opened Spread

  /** `spearman_excl_top1` of the pair `a`, `b`. */
  ghost function Reduced(a: map<string, real>, b: map<string, real>, topK: nat, sqrt: real -> real): Option<real> {
    SpearmanOn(a, b, Remaining(a, Shared(a, b), topK), sqrt)
  }

  /** The regions left when the operator with values `a` comes first. */
  ghost function Left(a: map<string, real>, b: map<string, real>, topK: nat): seq<string> {
    Remaining(a, Shared(a, b), topK)
  }

  lemma SharedSymmetric(a: map<string, real>, b: map<string, real>)
    ensures Shared(a, b) == Shared(b, a)
  {
    assert a.Keys * b.Keys == b.Keys * a.Keys;
  }

  // ---------------------------------------------------------- same regions left

  lemma {:induction false} WithoutSame(keys: seq<string>, d: seq<string>, d': seq<string>)
    requires forall k :: k in keys ==> (k in d <==> k in d')
    ensures Without(keys, d) == Without(keys, d')
  {
    if keys != [] {
      assert keys[0] in keys;
      WithoutSame(keys[1..], d, d');
    }
  }

  lemma PearsonOnSymmetric(a: map<string, real>, b: map<string, real>, keys: seq<string>, sqrt: real -> real)
    requires forall k :: k in keys ==> k in a && k in b
    ensures SpearmanOn(a, b, keys, sqrt) == SpearmanOn(b, a, keys, sqrt)
  {
    if |keys| >= 2 { PearsonSymmetric(Ranks(ValuesAt(a, keys)), Ranks(ValuesAt(b, keys)), sqrt); }
  }

  /** If both operators would leave the same regions, the reduced correlation does not depend on which comes first. */
  lemma SameRegionsSameReduced(a: map<string, real>, b: map<string, real>, topK: nat, sqrt: real -> real)
    requires forall k :: k in Left(a, b, topK) <==> k in Left(b, a, topK)
    ensures Reduced(a, b, topK, sqrt) == Reduced(b, a, topK, sqrt)
  {
    SharedSymmetric(a, b);
    var keys := Shared(a, b);
    var s, s' := SortBy(keys, Dominance(a)), SortBy(keys, Dominance(b));
    var d, d' := if topK <= |s| then s[..topK] else s, if topK <= |s'| then s'[..topK] else s';
    assert Left(a, b, topK) == Without(keys, d) && Left(b, a, topK) == Without(keys, d');
    forall k | k in keys ensures k in d <==> k in d' {
      assert k in Without(keys, d) <==> k !in d;
      assert k in Without(keys, d') <==> k !in d';
    }
    WithoutSame(keys, d, d');
    PearsonOnSymmetric(a, b, Left(a, b, topK), sqrt);
  }

  // -------------------------------------------------------------- few regions left

  lemma {:induction false} WithoutCount(keys: seq<string>, dropped: seq<string>)
    requires Distinct(keys) && Distinct(dropped) && forall k :: k in dropped ==> k in keys
    ensures |Without(keys, dropped)| + |dropped| == |keys|
  {
    if keys == [] {
      if dropped != [] { assert dropped[0] in dropped; }
    } else if keys[0] in dropped {
      var i :| 0 <= i < |dropped| && dropped[i] == keys[0];
      var rest := dropped[..i] + dropped[i + 1..];
      DropOne(dropped, i);
      forall k | k in rest ensures k in keys[1..] { assert keys == [keys[0]] + keys[1..]; }
      WithoutCount(keys[1..], rest);
      forall k | k in keys[1..] ensures k in dropped <==> k in rest { FirstDiffers(keys, k); }
      WithoutSame(keys[1..], dropped, rest);
    } else {
      forall k | k in dropped ensures k in keys[1..] { assert keys == [keys[0]] + keys[1..]; }
      WithoutCount(keys[1..], dropped);
    }
  }

  lemma FirstDiffers(keys: seq<string>, k: string)
    requires Distinct(keys) && keys != [] && k in keys[1..]
    ensures k != keys[0]
  {
    var j :| 0 <= j < |keys| - 1 && keys[1..][j] == k;
    assert keys[j + 1] == k;
  }

  lemma DropOne<T>(s: seq<T>, i: nat)
    requires Distinct(s) && i < |s|
    ensures var rest := s[..i] + s[i + 1..];
            Distinct(rest) && |rest| == |s| - 1 && forall x :: x in rest <==> x in s && x != s[i]
  {
    var rest := s[..i] + s[i + 1..];
    assert forall j :: 0 <= j < |rest| ==> rest[j] == if j < i then s[j] else s[j + 1];
    forall x ensures x in rest <==> x in s && x != s[i] {
      if x in s && x != s[i] {
        var j :| 0 <= j < |s| && s[j] == x;
        assert rest[if j < i then j else j - 1] == x;
      }
    }
  }

  /** The exclusion leaves all but `topK` of the shared regions. */
  lemma LeftCount(a: map<string, real>, b: map<string, real>, topK: nat)
    ensures var n := |Shared(a, b)|; |Left(a, b, topK)| == if topK <= n then n - topK else 0
  {
    var keys := Shared(a, b);
    var ranked := SortBy(keys, Dominance(a));
    SortDistinct(keys, Dominance(a));
    SortMembers(keys, Dominance(a));
    SortPermutes(keys, Dominance(a));
    WithoutCount(keys, if topK <= |ranked| then ranked[..topK] else ranked);
  }

  /** With fewer than two regions left both readings are undefined, whatever the exclusions. */
  lemma FewLeftUndefined(a: map<string, real>, b: map<string, real>, topK: nat, sqrt: real -> real)
    requires |Shared(a, b)| < topK + 2
    ensures Reduced(a, b, topK, sqrt) == None && Reduced(b, a, topK, sqrt) == None
  {
    SharedSymmetric(a, b);
    LeftCount(a, b, topK);
    LeftCount(b, a, topK);
  }

  // --------------------------------------------------------------- two regions left

  /** Whether two values order two regions alike, oppositely, or not at all. */
  function Concordance(a: map<string, real>, b: map<string, real>, k: string, l: string): Option<real>
    requires k in a && l in a && k in b && l in b
  {
    if a[k] == a[l] || b[k] == b[l] then None
    else if a[k] < a[l] <==> b[k] < b[l] then Some(1.0) else Some(-1.0)
  }

  /** Half the sign of the second value minus the first: the centred rank of the second of two values. */
  function HalfStep(x: real, y: real): real { if x < y then 0.5 else if x > y then -0.5 else 0.0 }

  function Indicator(b: bool): nat { if b then 1 else 0 }

  lemma CountsOfTwo(x: real, y: real, v: real)
    ensures CountLess([x, y], v) == Indicator(x < v) + Indicator(y < v)
    ensures CountEqual([x, y], v) == Indicator(x == v) + Indicator(y == v)
  {
    assert [x, y][1..] == [y] && [y][1..] == [];
    assert CountLess([y], v) == Indicator(y < v) && CountEqual([y], v) == Indicator(y == v);
  }

  lemma SumOfTwo(x: real, y: real)
    ensures Sum([x, y]) == x + y
  {
    assert [x, y][1..] == [y] && [y][1..] == [];
    assert Sum([y]) == y;
  }

  lemma RanksOfTwo(x: real, y: real)
    ensures |Ranks([x, y])| == 2 && Centered(Ranks([x, y])) == [-HalfStep(x, y), HalfStep(x, y)]
  {
    var s := [x, y];
    var r := Ranks(s);
    CountsOfTwo(x, y, x);
    CountsOfTwo(x, y, y);
    assert r == [RankIn(s)(x), RankIn(s)(y)];
    SumOfTwo(r[0], r[1]);
    assert r[0] == 1.5 - HalfStep(x, y) && r[1] == 1.5 + HalfStep(x, y);
    assert Mean(r) == 1.5;
  }

  lemma NegatedProduct(p: real, q: real)
    ensures Product(-p, -q) == Product(p, q)
  {
  }

  lemma DotOfTwo(p: real, q: real)
    ensures Dot([-p, p], [-q, q]) == Product(p, q) + Product(p, q)
  {
    assert [-p, p][1..] == [p] && [-q, q][1..] == [q] && [p][1..] == [] && [q][1..] == [];
    assert Dot([p], [q]) == Product(p, q);
    NegatedProduct(p, q);
  }

  lemma RootOf(sqrt: real -> real, root: real)
    requires IsSqrt(sqrt) && root >= 0.0
    ensures sqrt(Product(root, root)) == root
  {
    ProductSelf(root);
    RootUnique(sqrt(Product(root, root)), root);
  }

  lemma HalfSteps(p: real, q: real, sqrt: real -> real)
    requires IsSqrt(sqrt) && p in {-0.5, 0.0, 0.5} && q in {-0.5, 0.0, 0.5}
    ensures Quotient(Product(p, q) + Product(p, q),
                     Product(Product(p, p) + Product(p, p), Product(q, q) + Product(q, q)), sqrt)
            == if p == 0.0 || q == 0.0 then None else if p == q then Some(1.0) else Some(-1.0)
  {
    RootOf(sqrt, 0.0);
    RootOf(sqrt, 0.5);
    assert Product(0.5, 0.5) == 0.25 && Product(-0.5, -0.5) == 0.25 && Product(0.5, -0.5) == -0.25
      && Product(-0.5, 0.5) == -0.25;
    ProductZero(p);
    ProductZero(q);
  }

  /** Over two regions the correlation is 1, -1 or undefined, as the operators order them. */
  lemma SpearmanOfTwo(a: map<string, real>, b: map<string, real>, k: string, l: string, sqrt: real -> real)
    requires IsSqrt(sqrt) && k in a && l in a && k in b && l in b
    ensures SpearmanOn(a, b, [k, l], sqrt) == Concordance(a, b, k, l)
  {
    assert [k, l][1..] == [l] && [l][1..] == [];
    var p, q := HalfStep(a[k], a[l]), HalfStep(b[k], b[l]);
    RanksOfTwo(a[k], a[l]);
    RanksOfTwo(b[k], b[l]);
    assert ValuesAt(a, [k, l]) == [a[k], a[l]] && ValuesAt(b, [k, l]) == [b[k], b[l]];
    DotOfTwo(p, q);
    DotOfTwo(p, p);
    DotOfTwo(q, q);
    HalfSteps(p, q, sqrt);
  }

  /**
    With two regions left on either side, the reduced correlation is symmetric exactly when the two
    remaining pairs are equally concordant.
   */
  lemma TwoLeftSymmetricIff(a: map<string, real>, b: map<string, real>, topK: nat, sqrt: real -> real)
    requires IsSqrt(sqrt) && |Shared(a, b)| == topK + 2
    ensures |Left(a, b, topK)| == 2 && |Left(b, a, topK)| == 2
    ensures var x, y := Left(a, b, topK), Left(b, a, topK);
            && x[0] in x && x[1] in x && y[0] in y && y[1] in y
            && (Reduced(a, b, topK, sqrt) == Reduced(b, a, topK, sqrt)
                <==> Concordance(a, b, x[0], x[1]) == Concordance(b, a, y[0], y[1]))
  {
    SharedSymmetric(a, b);
    LeftCount(a, b, topK);
    LeftCount(b, a, topK);
    var x, y := Left(a, b, topK), Left(b, a, topK);
    ReducedOfTwo(a, b, x, sqrt);
    ReducedOfTwo(b, a, y, sqrt);
    assert y[0] in y && y[1] in y;
  }

  lemma ReducedOfTwo(a: map<string, real>, b: map<string, real>, keys: seq<string>, sqrt: real -> real)
    requires IsSqrt(sqrt) && |keys| == 2 && forall k :: k in keys ==> k in a && k in b
    ensures keys[0] in keys && keys[1] in keys && SpearmanOn(a, b, keys, sqrt) == Concordance(a, b, keys[0], keys[1])
  {
    assert keys == [keys[0], keys[1]];
    SpearmanOfTwo(a, b, keys[0], keys[1], sqrt);
  }

  // ------------------------------------------------------------- the counterexample

  const FIRST: map<string, real> := map["r" := 4.0, "s" := 3.0, "t" := 2.0, "u" := 1.0]
  const SECOND: map<string, real> := map["r" := 3.0, "s" := 2.0, "t" := 1.0, "u" := 4.0]

  const FOUR: seq<string> := ["r", "s", "t", "u"]

  lemma OneChar(c: char, d: char)
    requires c < d
    ensures StrLe([c], [d]) && [c] != [d]
  {
    assert [c][0] != [d][0];
  }

  lemma FourSorted()
    ensures IsSortedSet(FOUR, {"r", "s", "t", "u"}, StrLe)
  {
    OneChar('r', 's');
    OneChar('r', 't');
    OneChar('r', 'u');
    OneChar('s', 't');
    OneChar('s', 'u');
    OneChar('t', 'u');
  }

  lemma FourShared()
    ensures Shared(FIRST, SECOND) == FOUR && Shared(SECOND, FIRST) == FOUR
  {
    StrLeIsTotalOrder();
    assert FIRST.Keys * SECOND.Keys == {"r", "s", "t", "u"};
    FourSorted();
    SortedSetUnique(Shared(FIRST, SECOND), FOUR, {"r", "s", "t", "u"}, StrLe);
    SharedSymmetric(FIRST, SECOND);
  }

  lemma FourTails()
    ensures FOUR[1..] == ["s", "t", "u"] && ["s", "t", "u"][1..] == ["t", "u"] && ["t", "u"][1..] == ["u"]
            && ["u"][1..] == []
  {
  }

  lemma FirstRanked()
    ensures SortBy(FOUR, Dominance(FIRST)) == FOUR
  {
    SortOfSorted(FOUR, Dominance(FIRST));
  }

  lemma SecondRanked()
    ensures SortBy(FOUR, Dominance(SECOND)) == ["u", "r", "s", "t"]
  {
    var le := Dominance(SECOND);
    FourTails();
    assert SortBy(["u"], le) == ["u"];
    assert SortBy(["t", "u"], le) == ["u", "t"];
    assert SortBy(["s", "t", "u"], le) == ["u", "s", "t"] by { assert ["u", "t"][1..] == ["t"]; }
    assert SortBy(FOUR, le) == ["u", "r", "s", "t"] by { assert ["u", "s", "t"][1..] == ["s", "t"]; }
  }

  lemma WithoutFirst()
    ensures Without(FOUR, ["r"]) == ["s", "t", "u"]
  {
    FourSorted();
    FourTails();
    assert Without(["u"], ["r"]) == ["u"];
    assert Without(["t", "u"], ["r"]) == ["t", "u"];
    assert Without(["s", "t", "u"], ["r"]) == ["s", "t", "u"];
  }

  lemma WithoutLast()
    ensures Without(FOUR, ["u"]) == ["r", "s", "t"]
  {
    FourSorted();
    FourTails();
    assert Without(["u"], ["u"]) == [];
    assert Without(["t", "u"], ["u"]) == ["t"];
    assert Without(["s", "t", "u"], ["u"]) == ["s", "t"];
  }

  lemma FourLeft()
    ensures Left(FIRST, SECOND, 1) == ["s", "t", "u"] && Left(SECOND, FIRST, 1) == ["r", "s", "t"]
  {
    FourShared();
    FirstRanked();
    SecondRanked();
    WithoutFirst();
    WithoutLast();
    assert FOUR[..1] == ["r"] && ["u", "r", "s", "t"][..1] == ["u"];
  }

  lemma CountsOfThree(x: real, y: real, z: real, v: real)
    ensures CountLess([x, y, z], v) == Indicator(x < v) + Indicator(y < v) + Indicator(z < v)
    ensures CountEqual([x, y, z], v) == Indicator(x == v) + Indicator(y == v) + Indicator(z == v)
  {
    assert [x, y, z][1..] == [y, z];
    CountsOfTwo(y, z, v);
  }

  /** The centred ranks of three values whose ranks are known. */
  lemma RanksOfThree(x: real, y: real, z: real, p: real, q: real, r: real)
    requires forall v {:trigger RankIn([x, y, z])(v)} :: v in {x, y, z} ==>
             RankIn([x, y, z])(v) == if v == x then p else if v == y then q else r
    requires x != y && y != z && x != z && p + q + r == 6.0
    ensures Centered(Ranks([x, y, z])) == [p - 2.0, q - 2.0, r - 2.0]
  {
    var s := [x, y, z];
    var ranks := Ranks(s);
    assert ranks[0] == RankIn(s)(x) && ranks[1] == RankIn(s)(y) && ranks[2] == RankIn(s)(z);
    assert ranks == [p, q, r] && [p, q, r][1..] == [q, r];
    SumOfTwo(q, r);
    assert Mean(ranks) == 2.0;
  }

  lemma DotOfThree(a: real, b: real, c: real, d: real, e: real, f: real)
    ensures Dot([a, b, c], [d, e, f]) == Product(a, d) + Product(b, e) + Product(c, f)
  {
    assert Dot([c], [f]) == Product(c, f);
    assert [a, b, c][1..] == [b, c] && [b, c][1..] == [c] && [c][1..] == [];
    assert [d, e, f][1..] == [e, f] && [e, f][1..] == [f] && [f][1..] == [];
  }

  /** Falling values have centred ranks 1, 0, -1. */
  lemma FallingRanks(x: real, y: real, z: real)
    requires x > y > z
    ensures Centered(Ranks([x, y, z])) == [1.0, 0.0, -1.0]
  {
    CountsOfThree(x, y, z, x);
    CountsOfThree(x, y, z, y);
    CountsOfThree(x, y, z, z);
    RanksOfThree(x, y, z, 3.0, 2.0, 1.0);
  }

  lemma MixedRanks(x: real, y: real, z: real)
    requires z > x > y
    ensures Centered(Ranks([x, y, z])) == [0.0, -1.0, 1.0]
  {
    CountsOfThree(x, y, z, x);
    CountsOfThree(x, y, z, y);
    CountsOfThree(x, y, z, z);
    RanksOfThree(x, y, z, 2.0, 1.0, 3.0);
  }

  lemma ThreeKeys(m: map<string, real>, k: string, l: string, n: string)
    requires k in m && l in m && n in m
    ensures ValuesAt(m, [k, l, n]) == [m[k], m[l], m[n]]
  {
    assert [k, l, n][1..] == [l, n] && [l, n][1..] == [n] && [n][1..] == [];
  }

  /** FOUR regions on which the first operator's exclusion gives -1/2 and the second's gives 1. */
  lemma ReducedDependsOnOrder(sqrt: real -> real)
    requires IsSqrt(sqrt)
    ensures Reduced(FIRST, SECOND, 1, sqrt) == Some(-0.5) && Reduced(SECOND, FIRST, 1, sqrt) == Some(1.0)
  {
    FourLeft();
    RootOf(sqrt, 2.0);
    assert Product(2.0, 2.0) == 4.0;
    FallingFirst(sqrt);
    FallingBoth(sqrt);
  }

  lemma FallingFirst(sqrt: real -> real)
    requires sqrt(4.0) == 2.0
    ensures SpearmanOn(FIRST, SECOND, ["s", "t", "u"], sqrt) == Some(-0.5)
  {
    ThreeKeys(FIRST, "s", "t", "u");
    ThreeKeys(SECOND, "s", "t", "u");
    FallingRanks(3.0, 2.0, 1.0);
    MixedRanks(2.0, 1.0, 4.0);
    FallingDot();
    DotOfThree(1.0, 0.0, -1.0, 0.0, -1.0, 1.0);
    DotOfThree(0.0, -1.0, 1.0, 0.0, -1.0, 1.0);
    assert Product(2.0, 2.0) == 4.0 && Quotient(-1.0, 4.0, sqrt) == Some(-0.5);
  }

  lemma FallingBoth(sqrt: real -> real)
    requires sqrt(4.0) == 2.0
    ensures SpearmanOn(SECOND, FIRST, ["r", "s", "t"], sqrt) == Some(1.0)
  {
    ThreeKeys(FIRST, "r", "s", "t");
    ThreeKeys(SECOND, "r", "s", "t");
    FallingRanks(4.0, 3.0, 2.0);
    FallingRanks(3.0, 2.0, 1.0);
    FallingDot();
    assert Product(2.0, 2.0) == 4.0 && Quotient(2.0, 4.0, sqrt) == Some(1.0);
  }

  lemma FallingDot()
    ensures Dot([1.0, 0.0, -1.0], [1.0, 0.0, -1.0]) == 2.0
  {
    DotOfThree(1.0, 0.0, -1.0, 1.0, 0.0, -1.0);
  }

  // ----------------------------------------- different exclusions, equal correlations

  const REVERSED: map<string, real> := map["r" := 1.0, "s" := 2.0, "t" := 3.0, "u" := 4.0]

  lemma ReversedRanked()
    ensures SortBy(FOUR, Dominance(REVERSED)) == ["u", "t", "s", "r"]
  {
    var le := Dominance(REVERSED);
    FourTails();
    assert SortBy(["u"], le) == ["u"];
    assert SortBy(["t", "u"], le) == ["u", "t"];
    assert SortBy(["s", "t", "u"], le) == ["u", "t", "s"] by { assert ["u", "t"][1..] == ["t"]; }
    assert SortBy(FOUR, le) == ["u", "t", "s", "r"] by {
      assert ["u", "t", "s"][1..] == ["t", "s"] && ["t", "s"][1..] == ["s"];
    }
  }

  lemma SharedReversed()
    ensures Shared(FIRST, REVERSED) == FOUR && Shared(REVERSED, FIRST) == FOUR
  {
    StrLeIsTotalOrder();
    assert FIRST.Keys * REVERSED.Keys == {"r", "s", "t", "u"};
    FourSorted();
    SortedSetUnique(Shared(FIRST, REVERSED), FOUR, {"r", "s", "t", "u"}, StrLe);
    SharedSymmetric(FIRST, REVERSED);
  }

  lemma ReversedLeft()
    ensures Left(FIRST, REVERSED, 1) == ["s", "t", "u"] && Left(REVERSED, FIRST, 1) == ["r", "s", "t"]
  {
    SharedReversed();
    FirstRanked();
    ReversedRanked();
    WithoutFirst();
    WithoutLast();
    assert FOUR[..1] == ["r"] && ["u", "t", "s", "r"][..1] == ["u"];
  }

  lemma RisingRanks(x: real, y: real, z: real)
    requires x < y < z
    ensures Centered(Ranks([x, y, z])) == [-1.0, 0.0, 1.0]
  {
    CountsOfThree(x, y, z, x);
    CountsOfThree(x, y, z, y);
    CountsOfThree(x, y, z, z);
    RanksOfThree(x, y, z, 1.0, 2.0, 3.0);
  }

  lemma OpposedRanks(a: map<string, real>, b: map<string, real>, k: string, l: string, n: string, sqrt: real -> real)
    requires sqrt(4.0) == 2.0 && k in a && l in a && n in a && k in b && l in b && n in b
    requires a[k] > a[l] > a[n] && b[k] < b[l] < b[n]
    ensures SpearmanOn(a, b, [k, l, n], sqrt) == Some(-1.0)
  {
    ThreeKeys(a, k, l, n);
    ThreeKeys(b, k, l, n);
    FallingRanks(a[k], a[l], a[n]);
    RisingRanks(b[k], b[l], b[n]);
    FallingDot();
    DotOfThree(1.0, 0.0, -1.0, -1.0, 0.0, 1.0);
    DotOfThree(-1.0, 0.0, 1.0, -1.0, 0.0, 1.0);
    assert Product(2.0, 2.0) == 4.0 && Quotient(-2.0, 4.0, sqrt) == Some(-1.0);
  }

  lemma OpposedOnLast(sqrt: real -> real)
    requires sqrt(4.0) == 2.0
    ensures SpearmanOn(FIRST, REVERSED, ["s", "t", "u"], sqrt) == Some(-1.0)
  {
    OpposedRanks(FIRST, REVERSED, "s", "t", "u", sqrt);
  }

  lemma OpposedOnFirst(sqrt: real -> real)
    requires sqrt(4.0) == 2.0
    ensures SpearmanOn(REVERSED, FIRST, ["r", "s", "t"], sqrt) == Some(-1.0)
  {
    OpposedRanks(FIRST, REVERSED, "r", "s", "t", sqrt);
    PearsonOnSymmetric(FIRST, REVERSED, ["r", "s", "t"], sqrt);
  }

  /** Different regions are left, yet both readings are -1: equal exclusions are sufficient, not necessary. */
  lemma DifferentRegionsSameReduced(sqrt: real -> real)
    requires IsSqrt(sqrt)
    ensures Left(FIRST, REVERSED, 1) == ["s", "t", "u"] && Left(REVERSED, FIRST, 1) == ["r", "s", "t"]
    ensures Reduced(FIRST, REVERSED, 1, sqrt) == Some(-1.0) && Reduced(REVERSED, FIRST, 1, sqrt) == Some(-1.0)
  {
    ReversedLeft();
    RootOf(sqrt, 2.0);
    assert Product(2.0, 2.0) == 4.0;
    OpposedOnLast(sqrt);
    OpposedOnFirst(sqrt);
  }
}
