/** numpy's population standard deviation (`ddof=0`), with the square root as an exact parameter. */
module Spread {
  import opened Sums
  import opened RankCorrelation

  function Square(x: real): real { Product(x, x) }

  function SquaredFrom(m: real): real -> real { v => Square(v - m) }

  function Variance(values: seq<real>): real
    requires values != []
  {
    Mean(MapSeq(values, SquaredFrom(Mean(values))))
  }

  /** `np.std(values)`. */
  function Std(values: seq<real>, sqrt: real -> real): real
    requires values != []
  {
    sqrt(Variance(values))
  }

  lemma SquareSign(x: real)
    ensures Square(x) >= 0.0 && (Square(x) == 0.0 <==> x == 0.0)
  {
    ProductSelf(x);
    ProductZero(x);
  }

  lemma VarianceNonNegative(values: seq<real>)
    requires values != []
    ensures Variance(values) >= 0.0
  {
    var squares := MapSeq(values, SquaredFrom(Mean(values)));
    forall i | 0 <= i < |squares| ensures 0.0 <= squares[i] { SquareSign(values[i] - Mean(values)); }
    MeanAtLeast(squares, 0.0);
  }

  lemma StdNonNegative(values: seq<real>, sqrt: real -> real)
    requires values != [] && IsSqrt(sqrt)
    ensures Std(values, sqrt) >= 0.0 && (Std(values, sqrt) == 0.0 <==> Variance(values) == 0.0)
  {
    VarianceNonNegative(values);
    RootSquared(values, sqrt);
    SquareSign(Std(values, sqrt));
  }

  lemma {:induction false} ZeroSumOfNonNegatives(s: seq<real>)
    requires forall i :: 0 <= i < |s| ==> s[i] >= 0.0
    ensures Sum(s) >= 0.0 && (Sum(s) == 0.0 <==> forall i :: 0 <= i < |s| ==> s[i] == 0.0)
  {
    if s != [] {
      ZeroSumOfNonNegatives(s[1..]);
      assert s[0] >= 0.0;
      if Sum(s) == 0.0 {
        forall i | 0 <= i < |s| ensures s[i] == 0.0 { if i > 0 { assert s[1..][i - 1] == 0.0; } }
      }
    }
  }

  predicate AllEqual(s: seq<real>) { forall i, j :: 0 <= i < j < |s| ==> s[i] == s[j] }

  lemma MeanZero(s: seq<real>)
    requires s != []
    ensures Mean(s) == 0.0 <==> Sum(s) == 0.0
  {
    assert Mean(s) * (|s| as real) == Sum(s);
  }

  lemma MeanOfEqual(s: seq<real>)
    requires s != [] && AllEqual(s)
    ensures Mean(s) == s[0]
  {
    MeanAtLeast(s, s[0]);
    MeanAtMost(s, s[0]);
  }

  /** The standard deviation vanishes exactly for a constant sample. */
  lemma StdZeroIffConstant(values: seq<real>, sqrt: real -> real)
    requires values != [] && IsSqrt(sqrt)
    ensures Std(values, sqrt) == 0.0 <==> AllEqual(values)
  {
    var m := Mean(values);
    var squares := MapSeq(values, SquaredFrom(m));
    StdNonNegative(values, sqrt);
    MeanZero(squares);
    forall i | 0 <= i < |squares| ensures squares[i] >= 0.0 && (squares[i] == 0.0 <==> values[i] == m) {
      SquareSign(values[i] - m);
    }
    ZeroSumOfNonNegatives(squares);
    if AllEqual(values) { MeanOfEqual(values); }
    if Sum(squares) == 0.0 {
      forall i | 0 <= i < |values| ensures values[i] == m { assert squares[i] == 0.0; }
    }
  }

  // --------------------------------------------------------------------- scaling

  lemma Reassociate(a: real, b: real, d: real)
    ensures (a * b) * d == a * (b * d) && a * b == b * a
  {
  }

  /** The sum of the squared values. */
  function SquareSum(values: seq<real>): real {
    if values == [] then 0.0 else values[0] * values[0] + SquareSum(values[1..])
  }

  lemma DifferenceSquared(v: real, m: real)
    ensures (v - m) * (v - m) == v * v - 2.0 * (m * v) + m * m
  {
    Distribute(v - m, v, m);
    Distribute(v, v, m);
    Distribute(m, v, m);
  }

  /** The sum of the squared distances from `m`. */
  function Distances(values: seq<real>, m: real): real { Sum(MapSeq(values, SquaredFrom(m))) }

  lemma DistancesStep(values: seq<real>, m: real)
    requires values != []
    ensures Distances(values, m) == Product(values[0] - m, values[0] - m) + Distances(values[1..], m)
  {
    var squares := MapSeq(values, SquaredFrom(m));
    assert squares[1..] == MapSeq(values[1..], SquaredFrom(m));
    assert squares[0] == SquaredFrom(m)(values[0]) == Square(values[0] - m);
    assert Sum(squares) == squares[0] + Sum(squares[1..]);
  }

  lemma AddSquare(x: real, m: real, sum: real, rest: real, squares: real, distances: real, repeated: real)
    requires sum == x + rest && distances == squares - 2.0 * Product(m, rest) + repeated
    ensures Product(x - m, x - m) + distances == (x * x + squares) - 2.0 * Product(m, sum) + (Square(m) + repeated)
  {
    DifferenceSquared(x, m);
    Split(m, x, rest, sum);
  }

  lemma {:induction false} SquaresFrom(values: seq<real>, m: real)
    ensures Distances(values, m) == SquareSum(values) - 2.0 * Product(m, Sum(values)) + Repeat(Square(m), |values|)
  {
    if values != [] {
      SquaresFrom(values[1..], m);
      DistancesStep(values, m);
      AddSquare(values[0], m, Sum(values), Sum(values[1..]), SquareSum(values[1..]), Distances(values[1..], m),
                Repeat(Square(m), |values| - 1));
    }
  }

  lemma Split(m: real, x: real, rest: real, sum: real)
    requires sum == x + rest
    ensures Product(m, sum) == m * x + Product(m, rest)
  {
  }

  lemma VarianceSum(values: seq<real>)
    requires values != []
    ensures Repeat(Variance(values), |values|) == Distances(values, Mean(values))
  {
    MeanRepeated(MapSeq(values, SquaredFrom(Mean(values))));
  }

  /** The squares sum to the variance and the squared mean, each once for every value. */
  lemma VarianceMeaning(values: seq<real>)
    requires values != []
    ensures Repeat(Variance(values), |values|) + Repeat(Square(Mean(values)), |values|) == SquareSum(values)
  {
    VarianceSum(values);
    MeanTimesSum(values);
    SquaresFrom(values, Mean(values));
  }

  lemma MeanTimesSum(values: seq<real>)
    requires values != []
    ensures Product(Mean(values), Sum(values)) == Repeat(Square(Mean(values)), |values|)
  {
    var m := Mean(values);
    MeanRepeated(values);
    RepeatIsProduct(m, |values|);
    RepeatIsProduct(Square(m), |values|);
    ProductReassociates(m, |values| as real, Sum(values));
  }

  lemma ProductReassociates(m: real, n: real, sum: real)
    requires sum == m * n
    ensures Product(m, sum) == Square(m) * n
  {
    Reassociate(m, m, n);
  }

  lemma SquareScaled(c: real, x: real, y: real)
    requires y == c * x
    ensures Square(y) == Times(Square(c))(Square(x))
  {
    assert Square(y) == (c * x) * y;
    Reassociate(c, x, y);
    Reassociate(x, c, x);
    assert x * y == c * (x * x) by { Reassociate(c, x, x); }
    Reassociate(c, c, x * x);
  }

  lemma Distribute(c: real, x: real, y: real)
    ensures c * x - c * y == c * (x - y)
  {
  }

  lemma SquaredFromScaled(c: real, m: real, v: real, m': real, v': real)
    requires m' == c * m && v' == c * v
    ensures SquaredFrom(m')(v') == Times(Square(c))(SquaredFrom(m)(v))
  {
    Distribute(c, v, m);
    SquareScaled(c, v - m, v' - m');
  }

  lemma VarianceScaled(values: seq<real>, c: real)
    requires values != []
    ensures Scaled(values, c) != [] && Variance(Scaled(values, c)) == Times(Square(c))(Variance(values))
  {
    var m, m' := Mean(values), Mean(Scaled(values, c));
    var squares, squares' := MapSeq(values, SquaredFrom(m)), MapSeq(Scaled(values, c), SquaredFrom(m'));
    MeanScaled(values, c);
    forall i | 0 <= i < |values| ensures squares'[i] == Scaled(squares, Square(c))[i] {
      SquaredFromScaled(c, m, values[i], m', Scaled(values, c)[i]);
    }
    assert squares' == Scaled(squares, Square(c));
    MeanScaled(squares, Square(c));
  }

  lemma RootUnique(a: real, b: real)
    requires a >= 0.0 && b >= 0.0 && Square(a) == Square(b)
    ensures a == b
  {
    if a < b { SquareGrows(b, a); }
    if b < a { SquareGrows(a, b); }
  }

  lemma RootSquared(values: seq<real>, sqrt: real -> real)
    requires values != [] && IsSqrt(sqrt)
    ensures Std(values, sqrt) >= 0.0 && Square(Std(values, sqrt)) == Variance(values)
  {
    VarianceNonNegative(values);
  }

  lemma StdScaled(values: seq<real>, c: real, sqrt: real -> real)
    requires values != [] && c > 0.0 && IsSqrt(sqrt)
    ensures Scaled(values, c) != [] && Std(Scaled(values, c), sqrt) == Times(c)(Std(values, sqrt))
  {
    var root, grown := Std(values, sqrt), Times(c)(Std(values, sqrt));
    RootSquared(values, sqrt);
    RootSquared(Scaled(values, c), sqrt);
    VarianceScaled(values, c);
    SquareScaled(c, root, grown);
    ProductNonNegative(c, root);
    RootUnique(Std(Scaled(values, c), sqrt), grown);
  }

  lemma ProductNonNegative(a: real, b: real)
    requires a >= 0.0 && b >= 0.0
    ensures a * b >= 0.0
  {
  }

  /** Standardising cancels a common positive factor. */
  lemma StandardScoreScaled(t: real, m: real, s: real, c: real)
    requires c > 0.0 && s != 0.0
    ensures c * s != 0.0 && (c * t - c * m) / (c * s) == (t - m) / s
  {
    var z := (t - m) / s;
    Distribute(c, t, m);
    Reassociate(c, s, z);
    assert s * z == t - m;
    Reassociate(z, c * s, 1.0);
    PositiveFactor(c, s);
    Cancel(z, c * s, c * t - c * m);
  }

  lemma ScaledScore(t: real, m: real, s: real, c: real, t': real, m': real, s': real)
    requires c > 0.0 && s != 0.0 && t' == c * t && m' == c * m && s' == c * s
    ensures s' != 0.0 && (t' - m') / s' == (t - m) / s
  {
    StandardScoreScaled(t, m, s, c);
  }

  lemma PositiveFactor(c: real, s: real)
    requires c > 0.0 && s != 0.0
    ensures c * s != 0.0
  {
    if s > 0.0 { PositiveProduct(c, s); } else { PositiveProduct(c, -s); }
  }

  lemma Cancel(z: real, d: real, n: real)
    requires d != 0.0 && n == z * d
    ensures n / d == z
  {
  }
}
