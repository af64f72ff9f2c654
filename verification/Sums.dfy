/** Finite sums and means over mathematical reals. */
module Sums {
  import opened Ordering

  /** The sum of `g` over the elements of `s`. */
  function Total<T>(s: seq<T>, g: T -> real): real {
    if s == [] then 0.0 else g(s[0]) + Total(s[1..], g)
  }

  function Sum(s: seq<real>): real {
    if s == [] then 0.0 else s[0] + Sum(s[1..])
  }

  /** numpy's and pandas' `mean`. */
  function Mean(s: seq<real>): real
    requires s != []
  {
    Sum(s) / (|s| as real)
  }

  function MapSeq<T, U>(s: seq<T>, f: T -> U): (r: seq<U>)
    ensures |r| == |s| && forall i :: 0 <= i < |s| ==> r[i] == f(s[i])
  {
    if s == [] then [] else [f(s[0])] + MapSeq(s[1..], f)
  }

  function Times(c: real): real -> real {
    x => c * x
  }

  function Scaled(s: seq<real>, c: real): seq<real> {
    MapSeq(s, Times(c))
  }

  lemma {:induction false} SumMap<T>(s: seq<T>, g: T -> real)
    ensures Sum(MapSeq(s, g)) == Total(s, g)
  {
    if s != [] { SumMap(s[1..], g); }
  }

  lemma {:induction false} MapAppend<T, U>(s: seq<T>, t: seq<T>, f: T -> U)
    ensures MapSeq(s + t, f) == MapSeq(s, f) + MapSeq(t, f)
  {
  }

  lemma {:induction false} TotalAppend<T>(s: seq<T>, t: seq<T>, g: T -> real)
    ensures Total(s + t, g) == Total(s, g) + Total(t, g)
  {
    if s == [] {
      assert s + t == t;
    } else {
      assert (s + t)[1..] == s[1..] + t;
      TotalAppend(s[1..], t, g);
    }
  }

  lemma TotalCons<T>(x: T, s: seq<T>, g: T -> real)
    ensures Total([x] + s, g) == g(x) + Total(s, g)
  {
    assert ([x] + s)[1..] == s;
  }

  lemma TotalMiddle<T>(front: seq<T>, x: T, back: seq<T>, g: T -> real)
    ensures Total(front + ([x] + back), g) == g(x) + Total(front + back, g)
  {
    TotalAppend(front, [x] + back, g);
    TotalCons(x, back, g);
    TotalAppend(front, back, g);
  }

  /** Moving one element to the front keeps the sum. */
  lemma TotalExtract<T>(s: seq<T>, k: nat, g: T -> real)
    requires k < |s|
    ensures Total(s, g) == g(s[k]) + Total(s[..k] + s[k + 1..], g)
  {
    TotalMiddle(s[..k], s[k], s[k + 1..], g);
    assert s == s[..k] + ([s[k]] + s[k + 1..]);
  }

  lemma RemoveOccurrence<T>(s: seq<T>, t: seq<T>, k: nat)
    requires s != [] && k < |t| && t[k] == s[0] && multiset(s) == multiset(t)
    ensures multiset(s[1..]) == multiset(t[..k] + t[k + 1..])
  {
    assert s == [s[0]] + s[1..];
    assert t == t[..k] + [t[k]] + t[k + 1..];
    assert multiset(s[1..]) == multiset(s) - multiset{s[0]};
    assert multiset(t[..k] + t[k + 1..]) == multiset(t) - multiset{t[k]};
  }

  /** A sum does not depend on the order of its terms. */
  lemma {:induction false} TotalPermutation<T>(s: seq<T>, t: seq<T>, g: T -> real)
    requires multiset(s) == multiset(t)
    ensures Total(s, g) == Total(t, g)
  {
    assert |s| == |multiset(s)| == |multiset(t)| == |t|;
    if s != [] {
      assert s[0] in multiset(t);
      var k :| 0 <= k < |t| && t[k] == s[0];
      var rest := t[..k] + t[k + 1..];
      RemoveOccurrence(s, t, k);
      TotalPermutation(s[1..], rest, g);
      TotalExtract(t, k, g);
    }
  }

  lemma TotalSameSet<T>(s: seq<T>, t: seq<T>, g: T -> real)
    requires Distinct(s) && Distinct(t) && (forall x :: x in s <==> x in t)
    ensures Total(s, g) == Total(t, g) && |s| == |t|
  {
    DistinctSameSet(s, t);
    assert |multiset(s)| == |multiset(t)|;
    TotalPermutation(s, t, g);
  }

  lemma {:induction false} TotalAgrees<T>(s: seq<T>, f: T -> real, g: T -> real)
    requires forall i :: 0 <= i < |s| ==> f(s[i]) == g(s[i])
    ensures Total(s, f) == Total(s, g)
  {
    if s != [] {
      assert f(s[0]) == g(s[0]);
      TotalAgrees(s[1..], f, g);
    }
  }

  lemma {:induction false} SumScaled(s: seq<real>, c: real)
    ensures Sum(Scaled(s, c)) == c * Sum(s)
  {
    if s != [] {
      SumScaled(s[1..], c);
      assert Scaled(s, c)[1..] == Scaled(s[1..], c);
    }
  }

  lemma DivideScaled(c: real, x: real, n: real)
    requires n != 0.0
    ensures (c * x) / n == c * (x / n)
  {
    assert c * (x / n) * n == c * x;
  }

  lemma MeanScaled(s: seq<real>, c: real)
    requires s != []
    ensures Mean(Scaled(s, c)) == c * Mean(s)
  {
    var n := |s| as real;
    SumScaled(s, c);
    DivideScaled(c, Sum(s), n);
    assert Mean(Scaled(s, c)) == (c * Sum(s)) / n;
    assert Mean(s) == Sum(s) / n;
  }

  lemma MeanTimes(s: seq<real>, c: real)
    requires s != []
    ensures Scaled(s, c) != [] && Mean(Scaled(s, c)) == Times(c)(Mean(s))
  {
    MeanScaled(s, c);
  }

  /** `x * n`, by repeated addition. */
  function Repeat(x: real, n: nat): real {
    if n == 0 then 0.0 else x + Repeat(x, n - 1)
  }

  lemma AddOne(x: real, n: real, m: real)
    requires m == n + 1.0
    ensures x * m == x + x * n
  {
  }

  lemma {:induction false} RepeatIsProduct(x: real, n: nat)
    ensures Repeat(x, n) == x * (n as real)
  {
    if n > 0 {
      RepeatIsProduct(x, n - 1);
      AddOne(x, (n - 1) as real, n as real);
    }
  }

  lemma {:induction false} RepeatAdds(x: real, y: real, n: nat)
    ensures Repeat(x + y, n) == Repeat(x, n) + Repeat(y, n)
  {
    if n > 0 { RepeatAdds(x, y, n - 1); }
  }

  lemma {:induction false} SumAtLeast(s: seq<real>, lo: real)
    requires forall i :: 0 <= i < |s| ==> lo <= s[i]
    ensures Repeat(lo, |s|) <= Sum(s)
  {
    if s != [] { SumAtLeast(s[1..], lo); }
  }

  lemma {:induction false} SumAtMost(s: seq<real>, hi: real)
    requires forall i :: 0 <= i < |s| ==> s[i] <= hi
    ensures Sum(s) <= Repeat(hi, |s|)
  {
    if s != [] { SumAtMost(s[1..], hi); }
  }

  lemma CancelFactor(a: real, b: real, n: real)
    requires n > 0.0 && a * n <= b * n
    ensures a <= b
  {
  }

  lemma DivideBounds(x: real, n: real, lo: real, hi: real)
    requires n > 0.0 && lo * n <= x <= hi * n
    ensures lo <= x / n <= hi
  {
    assert (x / n) * n == x;
    CancelFactor(lo, x / n, n);
    CancelFactor(x / n, hi, n);
  }

  lemma DivideAtMost(x: real, n: real, hi: real)
    requires n > 0.0 && x <= hi * n
    ensures x / n <= hi
  {
    assert (x / n) * n == x;
    CancelFactor(x / n, hi, n);
  }

  lemma DivideAtLeast(x: real, n: real, lo: real)
    requires n > 0.0 && lo * n <= x
    ensures lo <= x / n
  {
    assert (x / n) * n == x;
    CancelFactor(lo, x / n, n);
  }

  lemma MeanRepeated(s: seq<real>)
    requires s != []
    ensures Repeat(Mean(s), |s|) == Sum(s)
  {
    RepeatIsProduct(Mean(s), |s|);
  }

  lemma MeanAtMost(s: seq<real>, hi: real)
    requires s != [] && forall i :: 0 <= i < |s| ==> s[i] <= hi
    ensures Mean(s) <= hi
  {
    SumAtMost(s, hi);
    SumBelowGivesMean(s, hi);
  }

  lemma SumBelowGivesMean(s: seq<real>, hi: real)
    requires s != [] && Sum(s) <= Repeat(hi, |s|)
    ensures Mean(s) <= hi
  {
    RepeatIsProduct(hi, |s|);
    DivideAtMost(Sum(s), |s| as real, hi);
  }

  lemma SumAboveGivesMean(s: seq<real>, lo: real)
    requires s != [] && Repeat(lo, |s|) <= Sum(s)
    ensures lo <= Mean(s)
  {
    RepeatIsProduct(lo, |s|);
    DivideAtLeast(Sum(s), |s| as real, lo);
  }

  lemma MeanAtLeast(s: seq<real>, lo: real)
    requires s != [] && forall i :: 0 <= i < |s| ==> lo <= s[i]
    ensures lo <= Mean(s)
  {
    SumAtLeast(s, lo);
    SumAboveGivesMean(s, lo);
  }

  lemma {:induction false} TotalZero<T>(s: seq<T>, g: T -> real)
    requires forall i :: 0 <= i < |s| ==> g(s[i]) == 0.0
    ensures Total(s, g) == 0.0
  {
    if s != [] {
      assert g(s[0]) == 0.0;
      TotalZero(s[1..], g);
    }
  }
}
