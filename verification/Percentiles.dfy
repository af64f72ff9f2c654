/** numpy's `percentile` with linear interpolation, over reals. */
module Percentiles {
  import opened Ordering
  import opened Sums

  predicate RealLe(x: real, y: real) { x <= y }

  /** The value at fractional position `pos` of a sorted sequence. */
  function Interpolate(s: seq<real>, pos: real): real
    requires s != [] && 0.0 <= pos <= (|s| - 1) as real
  {
    var lo := pos.Floor;
    var hi := if lo + 1 < |s| then lo + 1 else lo;
    s[lo] + (pos - lo as real) * (s[hi] - s[lo])
  }

  function Position(n: nat, pct: real): (pos: real)
    requires n > 0 && 0.0 <= pct <= 100.0
    ensures 0.0 <= pos <= (n - 1) as real
  {
    PositionInRange((n - 1) as real, pct);
    ((n - 1) as real) * pct / 100.0
  }

  lemma PositionInRange(last: real, pct: real)
    requires last >= 0.0 && 0.0 <= pct <= 100.0
    ensures 0.0 <= last * pct / 100.0 <= last
  {
    assert last * pct <= last * 100.0;
  }

  function Percentile(values: seq<real>, pct: real): real
    requires values != [] && 0.0 <= pct <= 100.0
  {
    SortPermutes(values, RealLe);
    Interpolate(SortBy(values, RealLe), Position(|values|, pct))
  }

  lemma ConvexBounds(a: real, b: real, t: real)
    requires a <= b && 0.0 <= t <= 1.0
    ensures a <= a + t * (b - a) <= b
  {
    NonNegativeProduct(t, b - a);
    NonNegativeProduct(1.0 - t, b - a);
    assert (1.0 - t) * (b - a) == (b - a) - t * (b - a);
  }

  lemma ConvexMonotone(a: real, b: real, t: real, u: real)
    requires a <= b && t <= u
    ensures a + t * (b - a) <= a + u * (b - a)
  {
    NonNegativeProduct(u - t, b - a);
    assert u * (b - a) - t * (b - a) == (u - t) * (b - a);
  }

  lemma NonNegativeProduct(d: real, e: real)
    requires d >= 0.0 && e >= 0.0
    ensures d * e >= 0.0
  {
  }

  lemma InterpolateBetween(s: seq<real>, pos: real)
    requires s != [] && Sorted(s, RealLe) && 0.0 <= pos <= (|s| - 1) as real
    ensures var lo := pos.Floor; var hi := if lo + 1 < |s| then lo + 1 else lo;
            s[lo] <= Interpolate(s, pos) <= s[hi]
  {
    var lo := pos.Floor;
    var hi := if lo + 1 < |s| then lo + 1 else lo;
    assert RealLe(s[lo], s[hi]) || lo == hi;
    ConvexBounds(s[lo], s[hi], pos - lo as real);
  }

  lemma InterpolateMonotone(s: seq<real>, p: real, q: real)
    requires s != [] && Sorted(s, RealLe) && 0.0 <= p <= q <= (|s| - 1) as real
    ensures Interpolate(s, p) <= Interpolate(s, q)
  {
    InterpolateBetween(s, p);
    InterpolateBetween(s, q);
    if p.Floor == q.Floor {
      var lo := p.Floor;
      var hi := if lo + 1 < |s| then lo + 1 else lo;
      assert RealLe(s[lo], s[hi]) || lo == hi;
      ConvexMonotone(s[lo], s[hi], p - lo as real, q - lo as real);
    } else {
      assert p.Floor + 1 <= q.Floor;
      assert RealLe(s[p.Floor + 1], s[q.Floor]) || p.Floor + 1 == q.Floor;
    }
  }

  lemma PositionMonotone(n: nat, p: real, q: real)
    requires n > 0 && 0.0 <= p <= q <= 100.0
    ensures Position(n, p) <= Position(n, q)
  {
    var last := (n - 1) as real;
    assert last * p <= last * q;
  }

  /** Percentiles stay within the values and rise with the percentage. */
  lemma PercentileBounds(values: seq<real>, p: real, q: real, lo: real, hi: real)
    requires values != [] && 0.0 <= p <= q <= 100.0
    requires forall i :: 0 <= i < |values| ==> lo <= values[i] <= hi
    ensures lo <= Percentile(values, p) <= Percentile(values, q) <= hi
  {
    var s := SortBy(values, RealLe);
    SortPermutes(values, RealLe);
    SortSorts(values, RealLe);
    SortMembers(values, RealLe);
    forall i | 0 <= i < |s| ensures lo <= s[i] <= hi { assert s[i] in values; }
    PositionMonotone(|values|, p, q);
    InterpolateMonotone(s, Position(|values|, p), Position(|values|, q));
    InterpolateBetween(s, Position(|values|, p));
    InterpolateBetween(s, Position(|values|, q));
  }

  // ------------------------------------------------------ what a percentile is

  /** `pct` percent of the way along `order`, in hundredths of a step. */
  function Reach(order: seq<real>, pct: real): real { pct * (|order| as real - 1.0) }

  function Hundreds(k: int): real { 100.0 * k as real }

  /** At a knot the value is the element there, and between two knots it lies on the line through them. */
  ghost predicate OnSegment(order: seq<real>, pct: real, value: real, k: nat)
    requires k < |order|
  {
    && (Reach(order, pct) == Hundreds(k) ==> value == order[k])
    && (k + 1 < |order| && Hundreds(k) <= Reach(order, pct) <= Hundreds(k + 1) ==>
        100.0 * (value - order[k]) == (Reach(order, pct) - Hundreds(k)) * (order[k + 1] - order[k]))
  }

  /** Said of the sorted values, whichever way they were sorted. */
  ghost predicate IsPercentile(values: seq<real>, pct: real, value: real) {
    forall order: seq<real>, k: nat {:trigger OnSegment(order, pct, value, k)} ::
      Sorted(order, RealLe) && multiset(order) == multiset(values) && k < |order| ==> OnSegment(order, pct, value, k)
  }

  lemma SegmentFloor(reach: real, k: int)
    requires Hundreds(k) <= reach < Hundreds(k + 1)
    ensures (reach / 100.0).Floor == k
  {
    assert reach / 100.0 >= k as real && reach / 100.0 < k as real + 1.0;
  }

  lemma StepAlong(a: real, b: real, reach: real, k: int, value: real)
    requires value == a + (reach / 100.0 - k as real) * (b - a)
    ensures 100.0 * (value - a) == (reach - Hundreds(k)) * (b - a)
  {
    var t := reach / 100.0 - k as real;
    assert 100.0 * t == reach - Hundreds(k);
    assert 100.0 * (t * (b - a)) == (100.0 * t) * (b - a);
  }

  lemma InterpolateOnSegment(s: seq<real>, pct: real, k: nat)
    requires s != [] && 0.0 <= pct <= 100.0 && k < |s|
    ensures OnSegment(s, pct, Interpolate(s, Position(|s|, pct)), k)
  {
    var pos, value, reach := Position(|s|, pct), Interpolate(s, Position(|s|, pct)), Reach(s, pct);
    assert pos == reach / 100.0;
    if reach == Hundreds(k) { SegmentFloor(reach, k); }
    if k + 1 < |s| && Hundreds(k) <= reach <= Hundreds(k + 1) {
      if reach < Hundreds(k + 1) {
        SegmentFloor(reach, k);
        StepAlong(s[k], s[k + 1], reach, k, value);
      } else {
        SegmentFloor(reach, k + 1);
      }
    }
  }

  /** A percentile takes each sorted value at its place and moves in a straight line between neighbours. */
  lemma PercentileMeaning(values: seq<real>, pct: real)
    requires values != [] && 0.0 <= pct <= 100.0
    ensures IsPercentile(values, pct, Percentile(values, pct))
  {
    var s := SortBy(values, RealLe);
    SortPermutes(values, RealLe);
    SortSorts(values, RealLe);
    forall order: seq<real>, k: nat | Sorted(order, RealLe) && multiset(order) == multiset(values) && k < |order|
      ensures OnSegment(order, pct, Percentile(values, pct), k)
    {
      SortedUnique(order, s, RealLe);
      InterpolateOnSegment(s, pct, k);
    }
  }

  /** The ends are the least and the greatest value. */
  lemma PercentileEnds(values: seq<real>)
    requires values != []
    ensures Percentile(values, 0.0) in values && forall v :: v in values ==> Percentile(values, 0.0) <= v
    ensures Percentile(values, 100.0) in values && forall v :: v in values ==> v <= Percentile(values, 100.0)
  {
    var s := SortBy(values, RealLe);
    SortPermutes(values, RealLe);
    SortSorts(values, RealLe);
    SortMembers(values, RealLe);
    InterpolateOnSegment(s, 0.0, 0);
    InterpolateOnSegment(s, 100.0, |s| - 1);
    forall v | v in values ensures s[0] <= v <= s[|s| - 1] {
      var i :| 0 <= i < |s| && s[i] == v;
      assert i > 0 ==> RealLe(s[0], s[i]);
      assert i < |s| - 1 ==> RealLe(s[i], s[|s| - 1]);
    }
  }

  ghost predicate KeepsOrder(f: real -> real) {
    forall x, y :: f(x) <= f(y) <==> x <= y
  }

  /** Sorting commutes with an order-preserving function. */
  lemma {:induction false} SortMapped(s: seq<real>, f: real -> real)
    requires KeepsOrder(f)
    ensures SortBy(MapSeq(s, f), RealLe) == MapSeq(SortBy(s, RealLe), f)
  {
    if s != [] {
      assert MapSeq(s, f)[1..] == MapSeq(s[1..], f);
      SortMapped(s[1..], f);
      InsertMapped(s[0], SortBy(s[1..], RealLe), f);
    }
  }

  lemma {:induction false} InsertMapped(x: real, s: seq<real>, f: real -> real)
    requires KeepsOrder(f)
    ensures Insert(f(x), MapSeq(s, f), RealLe) == MapSeq(Insert(x, s, RealLe), f)
  {
    if s == [] {
      assert MapSeq([x], f) == [f(x)];
    } else {
      assert MapSeq(s, f)[1..] == MapSeq(s[1..], f);
      if x <= s[0] {
        assert MapSeq([x] + s, f) == [f(x)] + MapSeq(s, f);
      } else {
        InsertMapped(x, s[1..], f);
        assert MapSeq([s[0]] + Insert(x, s[1..], RealLe), f) == [f(s[0])] + MapSeq(Insert(x, s[1..], RealLe), f);
      }
    }
  }

  lemma ScaleOrder(x: real, y: real, c: real)
    requires c > 0.0
    ensures c * x <= c * y <==> x <= y
  {
    if x <= y { assert c * (y - x) >= 0.0; } else { assert c * (x - y) > 0.0; }
  }

  lemma TimesKeepsOrder(c: real)
    requires c > 0.0
    ensures KeepsOrder(Times(c))
  {
    forall x, y ensures Times(c)(x) <= Times(c)(y) <==> x <= y { ScaleOrder(x, y, c); }
  }

  lemma SortScaled(values: seq<real>, c: real)
    requires c > 0.0
    ensures SortBy(Scaled(values, c), RealLe) == Scaled(SortBy(values, RealLe), c)
  {
    TimesKeepsOrder(c);
    SortMapped(values, Times(c));
  }

  lemma PercentileScaled(values: seq<real>, pct: real, c: real)
    requires values != [] && 0.0 <= pct <= 100.0 && c > 0.0
    ensures Scaled(values, c) != []
    ensures Percentile(Scaled(values, c), pct) == Times(c)(Percentile(values, pct))
  {
    SortScaled(values, c);
    SortPermutes(values, RealLe);
    InterpolateScaled(SortBy(values, RealLe), SortBy(Scaled(values, c), RealLe), Position(|values|, pct), c);
  }

  lemma InterpolateScaled(s: seq<real>, scaled: seq<real>, pos: real, c: real)
    requires s != [] && 0.0 <= pos <= (|s| - 1) as real && scaled == Scaled(s, c)
    ensures |scaled| == |s| && Interpolate(scaled, pos) == Times(c)(Interpolate(s, pos))
  {
    var lo := pos.Floor;
    var hi := if lo + 1 < |s| then lo + 1 else lo;
    assert scaled[lo] == c * s[lo] && scaled[hi] == c * s[hi];
    InterpolationScaled(s[lo], s[hi], pos - lo as real, c);
  }

  lemma InterpolationScaled(a: real, b: real, t: real, c: real)
    ensures c * a + t * (c * b - c * a) == c * (a + t * (b - a))
  {
  }
}
