/** Selecting, filtering, grouping and sorting commute with a row-wise change of the table. */
module Mapping {
  import opened Ordering
  import opened Sums
  import opened Grouping

  lemma {:induction false} SelectMapped<T(!new), U(!new), K>(s: seq<T>, f: T -> U, key: T -> K, key': U -> K, k: K)
    requires forall x :: key'(f(x)) == key(x)
    ensures Select(MapSeq(s, f), key', k) == MapSeq(Select(s, key, k), f)
  {
    if s != [] {
      SelectMapped(s[1..], f, key, key', k);
      assert MapSeq(s, f)[1..] == MapSeq(s[1..], f);
    }
  }

  lemma {:induction false} FilterMapped<T(!new), U(!new)>(s: seq<T>, f: T -> U, p: T -> bool, p': U -> bool)
    requires forall x :: p'(f(x)) == p(x)
    ensures Filter(MapSeq(s, f), p') == MapSeq(Filter(s, p), f)
  {
    if s != [] {
      FilterMapped(s[1..], f, p, p');
      assert MapSeq(s, f)[1..] == MapSeq(s[1..], f);
    }
  }

  lemma {:induction false} KeysMapped<T(!new), U(!new), K>(s: seq<T>, f: T -> U, key: T -> K, key': U -> K)
    requires forall x :: key'(f(x)) == key(x)
    ensures Keys(MapSeq(s, f), key') == Keys(s, key)
  {
    if s != [] {
      var n := |s| - 1;
      KeysMapped(s[..n], f, key, key');
      assert MapSeq(s, f)[..n] == MapSeq(s[..n], f);
    }
  }

  lemma {:induction false} MapMapped<T(!new), U, V>(s: seq<T>, f: T -> U, g: U -> V, h: T -> V)
    requires forall x :: g(f(x)) == h(x)
    ensures MapSeq(MapSeq(s, f), g) == MapSeq(s, h)
  {
    if s != [] {
      MapMapped(s[1..], f, g, h);
      assert MapSeq(s, f)[1..] == MapSeq(s[1..], f);
    }
  }

  lemma {:induction false} MapAgreesOn<T(!new), U>(s: seq<T>, f: T -> U, g: T -> U)
    requires forall x :: x in s ==> f(x) == g(x)
    ensures MapSeq(s, f) == MapSeq(s, g)
  {
    if s != [] {
      assert s[0] in s;
      MapAgreesOn(s[1..], f, g);
    }
  }

  lemma {:induction false} FilterSame<T(!new)>(s: seq<T>, p: T -> bool, q: T -> bool)
    requires forall x :: x in s ==> p(x) == q(x)
    ensures Filter(s, p) == Filter(s, q)
  {
    if s != [] {
      assert s[0] in s;
      FilterSame(s[1..], p, q);
    }
  }

  lemma {:induction false} InsertCommutes<T(!new), U(!new)>(x: T, s: seq<T>, f: T -> U, le: (T, T) -> bool,
                                                            le': (U, U) -> bool)
    requires forall y, z :: le'(f(y), f(z)) == le(y, z)
    ensures Insert(f(x), MapSeq(s, f), le') == MapSeq(Insert(x, s, le), f)
  {
    if s == [] {
      assert MapSeq([x], f) == [f(x)];
    } else {
      assert MapSeq(s, f)[1..] == MapSeq(s[1..], f);
      if le(x, s[0]) {
        assert MapSeq([x] + s, f) == [f(x)] + MapSeq(s, f);
      } else {
        InsertCommutes(x, s[1..], f, le, le');
        assert MapSeq([s[0]] + Insert(x, s[1..], le), f) == [f(s[0])] + MapSeq(Insert(x, s[1..], le), f);
      }
    }
  }

  lemma {:induction false} SortCommutes<T(!new), U(!new)>(s: seq<T>, f: T -> U, le: (T, T) -> bool, le': (U, U) -> bool)
    requires forall y, z :: le'(f(y), f(z)) == le(y, z)
    ensures SortBy(MapSeq(s, f), le') == MapSeq(SortBy(s, le), f)
  {
    if s != [] {
      assert MapSeq(s, f)[1..] == MapSeq(s[1..], f);
      SortCommutes(s[1..], f, le, le');
      InsertCommutes(s[0], SortBy(s[1..], le), f, le, le');
    }
  }

  /** One turn of `for x in s: if p(x): out.append(f(x))`. */
  lemma CollectStep<T(!new), U>(s: seq<T>, i: nat, p: T -> bool, f: T -> U)
    requires i < |s|
    ensures MapSeq(Filter(s[..i + 1], p), f) == MapSeq(Filter(s[..i], p), f) + (if p(s[i]) then [f(s[i])] else [])
  {
    assert s[..i + 1] == s[..i] + [s[i]];
    FilterAppend(s[..i], [s[i]], p);
    MapAppend(Filter(s[..i], p), Filter([s[i]], p), f);
  }
}
