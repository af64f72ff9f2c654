/** Python's string order, `sorted` (a stable sort), and duplicate-free sequences. */
module Ordering {

  // ---------------------------------------------------------------- strings

  /** `a <= b` for Python strings: lexicographic by code point. */
  predicate StrLe(a: string, b: string) {
    a == [] || (b != [] && (a[0] < b[0] || (a[0] == b[0] && StrLe(a[1..], b[1..]))))
  }

  predicate StrLt(a: string, b: string) { StrLe(a, b) && a != b }

  lemma {:induction false} StrLeTotal(a: string, b: string)
    ensures StrLe(a, b) || StrLe(b, a)
  {
    if a != [] && b != [] && a[0] == b[0] { StrLeTotal(a[1..], b[1..]); }
  }

  lemma {:induction false} StrLeAntisymmetric(a: string, b: string)
    requires StrLe(a, b) && StrLe(b, a)
    ensures a == b
  {
    if a != [] && b != [] {
      StrLeAntisymmetric(a[1..], b[1..]);
      assert a == [a[0]] + a[1..] && b == [b[0]] + b[1..];
    }
  }

  lemma {:induction false} StrLeTransitive(a: string, b: string, c: string)
    requires StrLe(a, b) && StrLe(b, c)
    ensures StrLe(a, c)
  {
    if a != [] && a[0] == b[0] && b[0] == c[0] { StrLeTransitive(a[1..], b[1..], c[1..]); }
  }

  lemma StrLeIsTotalOrder()
    ensures TotalOrder(StrLe)
  {
    forall a: string, b: string ensures StrLe(a, b) || StrLe(b, a) { StrLeTotal(a, b); }
    forall a: string, b: string | StrLe(a, b) && StrLe(b, a) ensures a == b { StrLeAntisymmetric(a, b); }
    forall a: string, b: string, c: string | StrLe(a, b) && StrLe(b, c) ensures StrLe(a, c) {
      StrLeTransitive(a, b, c);
    }
  }

  /** Tuples of strings, compared field by field. */
  predicate LexLe(a: seq<string>, b: seq<string>) {
    a == [] || (b != [] && (StrLt(a[0], b[0]) || (a[0] == b[0] && LexLe(a[1..], b[1..]))))
  }

  lemma LexHead(x: string, rest: seq<string>, y: string, more: seq<string>)
    ensures LexLe([x] + rest, [y] + more) <==> StrLt(x, y) || (x == y && LexLe(rest, more))
  {
    assert ([x] + rest)[1..] == rest && ([y] + more)[1..] == more;
  }

  lemma LexOne(x: string, y: string)
    ensures LexLe([x], [y]) <==> StrLe(x, y)
  {
    StrLeTotal(x, y);
  }

  lemma LexPair(a: string, b: string, c: string, d: string)
    ensures LexLe([a, b], [c, d]) <==> StrLt(a, c) || (a == c && StrLe(b, d))
  {
    LexHead(a, [b], c, [d]);
    LexOne(b, d);
    assert [a, b] == [a] + [b] && [c, d] == [c] + [d];
  }

  lemma {:induction false} LexLeTotal(a: seq<string>, b: seq<string>)
    ensures LexLe(a, b) || LexLe(b, a)
  {
    if a != [] && b != [] {
      StrLeTotal(a[0], b[0]);
      if a[0] == b[0] { LexLeTotal(a[1..], b[1..]); }
    }
  }

  lemma {:induction false} LexLeAntisymmetric(a: seq<string>, b: seq<string>)
    requires LexLe(a, b) && LexLe(b, a)
    ensures a == b
  {
    if a != [] && b != [] {
      if a[0] != b[0] { StrLeAntisymmetric(a[0], b[0]); }
      LexLeAntisymmetric(a[1..], b[1..]);
      assert a == [a[0]] + a[1..] && b == [b[0]] + b[1..];
    }
  }

  lemma {:induction false} LexLeTransitive(a: seq<string>, b: seq<string>, c: seq<string>)
    requires LexLe(a, b) && LexLe(b, c)
    ensures LexLe(a, c)
  {
    if a != [] {
      if StrLt(a[0], b[0]) && StrLt(b[0], c[0]) {
        StrLeTransitive(a[0], b[0], c[0]);
        if a[0] == c[0] { StrLeAntisymmetric(a[0], b[0]); }
      } else if a[0] == b[0] && b[0] == c[0] {
        LexLeTransitive(a[1..], b[1..], c[1..]);
      }
    }
  }

  ghost predicate DecidedAt(a: seq<string>, b: seq<string>, i: int) {
    0 <= i < |a| && |a| == |b| && a[..i] == b[..i] && a[i] != b[i] && StrLe(a[i], b[i])
  }

  lemma DifferLater(a: seq<string>, b: seq<string>)
    requires |a| == |b| > 0 && a[0] == b[0]
    ensures (exists i :: DecidedAt(a, b, i)) <==> exists i :: DecidedAt(a[1..], b[1..], i)
  {
    forall i | DecidedAt(a, b, i) ensures DecidedAt(a[1..], b[1..], i - 1) {
      assert a[1..][..i - 1] == a[..i][1..] && b[1..][..i - 1] == b[..i][1..];
    }
    forall i | DecidedAt(a[1..], b[1..], i) ensures DecidedAt(a, b, i + 1) {
      assert a[..i + 1] == [a[0]] + a[1..][..i] && b[..i + 1] == [b[0]] + b[1..][..i];
    }
  }

  /** The first two fields that differ decide. */
  lemma {:induction false} LexLeMeaning(a: seq<string>, b: seq<string>)
    requires |a| == |b|
    ensures LexLe(a, b) <==> a == b || exists i :: DecidedAt(a, b, i)
  {
    if a != [] {
      LexLeMeaning(a[1..], b[1..]);
      if a[0] == b[0] {
        assert a == [a[0]] + a[1..] && b == [b[0]] + b[1..];
        DifferLater(a, b);
      } else {
        assert StrLe(a[0], b[0]) ==> DecidedAt(a, b, 0);
        forall i | 0 < i < |a| ensures a[..i] != b[..i] { assert a[..i][0] != b[..i][0]; }
      }
    }
  }

  // ----------------------------------------------------------------- orders

  ghost predicate TotalPreorder<T(!new)>(le: (T, T) -> bool) {
    && (forall x, y :: le(x, y) || le(y, x))
    && (forall x, y, z :: le(x, y) && le(y, z) ==> le(x, z))
  }

  ghost predicate TotalOrder<T(!new)>(le: (T, T) -> bool) {
    TotalPreorder(le) && forall x, y :: le(x, y) && le(y, x) ==> x == y
  }

  ghost predicate Sorted<T>(s: seq<T>, le: (T, T) -> bool) {
    forall i, j :: 0 <= i < j < |s| ==> le(s[i], s[j])
  }

  // ------------------------------------------------------------ stable sort

  function Insert<T>(x: T, s: seq<T>, le: (T, T) -> bool): seq<T> {
    if s == [] || le(x, s[0]) then [x] + s else [s[0]] + Insert(x, s[1..], le)
  }

  /** Python's `sorted(s, key=...)`, with the key comparison given as `le`. */
  function SortBy<T>(s: seq<T>, le: (T, T) -> bool): seq<T> {
    if s == [] then [] else Insert(s[0], SortBy(s[1..], le), le)
  }

  lemma {:induction false} InsertPermutes<T>(x: T, s: seq<T>, le: (T, T) -> bool)
    ensures multiset(Insert(x, s, le)) == multiset{x} + multiset(s)
  {
    if s != [] {
      assert s == [s[0]] + s[1..];
      if !le(x, s[0]) { InsertPermutes(x, s[1..], le); }
    }
  }

  lemma {:induction false} SortPermutes<T>(s: seq<T>, le: (T, T) -> bool)
    ensures multiset(SortBy(s, le)) == multiset(s)
    ensures |SortBy(s, le)| == |s|
  {
    if s != [] {
      assert s == [s[0]] + s[1..];
      SortPermutes(s[1..], le);
      InsertPermutes(s[0], SortBy(s[1..], le), le);
    }
    assert |multiset(SortBy(s, le))| == |multiset(s)|;
  }

  lemma {:induction false} InsertSorts<T(!new)>(x: T, s: seq<T>, le: (T, T) -> bool)
    requires TotalPreorder(le) && Sorted(s, le)
    ensures Sorted(Insert(x, s, le), le)
  {
    if s != [] && !le(x, s[0]) {
      InsertSorts(x, s[1..], le);
      InsertPermutes(x, s[1..], le);
      var r := Insert(x, s[1..], le);
      forall k | 0 <= k < |r| ensures le(s[0], r[k]) {
        assert r[k] in multiset(r);
        assert r[k] == x || r[k] in s[1..];
      }
    }
  }

  lemma {:induction false} SortSorts<T(!new)>(s: seq<T>, le: (T, T) -> bool)
    requires TotalPreorder(le)
    ensures Sorted(SortBy(s, le), le)
  {
    if s != [] {
      SortSorts(s[1..], le);
      InsertSorts(s[0], SortBy(s[1..], le), le);
    }
  }

  lemma SortMembers<T>(s: seq<T>, le: (T, T) -> bool)
    ensures forall x :: x in SortBy(s, le) <==> x in s
  {
    SortPermutes(s, le);
    forall x ensures x in SortBy(s, le) <==> x in s {
      assert x in SortBy(s, le) <==> x in multiset(SortBy(s, le));
    }
  }

  /** A sorted arrangement under a total order is unique: sorting forgets the input order. */
  lemma {:induction false} SortedUnique<T(!new)>(s: seq<T>, t: seq<T>, le: (T, T) -> bool)
    requires TotalOrder(le) && Sorted(s, le) && Sorted(t, le) && multiset(s) == multiset(t)
    ensures s == t
  {
    assert |s| == |multiset(s)| == |multiset(t)| == |t|;
    if s != [] {
      assert s == [s[0]] + s[1..] && t == [t[0]] + t[1..];
      assert s[0] in multiset(t) && t[0] in multiset(s);
      assert le(s[0], t[0]) && le(t[0], s[0]) by {
        assert le(s[0], s[0]) && le(t[0], t[0]);
      }
      assert multiset(s[1..]) == multiset(s) - multiset{s[0]};
      assert multiset(t[1..]) == multiset(t) - multiset{t[0]};
      SortedUnique(s[1..], t[1..], le);
    }
  }

  lemma {:induction false} SortOfSorted<T>(s: seq<T>, le: (T, T) -> bool)
    requires Sorted(s, le)
    ensures SortBy(s, le) == s
  {
    if s != [] { SortOfSorted(s[1..], le); }
  }

  // -------------------------------------------------------------- distinct

  ghost predicate Distinct<T>(s: seq<T>) {
    forall i, j :: 0 <= i < j < |s| ==> s[i] != s[j]
  }

  lemma {:induction false} DistinctMultiplicity<T>(s: seq<T>)
    ensures Distinct(s) <==> forall x :: multiset(s)[x] <= 1
  {
    if s != [] {
      var x, t := s[0], s[1..];
      assert s == [x] + t;
      DistinctMultiplicity(t);
      assert multiset(s) == multiset{x} + multiset(t);
      if Distinct(s) {
        assert Distinct(t);
        assert x !in t;
        assert x !in multiset(t);
      }
      if forall y :: multiset(s)[y] <= 1 {
        forall y ensures multiset(t)[y] <= 1 { assert multiset(s)[y] <= 1; }
        assert multiset(s)[x] <= 1;
        assert x !in multiset(t);
        assert x !in t;
        assert forall j :: 1 <= j < |s| ==> s[j] == t[j - 1];
      }
    }
  }

  lemma SortDistinct<T>(s: seq<T>, le: (T, T) -> bool)
    requires Distinct(s)
    ensures Distinct(SortBy(s, le))
  {
    SortPermutes(s, le);
    DistinctMultiplicity(s);
    DistinctMultiplicity(SortBy(s, le));
  }

  lemma DistinctSameSet<T>(s: seq<T>, t: seq<T>)
    requires Distinct(s) && Distinct(t) && (forall x :: x in s <==> x in t)
    ensures multiset(s) == multiset(t)
  {
    DistinctMultiplicity(s);
    DistinctMultiplicity(t);
    forall x ensures multiset(s)[x] == multiset(t)[x] {
      assert x in s <==> x in multiset(s);
      assert x in t <==> x in multiset(t);
    }
  }

  /** `r` is `sorted(s)` of a set. */
  ghost predicate IsSortedSet<T(!new)>(r: seq<T>, s: set<T>, le: (T, T) -> bool) {
    Sorted(r, le) && Distinct(r) && forall x :: x in r <==> x in s
  }

  lemma SortedSetUnique<T(!new)>(r1: seq<T>, r2: seq<T>, s: set<T>, le: (T, T) -> bool)
    requires TotalOrder(le) && IsSortedSet(r1, s, le) && IsSortedSet(r2, s, le)
    ensures r1 == r2
  {
    DistinctSameSet(r1, r2);
    SortedUnique(r1, r2, le);
  }

  /** `sorted(s)` of a set. */
  ghost function Listed<T(!new)>(s: set<T>, le: (T, T) -> bool): (r: seq<T>)
    requires TotalOrder(le)
    ensures IsSortedSet(r, s, le)
  {
    if s == {} then []
    else
      var x :| x in s;
      var rest := Listed(s - {x}, le);
      InsertSorts(x, rest, le);
      InsertDistinct(x, rest, le);
      Insert(x, rest, le)
  }

  lemma InsertDistinct<T>(x: T, s: seq<T>, le: (T, T) -> bool)
    requires Distinct(s) && x !in s
    ensures Distinct(Insert(x, s, le)) && forall y :: y in Insert(x, s, le) <==> y == x || y in s
  {
    InsertPermutes(x, s, le);
    DistinctMultiplicity(s);
    DistinctMultiplicity(Insert(x, s, le));
    assert x !in multiset(s);
    forall y ensures y in Insert(x, s, le) <==> y == x || y in s {
      assert y in Insert(x, s, le) <==> y in multiset(Insert(x, s, le));
    }
  }

  method SortedSet<T(==, !new)>(s: set<T>, le: (T, T) -> bool) returns (r: seq<T>)
    requires TotalOrder(le)
    ensures r == Listed(s, le) && IsSortedSet(r, s, le)
  {
    var listed: seq<T>, left := [], s;
    while left != {}
      invariant left <= s && Distinct(listed)
      invariant forall x :: x in listed <==> x in s && x !in left
      decreases |left|
    {
      var x :| x in left;
      left := left - {x};
      listed := listed + [x];
    }
    SortSorts(listed, le);
    SortMembers(listed, le);
    SortDistinct(listed, le);
    r := SortBy(listed, le);
    SortedSetUnique(r, Listed(s, le), s, le);
  }

  // ------------------------------------------------------------ finite sets

  lemma SubsetSize<T>(a: set<T>, b: set<T>)
    requires a <= b
    ensures |a| <= |b| && (|a| == |b| <==> a == b)
  {
    assert b == a + (b - a) && |b| == |a| + |b - a|;
    if a != b { var x :| x in b - a; }
  }
}
