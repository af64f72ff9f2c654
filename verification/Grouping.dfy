/** Python's insertion-ordered `dict` of lists, and grouping a table by a key. */
module Grouping {
  import opened Prelude
  import opened Ordering
  import opened Sums

  /** The rows of one group, in table order. */
  function Select<T, K(==)>(s: seq<T>, key: T -> K, k: K): seq<T> {
    if s == [] then []
    else if key(s[0]) == k then [s[0]] + Select(s[1..], key, k)
    else Select(s[1..], key, k)
  }

  /** The rows that satisfy `p`, in table order. */
  function Filter<T>(s: seq<T>, p: T -> bool): seq<T> {
    if s == [] then []
    else if p(s[0]) then [s[0]] + Filter(s[1..], p)
    else Filter(s[1..], p)
  }

  /** The group keys in order of first occurrence: the key order of a `dict` filled row by row. */
  function Keys<T, K(==)>(s: seq<T>, key: T -> K): seq<K> {
    if s == [] then []
    else
      var ks := Keys(s[..|s| - 1], key);
      if key(s[|s| - 1]) in ks then ks else ks + [key(s[|s| - 1])]
  }

  lemma ConsAppend<T>(x: T, s: seq<T>, t: seq<T>)
    ensures ([x] + s) + t == [x] + (s + t)
  {
  }

  lemma SelectCons<T, K>(x: T, s: seq<T>, key: T -> K, k: K)
    ensures Select([x] + s, key, k) == (if key(x) == k then [x] else []) + Select(s, key, k)
  {
    assert ([x] + s)[1..] == s;
  }

  lemma FilterCons<T>(x: T, s: seq<T>, p: T -> bool)
    ensures Filter([x] + s, p) == (if p(x) then [x] else []) + Filter(s, p)
  {
    assert ([x] + s)[1..] == s;
  }

  lemma {:induction false} SelectAppend<T(!new), K>(s: seq<T>, t: seq<T>, key: T -> K, k: K)
    ensures Select(s + t, key, k) == Select(s, key, k) + Select(t, key, k)
  {
    if s == [] {
      assert s + t == t;
    } else {
      assert (s + t)[0] == s[0] && (s + t)[1..] == s[1..] + t;
      SelectAppend(s[1..], t, key, k);
      ConsAppend(s[0], Select(s[1..], key, k), Select(t, key, k));
    }
  }

  lemma {:induction false} FilterAppend<T(!new)>(s: seq<T>, t: seq<T>, p: T -> bool)
    ensures Filter(s + t, p) == Filter(s, p) + Filter(t, p)
  {
    if s == [] {
      assert s + t == t;
    } else {
      assert (s + t)[0] == s[0] && (s + t)[1..] == s[1..] + t;
      FilterAppend(s[1..], t, p);
      ConsAppend(s[0], Filter(s[1..], p), Filter(t, p));
    }
  }

  lemma {:induction false} SelectMembers<T(!new), K>(s: seq<T>, key: T -> K, k: K)
    ensures forall x :: x in Select(s, key, k) <==> x in s && key(x) == k
  {
    if s != [] {
      SelectMembers(s[1..], key, k);
      assert s == [s[0]] + s[1..];
    }
  }

  lemma {:induction false} FilterMembers<T(!new)>(s: seq<T>, p: T -> bool)
    ensures forall x :: x in Filter(s, p) <==> x in s && p(x)
  {
    if s != [] {
      FilterMembers(s[1..], p);
      assert s == [s[0]] + s[1..];
    }
  }

  lemma {:induction false} KeysAreGroups<T(!new), K>(s: seq<T>, key: T -> K)
    ensures Distinct(Keys(s, key))
    ensures forall k :: k in Keys(s, key) <==> exists x :: x in s && key(x) == k
  {
    if s != [] {
      var t, last := s[..|s| - 1], s[|s| - 1];
      KeysAreGroups(t, key);
      assert s == t + [last];
      assert last in s;
      forall k ensures k in Keys(s, key) <==> exists x :: x in s && key(x) == k {
        if k in Keys(t, key) {
          var x :| x in t && key(x) == k;
          assert x in s;
        }
        if x :| x in s && key(x) == k {
          assert x in t || x == last;
        }
      }
    }
  }

  lemma KeysHaveRows<T(!new), K>(s: seq<T>, key: T -> K)
    ensures forall k :: k in Keys(s, key) <==> Select(s, key, k) != []
  {
    KeysAreGroups(s, key);
    forall k ensures k in Keys(s, key) <==> Select(s, key, k) != [] {
      SelectMembers(s, key, k);
      if Select(s, key, k) != [] {
        var x := Select(s, key, k)[0];
        assert x in Select(s, key, k);
        assert x in s && key(x) == k;
      }
      if x :| x in s && key(x) == k { assert x in Select(s, key, k); }
    }
  }

  lemma RowInGroup<T(!new), K>(rows: seq<T>, key: T -> K, row: T)
    requires row in rows
    ensures key(row) in Keys(rows, key) && row in Select(rows, key, key(row))
  {
    KeysAreGroups(rows, key);
    SelectMembers(rows, key, key(row));
  }

  /** `groups = defaultdict(list); for row in rows: groups[key(row)].append(row)`. */
  method GroupRows<T(!new), K(==)>(rows: seq<T>, key: T -> K) returns (order: seq<K>, groups: map<K, seq<T>>)
    ensures order == Keys(rows, key)
    ensures forall k :: k in groups <==> k in order
    ensures forall k :: k in order ==> groups[k] == Select(rows, key, k)
  {
    order, groups := [], map[];
    for i := 0 to |rows|
      invariant order == Keys(rows[..i], key)
      invariant forall k :: k in groups <==> k in order
      invariant forall k :: k in order ==> groups[k] == Select(rows[..i], key, k)
    {
      var row := rows[i];
      assert rows[..i + 1] == rows[..i] + [row];
      assert rows[..i + 1][..i] == rows[..i];
      KeysHaveRows(rows[..i], key);
      forall k ensures Select(rows[..i + 1], key, k) ==
                       Select(rows[..i], key, k) + (if key(row) == k then [row] else [])
      {
        SelectAppend(rows[..i], [row], key, k);
      }
      if key(row) in groups {
        groups := groups[key(row) := groups[key(row)] + [row]];
      } else {
        assert Select(rows[..i], key, key(row)) == [];
        order := order + [key(row)];
        groups := groups[key(row) := [row]];
      }
    }
    assert rows[..|rows|] == rows;
  }

  // ------------------------------------------------- summing over the groups

  /** The sum of `g` over the rows of group `k`. */
  function GroupTotal<T, K(==)>(s: seq<T>, key: T -> K, g: T -> real): K -> real {
    k => Total(Select(s, key, k), g)
  }

  /** Summing group by group gives the sum over the table, when every row's group is listed once. */
  lemma {:induction false} TotalByGroup<T(!new), K>(s: seq<T>, key: T -> K, ks: seq<K>, g: T -> real)
    requires Distinct(ks) && forall x :: x in s ==> key(x) in ks
    ensures Total(ks, GroupTotal(s, key, g)) == Total(s, g)
  {
    if s == [] {
      TotalZero(ks, GroupTotal(s, key, g));
    } else {
      TotalByGroup(s[1..], key, ks, g);
      assert s[0] in s;
      var k :| 0 <= k < |ks| && ks[k] == key(s[0]);
      var f, f' := GroupTotal(s, key, g), GroupTotal(s[1..], key, g);
      var rest := ks[..k] + ks[k + 1..];
      TotalExtract(ks, k, f);
      TotalExtract(ks, k, f');
      forall i | 0 <= i < |rest| ensures f(rest[i]) == f'(rest[i]) {
        assert rest[i] == if i < k then ks[i] else ks[i + 1];
        assert rest[i] != ks[k];
        assert Select(s, key, rest[i]) == Select(s[1..], key, rest[i]);
      }
      TotalAgrees(rest, f, f');
      TotalAppend([s[0]], Select(s[1..], key, ks[k]), g);
    }
  }

  predicate Has<K(==)>(ks: seq<K>, k: K) { k in ks }

  function InGroups<T, K(==)>(key: T -> K, ks: seq<K>): T -> bool {
    x => Has(ks, key(x))
  }

  lemma InGroupsMeaning<T, K>(key: T -> K, ks: seq<K>, x: T)
    ensures InGroups(key, ks)(x) <==> key(x) in ks
  {
  }

  lemma {:induction false} SelectOfListed<T(!new), K>(s: seq<T>, key: T -> K, ks: seq<K>, k: K)
    requires k in ks
    ensures Select(Filter(s, InGroups(key, ks)), key, k) == Select(s, key, k)
  {
    if s != [] { SelectOfListed(s[1..], key, ks, k); }
  }

  /** Summing over listed groups is summing over the rows that belong to one of them. */
  lemma TotalOfListedGroups<T(!new), K>(s: seq<T>, key: T -> K, ks: seq<K>, g: T -> real)
    requires Distinct(ks)
    ensures Total(ks, GroupTotal(s, key, g)) == Total(Filter(s, InGroups(key, ks)), g)
  {
    var listed := Filter(s, InGroups(key, ks));
    FilterMembers(s, InGroups(key, ks));
    forall i | 0 <= i < |ks| ensures GroupTotal(s, key, g)(ks[i]) == GroupTotal(listed, key, g)(ks[i]) {
      SelectOfListed(s, key, ks, ks[i]);
    }
    TotalAgrees(ks, GroupTotal(s, key, g), GroupTotal(listed, key, g));
    TotalByGroup(listed, key, ks, g);
  }

  // --------------------------------------------------------------- indexing

  function Last<T>(rows: seq<T>): Option<T> { if rows == [] then None else Some(rows[|rows| - 1]) }

  /** `index.get(k)`. */
  function Find<K, T>(index: map<K, T>, k: K): Option<T> { if k in index then Some(index[k]) else None }

  /** `{key(row): row for row in rows}`: the last row of a key wins. */
  method IndexRows<T(!new), K(==, !new)>(rows: seq<T>, key: T -> K) returns (index: map<K, T>)
    ensures forall k {:trigger Find(index, k)} :: Find(index, k) == Last(Select(rows, key, k))
  {
    index := map[];
    for i := 0 to |rows|
      invariant forall k {:trigger Find(index, k)} :: Find(index, k) == Last(Select(rows[..i], key, k))
    {
      assert rows[..i + 1] == rows[..i] + [rows[i]];
      ghost var before := index;
      index := index[key(rows[i]) := rows[i]];
      forall k ensures Find(index, k) == Last(Select(rows[..i + 1], key, k)) {
        SelectAppend(rows[..i], [rows[i]], key, k);
        assert Find(before, k) == Last(Select(rows[..i], key, k));
      }
    }
    assert rows[..|rows|] == rows;
  }

  /** `groups.get(k, [])`. */
  function GroupAt<K, T>(groups: map<K, seq<T>>, k: K): seq<T> { if k in groups then groups[k] else [] }

  /** Grouping, read through `GroupAt`. */
  method GroupsOf<T(!new), K(==, !new)>(rows: seq<T>, key: T -> K) returns (groups: map<K, seq<T>>)
    ensures forall k {:trigger GroupAt(groups, k)} :: GroupAt(groups, k) == Select(rows, key, k)
  {
    var order;
    order, groups := GroupRows(rows, key);
    KeysHaveRows(rows, key);
  }

  lemma {:induction false} NoneSelected<T(!new), K>(rows: seq<T>, key: T -> K, k: K)
    requires forall i :: 0 <= i < |rows| ==> key(rows[i]) != k
    ensures Select(rows, key, k) == []
  {
    if rows != [] {
      assert key(rows[0]) != k;
      NoneSelected(rows[1..], key, k);
    }
  }

  lemma {:induction false} SelectOfDistinct<T(!new), K>(rows: seq<T>, key: T -> K, row: T)
    requires row in rows && forall i, j :: 0 <= i < j < |rows| ==> key(rows[i]) != key(rows[j])
    ensures Select(rows, key, key(row)) == [row]
  {
    if key(rows[0]) == key(row) {
      var i :| 0 <= i < |rows| && rows[i] == row;
      assert rows[0] == row;
      forall j | 0 <= j < |rows| - 1 ensures key(rows[1..][j]) != key(row) { assert key(rows[0]) != key(rows[j + 1]); }
      NoneSelected(rows[1..], key, key(row));
    } else {
      assert rows == [rows[0]] + rows[1..];
      SelectOfDistinct(rows[1..], key, row);
    }
  }
}
