/**
  Threshold clustering of operators: `_cluster_ops` of `ssat/analysis/strategy_profile.py`,
  over any operator type `T` with a total order `le` (Python's string order in the program).
 */
module Clustering {
  import opened Prelude
  import opened Ordering
  import opened DisjointSets

  /** `None` marks a pair whose correlation is undefined. */
  type Lookup<!T(==)> = map<(T, T), Option<real>>

  function LookupWeight<T(==)>(a: T, b: T, lookup: Lookup<T>): Option<real> {
    if (a, b) in lookup then lookup[(a, b)]
    else if (b, a) in lookup then lookup[(b, a)]
    else None
  }

  /** The operators, their pairwise correlations, and the edge threshold. */
  datatype Graph<!T(==)> = Graph(ops: seq<T>, lookup: Lookup<T>, threshold: real)

  predicate EdgeAt<T(==)>(g: Graph<T>, i: nat, j: nat)
    requires i < j < |g.ops|
  {
    var weight := LookupWeight(g.ops[i], g.ops[j], g.lookup);
    weight.Some? && weight.value >= g.threshold
  }

  ghost predicate Linked<T>(g: Graph<T>, a: T, b: T) {
    exists i: nat, j: nat ::
      i < j < |g.ops| && EdgeAt(g, i, j) && ((a, b) == (g.ops[i], g.ops[j]) || (b, a) == (g.ops[i], g.ops[j]))
  }

  /** A walk over operators along edges of the threshold graph. */
  ghost predicate Chain<T>(g: Graph<T>, p: seq<T>) {
    && p != []
    && (forall i :: 0 <= i < |p| ==> p[i] in g.ops)
    && (forall i :: 0 <= i < |p| - 1 ==> Linked(g, p[i], p[i + 1]))
  }

  ghost predicate Connected<T(!new)>(g: Graph<T>, a: T, b: T) {
    exists p: seq<T> {:trigger Chain(g, p)} :: Chain(g, p) && p[0] == a && p[|p| - 1] == b
  }

  // ------------------------------------------- connectedness is an equivalence

  lemma ConnectedReflexive<T(!new)>(g: Graph<T>, a: T)
    requires a in g.ops
    ensures Connected(g, a, a)
  {
    assert Chain(g, [a]);
  }

  lemma LinkedConnects<T(!new)>(g: Graph<T>, a: T, b: T)
    requires Linked(g, a, b)
    ensures Connected(g, a, b)
  {
    assert Chain(g, [a, b]);
  }

  lemma ConnectedTransitive<T(!new)>(g: Graph<T>, a: T, b: T, c: T)
    requires Connected(g, a, b) && Connected(g, b, c)
    ensures Connected(g, a, c)
  {
    var p :| Chain(g, p) && p[0] == a && p[|p| - 1] == b;
    var q :| Chain(g, q) && q[0] == b && q[|q| - 1] == c;
    var r := p + q[1..];
    forall i | 0 <= i < |r| - 1 ensures Linked(g, r[i], r[i + 1]) {
      if i < |p| - 1 {
        assert Linked(g, p[i], p[i + 1]);
      } else {
        assert Linked(g, q[i - |p| + 1], q[i - |p| + 2]);
      }
    }
    assert Chain(g, r);
    assert r[|r| - 1] == c;
  }

  lemma {:induction false} ChainReversed<T(!new)>(g: Graph<T>, p: seq<T>)
    requires Chain(g, p)
    ensures Connected(g, p[|p| - 1], p[0])
    decreases |p|
  {
    if |p| == 1 {
      ConnectedReflexive(g, p[0]);
    } else {
      assert Linked(g, p[0], p[1]);
      assert Linked(g, p[1], p[0]);
      LinkedConnects(g, p[1], p[0]);
      var rest := p[1..];
      forall i | 0 <= i < |rest| - 1 ensures Linked(g, rest[i], rest[i + 1]) {
        assert Linked(g, p[i + 1], p[i + 2]);
      }
      ChainReversed(g, rest);
      ConnectedTransitive(g, p[|p| - 1], p[1], p[0]);
    }
  }

  lemma ConnectedSymmetric<T(!new)>(g: Graph<T>, a: T, b: T)
    requires Connected(g, a, b)
    ensures Connected(g, b, a)
  {
    var p :| Chain(g, p) && p[0] == a && p[|p| - 1] == b;
    ChainReversed(g, p);
  }

  // ----------------------------------------------------- linking the operators

  ghost predicate SameRoot<T>(root: map<T, T>, a: T, b: T) {
    a in root && b in root && root[a] == root[b]
  }

  /** Trees only ever join connected operators. */
  ghost predicate TreesConnected<T(!new)>(g: Graph<T>, root: map<T, T>) {
    && (forall x :: x in root <==> x in g.ops)
    && (forall x, y :: SameRoot(root, x, y) ==> Connected(g, x, y))
  }

  /** The edges before pair `(i, j)` are inside trees. */
  ghost predicate Covered<T>(g: Graph<T>, root: map<T, T>, i: nat, j: nat) {
    forall k: nat, l: nat :: k < l < |g.ops| && (k < i || (k == i && l < j)) && EdgeAt(g, k, l) ==>
      SameRoot(root, g.ops[k], g.ops[l])
  }

  lemma MergeStaysSound<T(!new)>(g: Graph<T>, root: map<T, T>, a: T, b: T)
    requires TreesConnected(g, root) && a in root && b in root && Connected(g, a, b)
    ensures TreesConnected(g, Merged(root, a, b))
  {
    var merged := Merged(root, a, b);
    forall x, y | SameRoot(merged, x, y) ensures Connected(g, x, y) {
      if SameRoot(root, x, y) {
      } else if SameRoot(root, x, a) {
        assert SameRoot(root, b, y);
        ConnectedTransitive(g, x, a, b);
        ConnectedTransitive(g, x, b, y);
      } else {
        assert SameRoot(root, x, b) && SameRoot(root, a, y);
        ConnectedSymmetric(g, a, b);
        ConnectedTransitive(g, x, b, a);
        ConnectedTransitive(g, x, a, y);
      }
    }
  }

  lemma MergeStaysCovered<T(!new)>(g: Graph<T>, root: map<T, T>, i: nat, j: nat)
    requires i < j < |g.ops| && g.ops[i] in root && g.ops[j] in root
    requires Covered(g, root, i, j)
    ensures Covered(g, Merged(root, g.ops[i], g.ops[j]), i, j + 1)
  {
    var merged := Merged(root, g.ops[i], g.ops[j]);
    forall k: nat, l: nat | k < l < |g.ops| && (k < i || (k == i && l < j + 1)) && EdgeAt(g, k, l)
      ensures SameRoot(merged, g.ops[k], g.ops[l])
    {
      if (k, l) != (i, j) { assert SameRoot(root, g.ops[k], g.ops[l]); }
    }
  }

  lemma {:induction false} CoveredChainSharesRoot<T(!new)>(g: Graph<T>, root: map<T, T>, p: seq<T>)
    requires Covered(g, root, |g.ops|, 0) && Chain(g, p) && p[0] in root
    ensures SameRoot(root, p[0], p[|p| - 1])
    decreases |p|
  {
    if |p| > 1 {
      assert Linked(g, p[0], p[1]);
      assert SameRoot(root, p[0], p[1]);
      var rest := p[1..];
      forall i | 0 <= i < |rest| - 1 ensures Linked(g, rest[i], rest[i + 1]) {
        assert Linked(g, p[i + 1], p[i + 2]);
      }
      CoveredChainSharesRoot(g, root, rest);
    }
  }

  lemma CoveredTreesAreComponents<T(!new)>(g: Graph<T>, root: map<T, T>)
    requires TreesConnected(g, root) && Covered(g, root, |g.ops|, 0)
    ensures forall x, y :: x in g.ops && y in g.ops ==> (SameRoot(root, x, y) <==> Connected(g, x, y))
  {
    forall x, y | x in g.ops && y in g.ops && Connected(g, x, y) ensures SameRoot(root, x, y) {
      var p :| Chain(g, p) && p[0] == x && p[|p| - 1] == y;
      CoveredChainSharesRoot(g, root, p);
    }
  }

  lemma MergeLinked<T(!new)>(g: Graph<T>, root: map<T, T>, i: nat, j: nat)
    requires i < j < |g.ops| && EdgeAt(g, i, j) && TreesConnected(g, root) && Covered(g, root, i, j)
    ensures g.ops[i] in root && g.ops[j] in root
    ensures TreesConnected(g, Merged(root, g.ops[i], g.ops[j]))
            && Covered(g, Merged(root, g.ops[i], g.ops[j]), i, j + 1)
  {
    assert g.ops[i] in root && g.ops[j] in root;
    assert Linked(g, g.ops[i], g.ops[j]);
    LinkedConnects(g, g.ops[i], g.ops[j]);
    MergeStaysSound(g, root, g.ops[i], g.ops[j]);
    MergeStaysCovered(g, root, i, j);
  }

  /** The pairs of one operator with every later one. */
  method LinkRow<T(==, !new)>(g: Graph<T>, sets: Forest<T>, i: nat)
    requires sets.Valid() && i < |g.ops| && TreesConnected(g, sets.root) && Covered(g, sets.root, i, i + 1)
    modifies sets
    ensures sets.Valid() && TreesConnected(g, sets.root) && Covered(g, sets.root, i, |g.ops|)
  {
    for j := i + 1 to |g.ops|
      invariant sets.Valid() && TreesConnected(g, sets.root) && Covered(g, sets.root, i, j)
    {
      if EdgeAt(g, i, j) {
        MergeLinked(g, sets.root, i, j);
        sets.Union(g.ops[i], g.ops[j]);
      }
    }
  }

  /** The nested pair loop: afterwards trees are exactly the connected components. */
  method LinkOps<T(==, !new)>(g: Graph<T>, sets: Forest<T>)
    requires sets.Valid() && sets.root == map op | op in g.ops :: op
    modifies sets
    ensures sets.Valid() && (forall x :: x in sets.root <==> x in g.ops)
    ensures forall x, y :: x in g.ops && y in g.ops ==> (SameRoot(sets.root, x, y) <==> Connected(g, x, y))
  {
    forall x, y | SameRoot(sets.root, x, y) ensures Connected(g, x, y) { ConnectedReflexive(g, x); }
    for i := 0 to |g.ops|
      invariant sets.Valid() && TreesConnected(g, sets.root) && Covered(g, sets.root, i, 0)
    {
      assert Covered(g, sets.root, i, i + 1);
      LinkRow(g, sets, i);
      assert Covered(g, sets.root, i + 1, 0);
    }
    CoveredTreesAreComponents(g, sets.root);
  }

  // ------------------------------------------------------ numbering the clusters

  /** A non-empty member list, in the order of `ops`. */
  datatype Cluster<T> = Cluster(first: T, rest: seq<T>) {
    function Members(): seq<T> { [first] + rest }
  }

  ghost predicate InCluster<T>(c: Cluster<T>, x: T) { x in c.Members() }

  ghost predicate Homed<T(!new)>(clusters: seq<Cluster<T>>, x: T) {
    exists c :: c in clusters && InCluster(c, x)
  }

  /** Python's `min` of `x` and the operators in `rest`. */
  function LeastOf<T>(x: T, rest: seq<T>, le: (T, T) -> bool): T {
    if rest == [] then x else LeastOf(if le(x, rest[0]) then x else rest[0], rest[1..], le)
  }

  lemma {:induction false} LeastOfIsLeast<T(!new)>(x: T, rest: seq<T>, le: (T, T) -> bool)
    requires TotalPreorder(le)
    ensures LeastOf(x, rest, le) in [x] + rest
    ensures forall y :: y in [x] + rest ==> le(LeastOf(x, rest, le), y)
  {
    assert le(x, x);
    if rest != [] {
      var x' := if le(x, rest[0]) then x else rest[0];
      LeastOfIsLeast(x', rest[1..], le);
      var least := LeastOf(x, rest, le);
      assert rest == [rest[0]] + rest[1..];
      assert x' in [x'] + rest[1..];
      assert le(least, x') && le(x', x) && le(x', rest[0]);
    }
  }

  /** `key=min` when clusters are sorted. */
  function ByLeast<T>(le: (T, T) -> bool): (Cluster<T>, Cluster<T>) -> bool {
    (c: Cluster<T>, d: Cluster<T>) => le(LeastOf(c.first, c.rest, le), LeastOf(d.first, d.rest, le))
  }

  lemma ByLeastIsPreorder<T(!new)>(le: (T, T) -> bool)
    requires TotalPreorder(le)
    ensures TotalPreorder(ByLeast(le))
  {
    var before := ByLeast(le);
    forall c, d ensures before(c, d) || before(d, c) {
      assert before(c, d) == le(LeastOf(c.first, c.rest, le), LeastOf(d.first, d.rest, le));
    }
    forall c, d, e | before(c, d) && before(d, e) ensures before(c, e) {
      var lc, ld, lm := LeastOf(c.first, c.rest, le), LeastOf(d.first, d.rest, le), LeastOf(e.first, e.rest, le);
      assert le(lc, ld) && le(ld, lm);
      assert before(c, e) == le(lc, lm);
    }
  }

  /** The clusters are exactly the trees of the forest. */
  ghost predicate Partitions<T(!new)>(clusters: seq<Cluster<T>>, root: map<T, T>) {
    && Distinct(clusters)
    && (forall c, x {:trigger c in clusters, InCluster(c, x)} :: c in clusters && InCluster(c, x) ==> x in root)
    && (forall c, d, x, y {:trigger InCluster(c, x), InCluster(d, y)} ::
        c in clusters && d in clusters && InCluster(c, x) && InCluster(d, y) ==> (root[x] == root[y] <==> c == d))
    && (forall x :: x in root ==> Homed(clusters, x))
  }

  ghost predicate Collected<T(!new)>(seen: seq<T>, root: map<T, T>, order: seq<T>, members: map<T, Cluster<T>>) {
    && Distinct(order)
    && (forall r :: r in order <==> r in members)
    && (forall r, x {:trigger r in members, InCluster(members[r], x)} ::
        r in members && InCluster(members[r], x) ==> x in root && root[x] == r)
    && (forall x {:trigger x in seen} ::
        x in seen ==> x in root && root[x] in members && InCluster(members[root[x]], x))
  }

  lemma CollectedPartitions<T(!new)>(root: map<T, T>, ops: seq<T>, order: seq<T>, members: map<T, Cluster<T>>,
                                     clusters: seq<Cluster<T>>)
    requires Collected(ops, root, order, members) && forall x :: x in root <==> x in ops
    requires |clusters| == |order| && forall k :: 0 <= k < |order| ==>
             order[k] in members && clusters[k] == members[order[k]]
    ensures Partitions(clusters, root)
  {
    forall c | c in clusters ensures exists r :: r in members && members[r] == c {
      var k :| 0 <= k < |clusters| && clusters[k] == c;
      assert order[k] in members;
    }
    forall i, j | 0 <= i < j < |clusters| ensures clusters[i] != clusters[j] {
      assert order[i] in members && order[j] in members;
      assert InCluster(members[order[i]], clusters[i].first) && InCluster(members[order[j]], clusters[j].first);
    }
    forall x | x in root ensures Homed(clusters, x) {
      var k :| 0 <= k < |order| && order[k] == root[x];
      assert clusters[k] in clusters;
    }
  }

  /** Appending one operator to the list of its root. */
  function AddMember<T(==)>(members: map<T, Cluster<T>>, r: T, op: T): map<T, Cluster<T>> {
    members[r := if r in members then members[r].(rest := members[r].rest + [op]) else Cluster(op, [])]
  }

  lemma CollectedStep<T(!new)>(seen: seq<T>, root: map<T, T>, order: seq<T>, members: map<T, Cluster<T>>, op: T)
    requires Collected(seen, root, order, members) && op in root
    ensures var r := root[op];
            Collected(seen + [op], root, if r in members then order else order + [r], AddMember(members, r, op))
  {
    var r := root[op];
    var members' := AddMember(members, r, op);
    if r in members {
      assert members'[r].Members() == members[r].Members() + [op];
    } else {
      assert members'[r].Members() == [op];
    }
    assert InCluster(members'[r], op);
    forall q, x {:trigger InCluster(members'[q], x)} | q in members' && InCluster(members'[q], x)
      ensures x in root && root[x] == q
    {
      if q != r || x != op { assert InCluster(members[q], x); }
    }
    forall x | x in seen + [op] ensures x in root && root[x] in members' && InCluster(members'[root[x]], x) {
      assert x in seen || x == op;
    }
  }

  function AddRoot<T(==)>(order: seq<T>, members: map<T, Cluster<T>>, r: T): seq<T> {
    if r in members then order else order + [r]
  }

  lemma CollectNext<T(!new)>(ops: seq<T>, i: nat, root: map<T, T>, order: seq<T>, members: map<T, Cluster<T>>)
    requires i < |ops| && ops[i] in root && Collected(ops[..i], root, order, members)
    ensures Collected(ops[..i + 1], root, AddRoot(order, members, root[ops[i]]),
                      AddMember(members, root[ops[i]], ops[i]))
  {
    CollectedStep(ops[..i], root, order, members, ops[i]);
    assert ops[..i + 1] == ops[..i] + [ops[i]];
  }

  /** `members_by_root`: the operators grouped by `find(op)`. */
  method CollectMembers<T(==, !new)>(ops: seq<T>, sets: Forest<T>) returns (clusters: seq<Cluster<T>>)
    requires sets.Valid() && forall x :: x in sets.root <==> x in ops
    modifies sets`parent
    ensures sets.Valid() && Partitions(clusters, sets.root)
  {
    var order: seq<T>, members: map<T, Cluster<T>> := [], map[];
    for i := 0 to |ops|
      invariant sets.Valid() && Collected(ops[..i], sets.root, order, members)
    {
      var op := ops[i];
      assert op in sets.root;
      var r := sets.Find(op);
      CollectNext(ops, i, sets.root, order, members);
      order, members := AddRoot(order, members, r), AddMember(members, r, op);
    }
    assert ops[..|ops|] == ops;
    clusters := ClustersInOrder(order, members);
    CollectedPartitions(sets.root, ops, order, members, clusters);
  }

  method ClustersInOrder<T(==, !new)>(order: seq<T>, members: map<T, Cluster<T>>) returns (clusters: seq<Cluster<T>>)
    requires forall r :: r in order ==> r in members
    ensures |clusters| == |order| && forall l :: 0 <= l < |order| ==>
            order[l] in members && clusters[l] == members[order[l]]
  {
    clusters := [];
    for k := 0 to |order|
      invariant |clusters| == k
      invariant forall l :: 0 <= l < k ==> order[l] in members && clusters[l] == members[order[l]]
    {
      assert order[k] in order;
      clusters := clusters + [members[order[k]]];
    }
  }

  lemma PartitionsPermute<T(!new)>(clusters: seq<Cluster<T>>, sorted: seq<Cluster<T>>, root: map<T, T>)
    requires Partitions(clusters, root) && multiset(sorted) == multiset(clusters)
    ensures Partitions(sorted, root)
  {
    DistinctMultiplicity(clusters);
    DistinctMultiplicity(sorted);
    forall c ensures c in sorted <==> c in clusters {
      assert c in sorted <==> c in multiset(sorted);
    }
  }

  ghost predicate NumberedBy<T(!new)>(ids: map<T, nat>, sorted: seq<Cluster<T>>) {
    && (forall k, x {:trigger InCluster(sorted[k], x)} :: 0 <= k < |sorted| && InCluster(sorted[k], x) ==>
        x in ids && ids[x] == k)
    && (forall x {:trigger x in ids} :: x in ids ==> ids[x] < |sorted| && InCluster(sorted[ids[x]], x))
  }

  lemma MembersDisjoint<T(!new)>(clusters: seq<Cluster<T>>, root: map<T, T>, i: nat, j: nat, x: T)
    requires Partitions(clusters, root) && i < |clusters| && j < |clusters|
    requires InCluster(clusters[i], x) && InCluster(clusters[j], x)
    ensures i == j
  {
    assert clusters[i] in clusters && clusters[j] in clusters;
    assert clusters[i] == clusters[j];
  }

  lemma NumberedStep<T(!new)>(sorted: seq<Cluster<T>>, root: map<T, T>, k: nat, ids: map<T, nat>, ids': map<T, nat>)
    requires Partitions(sorted, root) && k < |sorted| && NumberedBy(ids, sorted[..k])
    requires forall x :: x in ids' <==> x in ids || InCluster(sorted[k], x)
    requires forall x :: x in ids' ==> ids'[x] == if InCluster(sorted[k], x) then k else ids[x]
    ensures NumberedBy(ids', sorted[..k + 1])
  {
    var done, numbered := sorted[..k], sorted[..k + 1];
    forall l, x {:trigger InCluster(numbered[l], x)} | 0 <= l < |numbered| && InCluster(numbered[l], x)
      ensures x in ids' && ids'[x] == l
    {
      if l < k {
        assert InCluster(done[l], x);
        assert InCluster(sorted[k], x) ==> l == k by {
          if InCluster(sorted[k], x) { MembersDisjoint(sorted, root, l, k, x); }
        }
      }
    }
    forall x | x in ids' ensures ids'[x] < |numbered| && InCluster(numbered[ids'[x]], x) {
      if !InCluster(sorted[k], x) { assert InCluster(done[ids[x]], x); }
    }
  }

  /** `{op: cluster_id for cluster_id, members in enumerate(sorted_clusters) for op in members}`. */
  method NumberClusters<T(==, !new)>(sorted: seq<Cluster<T>>, ghost root: map<T, T>) returns (ids: map<T, nat>)
    requires Partitions(sorted, root)
    ensures NumberedBy(ids, sorted)
  {
    ids := map[];
    for k := 0 to |sorted|
      invariant NumberedBy(ids, sorted[..k])
    {
      ghost var before := ids;
      ids := NumberMembers(ids, sorted[k].Members(), k);
      NumberedStep(sorted, root, k, before, ids);
    }
    assert sorted[..|sorted|] == sorted;
  }

  method NumberMembers<T(==, !new)>(ids: map<T, nat>, members: seq<T>, k: nat) returns (ids': map<T, nat>)
    ensures forall x :: x in ids' <==> x in ids || x in members
    ensures forall x :: x in ids' ==> ids'[x] == if x in members then k else ids[x]
  {
    ids' := ids;
    for m := 0 to |members|
      invariant forall x :: x in ids' <==> x in ids || x in members[..m]
      invariant forall x :: x in ids' ==> ids'[x] == if x in members[..m] then k else ids[x]
    {
      ids' := ids'[members[m] := k];
    }
    assert members[..|members|] == members;
  }

  // -------------------------------------------------------- what the result means

  /** The smallest operator of `a`'s component. */
  ghost predicate IsLeader<T(!new)>(g: Graph<T>, le: (T, T) -> bool, leader: T, a: T) {
    && leader in g.ops && Connected(g, leader, a)
    && forall x {:trigger Connected(g, x, a)} :: x in g.ops && Connected(g, x, a) ==> le(leader, x)
  }

  /** One id per connected component. */
  ghost predicate SameIdIffConnected<T(!new)>(g: Graph<T>, ids: map<T, nat>) {
    forall a, b {:trigger Connected(g, a, b)} :: a in ids && b in ids ==> (ids[a] == ids[b] <==> Connected(g, a, b))
  }

  ghost predicate HasLeader<T(!new)>(g: Graph<T>, le: (T, T) -> bool, a: T) {
    exists leader :: IsLeader(g, le, leader, a)
  }

  /** Ids follow the order of the components' smallest operators. */
  ghost predicate FollowsLeaders<T(!new)>(g: Graph<T>, le: (T, T) -> bool, ids: map<T, nat>) {
    && (forall a {:trigger HasLeader(g, le, a)} :: a in ids ==> HasLeader(g, le, a))
    && (forall a, b, la, lb {:trigger IsLeader(g, le, la, a), IsLeader(g, le, lb, b)} ::
        a in ids && b in ids && IsLeader(g, le, la, a) && IsLeader(g, le, lb, b) ==>
        (ids[a] < ids[b] <==> le(la, lb) && la != lb))
  }

  ghost predicate IdUsed<T(!new)>(ids: map<T, nat>, k: nat) {
    exists b :: b in ids && ids[b] == k
  }

  /** Ids run from 0 without a gap. */
  ghost predicate NoGaps<T(!new)>(ids: map<T, nat>) {
    forall a, k: nat {:trigger a in ids, IdUsed(ids, k)} :: a in ids && k < ids[a] ==> IdUsed(ids, k)
  }

  /** The documented numbering, free of any algorithm. */
  ghost predicate IsClustering<T(!new)>(g: Graph<T>, le: (T, T) -> bool, ids: map<T, nat>) {
    (forall x :: x in ids <==> x in g.ops) && SameIdIffConnected(g, ids) && FollowsLeaders(g, le, ids) && NoGaps(ids)
  }

  lemma ClusterLeader<T(!new)>(g: Graph<T>, le: (T, T) -> bool, root: map<T, T>, sorted: seq<Cluster<T>>, k: nat, a: T)
    requires TotalOrder(le) && Partitions(sorted, root) && k < |sorted| && InCluster(sorted[k], a)
    requires forall x :: x in root <==> x in g.ops
    requires forall x, y :: x in g.ops && y in g.ops ==> (SameRoot(root, x, y) <==> Connected(g, x, y))
    ensures var leader := LeastOf(sorted[k].first, sorted[k].rest, le);
            forall l :: IsLeader(g, le, l, a) <==> l == leader
  {
    var c := sorted[k];
    assert c in sorted;
    var leader := LeastOf(c.first, c.rest, le);
    LeastOfIsLeast(c.first, c.rest, le);
    assert InCluster(c, leader);
    assert SameRoot(root, leader, a);
    forall x | x in g.ops && Connected(g, x, a) ensures le(leader, x) {
      assert SameRoot(root, x, a);
      var d :| d in sorted && InCluster(d, x);
      assert d == c;
    }
    assert IsLeader(g, le, leader, a);
  }

  lemma NumberedFollowsComponents<T(!new)>(g: Graph<T>, root: map<T, T>, sorted: seq<Cluster<T>>, ids: map<T, nat>)
    requires Partitions(sorted, root) && NumberedBy(ids, sorted)
    requires forall x :: x in root <==> x in g.ops
    requires forall x, y :: x in g.ops && y in g.ops ==> (SameRoot(root, x, y) <==> Connected(g, x, y))
    ensures (forall x :: x in ids <==> x in g.ops) && SameIdIffConnected(g, ids) && NoGaps(ids)
  {
    forall x ensures x in ids <==> x in g.ops {
      if x in g.ops {
        var c :| c in sorted && InCluster(c, x);
        var k :| 0 <= k < |sorted| && sorted[k] == c;
      }
      if x in ids { assert sorted[ids[x]] in sorted; }
    }
    forall a, b | a in ids && b in ids ensures ids[a] == ids[b] <==> Connected(g, a, b) {
      assert sorted[ids[a]] in sorted && sorted[ids[b]] in sorted;
      if sorted[ids[a]] == sorted[ids[b]] { MembersDisjoint(sorted, root, ids[a], ids[b], a); }
      assert SameRoot(root, a, b) <==> Connected(g, a, b);
    }
    forall a, k: nat {:trigger a in ids, IdUsed(ids, k)} | a in ids && k < ids[a] ensures IdUsed(ids, k) {
      assert InCluster(sorted[k], sorted[k].first);
    }
  }

  lemma LeadersFollowIds<T(!new)>(g: Graph<T>, le: (T, T) -> bool, root: map<T, T>, sorted: seq<Cluster<T>>,
                                  ids: map<T, nat>, a: T, b: T, la: T, lb: T)
    requires TotalOrder(le) && Partitions(sorted, root) && Sorted(sorted, ByLeast(le)) && NumberedBy(ids, sorted)
    requires forall x :: x in root <==> x in g.ops
    requires forall x, y :: x in g.ops && y in g.ops ==> (SameRoot(root, x, y) <==> Connected(g, x, y))
    requires a in ids && b in ids && IsLeader(g, le, la, a) && IsLeader(g, le, lb, b)
    ensures ids[a] < ids[b] <==> le(la, lb) && la != lb
  {
    assert le(la, la);
    var ca, cb := sorted[ids[a]], sorted[ids[b]];
    ClusterLeader(g, le, root, sorted, ids[a], a);
    ClusterLeader(g, le, root, sorted, ids[b], b);
    LeastOfIsLeast(ca.first, ca.rest, le);
    LeastOfIsLeast(cb.first, cb.rest, le);
    assert ca in sorted && cb in sorted && InCluster(ca, la) && InCluster(cb, lb);
    assert ca != cb ==> la != lb;
    if ids[a] < ids[b] {
      assert ByLeast(le)(ca, cb);
    } else if ids[b] < ids[a] {
      assert ByLeast(le)(cb, ca);
    }
  }

  lemma NumberedIsClustering<T(!new)>(g: Graph<T>, le: (T, T) -> bool, root: map<T, T>, sorted: seq<Cluster<T>>,
                                      ids: map<T, nat>)
    requires TotalOrder(le) && Partitions(sorted, root) && Sorted(sorted, ByLeast(le)) && NumberedBy(ids, sorted)
    requires forall x :: x in root <==> x in g.ops
    requires forall x, y :: x in g.ops && y in g.ops ==> (SameRoot(root, x, y) <==> Connected(g, x, y))
    ensures IsClustering(g, le, ids)
  {
    NumberedFollowsComponents(g, root, sorted, ids);
    forall a {:trigger HasLeader(g, le, a)} | a in ids ensures HasLeader(g, le, a) {
      ClusterLeader(g, le, root, sorted, ids[a], a);
      assert IsLeader(g, le, LeastOf(sorted[ids[a]].first, sorted[ids[a]].rest, le), a);
    }
    forall a, b, la, lb | a in ids && b in ids && IsLeader(g, le, la, a) && IsLeader(g, le, lb, b)
      ensures ids[a] < ids[b] <==> le(la, lb) && la != lb
    {
      LeadersFollowIds(g, le, root, sorted, ids, a, b, la, lb);
    }
  }

  /** `_cluster_ops`. */
  method ClusterOps<T(==, !new)>(ops: seq<T>, lookup: Lookup<T>, threshold: real, le: (T, T) -> bool)
    returns (ids: map<T, Option<nat>>)
    requires TotalOrder(le)
    ensures |ops| < 2 ==> ids == map op | op in ops :: None
    ensures |ops| >= 2 ==>
              exists ids': map<T, nat> ::
                IsClustering(Graph(ops, lookup, threshold), le, ids') && ids == map op | op in ids' :: Some(ids'[op])
  {
    if |ops| < 2 {
      return map op | op in ops :: None;
    }
    var sets := new Forest<T>(ops);
    ghost var g := Graph(ops, lookup, threshold);
    LinkOps(Graph(ops, lookup, threshold), sets);
    var clusters := CollectMembers(ops, sets);
    var sorted := SortBy(clusters, ByLeast(le));
    ByLeastIsPreorder(le);
    SortPermutes(clusters, ByLeast(le));
    SortSorts(clusters, ByLeast(le));
    PartitionsPermute(clusters, sorted, sets.root);
    var ids' := NumberClusters(sorted, sets.root);
    NumberedIsClustering(g, le, sets.root, sorted, ids');
    ids := map op | op in ids' :: Some(ids'[op]);
  }

  /** The documented numbering determines the result: no other ids satisfy it. */
  lemma ClusteringUnique<T(!new)>(g: Graph<T>, le: (T, T) -> bool, ids1: map<T, nat>, ids2: map<T, nat>)
    requires IsClustering(g, le, ids1) && IsClustering(g, le, ids2)
    ensures ids1 == ids2
  {
    forall x ensures x in ids1 <==> x in ids2 { assert x in ids1 <==> x in g.ops; }
    assert ids1.Keys == ids2.Keys;
    forall a | a in ids1 ensures ids1[a] == ids2[a] { NoSmallerRival(g, le, ids1, ids2, a); }
  }

  /** If `ids2[a]` exceeded `ids1[a]`, the holder of `ids1[a]` in `ids2` would be a smaller disagreement. */
  lemma {:induction false} NoSmallerRival<T(!new)>(g: Graph<T>, le: (T, T) -> bool, ids1: map<T, nat>,
                                                   ids2: map<T, nat>, a: T)
    requires FollowsLeaders(g, le, ids1) && FollowsLeaders(g, le, ids2) && NoGaps(ids1) && NoGaps(ids2)
    requires ids1.Keys == ids2.Keys && a in ids1
    ensures ids1[a] == ids2[a]
    decreases if ids1[a] < ids2[a] then ids1[a] else ids2[a], if ids1[a] < ids2[a] then 0 else 1
  {
    if ids1[a] < ids2[a] {
      assert IdUsed(ids2, ids1[a]);
      var b :| b in ids2 && ids2[b] == ids1[a];
      assert HasLeader(g, le, a) && HasLeader(g, le, b);
      var la :| IsLeader(g, le, la, a);
      var lb :| IsLeader(g, le, lb, b);
      assert ids1[b] < ids1[a];
      NoSmallerRival(g, le, ids1, ids2, b);
    } else if ids2[a] < ids1[a] {
      NoSmallerRival(g, le, ids2, ids1, a);
    }
  }
}
