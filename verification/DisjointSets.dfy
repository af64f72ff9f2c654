/** The union-find over operator names inside `_cluster_ops` (`ssat/analysis/strategy_profile.py`). */
module DisjointSets {

  /** What holds of one node: its parent chain ends in `root[x]`, and `level` falls along it. */
  ghost predicate NodeOk<T>(parent: map<T, T>, root: map<T, T>, level: map<T, nat>, x: T)
    requires x in parent && parent.Keys == root.Keys == level.Keys
  {
    && parent[x] in parent && root[x] in parent
    && parent[root[x]] == root[x]
    && (parent[x] == x ==> root[x] == x)
    && (parent[x] != x ==> root[x] == root[parent[x]] && level[parent[x]] < level[x])
  }

  ghost predicate IsForest<T>(parent: map<T, T>, root: map<T, T>, level: map<T, nat>) {
    && parent.Keys == root.Keys == level.Keys
    && forall x {:trigger NodeOk(parent, root, level, x)} :: x in parent ==> NodeOk(parent, root, level, x)
  }

  /** One path-halving step keeps the forest, every root, and the levels. */
  lemma HalvingKeepsForest<T>(parent: map<T, T>, root: map<T, T>, level: map<T, nat>, op: T)
    requires IsForest(parent, root, level) && op in parent && parent[op] != op
    ensures var p := parent[op];
            && p in parent && parent[p] in parent
            && IsForest(parent[op := parent[p]], root, level)
            && root[parent[p]] == root[op] && level[parent[p]] < level[op]
            && forall x :: x in parent && parent[x] == x ==> parent[op := parent[p]][x] == x
  {
    var p := parent[op];
    assert NodeOk(parent, root, level, op) && NodeOk(parent, root, level, p);
    assert NodeOk(parent, root, level, parent[p]) && NodeOk(parent, root, level, root[op]);
    var halved := parent[op := parent[p]];
    assert parent[p] != op;
    forall x | x in halved ensures NodeOk(halved, root, level, x) {
      assert NodeOk(parent, root, level, x);
    }
  }

  /** Every member of `a`'s tree moves under `b`'s root. */
  ghost function Merged<T>(root: map<T, T>, a: T, b: T): map<T, T>
    requires a in root && b in root
  {
    map x | x in root :: if root[x] == root[a] then root[b] else root[x]
  }

  ghost function Shifted<T>(level: map<T, nat>, root: map<T, T>, r: T, shift: nat): map<T, nat>
    requires level.Keys == root.Keys
  {
    map x | x in level :: if root[x] == r then level[x] + shift else level[x]
  }

  /** Hanging one root under another merges exactly the two trees. */
  lemma LinkingKeepsForest<T>(parent: map<T, T>, root: map<T, T>, level: map<T, nat>,
                           a: T, b: T)
    requires IsForest(parent, root, level) && a in parent && b in parent && root[a] != root[b]
    ensures root[a] in level && root[b] in level
    ensures IsForest(parent[root[a] := root[b]], Merged(root, a, b), Shifted(level, root, root[a], level[root[b]] + 1))
  {
    var ra, rb := root[a], root[b];
    assert NodeOk(parent, root, level, a) && NodeOk(parent, root, level, b);
    assert NodeOk(parent, root, level, ra) && NodeOk(parent, root, level, rb);
    var linked, merged, shifted := parent[ra := rb], Merged(root, a, b), Shifted(level, root, ra, level[rb] + 1);
    forall x | x in linked ensures NodeOk(linked, merged, shifted, x) {
      assert NodeOk(parent, root, level, x) && NodeOk(parent, root, level, root[x]);
      assert NodeOk(parent, root, level, parent[x]);
    }
  }

  class Forest<T(==)> {
    var parent: map<T, T>
    ghost var root: map<T, T>  // where following parents from a node ends
    ghost var level: map<T, nat>

    ghost predicate Valid()
      reads this
    {
      IsForest(parent, root, level)
    }

    constructor (ops: seq<T>)
      ensures Valid()
      ensures root == map op | op in ops :: op
    {
      parent := map op | op in ops :: op;
      root := map op | op in ops :: op;
      level := map op | op in ops :: 0;
    }

    /** Path halving shortens parent links; no root changes, and no node stops being a root. */
    method Find(op: T) returns (r: T)
      requires Valid() && op in parent
      modifies this`parent
      ensures Valid() && parent.Keys == old(parent.Keys)
      ensures r == root[op] && r in parent && parent[r] == r
      ensures forall x :: x in old(parent) && old(parent)[x] == x ==> parent[x] == x
    {
      ghost var before := parent;
      r := op;
      while parent[r] != r
        invariant Valid() && parent.Keys == before.Keys
        invariant r in parent && root[r] == root[op]
        invariant forall x :: x in before && before[x] == x ==> parent[x] == x
        decreases level[r]
      {
        HalvingKeepsForest(parent, root, level, r);
        parent := parent[r := parent[parent[r]]];
        r := parent[r];
      }
      assert NodeOk(parent, root, level, r);
    }

    /** The two trees become one; every other tree is untouched. */
    method Union(a: T, b: T)
      requires Valid() && a in parent && b in parent
      modifies this
      ensures Valid() && parent.Keys == old(parent.Keys)
      ensures root == Merged(old(root), a, b)
    {
      var rootA := Find(a);
      var rootB := Find(b);
      ghost var merged := Merged(root, a, b);
      if rootA != rootB {
        LinkingKeepsForest(parent, root, level, a, b);
        parent := parent[rootA := rootB];
        level := Shifted(level, root, rootA, level[rootB] + 1);
      } else {
        assert merged == root;
      }
      root := merged;
    }
  }
}
