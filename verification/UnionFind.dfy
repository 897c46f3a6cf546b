/** Union-find with path halving (wash_chains.py). */
module UnionFind {

  type Forest<T> = map<T, T>

  /**
   * root is the representative map of the parent forest. The rank grows along every parent edge, which makes the
   * forest acyclic.
   */
  ghost predicate IsForest<T>(parent: Forest<T>, root: Forest<T>, rank: map<T, nat>, height: nat) {
    && parent.Keys == root.Keys == rank.Keys
    && forall k {:trigger parent[k]} :: k in parent ==>
         && parent[k] in parent && root[k] in parent
         && root[parent[k]] == root[k] && root[root[k]] == root[k]
         && (parent[k] == k <==> root[k] == k)
         && (parent[k] != k ==> rank[k] < rank[parent[k]])
         && rank[k] <= height
  }

  lemma ForestKeys<T>(parent: Forest<T>, root: Forest<T>, rank: map<T, nat>, height: nat)
    requires IsForest(parent, root, rank, height)
    ensures parent.Keys == root.Keys == rank.Keys
  {
  }

  lemma ForestAt<T>(parent: Forest<T>, root: Forest<T>, rank: map<T, nat>, height: nat, k: T)
    requires IsForest(parent, root, rank, height) && k in parent
    ensures k in root && k in rank && parent[k] in parent && root[k] in parent
    ensures parent[k] in root && root[parent[k]] == root[k] && root[k] in root && root[root[k]] == root[k]
    ensures parent[k] == k <==> root[k] == k
    ensures rank[k] <= height && (parent[k] != k ==> parent[k] in rank && rank[k] < rank[parent[k]] <= height)
  {
  }

  /** The parent map determines the representatives: a parent chain can only end in one place. */
  lemma {:induction false} RootDetermined<T>(parent: Forest<T>, r1: Forest<T>, r2: Forest<T>, k1: map<T, nat>,
                                             k2: map<T, nat>,
                                          h1: nat, h2: nat, k: T)
    requires IsForest(parent, r1, k1, h1) && IsForest(parent, r2, k2, h2) && k in parent
    ensures r1[k] == r2[k]
    decreases h1 - k1[k]
  {
    if parent[k] != k {
      RootDetermined(parent, r1, r2, k1, k2, h1, h2, parent[k]);
    }
  }

  /** Pointing a key at its grandparent keeps the forest and every representative. */
  lemma HalvingKeepsRoots<T>(parent: Forest<T>, root: Forest<T>, rank: map<T, nat>, height: nat, k: T)
    requires IsForest(parent, root, rank, height) && k in parent
    ensures IsForest(parent[k := parent[parent[k]]], root, rank, height)
  {
    ForestKeys(parent, root, rank, height);
    ForestAt(parent, root, rank, height, k);
    ForestAt(parent, root, rank, height, parent[k]);
  }

  /** Every key of the class of absorbed now belongs to the class of kept. */
  ghost function Merge<T>(root: Forest<T>, kept: T, absorbed: T): Forest<T> {
    map k | k in root :: if root[k] == absorbed then kept else root[k]
  }

  /** Linking one root under another merges exactly the two classes and keeps the forest acyclic. */
  lemma LinkMerges<T>(parent: Forest<T>, root: Forest<T>, rank: map<T, nat>, height: nat, kept: T, absorbed: T)
    requires IsForest(parent, root, rank, height) && kept in parent && absorbed in parent
    requires root[kept] == kept && root[absorbed] == absorbed && kept != absorbed
    ensures IsForest(parent[absorbed := kept], Merge(root, kept, absorbed), rank[kept := height + 1], height + 1)
  {
  }

  class Finder<T(==)> {
    var parent: map<T, T>
    ghost var root: map<T, T>
    ghost var rank: map<T, nat>
    ghost var height: nat

    ghost predicate Valid()
      reads this
    {
      IsForest(parent, root, rank, height)
    }

    /** Every key alone in its class. */
    constructor (keys: set<T>)
      ensures Valid() && root == map k | k in keys :: k
    {
      parent := map k | k in keys :: k;
      root := map k | k in keys :: k;
      rank := map k | k in keys :: 0;
      height := 0;
    }

    method Find(start: T) returns (key: T)
      requires Valid() && start in parent
      modifies this
      ensures Valid() && root == old(root) && rank == old(rank) && height == old(height)
      ensures start in root && key == root[start] && key in root && root[key] == key
      ensures key in parent && parent[key] == key
      ensures parent.Keys == old(parent).Keys
    {
      hide IsForest;
      key := start;
      ForestAt(parent, root, rank, height, start);
      while parent[key] != key
        invariant Valid() && root == old(root) && rank == old(rank) && height == old(height)
        invariant key in parent && key in root && key in rank && start in root && root[key] == root[start]
        invariant parent.Keys == old(parent).Keys && rank[key] <= height
        decreases height - rank[key]
      {
        ForestAt(parent, root, rank, height, key);
        ForestAt(parent, root, rank, height, parent[key]);
        HalvingKeepsRoots(parent, root, rank, height, key);
        parent := parent[key := parent[parent[key]]];
        key := parent[key];
      }
      ForestAt(parent, root, rank, height, key);
    }

    method Union(left: T, right: T)
      requires Valid() && left in parent && right in parent
      modifies this
      ensures left in old(root) && right in old(root)
      ensures Valid() && root == Merge(old(root), old(root)[left], old(root)[right])
      ensures parent.Keys == old(parent).Keys
    {
      hide IsForest;
      var rootLeft := Find(left);
      var rootRight := Find(right);
      ForestAt(parent, root, rank, height, rootLeft);
      ForestAt(parent, root, rank, height, rootRight);
      if rootLeft != rootRight {
        LinkMerges(parent, root, rank, height, rootLeft, rootRight);
        parent := parent[rootRight := rootLeft];
        root := Merge(root, rootLeft, rootRight);
        rank := rank[rootLeft := height + 1];
        height := height + 1;
      } else {
        assert root == Merge(root, rootLeft, rootRight);
      }
    }
  }
}
