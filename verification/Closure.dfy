/** Connectedness under a set of links, by paths, and partitions that compute it. */
module Closure {
  import opened UnionFind

  type Link<T> = (T, T)

  ghost predicate Adjacent<T(!new)>(links: set<Link<T>>, a: T, b: T) {
    (a, b) in links || (b, a) in links
  }

  ghost predicate Path<T(!new)>(links: set<Link<T>>, p: seq<T>) {
    |p| > 0 && forall i :: 0 <= i < |p| - 1 ==> Adjacent(links, p[i], p[i + 1])
  }

  lemma FirstStep<T(!new)>(links: set<Link<T>>, p: seq<T>)
    requires Path(links, p)
    ensures |p| > 1 ==> Adjacent(links, p[0], p[1])
  {
  }

  /** The equivalence closure: some path of links, used in either direction, joins a and b. */
  ghost predicate Connected<T(!new)>(links: set<Link<T>>, a: T, b: T) {
    exists p :: Path(links, p) && p[0] == a && p[|p| - 1] == b
  }

  lemma ConnectedReflexive<T(!new)>(links: set<Link<T>>, a: T)
    ensures Connected(links, a, a)
  {
    assert Path(links, [a]) && [a][0] == a;
  }

  lemma ConnectedByLink<T(!new)>(links: set<Link<T>>, a: T, b: T)
    requires Adjacent(links, a, b)
    ensures Connected(links, a, b)
  {
    var p := [a, b];
    assert Path(links, p) && p[0] == a && p[|p| - 1] == b;
  }

  lemma ConnectedSymmetric<T(!new)>(links: set<Link<T>>, a: T, b: T)
    requires Connected(links, a, b)
    ensures Connected(links, b, a)
  {
    var p :| Path(links, p) && p[0] == a && p[|p| - 1] == b;
    var q := seq(|p|, i requires 0 <= i < |p| => p[|p| - 1 - i]);
    forall i | 0 <= i < |q| - 1
      ensures Adjacent(links, q[i], q[i + 1])
    {
      var j := |p| - 2 - i;
      assert Adjacent(links, p[j], p[j + 1]);
    }
    assert Path(links, q) && q[0] == b && q[|q| - 1] == a;
  }

  lemma ConnectedTransitive<T(!new)>(links: set<Link<T>>, a: T, b: T, c: T)
    requires Connected(links, a, b) && Connected(links, b, c)
    ensures Connected(links, a, c)
  {
    var p :| Path(links, p) && p[0] == a && p[|p| - 1] == b;
    var q :| Path(links, q) && q[0] == b && q[|q| - 1] == c;
    var r := p + q[1..];
    forall i | 0 <= i < |r| - 1
      ensures Adjacent(links, r[i], r[i + 1])
    {
      if i < |p| - 1 {
        assert Adjacent(links, p[i], p[i + 1]);
      } else {
        var j := i - (|p| - 1);
        assert Adjacent(links, q[j], q[j + 1]);
        assert r[i] == q[j];
      }
    }
    assert Path(links, r) && r[0] == a && r[|r| - 1] == c;
  }

  lemma ConnectedMonotone<T(!new)>(links: set<Link<T>>, more: set<Link<T>>, a: T, b: T)
    requires links <= more && Connected(links, a, b)
    ensures Connected(more, a, b)
  {
  }

  /** The representatives compute the links: keys reach their representative, and links stay inside one class. */
  ghost predicate Computes<T(!new)>(root: Forest<T>, links: set<Link<T>>) {
    && (forall k :: k in root ==> root[k] in root && Connected(links, k, root[k]))
    && (forall a, b :: (a, b) in links ==> a in root && b in root && root[a] == root[b])
  }

  lemma {:induction false} PathStaysInClass<T(!new)>(root: Forest<T>, links: set<Link<T>>, p: seq<T>)
    requires Computes(root, links) && Path(links, p) && p[0] in root
    ensures p[|p| - 1] in root && root[p[|p| - 1]] == root[p[0]]
  {
    if |p| > 1 {
      var q := p[..|p| - 1];
      assert Path(links, q) by {
        forall i | 0 <= i < |q| - 1 ensures Adjacent(links, q[i], q[i + 1]) { assert Adjacent(links, p[i], p[i + 1]); }
      }
      PathStaysInClass(root, links, q);
      assert Adjacent(links, p[|p| - 2], p[|p| - 2 + 1]);
    }
  }

  /** Two keys have one representative exactly when they are connected. */
  lemma SameRootIffConnected<T(!new)>(root: Forest<T>, links: set<Link<T>>, a: T, b: T)
    requires Computes(root, links) && a in root && b in root
    ensures root[a] == root[b] <==> Connected(links, a, b)
  {
    if root[a] == root[b] {
      ConnectedSymmetric(links, b, root[b]);
      ConnectedTransitive(links, a, root[a], b);
    }
    if Connected(links, a, b) {
      var p :| Path(links, p) && p[0] == a && p[|p| - 1] == b;
      PathStaysInClass(root, links, p);
    }
  }

  lemma IdentityComputesNothing<T(!new)>(keys: set<T>)
    ensures Computes(map k | k in keys :: k, {})
  {
    forall k | k in keys
      ensures Connected({}, k, k)
    {
      ConnectedReflexive({}, k);
    }
  }

  lemma ComputesAt<T(!new)>(root: Forest<T>, links: set<Link<T>>, k: T)
    requires Computes(root, links) && k in root
    ensures root[k] in root && Connected(links, k, root[k])
  {
    hide Connected;
  }

  /** After (x, y) is added, every key reaches its merged representative. */
  lemma MergedReaches<T(!new)>(root: Forest<T>, links: set<Link<T>>, x: T, y: T, k: T)
    requires Computes(root, links) && x in root && y in root && k in root
    ensures root[x] in root && root[y] in root && root[k] in root
    ensures Connected(links + {(x, y)}, k, if root[k] == root[y] then root[x] else root[k])
  {
    var more := links + {(x, y)};
    assert Adjacent(more, y, x);
    ComputesAt(root, links, k);
    ComputesAt(root, links, x);
    ComputesAt(root, links, y);
    hide Computes, Connected;
    ConnectedMonotone(links, more, k, root[k]);
    if root[k] == root[y] {
      ConnectedMonotone(links, more, x, root[x]);
      ConnectedMonotone(links, more, y, root[y]);
      ConnectedSymmetric(more, y, root[y]);
      ConnectedByLink(more, y, x);
      ConnectedTransitive(more, k, root[y], y);
      ConnectedTransitive(more, k, y, x);
      ConnectedTransitive(more, k, x, root[x]);
    }
  }

  /** Merging the classes of x and y computes the links with (x, y) added. */
  lemma MergeComputes<T(!new)>(root: Forest<T>, links: set<Link<T>>, x: T, y: T)
    requires Computes(root, links) && x in root && y in root
    ensures Computes(Merge(root, root[x], root[y]), links + {(x, y)})
  {
    hide Connected;
    var merged := Merge(root, root[x], root[y]);
    forall k | k in merged
      ensures merged[k] in merged && Connected(links + {(x, y)}, k, merged[k])
    {
      MergedReaches(root, links, x, y, k);
    }
  }
}
