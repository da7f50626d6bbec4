/**
 * The union-find that links the rows of a cost report (scripts/cost-report/lib/aggregate.ts).
 *
 * `parent` is the only real state. `root` and `rank` are ghost: `Forest` ties them to `parent`
 * so that `root` can only be the key at which the climb along `parent` stops.
 */
module UnionFinds {
  type Links<K> = map<K, K>

  // ----- where a climb along the parents ends ------------------------------------------------

  /** What a forest says of one key: its link goes up in rank and keeps its root. */
  ghost predicate Placed<K(!new)>(parent: Links<K>, root: Links<K>, rank: map<K, nat>, top: nat, k: K)
    requires k in parent && root.Keys == parent.Keys && rank.Keys == parent.Keys
  {
    && parent[k] in parent
    && root[k] in parent
    && rank[k] <= top
    && (parent[k] == k <==> root[k] == k)
    && (parent[k] != k ==> rank[k] < rank[parent[k]])
    && (root[k] != k ==> rank[k] < rank[root[k]])
    && root[parent[k]] == root[k]
    && root[root[k]] == root[k]
  }

  /** `parent` is a forest of which `root` is the root map. */
  ghost predicate Forest<K(!new)>(parent: Links<K>, root: Links<K>, rank: map<K, nat>, top: nat) {
    && root.Keys == parent.Keys
    && rank.Keys == parent.Keys
    && forall k {:trigger Placed(parent, root, rank, top, k)} :: k in parent ==> Placed(parent, root, rank, top, k)
  }

  /** Every parent is itself a key. */
  ghost predicate Closed<K(!new)>(parent: Links<K>) {
    parent.Values <= parent.Keys
  }

  /** The key reached from `k` after `n` links. */
  ghost function Climb<K(!new)>(parent: Links<K>, k: K, n: nat): (r: K)
    requires Closed(parent) && k in parent
    ensures r in parent
    decreases n
  {
    if n == 0 then k else Climb(parent, parent[k], n - 1)
  }

  /**
   * In a forest every climb stops within `top` links, at `root[k]` and nowhere else: the ghost
   * map is what the parents alone say.
   */
  lemma {:induction false} ClimbEndsAtRoot<K(!new)>(parent: Links<K>, root: Links<K>, rank: map<K, nat>, top: nat,
                                             k: K, n: nat)
    requires Forest(parent, root, rank, top) && Closed(parent) && k in parent
    ensures n + rank[k] >= top ==> Climb(parent, k, n) == root[k]
    ensures parent[Climb(parent, k, n)] == Climb(parent, k, n) ==> Climb(parent, k, n) == root[k]
    decreases n
  {
    assert Placed(parent, root, rank, top, k);
    assert Placed(parent, root, rank, top, root[k]);
    if n > 0 {
      ClimbEndsAtRoot(parent, root, rank, top, parent[k], n - 1);
      if parent[k] == k {
        ClimbStays(parent, k, n);
      }
    }
  }

  lemma {:induction false} ClimbStays<K(!new)>(parent: Links<K>, k: K, n: nat)
    requires Closed(parent) && k in parent && parent[k] == k
    ensures Climb(parent, k, n) == k
  {
    if n > 0 {
      ClimbStays(parent, k, n - 1);
    }
  }

  /** The root of a key; a key never seen is its own root. */
  function RootIn<K(==)>(root: Links<K>, k: K): K {
    if k in root then root[k] else k
  }

  // ----- the equivalence closure of the united pairs ------------------------------------------

  /** One step of the reflexive, symmetric closure of the united pairs. */
  ghost predicate Adjacent<K(!new)>(united: seq<(K, K)>, a: K, b: K) {
    a == b || (a, b) in united || (b, a) in united
  }

  ghost predicate IsPath<K(!new)>(united: seq<(K, K)>, p: seq<K>, a: K, b: K) {
    && |p| > 0 && p[0] == a && p[|p| - 1] == b
    && forall i :: 1 <= i < |p| ==> Adjacent(united, p[i - 1], p[i])
  }

  /** The reflexive, symmetric and transitive closure of the united pairs. */
  ghost predicate Connected<K(!new)>(united: seq<(K, K)>, a: K, b: K) {
    exists p :: IsPath(united, p, a, b)
  }

  /** `root` agrees with every united pair and joins nothing the pairs do not connect. */
  ghost predicate Joins<K(!new)>(root: Links<K>, united: seq<(K, K)>) {
    && root.Values <= root.Keys
    && (forall e :: e in united ==> e.0 in root && e.1 in root && root[e.0] == root[e.1])
    && (forall a, b {:trigger Connected(united, a, b)} ::
        a in root && b in root && root[a] == root[b] ==> Connected(united, a, b))
  }

  lemma {:induction false} PathKeepsRoot<K(!new)>(root: Links<K>, united: seq<(K, K)>, p: seq<K>, a: K, b: K)
    requires Joins(root, united) && IsPath(united, p, a, b)
    ensures RootIn(root, a) == RootIn(root, b)
    decreases |p|
  {
    if |p| > 1 {
      assert Adjacent(united, p[0], p[1]);
      PathKeepsRoot(root, united, p[1..], p[1], b);
    }
  }

  /** Two keys share a root exactly when the united pairs connect them. */
  lemma SameRootIffConnected<K(!new)>(root: Links<K>, united: seq<(K, K)>, a: K, b: K)
    requires Joins(root, united)
    ensures RootIn(root, a) == RootIn(root, b) <==> Connected(united, a, b)
  {
    if Connected(united, a, b) {
      var p :| IsPath(united, p, a, b);
      PathKeepsRoot(root, united, p, a, b);
    }
    if RootIn(root, a) == RootIn(root, b) {
      assert a in root ==> root[a] in root.Values;
      assert b in root ==> root[b] in root.Values;
      if a == b {
        assert IsPath(united, [a], a, b);
      }
    }
  }

  lemma ConnectedTrans<K(!new)>(united: seq<(K, K)>, a: K, b: K, c: K)
    requires Connected(united, a, b) && Connected(united, b, c)
    ensures Connected(united, a, c)
  {
    var p :| IsPath(united, p, a, b);
    var q :| IsPath(united, q, b, c);
    var r := p + q;
    assert forall i :: 1 <= i < |r| ==> Adjacent(united, r[i - 1], r[i]);
    assert IsPath(united, r, a, c);
  }

  lemma ConnectedGrows<K(!new)>(united: seq<(K, K)>, e: (K, K), a: K, b: K)
    requires Connected(united, a, b)
    ensures Connected(united + [e], a, b)
  {
    var p :| IsPath(united, p, a, b);
    assert forall i :: 1 <= i < |p| ==> Adjacent(united, p[i - 1], p[i]);
    assert IsPath(united + [e], p, a, b);
  }

  /** The effect of a union on the roots: every key rooted at `rb` moves to `ra`. */
  function Merged<K(==)>(root: Links<K>, ra: K, rb: K): Links<K> {
    map k | k in root :: if root[k] == rb then ra else root[k]
  }

  /** The root of `k` once `a` and `b` are united: the class of `b` takes the root of `a`. */
  function AfterUnion<K(==)>(root: Links<K>, a: K, b: K, k: K): K {
    if RootIn(root, k) == RootIn(root, b) then RootIn(root, a) else RootIn(root, k)
  }

  /** Keys that had one root still have one root. */
  ghost predicate Coarser<K(!new)>(root: Links<K>, root': Links<K>) {
    forall x, y {:trigger RootIn(root', x), RootIn(root', y)} ::
      RootIn(root, x) == RootIn(root, y) ==> RootIn(root', x) == RootIn(root', y)
  }

  lemma MergedRootIn<K(!new)>(root: Links<K>, a: K, b: K, k: K)
    requires a in root && b in root && root.Values <= root.Keys
    ensures RootIn(Merged(root, root[a], root[b]), k)
         == if RootIn(root, k) == root[b] then root[a] else RootIn(root, k)
  {
    assert root[b] in root.Values;
  }

  lemma MergedJoins<K(!new)>(root: Links<K>, united: seq<(K, K)>, a: K, b: K)
    requires Joins(root, united) && a in root && b in root
    ensures Joins(Merged(root, root[a], root[b]), united + [(a, b)])
  {
    var m, u := Merged(root, root[a], root[b]), united + [(a, b)];
    forall c, d | c in m && d in m && m[c] == m[d]
      ensures Connected(u, c, d)
    {
      assert (a, b) in u && Adjacent(u, a, b) && Adjacent(u, b, a);
      assert IsPath(u, [a, b], a, b) && IsPath(u, [b, a], b, a);
      if root[c] == root[d] {
        ConnectedGrows(united, (a, b), c, d);
      } else if root[c] == root[b] {
        Bridge(united, (a, b), c, b, a, d);
      } else {
        Bridge(united, (a, b), c, a, b, d);
      }
    }
  }

  lemma Bridge<K(!new)>(united: seq<(K, K)>, e: (K, K), c: K, x: K, y: K, d: K)
    requires Connected(united, c, x) && Connected(united + [e], x, y) && Connected(united, y, d)
    ensures Connected(united + [e], c, d)
  {
    ConnectedGrows(united, e, c, x);
    ConnectedGrows(united, e, y, d);
    ConnectedTrans(united + [e], c, x, y);
    ConnectedTrans(united + [e], c, y, d);
  }

  lemma FreshJoins<K(!new)>(root: Links<K>, united: seq<(K, K)>, x: K)
    requires Joins(root, united) && x !in root
    ensures Joins(root[x := x], united)
  {
    assert IsPath(united, [x], x, x);
  }

  lemma FreshForest<K(!new)>(parent: Links<K>, root: Links<K>, rank: map<K, nat>, top: nat, x: K)
    requires Forest(parent, root, rank, top) && x !in parent
    ensures Forest(parent[x := x], root[x := x], rank[x := 0], top)
  {
    var p, m, n := parent[x := x], root[x := x], rank[x := 0];
    forall k | k in p ensures Placed(p, m, n, top, k) {
      if k != x {
        assert Placed(parent, root, rank, top, k);
      }
    }
  }

  /** Pointing a key straight at its root keeps the forest and every root. */
  lemma CompressedForest<K(!new)>(parent: Links<K>, root: Links<K>, rank: map<K, nat>, top: nat, c: K)
    requires Forest(parent, root, rank, top) && c in parent && root[c] != c
    ensures Forest(parent[c := root[c]], root, rank, top)
  {
    var p := parent[c := root[c]];
    assert Placed(parent, root, rank, top, c);
    assert Placed(parent, root, rank, top, root[c]);
    assert p.Keys == parent.Keys;
    forall k | k in p ensures Placed(p, root, rank, top, k) {
      assert Placed(parent, root, rank, top, k);
    }
  }

  /** Hanging root `rb` under root `ra`, which is ranked above it, merges the two trees. */
  lemma LinkedForest<K(!new)>(parent: Links<K>, root: Links<K>, rank: map<K, nat>, top: nat, ra: K, rb: K, h: nat)
    requires Forest(parent, root, rank, top) && ra in parent && rb in parent
    requires root[ra] == ra && root[rb] == rb && ra != rb
    requires rank[ra] <= h <= top + 1 && rank[rb] < h
    ensures Forest(parent[rb := ra], Merged(root, ra, rb), rank[ra := h], top + 1)
  {
    var p, m, n := parent[rb := ra], Merged(root, ra, rb), rank[ra := h];
    assert Placed(parent, root, rank, top, ra) && Placed(parent, root, rank, top, rb);
    assert p.Keys == parent.Keys && m.Keys == root.Keys && n.Keys == rank.Keys;
    forall k | k in p ensures Placed(p, m, n, top + 1, k) {
      assert Placed(parent, root, rank, top, k);
      assert Placed(parent, root, rank, top, root[k]);
    }
  }

  // ----- the mutable structure ------------------------------------------------------------------

  class UnionFind<K(==,!new)> {
    var parent: Links<K>
    ghost var root: Links<K>
    ghost var rank: map<K, nat>
    ghost var top: nat
    /** Every pair `Union` was called with, in order. */
    ghost var united: seq<(K, K)>

    ghost predicate Valid()
      reads this
    {
      Forest(parent, root, rank, top) && Joins(root, united)
    }

    constructor ()
      ensures Valid() && parent == map[] && united == []
    {
      parent, root, rank, top, united := map[], map[], map[], 0, [];
    }

    /**
     * Returns the root of `x`, adding `x` when it is new. Compressing the path changes no key's
     * root. The first loop ends because ranks grow and are bounded, the second because it
     * climbs the same links.
     */
    method Find(x: K) returns (r: K)
      requires Valid()
      modifies this
      ensures Valid() && united == old(united)
      ensures root == if x in old(root) then old(root) else old(root)[x := x]
      ensures r == root[x] && parent[x] == r
      ensures forall k {:trigger RootIn(root, k)} :: RootIn(root, k) == RootIn(old(root), k)
    {
      if x !in parent {
        FreshJoins(root, united, x);
        FreshForest(parent, root, rank, top, x);
        parent, root, rank := parent[x := x], root[x := x], rank[x := 0];
      }
      assert Placed(parent, root, rank, top, x);
      ghost var root0, rank0, top0 := root, rank, top;
      var p := parent[x];
      while p != parent[p]
        invariant Forest(parent, root, rank, top) && p in parent && root[p] == root[x]
        invariant root == root0 && rank == rank0 && top == top0 && united == old(united)
        decreases top - rank[p]
      {
        assert Placed(parent, root, rank, top, p);
        p := parent[p];
        assert Placed(parent, root, rank, top, p);
      }
      assert Placed(parent, root, rank, top, p);
      var c := x;
      while c != p
        invariant Forest(parent, root, rank, top) && c in parent && x in parent && p in parent
        invariant root[c] == p && root[p] == p && (c != x ==> parent[x] == p)
        invariant root == root0 && rank == rank0 && top == top0 && united == old(united)
        decreases top - rank[c]
      {
        var next := parent[c];
        assert Placed(parent, root, rank, top, c) && Placed(parent, root, rank, top, next);
        CompressedForest(parent, root, rank, top, c);
        parent := parent[c := p];
        c := next;
      }
      assert Placed(parent, root, rank, top, x);
      r := p;
    }

    /** Unites `a` and `b`: the two classes become one, every other class is as it was. */
    method Union(a: K, b: K)
      requires Valid()
      modifies this
      ensures Valid() && united == old(united) + [(a, b)]
      ensures root.Keys == old(root.Keys) + {a, b}
      ensures forall k {:trigger RootIn(root, k)} ::
        RootIn(root, k) == AfterUnion(old(root), a, b, k)
    {
      var ra := Find(a);
      var rb := Find(b);
      ghost var root1 := root;
      assert Placed(parent, root, rank, top, a) && Placed(parent, root, rank, top, b);
      MergedJoins(root, united, a, b);
      forall k ensures RootIn(Merged(root1, ra, rb), k) == AfterUnion(old(root), a, b, k) {
        MergedRootIn(root1, a, b, k);
      }
      Link(a, b, ra, rb);
    }

    /** The tail of `Union`: hangs one root under the other unless they are the same. */
    method Link(ghost a: K, ghost b: K, ra: K, rb: K)
      requires Valid() && a in root && b in root && root[a] == ra && root[b] == rb
      requires Joins(Merged(root, ra, rb), united + [(a, b)])
      modifies this
      ensures Valid() && united == old(united) + [(a, b)]
      ensures root == Merged(old(root), ra, rb)
    {
      assert Placed(parent, root, rank, top, a) && Placed(parent, root, rank, top, b);
      assert Placed(parent, root, rank, top, ra) && Placed(parent, root, rank, top, rb);
      if ra != rb {
        ghost var h := if rank[ra] > rank[rb] then rank[ra] else rank[rb] + 1;
        LinkedForest(parent, root, rank, top, ra, rb, h);
        parent, rank, top := parent[rb := ra], rank[ra := h], top + 1;
      } else {
        assert Merged(root, ra, rb) == root;
      }
      root := Merged(root, ra, rb);
      united := united + [(a, b)];
    }

    /**
     * After any sequence of unions and finds, two keys have the same root exactly when the
     * united pairs connect them.
     */
    method Same(a: K, b: K) returns (same: bool)
      requires Valid()
      modifies this
      ensures Valid() && united == old(united)
      ensures same <==> Connected(united, a, b)
    {
      var ra := Find(a);
      var rb := Find(b);
      SameRootIffConnected(root, united, a, b);
      same := ra == rb;
    }

    /** Unites every key of a list with its first. */
    method UniteAll(keys: seq<K>)
      requires Valid() && |keys| > 0
      modifies this
      ensures Valid() && Coarser(old(root), root)
      ensures forall k :: k in keys ==> RootIn(root, k) == RootIn(root, keys[0])
      ensures forall e :: e in united ==> e in old(united) || (e.0 in keys && e.1 in keys)
    {
      for j := 1 to |keys|
        invariant Valid() && Coarser(old(root), root)
        invariant forall i :: 0 <= i < j ==> RootIn(root, keys[i]) == RootIn(root, keys[0])
        invariant forall e :: e in united ==> e in old(united) || (e.0 in keys && e.1 in keys)
      {
        Union(keys[0], keys[j]);
      }
      var r := Find(keys[0]);
    }
  }
}
