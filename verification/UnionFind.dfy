/**
 The disjoint-set forest of pcn/overlay.go: `find` with path compression, `union` by rank. The ghost
 field `root` maps every element to its representative; it is what the two arrays stand for.
 */
module UnionFind {
  import opened Graphs

  function Pow2(k: nat): nat { if k == 0 then 1 else 2 * Pow2(k - 1) }

  // ----- what the arrays stand for

  /** Element `x` of the forest: its parent is in its class, and ranks rise strictly towards the root. */
  ghost predicate Placed(parent: seq<nat>, rank: seq<nat>, root: seq<nat>, x: nat) {
    && |parent| == |rank| == |root| && x < |root|
    && parent[x] < |root| && root[x] < |root|
    && root[parent[x]] == root[x] && root[root[x]] == root[x]
    && (parent[x] == x <==> root[x] == x)
    && (root[x] != x ==> rank[x] < rank[parent[x]] && rank[x] < rank[root[x]])
  }

  /** The set of elements whose representative is `r`. */
  ghost function Members(root: seq<nat>, r: nat): set<nat> {
    set x: nat | x < |root| && root[x] == r
  }

  /** The representatives. */
  ghost function Reps(root: seq<nat>): set<nat> {
    set x: nat | x < |root| && root[x] == x
  }

  ghost predicate Forest(parent: seq<nat>, rank: seq<nat>, root: seq<nat>) {
    && |parent| == |rank| == |root|
    && (forall x: nat {:trigger Placed(parent, rank, root, x)} :: x < |root| ==> Placed(parent, rank, root, x))
    && (forall r: nat {:trigger Members(root, r)} :: r < |root| && root[r] == r ==> Pow2(rank[r]) <= |Members(root, r)|)
  }

  /** Ranks left to climb from `x` to its root: what bounds the recursion of `find`. */
  ghost function Climb(rank: seq<nat>, root: seq<nat>, x: nat): int {
    if x < |root| && x < |rank| && root[x] < |rank| then rank[root[x]] as int - rank[x] as int else 0
  }

  /** All of class `from` joins class `to`. */
  ghost function Merged(root: seq<nat>, from: nat, to: nat): (m: seq<nat>)
    ensures |m| == |root|
    ensures forall x :: 0 <= x < |root| ==> m[x] == if root[x] == from then to else root[x]
  {
    seq(|root|, i requires 0 <= i < |root| => if root[i] == from then to else root[i])
  }

  lemma CompressKeepsForest(parent: seq<nat>, rank: seq<nat>, root: seq<nat>, x: nat)
    requires Forest(parent, rank, root) && x < |root|
    ensures root[x] < |root| && Forest(parent[x := root[x]], rank, root)
  {
    assert Placed(parent, rank, root, x);
    var parent' := parent[x := root[x]];
    forall y: nat | y < |root|
      ensures Placed(parent', rank, root, y)
    {
      assert Placed(parent, rank, root, y);
    }
  }

  lemma MembersOfMerged(root: seq<nat>, from: nat, to: nat)
    requires from != to
    ensures Members(Merged(root, from, to), to) == Members(root, from) + Members(root, to)
    ensures |Members(Merged(root, from, to), to)| == |Members(root, from)| + |Members(root, to)|
    ensures forall r: nat :: r != from && r != to ==> Members(Merged(root, from, to), r) == Members(root, r)
  {
    assert Members(Merged(root, from, to), to) == Members(root, from) + Members(root, to);
    assert Members(root, from) !! Members(root, to);
  }

  /** Hanging root `from` under root `to` of no smaller rank, which grows by one on a tie. */
  lemma LinkKeepsForest(parent: seq<nat>, rank: seq<nat>, root: seq<nat>, from: nat, to: nat, rank': seq<nat>)
    requires Forest(parent, rank, root)
    requires from < |root| && to < |root| && from != to && root[from] == from && root[to] == to
    requires rank[from] <= rank[to]
    requires rank' == if rank[from] == rank[to] then rank[to := rank[to] + 1] else rank
    ensures Forest(parent[from := to], rank', Merged(root, from, to))
  {
    var parent', root' := parent[from := to], Merged(root, from, to);
    forall y: nat | y < |root|
      ensures Placed(parent', rank', root', y)
    {
      assert Placed(parent, rank, root, y);
      assert Placed(parent, rank, root, to);
      if y != from && parent[y] != y {
        assert Placed(parent, rank, root, parent[y]);
      }
    }
    forall r: nat | r < |root| && root'[r] == r
      ensures Pow2(rank'[r]) <= |Members(root', r)|
    {
      MembersOfMerged(root, from, to);
      if r == to {
        assert Pow2(rank[from]) <= |Members(root, from)|;
        assert Pow2(rank[to]) <= |Members(root, to)|;
      } else {
        assert Members(root', r) == Members(root, r);
      }
    }
  }

  /** Linking removes exactly one representative. */
  lemma LinkDropsOneRep(root: seq<nat>, from: nat, to: nat)
    requires from < |root| && to < |root| && from != to && root[from] == from && root[to] == to
    ensures |Reps(Merged(root, from, to))| == |Reps(root)| - 1
  {
    assert Reps(Merged(root, from, to)) == Reps(root) - {from};
    assert from in Reps(root);
  }

  // ----- classes are connected components

  /** Two elements share a representative exactly when the edges connect them. */
  ghost predicate Tracks(root: seq<nat>, es: seq<Edge>) {
    forall a, b :: 0 <= a < |root| && 0 <= b < |root| ==> (root[a] == root[b] <==> Connected(es, a, b))
  }

  ghost predicate IsIdentity(root: seq<nat>) {
    forall x :: 0 <= x < |root| ==> root[x] == x
  }

  lemma IdentityTracksNothing(root: seq<nat>)
    requires IsIdentity(root)
    ensures Tracks(root, [])
  {
    forall a, b | 0 <= a < |root| && 0 <= b < |root|
      ensures root[a] == root[b] <==> Connected([], a, b)
    {
      if a == b {
        WalkTrivial([], a);
      }
      forall p | Walk([], p, a, b)
        ensures a == b
      {
        if |p| > 1 {
          assert Adjacent([], p[0], p[1]);
        }
      }
    }
  }

  /** Uniting the classes of the ends of a new edge tracks connectivity with that edge added. */
  lemma MergeTracksEdge(root: seq<nat>, es: seq<Edge>, e: Edge, from: nat, to: nat)
    requires Tracks(root, es) && ValidEdges(|root|, es) && ValidEdge(|root|, e)
    requires (root[e.u] == from && root[e.v] == to) || (root[e.u] == to && root[e.v] == from)
    ensures Tracks(Merged(root, from, to), es + [e])
  {
    var root', es' := Merged(root, from, to), es + [e];
    forall a: nat, b: nat | a < |root| && b < |root|
      ensures root'[a] == root'[b] <==> Connected(es', a, b)
    {
      if p :| Walk(es', p, a, b) {
        WalkKeepsClass(root, es, e, from, to, p, a, b);
      }
      if root'[a] == root'[b] {
        SameClassConnected(root, es, e, from, to, a, b);
      }
    }
  }

  lemma WalkKeepsClass(root: seq<nat>, es: seq<Edge>, e: Edge, from: nat, to: nat, p: seq<nat>, a: nat, b: nat)
    requires Tracks(root, es) && ValidEdges(|root|, es) && ValidEdge(|root|, e)
    requires (root[e.u] == from && root[e.v] == to) || (root[e.u] == to && root[e.v] == from)
    requires Walk(es + [e], p, a, b) && a < |root|
    ensures b < |root| && Merged(root, from, to)[a] == Merged(root, from, to)[b]
  {
    var root' := Merged(root, from, to);
    forall x: nat, y: nat | Adjacent(es + [e], x, y) && x < |root|
      ensures y < |root| && root'[x] == root'[y]
    {
      if Adjacent(es, x, y) {
        WalkEdge(es, x, y);
      }
    }
    WalkStaysInside(es + [e], (x: nat) => x < |root| && root'[x] == root'[a], p, a, b);
  }

  lemma SameClassConnected(root: seq<nat>, es: seq<Edge>, e: Edge, from: nat, to: nat, a: nat, b: nat)
    requires Tracks(root, es) && ValidEdge(|root|, e) && a < |root| && b < |root|
    requires (root[e.u] == from && root[e.v] == to) || (root[e.u] == to && root[e.v] == from)
    requires Merged(root, from, to)[a] == Merged(root, from, to)[b]
    ensures Connected(es + [e], a, b)
  {
    var es' := es + [e];
    if root[a] == root[b] {
      ConnectedMonotone(es, es', a, b);
    } else {
      // a and b sit on different sides of the new edge
      var x, y := if root[a] == root[e.u] then e.u else e.v, if root[a] == root[e.u] then e.v else e.u;
      ConnectedMonotone(es, es', a, x);
      WalkEdge(es', x, y);
      ConnectedMonotone(es, es', y, b);
      ConnectedTransitive(es', a, x, y);
      ConnectedTransitive(es', a, y, b);
    }
  }

  // ----- the structure itself

  class Dsu {
    const parent: array<nat>
    const rank: array<nat>
    ghost var root: seq<nat>

    ghost predicate Valid()
      reads this, parent, rank
    {
      parent != rank && Forest(parent[..], rank[..], root)
    }

    constructor (n: nat)
      ensures Valid() && fresh(parent) && fresh(rank)
      ensures |root| == n && IsIdentity(root)
    {
      parent := new nat[n];
      rank := new nat[n](_ => 0);
      root := seq(n, i => i);
      new;
      for i := 0 to n
        invariant parent != rank && fresh(parent) && fresh(rank) && parent.Length == rank.Length == n
        invariant root == seq(n, i => i)
        invariant forall k :: 0 <= k < i ==> parent[k] == k
        invariant forall k :: 0 <= k < n ==> rank[k] == 0
      {
        parent[i] := i;
      }
      forall x: nat | x < n
        ensures Placed(parent[..], rank[..], root, x) && |Members(root, x)| == 1
      {
        assert Members(root, x) == {x};
      }
    }

    /** The representative of `x`; shortens the path but changes no class. */
    method Find(x: nat) returns (r: nat)
      requires Valid() && x < |root|
      modifies parent
      ensures Valid() && root == old(root) && rank[..] == old(rank[..])
      ensures r == root[x] < |root| && root[r] == r && parent[x] == r
      decreases Climb(rank[..], root, x)
    {
      assert Placed(parent[..], rank[..], root, x);
      if parent[x] != x {
        assert Placed(parent[..], rank[..], root, parent[x]);
        var p := Find(parent[x]);
        CompressKeepsForest(parent[..], rank[..], root, x);
        ghost var before := parent[..];
        parent[x] := p;
        assert parent[..] == before[x := root[x]];
      }
      assert Placed(parent[..], rank[..], root, x);
      r := parent[x];
    }

    /** Joins two classes; reports whether they were different. */
    method Union(a: nat, b: nat) returns (joined: bool)
      requires Valid() && a < |root| && b < |root|
      modifies this, parent, rank
      ensures Valid()
      ensures joined <==> old(root)[a] != old(root)[b]
      ensures !joined ==> root == old(root)
      ensures joined ==>
        || root == Merged(old(root), old(root)[a], old(root)[b])
        || root == Merged(old(root), old(root)[b], old(root)[a])
    {
      var ra := Find(a);
      var rb := Find(b);
      if ra == rb {
        return false;
      }
      ghost var p, k := parent[..], rank[..];
      if rank[ra] < rank[rb] {
        LinkKeepsForest(p, k, root, ra, rb, k);
        parent[ra] := rb;
        assert parent[..] == p[ra := rb];
        root := Merged(root, ra, rb);
        return true;
      }
      if rank[ra] > rank[rb] {
        LinkKeepsForest(p, k, root, rb, ra, k);
        parent[rb] := ra;
        assert parent[..] == p[rb := ra];
        root := Merged(root, rb, ra);
        return true;
      }
      LinkKeepsForest(p, k, root, rb, ra, k[ra := k[ra] + 1]);
      parent[rb] := ra;
      rank[ra] := rank[ra] + 1;
      assert parent[..] == p[rb := ra];
      assert rank[..] == k[ra := k[ra] + 1];
      root := Merged(root, rb, ra);
      return true;
    }
  }
}
