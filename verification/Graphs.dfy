/**
 Undirected graphs over the vertices `0 .. n-1`, given as a list of edges: walks, connectivity,
 shortest-path distance, degrees, and the facts about them that the overlay proofs share.
 Nothing here refers to an algorithm; these are the notions the algorithms are measured against.
 */
module Graphs {

  /** An undirected edge; the two orders of its endpoints mean the same link. */
  datatype Edge = Edge(u: nat, v: nat)

  predicate Adjacent(es: seq<Edge>, a: nat, b: nat) {
    Edge(a, b) in es || Edge(b, a) in es
  }

  predicate ValidEdge(n: nat, e: Edge) {
    e.u < n && e.v < n && e.u != e.v
  }

  predicate ValidEdges(n: nat, es: seq<Edge>) {
    forall e :: e in es ==> ValidEdge(n, e)
  }

  /** `p` lists the vertices of a walk from `a` to `b`; it has `|p| - 1` hops. */
  ghost predicate Walk(es: seq<Edge>, p: seq<nat>, a: nat, b: nat) {
    && |p| > 0 && p[0] == a && p[|p| - 1] == b
    && forall i, j :: 0 <= i && j == i + 1 && j < |p| ==> Adjacent(es, p[i], p[j])
  }

  ghost predicate Connected(es: seq<Edge>, a: nat, b: nat) {
    exists p :: Walk(es, p, a, b)
  }

  ghost predicate ConnectedGraph(n: nat, es: seq<Edge>) {
    forall a, b :: 0 <= a < n && 0 <= b < n ==> Connected(es, a, b)
  }

  ghost predicate IsDistance(es: seq<Edge>, a: nat, b: nat, d: nat) {
    && (exists p :: Walk(es, p, a, b) && |p| == d + 1)
    && (forall p :: Walk(es, p, a, b) ==> d + 1 <= |p|)
  }

  /** The number of hops of a shortest walk. */
  ghost function Distance(es: seq<Edge>, a: nat, b: nat): (d: nat)
    requires Connected(es, a, b)
    ensures IsDistance(es, a, b, d)
  {
    DistanceExists(es, a, b);
    var d: nat :| IsDistance(es, a, b, d);
    d
  }

  /** All pairwise distances. */
  ghost function DistanceMatrix(n: nat, es: seq<Edge>): (m: seq<seq<int>>)
    requires ConnectedGraph(n, es)
    ensures |m| == n && forall i :: 0 <= i < n ==> |m[i]| == n
    ensures forall i, j :: 0 <= i < n && 0 <= j < n ==> m[i][j] == Distance(es, i, j)
  {
    seq(n, i requires 0 <= i < n => seq(n, j requires 0 <= j < n => Distance(es, i, j)))
  }

  /** How many edge ends meet at `x`. */
  function Degree(es: seq<Edge>, x: nat): nat {
    if es == [] then 0
    else
      var e := es[|es| - 1];
      Degree(es[..|es| - 1], x) + (if e.u == x then 1 else 0) + (if e.v == x then 1 else 0)
  }

  lemma {:induction false} IsolatedHasNoEdge(es: seq<Edge>, x: nat, y: nat)
    requires Degree(es, x) == 0
    ensures !Adjacent(es, x, y)
  {
    if es != [] {
      var init, e := es[..|es| - 1], es[|es| - 1];
      IsolatedHasNoEdge(init, x, y);
      assert es == init + [e];
    }
  }

  // ----- distances exist and are unique

  lemma {:induction false} ShortestBelow(es: seq<Edge>, p: seq<nat>, a: nat, b: nat)
    requires Walk(es, p, a, b)
    ensures exists d: nat :: IsDistance(es, a, b, d)
    decreases |p|
  {
    if q :| Walk(es, q, a, b) && |q| < |p| {
      ShortestBelow(es, q, a, b);
    } else {
      assert IsDistance(es, a, b, |p| - 1);
    }
  }

  lemma DistanceExists(es: seq<Edge>, a: nat, b: nat)
    requires Connected(es, a, b)
    ensures exists d: nat :: IsDistance(es, a, b, d)
  {
    var p :| Walk(es, p, a, b);
    ShortestBelow(es, p, a, b);
  }

  // ----- building walks

  lemma WalkTrivial(es: seq<Edge>, a: nat)
    ensures Walk(es, [a], a, a) && Connected(es, a, a)
  {
    assert Walk(es, [a], a, a);
  }

  lemma WalkEdge(es: seq<Edge>, a: nat, b: nat)
    requires Adjacent(es, a, b)
    ensures Walk(es, [a, b], a, b) && Connected(es, a, b)
  {
    assert Walk(es, [a, b], a, b);
  }

  lemma WalkConcat(es: seq<Edge>, p: seq<nat>, q: seq<nat>, a: nat, b: nat, c: nat)
    requires Walk(es, p, a, b) && Walk(es, q, b, c)
    ensures Walk(es, p + q[1..], a, c) && |p + q[1..]| == |p| + |q| - 1
  {
    var r := p + q[1..];
    forall i, j | 0 <= i && j == i + 1 && j < |r|
      ensures Adjacent(es, r[i], r[j])
    {
      if j >= |p| {
        assert r[j] == q[j - |p| + 1];
        assert r[i] == q[i - |p| + 1];
      }
    }
  }

  lemma WalkReverse(es: seq<Edge>, p: seq<nat>, a: nat, b: nat) returns (q: seq<nat>)
    requires Walk(es, p, a, b)
    ensures Walk(es, q, b, a) && |q| == |p|
  {
    q := seq(|p|, i requires 0 <= i < |p| => p[|p| - 1 - i]);
    forall i, j | 0 <= i && j == i + 1 && j < |q|
      ensures Adjacent(es, q[i], q[j])
    {
      assert Adjacent(es, p[|p| - 1 - j], p[|p| - 1 - i]);
    }
  }

  lemma ConnectedSymmetric(es: seq<Edge>, a: nat, b: nat)
    requires Connected(es, a, b)
    ensures Connected(es, b, a)
  {
    var p :| Walk(es, p, a, b);
    var q := WalkReverse(es, p, a, b);
  }

  lemma ConnectedTransitive(es: seq<Edge>, a: nat, b: nat, c: nat)
    requires Connected(es, a, b) && Connected(es, b, c)
    ensures Connected(es, a, c)
  {
    var p :| Walk(es, p, a, b);
    var q :| Walk(es, q, b, c);
    WalkConcat(es, p, q, a, b, c);
  }

  lemma WalkMonotone(es: seq<Edge>, fs: seq<Edge>, p: seq<nat>, a: nat, b: nat)
    requires Walk(es, p, a, b) && forall e :: e in es ==> e in fs
    ensures Walk(fs, p, a, b)
  {
  }

  lemma ConnectedMonotone(es: seq<Edge>, fs: seq<Edge>, a: nat, b: nat)
    requires Connected(es, a, b) && forall e :: e in es ==> e in fs
    ensures Connected(fs, a, b)
  {
    var p :| Walk(es, p, a, b);
    WalkMonotone(es, fs, p, a, b);
  }

  lemma ConnectedGraphMonotone(n: nat, es: seq<Edge>, fs: seq<Edge>)
    requires ConnectedGraph(n, es) && forall e :: e in es ==> e in fs
    ensures ConnectedGraph(n, fs)
  {
    forall a, b | 0 <= a < n && 0 <= b < n
      ensures Connected(fs, a, b)
    {
      ConnectedMonotone(es, fs, a, b);
    }
  }

  // ----- bounding walks from below

  /**
   A function on vertices that changes by at most one across every edge changes by at most `k` along
   a walk of `k` hops. This single argument gives minimality of breadth-first levels and exactness of
   the shortcut formula for a new edge.
   */
  lemma {:induction false} PotentialBoundsWalk(es: seq<Edge>, f: nat -> int, p: seq<nat>, a: nat, b: nat)
    requires Walk(es, p, a, b)
    requires forall x, y :: Adjacent(es, x, y) ==> f(x) <= f(y) + 1
    ensures f(a) <= f(b) + |p| - 1
    decreases |p|
  {
    if |p| > 1 {
      assert Adjacent(es, p[0], p[1]);
      var q := p[1..];
      forall i, j | 0 <= i && j == i + 1 && j < |q|
        ensures Adjacent(es, q[i], q[j])
      {
        assert q[i] == p[i + 1] && q[j] == p[j + 1];
      }
      PotentialBoundsWalk(es, f, q, p[1], b);
    }
  }

  /** A property that edges carry across holds all along a walk. */
  lemma {:induction false} WalkStaysInside(es: seq<Edge>, inside: nat -> bool, p: seq<nat>, a: nat, b: nat)
    requires Walk(es, p, a, b) && inside(a)
    requires forall x, y :: Adjacent(es, x, y) && inside(x) ==> inside(y)
    ensures inside(b)
    decreases |p|
  {
    if |p| > 1 {
      assert Adjacent(es, p[0], p[1]);
      var q := p[1..];
      forall i, j | 0 <= i && j == i + 1 && j < |q|
        ensures Adjacent(es, q[i], q[j])
      {
        assert q[i] == p[i + 1] && q[j] == p[j + 1];
      }
      WalkStaysInside(es, inside, q, p[1], b);
    }
  }

  // ----- the distance is a metric

  lemma DistanceZero(es: seq<Edge>, a: nat)
    ensures Connected(es, a, a) && Distance(es, a, a) == 0
  {
    WalkTrivial(es, a);
  }

  lemma DistanceTriangle(es: seq<Edge>, a: nat, b: nat, c: nat)
    requires Connected(es, a, b) && Connected(es, b, c)
    ensures Connected(es, a, c) && Distance(es, a, c) <= Distance(es, a, b) + Distance(es, b, c)
  {
    var p :| Walk(es, p, a, b) && |p| == Distance(es, a, b) + 1;
    var q :| Walk(es, q, b, c) && |q| == Distance(es, b, c) + 1;
    WalkConcat(es, p, q, a, b, c);
  }

  lemma DistanceOfEdge(es: seq<Edge>, a: nat, b: nat)
    requires Adjacent(es, a, b)
    ensures Connected(es, a, b) && Distance(es, a, b) <= 1
  {
    WalkEdge(es, a, b);
  }

  ghost function Vertices(n: nat): set<nat> { set x: nat {:trigger x < n} | x < n }

  lemma {:induction false} VertexCount(n: nat)
    ensures |Vertices(n)| == n
  {
    if n > 0 {
      VertexCount(n - 1);
      assert Vertices(n) == Vertices(n - 1) + {n - 1};
    }
  }
}
