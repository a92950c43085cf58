/**
 `overlayGain` of pcn/overlay.go: how much the total weighted distance would drop if one edge were
 added, computed from the old distance matrix alone, and why that answer is exact.
 */
module OverlayGain {
  import opened Graphs

  type Matrix = seq<seq<int>>

  predicate Square(n: nat, m: Matrix) {
    |m| >= n && forall i :: 0 <= i < n ==> |m[i]| >= n
  }

  /** The distance from `i` to `j` when one hop between `u` and `v` may be used. */
  function Shortcut(n: nat, dist: Matrix, u: nat, v: nat, i: nat, j: nat): int
    requires Square(n, dist) && u < n && v < n && i < n && j < n
  {
    var viaUV := dist[i][u] + 1 + dist[v][j];
    var viaVU := dist[i][v] + 1 + dist[u][j];
    var d := if dist[i][u] >= 0 && dist[v][j] >= 0 && viaUV < dist[i][j] then viaUV else dist[i][j];
    if dist[i][v] >= 0 && dist[u][j] >= 0 && viaVU < d then viaVU else d
  }

  /** The whole matrix with the extra hop allowed. */
  function Relaxed(n: nat, dist: Matrix, u: nat, v: nat): (m: Matrix)
    requires Square(n, dist) && u < n && v < n
    ensures |m| == n && forall i :: 0 <= i < n ==> |m[i]| == n
    ensures forall i, j :: 0 <= i < n && 0 <= j < n ==> m[i][j] == Shortcut(n, dist, u, v, i, j)
  {
    seq(n, i requires 0 <= i < n => seq(n, j requires 0 <= j < n => Shortcut(n, dist, u, v, i, j)))
  }

  /** `w[lo]*d[lo] + ... + w[hi-1]*d[hi-1]` */
  function RowTotal(w: seq<int>, d: seq<int>, lo: nat, hi: nat): int
    requires hi <= |w| && hi <= |d|
  {
    if hi <= lo then 0 else RowTotal(w, d, lo, hi - 1) + w[hi - 1] * d[hi - 1]
  }

  /** The weighted distance summed over the pairs `i < j` with `i < rows`. */
  function TotalUpTo(n: nat, weights: Matrix, dist: Matrix, rows: nat): int
    requires Square(n, weights) && Square(n, dist) && rows <= n
  {
    if rows == 0 then 0
    else TotalUpTo(n, weights, dist, rows - 1) + RowTotal(weights[rows - 1], dist[rows - 1], rows, n)
  }

  function Total(n: nat, weights: Matrix, dist: Matrix): int
    requires Square(n, weights) && Square(n, dist)
  {
    TotalUpTo(n, weights, dist, n)
  }

  /** The drop of the total weighted distance when edge `e` joins the connected graph `es`. */
  ghost function Gain(n: nat, weights: Matrix, es: seq<Edge>, e: Edge): int
    requires Square(n, weights) && ConnectedGraph(n, es)
  {
    ConnectedGraphMonotone(n, es, es + [e]);
    Total(n, weights, DistanceMatrix(n, es)) - Total(n, weights, DistanceMatrix(n, es + [e]))
  }

  // ----- exactness of the shortcut formula

  lemma DistanceShrinks(es: seq<Edge>, fs: seq<Edge>, a: nat, b: nat)
    requires Connected(es, a, b) && forall e :: e in es ==> e in fs
    ensures Connected(fs, a, b) && Distance(fs, a, b) <= Distance(es, a, b)
  {
    var p :| Walk(es, p, a, b) && |p| == Distance(es, a, b) + 1;
    WalkMonotone(es, fs, p, a, b);
  }

  lemma DetourBounds(n: nat, es: seq<Edge>, u: nat, v: nat, i: nat, j: nat)
    requires ConnectedGraph(n, es) && u < n && v < n && i < n && j < n
    ensures Connected(es + [Edge(u, v)], i, j)
    ensures Distance(es + [Edge(u, v)], i, j) <= Distance(es, i, j)
    ensures Distance(es + [Edge(u, v)], i, j) <= Distance(es, i, u) + 1 + Distance(es, v, j)
    ensures Distance(es + [Edge(u, v)], i, j) <= Distance(es, i, v) + 1 + Distance(es, u, j)
  {
    var fs := es + [Edge(u, v)];
    DistanceShrinks(es, fs, i, j);
    DistanceOfEdge(fs, u, v);
    DistanceOfEdge(fs, v, u);
    DistanceShrinks(es, fs, i, u);
    DistanceShrinks(es, fs, v, j);
    DistanceTriangle(fs, i, u, v);
    DistanceTriangle(fs, i, v, j);
    DistanceShrinks(es, fs, i, v);
    DistanceShrinks(es, fs, u, j);
    DistanceTriangle(fs, i, v, u);
    DistanceTriangle(fs, i, u, j);
  }

  /** Across an old edge the shortcut estimate to `j` changes by at most one. */
  lemma LipschitzOldEdge(n: nat, es: seq<Edge>, u: nat, v: nat, j: nat, x: nat, y: nat)
    requires ConnectedGraph(n, es) && u < n && v < n && j < n && x < n && y < n && Adjacent(es, x, y)
    ensures var d := DistanceMatrix(n, es); Shortcut(n, d, u, v, x, j) <= Shortcut(n, d, u, v, y, j) + 1
  {
    DistanceOfEdge(es, x, y);
    DistanceTriangle(es, x, y, j);
    DistanceTriangle(es, x, y, u);
    DistanceTriangle(es, x, y, v);
  }

  /** And so it does across the new edge. */
  lemma LipschitzNewEdge(n: nat, es: seq<Edge>, u: nat, v: nat, j: nat)
    requires ConnectedGraph(n, es) && u < n && v < n && j < n
    ensures var d := DistanceMatrix(n, es);
      && Shortcut(n, d, u, v, u, j) <= Shortcut(n, d, u, v, v, j) + 1
      && Shortcut(n, d, u, v, v, j) <= Shortcut(n, d, u, v, u, j) + 1
  {
    DistanceZero(es, u);
    DistanceZero(es, v);
  }

  /** The shortcut estimate of the distance from `x` to `j`, as a function on all numbers. */
  ghost function Estimate(n: nat, dist: Matrix, u: nat, v: nat, j: nat, x: nat): int
    requires Square(n, dist) && u < n && v < n && j < n
  {
    if x < n then Shortcut(n, dist, u, v, x, j) else 0
  }

  lemma EstimateIsLipschitz(n: nat, es: seq<Edge>, u: nat, v: nat, j: nat, x: nat, y: nat)
    requires ConnectedGraph(n, es) && ValidEdges(n, es) && u < n && v < n && j < n
    requires Adjacent(es + [Edge(u, v)], x, y)
    ensures var d := DistanceMatrix(n, es); Estimate(n, d, u, v, j, x) <= Estimate(n, d, u, v, j, y) + 1
  {
    if Adjacent(es, x, y) {
      LipschitzOldEdge(n, es, u, v, j, x, y);
    } else {
      LipschitzNewEdge(n, es, u, v, j);
    }
  }

  lemma ShortcutBoundsWalk(n: nat, es: seq<Edge>, u: nat, v: nat, p: seq<nat>, i: nat, j: nat)
    requires ConnectedGraph(n, es) && ValidEdges(n, es) && u < n && v < n && i < n && j < n
    requires Walk(es + [Edge(u, v)], p, i, j)
    ensures Estimate(n, DistanceMatrix(n, es), u, v, j, i) <= Estimate(n, DistanceMatrix(n, es), u, v, j, j) + |p| - 1
  {
    var fs, d := es + [Edge(u, v)], DistanceMatrix(n, es);
    var f := (x: nat) => Estimate(n, d, u, v, j, x);
    forall x: nat, y: nat | Adjacent(fs, x, y)
      ensures f(x) <= f(y) + 1
    {
      EstimateIsLipschitz(n, es, u, v, j, x, y);
    }
    PotentialBoundsWalk(fs, f, p, i, j);
  }

  lemma ShortcutIsDistance(n: nat, es: seq<Edge>, u: nat, v: nat, i: nat, j: nat)
    requires ConnectedGraph(n, es) && ValidEdges(n, es) && u < n && v < n && i < n && j < n
    ensures Connected(es + [Edge(u, v)], i, j)
    ensures Shortcut(n, DistanceMatrix(n, es), u, v, i, j) == Distance(es + [Edge(u, v)], i, j)
  {
    var fs := es + [Edge(u, v)];
    DetourBounds(n, es, u, v, i, j);
    var p :| Walk(fs, p, i, j) && |p| == Distance(fs, i, j) + 1;
    ShortcutBoundsWalk(n, es, u, v, p, i, j);
    DistanceZero(es, j);
  }

  /** Rebuilding the metric with the new edge gives exactly the relaxed old matrix. */
  lemma RelaxedIsRebuilt(n: nat, es: seq<Edge>, u: nat, v: nat)
    requires ConnectedGraph(n, es) && ValidEdges(n, es) && u < n && v < n
    ensures ConnectedGraph(n, es + [Edge(u, v)])
    ensures Relaxed(n, DistanceMatrix(n, es), u, v) == DistanceMatrix(n, es + [Edge(u, v)])
  {
    ConnectedGraphMonotone(n, es, es + [Edge(u, v)]);
    var a, b := Relaxed(n, DistanceMatrix(n, es), u, v), DistanceMatrix(n, es + [Edge(u, v)]);
    forall i | 0 <= i < n
      ensures a[i] == b[i]
    {
      forall j | 0 <= j < n
        ensures a[i][j] == b[i][j]
      {
        ShortcutIsDistance(n, es, u, v, i, j);
      }
    }
  }

  // ----- the computation

  method OverlayGain(n: nat, weights: Matrix, dist: Matrix, u: nat, v: nat) returns (gain: int)
    requires Square(n, weights) && Square(n, dist) && u < n && v < n
    ensures gain == Total(n, weights, dist) - Total(n, weights, Relaxed(n, dist, u, v))
  {
    gain := 0;
    ghost var relaxed := Relaxed(n, dist, u, v);
    for i := 0 to n
      invariant gain == TotalUpTo(n, weights, dist, i) - TotalUpTo(n, weights, relaxed, i)
    {
      ghost var above := gain;
      for j := i + 1 to n
        invariant gain == above + RowTotal(weights[i], dist[i], i + 1, j) - RowTotal(weights[i], relaxed[i], i + 1, j)
      {
        var oldDistance := dist[i][j];
        var newDistance := oldDistance;
        if dist[i][u] >= 0 && dist[v][j] >= 0 {
          var candidate := dist[i][u] + 1 + dist[v][j];
          if candidate < newDistance {
            newDistance := candidate;
          }
        }
        if dist[i][v] >= 0 && dist[u][j] >= 0 {
          var candidate := dist[i][v] + 1 + dist[u][j];
          if candidate < newDistance {
            newDistance := candidate;
          }
        }
        assert newDistance == relaxed[i][j];
        if oldDistance > newDistance {
          gain := gain + weights[i][j] * (oldDistance - newDistance);
        }
        Distribute(weights[i][j], oldDistance, newDistance);
      }
    }
  }

  lemma Distribute(w: int, a: int, b: int)
    ensures w * (a - b) == w * a - w * b
  {
  }

  /** The gain scored from the old distances is the true drop after a rebuild. */
  lemma GainIsExact(n: nat, weights: Matrix, es: seq<Edge>, u: nat, v: nat)
    requires Square(n, weights) && ConnectedGraph(n, es) && ValidEdges(n, es) && u < n && v < n
    ensures Total(n, weights, DistanceMatrix(n, es)) - Total(n, weights, Relaxed(n, DistanceMatrix(n, es), u, v))
      == Gain(n, weights, es, Edge(u, v))
  {
    RelaxedIsRebuilt(n, es, u, v);
  }
}
