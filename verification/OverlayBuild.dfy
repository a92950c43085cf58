/**
 `BuildOverlayWithMode`, `BuildBinaryTreeOverlay` and `NewCompleteOverlay` of pcn/overlay.go: the
 spanning tree, then one edge per round, the one that shortens the weighted distances most.
 */
module OverlayBuild {
  import opened Graphs
  import opened OverlayGain
  import opened ShortestPaths
  import opened SpanningTree

  datatype Mode = Full | TreeOnly | BinaryTree | Other(code: int)

  /** The key under which an edge is remembered, whatever the order of its ends. */
  function EdgeKey(u: nat, v: nat): Edge {
    if u > v then Edge(v, u) else Edge(u, v)
  }

  /** The code's tie-break; the edge (0, 0) stands for "none chosen yet". */
  predicate LessEdge(u1: nat, v1: nat, u2: nat, v2: nat) {
    if u2 == 0 && v2 == 0 then true else if u1 != u2 then u1 < u2 else v1 < v2
  }

  predicate Before(a: Edge, b: Edge) {
    a.u < b.u || (a.u == b.u && a.v < b.v)
  }

  // ----- what one round may and should choose

  /** An absent edge both of whose ends have a free slot. */
  ghost predicate Candidate(limits: seq<int>, es: seq<Edge>, e: Edge) {
    e.u < e.v < |limits| && e !in es && HasRoom(es, limits, e.u, e.v)
  }

  /** `e` has the largest true gain, that gain is positive, and `e` comes first among equals. */
  ghost predicate GreedyChoice(weights: Matrix, limits: seq<int>, es: seq<Edge>, e: Edge) {
    var n := |limits|;
    && Square(n, weights) && ConnectedGraph(n, es)
    && Candidate(limits, es, e) && Gain(n, weights, es, e) > 0
    && forall c :: Candidate(limits, es, c) ==>
         || Gain(n, weights, es, c) < Gain(n, weights, es, e)
         || (Gain(n, weights, es, c) == Gain(n, weights, es, e) && (c == e || Before(e, c)))
  }

  /** No single further edge within the limits would shorten the total weighted distance. */
  ghost predicate NoImprovement(weights: Matrix, limits: seq<int>, es: seq<Edge>) {
    var n := |limits|;
    && Square(n, weights) && ConnectedGraph(n, es)
    && forall c :: Candidate(limits, es, c) ==> Gain(n, weights, es, c) <= 0
  }

  /** Edge number `k` was the greedy choice for the edges before it. */
  ghost predicate GreedyAt(weights: Matrix, limits: seq<int>, es: seq<Edge>, k: nat) {
    k < |es| && GreedyChoice(weights, limits, es[..k], es[k])
  }

  /** From edge number `start` on, each edge was the greedy choice for the edges before it. */
  ghost predicate GreedyFrom(weights: Matrix, limits: seq<int>, es: seq<Edge>, start: nat) {
    && start <= |es|
    && forall k: nat {:trigger GreedyAt(weights, limits, es, k)} :: start <= k < |es| ==> GreedyAt(weights, limits, es, k)
  }

  /** The whole full-mode run, read off its result. */
  ghost predicate FullBuild(weights: Matrix, limits: seq<int>, es: seq<Edge>) {
    var n := |limits|;
    && n > 0 && Square(n, weights) && |es| >= n - 1
    && PairsBelow(n, SortedPairs(n, weights))
    && es[..n - 1] == KruskalTree(SortedPairs(n, weights), limits, |SortedPairs(n, weights)|)
    && TreeLaw(weights, limits, es[..n - 1])
    && GreedyFrom(weights, limits, es, n - 1)
    && NoImprovement(weights, limits, es)
  }

  /** Best edge among the first `k` pairs, as the scan's two variables record it. */
  ghost predicate BestSoFar(weights: Matrix, limits: seq<int>, es: seq<Edge>, pairs: seq<WeightedPair>, k: nat,
                            bestGain: int, bestEdge: Edge)
    requires k <= |pairs| && Square(|limits|, weights) && ConnectedGraph(|limits|, es)
  {
    && 0 <= bestGain
    && (bestGain > 0 ==> Candidate(limits, es, bestEdge) && Gain(|limits|, weights, es, bestEdge) == bestGain)
    && forall m :: 0 <= m < k ==>
         var c := Edge(pairs[m].u, pairs[m].v);
         Candidate(limits, es, c) ==>
           || Gain(|limits|, weights, es, c) < bestGain
           || (Gain(|limits|, weights, es, c) == bestGain && (bestGain == 0 || c == bestEdge || Before(bestEdge, c)))
  }

  lemma PassOver(weights: Matrix, limits: seq<int>, es: seq<Edge>, pairs: seq<WeightedPair>, k: nat, bestGain: int, bestEdge: Edge)
    requires k < |pairs| && Square(|limits|, weights) && ConnectedGraph(|limits|, es)
    requires BestSoFar(weights, limits, es, pairs, k, bestGain, bestEdge)
    requires !Candidate(limits, es, Edge(pairs[k].u, pairs[k].v))
    ensures BestSoFar(weights, limits, es, pairs, k + 1, bestGain, bestEdge)
  {
  }

  lemma Score(weights: Matrix, limits: seq<int>, es: seq<Edge>, pairs: seq<WeightedPair>, k: nat, bestGain: int, bestEdge: Edge)
    requires k < |pairs| && Square(|limits|, weights) && ConnectedGraph(|limits|, es)
    requires BestSoFar(weights, limits, es, pairs, k, bestGain, bestEdge)
    requires Candidate(limits, es, Edge(pairs[k].u, pairs[k].v))
    ensures var c := Edge(pairs[k].u, pairs[k].v);
      var gain := Gain(|limits|, weights, es, c);
      if gain > bestGain || (gain == bestGain && gain > 0 && LessEdge(c.u, c.v, bestEdge.u, bestEdge.v))
      then BestSoFar(weights, limits, es, pairs, k + 1, gain, c)
      else BestSoFar(weights, limits, es, pairs, k + 1, bestGain, bestEdge)
  {
  }

  method ChooseEdge(weights: Matrix, limits: seq<int>, pairs: seq<WeightedPair>, edgeExists: set<Edge>,
                    degrees: seq<int>, overlay: Overlay)
      returns (bestGain: int, bestEdge: Edge)
    requires Square(|limits|, weights) && pairs == SortedPairs(|limits|, weights) && PairsBelow(|limits|, pairs)
    requires OverlayOf(overlay, |limits|, overlay.edges) && SimpleWithin(limits, overlay.edges)
    requires forall e :: e in edgeExists <==> e in overlay.edges
    requires |degrees| == |limits| && forall x: nat :: x < |limits| ==> degrees[x] == Degree(overlay.edges, x)
    ensures bestGain <= 0 ==> NoImprovement(weights, limits, overlay.edges)
    ensures bestGain > 0 ==> GreedyChoice(weights, limits, overlay.edges, bestEdge)
    ensures bestGain > 0 ==> bestGain == Gain(|limits|, weights, overlay.edges, bestEdge)
  {
    ghost var es := overlay.edges;
    bestGain := 0;
    bestEdge := Edge(0, 0);
    for k := 0 to |pairs|
      invariant BestSoFar(weights, limits, es, pairs, k, bestGain, bestEdge)
    {
      var pair := pairs[k];
      assert pair in pairs;
      var key := EdgeKey(pair.u, pair.v);
      if key in edgeExists || degrees[pair.u] >= limits[pair.u] || degrees[pair.v] >= limits[pair.v] {
        PassOver(weights, limits, es, pairs, k, bestGain, bestEdge);
      } else {
        var gain := OverlayGain.OverlayGain(|limits|, weights, overlay.dist, pair.u, pair.v);
        GainIsExact(|limits|, weights, es, pair.u, pair.v);
        Score(weights, limits, es, pairs, k, bestGain, bestEdge);
        if gain > bestGain || (gain == bestGain && gain > 0 && LessEdge(pair.u, pair.v, bestEdge.u, bestEdge.v)) {
          bestGain := gain;
          bestEdge := Edge(pair.u, pair.v);
        }
      }
    }
    ScanIsComplete(weights, limits, es, pairs, bestGain, bestEdge);
  }

  lemma ScanIsComplete(weights: Matrix, limits: seq<int>, es: seq<Edge>, pairs: seq<WeightedPair>, bestGain: int, bestEdge: Edge)
    requires Square(|limits|, weights) && pairs == SortedPairs(|limits|, weights) && ConnectedGraph(|limits|, es)
    requires BestSoFar(weights, limits, es, pairs, |pairs|, bestGain, bestEdge)
    ensures bestGain <= 0 ==> NoImprovement(weights, limits, es)
    ensures bestGain > 0 ==> GreedyChoice(weights, limits, es, bestEdge)
  {
    SortedPairsAre(|limits|, weights);
    forall c | Candidate(limits, es, c)
      ensures
        || Gain(|limits|, weights, es, c) < bestGain
        || (Gain(|limits|, weights, es, c) == bestGain && (bestGain == 0 || c == bestEdge || Before(bestEdge, c)))
    {
      var p := WeightedPair(c.u, c.v, weights[c.u][c.v]);
      assert p in pairs;
      var m :| 0 <= m < |pairs| && pairs[m] == p;
    }
  }

  ghost function PairEdges(pairs: seq<WeightedPair>): set<Edge> {
    set p | p in pairs :: Edge(p.u, p.v)
  }

  lemma GreedyGrows(weights: Matrix, limits: seq<int>, es: seq<Edge>, start: nat, e: Edge)
    requires GreedyFrom(weights, limits, es, start) && GreedyChoice(weights, limits, es, e)
    ensures GreedyFrom(weights, limits, es + [e], start)
  {
    var fs := es + [e];
    forall k: nat | start <= k < |fs|
      ensures GreedyAt(weights, limits, fs, k)
    {
      if k < |es| {
        assert GreedyAt(weights, limits, es, k);
        assert fs[..k] == es[..k];
      } else {
        assert fs[..k] == es;
      }
    }
  }

  /** The state between rounds: what the edge list, the key set and the degree counters mean. */
  ghost predicate Rounds(weights: Matrix, limits: seq<int>, tree: seq<Edge>, edges: seq<Edge>, edgeExists: set<Edge>, degrees: seq<int>) {
    && SimpleWithin(limits, edges) && ConnectedGraph(|limits|, edges)
    && tree <= edges && GreedyFrom(weights, limits, edges, |tree|)
    && (forall e :: e in edgeExists <==> e in edges)
    && |degrees| == |limits| && forall x: nat :: x < |limits| ==> degrees[x] == Degree(edges, x)
  }

  lemma NextRound(weights: Matrix, limits: seq<int>, tree: seq<Edge>, edges: seq<Edge>, edgeExists: set<Edge>, degrees: seq<int>, e: Edge)
    requires Rounds(weights, limits, tree, edges, edgeExists, degrees) && GreedyChoice(weights, limits, edges, e)
    ensures ValidEdges(|limits|, edges + [e])
    ensures Rounds(weights, limits, tree, edges + [e], edgeExists + {EdgeKey(e.u, e.v)},
                   degrees[e.u := degrees[e.u] + 1][e.v := degrees[e.v] + 1])
  {
    GreedyGrows(weights, limits, edges, |tree|, e);
    ConnectedGraphMonotone(|limits|, edges, edges + [e]);
    forall x: nat | x < |limits|
      ensures degrees[e.u := degrees[e.u] + 1][e.v := degrees[e.v] + 1][x] == Degree(edges + [e], x)
    {
    }
  }

  method RememberEdges(edges: seq<Edge>) returns (edgeExists: set<Edge>)
    requires forall e :: e in edges ==> e.u < e.v
    ensures forall e :: e in edgeExists <==> e in edges
  {
    edgeExists := {};
    for k := 0 to |edges|
      invariant forall e :: e in edgeExists <==> e in edges[..k]
    {
      assert edges[k] in edges;
      edgeExists := edgeExists + {EdgeKey(edges[k].u, edges[k].v)};
    }
    assert edges[..|edges|] == edges;
  }

  /** The rounds: until no candidate improves, add the greedy choice and rebuild. */
  method Augment(weights: Matrix, limits: seq<int>, pairs: seq<WeightedPair>, tree: Overlay, treeDegrees: seq<int>)
      returns (r: OverlayResult)
    requires Square(|limits|, weights) && pairs == SortedPairs(|limits|, weights) && PairsBelow(|limits|, pairs)
    requires OverlayOf(tree, |limits|, tree.edges) && SimpleWithin(limits, tree.edges)
    requires |treeDegrees| == |limits| && forall x: nat :: x < |limits| ==> treeDegrees[x] == Degree(tree.edges, x)
    ensures r.Built? && OverlayOf(r.overlay, |limits|, r.overlay.edges) && SimpleWithin(limits, r.overlay.edges)
    ensures tree.edges <= r.overlay.edges
    ensures GreedyFrom(weights, limits, r.overlay.edges, |tree.edges|)
    ensures NoImprovement(weights, limits, r.overlay.edges)
  {
    var n := |limits|;
    var overlay, degrees, edges := tree, treeDegrees, tree.edges;
    var edgeExists := RememberEdges(edges);
    while true
      invariant OverlayOf(overlay, n, edges)
      invariant Rounds(weights, limits, tree.edges, edges, edgeExists, degrees)
      decreases PairEdges(pairs) - edgeExists
    {
      var bestGain, bestEdge := ChooseEdge(weights, limits, pairs, edgeExists, degrees, overlay);
      if bestGain <= 0 {
        break;
      }
      NextRound(weights, limits, tree.edges, edges, edgeExists, degrees, bestEdge);
      InPairs(weights, limits, pairs, bestEdge);
      edges := edges + [bestEdge];
      edgeExists := edgeExists + {EdgeKey(bestEdge.u, bestEdge.v)};
      degrees := degrees[bestEdge.u := degrees[bestEdge.u] + 1];
      degrees := degrees[bestEdge.v := degrees[bestEdge.v] + 1];
      var rebuilt := NewOverlay(n, edges);
      if rebuilt.Failed? {
        return rebuilt;
      }
      overlay := rebuilt.overlay;
    }
    r := Built(overlay);
  }

  lemma InPairs(weights: Matrix, limits: seq<int>, pairs: seq<WeightedPair>, e: Edge)
    requires Square(|limits|, weights) && pairs == SortedPairs(|limits|, weights) && e.u < e.v < |limits|
    ensures e in PairEdges(pairs)
  {
    SortedPairsAre(|limits|, weights);
    assert WeightedPair(e.u, e.v, weights[e.u][e.v]) in pairs;
  }

  // ----- the entry point

  /** Everything the builder checks before and while it connects the shards. */
  predicate Buildable(weights: Matrix, limits: seq<int>) {
    && |limits| > 0
    && Square(|limits|, weights)
    && LimitsSuffice(limits)
  }

  /** Row `i` is the first to fail a check, and `error` names the check. */
  predicate FirstFault(weights: Matrix, limits: seq<int>, i: nat, error: OverlayError) {
    var n := |limits|;
    && i < n <= |weights|
    && (forall k :: 0 <= k < i ==> |weights[k]| >= n && (n > 2 ==> limits[k] >= 2))
    && (if |weights[i]| < n then error == WeightRowTooSmall else n > 2 && limits[i] < 2 && error == DegreeLimitTooSmall)
  }

  /** Every check passes. */
  predicate Checked(weights: Matrix, limits: seq<int>) {
    Square(|limits|, weights) && (|limits| > 2 ==> LimitsSuffice(limits))
  }

  method CheckInputs(weights: Matrix, limits: seq<int>) returns (error: OverlayError, ok: bool)
    ensures ok <==> Checked(weights, limits)
    ensures !ok ==> (error == WeightsTooSmall <==> |weights| < |limits|)
    ensures !ok && |limits| <= |weights| ==> exists i :: FirstFault(weights, limits, i, error)
  {
    var n := |limits|;
    error := WeightsTooSmall;
    if |weights| < n {
      return error, false;
    }
    for i := 0 to n
      invariant forall k :: 0 <= k < i ==> |weights[k]| >= n && (n > 2 ==> limits[k] >= 2)
    {
      assert |weights[i]| < n ==> FirstFault(weights, limits, i, WeightRowTooSmall);
      if |weights[i]| < n {
        return WeightRowTooSmall, false;
      }
      if limits[i] < 2 && n > 2 {
        assert FirstFault(weights, limits, i, DegreeLimitTooSmall);
        return DegreeLimitTooSmall, false;
      }
    }
    ok := true;
  }

  /**
   Succeeds exactly on inputs that pass its checks; "could not connect" needs two shards one of which
   admits no edge. A tree has `n - 1` edges; a full build is the greedy run above and cannot be improved
   by one more edge. With more rows of weights than limits the original lists pairs of shards that do not exist,
   and stops when it looks at one.
   */
  method BuildOverlayWithMode(weights: Matrix, limits: seq<int>, mode: Mode) returns (r: OverlayResult)
    requires mode.BinaryTree? || |weights| <= |limits|
    ensures r == Failed(NoShards) <==> |limits| == 0
    ensures mode.Full? || mode.TreeOnly? ==> (r.Built? <==> Buildable(weights, limits))
    ensures mode.BinaryTree? ==> (r.Built? <==> |limits| > 0)
    ensures r == Failed(UnknownMode) <==> mode.Other? && Buildable(weights, limits)
    ensures mode.Other? ==> r.Failed?
    ensures r == Failed(WeightsTooSmall) <==> !mode.BinaryTree? && |weights| < |limits|
    ensures r == Failed(CouldNotConnect) <==>
      !mode.BinaryTree? && |limits| == 2 && Square(2, weights) && (limits[0] < 1 || limits[1] < 1)
    ensures !mode.BinaryTree? && 0 < |limits| <= |weights| && !Checked(weights, limits) ==>
      r.Failed? && exists i :: FirstFault(weights, limits, i, r.error)
    ensures r == Failed(WeightRowTooSmall) || r == Failed(DegreeLimitTooSmall) ==> !Checked(weights, limits)
    ensures r != Failed(Disconnected) && r != Failed(InvalidEdge)
    ensures r.Built? ==> OverlayOf(r.overlay, |limits|, r.overlay.edges)
    ensures r.Built? && !mode.BinaryTree? ==> SimpleWithin(limits, r.overlay.edges)
    ensures r.Built? && mode.TreeOnly? ==>
      && |r.overlay.edges| == |limits| - 1 && TreeLaw(weights, limits, r.overlay.edges)
      && PairsBelow(|limits|, SortedPairs(|limits|, weights))
      && r.overlay.edges == KruskalTree(SortedPairs(|limits|, weights), limits, |SortedPairs(|limits|, weights)|)
    ensures r.Built? && mode.Full? ==> FullBuild(weights, limits, r.overlay.edges)
    ensures r.Built? && mode.BinaryTree? ==> r.overlay.edges == HeapEdges(|limits|)
  {
    var n := |limits|;
    if n == 0 {
      return Failed(NoShards);
    }
    if mode.BinaryTree? {
      r := BuildBinaryTreeOverlay(n);
      return;
    }
    var error, ok := CheckInputs(weights, limits);
    if !ok {
      return Failed(error);
    }
    var pairs := SortedWeightedPairs(n, weights);
    SortedPairsAre(n, weights);
    var connected, edges, degrees := BuildSpanningTree(pairs, limits, weights);
    if !connected {
      return Failed(CouldNotConnect);
    }
    r := NewOverlay(n, edges);
    if r.Failed? {
      return;
    }
    if mode.TreeOnly? {
      return;
    }
    if !mode.Full? {
      return Failed(UnknownMode);
    }
    r := Augment(weights, limits, pairs, r.overlay, degrees);
    assert r.overlay.edges[..n - 1] == edges;
  }

  /** Two shards of which one may have no channel: the inputs pass the checks, and the tree cannot be built. */
  method TwoShardsWithoutRoom() returns (r: OverlayResult)
    ensures r == Failed(CouldNotConnect)
  {
    var weights: Matrix := [[0, 0], [0, 0]];
    r := BuildOverlayWithMode(weights, [0, 1], TreeOnly);
  }

  // ----- the binary tree

  /** Shard `sid` hangs below `(sid - 1) / 2`. */
  function HeapEdges(n: nat): seq<Edge> {
    if n <= 1 then [] else HeapEdges(n - 1) + [Edge((n - 2) / 2, n - 1)]
  }

  function Depth(x: nat): nat {
    if x == 0 then 0 else 1 + Depth((x - 1) / 2)
  }

  function FloorLog2(m: nat): nat {
    if m <= 1 then 0 else 1 + FloorLog2(m / 2)
  }

  lemma {:induction false} DepthIsLog(x: nat)
    ensures Depth(x) == FloorLog2(x + 1)
  {
    if x > 0 {
      DepthIsLog((x - 1) / 2);
      assert (x - 1) / 2 + 1 == (x + 1) / 2;
    }
  }

  lemma {:induction false} LogMonotone(a: nat, b: nat)
    requires a <= b
    ensures FloorLog2(a) <= FloorLog2(b)
  {
    if a > 1 {
      LogMonotone(a / 2, b / 2);
    }
  }

  lemma {:induction false} HeapEdgesAre(n: nat)
    ensures |HeapEdges(n)| == if n == 0 then 0 else n - 1
    ensures forall e :: e in HeapEdges(n) <==> 0 < e.v < n && e.u == (e.v - 1) / 2
    ensures ValidEdges(n, HeapEdges(n))
  {
    if n > 1 {
      HeapEdgesAre(n - 1);
    }
  }

  /** One edge up, at most two down. */
  lemma {:induction false} HeapDegree(n: nat, x: nat)
    ensures Degree(HeapEdges(n), x)
      == (if 0 < x < n then 1 else 0) + (if 2 * x + 1 < n then 1 else 0) + (if 2 * x + 2 < n then 1 else 0)
  {
    if n > 1 {
      HeapDegree(n - 1, x);
    }
  }

  lemma {:induction false} ClimbToRoot(n: nat, x: nat)
    requires x < n
    ensures Connected(HeapEdges(n), x, 0) && Distance(HeapEdges(n), x, 0) <= Depth(x)
    ensures Connected(HeapEdges(n), 0, x) && Distance(HeapEdges(n), 0, x) <= Depth(x)
  {
    var es := HeapEdges(n);
    if x == 0 {
      DistanceZero(es, 0);
    } else {
      var up := (x - 1) / 2;
      HeapEdgesAre(n);
      assert Edge(up, x) in es;
      ClimbToRoot(n, up);
      DistanceOfEdge(es, x, up);
      DistanceOfEdge(es, up, x);
      DistanceTriangle(es, x, up, 0);
      DistanceTriangle(es, 0, up, x);
    }
  }

  /** The tree connects all shards, and no two are further apart than twice its height. */
  lemma HeapDistances(n: nat, a: nat, b: nat)
    requires a < n && b < n
    ensures Connected(HeapEdges(n), a, b) && Distance(HeapEdges(n), a, b) <= 2 * FloorLog2(n)
  {
    ClimbToRoot(n, a);
    ClimbToRoot(n, b);
    DistanceTriangle(HeapEdges(n), a, 0, b);
    DepthBounded(n, a);
    DepthBounded(n, b);
  }

  lemma DepthBounded(n: nat, x: nat)
    requires x < n
    ensures Depth(x) <= FloorLog2(n)
  {
    DepthIsLog(x);
    LogMonotone(x + 1, n);
  }

  method BuildBinaryTreeOverlay(shardNum: int) returns (r: OverlayResult)
    ensures r == Failed(NoShards) <==> shardNum <= 0
    ensures r.Built? <==> shardNum > 0
    ensures r.Built? ==> OverlayOf(r.overlay, shardNum, r.overlay.edges) && r.overlay.edges == HeapEdges(shardNum)
    ensures r.Built? ==> |r.overlay.edges| == shardNum - 1
    ensures r.Built? ==> forall x: nat :: Degree(r.overlay.edges, x) <= 3
    ensures r.Built? ==> forall a: nat, b: nat :: a < shardNum && b < shardNum ==>
      1 <= |r.overlay.routes[a][b]| <= 2 * FloorLog2(shardNum) + 1
  {
    if shardNum <= 0 {
      return Failed(NoShards);
    }
    var edges := [];
    for sid := 1 to shardNum
      invariant edges == HeapEdges(sid)
    {
      edges := edges + [Edge((sid - 1) / 2, sid)];
    }
    HeapEdgesAre(shardNum);
    forall x: nat
      ensures Degree(edges, x) <= 3
    {
      HeapDegree(shardNum, x);
    }
    forall a: nat, b: nat | a < shardNum && b < shardNum
      ensures Connected(edges, a, b) && Distance(edges, a, b) <= 2 * FloorLog2(shardNum)
    {
      HeapDistances(shardNum, a, b);
    }
    r := NewOverlay(shardNum, edges);
    assert r.Built? ==> forall a: nat, b: nat :: a < shardNum && b < shardNum ==>
      ShortestRoute(edges, r.overlay.routes[a][b], a, b);
  }

  // ----- the complete overlay

  /** Every pair of shards is linked, so every route is direct. */
  method NewCompleteOverlay(shardNum: nat) returns (o: Overlay)
    ensures OverlayOf(o, shardNum, o.edges)
    ensures forall e :: e in o.edges <==> e.u < e.v < shardNum
    ensures forall a: nat, b: nat :: a < shardNum && b < shardNum && a != b ==> o.routes[a][b] == [a, b]
  {
    var edges: seq<Edge> := [];
    for i := 0 to shardNum
      invariant forall e :: e in edges <==> e.u < i && e.u < e.v < shardNum
    {
      for j := i + 1 to shardNum
        invariant forall e :: e in edges <==> e.u <= i && e.u < e.v < shardNum && (e.u == i ==> e.v < j)
      {
        edges := edges + [Edge(i, j)];
      }
    }
    forall a: nat, b: nat | a < shardNum && b < shardNum
      ensures Connected(edges, a, b) && Distance(edges, a, b) <= 1
      ensures a != b ==> Distance(edges, a, b) == 1
    {
      if a == b {
        DistanceZero(edges, a);
      } else {
        assert Edge(a, b) in edges || Edge(b, a) in edges;
        DistanceOfEdge(edges, a, b);
        assert forall p :: Walk(edges, p, a, b) ==> |p| >= 2;
      }
    }
    var r := NewOverlay(shardNum, edges);
    o := r.overlay;
    forall a: nat, b: nat | a < shardNum && b < shardNum && a != b
      ensures o.routes[a][b] == [a, b]
    {
      assert ShortestRoute(edges, o.routes[a][b], a, b);
    }
  }
}
