/**
 The degree-constrained Kruskal pass of `BuildOverlayWithMode` (pcn/overlay.go): pairs by falling
 weight, an edge taken when it joins two components and both ends have a free slot.
 */
module SpanningTree {
  import opened Graphs
  import opened UnionFind
  import opened Sums
  import opened Sorting
  import opened OverlayGain

  datatype WeightedPair = WeightedPair(u: nat, v: nat, w: int)

  /** Heavier first; ties by first end, then by second. */
  predicate PairLess(a: WeightedPair, b: WeightedPair) {
    if a.w != b.w then a.w > b.w else if a.u != b.u then a.u < b.u else a.v < b.v
  }

  function RowPairs(weights: Matrix, i: nat, hi: nat): seq<WeightedPair>
    requires i < |weights| && hi <= |weights[i]|
  {
    if hi <= i + 1 then [] else RowPairs(weights, i, hi - 1) + [WeightedPair(i, hi - 1, weights[i][hi - 1])]
  }

  function PairsUpTo(n: nat, weights: Matrix, rows: nat): seq<WeightedPair>
    requires Square(n, weights) && rows <= n
  {
    if rows == 0 then [] else PairsUpTo(n, weights, rows - 1) + RowPairs(weights, rows - 1, n)
  }

  function SortedPairs(n: nat, weights: Matrix): seq<WeightedPair>
    requires Square(n, weights)
  {
    Sort(PairLess, PairsUpTo(n, weights, n))
  }

  lemma {:induction false} RowPairsAre(weights: Matrix, i: nat, hi: nat)
    requires i < |weights| && hi <= |weights[i]|
    ensures forall p :: p in RowPairs(weights, i, hi) <==> p.u == i && i < p.v < hi && p.w == weights[i][p.v]
  {
    if hi > i + 1 {
      RowPairsAre(weights, i, hi - 1);
    }
  }

  lemma {:induction false} PairsUpToAre(n: nat, weights: Matrix, rows: nat)
    requires Square(n, weights) && rows <= n
    ensures forall p :: p in PairsUpTo(n, weights, rows) <==> p.u < rows && p.u < p.v < n && p.w == weights[p.u][p.v]
  {
    if rows > 0 {
      PairsUpToAre(n, weights, rows - 1);
      RowPairsAre(weights, rows - 1, n);
    }
  }

  lemma {:induction false} RowPairsDiffer(weights: Matrix, i: nat, hi: nat)
    requires i < |weights| && hi <= |weights[i]|
    ensures Distinct(RowPairs(weights, i, hi))
  {
    if hi > i + 1 {
      RowPairsDiffer(weights, i, hi - 1);
      RowPairsAre(weights, i, hi - 1);
    }
  }

  lemma DifferentRows(above: seq<WeightedPair>, row: seq<WeightedPair>, i: nat)
    requires Distinct(above) && forall p :: p in above ==> p.u < i
    requires Distinct(row) && forall p :: p in row ==> p.u == i
    ensures Distinct(above + row)
  {
    forall k, m | 0 <= k < |above| && 0 <= m < |row|
      ensures above[k] != row[m]
    {
      assert above[k] in above && row[m] in row;
    }
    DifferentConcat(above, row);
  }

  /** Pairs of earlier rows and of one row. */
  lemma RowsDiffer(n: nat, weights: Matrix, i: nat, above: seq<WeightedPair>, row: seq<WeightedPair>)
    requires Square(n, weights) && i < n && above == PairsUpTo(n, weights, i) && row == RowPairs(weights, i, n) && Distinct(above)
    ensures Distinct(above + row)
  {
    RowPairsDiffer(weights, i, n);
    PairsUpToAre(n, weights, i);
    RowPairsAre(weights, i, n);
    DifferentRows(above, row, i);
  }

  lemma {:induction false} PairsDiffer(n: nat, weights: Matrix, rows: nat)
    requires Square(n, weights) && rows <= n
    ensures Distinct(PairsUpTo(n, weights, rows))
  {
    if rows > 0 {
      PairsDiffer(n, weights, rows - 1);
      RowsDiffer(n, weights, rows - 1, PairsUpTo(n, weights, rows - 1), RowPairs(weights, rows - 1, n));
    }
  }

  /** The list holds every pair `u < v` exactly once, weighted by the matrix, heaviest first. */
  lemma SortedPairsAre(n: nat, weights: Matrix)
    requires Square(n, weights)
    ensures Sorted(PairLess, SortedPairs(n, weights)) && Distinct(SortedPairs(n, weights))
    ensures forall p :: p in SortedPairs(n, weights) <==> p.u < p.v < n && p.w == weights[p.u][p.v]
  {
    PairsUpToAre(n, weights, n);
    PairsDiffer(n, weights, n);
    SortDiffers(PairLess, PairsUpTo(n, weights, n));
    SameElements(PairLess, PairsUpTo(n, weights, n));
    SortSorts(PairLess, PairsUpTo(n, weights, n));
  }

  method SortedWeightedPairs(n: nat, weights: Matrix) returns (pairs: seq<WeightedPair>)
    requires Square(n, weights)
    ensures pairs == SortedPairs(n, weights)
    ensures Falling(pairs)
  {
    pairs := [];
    for i := 0 to n
      invariant pairs == PairsUpTo(n, weights, i)
    {
      for j := i + 1 to n
        invariant pairs == PairsUpTo(n, weights, i) + RowPairs(weights, i, j)
      {
        pairs := pairs + [WeightedPair(i, j, weights[i][j])];
      }
    }
    pairs := Sort(PairLess, pairs);
    SortedFalls(n, weights);
  }

  /** Weights never rise along the list, and equal ones stand in the order of their ends. */
  ghost predicate Falling(pairs: seq<WeightedPair>) {
    forall i, j :: 0 <= i < j < |pairs| ==>
      || pairs[i].w > pairs[j].w
      || (pairs[i].w == pairs[j].w && (pairs[i].u < pairs[j].u || (pairs[i].u == pairs[j].u && pairs[i].v < pairs[j].v)))
  }

  lemma SortedFalls(n: nat, weights: Matrix)
    requires Square(n, weights)
    ensures Falling(SortedPairs(n, weights))
  {
    SortedIsRanked(n, weights);
  }

  // ----- the greedy rule, as a function of the pair list

  predicate PairsBelow(n: nat, pairs: seq<WeightedPair>) {
    forall p :: p in pairs ==> p.u < p.v < n
  }

  predicate HasRoom(es: seq<Edge>, limits: seq<int>, a: nat, b: nat)
    requires a < |limits| && b < |limits|
  {
    Degree(es, a) < limits[a] && Degree(es, b) < limits[b]
  }

  /** The edges taken among the first `k` pairs. */
  ghost function KruskalTree(pairs: seq<WeightedPair>, limits: seq<int>, k: nat): seq<Edge>
    requires k <= |pairs| && PairsBelow(|limits|, pairs)
  {
    if k == 0 then []
    else
      var es, p := KruskalTree(pairs, limits, k - 1), pairs[k - 1];
      if Connected(es, p.u, p.v) || !HasRoom(es, limits, p.u, p.v) then es else es + [Edge(p.u, p.v)]
  }

  /** Distinct edges with ordered ends, within the limits (a limit below zero admits no edge at all). */
  ghost predicate SimpleWithin(limits: seq<int>, es: seq<Edge>) {
    && (forall e :: e in es ==> e.u < e.v < |limits|)
    && (forall i, j :: 0 <= i < j < |es| ==> es[i] != es[j])
    && (forall x: nat {:trigger Degree(es, x)} :: x < |limits| ==> Degree(es, x) == 0 || Degree(es, x) <= limits[x])
  }

  // ----- what the greedy rule builds, in terms of weights and limits alone

  /** The edge comes before the pair: it is heavier, or as heavy and first by its ends. */
  predicate Outranks(weights: Matrix, e: Edge, a: nat, b: nat)
    requires e.u < |weights| && e.v < |weights[e.u]| && a < |weights| && b < |weights[a]|
  {
    || weights[e.u][e.v] > weights[a][b]
    || (weights[e.u][e.v] == weights[a][b] && (e.u < a || (e.u == a && e.v < b)))
  }

  predicate EdgesBelow(n: nat, es: seq<Edge>) {
    forall i :: 0 <= i < |es| ==> es[i].u < es[i].v < n
  }

  /** The edges that come before the pair. */
  ghost function Ahead(n: nat, weights: Matrix, es: seq<Edge>, a: nat, b: nat): seq<Edge>
    requires Square(n, weights) && EdgesBelow(n, es) && a < n && b < n
  {
    if es == [] then []
    else
      var before, e := Ahead(n, weights, es[..|es| - 1], a, b), es[|es| - 1];
      if Outranks(weights, e, a, b) then before + [e] else before
  }

  /**
   A pair is an edge exactly if the edges that come before it do not join its ends and leave both a free slot.
   */
  ghost predicate LawAt(weights: Matrix, limits: seq<int>, es: seq<Edge>, a: nat, b: nat)
    requires Square(|limits|, weights) && EdgesBelow(|limits|, es) && a < b < |limits|
  {
    Edge(a, b) in es <==> !Settled(Ahead(|limits|, weights, es, a, b), limits, a, b)
  }

  ghost predicate TreeLaw(weights: Matrix, limits: seq<int>, es: seq<Edge>) {
    && Square(|limits|, weights) && EdgesBelow(|limits|, es)
    && (forall a: nat, b: nat {:trigger LawAt(weights, limits, es, a, b)} :: a < b < |limits| ==> LawAt(weights, limits, es, a, b))
    && (forall i, j :: 0 <= i < j < |es| ==> Outranks(weights, es[i], es[j].u, es[j].v))
  }

  /** All pairs, each before those it outranks. */
  ghost predicate Ranked(n: nat, weights: Matrix, pairs: seq<WeightedPair>) {
    && Square(n, weights) && PairsBelow(n, pairs)
    && (forall i :: 0 <= i < |pairs| ==> pairs[i].u < pairs[i].v < n && pairs[i].w == weights[pairs[i].u][pairs[i].v])
    && (forall i, j :: 0 <= i < j < |pairs| ==> Outranks(weights, Edge(pairs[i].u, pairs[i].v), pairs[j].u, pairs[j].v))
  }

  lemma SortedIsRanked(n: nat, weights: Matrix)
    requires Square(n, weights)
    ensures Ranked(n, weights, SortedPairs(n, weights))
  {
    var pairs := SortedPairs(n, weights);
    SortedPairsAre(n, weights);
    forall i | 0 <= i < |pairs|
      ensures pairs[i].u < pairs[i].v < n && pairs[i].w == weights[pairs[i].u][pairs[i].v]
    {
      assert pairs[i] in pairs;
    }
    forall i, j | 0 <= i < j < |pairs|
      ensures Outranks(weights, Edge(pairs[i].u, pairs[i].v), pairs[j].u, pairs[j].v)
    {
      assert !PairLess(pairs[j], pairs[i]) && pairs[i] != pairs[j];
    }
  }

  /** Edges of the rule come from earlier pairs, the heavier first. */
  lemma {:induction false} TreeEdges(n: nat, weights: Matrix, pairs: seq<WeightedPair>, limits: seq<int>, k: nat)
    requires n == |limits| && Ranked(n, weights, pairs) && k <= |pairs|
    ensures EdgesBelow(n, KruskalTree(pairs, limits, k))
    ensures forall e :: e in KruskalTree(pairs, limits, k) ==> exists m :: 0 <= m < k && e == Edge(pairs[m].u, pairs[m].v)
  {
    if k > 0 {
      TreeEdges(n, weights, pairs, limits, k - 1);
    }
  }

  lemma {:induction false} TreeFalls(n: nat, weights: Matrix, pairs: seq<WeightedPair>, limits: seq<int>, k: nat)
    requires n == |limits| && Ranked(n, weights, pairs) && k <= |pairs|
    ensures var es := KruskalTree(pairs, limits, k);
      EdgesBelow(n, es) && forall i, j :: 0 <= i < j < |es| ==> Outranks(weights, es[i], es[j].u, es[j].v)
  {
    TreeEdges(n, weights, pairs, limits, k);
    if k > 0 {
      TreeFalls(n, weights, pairs, limits, k - 1);
      TreeEdges(n, weights, pairs, limits, k - 1);
      var es := KruskalTree(pairs, limits, k - 1);
      forall i | 0 <= i < |es|
        ensures Outranks(weights, es[i], pairs[k - 1].u, pairs[k - 1].v)
      {
        assert es[i] in es;
      }
    }
  }

  lemma AheadNext(n: nat, weights: Matrix, es: seq<Edge>, e: Edge, a: nat, b: nat)
    requires Square(n, weights) && EdgesBelow(n, es) && e.u < e.v < n && a < n && b < n
    ensures EdgesBelow(n, es + [e])
    ensures Ahead(n, weights, es + [e], a, b) == if Outranks(weights, e, a, b) then Ahead(n, weights, es, a, b) + [e] else Ahead(n, weights, es, a, b)
  {
    assert (es + [e])[..|es|] == es;
  }

  /** What the rule has taken before it looks at pair `m` is what comes before that pair in the end. */
  lemma {:induction false} AheadIsEarlier(n: nat, weights: Matrix, pairs: seq<WeightedPair>, limits: seq<int>, m: nat, k: nat)
    requires n == |limits| && Ranked(n, weights, pairs) && m < |pairs| && k <= |pairs|
    ensures EdgesBelow(n, KruskalTree(pairs, limits, k))
    ensures Ahead(n, weights, KruskalTree(pairs, limits, k), pairs[m].u, pairs[m].v) == KruskalTree(pairs, limits, if k < m then k else m)
  {
    if k > 0 {
      AheadIsEarlier(n, weights, pairs, limits, m, k - 1);
      var es, p := KruskalTree(pairs, limits, k - 1), pairs[k - 1];
      AheadNext(n, weights, es, Edge(p.u, p.v), pairs[m].u, pairs[m].v);
      assert Outranks(weights, Edge(p.u, p.v), pairs[m].u, pairs[m].v) <==> k - 1 < m;
    }
  }

  lemma {:induction false} TakenIff(n: nat, weights: Matrix, pairs: seq<WeightedPair>, limits: seq<int>, m: nat, k: nat)
    requires n == |limits| && Ranked(n, weights, pairs) && m < k <= |pairs|
    ensures Edge(pairs[m].u, pairs[m].v) in KruskalTree(pairs, limits, k)
      <==> !Settled(KruskalTree(pairs, limits, m), limits, pairs[m].u, pairs[m].v)
  {
    var p := pairs[k - 1];
    if m < k - 1 {
      TakenIff(n, weights, pairs, limits, m, k - 1);
      assert Outranks(weights, Edge(pairs[m].u, pairs[m].v), p.u, p.v);
    } else {
      TreeEdges(n, weights, pairs, limits, m);
    }
  }

  /** The greedy tree obeys the law. */
  lemma KruskalObeysLaw(weights: Matrix, limits: seq<int>)
    requires Square(|limits|, weights)
    ensures PairsBelow(|limits|, SortedPairs(|limits|, weights))
    ensures TreeLaw(weights, limits, KruskalTree(SortedPairs(|limits|, weights), limits, |SortedPairs(|limits|, weights)|))
  {
    var n, pairs := |limits|, SortedPairs(|limits|, weights);
    SortedPairsAre(n, weights);
    SortedIsRanked(n, weights);
    var es := KruskalTree(pairs, limits, |pairs|);
    TreeFalls(n, weights, pairs, limits, |pairs|);
    forall a: nat, b: nat | a < b < n
      ensures LawAt(weights, limits, es, a, b)
    {
      assert WeightedPair(a, b, weights[a][b]) in pairs;
      LawHolds(weights, limits, pairs, a, b);
    }
  }

  lemma LawHolds(weights: Matrix, limits: seq<int>, pairs: seq<WeightedPair>, a: nat, b: nat)
    requires Ranked(|limits|, weights, pairs) && a < b < |limits| && WeightedPair(a, b, weights[a][b]) in pairs
    ensures EdgesBelow(|limits|, KruskalTree(pairs, limits, |pairs|)) && LawAt(weights, limits, KruskalTree(pairs, limits, |pairs|), a, b)
  {
    var m :| 0 <= m < |pairs| && pairs[m] == WeightedPair(a, b, weights[a][b]);
    AheadIsEarlier(|limits|, weights, pairs, limits, m, |pairs|);
    TakenIff(|limits|, weights, pairs, limits, m, |pairs|);
  }

  // ----- every component keeps two vertices with at most one edge

  ghost predicate LeafOf(n: nat, es: seq<Edge>, x: nat, a: nat) {
    a < n && Connected(es, x, a) && Degree(es, a) <= 1
  }

  ghost predicate HasTwoLeaves(n: nat, es: seq<Edge>, x: nat) {
    exists a, b :: a != b && LeafOf(n, es, x, a) && LeafOf(n, es, x, b)
  }

  ghost predicate Leafy(n: nat, es: seq<Edge>) {
    forall x: nat {:trigger HasTwoLeaves(n, es, x)} :: x < n ==> Degree(es, x) == 0 || HasTwoLeaves(n, es, x)
  }

  /** Each end of a new joining edge brings a leaf other than itself, or is one. */
  lemma SideLeaf(n: nat, es: seq<Edge>, e: Edge, x: nat, y: nat) returns (a: nat)
    requires Leafy(n, es) && ValidEdge(n, e) && (e == Edge(x, y) || e == Edge(y, x)) && !Connected(es, x, y)
    ensures Connected(es, x, a) && a < n && Degree(es + [e], a) <= 1
  {
    if Degree(es, x) == 0 {
      WalkTrivial(es, x);
      a := x;
    } else {
      assert HasTwoLeaves(n, es, x);
      var b: nat, c: nat :| b != c && LeafOf(n, es, x, b) && LeafOf(n, es, x, c);
      a := if b != x then b else c;
    }
  }

  lemma LeafyJoined(n: nat, es: seq<Edge>, e: Edge, x: nat)
    requires Leafy(n, es) && ValidEdge(n, e) && !Connected(es, e.u, e.v) && x < n
    requires Connected(es, x, e.u) || Connected(es, x, e.v)
    ensures HasTwoLeaves(n, es + [e], x)
  {
    var fs := es + [e];
    if Connected(es, e.v, e.u) {
      ConnectedSymmetric(es, e.v, e.u);
    }
    var a := SideLeaf(n, es, e, e.u, e.v);
    var b := SideLeaf(n, es, e, e.v, e.u);
    if a == b {
      ConnectedSymmetric(es, e.v, b);
      ConnectedTransitive(es, e.u, a, e.v);
    }
    WalkEdge(fs, e.u, e.v);
    WalkEdge(fs, e.v, e.u);
    ConnectedMonotone(es, fs, e.u, a);
    ConnectedMonotone(es, fs, e.v, b);
    if Connected(es, x, e.u) {
      ConnectedMonotone(es, fs, x, e.u);
      ConnectedTransitive(fs, x, e.u, e.v);
    } else {
      ConnectedMonotone(es, fs, x, e.v);
      ConnectedTransitive(fs, x, e.v, e.u);
    }
    ConnectedTransitive(fs, x, e.u, a);
    ConnectedTransitive(fs, x, e.v, b);
    assert LeafOf(n, fs, x, a) && LeafOf(n, fs, x, b);
  }

  lemma LeafyElsewhere(n: nat, es: seq<Edge>, e: Edge, x: nat)
    requires Leafy(n, es) && ValidEdge(n, e) && x < n
    requires !Connected(es, x, e.u) && !Connected(es, x, e.v)
    ensures Degree(es + [e], x) == 0 || HasTwoLeaves(n, es + [e], x)
  {
    var fs := es + [e];
    WalkTrivial(es, x);
    if Degree(es, x) != 0 {
      assert HasTwoLeaves(n, es, x);
      var b: nat, c: nat :| b != c && LeafOf(n, es, x, b) && LeafOf(n, es, x, c);
      ConnectedMonotone(es, fs, x, b);
      ConnectedMonotone(es, fs, x, c);
      assert LeafOf(n, fs, x, b) && LeafOf(n, fs, x, c);
    }
  }

  lemma LeafyStep(n: nat, es: seq<Edge>, e: Edge)
    requires Leafy(n, es) && ValidEdge(n, e) && !Connected(es, e.u, e.v)
    ensures Leafy(n, es + [e])
  {
    forall x: nat | x < n
      ensures Degree(es + [e], x) == 0 || HasTwoLeaves(n, es + [e], x)
    {
      if Connected(es, x, e.u) || Connected(es, x, e.v) {
        LeafyJoined(n, es, e, x);
      } else {
        LeafyElsewhere(n, es, e, x);
      }
    }
  }

  // ----- one pass connects everything

  /** A pair the pass has dealt with: its ends are joined, or one of them is full. */
  ghost predicate Settled(es: seq<Edge>, limits: seq<int>, a: nat, b: nat)
    requires a < |limits| && b < |limits|
  {
    Connected(es, a, b) || !HasRoom(es, limits, a, b)
  }

  /** What the builder's own checks leave to ask of the limits. */
  predicate LimitsSuffice(limits: seq<int>) {
    && (|limits| == 2 ==> limits[0] >= 1 && limits[1] >= 1)
    && (|limits| >= 3 ==> forall i :: 0 <= i < |limits| ==> limits[i] >= 2)
  }

  lemma LeafIn(n: nat, es: seq<Edge>, x: nat) returns (a: nat)
    requires Leafy(n, es) && x < n
    ensures LeafOf(n, es, x, a)
  {
    if Degree(es, x) == 0 {
      WalkTrivial(es, x);
      a := x;
    } else {
      assert HasTwoLeaves(n, es, x);
      var b: nat, c: nat :| b != c && LeafOf(n, es, x, b) && LeafOf(n, es, x, c);
      a := b;
    }
  }

  lemma {:induction false} DegreeNeedsEdge(es: seq<Edge>, x: nat)
    requires Degree(es, x) > 0
    ensures exists y: nat :: Adjacent(es, x, y)
  {
    var init, e := es[..|es| - 1], es[|es| - 1];
    if e.u == x || e.v == x {
      assert Adjacent(es, x, if e.u == x then e.v else e.u);
    } else {
      DegreeNeedsEdge(init, x);
      var y: nat :| Adjacent(init, x, y);
      assert Adjacent(es, x, y);
    }
  }

  /** Leaves of two separate components have room, so their pair cannot have been passed over. */
  lemma KruskalConnects(limits: seq<int>, es: seq<Edge>)
    requires Leafy(|limits|, es) && ValidEdges(|limits|, es) && LimitsSuffice(limits)
    requires forall a: nat, b: nat :: a < b < |limits| ==> Settled(es, limits, a, b)
    ensures ConnectedGraph(|limits|, es)
  {
    forall x: nat, y: nat | x < |limits| && y < |limits|
      ensures Connected(es, x, y)
    {
      var a := LeafIn(|limits|, es, x);
      var b := LeafIn(|limits|, es, y);
      LeavesMeet(limits, es, a, b);
      ConnectedSymmetric(es, y, b);
      ConnectedTransitive(es, x, a, b);
      ConnectedTransitive(es, x, b, y);
    }
  }

  lemma LeavesMeet(limits: seq<int>, es: seq<Edge>, a: nat, b: nat)
    requires ValidEdges(|limits|, es) && LimitsSuffice(limits) && a < |limits| && b < |limits|
    requires Degree(es, a) <= 1 && Degree(es, b) <= 1
    requires forall a: nat, b: nat :: a < b < |limits| ==> Settled(es, limits, a, b)
    ensures Connected(es, a, b)
  {
    if a == b {
      WalkTrivial(es, a);
    } else if |limits| == 2 && (Degree(es, a) > 0 || Degree(es, b) > 0) {
      var x := if Degree(es, a) > 0 then a else b;
      DegreeNeedsEdge(es, x);
      var y: nat :| Adjacent(es, x, y);
      WalkEdge(es, a, b);
    } else {
      var lo, hi := if a < b then a else b, if a < b then b else a;
      assert Settled(es, limits, lo, hi);
      if Connected(es, b, a) {
        ConnectedSymmetric(es, b, a);
      }
    }
  }

  lemma OneRepIffConnected(parent: seq<nat>, rank: seq<nat>, root: seq<nat>, es: seq<Edge>)
    requires Forest(parent, rank, root) && Tracks(root, es) && |root| > 0
    ensures |Reps(root)| == 1 <==> ConnectedGraph(|root|, es)
  {
    assert Placed(parent, rank, root, 0);
    assert root[0] in Reps(root);
    if |Reps(root)| == 1 {
      forall a: nat, b: nat | a < |root| && b < |root|
        ensures Connected(es, a, b)
      {
        assert Placed(parent, rank, root, a) && Placed(parent, rank, root, b);
        OneElement(Reps(root), root[a], root[b]);
      }
    }
    if ConnectedGraph(|root|, es) {
      forall x | x in Reps(root)
        ensures x == root[0]
      {
        assert Connected(es, x, 0);
      }
      assert Reps(root) == {root[0]};
    }
  }

  lemma OneElement(s: set<nat>, a: nat, b: nat)
    requires |s| == 1 && a in s && b in s
    ensures a == b
  {
    assert |s - {a}| == 0;
  }

  /** Once everything is connected the rule takes no further pair. */
  lemma {:induction false} KruskalStops(pairs: seq<WeightedPair>, limits: seq<int>, k: nat, m: nat)
    requires k <= m <= |pairs| && PairsBelow(|limits|, pairs)
    requires ConnectedGraph(|limits|, KruskalTree(pairs, limits, k))
    ensures KruskalTree(pairs, limits, m) == KruskalTree(pairs, limits, k)
    decreases m
  {
    if k < m {
      KruskalStops(pairs, limits, k, m - 1);
      assert pairs[m - 1] in pairs;
    }
  }

  lemma NoRoomNoEdge(pairs: seq<WeightedPair>, limits: seq<int>, k: nat)
    requires k <= |pairs| && PairsBelow(|limits|, pairs) && |limits| == 2 && !LimitsSuffice(limits)
    ensures KruskalTree(pairs, limits, k) == []
  {
    if k > 0 {
      assert pairs[k - 1] in pairs;
    }
  }

  /** The loop's state: what the arrays and the growing edge list mean. */
  ghost predicate Growing(pairs: seq<WeightedPair>, limits: seq<int>, k: nat, es: seq<Edge>, degrees: seq<int>,
                          root: seq<nat>)
    requires k <= |pairs| && PairsBelow(|limits|, pairs)
  {
    && es == KruskalTree(pairs, limits, k)
    && SimpleWithin(limits, es) && Leafy(|limits|, es)
    && |degrees| == |root| == |limits|
    && (forall x: nat :: x < |limits| ==> degrees[x] == Degree(es, x))
    && Tracks(root, es)
    && |es| + |Reps(root)| == |limits|
    && (forall m: nat :: m < k ==> pairs[m].v < |limits| && pairs[m].u < |limits| && Settled(es, limits, pairs[m].u, pairs[m].v))
  }

  lemma GrowingStarts(pairs: seq<WeightedPair>, limits: seq<int>, degrees: seq<int>, root: seq<nat>)
    requires PairsBelow(|limits|, pairs) && |degrees| == |root| == |limits| && IsIdentity(root)
    requires forall x: nat :: x < |limits| ==> degrees[x] == 0
    ensures Growing(pairs, limits, 0, [], degrees, root)
  {
    IdentityTracksNothing(root);
    VertexCount(|limits|);
    assert Reps(root) == Vertices(|limits|);
  }

  lemma SettledStays(es: seq<Edge>, e: Edge, limits: seq<int>, a: nat, b: nat)
    requires a < |limits| && b < |limits| && Settled(es, limits, a, b)
    ensures Settled(es + [e], limits, a, b)
  {
    if Connected(es, a, b) {
      ConnectedMonotone(es, es + [e], a, b);
    }
  }

  lemma GrowingTakes(pairs: seq<WeightedPair>, limits: seq<int>, k: nat, es: seq<Edge>, degrees: seq<int>,
                     root: seq<nat>, from: nat, to: nat)
    requires k < |pairs| && PairsBelow(|limits|, pairs) && Growing(pairs, limits, k, es, degrees, root)
    requires var p := pairs[k];
      && p.u < p.v < |limits| && !Settled(es, limits, p.u, p.v)
      && ((root[p.u] == from && root[p.v] == to) || (root[p.u] == to && root[p.v] == from))
    requires from < |limits| && to < |limits| && root[from] == from && root[to] == to
    ensures var p := pairs[k];
      Growing(pairs, limits, k + 1, es + [Edge(p.u, p.v)],
              degrees[p.u := degrees[p.u] + 1][p.v := degrees[p.v] + 1], Merged(root, from, to))
  {
    var p := pairs[k];
    var e, es' := Edge(p.u, p.v), es + [Edge(p.u, p.v)];
    assert ValidEdges(|limits|, es);
    if e in es {
      WalkEdge(es, p.u, p.v);
    }
    LeafyStep(|limits|, es, e);
    forall x: nat | x < |limits|
      ensures degrees[p.u := degrees[p.u] + 1][p.v := degrees[p.v] + 1][x] == Degree(es', x)
    {
    }
    MergeTracksEdge(root, es, e, from, to);
    LinkDropsOneRep(root, from, to);
    forall m: nat | m < k + 1
      ensures Settled(es', limits, pairs[m].u, pairs[m].v)
    {
      if m == k {
        WalkEdge(es', p.u, p.v);
      } else {
        SettledStays(es, e, limits, pairs[m].u, pairs[m].v);
      }
    }
  }

  /** One turn of the loop: take the pair's edge, or pass it over. */
  method ConsiderPair(pairs: seq<WeightedPair>, limits: seq<int>, k: nat, es: seq<Edge>, degrees: seq<int>, dsu: Dsu)
      returns (es': seq<Edge>, degrees': seq<int>)
    requires k < |pairs| && PairsBelow(|limits|, pairs)
    requires dsu.Valid() && Growing(pairs, limits, k, es, degrees, dsu.root)
    modifies dsu, dsu.parent, dsu.rank
    ensures dsu.Valid() && Growing(pairs, limits, k + 1, es', degrees', dsu.root)
  {
    var pair := pairs[k];
    assert pair in pairs;
    ghost var root := dsu.root;
    var ru := dsu.Find(pair.u);
    var rv := dsu.Find(pair.v);
    if ru == rv || degrees[pair.u] >= limits[pair.u] || degrees[pair.v] >= limits[pair.v] {
      return es, degrees;
    }
    es' := es + [Edge(pair.u, pair.v)];
    degrees' := degrees[pair.u := degrees[pair.u] + 1];
    degrees' := degrees'[pair.v := degrees'[pair.v] + 1];
    assert !Settled(es, limits, pair.u, pair.v);
    var _ := dsu.Union(pair.u, pair.v);
    if dsu.root == Merged(root, ru, rv) {
      GrowingTakes(pairs, limits, k, es, degrees, root, ru, rv);
    } else {
      GrowingTakes(pairs, limits, k, es, degrees, root, rv, ru);
    }
  }

  /**
   The spanning tree, or `ok == false`. With the limits the builder has already checked the pass always
   connects all shards; the only way to fail is two shards of which one admits no edge.
   */
  method BuildSpanningTree(pairs: seq<WeightedPair>, limits: seq<int>, ghost weights: Matrix)
      returns (ok: bool, edges: seq<Edge>, degrees: seq<int>)
    requires |limits| > 0 && Square(|limits|, weights) && pairs == SortedPairs(|limits|, weights)
    requires PairsBelow(|limits|, pairs)
    requires |limits| >= 3 ==> LimitsSuffice(limits)
    ensures ok <==> LimitsSuffice(limits)
    ensures edges == KruskalTree(pairs, limits, |pairs|)
    ensures |degrees| == |limits| && forall x: nat :: x < |limits| ==> degrees[x] == Degree(edges, x)
    ensures SimpleWithin(limits, edges) && TreeLaw(weights, limits, edges)
    ensures ok ==> |edges| == |limits| - 1 && ConnectedGraph(|limits|, edges)
  {
    var n := |limits|;
    degrees := seq(n, _ => 0);
    edges := [];
    var treeDSU := new Dsu(n);
    GrowingStarts(pairs, limits, degrees, treeDSU.root);

    var k := 0;
    while k < |pairs| && |edges| != n - 1
      invariant k <= |pairs| && treeDSU.Valid() && fresh(treeDSU) && fresh(treeDSU.parent) && fresh(treeDSU.rank)
      invariant Growing(pairs, limits, k, edges, degrees, treeDSU.root)
    {
      edges, degrees := ConsiderPair(pairs, limits, k, edges, degrees, treeDSU);
      k := k + 1;
    }
    ok := |edges| == n - 1;
    TreeDone(pairs, limits, weights, k, edges, degrees, treeDSU.parent[..], treeDSU.rank[..], treeDSU.root);
  }

  /** Where the pass ends, early or not, the tree is the greedy rule's. */
  lemma TreeDone(pairs: seq<WeightedPair>, limits: seq<int>, weights: Matrix, k: nat, edges: seq<Edge>,
                 degrees: seq<int>, parent: seq<nat>, rank: seq<nat>, root: seq<nat>)
    requires |limits| > 0 && Square(|limits|, weights) && pairs == SortedPairs(|limits|, weights)
    requires PairsBelow(|limits|, pairs) && (|limits| >= 3 ==> LimitsSuffice(limits))
    requires k <= |pairs| && Growing(pairs, limits, k, edges, degrees, root) && Forest(parent, rank, root)
    requires k == |pairs| || |edges| == |limits| - 1
    ensures |edges| == |limits| - 1 <==> LimitsSuffice(limits)
    ensures |edges| == |limits| - 1 ==> ConnectedGraph(|limits|, edges)
    ensures edges == KruskalTree(pairs, limits, |pairs|) && TreeLaw(weights, limits, edges)
  {
    OneRepIffConnected(parent, rank, root, edges);
    TreeVerdict(pairs, limits, weights, k, edges, degrees, root);
    if |edges| == |limits| - 1 {
      KruskalStops(pairs, limits, k, |pairs|);
    }
    KruskalObeysLaw(weights, limits);
  }

  /** After the pass the edge count is `n - 1` exactly when the limits suffice. */
  lemma TreeVerdict(pairs: seq<WeightedPair>, limits: seq<int>, weights: Matrix, k: nat, edges: seq<Edge>,
                    degrees: seq<int>, root: seq<nat>)
    requires |limits| > 0 && Square(|limits|, weights) && pairs == SortedPairs(|limits|, weights)
    requires PairsBelow(|limits|, pairs) && (|limits| >= 3 ==> LimitsSuffice(limits))
    requires k <= |pairs| && Growing(pairs, limits, k, edges, degrees, root)
    requires |Reps(root)| == 1 <==> ConnectedGraph(|limits|, edges)
    requires k == |pairs| || |edges| == |limits| - 1
    ensures |edges| == |limits| - 1 <==> LimitsSuffice(limits)
  {
    if LimitsSuffice(limits) && k == |pairs| {
      assert ValidEdges(|limits|, edges);
      forall a: nat, b: nat | a < b < |limits|
        ensures Settled(edges, limits, a, b)
      {
        SortedPairsAre(|limits|, weights);
        var p := WeightedPair(a, b, weights[a][b]);
        assert p in pairs;
        var m :| 0 <= m < |pairs| && pairs[m] == p;
      }
      KruskalConnects(limits, edges);
    } else if !LimitsSuffice(limits) {
      NoRoomNoEdge(pairs, limits, k);
    }
  }
}
