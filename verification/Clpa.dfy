/**
 The constrained label propagation state of partition/partition_CLPA.go over the graph of
 partition/graph.go, and the supervisor's committee (supervisor/committee/committee_clpa.go) that feeds it.
 */
module Clpa {
  import opened Accounts
  import opened Sums
  import opened ClpaCounts
  import opened ClpaScores
  import opened ClpaShift
  import opened ClpaRounds

  lemma AppendOneMore<T>(base: seq<T>, s: seq<T>, i: nat)
    requires i < |s|
    ensures base + s[..i + 1] == base + s[..i] + [s[i]]
  {
  }

  lemma MoveBack(p: Labels, v: Address, to: nat)
    requires v in p
    ensures p[v := to][v := p[v]] == p
  {
  }

  /** No shard that had a vertex has none. */
  ghost predicate NoneDied(before: seq<int>, after: seq<int>, shards: nat) {
    |before| == |after| == shards && forall k :: 0 <= k < shards && before[k] > 0 ==> after[k] > 0
  }

  /** The labels are the old ones overlaid with the result, which holds who has moved, nobody more than fifty times. */
  ghost predicate Recorded(labels: Labels, res: Labels, moves: map<Address, nat>, p: Labels, vertices: set<Address>) {
    && p == labels + res && res.Keys == moves.Keys <= vertices
    && (forall x :: x in moves ==> 0 < moves[x] <= 50)
  }

  lemma RecordMove(labels: Labels, res: Labels, moves: map<Address, nat>, p: Labels, vertices: set<Address>, v: Address, to: nat, count: nat)
    requires Recorded(labels, res, moves, p, vertices) && v in vertices && 0 < count <= 50
    ensures Recorded(labels, res[v := to], moves[v := count], p[v := to], vertices)
  {
    assert (labels + res)[v := to] == labels + res[v := to];
  }

  function WithDefault(p: Labels, x: Address, k: nat): Labels {
    if x in p then p else p[x := k]
  }

  class ClpaState {
    /** The arithmetic of the score, with the weight penalty. */
    const rate: Rate
    const maxIterations: int
    const shardNum: nat

    var vertexSet: set<Address>
    var edgeSet: map<Address, seq<Address>>
    var partitionMap: Labels
    var vertexsNumInShard: seq<int>
    var edges2Shard: seq<int>
    var minEdges2Shard: int
    var crossShardEdgeNum: int

    /** The links added so far, which the adjacency lists record. */
    ghost var log: seq<Link>

    ghost predicate Valid()
      reads this
    {
      && Records(edgeSet, log)
      && Ends(log) <= vertexSet <= partitionMap.Keys
      && shardNum > 0 && InRange(partitionMap, shardNum)
      && Populations(vertexsNumInShard, vertexSet, partitionMap, shardNum)
    }

    ghost function Counted(): Counters
      reads this
    {
      Counters(edges2Shard, minEdges2Shard, crossShardEdgeNum)
    }

    /** The stored counters are the true counts. */
    ghost predicate Exact()
      reads this
    {
      TrueCounts(Counted(), log, partitionMap, shardNum)
    }

    /** They are, as long as no vertex is linked to itself. */
    ghost predicate ExactIfSimple()
      reads this
    {
      NoLoops(edgeSet) ==> Exact()
    }

    /** `Init_CLPAState`, with the labels a reset carries over from earlier epochs. */
    constructor (rate: Rate, maxIterations: int, shardNum: nat, labels: Labels)
      requires shardNum > 0 && InRange(labels, shardNum)
      ensures Valid() && NoLoops(edgeSet) && log == [] && vertexSet == {} && partitionMap == labels
      ensures this.rate == rate && this.maxIterations == maxIterations && this.shardNum == shardNum
    {
      this.rate, this.maxIterations, this.shardNum := rate, maxIterations, shardNum;
      vertexSet, edgeSet, partitionMap, log := {}, map[], labels, [];
      vertexsNumInShard := seq(shardNum, _ => 0);
      edges2Shard, minEdges2Shard, crossShardEdgeNum := [], 0, 0;
      new;
      forall k: nat | k < shardNum
        ensures |InShard(vertexSet, partitionMap, k)| == 0
      {
        assert InShard(vertexSet, partitionMap, k) == {};
      }
    }

    /** A vertex keeps the label it has, or gets the shard of its address; the shard's count rises by one. */
    method AddVertex(v: Address)
      requires Valid()
      modifies this`vertexSet, this`partitionMap, this`vertexsNumInShard
      ensures vertexSet == old(vertexSet) + {v}
      ensures partitionMap == if v in old(partitionMap) then old(partitionMap) else old(partitionMap)[v := Addr2Shard(v, shardNum)]
      ensures vertexsNumInShard ==
        old(vertexsNumInShard)[partitionMap[v] := old(vertexsNumInShard)[partitionMap[v]] + 1]
      ensures Valid() <==> v !in old(vertexSet)
    {
      ghost var vs, p, num := vertexSet, partitionMap, vertexsNumInShard;
      vertexSet := vertexSet + {v};
      if v !in partitionMap {
        partitionMap := partitionMap[v := Addr2Shard(v, shardNum)];
      }
      vertexsNumInShard := vertexsNumInShard[partitionMap[v] := vertexsNumInShard[partitionMap[v]] + 1];
      if v !in vs {
        PopulationsAdd(num, vs, p, partitionMap, shardNum, v);
      } else {
        assert vertexSet == vs && partitionMap == p;
        assert num[p[v]] == |InShard(vs, p, p[v])|;
      }
    }

    method EnsureVertex(v: Address)
      requires Valid()
      modifies this`vertexSet, this`partitionMap, this`vertexsNumInShard
      ensures Valid() && vertexSet == old(vertexSet) + {v}
      ensures partitionMap == WithDefault(old(partitionMap), v, Addr2Shard(v, shardNum))
    {
      if v !in vertexSet {
        AddVertex(v);
      }
    }

    /** Both directions of the link are appended to the adjacency lists (graph.go). */
    method AddGraphEdge(u: Address, v: Address)
      modifies this`edgeSet, this`log
      ensures edgeSet == LinkUp(old(edgeSet), u, v) && log == old(log) + [Link(u, v)]
      ensures Records(old(edgeSet), old(log)) ==> Records(edgeSet, log)
    {
      if Records(edgeSet, log) {
        RecordsLink(edgeSet, log, u, v);
      }
      edgeSet := edgeSet[u := Listed(edgeSet, u) + [v]];
      edgeSet := edgeSet[v := Listed(edgeSet, v) + [u]];
      log := log + [Link(u, v)];
    }

    method AddEdge(u: Address, v: Address)
      requires Valid()
      modifies this`vertexSet, this`partitionMap, this`vertexsNumInShard, this`edgeSet, this`log
      ensures Valid() && log == old(log) + [Link(u, v)]
      ensures vertexSet == old(vertexSet) + {u} + {v}
      ensures NoLoops(old(edgeSet)) && u != v ==> NoLoops(edgeSet)
      ensures partitionMap == WithDefault(WithDefault(old(partitionMap), u, Addr2Shard(u, shardNum)), v, Addr2Shard(v, shardNum))
    {
      EnsureVertex(u);
      EnsureVertex(v);
      RecordsLink(edgeSet, log, u, v);
      if NoLoops(edgeSet) && u != v {
        NoLoopsAfterLink(edgeSet, u, v);
      }
      AddGraphEdge(u, v);
    }

    /** The full recount: whatever the counters were, they become the true counts. */
    method ComputeEdges2Shard()
      requires Valid()
      modifies this`edges2Shard, this`minEdges2Shard, this`crossShardEdgeNum
      ensures Exact()
    {
      edges2Shard := seq(shardNum, _ => 0);
      var interEdge: seq<int> := seq(shardNum, _ => 0);
      ghost var done: set<Address> := {};
      var todo := edgeSet.Keys;
      TallyStarts(edges2Shard, interEdge, log, partitionMap, shardNum);
      while todo != {}
        invariant todo <= edgeSet.Keys && done == edgeSet.Keys - todo
        invariant Tallied(edges2Shard, interEdge, log, partitionMap, done, shardNum)
        decreases todo
      {
        var v :| v in todo;
        ghost var arrivals, stays := edges2Shard, interEdge;
        interEdge := CountList(v, interEdge);
        TallyOneMore(arrivals, stays, edgeSet[v], log, partitionMap, done, v, shardNum);
        done, todo := done + {v}, todo - {v};
      }
      AddUp(interEdge, done);
    }

    /** One entry of an adjacency list: an arrival from another shard, or a stay. */
    method CountEntry(uShard: nat, vShard: nat, interEdge: seq<int>) returns (inter': seq<int>)
      requires uShard < |edges2Shard| == |interEdge|
      modifies this`edges2Shard
      ensures edges2Shard == Bumped(old(edges2Shard), uShard, uShard != vShard)
      ensures inter' == Bumped(interEdge, uShard, uShard == vShard)
    {
      inter' := interEdge;
      if vShard != uShard {
        edges2Shard := edges2Shard[uShard := edges2Shard[uShard] + 1];
      } else {
        inter' := inter'[uShard := inter'[uShard] + 1];
      }
    }

    /** One adjacency list of the recount. */
    method CountList(v: Address, interEdge: seq<int>) returns (inter': seq<int>)
      requires Valid() && v in edgeSet && |edges2Shard| == |interEdge| == shardNum
      modifies this`edges2Shard
      ensures forall x :: x in edgeSet[v] ==> Label(partitionMap, x) < shardNum
      ensures edges2Shard == AddArrivals(old(edges2Shard), edgeSet[v], partitionMap, Label(partitionMap, v))
      ensures inter' == AddStays(interEdge, edgeSet[v], partitionMap, Label(partitionMap, v))
    {
      inter' := interEdge;
      var lst := edgeSet[v];
      var vShard := partitionMap[v];
      ListedIsNeighbours(edgeSet, log, v);
      assert forall x :: x in lst ==> Label(partitionMap, x) < shardNum;
      for i := 0 to |lst|
        invariant edges2Shard == AddArrivals(old(edges2Shard), lst[..i], partitionMap, vShard)
        invariant inter' == AddStays(interEdge, lst[..i], partitionMap, vShard)
      {
        TallyNext(old(edges2Shard), interEdge, lst, partitionMap, vShard, i);
        assert lst[i] in lst;
        inter' := CountEntry(partitionMap[lst[i]], vShard, inter');
      }
      assert lst[..|lst|] == lst;
    }

    /** Halve the arrivals into the crossing count, then add half of the stays. */
    method AddUp(interEdge: seq<int>, ghost done: set<Address>)
      requires Valid() && |edges2Shard| == |interEdge| == shardNum && done == Ends(log)
      requires Tallied(edges2Shard, interEdge, log, partitionMap, done, shardNum)
      modifies this`edges2Shard, this`minEdges2Shard, this`crossShardEdgeNum
      ensures Exact()
    {
      crossShardEdgeNum := 0;
      for k := 0 to |edges2Shard|
        invariant edges2Shard == old(edges2Shard)
        invariant crossShardEdgeNum == SumArriving(log, partitionMap, done, k)
      {
        crossShardEdgeNum := crossShardEdgeNum + edges2Shard[k];
      }
      ArrivalsAreTwiceCrossing(log, partitionMap, done, shardNum);
      crossShardEdgeNum := crossShardEdgeNum / 2;
      for k := 0 to shardNum
        invariant |edges2Shard| == shardNum && crossShardEdgeNum == Crossing(log, partitionMap)
        invariant forall m :: 0 <= m < k ==> edges2Shard[m] == Touching(log, partitionMap, m)
        invariant forall m :: k <= m < shardNum ==> edges2Shard[m] == Arriving(log, partitionMap, done, m)
      {
        AllCounted(log, partitionMap, done, k);
        edges2Shard := edges2Shard[k := edges2Shard[k] + interEdge[k] / 2];
      }
      minEdges2Shard := ScanMin(edges2Shard);
    }

    method CountNeighbour(neighborShard: nat, from: nat, to: nat)
      requires from < |edges2Shard| && to < |edges2Shard| && from != to
      modifies this`edges2Shard, this`crossShardEdgeNum
      ensures edges2Shard == Adjusted(old(edges2Shard), neighborShard, from, to)
      ensures crossShardEdgeNum == old(crossShardEdgeNum) + Bit(neighborShard == from) - Bit(neighborShard == to)
    {
      if neighborShard != to && neighborShard != from {
        edges2Shard := edges2Shard[to := edges2Shard[to] + 1];
        edges2Shard := edges2Shard[from := edges2Shard[from] - 1];
      } else if neighborShard == to {
        edges2Shard := edges2Shard[from := edges2Shard[from] - 1];
        crossShardEdgeNum := crossShardEdgeNum - 1;
      } else {
        edges2Shard := edges2Shard[to := edges2Shard[to] + 1];
        crossShardEdgeNum := crossShardEdgeNum + 1;
      }
    }

    /** The loop of the fast update over the neighbours of `v`. */
    method ShiftCounts(v: Address, from: nat, to: nat)
      requires Valid() && v in vertexSet && from < |edges2Shard| && to < |edges2Shard| && from != to
      modifies this`edges2Shard, this`crossShardEdgeNum
      ensures edges2Shard == Shifted(old(edges2Shard), Neighbours(log, v), partitionMap, from, to)
      ensures crossShardEdgeNum == old(crossShardEdgeNum)
        + Labelled(Neighbours(log, v), partitionMap, from) - Labelled(Neighbours(log, v), partitionMap, to)
    {
      var lst := Listed(edgeSet, v);
      ListedIsNeighbours(edgeSet, log, v);
      for i := 0 to |lst|
        invariant |edges2Shard| == |old(edges2Shard)|
        invariant ShiftedTo(old(edges2Shard), old(crossShardEdgeNum), edges2Shard, crossShardEdgeNum, lst[..i], partitionMap, from, to)
      {
        assert lst[i] in lst;
        ShiftStep(old(edges2Shard), lst, i, partitionMap, from, to);
        CountNeighbour(partitionMap[lst[i]], from, to);
      }
      assert lst[..|lst|] == lst;
    }

    /**
     The fast update after `v` has moved away from shard `from`. Provided the counters were true before
     the move, they are true after it exactly when `v` has no link to itself.
     */
    method ChangeShardRecompute(v: Address, from: nat)
      requires Valid() && v in vertexSet && from < shardNum && partitionMap[v] != from && |edges2Shard| == shardNum
      modifies this`edges2Shard, this`minEdges2Shard, this`crossShardEdgeNum
      ensures |edges2Shard| == shardNum
      ensures Counted() == AfterMove(old(Counted()), Listed(edgeSet, v), partitionMap, from, partitionMap[v])
      ensures TrueCounts(old(Counted()), log, partitionMap[v := from], shardNum) ==> (Exact() <==> v !in Listed(edgeSet, v))
    {
      var to := partitionMap[v];
      ShiftCounts(v, from, to);
      minEdges2Shard := ScanMin(edges2Shard);
      MoveBack(partitionMap, v, from);
      ListedIsNeighbours(edgeSet, log, v);
      if TrueCounts(old(Counted()), log, partitionMap[v := from], shardNum) {
        ShiftIsExact(old(Counted()), Counted(), log, partitionMap[v := from], v, from, to, shardNum);
      }
    }

    ghost function GraphOf(): Graph
      reads this
    {
      Graph(vertexSet, edgeSet, rate)
    }

    /** Where a run stands, with the map to be sent and the number of moves. */
    ghost function StageOf(res: Labels, moves: map<Address, nat>): Stage
      reads this
    {
      Stage(partitionMap, Counted(), res, moves)
    }

    ghost function ScoringOf(v: Address): Scoring
      reads this
    {
      Scoring(Listed(edgeSet, v), partitionMap, edges2Shard, minEdges2Shard, rate)
    }

    method GetShardScore(v: Address, uShard: nat) returns (score: Score)
      requires uShard < |edges2Shard|
      ensures score == ShardScore(ScoringOf(v), uShard)
    {
      var lst := Listed(edgeSet, v);
      var edgesToShard := 0;
      for i := 0 to |lst|
        invariant edgesToShard == Labelled(lst[..i], partitionMap, uShard)
      {
        LabelledNext(lst, i, partitionMap, uShard);
        if Label(partitionMap, lst[i]) == uShard {
          edgesToShard := edgesToShard + 1;
        }
      }
      assert lst[..|lst|] == lst;
      score := rate(edgesToShard, |lst|, edges2Shard[uShard], minEdges2Shard);
    }

    /** All labels of neighbours are shards. */
    lemma NeighboursScorable(v: Address)
      requires Valid() && |edges2Shard| == shardNum
      ensures Scorable(ScoringOf(v)) && forall u :: u in Listed(edgeSet, v) ==> u in partitionMap
    {
      ListedIsNeighbours(edgeSet, log, v);
      var lst := Listed(edgeSet, v);
      forall i | 0 <= i < |lst|
        ensures Label(partitionMap, lst[i]) < |edges2Shard|
      {
        assert lst[i] in lst;
      }
    }

    /** The neighbours' shard of the largest score, the first listed among equals. */
    method BestShard(v: Address) returns (best: nat)
      requires Valid() && v in vertexSet && |edges2Shard| == shardNum
      ensures best < shardNum && Chooses(GraphOf(), partitionMap, Counted(), v, best)
    {
      NeighboursScorable(v);
      var lst := Listed(edgeSet, v);
      var maxScore := Threshold();
      best := partitionMap[v];
      var scored: set<nat> := {};
      for i := 0 to |lst|
        invariant best < shardNum && Searched(ScoringOf(v), i, partitionMap[v], best, maxScore, scored)
      {
        assert lst[i] in lst;
        var uShard := partitionMap[lst[i]];
        SearchNext(ScoringOf(v), i, partitionMap[v], best, maxScore, scored);
        if uShard !in scored {
          scored := scored + {uShard};
          var score := GetShardScore(v, uShard);
          if Below(maxScore, score) {
            maxScore, best := score, uShard;
          }
        }
      }
    }

    /** Some shard has no link, and penalties are divided by zero. */
    ghost predicate Frozen()
      reads this
    {
      Exact() && minEdges2Shard == 0 && SinksAtZero(rate)
    }

    lemma FrozenStays(v: Address, best: nat)
      requires Valid() && Frozen() && v in vertexSet && Chooses(GraphOf(), partitionMap, Counted(), v, best)
      ensures best == partitionMap[v]
    {
      ListedIsNeighbours(edgeSet, log, v);
      var score :| IsBest(ScoringOf(v), |Listed(edgeSet, v)|, partitionMap[v], best, score);
      IdleShardFreezes(ScoringOf(v), log, v, partitionMap[v], best, score);
    }

    /** `v` changes shard: label, populations and counters follow. */
    method Move(v: Address, to: nat)
      requires Valid() && v in vertexSet && to < shardNum && |edges2Shard| == shardNum
      requires partitionMap[v] != to && vertexsNumInShard[partitionMap[v]] > 1
      modifies this`partitionMap, this`vertexsNumInShard, this`edges2Shard, this`minEdges2Shard, this`crossShardEdgeNum
      ensures Valid() && |edges2Shard| == shardNum && partitionMap == old(partitionMap)[v := to]
      ensures Counted() == AfterMove(old(Counted()), Listed(edgeSet, v), partitionMap, old(partitionMap)[v], to)
      ensures old(Exact()) ==> (Exact() <==> v !in Listed(edgeSet, v))
      ensures NoneDied(old(vertexsNumInShard), vertexsNumInShard, shardNum)
    {
      var now := partitionMap[v];
      PopulationsMove(vertexsNumInShard, vertexSet, partitionMap, shardNum, v, to);
      MoveBack(partitionMap, v, to);
      partitionMap := partitionMap[v := to];
      vertexsNumInShard := vertexsNumInShard[now := vertexsNumInShard[now] - 1];
      vertexsNumInShard := vertexsNumInShard[to := vertexsNumInShard[to] + 1];
      ChangeShardRecompute(v, now);
    }

    /** One vertex of one round: it moves if a better shard was found and its own shard keeps a member. */
    method Visit(v: Address) returns (moved: bool, to: nat)
      requires Valid() && v in vertexSet && |edges2Shard| == shardNum
      modifies this`partitionMap, this`vertexsNumInShard, this`edges2Shard, this`minEdges2Shard, this`crossShardEdgeNum
      ensures Valid() && |edges2Shard| == shardNum
      ensures old(ExactIfSimple()) ==> ExactIfSimple()
      ensures Steps(GraphOf(), old(partitionMap), old(Counted()), v, to, moved, partitionMap, Counted())
      ensures old(Frozen()) ==> !moved
      ensures NoneDied(old(vertexsNumInShard), vertexsNumInShard, shardNum)
    {
      var now := partitionMap[v];
      to := BestShard(v);
      if Frozen() {
        FrozenStays(v, to);
      }
      moved := now != to && vertexsNumInShard[now] > 1;
      if moved {
        Move(v, to);
      }
    }

    /** A visit that records the move it makes. */
    method VisitAndRecord(v: Address, res: Labels, moves: map<Address, nat>)
        returns (moved: bool, to: nat, res': Labels, moves': map<Address, nat>)
      requires Valid() && v in vertexSet && |edges2Shard| == shardNum && MovesOf(StageOf(res, moves), v) < 50
      modifies this`partitionMap, this`vertexsNumInShard, this`edges2Shard, this`minEdges2Shard, this`crossShardEdgeNum
      ensures Valid() && |edges2Shard| == shardNum
      ensures old(ExactIfSimple()) ==> ExactIfSimple()
      ensures old(Frozen()) ==> Frozen() && !moved
      ensures NoneDied(old(vertexsNumInShard), vertexsNumInShard, shardNum)
      ensures partitionMap == if moved then old(partitionMap)[v := to] else old(partitionMap)
      ensures res' == if moved then res[v := to] else res
      ensures moves' == if moved then moves[v := (if v in moves then moves[v] else 0) + 1] else moves
      ensures Visited(GraphOf(), old(StageOf(res, moves)), v, StageOf(res', moves'))
    {
      ghost var g, p, c := GraphOf(), partitionMap, Counted();
      res', moves' := res, moves;
      moved, to := Visit(v);
      ghost var p', c' := partitionMap, Counted();
      assert Steps(g, p, c, v, to, moved, p', c');
      if moved {
        res' := res[v := to];
        moves' := moves[v := (if v in moves then moves[v] else 0) + 1];
      }
      VisitIs(g, v, to, moved, p, c, res, moves, p', c', res', moves');
    }

    /** What holds between visits, `moves` being how often each vertex has moved so far. */
    ghost predicate Running(labels: Labels, populations: seq<int>, res: Labels, moves: map<Address, nat>)
      reads this
    {
      && Valid() && |edges2Shard| == shardNum && ExactIfSimple()
      && Recorded(labels, res, moves, partitionMap, vertexSet) && NoneDied(populations, vertexsNumInShard, shardNum)
    }

    /** A visit that respects the limit of fifty moves. */
    method VisitCounted(v: Address, res: Labels, moves: map<Address, nat>, ghost labels: Labels, ghost populations: seq<int>)
        returns (res': Labels, moves': map<Address, nat>)
      requires Running(labels, populations, res, moves) && v in vertexSet
      modifies this`partitionMap, this`vertexsNumInShard, this`edges2Shard, this`minEdges2Shard, this`crossShardEdgeNum
      ensures Running(labels, populations, res', moves')
      ensures moves' == moves || moves' == moves[v := (if v in moves then moves[v] else 0) + 1]
      ensures old(Frozen()) ==> Frozen() && res' == res
      ensures Visited(GraphOf(), old(StageOf(res, moves)), v, StageOf(res', moves'))
    {
      res', moves' := res, moves;
      if (if v in moves then moves[v] else 0) < 50 {
        var moved, to;
        moved, to, res', moves' := VisitAndRecord(v, res, moves);
        if moved {
          RecordMove(labels, res, moves, old(partitionMap), vertexSet, v, to, (if v in moves then moves[v] else 0) + 1);
        }
      }
    }

    /** What holds during round `iter`, which began at `x`; `todo` has not been visited yet. */
    ghost predicate InRound(labels: Labels, populations: seq<int>, frozen: bool, g: Graph, x: Stage, iter: nat, order: seq<Address>, stages: seq<Stage>,
                            todo: set<Address>, res: Labels, moves: map<Address, nat>)
      reads this
    {
      && Running(labels, populations, res, moves)
      && (forall v :: v in moves ==> moves[v] <= iter + (if v in todo then 0 else 1))
      && (frozen ==> Frozen() && res == x.res)
      && GraphOf() == g && Underway(g, order, stages, todo, x, StageOf(res, moves))
    }

    /** The next vertex of a round. */
    method NextVisit(v: Address, res: Labels, moves: map<Address, nat>, ghost labels: Labels, ghost populations: seq<int>, ghost frozen: bool,
                     ghost g: Graph, ghost x: Stage, ghost iter: nat, ghost order: seq<Address>, ghost stages: seq<Stage>, ghost todo: set<Address>)
        returns (res': Labels, moves': map<Address, nat>)
      requires InRound(labels, populations, frozen, g, x, iter, order, stages, todo, res, moves) && v in todo
      modifies this`partitionMap, this`vertexsNumInShard, this`edges2Shard, this`minEdges2Shard, this`crossShardEdgeNum
      ensures InRound(labels, populations, frozen, g, x, iter, order + [v], stages + [StageOf(res', moves')], todo - {v}, res', moves')
    {
      ghost var y := StageOf(res, moves);
      res', moves' := VisitCounted(v, res, moves, labels, populations);
      UnderwayNext(g, order, stages, todo, x, y, v, StageOf(res', moves'));
    }

    /** One round visits every vertex once, in any order. */
    method Round(iter: nat, res: Labels, moves: map<Address, nat>, ghost labels: Labels, ghost populations: seq<int>)
        returns (res': Labels, moves': map<Address, nat>)
      requires Running(labels, populations, res, moves)
      requires forall x :: x in moves ==> moves[x] <= iter
      modifies this`partitionMap, this`vertexsNumInShard, this`edges2Shard, this`minEdges2Shard, this`crossShardEdgeNum
      ensures Running(labels, populations, res', moves')
      ensures forall x :: x in moves' ==> moves'[x] <= iter + 1
      ensures old(Frozen()) ==> Frozen() && res' == res
      ensures RoundOf(GraphOf(), old(StageOf(res, moves)), StageOf(res', moves'))
    {
      res', moves' := res, moves;
      var todo := vertexSet;
      ghost var frozen, g, x := Frozen(), GraphOf(), StageOf(res, moves);
      ghost var order, stages := [], [x];
      while todo != {}
        invariant InRound(labels, populations, frozen, g, x, iter, order, stages, todo, res', moves')
        decreases todo
      {
        var v :| v in todo;
        res', moves' := NextVisit(v, res', moves', labels, populations, frozen, g, x, iter, order, stages, todo);
        order, stages, todo := order + [v], stages + [StageOf(res', moves')], todo - {v};
      }
      UnderwayEnds(g, order, stages, x, StageOf(res', moves'));
    }

    /** The loop of the run: as many rounds as allowed. */
    method RunRounds() returns (res: Labels, updateThreshold: map<Address, nat>)
      requires Valid() && |edges2Shard| == shardNum && ExactIfSimple()
      modifies this`partitionMap, this`vertexsNumInShard, this`edges2Shard, this`minEdges2Shard, this`crossShardEdgeNum
      ensures Running(old(partitionMap), old(vertexsNumInShard), res, updateThreshold)
      ensures forall x :: x in updateThreshold ==> updateThreshold[x] <= RoundCount(maxIterations)
      ensures old(Frozen()) ==> res == map[]
      ensures RunOf(GraphOf(), RoundCount(maxIterations), old(StageOf(map[], map[])), StageOf(res, updateThreshold))
    {
      res, updateThreshold := map[], map[];
      ghost var g, start := GraphOf(), StageOf(map[], map[]);
      NoRounds(g, start);
      var iter := 0;
      ghost var frozen := Frozen();
      while iter < maxIterations
        invariant 0 <= iter <= RoundCount(maxIterations)
        invariant InRun(old(partitionMap), old(vertexsNumInShard), frozen, g, start, iter, res, updateThreshold)
        decreases maxIterations - iter
      {
        res, updateThreshold := NextRound(iter, res, updateThreshold, old(partitionMap), old(vertexsNumInShard), frozen, g, start);
        iter := iter + 1;
      }
    }

    /** What holds before round `iter` of a run that began at `start`. */
    ghost predicate InRun(labels: Labels, populations: seq<int>, frozen: bool, g: Graph, start: Stage, iter: nat, res: Labels, moves: map<Address, nat>)
      reads this
    {
      && Running(labels, populations, res, moves)
      && (forall x :: x in moves ==> moves[x] <= iter)
      && (frozen ==> Frozen() && res == map[])
      && GraphOf() == g && RunOf(g, iter, start, StageOf(res, moves))
    }

    method NextRound(iter: nat, res: Labels, moves: map<Address, nat>, ghost labels: Labels, ghost populations: seq<int>,
                     ghost frozen: bool, ghost g: Graph, ghost start: Stage)
        returns (res': Labels, moves': map<Address, nat>)
      requires InRun(labels, populations, frozen, g, start, iter, res, moves)
      modifies this`partitionMap, this`vertexsNumInShard, this`edges2Shard, this`minEdges2Shard, this`crossShardEdgeNum
      ensures InRun(labels, populations, frozen, g, start, iter + 1, res', moves')
    {
      ghost var x := StageOf(res, moves);
      res', moves' := Round(iter, res, moves, labels, populations);
      OneMoreRound(g, iter, start, x, StageOf(res', moves'));
    }

    /**
     A whole run, for every score and every visiting order: the returned map is that of so many rounds, each of
     which visits every vertex once; overlaid on the old labels it gives the new ones. Shard populations stay right
     and none dies out, nobody moves more often than the smaller of 50 and the number of rounds, and, where no vertex
     is linked to itself, the closing recount finds nothing to correct. If the score sinks at zero and some shard has
     no link to begin with, nobody moves at all.
     */
    method Partition() returns (res: Labels, cross: int, ghost moves: map<Address, nat>, ghost beforeRecount: Counters)
      requires Valid()
      modifies this`partitionMap, this`vertexsNumInShard, this`edges2Shard, this`minEdges2Shard, this`crossShardEdgeNum
      ensures Valid() && Exact()
      ensures partitionMap == old(partitionMap) + res && res.Keys <= vertexSet
      ensures Partitions(GraphOf(), log, shardNum, maxIterations, old(partitionMap), res, partitionMap)
      ensures cross == Crossing(log, partitionMap)
      ensures NoneDied(old(vertexsNumInShard), vertexsNumInShard, shardNum)
      ensures moves.Keys == res.Keys
      ensures forall x :: x in moves ==> 0 < moves[x] <= 50 && moves[x] <= maxIterations
      ensures NoLoops(edgeSet) ==> beforeRecount == Counted()
      ensures SinksAtZero(rate) && SomeIdle(log, old(partitionMap), shardNum) ==> res == map[]
    {
      ComputeEdges2Shard();
      ghost var g, start := GraphOf(), StageOf(map[], map[]);
      if SinksAtZero(rate) && SomeIdle(log, partitionMap, shardNum) {
        MinimumIsZeroIff(Counted(), log, partitionMap, shardNum);
      }
      var updateThreshold;
      res, updateThreshold := RunRounds();
      moves := updateThreshold;
      beforeRecount := Counted();
      PartitionsBy(g, log, shardNum, maxIterations, start, StageOf(res, moves));
      ComputeEdges2Shard();
      if NoLoops(edgeSet) {
        TrueCountsUnique(beforeRecount, Counted(), log, partitionMap, shardNum);
      }
      cross := crossShardEdgeNum;
    }
  }

  // ----- the committee that runs it

  /** What a worker's partition map becomes once it has applied every map it was sent. */
  ghost function Applied(maps: seq<Labels>): Labels {
    if maps == [] then map[] else Applied(maps[..|maps| - 1]) + maps[|maps| - 1]
  }

  lemma AppliedNext(maps: seq<Labels>, m: Labels)
    ensures Applied(maps + [m]) == Applied(maps) + m
  {
    assert (maps + [m])[..|maps|] == maps;
  }

  /** Every label in the graph is what a look-up gives, and every recorded account carries its label. */
  ghost predicate LabelsAgree(p: Labels, modified: Labels, shards: nat) {
    && shards > 0 && modified.Keys <= p.Keys && InRange(modified, shards)
    && forall x {:trigger p[x]} {:trigger x in p} :: x in p ==> p[x] == Home(modified, x, shards)
  }

  lemma AgreeWithDefault(p: Labels, modified: Labels, shards: nat, x: Address)
    requires LabelsAgree(p, modified, shards)
    ensures LabelsAgree(WithDefault(p, x, Addr2Shard(x, shards)), modified, shards)
  {
  }

  lemma AgreeAfterRun(p: Labels, modified: Labels, shards: nat, res: Labels)
    requires LabelsAgree(p, modified, shards) && InRange(p + res, shards)
    ensures LabelsAgree(p + res, modified + res, shards)
    ensures LabelsAgree(modified + res, modified + res, shards)
    ensures forall x :: x in p ==> Home(modified + res, x, shards) == if x in res then res[x] else p[x]
  {
    forall x | x in modified + res
      ensures (modified + res)[x] < shards
    {
      assert x in p + res && (p + res)[x] == (modified + res)[x];
    }
  }

  class ClpaCommittee {
    const rate: Rate
    const shardNum: nat
    var clpaGraph: ClpaState
    var modifiedMap: Labels
    /** The modified maps sent to the workers, one per epoch. */
    ghost var sent: seq<Labels>

    function FetchModifiedMap(key: Address): nat
      requires shardNum > 0
      reads this
    {
      Home(modifiedMap, key, shardNum)
    }

    /**
     The three views of who lives where: every label in the graph is what the committee looks up, and
     what a worker that has applied all maps looks up.
     */
    ghost predicate Agreed()
      reads this, clpaGraph
    {
      && clpaGraph.Valid()
      && clpaGraph.shardNum == shardNum && clpaGraph.maxIterations == 100 && clpaGraph.rate == rate
      && modifiedMap == Applied(sent)
      && LabelsAgree(clpaGraph.partitionMap, modifiedMap, shardNum)
    }

    constructor (rate: Rate, shardNum: nat)
      requires shardNum > 0
      ensures Agreed() && modifiedMap == map[] && fresh(clpaGraph)
      ensures this.rate == rate && this.shardNum == shardNum
    {
      this.rate, this.shardNum := rate, shardNum;
      clpaGraph := new ClpaState(rate, 100, shardNum, map[]);
      modifiedMap, sent := map[], [];
    }

    method AddTransfer(l: Link)
      requires Agreed()
      modifies clpaGraph
      ensures Agreed() && clpaGraph.log == old(clpaGraph.log) + [l]
    {
      ghost var p := clpaGraph.partitionMap;
      AgreeWithDefault(p, modifiedMap, shardNum, l.a);
      AgreeWithDefault(WithDefault(p, l.a, Addr2Shard(l.a, shardNum)), modifiedMap, shardNum, l.b);
      clpaGraph.AddEdge(l.a, l.b);
    }

    /** A block report: every executed transfer becomes a link. */
    method HandleBlockInfo(transfers: seq<Link>)
      requires Agreed()
      modifies clpaGraph
      ensures Agreed() && clpaGraph.log == old(clpaGraph.log) + transfers
    {
      for i := 0 to |transfers|
        invariant Agreed() && clpaGraph.log == old(clpaGraph.log) + transfers[..i]
      {
        AppendOneMore(old(clpaGraph.log), transfers, i);
        AddTransfer(transfers[i]);
      }
      assert transfers[..|transfers|] == transfers;
    }

    /** The run of CLPA on the graph of this epoch. */
    method RunClpa() returns (mmap: Labels)
      requires Agreed()
      modifies clpaGraph
      ensures clpaGraph.partitionMap == old(clpaGraph.partitionMap) + mmap && InRange(clpaGraph.partitionMap, shardNum)
      ensures Partitions(old(clpaGraph.GraphOf()), old(clpaGraph.log), shardNum, 100, old(clpaGraph.partitionMap), mmap, clpaGraph.partitionMap)
    {
      var cross;
      ghost var moves, before;
      mmap, cross, moves, before := clpaGraph.Partition();
    }

    /** The locked re-partition section: partition, send the map, remember it, start a fresh graph. */
    method Repartition() returns (mmap: Labels)
      requires Agreed()
      modifies this, clpaGraph
      ensures Agreed() && fresh(clpaGraph) && clpaGraph.log == []
      ensures Partitions(old(clpaGraph.GraphOf()), old(clpaGraph.log), shardNum, 100, old(clpaGraph.partitionMap), mmap,
                         old(clpaGraph.partitionMap) + mmap)
      ensures sent == old(sent) + [mmap] && modifiedMap == old(modifiedMap) + mmap
      ensures forall x :: x in old(clpaGraph.partitionMap) ==>
        FetchModifiedMap(x) == if x in mmap then mmap[x] else old(clpaGraph.partitionMap)[x]
    {
      ghost var p := clpaGraph.partitionMap;
      mmap := RunClpa();
      AgreeAfterRun(p, modifiedMap, shardNum, mmap);
      AppliedNext(sent, mmap);
      sent, modifiedMap := sent + [mmap], modifiedMap + mmap;
      clpaGraph := new ClpaState(rate, 100, shardNum, modifiedMap);
    }
  }
}
