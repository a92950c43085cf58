/**
 A run of `CLPA_Partition` (partition/partition_CLPA.go) as a chain of visits: every round visits every vertex once,
 and a visit moves its vertex to the best shard, or leaves everything as it is.
 */
module ClpaRounds {
  import opened Accounts
  import opened Sums
  import opened ClpaCounts
  import opened ClpaScores
  import opened ClpaShift

  /** What a run does not change. */
  datatype Graph = Graph(vertices: set<Address>, edges: map<Address, seq<Address>>, rate: Rate)

  /** What it does: labels, counters, the map to be sent, and how often each vertex has moved. */
  datatype Stage = Stage(labels: Labels, counters: Counters, res: Labels, moves: map<Address, nat>)

  function MovesOf(x: Stage, v: Address): nat { if v in x.moves then x.moves[v] else 0 }

  function ScoringAt(g: Graph, p: Labels, c: Counters, v: Address): Scoring {
    Scoring(Listed(g.edges, v), p, c.edges2Shard, c.min, g.rate)
  }

  /** Under labels `p` and counters `c` the best shard for `v` is `best`. */
  ghost predicate Chooses(g: Graph, p: Labels, c: Counters, v: Address, best: nat) {
    && v in p && Scorable(ScoringAt(g, p, c, v))
    && exists score :: IsBest(ScoringAt(g, p, c, v), |Listed(g.edges, v)|, p[v], best, score)
  }

  /** The counters after the fast update: `p` holds the labels after the move. */
  function AfterMove(c: Counters, lst: seq<Address>, p: Labels, from: nat, to: nat): Counters {
    if from < |c.edges2Shard| && to < |c.edges2Shard| then
      var counts := Shifted(c.edges2Shard, lst, p, from, to);
      Counters(counts, MinFrom(counts), c.cross + Labelled(lst, p, from) - Labelled(lst, p, to))
    else c
  }

  function MovedTo(g: Graph, x: Stage, v: Address, to: nat): Stage
    requires v in x.labels
  {
    var p := x.labels[v := to];
    Stage(p, AfterMove(x.counters, Listed(g.edges, v), p, x.labels[v], to), x.res[v := to], x.moves[v := MovesOf(x, v) + 1])
  }

  /** The vertex may move: it has moved fewer than fifty times, and is not alone in its shard. */
  predicate MayMove(g: Graph, x: Stage, v: Address) {
    v in x.labels && MovesOf(x, v) < 50 && |InShard(g.vertices, x.labels, x.labels[v])| > 1
  }

  /** One visit: the vertex moves to its best shard if that is another and it may, and else nothing changes. */
  ghost predicate VisitedFor(g: Graph, x: Stage, v: Address, best: nat, y: Stage) {
    && Chooses(g, x.labels, x.counters, v, best)
    && y == if MayMove(g, x, v) && best != x.labels[v] then MovedTo(g, x, v, best) else x
  }

  ghost predicate Visited(g: Graph, x: Stage, v: Address, y: Stage) {
    v in x.labels && if MovesOf(x, v) >= 50 then y == x else exists best: nat :: VisitedFor(g, x, v, best, y)
  }

  // ----- rounds and runs

  ghost predicate Trace(g: Graph, order: seq<Address>, stages: seq<Stage>) {
    |stages| == |order| + 1 && forall i {:trigger order[i]} :: 0 <= i < |order| ==> Visited(g, stages[i], order[i], stages[i + 1])
  }

  /** Every vertex once. */
  ghost predicate Everyone(g: Graph, order: seq<Address>) {
    Distinct(order) && forall v :: v in order <==> v in g.vertices
  }

  ghost predicate RoundOf(g: Graph, x: Stage, y: Stage) {
    exists order, stages :: Everyone(g, order) && Trace(g, order, stages) && stages[0] == x && stages[|order|] == y
  }

  ghost predicate RoundAt(g: Graph, stages: seq<Stage>, i: nat) {
    i + 1 < |stages| && RoundOf(g, stages[i], stages[i + 1])
  }

  ghost predicate Rounds(g: Graph, stages: seq<Stage>) {
    |stages| > 0 && forall i: nat {:trigger RoundAt(g, stages, i)} :: i + 1 < |stages| ==> RoundAt(g, stages, i)
  }

  /** `n` rounds, one after the other. */
  ghost predicate RunOf(g: Graph, n: nat, x: Stage, y: Stage) {
    exists stages :: Rounds(g, stages) && |stages| == n + 1 && stages[0] == x && stages[n] == y
  }

  lemma TraceNext(g: Graph, order: seq<Address>, stages: seq<Stage>, v: Address, y: Stage)
    requires Trace(g, order, stages) && Visited(g, stages[|order|], v, y)
    ensures Trace(g, order + [v], stages + [y])
  {
    var order', stages' := order + [v], stages + [y];
    forall i | 0 <= i < |order'|
      ensures Visited(g, stages'[i], order'[i], stages'[i + 1])
    {
      if i < |order| {
        assert order'[i] == order[i];
      }
    }
  }

  /** What a visit to `v` does to labels and counters, `to` being its best shard. */
  ghost predicate Steps(g: Graph, p: Labels, c: Counters, v: Address, to: nat, moved: bool, p': Labels, c': Counters) {
    && Chooses(g, p, c, v, to)
    && (moved <==> to != p[v] && |InShard(g.vertices, p, p[v])| > 1)
    && p' == (if moved then p[v := to] else p)
    && c' == (if moved then AfterMove(c, Listed(g.edges, v), p', p[v], to) else c)
  }

  lemma VisitIs(g: Graph, v: Address, to: nat, moved: bool, p: Labels, c: Counters, res: Labels, moves: map<Address, nat>,
                p': Labels, c': Counters, res': Labels, moves': map<Address, nat>)
    requires Steps(g, p, c, v, to, moved, p', c') && (if v in moves then moves[v] else 0) < 50
    requires res' == if moved then res[v := to] else res
    requires moves' == if moved then moves[v := (if v in moves then moves[v] else 0) + 1] else moves
    ensures Visited(g, Stage(p, c, res, moves), v, Stage(p', c', res', moves'))
  {
    assert VisitedFor(g, Stage(p, c, res, moves), v, to, Stage(p', c', res', moves'));
  }

  /** Where a round stands: `todo` has not been visited yet. */
  ghost predicate Underway(g: Graph, order: seq<Address>, stages: seq<Stage>, todo: set<Address>, x: Stage, y: Stage) {
    && Trace(g, order, stages) && stages[0] == x && stages[|order|] == y
    && Distinct(order) && todo <= g.vertices && forall v :: v in order <==> v in g.vertices && v !in todo
  }

  lemma UnderwayNext(g: Graph, order: seq<Address>, stages: seq<Stage>, todo: set<Address>, x: Stage, y: Stage, v: Address, z: Stage)
    requires Underway(g, order, stages, todo, x, y) && v in todo && Visited(g, y, v, z)
    ensures Underway(g, order + [v], stages + [z], todo - {v}, x, z)
  {
    TraceNext(g, order, stages, v, z);
  }

  lemma UnderwayEnds(g: Graph, order: seq<Address>, stages: seq<Stage>, x: Stage, y: Stage)
    requires Underway(g, order, stages, {}, x, y)
    ensures RoundOf(g, x, y)
  {
    assert Everyone(g, order);
  }

  function RoundCount(maxIterations: int): nat { if maxIterations > 0 then maxIterations else 0 }

  /** `res` is what a run of `n` rounds makes of true counts, and `p'` the labels it leaves. */
  ghost predicate Partitions(g: Graph, log: seq<Link>, shards: nat, n: int, p: Labels, res: Labels, p': Labels) {
    exists first, last, moves :: TrueCounts(first, log, p, shards)
      && RunOf(g, RoundCount(n), Stage(p, first, map[], map[]), Stage(p', last, res, moves))
  }

  lemma PartitionsBy(g: Graph, log: seq<Link>, shards: nat, n: int, x: Stage, y: Stage)
    requires TrueCounts(x.counters, log, x.labels, shards) && x.res == map[] && x.moves == map[]
    requires RunOf(g, RoundCount(n), x, y)
    ensures Partitions(g, log, shards, n, x.labels, y.res, y.labels)
  {
    assert x == Stage(x.labels, x.counters, map[], map[]) && y == Stage(y.labels, y.counters, y.res, y.moves);
  }

  lemma NoRounds(g: Graph, x: Stage)
    ensures RunOf(g, 0, x, x)
  {
    assert Rounds(g, [x]);
  }

  lemma OneMoreRound(g: Graph, n: nat, x: Stage, y: Stage, z: Stage)
    requires RunOf(g, n, x, y) && RoundOf(g, y, z)
    ensures RunOf(g, n + 1, x, z)
  {
    var stages :| Rounds(g, stages) && |stages| == n + 1 && stages[0] == x && stages[n] == y;
    var stages' := stages + [z];
    forall i: nat | i + 1 < |stages'|
      ensures RoundAt(g, stages', i)
    {
      if i < n {
        assert RoundAt(g, stages, i);
      }
    }
    assert Rounds(g, stages');
  }

  // ----- what a round without moves tells

  /** The choice is unique. */
  lemma OneBest(s: Scoring, n: nat, own: nat, a: nat, sa: Score, b: nat, sb: Score)
    requires Scorable(s) && n <= |s.lst| && IsBest(s, n, own, a, sa) && IsBest(s, n, own, b, sb)
    ensures a == b
  {
    if !NoneAbove(Scores(s), n) {
      var i: nat :| Leads(Scores(s), n, i) && a == Label(s.labels, s.lst[i]);
      var j: nat :| Leads(Scores(s), n, j) && b == Label(s.labels, s.lst[j]);
      OneLeads(Scores(s), n, i, j);
    }
  }

  lemma OneLeads(s: seq<Score>, n: nat, i: nat, j: nat)
    requires n <= |s| && Leads(s, n, i) && Leads(s, n, j)
    ensures i == j
  {
  }

  lemma OneChoice(g: Graph, x: Stage, v: Address, a: nat, b: nat)
    requires Chooses(g, x.labels, x.counters, v, a) && Chooses(g, x.labels, x.counters, v, b)
    ensures a == b
  {
    var s, n := ScoringAt(g, x.labels, x.counters, v), |Listed(g.edges, v)|;
    var sa :| IsBest(s, n, x.labels[v], a, sa);
    var sb :| IsBest(s, n, x.labels[v], b, sb);
    OneBest(s, n, x.labels[v], a, sa, b, sb);
  }

  /** Who is not visited keeps his label. */
  lemma {:induction false} LabelStays(g: Graph, order: seq<Address>, stages: seq<Stage>, i: nat, j: nat, v: Address)
    requires Trace(g, order, stages) && i <= j <= |order| && v in stages[i].labels
    requires forall k :: i <= k < j ==> order[k] != v
    ensures v in stages[j].labels && stages[j].labels[v] == stages[i].labels[v]
  {
    if i < j {
      LabelStays(g, order, stages, i, j - 1, v);
      assert Visited(g, stages[j - 1], order[j - 1], stages[j]);
    }
  }

  /** A visit that changes something gives its vertex another label. */
  lemma VisitMoves(g: Graph, x: Stage, v: Address, y: Stage)
    requires Visited(g, x, v, y) && y != x
    ensures v in y.labels && y.labels[v] != x.labels[v]
  {
  }

  lemma {:induction false} NothingMoved(g: Graph, order: seq<Address>, stages: seq<Stage>, i: nat)
    requires Trace(g, order, stages) && Distinct(order) && i <= |order| && stages[|order|].labels == stages[0].labels
    ensures stages[i] == stages[0]
  {
    if i > 0 {
      NothingMoved(g, order, stages, i - 1);
      var v := order[i - 1];
      assert Visited(g, stages[i - 1], v, stages[i]);
      if stages[i] != stages[i - 1] {
        VisitMoves(g, stages[i - 1], v, stages[i]);
        LabelStays(g, order, stages, i, |order|, v);
      }
    }
  }

  lemma StableTrace(g: Graph, order: seq<Address>, stages: seq<Stage>, i: nat)
    requires Trace(g, order, stages) && Distinct(order) && i < |order| && stages[|order|].labels == stages[0].labels
    ensures Visited(g, stages[0], order[i], stages[0]) && stages[|order|] == stages[0]
  {
    NothingMoved(g, order, stages, i);
    NothingMoved(g, order, stages, i + 1);
    NothingMoved(g, order, stages, |order|);
    assert Visited(g, stages[i], order[i], stages[i + 1]);
  }

  /** If a round leaves the labels as they were, whoever may move has chosen his own shard. */
  lemma StableChoice(g: Graph, x: Stage, y: Stage, v: Address)
    requires RoundOf(g, x, y) && y.labels == x.labels && v in g.vertices && MayMove(g, x, v)
    ensures y == x && Chooses(g, x.labels, x.counters, v, x.labels[v])
  {
    var order, stages :| Everyone(g, order) && Trace(g, order, stages) && stages[0] == x && stages[|order|] == y;
    assert v in order;
    var i :| 0 <= i < |order| && order[i] == v;
    StableTrace(g, order, stages, i);
  }

  /** That is, nobody who may move has a better shard. */
  lemma StableMeansBest(g: Graph, x: Stage, y: Stage, v: Address, best: nat)
    requires RoundOf(g, x, y) && y.labels == x.labels && v in g.vertices && MayMove(g, x, v) && Chooses(g, x.labels, x.counters, v, best)
    ensures y == x && best == x.labels[v]
  {
    StableChoice(g, x, y, v);
    OneChoice(g, x, v, best, x.labels[v]);
  }

  // ----- two shards in which a round moves somebody

  /** The graph of `Pair`: vertices 0 and 2 in shard 0, both linked to vertex 1 in shard 1. */
  function PairGraph(): Graph {
    var a, b, c := Address("0"), Address("1"), Address("2");
    Graph({a, b, c}, map[a := [b], b := [a, c], c := [b]], ExactRate(0.5))
  }

  function PairStage(): Stage { Stage(PairLabels(), Counters([2, 2], 2, 2), map[], map[]) }

  lemma PairMayMove()
    ensures Listed(PairGraph().edges, Address("0")) == [Address("1")] && MayMove(PairGraph(), PairStage(), Address("0"))
    ensures PairLabels()[Address("0")] == 0
  {
    var a, b, c := Address("0"), Address("1"), Address("2");
    assert a.hex[0] == '0' && b.hex[0] == '1' && c.hex[0] == '2';
    assert InShard(PairGraph().vertices, PairLabels(), 0) == {a, c};
  }

  lemma PairChooses(best: nat)
    requires Chooses(PairGraph(), PairLabels(), Counters([2, 2], 2, 2), Address("0"), best)
    ensures best == 1
  {
    PairMayMove();
    var score :| IsBest(ScoringAt(PairGraph(), PairLabels(), Counters([2, 2], 2, 2), Address("0")), 1, 0, best, score);
    PairScores(best, score);
  }

  /** Whoever is visited first, the labels change: vertex 0 would follow vertex 1. */
  lemma PairMoves(y: Stage)
    requires RoundOf(PairGraph(), PairStage(), y)
    ensures y.labels != PairLabels()
  {
    PairMayMove();
    if y.labels == PairLabels() {
      StableChoice(PairGraph(), PairStage(), y, Address("0"));
      PairChooses(0);
    }
  }
}
