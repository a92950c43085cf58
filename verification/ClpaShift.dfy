/**
 The derived counters of the CLPA state (partition/partition_CLPA.go) as values: what they should be, and what the
 fast update after a move makes of them.
 */
module ClpaShift {
  import opened Accounts
  import opened Sums
  import opened ClpaCounts
  import opened ClpaScores

  const MAX_INT: int := 0x7fff_ffff_ffff_ffff

  /** The minimum the code's scan ends with; it starts from the largest machine integer. */
  function MinFrom(s: seq<int>): int {
    if s == [] then MAX_INT
    else
      var m := MinFrom(s[..|s| - 1]);
      if m > s[|s| - 1] then s[|s| - 1] else m
  }

  method ScanMin(s: seq<int>) returns (m: int)
    ensures m == MinFrom(s)
  {
    m := MAX_INT;
    for i := 0 to |s|
      invariant m == MinFrom(s[..i])
    {
      assert s[..i + 1][..i] == s[..i];
      if m > s[i] {
        m := s[i];
      }
    }
    assert s[..|s|] == s;
  }

  /** All the derived counters at once. */
  datatype Counters = Counters(edges2Shard: seq<int>, min: int, cross: int)

  /** The counters are the true counts of the links under the labels. */
  ghost predicate TrueCounts(c: Counters, log: seq<Link>, p: Labels, shards: nat) {
    && |c.edges2Shard| == shards
    && (forall k :: 0 <= k < shards ==> c.edges2Shard[k] == Touching(log, p, k))
    && c.cross == Crossing(log, p)
    && c.min == MinFrom(c.edges2Shard)
  }

  /** Some shard has no link. */
  ghost predicate SomeIdle(log: seq<Link>, p: Labels, shards: nat) {
    exists k: nat :: k < shards && Touching(log, p, k) == 0
  }

  lemma {:induction false} MinFromAtMost(s: seq<int>, i: nat)
    requires i < |s|
    ensures MinFrom(s) <= s[i] && (MinFrom(s) == MAX_INT || MinFrom(s) in s)
  {
    var init := s[..|s| - 1];
    if init != [] {
      MinFromAtMost(init, if i < |init| then i else 0);
    }
  }

  /** The scan finds a zero exactly if some shard has no link. */
  lemma MinimumIsZeroIff(c: Counters, log: seq<Link>, p: Labels, shards: nat)
    requires TrueCounts(c, log, p, shards) && shards > 0
    ensures c.min == 0 <==> SomeIdle(log, p, shards)
  {
    MinFromAtMost(c.edges2Shard, 0);
    if SomeIdle(log, p, shards) {
      var k: nat :| k < shards && Touching(log, p, k) == 0;
      MinFromAtMost(c.edges2Shard, k);
    }
  }

  lemma TrueCountsUnique(c: Counters, d: Counters, log: seq<Link>, p: Labels, shards: nat)
    requires TrueCounts(c, log, p, shards) && TrueCounts(d, log, p, shards)
    ensures c == d
  {
    assert c.edges2Shard == d.edges2Shard;
  }

  /** The counts per shard after the fast update has gone through the neighbour list `lst`. */
  function Shifted(counts: seq<int>, lst: seq<Address>, p: Labels, from: nat, to: nat): seq<int>
    requires from < |counts| && to < |counts|
  {
    ShiftedBy(counts, |lst|, Labelled(lst, p, to), Labelled(lst, p, from), from, to)
  }

  /** The same by numbers: of `n` neighbours, `x` are in `to` and `y` in `from`. */
  function ShiftedBy(counts: seq<int>, n: nat, x: nat, y: nat, from: nat, to: nat): seq<int>
    requires from < |counts| && to < |counts|
  {
    counts[to := counts[to] + n - x][from := counts[from] - n + y]
  }

  /** What one neighbour in shard `s` does to the counts: the three branches of the loop. */
  function Adjusted(c: seq<int>, s: nat, from: nat, to: nat): seq<int>
    requires from < |c| && to < |c|
  {
    if s != to && s != from then c[to := c[to] + 1][from := c[from] - 1]
    else if s == to then c[from := c[from] - 1]
    else c[to := c[to] + 1]
  }

  lemma ShiftStep(counts: seq<int>, lst: seq<Address>, i: nat, p: Labels, from: nat, to: nat)
    requires i < |lst| && from < |counts| && to < |counts| && from != to
    ensures Shifted(counts, lst[..i + 1], p, from, to) == Adjusted(Shifted(counts, lst[..i], p, from, to), Label(p, lst[i]), from, to)
    ensures Labelled(lst[..i + 1], p, from) == Labelled(lst[..i], p, from) + Bit(Label(p, lst[i]) == from)
    ensures Labelled(lst[..i + 1], p, to) == Labelled(lst[..i], p, to) + Bit(Label(p, lst[i]) == to)
  {
    LabelledNext(lst, i, p, from);
    LabelledNext(lst, i, p, to);
    ShiftAdjusts(counts, i, Labelled(lst[..i], p, to), Labelled(lst[..i], p, from), Label(p, lst[i]), from, to);
  }

  /** Where the fast update stands after the neighbours `lst`. */
  ghost predicate ShiftedTo(counts: seq<int>, cross: int, counts': seq<int>, cross': int, lst: seq<Address>, p: Labels, from: nat, to: nat) {
    && from < |counts| && to < |counts|
    && counts' == Shifted(counts, lst, p, from, to) && cross' == cross + Labelled(lst, p, from) - Labelled(lst, p, to)
  }

  lemma LabelledNext(lst: seq<Address>, i: nat, p: Labels, k: nat)
    requires i < |lst|
    ensures Labelled(lst[..i + 1], p, k) == Labelled(lst[..i], p, k) + Bit(Label(p, lst[i]) == k)
  {
    assert lst[..i + 1][..i] == lst[..i];
  }

  lemma ShiftAdjusts(counts: seq<int>, n: nat, x: nat, y: nat, s: nat, from: nat, to: nat)
    requires from < |counts| && to < |counts| && from != to
    ensures ShiftedBy(counts, n + 1, x + Bit(s == to), y + Bit(s == from), from, to)
      == Adjusted(ShiftedBy(counts, n, x, y, from, to), s, from, to)
  {
  }

  /** The fast update turns true counts into true counts exactly when the moved vertex has no self-loop. */
  lemma ShiftIsExact(c: Counters, d: Counters, log: seq<Link>, p: Labels, v: Address, from: nat, to: nat, shards: nat)
    requires TrueCounts(c, log, p, shards) && v in p && p[v] == from && from != to && from < shards && to < shards
    requires d.edges2Shard == Shifted(c.edges2Shard, Neighbours(log, v), p[v := to], from, to)
    requires d.cross == c.cross + Labelled(Neighbours(log, v), p[v := to], from) - Labelled(Neighbours(log, v), p[v := to], to)
    requires d.min == MinFrom(d.edges2Shard)
    ensures TrueCounts(d, log, p[v := to], shards) <==> v !in Neighbours(log, v)
  {
    forall k: nat | k < shards
      ensures Touching(log, p[v := to], k) as int
        == d.edges2Shard[k] + (if k == to || k == from then SelfLoops(log, v) else 0)
      ensures Crossing(log, p[v := to]) == d.cross + 2 * SelfLoops(log, v)
    {
      MoveChangesCounts(log, p, v, from, to, k);
    }
    SelfLoopsInList(log, v);
    assert Crossing(log, p[v := to]) == d.cross + 2 * SelfLoops(log, v) by {
      MoveChangesCounts(log, p, v, from, to, 0);
    }
  }

  lemma LabelledTwice(v: Address, q: Labels, k: nat)
    ensures Labelled([v, v], q, k) == 2 * Bit(Label(q, v) == k)
  {
    assert [v, v][..1] == [v] && [v][..0] == [];
    assert Labelled([v][..0], q, k) == 0;
    assert Labelled([v], q, k) == Bit(Label(q, v) == k);
  }

  lemma LoopNeighbours(v: Address, q: Labels, k: nat)
    ensures Neighbours([Link(v, v)], v) == [v, v] && Labelled([v, v], q, k) == 2 * Bit(Label(q, v) == k)
    ensures Touching([Link(v, v)], q, k) == Bit(Label(q, v) == k) && Crossing([Link(v, v)], q) == 0
  {
    var log := [Link(v, v)];
    assert Init(log) == [] && Last(log) == Link(v, v);
    assert Neighbours(Init(log), v) == [] && Touching(Init(log), q, k) == 0 && Crossing(Init(log), q) == 0;
    LabelledTwice(v, q, k);
  }

  lemma MinOfTwo(x: int, y: int)
    requires y <= x <= MAX_INT
    ensures MinFrom([x, y]) == y
  {
    assert [x, y][..1] == [x] && [x][..0] == [];
    assert MinFrom([x][..0]) == MAX_INT;
    assert MinFrom([x]) == x;
  }

  /** A vertex linked to itself moves from shard 0 to shard 1: the fast update leaves -1 links at shard 0 and -2 crossing. */
  lemma SelfLoopMiscounts()
    ensures var v := Address("0");
      var log, p := [Link(v, v)], map[v := 0];
      var c := Counters([1, 0], 0, 0);
      var counts := Shifted(c.edges2Shard, Neighbours(log, v), p[v := 1], 0, 1);
      var cross := c.cross + Labelled(Neighbours(log, v), p[v := 1], 0) - Labelled(Neighbours(log, v), p[v := 1], 1);
      && TrueCounts(c, log, p, 2) && counts == [-1, 0] && cross == -2
      && Touching(log, p[v := 1], 0) == 0 && Touching(log, p[v := 1], 1) == 1 && Crossing(log, p[v := 1]) == 0
  {
    var v := Address("0");
    var p, q := map[v := 0], map[v := 0][v := 1];
    LoopNeighbours(v, p, 0);
    LoopNeighbours(v, p, 1);
    LoopNeighbours(v, q, 0);
    LoopNeighbours(v, q, 1);
    MinOfTwo(1, 0);
  }

  /** Vertices 0 and 2 in shard 0, both linked to vertex 1 in shard 1. */
  function Pair(): seq<Link> { [Link(Address("0"), Address("1")), Link(Address("2"), Address("1"))] }

  function PairLabels(): Labels { map[Address("0") := 0, Address("1") := 1, Address("2") := 0] }

  lemma PairCounts(k: nat)
    ensures Neighbours(Pair(), Address("0")) == [Address("1")]
    ensures Touching(Pair(), PairLabels(), k) == (if k < 2 then 2 else 0) && Crossing(Pair(), PairLabels()) == 2
  {
    var a, b, c := Address("0"), Address("1"), Address("2");
    assert a.hex[0] == '0' && b.hex[0] == '1' && c.hex[0] == '2';
    var one := [Link(a, b)];
    assert Init(Pair()) == one && Init(one) == [];
    assert Last(Pair()) == Link(c, b) && Last(one) == Link(a, b);
    assert Neighbours(Init(one), a) == [] && Touching(Init(one), PairLabels(), k) == 0 && Crossing(Init(one), PairLabels()) == 0;
    assert Neighbours(one, a) == [b];
    assert Touching(one, PairLabels(), k) == (if k < 2 then 1 else 0) && Crossing(one, PairLabels()) == 1;
  }

  /** A third shard without links keeps vertex 0 from following its only neighbour; without that shard it would go. */
  lemma IdleShardHolds(best: nat, score: Score)
    ensures TrueCounts(Counters([2, 2, 0], 0, 2), Pair(), PairLabels(), 3)
    ensures TrueCounts(Counters([2, 2], 2, 2), Pair(), PairLabels(), 2)
    ensures var g := Scoring([Address("1")], PairLabels(), [2, 2, 0], 0, ExactRate(0.5));
      Scorable(g) && (IsBest(g, 1, 0, best, score) ==> best == 0)
    ensures var g := Scoring([Address("1")], PairLabels(), [2, 2], 2, ExactRate(0.5));
      Scorable(g) && (IsBest(g, 1, 0, best, score) ==> best == 1)
  {
    PairCounts(0);
    PairCounts(1);
    PairCounts(2);
    MinOfTwo(2, 2);
    assert [2, 2, 0][..2] == [2, 2];
    PairScores(best, score);
  }

  lemma PairScores(best: nat, score: Score)
    ensures var g := Scoring([Address("1")], PairLabels(), [2, 2, 0], 0, ExactRate(0.5));
      Scorable(g) && (IsBest(g, 1, 0, best, score) ==> best == 0)
    ensures var g := Scoring([Address("1")], PairLabels(), [2, 2], 2, ExactRate(0.5));
      Scorable(g) && (IsBest(g, 1, 0, best, score) ==> best == 1)
  {
    var b, p := Address("1"), PairLabels();
    assert Address("0").hex[0] == '0' && b.hex[0] == '1' && Address("2").hex[0] == '2';
    assert Label(p, b) == 1;
    var g3, g2 := Scoring([b], p, [2, 2, 0], 0, ExactRate(0.5)), Scoring([b], p, [2, 2], 2, ExactRate(0.5));
    assert [b][..0] == [] && Labelled([b][..0], p, 1) == 0;
    assert Labelled([b], p, 1) == 1;
    assert Exact(0.5, 1, 1, 2, 0) == Infinite(false);
    assert Exact(0.5, 1, 1, 2, 2) == Finite(0.5);
    assert Scores(g3)[0] == Infinite(false);
    assert Scores(g2)[0] == Finite(0.5);
  }
}
