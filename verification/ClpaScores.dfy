/**
 The score by which CLPA chooses a shard (getShard_score in partition/partition_CLPA.go). The choice is described
 for any way of computing a score from the counts, rounded or not: a floating-point result is a real number, an
 infinity or not a number.
 */
module ClpaScores {
  import opened Accounts
  import opened ClpaCounts

  datatype Score = Finite(value: real) | Infinite(positive: bool) | NotANumber

  /** `a < b`; no comparison with not-a-number holds. */
  predicate Below(a: Score, b: Score) {
    match a
    case NotANumber => false
    case Infinite(positive) => !positive && (b.Finite? || (b.Infinite? && b.positive))
    case Finite(x) => (b.Finite? && x < b.value) || (b.Infinite? && b.positive)
  }

  /**
   The arithmetic of a score, from the vertex's links to the shard, all its links, the shard's links and the
   smallest number of links of a shard.
   */
  type Rate = (nat, nat, int, int) -> Score

  /** What the scores of a vertex with the neighbours `lst` depend on. */
  datatype Scoring = Scoring(lst: seq<Address>, labels: Labels, edges2Shard: seq<int>, minEdges2Shard: int, rate: Rate)

  predicate Scorable(g: Scoring) {
    forall i :: 0 <= i < |g.lst| ==> Label(g.labels, g.lst[i]) < |g.edges2Shard|
  }

  function ShardScore(g: Scoring, k: nat): Score
    requires k < |g.edges2Shard|
  {
    g.rate(Labelled(g.lst, g.labels, k), |g.lst|, g.edges2Shard[k], g.minEdges2Shard)
  }

  /** The score of each neighbour's shard. */
  function Scores(g: Scoring): (s: seq<Score>)
    requires Scorable(g)
    ensures |s| == |g.lst| && forall i :: 0 <= i < |s| ==> s[i] == ShardScore(g, Label(g.labels, g.lst[i]))
  {
    seq(|g.lst|, i requires 0 <= i < |g.lst| => ShardScore(g, Label(g.labels, g.lst[i])))
  }

  function Threshold(): Score { Finite(-9999.0) }

  /** Of the first `n` scores, number `i` is the first of the largest, and above the threshold. */
  ghost predicate Leads(s: seq<Score>, n: nat, i: nat)
    requires n <= |s|
  {
    && i < n && Below(Threshold(), s[i])
    && (forall j :: 0 <= j < n ==> !Below(s[i], s[j]))
    && (forall j :: 0 <= j < i && Below(Threshold(), s[j]) ==> Below(s[j], s[i]))
  }

  ghost predicate NoneAbove(s: seq<Score>, n: nat)
    requires n <= |s|
  {
    forall j :: 0 <= j < n ==> !Below(Threshold(), s[j])
  }

  /** One more score takes the lead exactly if it is larger. */
  lemma NextLeads(s: seq<Score>, n: nat, i: nat)
    requires n < |s|
    ensures NoneAbove(s, n) && !Below(Threshold(), s[n]) ==> NoneAbove(s, n + 1)
    ensures NoneAbove(s, n) && Below(Threshold(), s[n]) ==> Leads(s, n + 1, n)
    ensures Leads(s, n, i) ==> Leads(s, n + 1, if Below(s[i], s[n]) then n else i)
  {
  }

  /** The best of the first `n` neighbours' shards, or the vertex's own shard if none is above the threshold. */
  ghost predicate IsBest(g: Scoring, n: nat, own: nat, best: nat, score: Score)
    requires Scorable(g) && n <= |g.lst|
  {
    || (NoneAbove(Scores(g), n) && best == own && score == Threshold())
    || exists i: nat :: Leads(Scores(g), n, i) && best == Label(g.labels, g.lst[i]) && score == Scores(g)[i]
  }

  lemma NextBest(g: Scoring, n: nat, own: nat, best: nat, score: Score)
    requires Scorable(g) && n < |g.lst| && IsBest(g, n, own, best, score)
    ensures if Below(score, Scores(g)[n]) then IsBest(g, n + 1, own, Label(g.labels, g.lst[n]), Scores(g)[n])
            else IsBest(g, n + 1, own, best, score)
  {
    var s := Scores(g);
    if NoneAbove(s, n) && score == Threshold() {
      NextLeads(s, n, n);
    } else {
      var i: nat :| Leads(s, n, i) && best == Label(g.labels, g.lst[i]) && score == s[i];
      NextLeads(s, n, i);
    }
  }

  /** A shard whose score is known already cannot take the lead again. */
  lemma SeenBefore(g: Scoring, n: nat, own: nat, best: nat, score: Score, j: nat)
    requires Scorable(g) && j < n < |g.lst| && IsBest(g, n, own, best, score) && Label(g.labels, g.lst[j]) == Label(g.labels, g.lst[n])
    ensures !Below(score, Scores(g)[n])
  {
    assert Scores(g)[j] == Scores(g)[n];
  }

  /** The search after `n` neighbours, `scored` being the shards it has met. */
  ghost predicate Searched(g: Scoring, n: nat, own: nat, best: nat, score: Score, scored: set<nat>) {
    && Scorable(g) && n <= |g.lst| && IsBest(g, n, own, best, score)
    && forall k :: k in scored <==> exists j :: 0 <= j < n && Label(g.labels, g.lst[j]) == k
  }

  lemma SearchNext(g: Scoring, n: nat, own: nat, best: nat, score: Score, scored: set<nat>)
    requires Searched(g, n, own, best, score, scored) && n < |g.lst|
    ensures var k := Label(g.labels, g.lst[n]);
      if k in scored then Searched(g, n + 1, own, best, score, scored)
      else if Below(score, ShardScore(g, k)) then Searched(g, n + 1, own, k, ShardScore(g, k), scored + {k})
      else Searched(g, n + 1, own, best, score, scored + {k})
  {
    var k := Label(g.labels, g.lst[n]);
    NextBest(g, n, own, best, score);
    if k in scored {
      var j: nat :| j < n && Label(g.labels, g.lst[j]) == k;
      SeenBefore(g, n, own, best, score, j);
    }
  }

  // ----- a shard without links

  lemma {:induction false} NeighbourTouches(log: seq<Link>, p: Labels, v: Address, u: Address)
    requires u in Neighbours(log, v)
    ensures Touching(log, p, Label(p, u)) > 0
  {
    if u in Neighbours(Init(log), v) {
      NeighbourTouches(Init(log), p, v, u);
    }
  }

  ghost predicate CountsLinks(g: Scoring, log: seq<Link>) {
    forall k :: 0 <= k < |g.edges2Shard| ==> g.edges2Shard[k] == Touching(log, g.labels, k)
  }

  lemma {:induction false} LabelledAtLeastOne(lst: seq<Address>, p: Labels, i: nat)
    requires i < |lst|
    ensures Labelled(lst, p, Label(p, lst[i])) > 0
  {
    if i < |lst| - 1 {
      LabelledAtLeastOne(lst[..|lst| - 1], p, i);
    }
  }

  /** Where the smallest number of links is zero, no shard that has links comes above the threshold. */
  ghost predicate SinksAtZero(rate: Rate) {
    forall links: nat, degree: nat, edges: int :: links > 0 && degree > 0 && edges > 0 ==>
      !Below(Threshold(), rate(links, degree, edges, 0))
  }

  /** For such a score a shard without links makes every vertex stay. */
  lemma IdleShardFreezes(g: Scoring, log: seq<Link>, v: Address, own: nat, best: nat, score: Score)
    requires Scorable(g) && g.lst == Neighbours(log, v) && SinksAtZero(g.rate) && CountsLinks(g, log)
    requires g.minEdges2Shard == 0 && IsBest(g, |g.lst|, own, best, score)
    ensures best == own
  {
    forall i: nat | i < |g.lst|
      ensures !Below(Threshold(), Scores(g)[i])
    {
      NeighbourTouches(log, g.labels, v, g.lst[i]);
      LabelledAtLeastOne(g.lst, g.labels, i);
    }
  }

  // ----- the score of the original, without rounding

  /** The share of the vertex's links, times one less the penalty; a division by zero as in floating point. */
  function Exact(penalty: real, links: nat, degree: nat, edges: int, min: int): Score {
    if degree == 0 then NotANumber
    else
      var share, weight := links as real / degree as real, penalty * edges as real;
      if min != 0 then Finite(share * (1.0 - weight / min as real))
      else if weight == 0.0 || share == 0.0 then NotANumber
      else Infinite(weight < 0.0)
  }

  function ExactRate(penalty: real): Rate {
    (links: nat, degree: nat, edges: int, min: int) => Exact(penalty, links, degree, edges, min)
  }

  /** It is a number exactly if every shard has a link, and otherwise minus infinity. */
  lemma ExactFiniteIff(penalty: real, links: nat, degree: nat, edges: int, min: int)
    requires penalty > 0.0 && links > 0 && degree > 0 && edges > 0
    ensures if min != 0 then Exact(penalty, links, degree, edges, min).Finite? else Exact(penalty, links, degree, edges, min) == Infinite(false)
  {
    assert links as real / degree as real > 0.0;
    assert penalty * edges as real > 0.0;
  }

  lemma ExactSinks(penalty: real)
    requires penalty > 0.0
    ensures SinksAtZero(ExactRate(penalty))
  {
    forall links: nat, degree: nat, edges: int | links > 0 && degree > 0 && edges > 0
      ensures !Below(Threshold(), ExactRate(penalty)(links, degree, edges, 0))
    {
      ExactFiniteIff(penalty, links, degree, edges, 0);
    }
  }
}
