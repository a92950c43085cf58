/**
 What the counters of the CLPA state (partition/partition_CLPA.go) are meant to be, over the multigraph
 that `AddEdge` builds. The graph is described by the list of links added to it; the adjacency lists of
 partition/graph.go are `Neighbours` of that list.
 */
module ClpaCounts {
  import opened Accounts
  import opened Sums

  /** One undirected link, as handed to `AddEdge`. */
  datatype Link = Link(a: Address, b: Address)

  type Labels = map<Address, nat>

  /** A missing key reads as shard 0, as in Go. */
  function Label(p: Labels, x: Address): nat {
    if x in p then p[x] else 0
  }

  function Init(log: seq<Link>): seq<Link> requires log != [] { log[..|log| - 1] }
  function Last(log: seq<Link>): Link requires log != [] { log[|log| - 1] }

  /** The adjacency list of `x`: both directions of every link are recorded. */
  function Neighbours(log: seq<Link>, x: Address): seq<Address> {
    if log == [] then []
    else
      var l := Last(log);
      Neighbours(Init(log), x) + (if l.a == x then [l.b] else []) + (if l.b == x then [l.a] else [])
  }

  function Ends(log: seq<Link>): set<Address> {
    if log == [] then {} else Ends(Init(log)) + {Last(log).a, Last(log).b}
  }

  // ----- the reference counts, one link at a time

  predicate Touches(p: Labels, l: Link, k: nat) {
    Label(p, l.a) == k || Label(p, l.b) == k
  }

  predicate Crosses(p: Labels, l: Link) {
    Label(p, l.a) != Label(p, l.b)
  }

  /** Links with at least one end in shard `k`. */
  function Touching(log: seq<Link>, p: Labels, k: nat): nat {
    if log == [] then 0 else Touching(Init(log), p, k) + Bit(Touches(p, Last(log), k))
  }

  /** Links between different shards. */
  function Crossing(log: seq<Link>, p: Labels): nat {
    if log == [] then 0 else Crossing(Init(log), p) + Bit(Crosses(p, Last(log)))
  }

  function SelfLoops(log: seq<Link>, v: Address): nat {
    if log == [] then 0 else SelfLoops(Init(log), v) + Bit(Last(log) == Link(v, v))
  }

  // ----- the counts the code forms from adjacency lists

  /** Entries of a list that are labelled `k`. */
  function Labelled(lst: seq<Address>, p: Labels, k: nat): nat {
    if lst == [] then 0 else Labelled(lst[..|lst| - 1], p, k) + Bit(Label(p, lst[|lst| - 1]) == k)
  }

  lemma {:induction false} LabelledConcat(s: seq<Address>, t: seq<Address>, p: Labels, k: nat)
    ensures Labelled(s + t, p, k) == Labelled(s, p, k) + Labelled(t, p, k)
  {
    if t == [] {
      assert s + t == s;
    } else {
      var t' := t[..|t| - 1];
      assert (s + t)[..|s + t| - 1] == s + t';
      LabelledConcat(s, t', p, k);
    }
  }

  /** Labelled entries among the neighbours of `x`, unfolded by one link. */
  lemma LabelledNeighbours(log: seq<Link>, x: Address, p: Labels, k: nat)
    requires log != []
    ensures Labelled(Neighbours(log, x), p, k) == Labelled(Neighbours(Init(log), x), p, k)
      + Bit(Last(log).a == x && Label(p, Last(log).b) == k) + Bit(Last(log).b == x && Label(p, Last(log).a) == k)
    ensures |Neighbours(log, x)| == |Neighbours(Init(log), x)| + Bit(Last(log).a == x) + Bit(Last(log).b == x)
  {
    var l := Last(log);
    var s := Neighbours(Init(log), x);
    var t: seq<Address> := if l.a == x then [l.b] else [];
    var u: seq<Address> := if l.b == x then [l.a] else [];
    LabelledConcat(s + t, u, p, k);
    LabelledConcat(s, t, p, k);
    assert Labelled([], p, k) == 0;
  }

  /** Directed entries from sources in `done` that arrive in shard `k` from another shard. */
  function Arriving(log: seq<Link>, p: Labels, done: set<Address>, k: nat): nat {
    if log == [] then 0
    else
      var l := Last(log);
      Arriving(Init(log), p, done, k)
        + Bit(l.a in done && Crosses(p, l) && Label(p, l.b) == k)
        + Bit(l.b in done && Crosses(p, l) && Label(p, l.a) == k)
  }

  /** Directed entries from sources in `done` that stay inside shard `k`. */
  function Staying(log: seq<Link>, p: Labels, done: set<Address>, k: nat): nat {
    if log == [] then 0
    else
      var l := Last(log);
      Staying(Init(log), p, done, k)
        + Bit(l.a in done && !Crosses(p, l) && Label(p, l.b) == k)
        + Bit(l.b in done && !Crosses(p, l) && Label(p, l.a) == k)
  }

  /** Counting one more source adds what its adjacency list shows. */
  lemma {:induction false} CountSource(log: seq<Link>, p: Labels, done: set<Address>, v: Address, k: nat)
    requires v !in done
    ensures Arriving(log, p, done + {v}, k) == Arriving(log, p, done, k)
      + (if Label(p, v) == k then 0 else Labelled(Neighbours(log, v), p, k))
    ensures Staying(log, p, done + {v}, k) == Staying(log, p, done, k)
      + (if Label(p, v) == k then Labelled(Neighbours(log, v), p, k) else 0)
  {
    if log != [] {
      CountSource(Init(log), p, done, v, k);
      LabelledNeighbours(log, v, p, k);
    }
  }

  lemma {:induction false} NothingCounted(log: seq<Link>, p: Labels, k: nat)
    ensures Arriving(log, p, {}, k) == 0 && Staying(log, p, {}, k) == 0
  {
    if log != [] {
      NothingCounted(Init(log), p, k);
    }
  }

  /** With every source counted, arrivals plus half the stays are the links touching the shard. */
  lemma {:induction false} AllCounted(log: seq<Link>, p: Labels, done: set<Address>, k: nat)
    requires Ends(log) <= done
    ensures Staying(log, p, done, k) % 2 == 0
    ensures Arriving(log, p, done, k) + Staying(log, p, done, k) / 2 == Touching(log, p, k)
  {
    if log != [] {
      AllCounted(Init(log), p, done, k);
    }
  }

  function SumArriving(log: seq<Link>, p: Labels, done: set<Address>, shards: nat): nat {
    if shards == 0 then 0 else SumArriving(log, p, done, shards - 1) + Arriving(log, p, done, shards - 1)
  }

  lemma {:induction false} SumArrivingStep(log: seq<Link>, p: Labels, done: set<Address>, shards: nat)
    requires log != [] && Last(log).a in done && Last(log).b in done
    ensures SumArriving(log, p, done, shards) == SumArriving(Init(log), p, done, shards)
      + Bit(Crosses(p, Last(log)) && Label(p, Last(log).a) < shards)
      + Bit(Crosses(p, Last(log)) && Label(p, Last(log).b) < shards)
  {
    if shards > 0 {
      SumArrivingStep(log, p, done, shards - 1);
    }
  }

  lemma {:induction false} SumArrivingEmpty(p: Labels, done: set<Address>, shards: nat)
    ensures SumArriving([], p, done, shards) == 0
  {
    if shards > 0 {
      SumArrivingEmpty(p, done, shards - 1);
    }
  }

  ghost predicate InRange(p: Labels, shards: nat) {
    forall x :: x in p ==> p[x] < shards
  }

  /** Summed over the shards, every crossing link arrives twice. */
  lemma {:induction false} ArrivalsAreTwiceCrossing(log: seq<Link>, p: Labels, done: set<Address>, shards: nat)
    requires Ends(log) <= done && Ends(log) <= p.Keys && InRange(p, shards)
    ensures SumArriving(log, p, done, shards) == 2 * Crossing(log, p)
  {
    if log == [] {
      SumArrivingEmpty(p, done, shards);
    } else {
      ArrivalsAreTwiceCrossing(Init(log), p, done, shards);
      SumArrivingStep(log, p, done, shards);
    }
  }

  // ----- one vertex changes shard

  /**
   How the true counts move when `v` goes from shard `from` to shard `to`, in terms of the adjacency
   list of `v` under the new labels. A self-loop shows up twice in that list, which is where the
   list-based update and the true count part ways.
   */
  lemma {:induction false} MoveChangesCounts(log: seq<Link>, p: Labels, v: Address, from: nat, to: nat, k: nat)
    requires v in p && p[v] == from && from != to
    ensures var q := p[v := to];
      var lst := Neighbours(log, v);
      && Touching(log, q, k) as int == Touching(log, p, k)
           + (if k == to then |lst| - Labelled(lst, q, to) + SelfLoops(log, v)
              else if k == from then Labelled(lst, q, from) - |lst| + SelfLoops(log, v)
              else 0)
      && Crossing(log, q) as int == Crossing(log, p)
           + Labelled(lst, q, from) - Labelled(lst, q, to) + 2 * SelfLoops(log, v)
  {
    if log != [] {
      var q := p[v := to];
      MoveChangesCounts(Init(log), p, v, from, to, k);
      LabelledNeighbours(log, v, q, from);
      LabelledNeighbours(log, v, q, to);
    }
  }

  lemma {:induction false} SelfLoopsInList(log: seq<Link>, v: Address)
    ensures SelfLoops(log, v) > 0 <==> v in Neighbours(log, v)
  {
    if log != [] {
      SelfLoopsInList(Init(log), v);
    }
  }

  lemma {:induction false} NeighboursAreEnds(log: seq<Link>, x: Address)
    ensures forall y :: y in Neighbours(log, x) ==> y in Ends(log)
    ensures x !in Ends(log) ==> Neighbours(log, x) == []
  {
    if log != [] {
      NeighboursAreEnds(Init(log), x);
    }
  }

  // ----- vertices per shard

  function InShard(vertices: set<Address>, p: Labels, k: nat): set<Address> {
    set x | x in vertices && Label(p, x) == k
  }

  lemma AddedVertex(vertices: set<Address>, p: Labels, v: Address, k: nat)
    requires v !in vertices
    ensures |InShard(vertices + {v}, p, k)| == |InShard(vertices, p, k)| + Bit(Label(p, v) == k)
  {
    if Label(p, v) == k {
      assert InShard(vertices + {v}, p, k) == InShard(vertices, p, k) + {v};
    } else {
      assert InShard(vertices + {v}, p, k) == InShard(vertices, p, k);
    }
  }

  lemma SameShards(vertices: set<Address>, p: Labels, q: Labels, k: nat)
    requires forall x :: x in vertices ==> Label(p, x) == Label(q, x)
    ensures InShard(vertices, p, k) == InShard(vertices, q, k)
  {
  }

  lemma MovedVertex(vertices: set<Address>, p: Labels, v: Address, to: nat, k: nat)
    requires v in vertices && v in p && p[v] != to
    ensures |InShard(vertices, p[v := to], k)| as int == |InShard(vertices, p, k)| + Bit(k == to) - Bit(k == p[v])
  {
    if k == to {
      assert InShard(vertices, p[v := to], k) == InShard(vertices, p, k) + {v};
    } else if k == p[v] {
      assert InShard(vertices, p[v := to], k) == InShard(vertices, p, k) - {v};
    } else {
      assert InShard(vertices, p[v := to], k) == InShard(vertices, p, k);
    }
  }

  /** The stored populations are the number of vertices carrying each label. */
  ghost predicate Populations(num: seq<int>, vertices: set<Address>, p: Labels, shards: nat) {
    && |num| == shards
    && forall k: nat {:trigger InShard(vertices, p, k)} {:trigger num[k]} :: k < shards ==> num[k] == |InShard(vertices, p, k)|
  }

  lemma PopulationsAdd(num: seq<int>, vertices: set<Address>, p: Labels, q: Labels, shards: nat, v: Address)
    requires Populations(num, vertices, p, shards) && v !in vertices && v in q && q[v] < shards
    requires forall x :: x in vertices ==> Label(p, x) == Label(q, x)
    ensures Populations(num[q[v] := num[q[v]] + 1], vertices + {v}, q, shards)
  {
    forall k: nat | k < shards
      ensures num[q[v] := num[q[v]] + 1][k] == |InShard(vertices + {v}, q, k)|
    {
      SameShards(vertices, p, q, k);
      AddedVertex(vertices, q, v, k);
    }
  }

  /** One vertex fewer in `from`, one more in `to`. */
  function Shift(num: seq<int>, from: nat, to: nat): seq<int>
    requires from < |num| && to < |num|
  {
    var less := num[from := num[from] - 1];
    less[to := less[to] + 1]
  }

  lemma PopulationsMove(num: seq<int>, vertices: set<Address>, p: Labels, shards: nat, v: Address, to: nat)
    requires Populations(num, vertices, p, shards) && v in vertices && v in p && p[v] < shards && to < shards && p[v] != to
    requires num[p[v]] > 1
    ensures Populations(Shift(num, p[v], to), vertices, p[v := to], shards)
    ensures forall k :: 0 <= k < shards && num[k] > 0 ==> Shift(num, p[v], to)[k] > 0
  {
    forall k: nat | k < shards
      ensures Shift(num, p[v], to)[k] == |InShard(vertices, p[v := to], k)|
    {
      MovedVertex(vertices, p, v, to, k);
    }
  }

  /** The adjacency lists record the links, in order and in both directions. */
  ghost predicate Records(edgeSet: map<Address, seq<Address>>, log: seq<Link>) {
    && edgeSet.Keys == Ends(log)
    && forall x {:trigger Neighbours(log, x)} {:trigger edgeSet[x]} :: x in edgeSet ==> edgeSet[x] == Neighbours(log, x)
  }

  function Listed(edgeSet: map<Address, seq<Address>>, x: Address): seq<Address> {
    if x in edgeSet then edgeSet[x] else []
  }

  lemma ListedIsNeighbours(edgeSet: map<Address, seq<Address>>, log: seq<Link>, x: Address)
    requires Records(edgeSet, log)
    ensures Listed(edgeSet, x) == Neighbours(log, x)
    ensures forall y :: y in Listed(edgeSet, x) ==> y in Ends(log)
  {
    NeighboursAreEnds(log, x);
  }

  /** Appending each end to the other's list records one more link. */
  lemma RecordsLink(edgeSet: map<Address, seq<Address>>, log: seq<Link>, u: Address, v: Address)
    requires Records(edgeSet, log)
    ensures Records(LinkUp(edgeSet, u, v), log + [Link(u, v)])
    ensures Ends(log + [Link(u, v)]) == Ends(log) + {u, v}
  {
    var e2, log' := LinkUp(edgeSet, u, v), log + [Link(u, v)];
    assert Init(log') == log && Last(log') == Link(u, v);
    forall x | x in e2
      ensures e2[x] == Neighbours(log', x)
    {
      ListedIsNeighbours(edgeSet, log, x);
    }
  }

  function Bumped(c: seq<int>, k: nat, yes: bool): seq<int>
    requires k < |c|
  {
    if yes then c[k := c[k] + 1] else c
  }

  /** What the adjacency list `lst` of a vertex in shard `home` adds to the arrivals ... */
  function AddArrivals(counts: seq<int>, lst: seq<Address>, p: Labels, home: nat): (c: seq<int>)
    requires forall x :: x in lst ==> Label(p, x) < |counts|
    ensures |c| == |counts|
  {
    if lst == [] then counts
    else
      var x := lst[|lst| - 1];
      Bumped(AddArrivals(counts, lst[..|lst| - 1], p, home), Label(p, x), Label(p, x) != home)
  }

  /** ... and to the stays. */
  function AddStays(counts: seq<int>, lst: seq<Address>, p: Labels, home: nat): (c: seq<int>)
    requires forall x :: x in lst ==> Label(p, x) < |counts|
    ensures |c| == |counts|
  {
    if lst == [] then counts
    else
      var x := lst[|lst| - 1];
      Bumped(AddStays(counts, lst[..|lst| - 1], p, home), Label(p, x), Label(p, x) == home)
  }

  lemma TallyNext(arrivals: seq<int>, stays: seq<int>, lst: seq<Address>, p: Labels, home: nat, i: nat)
    requires i < |lst| && |arrivals| == |stays| && forall x :: x in lst ==> Label(p, x) < |arrivals|
    ensures forall x :: x in lst[..i] ==> x in lst
    ensures forall x :: x in lst[..i + 1] ==> x in lst
    ensures AddArrivals(arrivals, lst[..i + 1], p, home)
      == Bumped(AddArrivals(arrivals, lst[..i], p, home), Label(p, lst[i]), Label(p, lst[i]) != home)
    ensures AddStays(stays, lst[..i + 1], p, home)
      == Bumped(AddStays(stays, lst[..i], p, home), Label(p, lst[i]), Label(p, lst[i]) == home)
  {
    assert lst[..i + 1][..i] == lst[..i];
  }

  lemma {:induction false} TallyIs(counts: seq<int>, lst: seq<Address>, p: Labels, home: nat, k: nat)
    requires k < |counts| && forall x :: x in lst ==> Label(p, x) < |counts|
    ensures AddArrivals(counts, lst, p, home)[k] == counts[k] + (if k == home then 0 else Labelled(lst, p, k))
    ensures AddStays(counts, lst, p, home)[k] == counts[k] + (if k == home then Labelled(lst, p, k) else 0)
  {
    if lst != [] {
      TallyIs(counts, lst[..|lst| - 1], p, home, k);
    }
  }

  /** The tallies after the adjacency lists of the vertices in `done`. */
  ghost predicate Tallied(arrivals: seq<int>, stays: seq<int>, log: seq<Link>, p: Labels, done: set<Address>, shards: nat) {
    && |arrivals| == |stays| == shards
    && (forall k :: 0 <= k < shards ==> arrivals[k] == Arriving(log, p, done, k) && stays[k] == Staying(log, p, done, k))
  }

  lemma TallyStarts(arrivals: seq<int>, stays: seq<int>, log: seq<Link>, p: Labels, shards: nat)
    requires |arrivals| == |stays| == shards && forall k :: 0 <= k < shards ==> arrivals[k] == stays[k] == 0
    ensures Tallied(arrivals, stays, log, p, {}, shards)
  {
    forall k: nat | k < shards
      ensures Arriving(log, p, {}, k) == 0 && Staying(log, p, {}, k) == 0
    {
      NothingCounted(log, p, k);
    }
  }

  lemma TallyOneMore(arrivals: seq<int>, stays: seq<int>, lst: seq<Address>, log: seq<Link>, p: Labels, done: set<Address>, v: Address, shards: nat)
    requires Tallied(arrivals, stays, log, p, done, shards) && v !in done && lst == Neighbours(log, v)
    requires forall x :: x in lst ==> Label(p, x) < shards
    ensures Tallied(AddArrivals(arrivals, lst, p, Label(p, v)), AddStays(stays, lst, p, Label(p, v)), log, p, done + {v}, shards)
  {
    forall k: nat | k < shards
      ensures AddArrivals(arrivals, lst, p, Label(p, v))[k] == Arriving(log, p, done + {v}, k)
      ensures AddStays(stays, lst, p, Label(p, v))[k] == Staying(log, p, done + {v}, k)
    {
      TallyIs(arrivals, lst, p, Label(p, v), k);
      TallyIs(stays, lst, p, Label(p, v), k);
      CountSource(log, p, done, v, k);
    }
  }

  // ----- one more link in the adjacency lists

  function LinkUp(edgeSet: map<Address, seq<Address>>, u: Address, v: Address): map<Address, seq<Address>> {
    var once := edgeSet[u := Listed(edgeSet, u) + [v]];
    once[v := Listed(once, v) + [u]]
  }

  ghost predicate NoLoops(edgeSet: map<Address, seq<Address>>) {
    forall v :: v in edgeSet ==> v !in edgeSet[v]
  }

  lemma NoLoopsAfterLink(edgeSet: map<Address, seq<Address>>, u: Address, v: Address)
    requires NoLoops(edgeSet) && u != v
    ensures NoLoops(LinkUp(edgeSet, u, v))
  {
  }
}
