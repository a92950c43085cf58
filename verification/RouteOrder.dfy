/**
 Which of several shortest routes a breadth-first search finds: with sorted adjacency lists, the first in
 lexicographic order. The search is described by the order in which it reaches the shards.
 */
module RouteOrder {
  import opened Graphs

  // ----- lexicographic order

  ghost predicate DiffersAt(p: seq<nat>, q: seq<nat>, k: nat) {
    k < |p| && k < |q| && p[..k] == q[..k] && p[k] < q[k]
  }

  /** `p` is `q`, or smaller where they first differ. */
  ghost predicate LexLeq(p: seq<nat>, q: seq<nat>) {
    p == q || exists k: nat :: DiffersAt(p, q, k)
  }

  lemma LexTransitive(p: seq<nat>, q: seq<nat>, r: seq<nat>)
    requires LexLeq(p, q) && LexLeq(q, r)
    ensures LexLeq(p, r)
  {
    if p != q && q != r {
      var i: nat :| DiffersAt(p, q, i);
      var j: nat :| DiffersAt(q, r, j);
      var k := if i < j then i else j;
      assert p[..k] == p[..i][..k] && q[..k] == q[..i][..k] && q[..k] == q[..j][..k] && r[..k] == r[..j][..k];
      assert i < j ==> q[..j][i] == r[..j][i];
      assert j < i ==> p[..i][j] == q[..i][j];
      assert DiffersAt(p, r, k);
    }
  }

  /** Equally long lists that differ keep their order when something is appended. */
  lemma LexAppend(p: seq<nat>, q: seq<nat>, x: nat, y: nat)
    requires LexLeq(p, q) && |p| == |q| && (p == q ==> x <= y)
    ensures LexLeq(p + [x], q + [y])
  {
    if p == q {
      if x < y {
        assert DiffersAt(p + [x], q + [y], |p|);
      }
    } else {
      var k: nat :| DiffersAt(p, q, k);
      assert (p + [x])[..k] == p[..k] && (q + [y])[..k] == q[..k];
      assert DiffersAt(p + [x], q + [y], k);
    }
  }

  // ----- the order of discovery

  /**
   Shard `order[i]` was reached from `order[par[i]]`, which is the first of its neighbours to be reached; shards reached from
   one shard follow each other in the order of their numbers.
   */
  ghost predicate FoundAt(es: seq<Edge>, order: seq<nat>, par: seq<nat>, i: nat) {
    && 0 < i < |order| == |par| && par[i] < i && Adjacent(es, order[par[i]], order[i])
    && (forall k :: 0 <= k < par[i] ==> !Adjacent(es, order[k], order[i]))
  }

  ghost predicate Earlier(order: seq<nat>, par: seq<nat>, i: nat, j: nat) {
    i < |order| == |par| && j < |order| && (par[i] < par[j] || (par[i] == par[j] && order[i] < order[j]))
  }

  ghost predicate Discovery(es: seq<Edge>, source: nat, order: seq<nat>, par: seq<nat>) {
    && |order| == |par| > 0 && order[0] == source
    && (forall i, j :: 0 <= i < j < |order| ==> order[i] != order[j])
    && (forall i: nat {:trigger FoundAt(es, order, par, i)} :: 0 < i < |order| ==> FoundAt(es, order, par, i))
    && (forall i: nat, j: nat {:trigger Earlier(order, par, i, j)} :: 0 < i < j < |order| ==> Earlier(order, par, i, j))
  }

  lemma DiscoveryStarts(es: seq<Edge>, source: nat)
    ensures Discovery(es, source, [source], [0])
  {
  }

  /** The shard at position `h` is expanded: `next` is new, no earlier shard has it for a neighbour, and those found from `h` so far are smaller. */
  lemma DiscoveryGrows(es: seq<Edge>, source: nat, order: seq<nat>, par: seq<nat>, h: nat, next: nat)
    requires Discovery(es, source, order, par) && h < |order| && next !in order && Adjacent(es, order[h], next)
    requires forall k :: 0 <= k < h ==> !Adjacent(es, order[k], next)
    requires forall i :: 0 < i < |order| ==> par[i] <= h && (par[i] == h ==> order[i] < next)
    ensures Discovery(es, source, order + [next], par + [h])
  {
    var order', par' := order + [next], par + [h];
    forall i: nat | 0 < i < |order'|
      ensures FoundAt(es, order', par', i)
    {
      if i < |order| {
        assert FoundAt(es, order, par, i);
      }
    }
    forall i: nat, j: nat | 0 < i < j < |order'|
      ensures Earlier(order', par', i, j)
    {
      if j < |order| {
        assert Earlier(order, par, i, j);
      }
    }
  }

  // ----- routes read back along it

  function PathTo(order: seq<nat>, par: seq<nat>, i: nat): (p: seq<nat>)
    requires |order| == |par| && i < |order| && forall k :: 0 < k < |order| ==> par[k] < k
    ensures |p| > 0 && p[|p| - 1] == order[i]
  {
    if i == 0 then [order[0]] else PathTo(order, par, par[i]) + [order[i]]
  }

  lemma ParentsEarlier(es: seq<Edge>, source: nat, order: seq<nat>, par: seq<nat>)
    requires Discovery(es, source, order, par)
    ensures forall k :: 0 < k < |order| ==> par[k] < k
  {
    forall k: nat | 0 < k < |order|
      ensures par[k] < k
    {
      assert FoundAt(es, order, par, k);
    }
  }

  lemma ShortPath(es: seq<Edge>, source: nat, order: seq<nat>, par: seq<nat>, i: nat)
    requires Discovery(es, source, order, par) && i < |order| && forall k :: 0 < k < |order| ==> par[k] < k
    ensures |PathTo(order, par, i)| == 1 <==> i == 0
  {
  }

  /** Of two shards equally far away the one reached first has the smaller route. */
  lemma {:induction false} EarlierIsSmaller(es: seq<Edge>, source: nat, order: seq<nat>, par: seq<nat>, i: nat, j: nat)
    requires Discovery(es, source, order, par) && i <= j < |order| && forall k :: 0 < k < |order| ==> par[k] < k
    requires |PathTo(order, par, i)| == |PathTo(order, par, j)|
    ensures LexLeq(PathTo(order, par, i), PathTo(order, par, j))
    decreases j
  {
    if i < j {
      ShortPath(es, source, order, par, i);
      ShortPath(es, source, order, par, j);
      assert 0 < i;
      assert Earlier(order, par, i, j);
      var p, q := PathTo(order, par, par[i]), PathTo(order, par, par[j]);
      EarlierIsSmaller(es, source, order, par, par[i], par[j]);
      if par[i] < par[j] {
        assert p[|p| - 1] == order[par[i]] && q[|q| - 1] == order[par[j]];
      }
      LexAppend(p, q, order[i], order[j]);
    }
  }

  /** All neighbours of a reached shard are reached, and routes have the length of a shortest walk. */
  ghost predicate Complete(es: seq<Edge>, source: nat, order: seq<nat>, par: seq<nat>) {
    && Discovery(es, source, order, par) && (forall k :: 0 < k < |order| ==> par[k] < k)
    && (forall i, y :: 0 <= i < |order| && Adjacent(es, order[i], y) ==> y in order)
    && (forall i :: 0 <= i < |order| ==> Connected(es, source, order[i]) && |PathTo(order, par, i)| == Distance(es, source, order[i]) + 1)
  }

  lemma WalkInit(es: seq<Edge>, p: seq<nat>, a: nat, b: nat)
    requires Walk(es, p, a, b) && |p| > 1
    ensures Walk(es, p[..|p| - 1], a, p[|p| - 2]) && Adjacent(es, p[|p| - 2], b)
  {
    var q := p[..|p| - 1];
    forall i, j | 0 <= i && j == i + 1 && j < |q|
      ensures Adjacent(es, q[i], q[j])
    {
      assert Adjacent(es, p[i], p[j]);
    }
  }

  lemma {:induction false} WalkReached(es: seq<Edge>, source: nat, order: seq<nat>, par: seq<nat>, p: seq<nat>, b: nat)
    requires Complete(es, source, order, par) && Walk(es, p, source, b)
    ensures b in order
    decreases |p|
  {
    if |p| > 1 {
      WalkInit(es, p, source, b);
      WalkReached(es, source, order, par, p[..|p| - 1], p[|p| - 2]);
      var i :| 0 <= i < |order| && order[i] == p[|p| - 2];
    }
  }

  /** The walk without its last step is as short as the route to where it ends. */
  lemma InitIsShortest(es: seq<Edge>, source: nat, order: seq<nat>, par: seq<nat>, i: nat, p: seq<nat>) returns (j: nat)
    requires Complete(es, source, order, par) && 0 < i < |order| && Walk(es, p, source, order[i])
    requires |p| == |PathTo(order, par, i)| && |p| > 1
    ensures j < |order| && order[j] == p[|p| - 2] && Walk(es, p[..|p| - 1], source, order[j])
    ensures par[i] <= j && |PathTo(order, par, j)| == |p| - 1 == |PathTo(order, par, par[i])|
  {
    var q := p[..|p| - 1];
    WalkInit(es, p, source, order[i]);
    WalkReached(es, source, order, par, q, p[|p| - 2]);
    j :| 0 <= j < |order| && order[j] == p[|p| - 2];
    assert FoundAt(es, order, par, i);
    DistanceOfEdge(es, order[j], order[i]);
    DistanceTriangle(es, source, order[j], order[i]);
  }

  lemma Combined(a: seq<nat>, b: seq<nat>, p: seq<nat>)
    requires |p| > 0 && LexLeq(a, b) && LexLeq(b, p[..|p| - 1]) && |a| == |p| - 1
    ensures LexLeq(a + [p[|p| - 1]], p)
  {
    LexTransitive(a, b, p[..|p| - 1]);
    LexAppend(a, p[..|p| - 1], p[|p| - 1], p[|p| - 1]);
    assert p == p[..|p| - 1] + [p[|p| - 1]];
  }

  /** The route found is the first of all shortest walks. */
  lemma {:induction false} RouteIsFirst(es: seq<Edge>, source: nat, order: seq<nat>, par: seq<nat>, i: nat, p: seq<nat>)
    requires Complete(es, source, order, par) && i < |order| && Walk(es, p, source, order[i]) && |p| == |PathTo(order, par, i)|
    ensures LexLeq(PathTo(order, par, i), p)
    decreases |p|
  {
    if i == 0 {
      assert p == [source];
    } else {
      ShortPath(es, source, order, par, i);
      var j := InitIsShortest(es, source, order, par, i, p);
      RouteIsFirst(es, source, order, par, j, p[..|p| - 1]);
      EarlierIsSmaller(es, source, order, par, par[i], j);
      Combined(PathTo(order, par, par[i]), PathTo(order, par, j), p);
    }
  }
}
