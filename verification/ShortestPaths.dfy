/**
 `newOverlay` of pcn/overlay.go: adjacency lists, one breadth-first search per source shard, and a
 route read back along parent links for every pair of shards.
 */
module ShortestPaths {
  import opened Graphs
  import opened RouteOrder
  import Sorting

  datatype Overlay = Overlay(
    shardNum: nat,
    edges: seq<Edge>,
    routes: seq<seq<seq<nat>>>,
    dist: seq<seq<int>>)

  datatype OverlayError =
    | NoShards
    | WeightsTooSmall
    | WeightRowTooSmall
    | DegreeLimitTooSmall
    | CouldNotConnect
    | InvalidEdge
    | Disconnected
    | UnknownMode

  datatype OverlayResult = Built(overlay: Overlay) | Failed(error: OverlayError)

  /** A shortest walk that visits no shard twice, and of all shortest walks the lexicographically first. */
  ghost predicate ShortestRoute(es: seq<Edge>, r: seq<nat>, a: nat, b: nat) {
    && Walk(es, r, a, b)
    && Connected(es, a, b) && |r| == Distance(es, a, b) + 1
    && (forall i, j :: 0 <= i < j < |r| ==> r[i] != r[j])
    && (forall p :: Walk(es, p, a, b) && |p| == |r| ==> LexLeq(r, p))
  }

  /** What a finished overlay promises: true distances, and a shortest simple route for every pair. */
  ghost predicate OverlayOf(o: Overlay, n: nat, es: seq<Edge>) {
    && o.shardNum == n && o.edges == es
    && ValidEdges(n, es) && ConnectedGraph(n, es)
    && o.dist == DistanceMatrix(n, es)
    && |o.routes| == n
    && (forall a :: 0 <= a < n ==> |o.routes[a]| == n)
    && (forall a, b :: 0 <= a < n && 0 <= b < n ==> ShortestRoute(es, o.routes[a][b], a, b))
  }

  // ----- adjacency lists

  ghost predicate AdjacencyOf(n: nat, es: seq<Edge>, adj: seq<seq<nat>>) {
    && |adj| == n
    && forall a, b :: 0 <= a < n ==> (b in adj[a] <==> Adjacent(es, a, b))
  }

  predicate NatLess(x: nat, y: nat) { x < y }

  /** Neighbours are listed in the order of their numbers. */
  ghost predicate Ascending(adj: seq<seq<nat>>) {
    forall a, i, j :: 0 <= a < |adj| && 0 <= i < j < |adj[a]| ==> adj[a][i] <= adj[a][j]
  }

  method BuildAdjacency(n: nat, es: seq<Edge>) returns (ok: bool, adj: seq<seq<nat>>)
    ensures ok <==> ValidEdges(n, es)
    ensures ok ==> AdjacencyOf(n, es, adj)
    ensures ok ==> Ascending(adj)
  {
    adj := seq(n, _ => []);
    for k := 0 to |es|
      invariant ValidEdges(n, es[..k]) && AdjacencyOf(n, es[..k], adj)
    {
      var e := es[k];
      assert e in es;
      if e.u >= n || e.v >= n || e.u == e.v {
        return false, adj;
      }
      assert es[..k + 1] == es[..k] + [e];
      adj := adj[e.u := adj[e.u] + [e.v]];
      adj := adj[e.v := adj[e.v] + [e.u]];
    }
    assert es[..|es|] == es;
    ok := true;
    for sid := 0 to n
      invariant AdjacencyOf(n, es, adj)
      invariant forall a, i, j :: 0 <= a < sid && 0 <= i < j < |adj[a]| ==> adj[a][i] <= adj[a][j]
    {
      Sorting.SameElements(NatLess, adj[sid]);
      Sorting.SortSorts(NatLess, adj[sid]);
      adj := adj[sid := Sorting.Sort(NatLess, adj[sid])];
    }
  }

  // ----- the order in which shards are reached

  /**
   The shards reached so far in the order of their discovery, with the positions of their parents: the queue is the end of
   that list, and the neighbours of the first `done` shards have all been reached.
   */
  ghost predicate Tracked(es: seq<Edge>, source: nat, seen: seq<bool>, parent: seq<nat>, queue: seq<nat>,
                          order: seq<nat>, par: seq<nat>, head: nat, done: nat) {
    && Discovery(es, source, order, par) && done <= head <= |order| && queue == order[head..] && |seen| == |parent|
    && (forall i :: 0 <= i < |order| ==> order[i] < |seen|)
    && (forall x: nat {:trigger seen[x]} :: x < |seen| ==> (seen[x] <==> x in order))
    && (forall i :: 0 < i < |order| ==> par[i] < i && par[i] < head && parent[order[i]] == order[par[i]])
    && (forall k, y :: 0 <= k < done && Adjacent(es, order[k], y) ==> y in order)
  }

  lemma TrackedStarts(n: nat, es: seq<Edge>, source: nat, seen: seq<bool>, parent: seq<nat>)
    requires source < n == |seen| == |parent| && seen[source] && forall x :: 0 <= x < n && x != source ==> !seen[x]
    ensures Tracked(es, source, seen, parent, [source], [source], [0], 0, 0)
  {
    DiscoveryStarts(es, source);
  }

  /** `next` is reached from the shard at position `done`, which was the head of the queue. */
  lemma TrackedGrows(es: seq<Edge>, source: nat, seen: seq<bool>, parent: seq<nat>, queue: seq<nat>,
                     order: seq<nat>, par: seq<nat>, head: nat, done: nat, next: nat)
    requires Tracked(es, source, seen, parent, queue, order, par, head, done) && head == done + 1
    requires next < |seen| && !seen[next] && Adjacent(es, order[done], next)
    requires forall i :: 0 < i < |order| && par[i] == done ==> order[i] < next
    ensures Tracked(es, source, seen[next := true], parent[next := order[done]], queue + [next], order + [next], par + [done], head, done)
  {
    DiscoveryGrows(es, source, order, par, done, next);
    assert (order + [next])[head..] == order[head..] + [next];
    forall x: nat | x < |seen|
      ensures seen[next := true][x] <==> x in order + [next]
    {
      assert seen[x] <==> x in order;
    }
  }

  lemma {:induction false} PathLength(n: nat, es: seq<Edge>, source: nat, seen: seq<bool>, parent: seq<nat>, dist: seq<int>, queue: seq<nat>,
                                      order: seq<nat>, par: seq<nat>, head: nat, done: nat, i: nat)
    requires SearchTree(n, es, source, seen, parent, dist) && Tracked(es, source, seen, parent, queue, order, par, head, done)
    requires i < |order| && forall k :: 0 < k < |order| ==> par[k] < k
    ensures |PathTo(order, par, i)| == dist[order[i]] + 1
  {
    assert Hangs(es, source, seen, parent, dist, order[i]);
    if i > 0 {
      PathLength(n, es, source, seen, parent, dist, queue, order, par, head, done, par[i]);
    }
  }

  /** When the queue is empty, the order of discovery is complete. */
  lemma TrackedEnds(n: nat, es: seq<Edge>, source: nat, seen: seq<bool>, parent: seq<nat>, dist: seq<int>,
                    order: seq<nat>, par: seq<nat>, head: nat)
    requires SearchDone(n, es, source, seen, parent, dist) && Tracked(es, source, seen, parent, [], order, par, head, head)
    ensures Complete(es, source, order, par)
  {
    ParentsEarlier(es, source, order, par);
    forall i | 0 <= i < |order|
      ensures Connected(es, source, order[i]) && |PathTo(order, par, i)| == Distance(es, source, order[i]) + 1
    {
      SearchIsExact(n, es, source, seen, parent, dist, order[i]);
      PathLength(n, es, source, seen, parent, dist, [], order, par, head, head, i);
    }
  }

  /** A route along parent links is the path of its last shard. */
  lemma {:induction false} RouteIsPath(es: seq<Edge>, source: nat, seen: seq<bool>, parent: seq<nat>, order: seq<nat>, par: seq<nat>, head: nat,
                                       route: seq<nat>, i: nat)
    requires Tracked(es, source, seen, parent, [], order, par, head, head) && i < |order| && forall k :: 0 < k < |order| ==> par[k] < k
    requires |route| > 0 && route[0] == source && route[|route| - 1] == order[i]
    requires forall k :: 0 <= k < |route| ==> route[k] < |parent| && (route[k] == source ==> k == 0)
    requires forall k :: 0 < k < |route| ==> route[k - 1] == parent[route[k]]
    ensures route == PathTo(order, par, i)
    decreases |route|
  {
    if i == 0 {
      assert |route| == 1;
    } else {
      assert order[i] != order[0];
      var init := route[..|route| - 1];
      RouteIsPath(es, source, seen, parent, order, par, head, init, par[i]);
      assert route == init + [order[i]];
    }
  }

  // ----- breadth-first search

  /** `x` hangs below its parent, one level deeper, on a listed edge. */
  ghost predicate Hangs(es: seq<Edge>, source: nat, seen: seq<bool>, parent: seq<nat>, dist: seq<int>, x: nat) {
    && |seen| == |parent| == |dist| && x < |seen| && 0 <= dist[x]
    && (x == source ==> dist[x] == 0)
    && (x != source ==>
          && parent[x] < |seen| && seen[parent[x]]
          && Adjacent(es, parent[x], x) && dist[x] == dist[parent[x]] + 1)
  }

  /** Every shard reached so far is the source or hangs below another one. */
  ghost predicate SearchTree(n: nat, es: seq<Edge>, source: nat, seen: seq<bool>, parent: seq<nat>, dist: seq<int>) {
    && |seen| == |parent| == |dist| == n && source < n && seen[source]
    && forall x: nat {:trigger Hangs(es, source, seen, parent, dist, x)} ::
         x < n && seen[x] ==> Hangs(es, source, seen, parent, dist, x)
  }

  /** Edges leaving `x` lead to shards already reached, at most one level below `x`. */
  ghost predicate Expanded(es: seq<Edge>, seen: seq<bool>, dist: seq<int>, x: nat) {
    && |seen| == |dist| && x < |seen|
    && forall y: nat :: Adjacent(es, x, y) ==> y < |seen| && seen[y] && dist[y] <= dist[x] + 1
  }

  /** The finished search: a tree, all of whose shards are expanded. */
  ghost predicate SearchDone(n: nat, es: seq<Edge>, source: nat, seen: seq<bool>, parent: seq<nat>, dist: seq<int>) {
    && SearchTree(n, es, source, seen, parent, dist)
    && forall x: nat {:trigger Expanded(es, seen, dist, x)} :: x < n && seen[x] ==> Expanded(es, seen, dist, x)
  }

  /** The queue holds reached shards, nearest first, within one level of each other. */
  ghost predicate QueueOrdered(n: nat, seen: seq<bool>, dist: seq<int>, queue: seq<nat>, level: int) {
    && |seen| == |dist| == n
    && (forall i :: 0 <= i < |queue| ==> queue[i] < n && seen[queue[i]] && level <= dist[queue[i]])
    && (forall i, j :: 0 <= i < j < |queue| ==> queue[i] != queue[j] && dist[queue[i]] <= dist[queue[j]])
    && (forall x :: 0 <= x < n && seen[x] ==> dist[x] <= level + 1)
  }

  lemma TreeGivesWalk(n: nat, es: seq<Edge>, source: nat, seen: seq<bool>, parent: seq<nat>, dist: seq<int>, x: nat)
      returns (p: seq<nat>)
    requires SearchTree(n, es, source, seen, parent, dist) && x < n && seen[x]
    ensures Walk(es, p, source, x) && |p| == dist[x] + 1
    decreases if x < |dist| then dist[x] else 0
  {
    assert Hangs(es, source, seen, parent, dist, x);
    if x == source {
      p := [source];
    } else {
      assert Hangs(es, source, seen, parent, dist, parent[x]);
      var q := TreeGivesWalk(n, es, source, seen, parent, dist, parent[x]);
      WalkEdge(es, parent[x], x);
      WalkConcat(es, q, [parent[x], x], source, parent[x], x);
      p := q + [parent[x], x][1..];
    }
  }

  /** Breadth-first levels are distances, and what was not reached is not connected. */
  lemma SearchIsExact(n: nat, es: seq<Edge>, source: nat, seen: seq<bool>, parent: seq<nat>, dist: seq<int>, x: nat)
    requires SearchDone(n, es, source, seen, parent, dist) && x < n
    ensures seen[x] <==> Connected(es, source, x)
    ensures seen[x] ==> dist[x] >= 0 && Connected(es, source, x) && Distance(es, source, x) == dist[x]
  {
    forall p | Walk(es, p, source, x)
      ensures seen[x]
    {
      forall y: nat, z: nat | Adjacent(es, y, z) && y < n && seen[y]
        ensures z < n && seen[z]
      {
        assert Expanded(es, seen, dist, y);
      }
      WalkStaysInside(es, (y: nat) => y < n && seen[y], p, source, x);
    }
    if seen[x] {
      var w := TreeGivesWalk(n, es, source, seen, parent, dist, x);
      forall p | Walk(es, p, source, x)
        ensures dist[x] + 1 <= |p|
      {
        LevelBoundsWalk(n, es, source, seen, parent, dist, p, x);
      }
    }
  }

  lemma LevelBoundsWalk(n: nat, es: seq<Edge>, source: nat, seen: seq<bool>, parent: seq<nat>, dist: seq<int>, p: seq<nat>, x: nat)
    requires SearchDone(n, es, source, seen, parent, dist) && x < n && Walk(es, p, source, x)
    ensures seen[x] && dist[x] <= |p| - 1
  {
    assert Hangs(es, source, seen, parent, dist, source);
    for k := 0 to |p| - 1
      invariant p[k] < n && seen[p[k]] && dist[p[k]] <= k
    {
      assert Adjacent(es, p[k], p[k + 1]);
      assert Expanded(es, seen, dist, p[k]);
    }
  }

  /**
   The invariant of the search loop: every reached shard is waiting in the queue, finished (all its
   edges looked at) or open (taken off the queue and being looked at now).
   */
  ghost predicate Searching(n: nat, es: seq<Edge>, source: nat, seen: seq<bool>, parent: seq<nat>, dist: seq<int>,
                            queue: seq<nat>, level: int, finished: set<nat>, open: set<nat>)
  {
    && SearchTree(n, es, source, seen, parent, dist)
    && QueueOrdered(n, seen, dist, queue, level)
    && (forall x :: x in finished ==> x < n && seen[x] && x !in queue)
    && (forall x {:trigger Expanded(es, seen, dist, x)} :: x in finished ==> Expanded(es, seen, dist, x))
    && (forall x :: x in open ==> x < n && seen[x] && x !in queue && x !in finished && dist[x] == level)
    && (forall x :: 0 <= x < n && seen[x] ==> x in finished || x in queue || x in open)
  }

  lemma Pop(n: nat, es: seq<Edge>, source: nat, seen: seq<bool>, parent: seq<nat>, dist: seq<int>,
            queue: seq<nat>, level: int, finished: set<nat>)
    requires Searching(n, es, source, seen, parent, dist, queue, level, finished, {}) && |queue| > 0
    ensures Searching(n, es, source, seen, parent, dist, queue[1..], dist[queue[0]], finished, {queue[0]})
  {
    assert queue == [queue[0]] + queue[1..];
    assert forall x :: x in queue <==> x == queue[0] || x in queue[1..];
  }

  /** A newly reached shard hangs below `cur`; all others hang where they did. */
  lemma TreeGrows(n: nat, es: seq<Edge>, source: nat, seen: seq<bool>, parent: seq<nat>, dist: seq<int>, cur: nat, next: nat)
    requires SearchTree(n, es, source, seen, parent, dist)
    requires cur < n && seen[cur] && next < n && !seen[next] && Adjacent(es, cur, next)
    ensures SearchTree(n, es, source, seen[next := true], parent[next := cur], dist[next := dist[cur] + 1])
  {
    var seen', parent', dist' := seen[next := true], parent[next := cur], dist[next := dist[cur] + 1];
    assert Hangs(es, source, seen, parent, dist, cur);
    forall x: nat | x < n && seen'[x]
      ensures Hangs(es, source, seen', parent', dist', x)
    {
      if x != next {
        assert Hangs(es, source, seen, parent, dist, x);
      }
    }
  }

  lemma Discover(n: nat, es: seq<Edge>, source: nat, seen: seq<bool>, parent: seq<nat>, dist: seq<int>,
                 queue: seq<nat>, level: int, finished: set<nat>, cur: nat, next: nat)
    requires Searching(n, es, source, seen, parent, dist, queue, level, finished, {cur})
    requires next < n && !seen[next] && Adjacent(es, cur, next)
    ensures Searching(n, es, source, seen[next := true], parent[next := cur], dist[next := level + 1],
                      queue + [next], level, finished, {cur})
  {
    var seen', dist' := seen[next := true], dist[next := level + 1];
    assert cur in {cur};
    TreeGrows(n, es, source, seen, parent, dist, cur, next);
    forall x | x in finished
      ensures Expanded(es, seen', dist', x)
    {
      assert Expanded(es, seen, dist, x);
    }
    assert forall x :: x in queue + [next] <==> x in queue || x == next;
  }

  lemma Finish(n: nat, es: seq<Edge>, source: nat, seen: seq<bool>, parent: seq<nat>, dist: seq<int>,
               queue: seq<nat>, level: int, finished: set<nat>, cur: nat)
    requires Searching(n, es, source, seen, parent, dist, queue, level, finished, {cur})
    requires Expanded(es, seen, dist, cur)
    ensures Searching(n, es, source, seen, parent, dist, queue, level, finished + {cur}, {})
  {
  }

  /** A neighbour that was not reached before is queued, below the open shard. */
  method Reach(n: nat, ghost es: seq<Edge>, ghost source: nat, cur: nat, next: nat,
               seen: array<bool>, parent: array<nat>, dist: array<int>, queue: seq<nat>,
               ghost level: int, ghost finished: set<nat>, ghost order: seq<nat>, ghost par: seq<nat>, ghost done: nat)
      returns (queue': seq<nat>, ghost order': seq<nat>, ghost par': seq<nat>)
    requires seen.Length == parent.Length == dist.Length == n && cur < n && next < n && !seen[next] && Adjacent(es, cur, next)
    requires Searching(n, es, source, seen[..], parent[..], dist[..], queue, level, finished, {cur})
    requires Tracked(es, source, seen[..], parent[..], queue, order, par, done + 1, done) && order[done] == cur
    requires forall i :: 0 < i < |order| && par[i] == done ==> order[i] < next
    modifies seen, parent, dist
    ensures seen[..] == old(seen[..])[next := true] && order' == order + [next] && par' == par + [done]
    ensures Searching(n, es, source, seen[..], parent[..], dist[..], queue', level, finished, {cur})
    ensures Tracked(es, source, seen[..], parent[..], queue', order', par', done + 1, done)
  {
    Discover(n, es, source, seen[..], parent[..], dist[..], queue, level, finished, cur, next);
    TrackedGrows(es, source, seen[..], parent[..], queue, order, par, done + 1, done, next);
    order', par', queue' := order + [next], par + [done], queue + [next];
    ghost var s, p, d := seen[..], parent[..], dist[..];
    assert cur in {cur};
    seen[next] := true;
    parent[next] := cur;
    dist[next] := dist[cur] + 1;
    assert seen[..] == s[next := true];
    assert parent[..] == p[next := cur];
    assert dist[..] == d[next := level + 1];
  }

  /** Looks at every neighbour of the open shard `cur`, queueing those not reached before. */
  method Expand(n: nat, ghost es: seq<Edge>, adj: seq<seq<nat>>, ghost source: nat, cur: nat,
                seen: array<bool>, parent: array<nat>, dist: array<int>, queue: seq<nat>,
                ghost level: int, ghost finished: set<nat>, ghost order: seq<nat>, ghost par: seq<nat>, ghost done: nat)
      returns (queue': seq<nat>, ghost order': seq<nat>, ghost par': seq<nat>)
    requires ValidEdges(n, es) && AdjacencyOf(n, es, adj) && cur < n && Ascending(adj)
    requires seen.Length == parent.Length == dist.Length == n
    requires Searching(n, es, source, seen[..], parent[..], dist[..], queue, level, finished, {cur})
    requires Tracked(es, source, seen[..], parent[..], queue, order, par, done + 1, done) && order[done] == cur
    requires forall i :: 0 < i < |order| ==> par[i] < done
    modifies seen, parent, dist
    ensures Searching(n, es, source, seen[..], parent[..], dist[..], queue', level, finished, {cur})
    ensures Tracked(es, source, seen[..], parent[..], queue', order', par', done + 1, done + 1)
    ensures Expanded(es, seen[..], dist[..], cur)
  {
    queue', order', par' := queue, order, par;
    for k := 0 to |adj[cur]|
      invariant Searching(n, es, source, seen[..], parent[..], dist[..], queue', level, finished, {cur})
      invariant Tracked(es, source, seen[..], parent[..], queue', order', par', done + 1, done) && order'[done] == cur
      invariant Looked(adj[cur], k, seen[..], order', par', done)
    {
      var next := adj[cur][k];
      assert next in adj[cur];
      assert Adjacent(es, cur, next) && next < n;
      LookedNext(adj[cur], k, seen[..], order', par', done);
      if !seen[next] {
        queue', order', par' := Reach(n, es, source, cur, next, seen, parent, dist, queue', level, finished, order', par', done);
      }
    }
    AllLooked(n, es, adj, cur, source, seen[..], parent[..], dist[..], queue', level, finished, order', par', done);
  }

  /** After the first `k` neighbours: they are reached, and whoever was reached from here is one of them. */
  ghost predicate Looked(lst: seq<nat>, k: nat, seen: seq<bool>, order: seq<nat>, par: seq<nat>, done: nat) {
    && k <= |lst| && |par| == |order|
    && (forall i :: 0 <= i < k ==> lst[i] < |seen| && seen[lst[i]])
    && (forall i :: 0 < i < |order| && par[i] == done ==> order[i] < |seen| && seen[order[i]] && exists j :: 0 <= j < k && order[i] == lst[j])
  }

  lemma LookedNext(lst: seq<nat>, k: nat, seen: seq<bool>, order: seq<nat>, par: seq<nat>, done: nat)
    requires Looked(lst, k, seen, order, par, done) && k < |lst| && lst[k] < |seen| && forall i, j :: 0 <= i < j < |lst| ==> lst[i] <= lst[j]
    ensures seen[lst[k]] ==> Looked(lst, k + 1, seen, order, par, done)
    ensures !seen[lst[k]] ==> forall i :: 0 < i < |order| && par[i] == done ==> order[i] < lst[k]
    ensures !seen[lst[k]] ==> Looked(lst, k + 1, seen[lst[k] := true], order + [lst[k]], par + [done], done)
  {
  }

  lemma AllLooked(n: nat, es: seq<Edge>, adj: seq<seq<nat>>, cur: nat, source: nat, seen: seq<bool>, parent: seq<nat>, dist: seq<int>,
                  queue: seq<nat>, level: int, finished: set<nat>, order: seq<nat>, par: seq<nat>, done: nat)
    requires AdjacencyOf(n, es, adj) && cur < n && Looked(adj[cur], |adj[cur]|, seen, order, par, done)
    requires Searching(n, es, source, seen, parent, dist, queue, level, finished, {cur})
    requires Tracked(es, source, seen, parent, queue, order, par, done + 1, done) && order[done] == cur
    ensures Expanded(es, seen, dist, cur) && Tracked(es, source, seen, parent, queue, order, par, done + 1, done + 1)
  {
    assert cur in {cur};
    forall y: nat | Adjacent(es, cur, y)
      ensures y < n && seen[y] && dist[y] <= dist[cur] + 1
    {
      assert y in adj[cur];
    }
  }

  method Search(n: nat, es: seq<Edge>, adj: seq<seq<nat>>, source: nat)
      returns (seen: seq<bool>, parent: seq<nat>, dist: seq<int>, ghost order: seq<nat>, ghost par: seq<nat>, ghost head: nat)
    requires ValidEdges(n, es) && AdjacencyOf(n, es, adj) && source < n && Ascending(adj)
    ensures SearchDone(n, es, source, seen, parent, dist)
    ensures Tracked(es, source, seen, parent, [], order, par, head, head)
  {
    var seenA := new bool[n](_ => false);
    var parentA := new nat[n](_ => n);
    var distA := new int[n](_ => -1);
    var queue := [source];
    seenA[source] := true;
    distA[source] := 0;

    ghost var finished: set<nat>, level := {}, 0;
    order, par, head := [source], [0], 0;
    TrackedStarts(n, es, source, seenA[..], parentA[..]);
    while |queue| > 0
      invariant Searching(n, es, source, seenA[..], parentA[..], distA[..], queue, level, finished, {})
      invariant Tracked(es, source, seenA[..], parentA[..], queue, order, par, head, head)
      decreases Vertices(n) - finished
    {
      var cur := queue[0];
      Pop(n, es, source, seenA[..], parentA[..], distA[..], queue, level, finished);
      level := distA[cur];
      queue, order, par := Expand(n, es, adj, source, cur, seenA, parentA, distA, queue[1..], level, finished, order, par, head);
      head := head + 1;
      Finish(n, es, source, seenA[..], parentA[..], distA[..], queue, level, finished, cur);
      assert cur in {cur};
      finished := finished + {cur};
      assert cur in Vertices(n);
    }
    seen, parent, dist := seenA[..], parentA[..], distA[..];
  }

  // ----- routes

  /** Reads the route to `dest` back along parent links, then reverses it in place. */
  method BuildRoute(n: nat, ghost es: seq<Edge>, source: nat, dest: nat, ghost seen: seq<bool>, parent: seq<nat>, ghost dist: seq<int>)
      returns (route: seq<nat>)
    requires SearchTree(n, es, source, seen, parent, dist) && dest < n && seen[dest]
    ensures Walk(es, route, source, dest) && |route| == dist[dest] + 1
    ensures forall i :: 0 <= i < |route| ==> route[i] < n && dist[route[i]] == i
    ensures forall i :: 0 < i < |route| ==> route[i - 1] == parent[route[i]]
  {
    if source == dest {
      assert Hangs(es, source, seen, parent, dist, source);
      return [source];
    }
    route := [];
    assert Hangs(es, source, seen, parent, dist, dest);
    var cur: nat := dest;
    while cur != source
      invariant cur < n && seen[cur] && Hangs(es, source, seen, parent, dist, cur)
      invariant dist[cur] <= dist[dest] && |route| == dist[dest] - dist[cur]
      invariant forall i :: 0 <= i < |route| ==> route[i] < n && dist[route[i]] == dist[dest] - i
      invariant |route| > 0 ==> route[0] == dest && Adjacent(es, cur, route[|route| - 1]) && parent[route[|route| - 1]] == cur
      invariant forall i :: 0 <= i < |route| - 1 ==> route[i + 1] == parent[route[i]]
      invariant |route| == 0 ==> cur == dest
      invariant forall i, j :: 0 <= i && j == i + 1 && j < |route| ==> Adjacent(es, route[j], route[i])
      decreases dist[cur]
    {
      route := route + [cur];
      cur := parent[cur];
      assert Hangs(es, source, seen, parent, dist, cur);
    }
    route := route + [source];

    ghost var backward := route;
    route := Reverse(route);
    forall i, j | 0 <= i && j == i + 1 && j < |route|
      ensures Adjacent(es, route[i], route[j])
    {
      assert Adjacent(es, backward[|route| - 1 - i], backward[|route| - 1 - j]);
    }
  }

  method Reverse(s: seq<nat>) returns (r: seq<nat>)
    ensures |r| == |s|
    ensures forall k :: 0 <= k < |s| ==> r[k] == s[|s| - 1 - k]
  {
    r := s;
    var i, j := 0, |s| - 1;
    while i < j
      invariant 0 <= i && j == |s| - 1 - i && |r| == |s| && -1 <= j - i
      invariant forall k :: 0 <= k < i ==> r[k] == s[|s| - 1 - k]
      invariant forall k :: j < k < |s| ==> r[k] == s[|s| - 1 - k]
      invariant forall k :: i <= k <= j ==> r[k] == s[k]
    {
      r := r[i := r[j]][j := r[i]];
      i, j := i + 1, j - 1;
    }
  }

  lemma DistancesFromSource(n: nat, es: seq<Edge>, source: nat, seen: seq<bool>, parent: seq<nat>, dist: seq<int>)
    requires SearchDone(n, es, source, seen, parent, dist)
    ensures forall x :: 0 <= x < n ==> (seen[x] <==> Connected(es, source, x))
    ensures forall x :: 0 <= x < n && seen[x] ==> Distance(es, source, x) == dist[x]
  {
    forall x | 0 <= x < n
      ensures seen[x] <==> Connected(es, source, x)
      ensures seen[x] ==> Distance(es, source, x) == dist[x]
    {
      SearchIsExact(n, es, source, seen, parent, dist, x);
    }
  }

  /** The overlay's rows for one source shard: true distances and shortest simple routes. */
  ghost predicate RowOf(n: nat, es: seq<Edge>, source: nat, routes: seq<seq<nat>>, dist: seq<int>) {
    && |routes| == |dist| == n
    && forall b: nat {:trigger routes[b]} {:trigger dist[b]} :: b < n ==>
         ShortestRoute(es, routes[b], source, b) && dist[b] == Distance(es, source, b)
  }

  ghost predicate RoutesTo(es: seq<Edge>, source: nat, seen: seq<bool>, routes: seq<seq<nat>>) {
    |routes| <= |seen| && forall b: nat {:trigger routes[b]} {:trigger seen[b]} :: b < |routes| ==> seen[b] && ShortestRoute(es, routes[b], source, b)
  }

  lemma RoutesNext(es: seq<Edge>, source: nat, seen: seq<bool>, routes: seq<seq<nat>>, route: seq<nat>)
    requires RoutesTo(es, source, seen, routes) && |routes| < |seen| && seen[|routes|] && ShortestRoute(es, route, source, |routes|)
    ensures RoutesTo(es, source, seen, routes + [route])
  {
    forall b: nat | b < |routes| + 1
      ensures seen[b] && ShortestRoute(es, (routes + [route])[b], source, b)
    {
      if b < |routes| {
        assert ShortestRoute(es, routes[b], source, b);
      }
    }
  }

  lemma RoutesMakeRow(n: nat, es: seq<Edge>, source: nat, seen: seq<bool>, parent: seq<nat>, dist: seq<int>, routes: seq<seq<nat>>)
    requires SearchDone(n, es, source, seen, parent, dist) && RoutesTo(es, source, seen, routes) && |routes| == n
    ensures RowOf(n, es, source, routes, dist) && forall b :: 0 <= b < n ==> Connected(es, source, b)
  {
    DistancesFromSource(n, es, source, seen, parent, dist);
    forall b: nat | b < n
      ensures ShortestRoute(es, routes[b], source, b) && dist[b] == Distance(es, source, b)
    {
      assert seen[b];
    }
  }

  /** A route read back along parent links is the first of the shortest. */
  lemma RouteIsShortest(n: nat, es: seq<Edge>, source: nat, seen: seq<bool>, parent: seq<nat>, dist: seq<int>,
                        order: seq<nat>, par: seq<nat>, head: nat, dest: nat, route: seq<nat>)
    requires SearchDone(n, es, source, seen, parent, dist) && Tracked(es, source, seen, parent, [], order, par, head, head)
    requires dest < n && seen[dest] && Walk(es, route, source, dest) && |route| == dist[dest] + 1
    requires forall i :: 0 <= i < |route| ==> route[i] < n && dist[route[i]] == i
    requires forall i :: 0 < i < |route| ==> route[i - 1] == parent[route[i]]
    ensures ShortestRoute(es, route, source, dest)
  {
    TrackedEnds(n, es, source, seen, parent, dist, order, par, head);
    SearchIsExact(n, es, source, seen, parent, dist, dest);
    assert Hangs(es, source, seen, parent, dist, source);
    var i :| 0 <= i < |order| && order[i] == dest;
    RouteIsPath(es, source, seen, parent, order, par, head, route, i);
    forall p | Walk(es, p, source, dest) && |p| == |route|
      ensures LexLeq(route, p)
    {
      RouteIsFirst(es, source, order, par, i, p);
    }
  }

  method RoutesFrom(n: nat, es: seq<Edge>, adj: seq<seq<nat>>, source: nat)
      returns (ok: bool, routes: seq<seq<nat>>, dist: seq<int>)
    requires ValidEdges(n, es) && AdjacencyOf(n, es, adj) && source < n && Ascending(adj)
    ensures ok <==> forall b :: 0 <= b < n ==> Connected(es, source, b)
    ensures ok ==> RowOf(n, es, source, routes, dist)
  {
    var seen, parent;
    ghost var order, par, head;
    seen, parent, dist, order, par, head := Search(n, es, adj, source);
    DistancesFromSource(n, es, source, seen, parent, dist);
    routes := [];
    for dest := 0 to n
      invariant |routes| == dest && RoutesTo(es, source, seen, routes)
    {
      if !seen[dest] {
        assert !Connected(es, source, dest);
        return false, routes, dist;
      }
      var route := BuildRoute(n, es, source, dest, seen, parent, dist);
      RouteIsShortest(n, es, source, seen, parent, dist, order, par, head, dest, route);
      RoutesNext(es, source, seen, routes, route);
      routes := routes + [route];
    }
    RoutesMakeRow(n, es, source, seen, parent, dist, routes);
    ok := true;
  }

  lemma RowsMakeOverlay(n: nat, es: seq<Edge>, routes: seq<seq<seq<nat>>>, dists: seq<seq<int>>)
    requires |routes| == |dists| == n && ValidEdges(n, es)
    requires forall a :: 0 <= a < n ==> RowOf(n, es, a, routes[a], dists[a])
    ensures ConnectedGraph(n, es) && OverlayOf(Overlay(n, es, routes, dists), n, es)
  {
    forall a, b | 0 <= a < n && 0 <= b < n
      ensures Connected(es, a, b) && ShortestRoute(es, routes[a][b], a, b) && dists[a][b] == Distance(es, a, b)
    {
      assert RowOf(n, es, a, routes[a], dists[a]);
      assert ShortestRoute(es, routes[a][b], a, b);
    }
    var m := DistanceMatrix(n, es);
    forall a | 0 <= a < n
      ensures dists[a] == m[a]
    {
    }
    assert dists == m;
  }

  /**
   Fails exactly on an invalid edge or a disconnected graph; otherwise the distances are the true
   shortest-path metric and every route is a shortest simple path along listed edges.
   */
  method NewOverlay(n: nat, es: seq<Edge>) returns (r: OverlayResult)
    ensures r == Failed(InvalidEdge) <==> !ValidEdges(n, es)
    ensures r == Failed(Disconnected) <==> ValidEdges(n, es) && !ConnectedGraph(n, es)
    ensures r.Built? <==> ValidEdges(n, es) && ConnectedGraph(n, es)
    ensures r.Built? ==> OverlayOf(r.overlay, n, es)
  {
    var ok, adj := BuildAdjacency(n, es);
    if !ok {
      return Failed(InvalidEdge);
    }
    var routes: seq<seq<seq<nat>>>, dists: seq<seq<int>> := [], [];
    for source := 0 to n
      invariant |routes| == |dists| == source
      invariant forall a :: 0 <= a < source ==> RowOf(n, es, a, routes[a], dists[a])
    {
      var reached, row, dist := RoutesFrom(n, es, adj, source);
      if !reached {
        return Failed(Disconnected);
      }
      routes, dists := routes + [row], dists + [dist];
    }
    RowsMakeOverlay(n, es, routes, dists);
    r := Built(Overlay(n, es, routes, dists));
  }
}
