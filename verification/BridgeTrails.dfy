/**
 The trail of a raw transaction through the shards: its committed hops are hop 0, 1, 2, ... of its route,
 and its live hop, if it has one, is the next one, at or on its way to the next shard.
 */
module BridgeTrails {
  import opened Sums
  import opened Bridge
  import opened BridgeProtocol
  import opened BridgeSteps
  import opened BridgeRuns

  function LiveAt(id: RawId, j: int): Tx -> int {
    (tx: Tx) => Bit(tx.rawTxHash == Some(id) && tx.routeIndex == j)
  }

  /** A hop beyond the first is live or committed only after the hop before it was committed. */
  ghost predicate HopBacked(y: System, id: RawId, j: nat) {
    Everywhere(LiveAt(id, j + 1), y) + Sum(VisitAt(id, j + 1), y.visits) <= Sum(VisitAt(id, j), y.visits)
  }

  // ----- every step keeps it

  /** What a block commits at one position it took in there; what it sends on to a position it committed before it. */
  lemma {:induction false} BlockBacks(cfg: Config, raws: map<RawId, Raw>, s: nat, balances: map<nat, int>, body: seq<Tx>, id: RawId, j: int)
    requires Committable(cfg, raws, s, balances, body)
    ensures Sum(VisitAt(id, j), VisitsOf(s, body)) == Sum(LiveAt(id, j), body)
    ensures Sum(OfHop(LiveAt(id, j + 1)), CommitBody(cfg, s, balances, body).outbox) <= Sum(VisitAt(id, j), VisitsOf(s, body))
  {
    if body != [] {
      var init, tx := body[..|body| - 1], body[|body| - 1];
      BlockBacks(cfg, raws, s, balances, init, id, j);
      BlockOutbox(cfg, raws, s, balances, init);
      var w := CommitBody(cfg, s, balances, init);
      var sent := OneEffect(cfg, raws, s, w, tx);
      ExtendedSum(OfHop(LiveAt(id, j + 1)), w.outbox, sent);
      VisitsSum(VisitAt(id, j), s, body);
    }
  }

  lemma CommitBacks(cfg: Config, y: System, s: nat, size: nat, ok: bool, id: RawId, j: nat)
    requires CommitReady(cfg, y, s, size) && HopBacked(y, id, j)
    ensures HopBacked(CommitBlock(cfg, y, s, size, ok), id, j)
  {
    var body := BlockOf(y, s, size);
    ReadyIsCommittable(cfg, y, s, size);
    CommitMoves(cfg, LiveAt(id, j + 1), y, s, size, ok);
    BlockBacks(cfg, y.raws, s, y.shards[s].balances, body, id, j);
    BlockBacks(cfg, y.raws, s, y.shards[s].balances, body, id, j + 1);
    SumConcat(VisitAt(id, j), y.visits, VisitsOf(s, body));
    SumConcat(VisitAt(id, j + 1), y.visits, VisitsOf(s, body));
  }

  lemma StepBacks(cfg: Config, x: System, e: Event, y: System, id: RawId, j: nat)
    requires ValidConfig(cfg) && Follows(cfg, x, e, y) && (e.Commit? ==> CommitReady(cfg, x, e.s, e.size)) && HopBacked(x, id, j)
    ensures HopBacked(y, id, j)
  {
    match e
    case DealInner(s, tx) => PoolAdded(LiveAt(id, j + 1), x, s, tx);
    case DealCross(k, raw) => PoolAdded(LiveAt(id, j + 1), x, raw.route[0], HopTx(cfg, k, raw, 0));
    case Commit(s, size, ok) => CommitBacks(cfg, x, s, size, ok, id, j);
    case Deliver(i) => DeliverMoves(LiveAt(id, j + 1), x, i);
    case Lose(i) => LoseMoves(InMsg(LiveAt(id, j + 1)), x, i);
    case CountReport(i) =>
    case LoseReport(i) =>
  }

  /** Whatever is committed in a run is ready to be. */
  lemma RunReady(cfg: Config, total: nat, states: seq<System>, events: seq<Event>, k: nat)
    requires ValidConfig(cfg) && Run(cfg, total, states, events) && k < |events|
    ensures Follows(cfg, states[k], events[k], states[k + 1])
    ensures events[k].Commit? ==> CommitReady(cfg, states[k], events[k].s, events[k].size)
  {
    RunKeeps(cfg, total, states, events, k);
    assert Follows(cfg, states[k], events[k], states[k + 1]);
  }

  lemma {:induction false} RunBacks(cfg: Config, total: nat, states: seq<System>, events: seq<Event>, k: nat, id: RawId, j: nat)
    requires ValidConfig(cfg) && Run(cfg, total, states, events) && k < |states|
    ensures HopBacked(states[k], id, j)
  {
    if k == 0 {
      SumZero(InPool(LiveAt(id, j + 1)), states[0].shards);
    } else {
      RunBacks(cfg, total, states, events, k - 1, id, j);
      RunReady(cfg, total, states, events, k - 1);
      StepBacks(cfg, states[k - 1], events[k - 1], states[k], id, j);
    }
  }

  // ----- trails

  /** The positions of the committed hops of one raw transaction, in the order of their commits. */
  function Trail(visits: seq<Visit>, id: RawId): seq<int> {
    if visits == [] then []
    else
      var v, before := visits[|visits| - 1], Trail(visits[..|visits| - 1], id);
      if v.id == id then before + [v.index] else before
  }

  /** Every position of the trail is that of a visit. */
  lemma {:induction false} TrailVisit(visits: seq<Visit>, id: RawId, p: nat) returns (k: nat)
    requires p < |Trail(visits, id)|
    ensures k < |visits| && visits[k].id == id && visits[k].index == Trail(visits, id)[p]
  {
    var init := visits[..|visits| - 1];
    if p < |Trail(init, id)| {
      k := TrailVisit(init, id, p);
    } else {
      k := |visits| - 1;
    }
  }

  lemma {:induction false} TrailRises(visits: seq<Visit>, id: RawId)
    requires Ordered(visits)
    ensures Rising(Trail(visits, id))
  {
    if visits != [] {
      var init, v := visits[..|visits| - 1], visits[|visits| - 1];
      TrailRises(init, id);
      forall p: nat | p < |Trail(init, id)| && v.id == id
        ensures Trail(init, id)[p] < v.index
      {
        var k := TrailVisit(init, id, p);
        assert visits[k] == init[k];
      }
    }
  }

  lemma {:induction false} TrailCounts(visits: seq<Visit>, id: RawId, j: int)
    ensures Sum(VisitAt(id, j), visits) >= 0
    ensures Sum(VisitAt(id, j), visits) > 0 <==> j in Trail(visits, id)
  {
    if visits != [] {
      TrailCounts(visits[..|visits| - 1], id, j);
    }
  }

  ghost predicate Counting(t: seq<int>) {
    forall p {:trigger t[p]} :: 0 <= p < |t| ==> t[p] == p
  }

  ghost predicate Rising(t: seq<int>) {
    forall i, j :: 0 <= i < j < |t| ==> t[i] < t[j]
  }

  ghost predicate HasBefore(t: seq<int>, i: nat)
    requires i < |t|
  {
    t[i] >= 0 && (t[i] > 0 ==> t[i] - 1 in t)
  }

  /** Each position beyond the first comes with the one before it. */
  ghost predicate Closed(t: seq<int>) {
    forall i: nat {:trigger HasBefore(t, i)} :: i < |t| ==> HasBefore(t, i)
  }

  lemma {:induction false} RisingIsCounting(t: seq<int>, p: nat)
    requires p < |t| && Rising(t) && Closed(t)
    ensures t[p] == p
  {
    if p > 0 {
      RisingIsCounting(t, p - 1);
    }
    assert HasBefore(t, p);
    if t[p] > 0 {
      var i :| 0 <= i < |t| && t[i] == t[p] - 1;
    }
  }

  lemma CountingHas(t: seq<int>, j: nat)
    requires Counting(t)
    ensures j < |t| <==> j in t
  {
    if j < |t| {
      assert t[j] == j;
    }
  }

  lemma TrailClosed(cfg: Config, total: nat, states: seq<System>, events: seq<Event>, k: nat, id: RawId, p: nat)
    requires ValidConfig(cfg) && Run(cfg, total, states, events) && k < |states| && p < |Trail(states[k].visits, id)|
    ensures var y := states[k]; var t := Trail(y.visits, id);
      id in y.raws && 0 <= t[p] < |y.raws[id].route| && (t[p] > 0 ==> t[p] - 1 in t)
  {
    var y := states[k];
    var t := Trail(y.visits, id);
    RunKeeps(cfg, total, states, events, k);
    var i := TrailVisit(y.visits, id, p);
    assert ValidVisit(y.raws, y.visits[i]);
    if t[p] > 0 {
      var j: nat := t[p] - 1;
      RunBacks(cfg, total, states, events, k, id, j);
      AllNonNegative(LiveAt(id, j + 1), y);
      TrailCounts(y.visits, id, j);
      TrailCounts(y.visits, id, j + 1);
    }
  }

  /** The trail is 0, 1, 2, ... and stays on the route. */
  lemma TrailFollowsRoute(cfg: Config, total: nat, states: seq<System>, events: seq<Event>, k: nat, id: RawId)
    requires ValidConfig(cfg) && Run(cfg, total, states, events) && k < |states| && id in states[k].raws
    ensures Counting(Trail(states[k].visits, id)) && |Trail(states[k].visits, id)| <= |states[k].raws[id].route|
  {
    var y := states[k];
    var t := Trail(y.visits, id);
    RunKeeps(cfg, total, states, events, k);
    TrailRises(y.visits, id);
    forall p: nat | p < |t|
      ensures HasBefore(t, p)
    {
      TrailClosed(cfg, total, states, events, k, id, p);
    }
    forall p: nat | p < |t|
      ensures t[p] == p
    {
      RisingIsCounting(t, p);
    }
    if t != [] {
      TrailClosed(cfg, total, states, events, k, id, |t| - 1);
    }
  }

  lemma NextOfTrail(y: System, id: RawId, j: nat)
    requires Counting(Trail(y.visits, id)) && HopCounted(y, id, j) && (j > 0 ==> HopBacked(y, id, j - 1))
    requires Everywhere(LiveAt(id, j), y) > 0 && Everywhere(LiveUpTo(id, j), y) > 0
    ensures |Trail(y.visits, id)| == j
  {
    TrailCounts(y.visits, id, j);
    CountingHas(Trail(y.visits, id), j);
    if j > 0 {
      TrailCounts(y.visits, id, j - 1);
      CountingHas(Trail(y.visits, id), j - 1);
    }
  }

  /** A hop with a weight anywhere is the next one of its trail. */
  lemma LiveIsNext(cfg: Config, total: nat, states: seq<System>, events: seq<Event>, k: nat, id: RawId, j: nat)
    requires ValidConfig(cfg) && Run(cfg, total, states, events) && k < |states| && id in states[k].raws
    requires Everywhere(LiveAt(id, j), states[k]) > 0 && Everywhere(LiveUpTo(id, j), states[k]) > 0
    ensures |Trail(states[k].visits, id)| == j
  {
    var y := states[k];
    var t := Trail(y.visits, id);
    TrailFollowsRoute(cfg, total, states, events, k, id);
    RunKeeps(cfg, total, states, events, k);
    assert HopCounted(y, id, j);
    RunBacks(cfg, total, states, events, k, id, if j > 0 then j - 1 else 0);
    NextOfTrail(y, id, j);
  }

  lemma PooledIsNext(cfg: Config, total: nat, states: seq<System>, events: seq<Event>, k: nat, s: nat, i: nat)
    requires ValidConfig(cfg) && Run(cfg, total, states, events) && k < |states|
    requires s < |states[k].shards| && i < |states[k].shards[s].pool| && states[k].shards[s].pool[i].rawTxHash.Some?
    ensures var y, tx := states[k], states[k].shards[s].pool[i];
      && tx.rawTxHash.value in y.raws
      && var m := |Trail(y.visits, tx.rawTxHash.value)|;
         tx.routeIndex == m && m < |y.raws[tx.rawTxHash.value].route| && y.raws[tx.rawTxHash.value].route[m] == s
  {
    var y, tx := states[k], states[k].shards[s].pool[i];
    RunKeeps(cfg, total, states, events, k);
    assert PoolInPlace(cfg, y.raws, s, y.shards[s].pool);
    assert IsHop(cfg, y.raws, s, tx);
    var id, j: nat := tx.rawTxHash.value, tx.routeIndex;
    PoolWeight(LiveAt(id, j), y, s, i);
    PoolWeight(LiveUpTo(id, j), y, s, i);
    LiveIsNext(cfg, total, states, events, k, id, j);
  }

  lemma FlyingIsNext(cfg: Config, total: nat, states: seq<System>, events: seq<Event>, k: nat, m: nat, i: nat)
    requires ValidConfig(cfg) && Run(cfg, total, states, events) && k < |states|
    requires m < |states[k].net| && i < |states[k].net[m].txs|
    ensures var y, msg, tx := states[k], states[k].net[m], states[k].net[m].txs[i];
      && tx.rawTxHash.Some? && tx.rawTxHash.value in y.raws
      && var n := |Trail(y.visits, tx.rawTxHash.value)|;
         tx.routeIndex == n && n < |y.raws[tx.rawTxHash.value].route| && y.raws[tx.rawTxHash.value].route[n] == msg.to
  {
    var y, msg, tx := states[k], states[k].net[m], states[k].net[m].txs[i];
    RunKeeps(cfg, total, states, events, k);
    assert ValidMsg(cfg, y.raws, msg);
    assert IsHop(cfg, y.raws, msg.to, tx);
    var id, j: nat := tx.rawTxHash.value, tx.routeIndex;
    MsgWeight(LiveAt(id, j), y, y.net, m, i);
    MsgWeight(LiveUpTo(id, j), y, y.net, m, i);
    LiveIsNext(cfg, total, states, events, k, id, j);
  }

  /**
   The hop protocol: the committed hops of a raw transaction are, in order, hop 0, 1, ..., m - 1 of its route,
   hop number p in shard route[p], so each in a different shard and at most as many as the route is long. It has
   at most one live hop anywhere, which is hop m, pooled at or on its way to route[m].
   */
  lemma HopsGoForward(cfg: Config, total: nat, states: seq<System>, events: seq<Event>, k: nat, id: RawId)
    requires ValidConfig(cfg) && Run(cfg, total, states, events) && k < |states| && id in states[k].raws
    ensures var y := states[k]; var t := Trail(y.visits, id);
      && |t| <= |y.raws[id].route| && Counting(t)
      && (forall i :: 0 <= i < |y.visits| && y.visits[i].id == id ==>
            0 <= y.visits[i].index < |y.raws[id].route| && y.visits[i].shard == y.raws[id].route[y.visits[i].index])
      && Distinct(y.raws[id].route)
    ensures var y := states[k]; var m := |Trail(y.visits, id)|;
      && (forall j: int :: Everywhere(LiveUpTo(id, j), y) <= 1)
      && (forall s, i :: 0 <= s < |y.shards| && 0 <= i < |y.shards[s].pool| && y.shards[s].pool[i].rawTxHash == Some(id) ==>
            y.shards[s].pool[i].routeIndex == m && m < |y.raws[id].route| && y.raws[id].route[m] == s)
      && (forall n, i :: 0 <= n < |y.net| && 0 <= i < |y.net[n].txs| && y.net[n].txs[i].rawTxHash == Some(id) ==>
            y.net[n].txs[i].routeIndex == m && m < |y.raws[id].route| && y.raws[id].route[m] == y.net[n].to)
  {
    var y := states[k];
    RunKeeps(cfg, total, states, events, k);
    TrailFollowsRoute(cfg, total, states, events, k, id);
    assert ValidRaw(cfg, y.raws[id]);
    forall i | 0 <= i < |y.visits|
      ensures ValidVisit(y.raws, y.visits[i])
    {
    }
    forall j: int
      ensures Everywhere(LiveUpTo(id, j), y) <= 1
    {
      assert HopCounted(y, id, j);
      VisitSumNonNegative(id, j, y.visits);
    }
    forall s: nat, i: nat | s < |y.shards| && i < |y.shards[s].pool| && y.shards[s].pool[i].rawTxHash == Some(id)
      ensures var m := |Trail(y.visits, id)|;
        y.shards[s].pool[i].routeIndex == m && m < |y.raws[id].route| && y.raws[id].route[m] == s
    {
      PooledIsNext(cfg, total, states, events, k, s, i);
    }
    forall n: nat, i: nat | n < |y.net| && i < |y.net[n].txs| && y.net[n].txs[i].rawTxHash == Some(id)
      ensures var m := |Trail(y.visits, id)|;
        y.net[n].txs[i].routeIndex == m && m < |y.raws[id].route| && y.raws[id].route[m] == y.net[n].to
    {
      FlyingIsNext(cfg, total, states, events, k, n, i);
    }
  }
}
