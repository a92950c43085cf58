/** Every run of the bridge protocol: channel money, the order of hops, drain detection, dealt routes. */
module BridgeRuns {
  import opened Sums
  import opened Bridge
  import opened BridgeProtocol
  import opened BridgeSteps
  import Graphs
  import ShortestPaths

  // ----- what follows, for every state of every run

  /** Channel money is conserved; what is missing from a channel is exactly what was lost on it. */
  lemma ChannelMoneyConserved(cfg: Config, total: nat, states: seq<System>, events: seq<Event>, k: nat, a: nat, b: nat)
    requires ValidConfig(cfg) && Run(cfg, total, states, events) && k < |states|
    requires a < cfg.shardNum && b < cfg.shardNum && a != b
    ensures var y := states[k];
      && |y.shards| == cfg.shardNum
      && ChannelMoney(y, a, b) + LostMoney(y, a, b) == 2 * cfg.initBalance
      && (y.lost == [] ==> ChannelMoney(y, a, b) == 2 * cfg.initBalance)
  {
    RunKeeps(cfg, total, states, events, k);
    assert ChannelMoney(states[k], a, b) + LostMoney(states[k], a, b) == 2 * cfg.initBalance;
  }

  /** With non-negative values a channel never holds more than its deposits, and no end goes below zero. */
  lemma ChannelsSolvent(cfg: Config, total: nat, states: seq<System>, events: seq<Event>, k: nat, a: nat, b: nat)
    requires ValidConfig(cfg) && Run(cfg, total, states, events) && k < |states|
    requires a < cfg.shardNum && b < cfg.shardNum && a != b
    requires cfg.initBalance >= 0 && NonNegativeValues(states[k].raws)
    ensures |states[k].shards| == cfg.shardNum
    ensures Balance(states[k], a, b) >= 0 && Balance(states[k], b, a) >= 0
    ensures ChannelMoney(states[k], a, b) <= 2 * cfg.initBalance
  {
    var y := states[k];
    RunKeeps(cfg, total, states, events, k);
    assert ChannelMoney(y, a, b) + LostMoney(y, a, b) == 2 * cfg.initBalance;
    forall i | 0 <= i < |y.lost|
      ensures y.lost[i].value >= 0
    {
      assert ValidMsg(cfg, y.raws, y.lost[i]);
      ValuesNonNegative(cfg, y.raws, y.lost[i]);
    }
    SumNonNegative(Between(a, b), y.lost);
    SumNonNegative(Between(b, a), y.lost);
  }

  /** No leader ever meets a transaction whose route leaves the shard range or does not pass through it. */
  lemma CommitNeverStuck(cfg: Config, total: nat, states: seq<System>, events: seq<Event>, k: nat, s: nat, size: nat, ok: bool)
    requires ValidConfig(cfg) && Run(cfg, total, states, events) && k < |states|
    requires s < cfg.shardNum && |states[k].shards| == cfg.shardNum && size <= |states[k].shards[s].pool|
    ensures Enabled(cfg, states[k], Commit(s, size, ok))
    ensures forall i :: 0 <= i < size && states[k].shards[s].pool[i].rawTxHash.Some? ==>
      IsHop(cfg, states[k].raws, s, states[k].shards[s].pool[i])
  {
    RunKeeps(cfg, total, states, events, k);
    BodyInPlace(cfg, states[k], s, size);
    forall i | 0 <= i < size && states[k].shards[s].pool[i].rawTxHash.Some?
      ensures IsHop(cfg, states[k].raws, s, states[k].shards[s].pool[i])
    {
      assert InPlace(cfg, states[k].raws, s, states[k].shards[s].pool[..size][i]);
    }
  }

  // ----- the end of a run

  /** The committee's test that everything has been executed. */
  predicate ExecutionDrained(y: System, total: nat) {
    var rawCross := |y.raws|;
    var expectedNormal := if total - rawCross < 0 then 0 else total - rawCross;
    y.normal >= expectedNormal && y.bridge1 >= rawCross && y.bridge2 >= rawCross
  }

  function FinalIds(raws: map<RawId, Raw>, visits: seq<Visit>): seq<RawId> {
    if visits == [] then []
    else
      var v, before := visits[|visits| - 1], FinalIds(raws, visits[..|visits| - 1]);
      if v.id in raws && v.index == |raws[v.id].route| - 1 then before + [v.id] else before
  }

  lemma {:induction false} FinalIdsAre(raws: map<RawId, Raw>, visits: seq<Visit>)
    requires Ordered(visits)
    ensures |FinalIds(raws, visits)| == Sum(IsFinal(raws), visits)
    ensures forall i :: 0 <= i < |FinalIds(raws, visits)| ==> FinalIds(raws, visits)[i] in raws
    ensures forall id :: id in FinalIds(raws, visits) ==>
      id in raws && exists k :: 0 <= k < |visits| && visits[k].id == id && visits[k].index == |raws[id].route| - 1
    ensures Distinct(FinalIds(raws, visits))
  {
    if visits != [] {
      var init, v := visits[..|visits| - 1], visits[|visits| - 1];
      FinalIdsAre(raws, init);
      forall id | id in FinalIds(raws, init)
        ensures exists k :: 0 <= k < |visits| && visits[k].id == id && visits[k].index == |raws[id].route| - 1
      {
        var k :| 0 <= k < |init| && init[k].id == id && init[k].index == |raws[id].route| - 1;
        assert visits[k] == init[k];
      }
      if v.id in raws && v.index == |raws[v.id].route| - 1 {
        assert visits[|visits| - 1] == v;
      }
    }
  }

  /** When as many final hops are reported as raw transactions were dealt, each one is complete. */
  lemma AllComplete(cfg: Config, total: nat, y: System)
    requires Inv(cfg, total, y) && ExecutionDrained(y, total)
    ensures forall id :: id in y.raws ==> id in FinalIds(y.raws, y.visits)
  {
    SumNonNegative(ReportedBridge2(), y.reports);
    FinalIdsAre(y.raws, y.visits);
    Pigeonhole(FinalIds(y.raws, y.visits), y.raws.Keys);
  }

  lemma CompleteIsNotLive(cfg: Config, total: nat, y: System, id: RawId)
    requires Inv(cfg, total, y) && id in y.raws && id in FinalIds(y.raws, y.visits)
    ensures Everywhere(LiveUpTo(id, |y.raws[id].route| - 1), y) <= 0
  {
    var last := |y.raws[id].route| - 1;
    FinalIdsAre(y.raws, y.visits);
    var k :| 0 <= k < |y.visits| && y.visits[k].id == id && y.visits[k].index == last;
    SumBoundsElement(VisitAt(id, last), y.visits, k);
    assert HopCounted(y, id, last);
  }

  lemma MsgWeight(f: Tx -> int, y: System, msgs: seq<Msg>, m: nat, i: nat)
    requires (msgs == y.net || msgs == y.lost) && m < |msgs| && i < |msgs[m].txs| && forall tx :: f(tx) >= 0
    ensures Everywhere(f, y) >= f(msgs[m].txs[i])
  {
    AllNonNegative(f, y);
    SumBoundsElement(f, msgs[m].txs, i);
    forall k | 0 <= k < |msgs|
      ensures InMsg(f)(msgs[k]) >= 0
    {
      SumNonNegative(f, msgs[k].txs);
    }
    SumBoundsElement(InMsg(f), msgs, m);
  }

  /**
   Drain detection is sound, whatever the order of reports: once it says drained, the whole data set was
   dealt, every transaction reached its final stage, and no hop is queued, in flight or lost.
   */
  lemma DrainedMeansDone(cfg: Config, total: nat, states: seq<System>, events: seq<Event>, k: nat)
    requires ValidConfig(cfg) && Run(cfg, total, states, events) && k < |states|
    requires ExecutionDrained(states[k], total)
    ensures var y := states[k];
      && y.left == 0 && y.innerDone == y.inner
      && (forall id :: id in y.raws ==> id in FinalIds(y.raws, y.visits))
      && (forall s :: 0 <= s < |y.shards| ==> y.shards[s].pool == [])
      && (forall m :: 0 <= m < |y.net| ==> y.net[m].txs == [])
      && (forall m :: 0 <= m < |y.lost| ==> y.lost[m].txs == [])
  {
    var y := states[k];
    RunKeeps(cfg, total, states, events, k);
    AllComplete(cfg, total, y);
    SumNonNegative(ReportedInner(), y.reports);
    AllNonNegative(IsInner(), y);
    forall s: nat | s < |y.shards|
      ensures y.shards[s].pool == []
    {
      NothingPooled(cfg, total, y, s);
    }
    NoHopsIn(cfg, total, y, y.net);
    NoHopsIn(cfg, total, y, y.lost);
  }

  lemma NothingPooled(cfg: Config, total: nat, y: System, s: nat)
    requires Inv(cfg, total, y) && s < |y.shards| && Everywhere(IsInner(), y) <= 0
    requires forall id :: id in y.raws ==> id in FinalIds(y.raws, y.visits)
    ensures y.shards[s].pool == []
  {
    if |y.shards[s].pool| > 0 {
      var tx := y.shards[s].pool[0];
      assert PoolInPlace(cfg, y.raws, s, y.shards[s].pool);
      if tx.rawTxHash.None? {
        PoolWeight(IsInner(), y, s, 0);
      } else {
        CompleteIsNotLive(cfg, total, y, tx.rawTxHash.value);
        PoolWeight(LiveUpTo(tx.rawTxHash.value, |y.raws[tx.rawTxHash.value].route| - 1), y, s, 0);
      }
    }
  }

  lemma NoHopsIn(cfg: Config, total: nat, y: System, msgs: seq<Msg>)
    requires Inv(cfg, total, y) && (msgs == y.net || msgs == y.lost)
    requires forall id :: id in y.raws ==> id in FinalIds(y.raws, y.visits)
    ensures forall m :: 0 <= m < |msgs| ==> msgs[m].txs == []
  {
    forall m: nat | m < |msgs|
      ensures msgs[m].txs == []
    {
      assert ValidMsg(cfg, y.raws, msgs[m]);
      if |msgs[m].txs| > 0 {
        var tx := msgs[m].txs[0];
        assert IsHop(cfg, y.raws, msgs[m].to, tx);
        CompleteIsNotLive(cfg, total, y, tx.rawTxHash.value);
        MsgWeight(LiveUpTo(tx.rawTxHash.value, |y.raws[tx.rawTxHash.value].route| - 1), y, msgs, m, 0);
      }
    }
  }

  // ----- the routes the committee deals

  /** The committee's route: the overlay's, or the direct one when the overlay has none to offer. */
  function BridgeRoute(overlay: Option<ShortestPaths.Overlay>, source: nat, dest: nat): seq<nat> {
    if overlay.None? then [source, dest]
    else
      var o := overlay.value;
      if source < o.shardNum && dest < o.shardNum && source < |o.routes| && dest < |o.routes[source]|
         && o.routes[source][dest] != [] then o.routes[source][dest]
      else [source, dest]
  }

  /** Whatever overlay is current, a cross-shard transaction is dealt a route the protocol can follow. */
  lemma DealtRouteIsValid(cfg: Config, overlay: Option<ShortestPaths.Overlay>, raw: Raw, source: nat, dest: nat)
    requires ValidConfig(cfg) && source < cfg.shardNum && dest < cfg.shardNum && source != dest
    requires overlay.Some? ==> ShortestPaths.OverlayOf(overlay.value, cfg.shardNum, overlay.value.edges)
    requires raw.route == BridgeRoute(overlay, source, dest)
    requires raw.sender !in cfg.addrs && raw.recipient !in cfg.addrs
    ensures ValidRaw(cfg, raw) && raw.route[0] == source && raw.route[|raw.route| - 1] == dest
  {
    if overlay.Some? {
      RouteOfOverlay(overlay.value, cfg.shardNum, source, dest);
    }
  }

  /** It is the overlay's shortest route, or the direct one if there is no overlay. */
  lemma DealtRouteIsShortest(overlay: Option<ShortestPaths.Overlay>, n: nat, source: nat, dest: nat)
    requires source < n && dest < n && source != dest
    requires overlay.Some? ==> ShortestPaths.OverlayOf(overlay.value, n, overlay.value.edges)
    ensures overlay.None? ==> BridgeRoute(overlay, source, dest) == [source, dest]
    ensures overlay.Some? ==> ShortestPaths.ShortestRoute(overlay.value.edges, BridgeRoute(overlay, source, dest), source, dest)
  {
    if overlay.Some? {
      assert ShortestPaths.ShortestRoute(overlay.value.edges, overlay.value.routes[source][dest], source, dest);
    }
  }

  lemma RouteOfOverlay(o: ShortestPaths.Overlay, n: nat, source: nat, dest: nat)
    requires ShortestPaths.OverlayOf(o, n, o.edges) && source < n && dest < n && source != dest
    ensures var r := o.routes[source][dest];
      |r| >= 2 && Distinct(r) && r[0] == source && r[|r| - 1] == dest && forall k :: 0 <= k < |r| ==> r[k] < n
  {
    var r := o.routes[source][dest];
    assert ShortestPaths.ShortestRoute(o.edges, r, source, dest);
    forall k | 0 <= k < |r|
      ensures r[k] < n
    {
      if k > 0 {
        assert Graphs.Adjacent(o.edges, r[k - 1], r[k]);
      }
    }
  }
}
