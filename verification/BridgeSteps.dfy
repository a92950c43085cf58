/** Every step of the bridge protocol keeps what its reachable states satisfy. */
module BridgeSteps {
  import opened Sums
  import opened Bridge
  import opened BridgeProtocol

  // ----- every step keeps the invariant

  lemma StartHolds(cfg: Config, total: nat)
    requires ValidConfig(cfg)
    ensures Inv(cfg, total, Start(cfg, total))
  {
    var y := Start(cfg, total);
    forall f: Tx -> int
      ensures Everywhere(f, y) == 0
    {
      SumZero(InPool(f), y.shards);
    }
    forall id: RawId, j: int
      ensures HopCounted(y, id, j)
    {
    }
    forall a: nat | a < cfg.shardNum
      ensures Open(cfg, y.shards[a].balances)
    {
      forall b: nat | b < cfg.shardNum
        ensures b in y.shards[a].balances
      {
        UniformIs(cfg.shardNum, cfg.initBalance, b);
      }
    }
    forall a: nat, b: nat | a < cfg.shardNum && b < cfg.shardNum && a != b
      ensures ChannelMoney(y, a, b) + LostMoney(y, a, b) == 2 * cfg.initBalance
    {
      UniformIs(cfg.shardNum, cfg.initBalance, a);
      UniformIs(cfg.shardNum, cfg.initBalance, b);
    }
    forall a: nat, b: nat | a < |y.shards| && b < cfg.shardNum
      ensures Balance(y, a, b) == cfg.initBalance
    {
      UniformIs(cfg.shardNum, cfg.initBalance, b);
    }
  }

  // adding to a pool

  lemma PoolAdded(f: Tx -> int, y: System, s: nat, tx: Tx)
    requires s < |y.shards|
    ensures Everywhere(f, y.(shards := AddToPool(y, s, [tx]))) == Everywhere(f, y) + f(tx)
  {
    var r := y.shards[s].(pool := y.shards[s].pool + [tx]);
    SumUpdate(InPool(f), y.shards, s, r);
    SumConcat(f, y.shards[s].pool, [tx]);
  }

  lemma ChannelsUntouched(cfg: Config, y: System, y': System)
    requires ChannelsConserved(cfg, y) && |y'.shards| == |y.shards| && y'.net == y.net && y'.lost == y.lost
    requires forall a: nat {:trigger y'.shards[a]} :: a < |y.shards| ==> y'.shards[a].balances == y.shards[a].balances
    requires Solvent(cfg, y) && forall id :: id in y.raws ==> id in y'.raws && y'.raws[id] == y.raws[id]
    ensures ChannelsConserved(cfg, y') && Solvent(cfg, y')
  {
    forall a: nat, b: nat | a < |y.shards| && b < cfg.shardNum
      ensures Balance(y', a, b) == Balance(y, a, b)
    {
    }
    assert NonNegativeValues(y'.raws) ==> NonNegativeValues(y.raws);
    forall a: nat, b: nat | a < cfg.shardNum && b < cfg.shardNum && a != b
      ensures ChannelMoney(y', a, b) + LostMoney(y', a, b) == 2 * cfg.initBalance
    {
      assert ChannelMoney(y', a, b) == ChannelMoney(y, a, b);
    }
  }

  lemma DealInnerPlaces(cfg: Config, y: System, s: nat, tx: Tx)
    requires AllInPlace(cfg, y) && s < |y.shards| && tx.rawTxHash.None? && tx.route == []
    ensures AllInPlace(cfg, y.(shards := AddToPool(y, s, [tx])))
  {
    assert PoolInPlace(cfg, y.raws, s, y.shards[s].pool);
    assert PoolInPlace(cfg, y.raws, s, y.shards[s].pool + [tx]);
  }

  lemma DealInnerKeeps(cfg: Config, total: nat, y: System, s: nat, tx: Tx)
    requires ValidConfig(cfg) && Inv(cfg, total, y) && Enabled(cfg, y, DealInner(s, tx))
    ensures Inv(cfg, total, Apply(cfg, y, DealInner(s, tx)))
  {
    var y' := Apply(cfg, y, DealInner(s, tx));
    DealInnerPlaces(cfg, y, s, tx);
    forall id: RawId, j: int
      ensures HopCounted(y', id, j)
    {
      assert HopCounted(y, id, j);
      PoolAdded(LiveUpTo(id, j), y, s, tx);
    }
    PoolAdded(IsInner(), y, s, tx);
    ChannelsUntouched(cfg, y, y');
  }

  lemma DealCrossPlaces(cfg: Config, y: System, id: RawId, raw: Raw)
    requires ValidConfig(cfg) && AllInPlace(cfg, y) && Enabled(cfg, y, DealCross(id, raw))
    ensures AllInPlace(cfg, Apply(cfg, y, DealCross(id, raw)))
  {
    var y1 := y.(raws := y.raws[id := raw]);
    var s, tx := raw.route[0], HopTx(cfg, id, raw, 0);
    assert PoolInPlace(cfg, y1.raws, s, y1.shards[s].pool);
    assert IsHop(cfg, y1.raws, s, tx);
    assert PoolInPlace(cfg, y1.raws, s, y1.shards[s].pool + [tx]);
  }

  lemma DealCrossHops(cfg: Config, y: System, id: RawId, raw: Raw, k: RawId, j: int)
    requires ValidConfig(cfg) && Enabled(cfg, y, DealCross(id, raw)) && HopCounted(y, k, j)
    ensures HopCounted(Apply(cfg, y, DealCross(id, raw)), k, j)
  {
    PoolAdded(LiveUpTo(k, j), y, raw.route[0], HopTx(cfg, id, raw, 0));
  }

  lemma DealCrossCounts(cfg: Config, total: nat, y: System, id: RawId, raw: Raw)
    requires ValidConfig(cfg) && AllInPlace(cfg, y) && Counted(y, total) && Enabled(cfg, y, DealCross(id, raw))
    ensures Counted(Apply(cfg, y, DealCross(id, raw)), total)
  {
    var y' := Apply(cfg, y, DealCross(id, raw));
    PoolAdded(IsInner(), y, raw.route[0], HopTx(cfg, id, raw, 0));
    forall i | 0 <= i < |y.visits|
      ensures IsFinal(y.raws)(y.visits[i]) == IsFinal(y'.raws)(y.visits[i])
    {
      assert ValidVisit(y.raws, y.visits[i]);
    }
    SumEqual(IsFinal(y.raws), IsFinal(y'.raws), y.visits);
  }

  lemma DealCrossKeeps(cfg: Config, total: nat, y: System, id: RawId, raw: Raw)
    requires ValidConfig(cfg) && Inv(cfg, total, y) && Enabled(cfg, y, DealCross(id, raw))
    ensures Inv(cfg, total, Apply(cfg, y, DealCross(id, raw)))
  {
    var y' := Apply(cfg, y, DealCross(id, raw));
    DealCrossPlaces(cfg, y, id, raw);
    DealCrossCounts(cfg, total, y, id, raw);
    forall k: RawId, j: int
      ensures HopCounted(y', k, j)
    {
      assert HopCounted(y, k, j);
      DealCrossHops(cfg, y, id, raw, k, j);
    }
    ChannelsUntouched(cfg, y, y');
  }

  // moving and losing messages

  lemma DeliverMoves(f: Tx -> int, y: System, i: nat)
    requires i < |y.net| && y.net[i].to < |y.shards|
    ensures Everywhere(f, DeliverMsg(y, i)) == Everywhere(f, y)
  {
    var m := y.net[i];
    var r := y.shards[m.to];
    SumUpdate(InPool(f), y.shards, m.to, Shard(Credited(r.balances, m), r.pool + m.txs));
    SumConcat(f, r.pool, m.txs);
    SumWithout(InMsg(f), y.net, i);
  }

  lemma DeliverBalances(cfg: Config, y: System, i: nat, a: nat, b: nat)
    requires AllInPlace(cfg, y) && ChannelsConserved(cfg, y) && i < |y.net|
    requires a < cfg.shardNum && b < cfg.shardNum && a != b
    ensures y.net[i].to < |y.shards|
    ensures ChannelMoney(DeliverMsg(y, i), a, b) == ChannelMoney(y, a, b)
  {
    var m := y.net[i];
    assert ValidMsg(cfg, y.raws, m);
    SumWithout(Between(a, b), y.net, i);
    SumWithout(Between(b, a), y.net, i);
    assert Open(cfg, y.shards[a].balances) && Open(cfg, y.shards[b].balances);
  }

  lemma ValuesNonNegative(cfg: Config, raws: map<RawId, Raw>, m: Msg)
    requires ValidMsg(cfg, raws, m) && NonNegativeValues(raws)
    ensures m.value >= 0
  {
    forall i | 0 <= i < |m.txs|
      ensures TxValue()(m.txs[i]) >= 0
    {
      assert IsHop(cfg, raws, m.to, m.txs[i]);
    }
    SumNonNegative(TxValue(), m.txs);
  }

  lemma DeliverSolvent(cfg: Config, y: System, i: nat)
    requires AllInPlace(cfg, y) && Solvent(cfg, y) && i < |y.net| && y.net[i].to < |y.shards|
    ensures Solvent(cfg, DeliverMsg(y, i))
  {
    var y', m := DeliverMsg(y, i), y.net[i];
    if cfg.initBalance >= 0 && NonNegativeValues(y.raws) {
      ValuesNonNegative(cfg, y.raws, m);
      forall a: nat, b: nat | a < |y'.shards| && b < cfg.shardNum
        ensures Balance(y', a, b) >= 0
      {
        assert Balance(y, a, b) >= 0;
      }
    }
  }

  lemma DeliverPlaces(cfg: Config, y: System, i: nat)
    requires AllInPlace(cfg, y) && i < |y.net|
    ensures y.net[i].to < |y.shards| && AllInPlace(cfg, DeliverMsg(y, i))
  {
    var y', m := DeliverMsg(y, i), y.net[i];
    assert ValidMsg(cfg, y.raws, m);
    forall s: nat | s < |y'.shards|
      ensures PoolInPlace(cfg, y'.raws, s, y'.shards[s].pool)
    {
      assert PoolInPlace(cfg, y.raws, s, y.shards[s].pool);
    }
  }

  lemma DeliverChannels(cfg: Config, y: System, i: nat)
    requires AllInPlace(cfg, y) && ChannelsConserved(cfg, y) && i < |y.net| && y.net[i].to < |y.shards|
    ensures ChannelsConserved(cfg, DeliverMsg(y, i))
  {
    var y' := DeliverMsg(y, i);
    forall a: nat | a < cfg.shardNum
      ensures Open(cfg, y'.shards[a].balances)
    {
      assert Open(cfg, y.shards[a].balances);
    }
    forall a: nat, b: nat | a < cfg.shardNum && b < cfg.shardNum && a != b
      ensures ChannelMoney(y', a, b) + LostMoney(y', a, b) == 2 * cfg.initBalance
    {
      DeliverBalances(cfg, y, i, a, b);
    }
  }

  lemma DeliverKeeps(cfg: Config, total: nat, y: System, i: nat)
    requires ValidConfig(cfg) && Inv(cfg, total, y) && Enabled(cfg, y, Deliver(i))
    ensures Inv(cfg, total, DeliverMsg(y, i))
  {
    var y' := DeliverMsg(y, i);
    DeliverPlaces(cfg, y, i);
    DeliverChannels(cfg, y, i);
    DeliverSolvent(cfg, y, i);
    DeliverMoves(IsInner(), y, i);
    forall id: RawId, j: int
      ensures HopCounted(y', id, j)
    {
      assert HopCounted(y, id, j);
      DeliverMoves(LiveUpTo(id, j), y, i);
    }
  }

  lemma LoseMoves(g: Msg -> int, y: System, i: nat)
    requires i < |y.net|
    ensures Sum(g, Without(y.net, i)) + Sum(g, y.lost + [y.net[i]]) == Sum(g, y.net) + Sum(g, y.lost)
  {
    SumWithout(g, y.net, i);
    SumConcat(g, y.lost, [y.net[i]]);
  }

  lemma LoseChannels(cfg: Config, y: System, i: nat)
    requires ChannelsConserved(cfg, y) && Solvent(cfg, y) && i < |y.net|
    ensures var y' := y.(net := Without(y.net, i), lost := y.lost + [y.net[i]]);
      ChannelsConserved(cfg, y') && Solvent(cfg, y')
  {
    var y' := y.(net := Without(y.net, i), lost := y.lost + [y.net[i]]);
    forall a: nat, b: nat | a < |y.shards| && b < cfg.shardNum
      ensures Balance(y', a, b) == Balance(y, a, b)
    {
    }
    forall a: nat, b: nat | a < cfg.shardNum && b < cfg.shardNum && a != b
      ensures ChannelMoney(y', a, b) + LostMoney(y', a, b) == 2 * cfg.initBalance
    {
      assert ChannelMoney(y, a, b) + LostMoney(y, a, b) == 2 * cfg.initBalance;
      LoseMoves(Between(a, b), y, i);
      LoseMoves(Between(b, a), y, i);
    }
  }

  lemma LosePlaces(cfg: Config, y: System, i: nat)
    requires AllInPlace(cfg, y) && i < |y.net|
    ensures AllInPlace(cfg, y.(net := Without(y.net, i), lost := y.lost + [y.net[i]]))
  {
  }

  lemma LoseKeeps(cfg: Config, total: nat, y: System, i: nat)
    requires ValidConfig(cfg) && Inv(cfg, total, y) && Enabled(cfg, y, Lose(i))
    ensures Inv(cfg, total, Apply(cfg, y, Lose(i)))
  {
    var y' := y.(net := Without(y.net, i), lost := y.lost + [y.net[i]]);
    LosePlaces(cfg, y, i);
    LoseChannels(cfg, y, i);
    LoseMoves(InMsg(IsInner()), y, i);
    forall id: RawId, j: int
      ensures HopCounted(y', id, j)
    {
      assert HopCounted(y, id, j);
      LoseMoves(InMsg(LiveUpTo(id, j)), y, i);
    }
  }

  lemma ReportKeeps(cfg: Config, total: nat, y: System, i: nat, e: Event)
    requires ValidConfig(cfg) && Inv(cfg, total, y) && Enabled(cfg, y, e) && (e == CountReport(i) || e == LoseReport(i))
    ensures Inv(cfg, total, Apply(cfg, y, e))
  {
    var y' := Apply(cfg, y, e);
    SumWithout(ReportedInner(), y.reports, i);
    SumWithout(ReportedBridge2(), y.reports, i);
    forall id: RawId, j: int
      ensures HopCounted(y', id, j)
    {
      assert HopCounted(y, id, j);
    }
    assert Everywhere(IsInner(), y') == Everywhere(IsInner(), y);
    ChannelsUntouched(cfg, y, y');
  }

  // committing a block

  ghost predicate CommitReady(cfg: Config, y: System, s: nat, size: nat) {
    && ValidConfig(cfg) && AllInPlace(cfg, y) && ChannelsConserved(cfg, y)
    && s < |y.shards| && size <= |y.shards[s].pool| && RoutesInRange(cfg, y.shards[s].pool[..size])
  }

  lemma BodyInPlace(cfg: Config, y: System, s: nat, size: nat)
    requires AllInPlace(cfg, y) && s < |y.shards| && size <= |y.shards[s].pool|
    ensures PoolInPlace(cfg, y.raws, s, y.shards[s].pool[..size])
    ensures PoolInPlace(cfg, y.raws, s, y.shards[s].pool[size..])
  {
    assert PoolInPlace(cfg, y.raws, s, y.shards[s].pool);
  }

  lemma ReadyIsCommittable(cfg: Config, y: System, s: nat, size: nat)
    requires CommitReady(cfg, y, s, size)
    ensures Committable(cfg, y.raws, s, y.shards[s].balances, y.shards[s].pool[..size])
  {
    BodyInPlace(cfg, y, s, size);
  }

  function BlockOf(y: System, s: nat, size: nat): seq<Tx>
    requires s < |y.shards| && size <= |y.shards[s].pool|
  {
    y.shards[s].pool[..size]
  }

  function WorkOf(cfg: Config, y: System, s: nat, size: nat): Work
    requires ValidConfig(cfg) && s < |y.shards| && size <= |y.shards[s].pool| && RoutesInRange(cfg, BlockOf(y, s, size))
  {
    CommitBody(cfg, s, y.shards[s].balances, BlockOf(y, s, size))
  }

  lemma CommitMoves(cfg: Config, f: Tx -> int, y: System, s: nat, size: nat, ok: bool)
    requires CommitReady(cfg, y, s, size)
    ensures Everywhere(f, CommitBlock(cfg, y, s, size, ok))
      == Everywhere(f, y) - Sum(f, BlockOf(y, s, size)) + Sum(OfHop(f), WorkOf(cfg, y, s, size).outbox)
  {
    var pool, w := y.shards[s].pool, WorkOf(cfg, y, s, size);
    var msgs := Messages(s, w.outbox, cfg.shardNum);
    ReadyIsCommittable(cfg, y, s, size);
    BlockOutbox(cfg, y.raws, s, y.shards[s].balances, BlockOf(y, s, size));
    SumUpdate(InPool(f), y.shards, s, Shard(w.balances, pool[size..]));
    SumSplit(f, pool, size);
    MessagesCarry(cfg, y.raws, f, s, w.outbox);
    SumConcat(InMsg(f), y.net, msgs);
    SumConcat(InMsg(f), y.lost, msgs);
  }

  lemma CommitPlaces(cfg: Config, y: System, s: nat, size: nat, ok: bool)
    requires CommitReady(cfg, y, s, size)
    ensures AllInPlace(cfg, CommitBlock(cfg, y, s, size, ok))
  {
    ReadyIsCommittable(cfg, y, s, size);
    BodyInPlace(cfg, y, s, size);
    BlockOutbox(cfg, y.raws, s, y.shards[s].balances, BlockOf(y, s, size));
    BlockLists(cfg, y.raws, s, y.shards[s].balances, BlockOf(y, s, size));
    MessagesValid(cfg, y.raws, s, WorkOf(cfg, y, s, size).outbox, cfg.shardNum);
  }

  lemma CommitHops(cfg: Config, y: System, s: nat, size: nat, ok: bool, id: RawId, j: int)
    requires CommitReady(cfg, y, s, size) && HopCounted(y, id, j)
    ensures HopCounted(CommitBlock(cfg, y, s, size, ok), id, j)
  {
    ReadyIsCommittable(cfg, y, s, size);
    CommitMoves(cfg, LiveUpTo(id, j), y, s, size, ok);
    BlockAdvances(cfg, y.raws, s, y.shards[s].balances, BlockOf(y, s, size), id, j);
    SumConcat(VisitAt(id, j), y.visits, VisitsOf(s, BlockOf(y, s, size)));
  }

  /** What leaves a balance is on the wire (or recorded as lost). */
  lemma CommitChannels(cfg: Config, y: System, s: nat, size: nat, ok: bool)
    requires CommitReady(cfg, y, s, size)
    ensures ChannelsConserved(cfg, CommitBlock(cfg, y, s, size, ok))
  {
    var y' := CommitBlock(cfg, y, s, size, ok);
    ReadyIsCommittable(cfg, y, s, size);
    BlockOutbox(cfg, y.raws, s, y.shards[s].balances, BlockOf(y, s, size));
    forall a: nat, b: nat | a < cfg.shardNum && b < cfg.shardNum && a != b
      ensures ChannelMoney(y', a, b) + LostMoney(y', a, b) == 2 * cfg.initBalance
    {
      assert ChannelMoney(y, a, b) + LostMoney(y, a, b) == 2 * cfg.initBalance;
      CommitChannel(cfg, y, s, size, ok, a, b);
    }
  }

  lemma CommitChannel(cfg: Config, y: System, s: nat, size: nat, ok: bool, a: nat, b: nat)
    requires CommitReady(cfg, y, s, size) && a < cfg.shardNum && b < cfg.shardNum && a != b
    ensures var y' := CommitBlock(cfg, y, s, size, ok);
      ChannelMoney(y', a, b) + LostMoney(y', a, b) == ChannelMoney(y, a, b) + LostMoney(y, a, b)
  {
    var w := WorkOf(cfg, y, s, size);
    var msgs := Messages(s, w.outbox, cfg.shardNum);
    ReadyIsCommittable(cfg, y, s, size);
    MessagesValue(s, w.outbox, cfg.shardNum, a, b);
    MessagesValue(s, w.outbox, cfg.shardNum, b, a);
    SumConcat(Between(a, b), y.net, msgs);
    SumConcat(Between(b, a), y.net, msgs);
    SumConcat(Between(a, b), y.lost, msgs);
    SumConcat(Between(b, a), y.lost, msgs);
    assert Open(cfg, y.shards[a].balances) && Open(cfg, y.shards[b].balances);
    BlockMoney(cfg, y.raws, s, y.shards[s].balances, BlockOf(y, s, size), a);
    BlockMoney(cfg, y.raws, s, y.shards[s].balances, BlockOf(y, s, size), b);
  }

  lemma CommitCounts(cfg: Config, total: nat, y: System, s: nat, size: nat, ok: bool)
    requires CommitReady(cfg, y, s, size) && Counted(y, total)
    ensures Counted(CommitBlock(cfg, y, s, size, ok), total)
  {
    var body, w := BlockOf(y, s, size), WorkOf(cfg, y, s, size);
    ReadyIsCommittable(cfg, y, s, size);
    BlockOutbox(cfg, y.raws, s, y.shards[s].balances, body);
    BlockLists(cfg, y.raws, s, y.shards[s].balances, body);
    CommitMoves(cfg, IsInner(), y, s, size, ok);
    NoInnerSent(cfg, y.raws, s, w.outbox);
    SumConcat(IsFinal(y.raws), y.visits, VisitsOf(s, body));
    SumConcat(ReportedInner(), y.reports, [ReportOf(w)]);
    SumConcat(ReportedBridge2(), y.reports, [ReportOf(w)]);
  }

  lemma NoInnerSent(cfg: Config, raws: map<RawId, Raw>, s: nat, outbox: seq<Hop>)
    requires ValidOutbox(cfg, raws, s, outbox)
    ensures Sum(OfHop(IsInner()), outbox) == 0
  {
    forall i | 0 <= i < |outbox|
      ensures OfHop(IsInner())(outbox[i]) == 0
    {
      assert ValidHop(cfg, raws, s, outbox[i]);
    }
    SumZero(OfHop(IsInner()), outbox);
  }

  lemma CommitSolvent(cfg: Config, y: System, s: nat, size: nat, ok: bool)
    requires CommitReady(cfg, y, s, size) && Solvent(cfg, y)
    ensures Solvent(cfg, CommitBlock(cfg, y, s, size, ok))
  {
    var y' := CommitBlock(cfg, y, s, size, ok);
    ReadyIsCommittable(cfg, y, s, size);
    if cfg.initBalance >= 0 && NonNegativeValues(y.raws) {
      forall a: nat, b: nat | a < |y'.shards| && b < cfg.shardNum
        ensures Balance(y', a, b) >= 0
      {
        assert Balance(y, a, b) >= 0;
        if a == s {
          assert Open(cfg, y.shards[s].balances);
          BlockKeepsSolvent(cfg, y.raws, s, y.shards[s].balances, y.shards[s].pool[..size], b);
        }
      }
    }
  }

  /** A live hop in a pool has a weight, which excludes any committed hop at or beyond it. */
  lemma LiveExcludes(cfg: Config, y: System, s: nat, i: nat, k: nat)
    requires AllInPlace(cfg, y) && OneLiveHop(y) && s < |y.shards| && i < |y.shards[s].pool| && k < |y.visits|
    requires y.shards[s].pool[i].rawTxHash == Some(y.visits[k].id)
    ensures y.visits[k].index < y.shards[s].pool[i].routeIndex
  {
    var v, tx := y.visits[k], y.shards[s].pool[i];
    if tx.routeIndex <= v.index {
      assert HopCounted(y, v.id, v.index);
      SumBoundsElement(VisitAt(v.id, v.index), y.visits, k);
      PoolWeight(LiveUpTo(v.id, v.index), y, s, i);
    }
  }

  lemma PoolWeight(f: Tx -> int, y: System, s: nat, i: nat)
    requires s < |y.shards| && i < |y.shards[s].pool| && forall tx :: f(tx) >= 0
    ensures Everywhere(f, y) >= f(y.shards[s].pool[i])
  {
    AllNonNegative(f, y);
    SumBoundsElement(f, y.shards[s].pool, i);
    SumBoundsElement(InPool(f), y.shards, s);
  }

  lemma AllNonNegative(f: Tx -> int, y: System)
    requires forall tx :: f(tx) >= 0
    ensures forall k :: 0 <= k < |y.shards| ==> InPool(f)(y.shards[k]) >= 0
    ensures Sum(InPool(f), y.shards) >= 0 && Sum(InMsg(f), y.net) >= 0 && Sum(InMsg(f), y.lost) >= 0
  {
    forall p: seq<Tx>
      ensures Sum(f, p) >= 0
    {
      SumNonNegative(f, p);
    }
    SumNonNegative(InPool(f), y.shards);
    SumNonNegative(InMsg(f), y.net);
    SumNonNegative(InMsg(f), y.lost);
  }

  lemma TwoInPool(f: Tx -> int, y: System, s: nat, i: nat, j: nat)
    requires s < |y.shards| && i < j < |y.shards[s].pool| && forall tx :: f(tx) >= 0
    ensures Everywhere(f, y) >= f(y.shards[s].pool[i]) + f(y.shards[s].pool[j])
  {
    AllNonNegative(f, y);
    SumBoundsTwo(f, y.shards[s].pool, i, j);
    SumBoundsElement(InPool(f), y.shards, s);
  }

  /** The visits of a block come from different raw transactions, each from a live hop of the pool. */
  lemma {:induction false} VisitsFromPool(s: nat, body: seq<Tx>, k: nat)
    requires k < |VisitsOf(s, body)|
    ensures exists i :: 0 <= i < |body| && body[i].rawTxHash == Some(VisitsOf(s, body)[k].id)
                        && body[i].routeIndex == VisitsOf(s, body)[k].index
  {
    var init, tx := body[..|body| - 1], body[|body| - 1];
    if k < |VisitsOf(s, init)| {
      VisitsFromPool(s, init, k);
      var i :| 0 <= i < |init| && init[i].rawTxHash == Some(VisitsOf(s, init)[k].id)
               && init[i].routeIndex == VisitsOf(s, init)[k].index;
      assert body[i] == init[i];
    } else {
      assert body[|body| - 1] == tx;
    }
  }

  ghost predicate DifferentIds(vs: seq<Visit>) {
    forall i, j :: 0 <= i < j < |vs| ==> vs[i].id != vs[j].id
  }

  /** Two live hops of one raw transaction cannot both be in the pool. */
  lemma HopsDiffer(cfg: Config, y: System, s: nat, i: nat, k: nat)
    requires OneLiveHop(y) && s < |y.shards| && i < k < |y.shards[s].pool|
    requires y.shards[s].pool[i].rawTxHash.Some?
    ensures y.shards[s].pool[i].rawTxHash != y.shards[s].pool[k].rawTxHash
  {
    var pool := y.shards[s].pool;
    var id := pool[i].rawTxHash.value;
    if pool[k].rawTxHash == Some(id) {
      var j := if pool[i].routeIndex <= pool[k].routeIndex then pool[k].routeIndex else pool[i].routeIndex;
      assert HopCounted(y, id, j);
      TwoInPool(LiveUpTo(id, j), y, s, i, k);
      VisitSumNonNegative(id, j, y.visits);
    }
  }

  lemma {:induction false} VisitsDiffer(cfg: Config, y: System, s: nat, size: nat)
    requires OneLiveHop(y) && s < |y.shards| && size <= |y.shards[s].pool|
    ensures DifferentIds(VisitsOf(s, y.shards[s].pool[..size]))
  {
    if size > 0 {
      var pool := y.shards[s].pool;
      var body := pool[..size];
      VisitsDiffer(cfg, y, s, size - 1);
      var init := body[..|body| - 1];
      assert init == pool[..size - 1];
      var vs := VisitsOf(s, init);
      forall k | 0 <= k < |vs|
        ensures Some(vs[k].id) != body[|body| - 1].rawTxHash
      {
        VisitsFromPool(s, init, k);
        var i :| 0 <= i < |init| && init[i].rawTxHash == Some(vs[k].id) && init[i].routeIndex == vs[k].index;
        HopsDiffer(cfg, y, s, i, size - 1);
      }
    }
  }

  lemma VisitSumNonNegative(id: RawId, j: int, visits: seq<Visit>)
    ensures Sum(VisitAt(id, j), visits) >= 0
  {
    SumNonNegative(VisitAt(id, j), visits);
  }

  lemma CommitOrdered(cfg: Config, y: System, s: nat, size: nat)
    requires AllInPlace(cfg, y) && OneLiveHop(y) && Ordered(y.visits) && s < |y.shards| && size <= |y.shards[s].pool|
    ensures Ordered(y.visits + VisitsOf(s, y.shards[s].pool[..size]))
  {
    var body := y.shards[s].pool[..size];
    var old_, new_ := y.visits, VisitsOf(s, body);
    var all := old_ + new_;
    VisitsDiffer(cfg, y, s, size);
    forall i, j | 0 <= i < j < |all| && all[i].id == all[j].id
      ensures all[i].index < all[j].index
    {
      if i < |old_| && j >= |old_| {
        VisitsFromPool(s, body, j - |old_|);
        var k :| 0 <= k < |body| && body[k].rawTxHash == Some(all[j].id) && body[k].routeIndex == all[j].index;
        LiveExcludes(cfg, y, s, k, i);
      }
    }
  }

  lemma CommitKeeps(cfg: Config, total: nat, y: System, s: nat, size: nat, ok: bool)
    requires ValidConfig(cfg) && Inv(cfg, total, y) && Enabled(cfg, y, Commit(s, size, ok))
    ensures Inv(cfg, total, CommitBlock(cfg, y, s, size, ok))
  {
    var y' := CommitBlock(cfg, y, s, size, ok);
    CommitPlaces(cfg, y, s, size, ok);
    CommitChannels(cfg, y, s, size, ok);
    CommitCounts(cfg, total, y, s, size, ok);
    CommitSolvent(cfg, y, s, size, ok);
    CommitOrdered(cfg, y, s, size);
    forall id: RawId, j: int
      ensures HopCounted(y', id, j)
    {
      assert HopCounted(y, id, j);
      CommitHops(cfg, y, s, size, ok, id, j);
    }
  }

  lemma StepKeeps(cfg: Config, total: nat, x: System, e: Event, y: System)
    requires ValidConfig(cfg) && Inv(cfg, total, x) && Follows(cfg, x, e, y)
    ensures Inv(cfg, total, y)
  {
    match e
    case DealInner(s, tx) => DealInnerKeeps(cfg, total, x, s, tx);
    case DealCross(id, raw) => DealCrossKeeps(cfg, total, x, id, raw);
    case Commit(s, size, ok) => CommitKeeps(cfg, total, x, s, size, ok);
    case Deliver(i) => DeliverKeeps(cfg, total, x, i);
    case Lose(i) => LoseKeeps(cfg, total, x, i);
    case CountReport(i) => ReportKeeps(cfg, total, x, i, e);
    case LoseReport(i) => ReportKeeps(cfg, total, x, i, e);
  }

  /** Every state of every run satisfies the invariant. */
  lemma {:induction false} RunKeeps(cfg: Config, total: nat, states: seq<System>, events: seq<Event>, k: nat)
    requires ValidConfig(cfg) && Run(cfg, total, states, events) && k < |states|
    ensures Inv(cfg, total, states[k])
  {
    if k == 0 {
      StartHolds(cfg, total);
    } else {
      var i := k - 1;
      RunKeeps(cfg, total, states, events, i);
      StepKeeps(cfg, total, states[i], events[i], states[i + 1]);
    }
  }
}
