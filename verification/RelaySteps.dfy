/** Injection, relays and blocks keep what every reachable state of the sharded ledger satisfies. */
module RelaySteps {
  import opened Accounts
  import opened Sums
  import opened Ledger
  import opened ShardedLedger

  // ----- injecting and delivering

  lemma InjectMoves(cfg: Config, f: Tx -> int, y: System)
    requires Shape(cfg, y) && y.left != []
    ensures InRange(cfg, NewMap(y)) && Everywhere(f, InjectNext(cfg, y)) == Everywhere(f, y)
  {
    var tx, y' := y.left[0], InjectNext(cfg, y);
    var s := Home(NewMap(y), tx.sender, cfg.shardNum);
    SumSplit(f, y.left, 1);
    assert y.left[..1] == [tx];
    SumUpdate(InPool(f), y.nodes, s, y'.nodes[s]);
    SumConcat(f, y.nodes[s].pool, [tx]);
  }

  lemma InjectPlaces(cfg: Config, y: System)
    requires Shape(cfg, y) && Places(cfg, y) && Enabled(cfg, y, Inject)
    ensures Places(cfg, InjectNext(cfg, y))
  {
    var tx, y' := y.left[0], InjectNext(cfg, y);
    var s := Home(NewMap(y), tx.sender, cfg.shardNum);
    ValidStays(cfg, y, y');
    assert Raw(y.left[0]);
    if !y.changing {
      assert NewMap(y) == y.pm;
    }
    assert PlaceMap(y, s) == NewMap(y);
    assert PlacedAt(cfg, PlaceMap(y, s), s, y.nodes[s].pool);
    assert PlacedAt(cfg, PlaceMap(y', s), s, y'.nodes[s].pool);
  }

  lemma InjectWeights(cfg: Config, y: System)
    requires Shape(cfg, y) && y.left != []
    ensures InRange(cfg, NewMap(y)) && SameWeights(y, InjectNext(cfg, y))
  {
    MapsInRange(cfg, y, 0);
    forall f: Tx -> int
      ensures Everywhere(f, InjectNext(cfg, y)) == Everywhere(f, y)
    {
      InjectMoves(cfg, f, y);
    }
  }

  lemma InjectKeeps(cfg: Config, data: seq<Tx>, y: System)
    requires Core(cfg, data, y) && Enabled(cfg, y, Inject)
    ensures Core(cfg, data, InjectNext(cfg, y)) && SameViews(cfg, y, InjectNext(cfg, y)) && SameWeights(y, InjectNext(cfg, y))
  {
    var y' := InjectNext(cfg, y);
    SameShape(cfg, y, y');
    InjectPlaces(cfg, y);
    InjectWeights(cfg, y);
    ViewsStay(cfg, y, y');
  }

  lemma DeliverMoves(f: Tx -> int, y: System, i: nat)
    requires i < |y.relays| && y.relays[i].to < |y.nodes|
    ensures Everywhere(f, Deliver(y, i)) == Everywhere(f, y)
  {
    var m := y.relays[i];
    SumUpdate(InPool(f), y.nodes, m.to, Deliver(y, i).nodes[m.to]);
    SumConcat(f, y.nodes[m.to].pool, m.txs);
    SumWithout(InRelay(f), y.relays, i);
  }

  lemma DeliverPlaces(cfg: Config, y: System, i: nat)
    requires Shape(cfg, y) && Places(cfg, y) && i < |y.relays| && y.relays[i].to < |y.nodes|
    ensures Places(cfg, Deliver(y, i))
  {
    var y', m := Deliver(y, i), y.relays[i];
    ValidStays(cfg, y, y');
    assert ValidRelay(cfg, y, m);
    assert PlacedAt(cfg, PlaceMap(y, m.to), m.to, y.nodes[m.to].pool);
    assert PlacedAt(cfg, PlaceMap(y', m.to), m.to, y'.nodes[m.to].pool);
  }

  lemma DeliverWeights(y: System, i: nat)
    requires i < |y.relays| && y.relays[i].to < |y.nodes|
    ensures SameWeights(y, Deliver(y, i))
  {
    forall f: Tx -> int
      ensures Everywhere(f, Deliver(y, i)) == Everywhere(f, y)
    {
      DeliverMoves(f, y, i);
    }
  }

  lemma DeliverKeeps(cfg: Config, data: seq<Tx>, y: System, i: nat)
    requires Core(cfg, data, y) && Enabled(cfg, y, DeliverRelay(i))
    ensures Core(cfg, data, Deliver(y, i)) && SameViews(cfg, y, Deliver(y, i)) && SameWeights(y, Deliver(y, i))
  {
    var y' := Deliver(y, i);
    SameShape(cfg, y, y');
    DeliverPlaces(cfg, y, i);
    DeliverWeights(y, i);
    ViewsStay(cfg, y, y');
  }

  // ----- a block

  /** The part of a block's weight that its relays carry on. */
  function Carried(cfg: Config, pm: PartitionMap, sid: nat, f: Tx -> int): Tx -> int
    requires cfg.shardNum > 0
  {
    (tx: Tx) => if Leaves(cfg, pm, sid, tx) then f(Marked(tx)) else 0
  }

  function CarriedTo(cfg: Config, pm: PartitionMap, dest: nat, f: Tx -> int): Tx -> int
    requires cfg.shardNum > 0
  {
    (tx: Tx) => if Home(pm, tx.recipient, cfg.shardNum) == dest then f(Marked(tx)) else 0
  }

  function CarriedBelow(cfg: Config, pm: PartitionMap, sid: nat, hi: nat, f: Tx -> int): Tx -> int
    requires cfg.shardNum > 0
  {
    (tx: Tx) => if Leaves(cfg, pm, sid, tx) && Home(pm, tx.recipient, cfg.shardNum) < hi then f(Marked(tx)) else 0
  }

  lemma {:induction false} RelayToSum(cfg: Config, pm: PartitionMap, f: Tx -> int, body: seq<Tx>, dest: nat)
    requires cfg.shardNum > 0
    ensures Sum(f, RelayTo(cfg, pm, body, dest)) == Sum(CarriedTo(cfg, pm, dest, f), body)
  {
    if body != [] {
      var init, tx := body[..|body| - 1], body[|body| - 1];
      RelayToSum(cfg, pm, f, init, dest);
      if Home(pm, tx.recipient, cfg.shardNum) == dest {
        SumConcat(f, RelayTo(cfg, pm, init, dest), [Marked(tx)]);
      }
    }
  }

  /** One destination more. */
  lemma CarriedStep(cfg: Config, pm: PartitionMap, sid: nat, f: Tx -> int, d: nat, tx: Tx)
    requires cfg.shardNum > 0
    ensures CarriedBelow(cfg, pm, sid, d + 1, f)(tx)
      == CarriedBelow(cfg, pm, sid, d, f)(tx) + (if d == sid then 0 else CarriedTo(cfg, pm, d, f)(tx))
  {
    assert Leaves(cfg, pm, sid, tx) <==> Home(pm, tx.recipient, cfg.shardNum) != sid;
  }

  lemma {:induction false} RelayMsgsBelow(cfg: Config, pm: PartitionMap, sid: nat, f: Tx -> int, body: seq<Tx>, hi: nat)
    requires cfg.shardNum > 0
    ensures Sum(InRelay(f), RelayMsgs(cfg, pm, sid, body, hi)) == Sum(CarriedBelow(cfg, pm, sid, hi, f), body)
  {
    if hi == 0 {
      forall i | 0 <= i < |body|
        ensures CarriedBelow(cfg, pm, sid, 0, f)(body[i]) == 0
      {
        assert Home(pm, body[i].recipient, cfg.shardNum) >= 0;
      }
      SumZero(CarriedBelow(cfg, pm, sid, 0, f), body);
    } else {
      var d := hi - 1;
      RelayMsgsBelow(cfg, pm, sid, f, body, d);
      forall i | 0 <= i < |body|
        ensures CarriedBelow(cfg, pm, sid, hi, f)(body[i])
          == CarriedBelow(cfg, pm, sid, d, f)(body[i]) + (if d == sid then 0 else CarriedTo(cfg, pm, d, f)(body[i]))
      {
        CarriedStep(cfg, pm, sid, f, d, body[i]);
      }
      if d == sid {
        SumEqual(CarriedBelow(cfg, pm, sid, d, f), CarriedBelow(cfg, pm, sid, hi, f), body);
      } else {
        var m := Relay(sid, d, RelayTo(cfg, pm, body, d));
        SumConcat(InRelay(f), RelayMsgs(cfg, pm, sid, body, d), [m]);
        RelayToSum(cfg, pm, f, body, d);
        SumAdd(CarriedBelow(cfg, pm, sid, d, f), CarriedTo(cfg, pm, d, f), CarriedBelow(cfg, pm, sid, hi, f), body);
      }
    }
  }

  lemma RelayMsgsCarry(cfg: Config, pm: PartitionMap, sid: nat, f: Tx -> int, body: seq<Tx>)
    requires cfg.shardNum > 0 && InRange(cfg, pm)
    ensures Sum(InRelay(f), RelayMsgs(cfg, pm, sid, body, cfg.shardNum)) == Sum(Carried(cfg, pm, sid, f), body)
  {
    RelayMsgsBelow(cfg, pm, sid, f, body, cfg.shardNum);
    forall i | 0 <= i < |body|
      ensures CarriedBelow(cfg, pm, sid, cfg.shardNum, f)(body[i]) == Carried(cfg, pm, sid, f)(body[i])
    {
      assert Home(pm, body[i].recipient, cfg.shardNum) < cfg.shardNum;
    }
    SumEqual(CarriedBelow(cfg, pm, sid, cfg.shardNum, f), Carried(cfg, pm, sid, f), body);
  }

  ghost predicate BlockReady(cfg: Config, y: System, s: nat, size: nat) {
    && Shape(cfg, y) && Places(cfg, y) && s < |y.nodes| && size <= |y.nodes[s].pool|
    && (y.nodes[s].phase.Running? || y.nodes[s].phase.Applied?)
  }

  function BodyOf(y: System, s: nat, size: nat): seq<Tx>
    requires s < |y.nodes| && size <= |y.nodes[s].pool|
  {
    y.nodes[s].pool[..size]
  }

  lemma BodyPlaced(cfg: Config, y: System, s: nat, size: nat)
    requires BlockReady(cfg, y, s, size)
    ensures PlacedAt(cfg, MapOf(y, s), s, BodyOf(y, s, size))
  {
    assert PlacedAt(cfg, PlaceMap(y, s), s, y.nodes[s].pool);
  }

  lemma BlockMoves(cfg: Config, f: Tx -> int, y: System, s: nat, size: nat)
    requires BlockReady(cfg, y, s, size)
    ensures Everywhere(f, CommitBlock(cfg, y, s, size))
      == Everywhere(f, y) - Sum(f, BodyOf(y, s, size)) + Sum(Carried(cfg, MapOf(y, s), s, f), BodyOf(y, s, size))
  {
    var y', pool := CommitBlock(cfg, y, s, size), y.nodes[s].pool;
    SumUpdate(InPool(f), y.nodes, s, y'.nodes[s]);
    SumSplit(f, pool, size);
    MapsInRange(cfg, y, s);
    RelayMsgsCarry(cfg, MapOf(y, s), s, f, BodyOf(y, s, size));
    SumConcat(InRelay(f), y.relays, RelayMsgs(cfg, MapOf(y, s), s, BodyOf(y, s, size), cfg.shardNum));
  }

  /** The accounts of the shard can pay for the block. */
  lemma BlockFunded(cfg: Config, data: seq<Tx>, y: System, s: nat, size: nat)
    requires BlockReady(cfg, y, s, size) && Money(cfg, data, y) && Covered(cfg, data)
    ensures Funded(cfg, MapOf(y, s), s, y.nodes[s].trie, BodyOf(y, s, size))
  {
    forall a | Home(MapOf(y, s), a, cfg.shardNum) == s
      ensures Balance(cfg, y.nodes[s].trie, a) >= Sum(OwedBy(a), BodyOf(y, s, size))
    {
      assert Affords(cfg, data, y, a);
      assert Sum(OwedBy(a), data) <= cfg.initBalance;
      PoolShare(OwedBy(a), y, s, size);
    }
  }

  lemma PoolShare(f: Tx -> int, y: System, s: nat, size: nat)
    requires s < |y.nodes| && size <= |y.nodes[s].pool| && forall tx :: f(tx) >= 0
    ensures Everywhere(f, y) >= Sum(f, BodyOf(y, s, size))
  {
    NonNegativeSums(f, y);
    SumSplit(f, y.nodes[s].pool, size);
    SumNonNegative(f, y.nodes[s].pool[size..]);
    SumBoundsElement(InPool(f), y.nodes, s);
  }

  lemma NonNegativeSums(f: Tx -> int, y: System)
    requires forall tx :: f(tx) >= 0
    ensures forall k :: 0 <= k < |y.nodes| ==> InPool(f)(y.nodes[k]) >= 0
    ensures Sum(f, y.left) >= 0 && Sum(InPool(f), y.nodes) >= 0 && Sum(InRelay(f), y.relays) >= 0 && Sum(InMove(f), y.moves) >= 0
  {
    forall p: seq<Tx>
      ensures Sum(f, p) >= 0
    {
      SumNonNegative(f, p);
    }
    SumNonNegative(InPool(f), y.nodes);
    SumNonNegative(InRelay(f), y.relays);
    SumNonNegative(InMove(f), y.moves);
  }

  /** A block settles its transactions at the accounts that live here, and leaves all others alone. */
  lemma BlockViews(cfg: Config, data: seq<Tx>, y: System, s: nat, size: nat, a: Address)
    requires BlockReady(cfg, y, s, size) && Money(cfg, data, y) && Covered(cfg, data)
    ensures View(cfg, CommitBlock(cfg, y, s, size), a).balance == View(cfg, y, a).balance
      + (if Home(MapOf(y, s), a, cfg.shardNum) == s then Sum(EffectOn(a), BodyOf(y, s, size)) else 0)
  {
    BodyPlaced(cfg, y, s, size);
    if Home(MapOf(y, s), a, cfg.shardNum) == s {
      BlockFunded(cfg, data, y, s, size);
      BodyBalances(cfg, MapOf(y, s), s, y.nodes[s].trie, BodyOf(y, s, size), a);
    } else {
      BodyElsewhere(cfg, MapOf(y, s), s, y.nodes[s].trie, BodyOf(y, s, size), a);
    }
  }

  /** Per account, what a block removes from the outstanding effects is what it settles here. */
  lemma {:induction false} BlockEffects(cfg: Config, pm: PartitionMap, s: nat, body: seq<Tx>, a: Address)
    requires cfg.shardNum > 0 && PlacedAt(cfg, pm, s, body)
    ensures Sum(EffectOn(a), body) - Sum(Carried(cfg, pm, s, EffectOn(a)), body)
      == if Home(pm, a, cfg.shardNum) == s then Sum(EffectOn(a), body) else 0
    ensures Sum(Carried(cfg, pm, s, OwedBy(a)), body) == 0
    ensures Home(pm, a, cfg.shardNum) != s ==> Sum(OwedBy(a), body) == 0
  {
    if body != [] {
      BlockEffects(cfg, pm, s, body[..|body| - 1], a);
      OneEffect(cfg, pm, s, body[|body| - 1], a);
    }
  }

  lemma OneEffect(cfg: Config, pm: PartitionMap, s: nat, tx: Tx, a: Address)
    requires cfg.shardNum > 0 && Home(pm, Key(tx), cfg.shardNum) == s
    ensures EffectOn(a)(tx) - Carried(cfg, pm, s, EffectOn(a))(tx)
      == if Home(pm, a, cfg.shardNum) == s then EffectOn(a)(tx) else 0
    ensures Carried(cfg, pm, s, OwedBy(a))(tx) == 0
    ensures Home(pm, a, cfg.shardNum) != s ==> OwedBy(a)(tx) == 0
  {
    var next := Marked(tx);
    assert EffectOn(a)(next) == if tx.recipient == a then tx.value else 0;
    assert Leaves(cfg, pm, s, tx) <==> Home(pm, tx.recipient, cfg.shardNum) != s;
  }

  lemma BlockMoney(cfg: Config, data: seq<Tx>, y: System, s: nat, size: nat)
    requires BlockReady(cfg, y, s, size) && Money(cfg, data, y) && Covered(cfg, data)
    ensures Money(cfg, data, CommitBlock(cfg, y, s, size))
  {
    var y' := CommitBlock(cfg, y, s, size);
    forall a
      ensures Settles(cfg, data, y', a) && Affords(cfg, data, y', a)
    {
      assert Settles(cfg, data, y, a) && Affords(cfg, data, y, a);
      BlockViews(cfg, data, y, s, size, a);
      BodyPlaced(cfg, y, s, size);
      BlockEffects(cfg, MapOf(y, s), s, BodyOf(y, s, size), a);
      BlockMoves(cfg, EffectOn(a), y, s, size);
      BlockMoves(cfg, OwedBy(a), y, s, size);
      EffectAtLeast(a, BodyOf(y, s, size));
    }
  }

  lemma {:induction false} ReportCounts(cfg: Config, pm: PartitionMap, s: nat, body: seq<Tx>)
    requires cfg.shardNum > 0 && PlacedAt(cfg, pm, s, body)
    ensures var r := ReportOf(cfg, pm, s, body);
      && Sum(Unsent(), body) == r.inner + r.relay1
      && Sum(Carried(cfg, pm, s, Unsent()), body) == 0
      && Sum(Underway(), body) == r.relay2
      && Sum(Carried(cfg, pm, s, Underway()), body) == r.relay1
  {
    if body != [] {
      ReportCounts(cfg, pm, s, body[..|body| - 1]);
      OneCount(cfg, pm, s, body[|body| - 1]);
    }
  }

  lemma OneCount(cfg: Config, pm: PartitionMap, s: nat, tx: Tx)
    requires cfg.shardNum > 0 && Home(pm, Key(tx), cfg.shardNum) == s
    ensures Carried(cfg, pm, s, Unsent())(tx) == 0
    ensures Carried(cfg, pm, s, Underway())(tx) == Bit(Leaves(cfg, pm, s, tx))
    ensures Leaves(cfg, pm, s, tx) ==> !tx.relayed
  {
    assert Unsent()(Marked(tx)) == 0 && Underway()(Marked(tx)) == 1;
  }

  lemma BlockCounts(cfg: Config, data: seq<Tx>, y: System, s: nat, size: nat)
    requires BlockReady(cfg, y, s, size) && Counted(data, y)
    ensures Counted(data, CommitBlock(cfg, y, s, size))
  {
    var body := BodyOf(y, s, size);
    var r := ReportOf(cfg, MapOf(y, s), s, body).(epoch := EpochOf(y, s));
    BodyPlaced(cfg, y, s, size);
    ReportCounts(cfg, MapOf(y, s), s, body);
    BlockMoves(cfg, Unsent(), y, s, size);
    BlockMoves(cfg, Underway(), y, s, size);
    SumConcat(InnerOf(), y.reports, [r]);
    SumConcat(Relay1Of(), y.reports, [r]);
    SumConcat(Relay2Of(), y.reports, [r]);
  }

  lemma {:induction false} RelayToPlaced(cfg: Config, pm: PartitionMap, s: nat, body: seq<Tx>, dest: nat)
    requires cfg.shardNum > 0 && PlacedAt(cfg, pm, s, body)
    ensures AllRelayed(RelayTo(cfg, pm, body, dest)) && PlacedAt(cfg, pm, dest, RelayTo(cfg, pm, body, dest))
  {
    if body != [] {
      RelayToPlaced(cfg, pm, s, body[..|body| - 1], dest);
    }
  }

  lemma {:induction false} RelaysPlaced(cfg: Config, pm: PartitionMap, s: nat, body: seq<Tx>, hi: nat)
    requires cfg.shardNum > 0 && PlacedAt(cfg, pm, s, body)
    ensures forall i :: 0 <= i < |RelayMsgs(cfg, pm, s, body, hi)| ==>
      var r := RelayMsgs(cfg, pm, s, body, hi)[i];
      r.to < hi && r.to != s && AllRelayed(r.txs) && PlacedAt(cfg, pm, r.to, r.txs)
  {
    if hi > 0 {
      RelaysPlaced(cfg, pm, s, body, hi - 1);
      RelayToPlaced(cfg, pm, s, body, hi - 1);
    }
  }

  /** Nobody's departing states change: a block touches only accounts that stay. */
  lemma BlockKeepsCopies(cfg: Config, y: System, s: nat, size: nat, m: Move)
    requires BlockReady(cfg, y, s, size) && ValidMove(cfg, y, m)
    ensures ValidMove(cfg, CommitBlock(cfg, y, s, size), m)
  {
    var y' := CommitBlock(cfg, y, s, size);
    if m.from == s {
      forall a | a in y.change && Departs(cfg, y, m.from, m.to, a)
        ensures StateAt(cfg, y'.nodes[s].trie, a, 0) == StateAt(cfg, y.nodes[s].trie, a, 0)
      {
        BodyPlaced(cfg, y, s, size);
        BodyElsewhere(cfg, MapOf(y, s), s, y.nodes[s].trie, BodyOf(y, s, size), a);
      }
    }
    assert Departing(cfg, y', m.from, m.to) == Departing(cfg, y, m.from, m.to);
  }

  lemma BlockPlaces(cfg: Config, y: System, s: nat, size: nat)
    requires BlockReady(cfg, y, s, size)
    ensures Places(cfg, CommitBlock(cfg, y, s, size))
  {
    var y', body := CommitBlock(cfg, y, s, size), BodyOf(y, s, size);
    BodyPlaced(cfg, y, s, size);
    RelaysPlaced(cfg, MapOf(y, s), s, body, cfg.shardNum);
    forall t: nat | t < |y'.nodes|
      ensures PlacedAt(cfg, PlaceMap(y', t), t, y'.nodes[t].pool)
    {
      assert PlacedAt(cfg, PlaceMap(y, t), t, y.nodes[t].pool);
    }
    forall i | 0 <= i < |y'.relays|
      ensures ValidRelay(cfg, y', y'.relays[i])
    {
      if i < |y.relays| {
        assert ValidRelay(cfg, y, y.relays[i]);
      } else {
        var r := y'.relays[i];
        assert r == RelayMsgs(cfg, MapOf(y, s), s, body, cfg.shardNum)[i - |y.relays|];
        SamePlaceMap(cfg, y, s, r.to);
      }
    }
    forall i | 0 <= i < |y'.moves|
      ensures ValidMove(cfg, y', y'.moves[i])
    {
      assert ValidMove(cfg, y, y.moves[i]);
      BlockKeepsCopies(cfg, y, s, size, y.moves[i]);
    }
  }

  /** While a shard executes, the map it uses is the one by which others are being served. */
  lemma SamePlaceMap(cfg: Config, y: System, s: nat, t: nat)
    requires Shape(cfg, y) && s < |y.nodes| && t < |y.nodes| && (y.nodes[s].phase.Running? || y.nodes[s].phase.Applied?)
    ensures PlaceMap(y, t) == MapOf(y, s)
  {
  }

  lemma BlockKeeps(cfg: Config, data: seq<Tx>, y: System, s: nat, size: nat)
    requires Core(cfg, data, y) && Enabled(cfg, y, Block(s, size))
    ensures Core(cfg, data, CommitBlock(cfg, y, s, size))
  {
    SameShape(cfg, y, CommitBlock(cfg, y, s, size));
    BlockPlaces(cfg, y, s, size);
    BlockCounts(cfg, data, y, s, size);
  }
}
