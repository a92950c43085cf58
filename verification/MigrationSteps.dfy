/** So do the steps of a change of the partition map, and the supervisor's block reports. */
module MigrationSteps {
  import opened Accounts
  import opened Sums
  import opened Ledger
  import opened ShardedLedger

  // ----- splitting the queue

  /** Whether a transaction leaves shard `s` in this change, and then where to. */
  predicate Moves(cfg: Config, y: System, s: nat, tx: Tx)
    requires cfg.shardNum > 0
  {
    Key(tx) in y.change && Departs(cfg, y, s, y.change[Key(tx)], Key(tx))
  }

  function GoingTo(cfg: Config, y: System, s: nat, t: nat, f: Tx -> int): Tx -> int
    requires cfg.shardNum > 0
  {
    (tx: Tx) => if Departs(cfg, y, s, t, Key(tx)) then f(tx) else 0
  }

  function GoingBelow(cfg: Config, y: System, s: nat, hi: nat, f: Tx -> int): Tx -> int
    requires cfg.shardNum > 0
  {
    (tx: Tx) => if Moves(cfg, y, s, tx) && y.change[Key(tx)] < hi then f(tx) else 0
  }

  function Staying(cfg: Config, y: System, s: nat, f: Tx -> int): Tx -> int
    requires cfg.shardNum > 0
  {
    (tx: Tx) => if Moves(cfg, y, s, tx) then 0 else f(tx)
  }

  lemma {:induction false} TxsForSum(cfg: Config, y: System, s: nat, t: nat, f: Tx -> int, pool: seq<Tx>)
    requires cfg.shardNum > 0
    ensures Sum(f, TxsFor(cfg, y, s, t, pool)) == Sum(GoingTo(cfg, y, s, t, f), pool)
  {
    if pool != [] {
      var init, tx := pool[..|pool| - 1], pool[|pool| - 1];
      TxsForSum(cfg, y, s, t, f, init);
      if Departs(cfg, y, s, t, Key(tx)) {
        SumConcat(f, TxsFor(cfg, y, s, t, init), [tx]);
      }
    }
  }

  lemma {:induction false} RemainingSum(cfg: Config, y: System, s: nat, f: Tx -> int, pool: seq<Tx>)
    requires cfg.shardNum > 0
    ensures Sum(f, Remaining(cfg, y, s, pool)) == Sum(Staying(cfg, y, s, f), pool)
  {
    if pool != [] {
      var init, tx := pool[..|pool| - 1], pool[|pool| - 1];
      RemainingSum(cfg, y, s, f, init);
      if !Moves(cfg, y, s, tx) {
        SumConcat(f, Remaining(cfg, y, s, init), [tx]);
      }
    }
  }

  lemma GoingStep(cfg: Config, y: System, s: nat, d: nat, f: Tx -> int, tx: Tx)
    requires cfg.shardNum > 0
    ensures GoingBelow(cfg, y, s, d + 1, f)(tx)
      == GoingBelow(cfg, y, s, d, f)(tx) + (if d == s then 0 else GoingTo(cfg, y, s, d, f)(tx))
  {
    assert Departs(cfg, y, s, d, Key(tx)) <==> Moves(cfg, y, s, tx) && y.change[Key(tx)] == d;
  }

  lemma {:induction false} MovesBelow(cfg: Config, y: System, s: nat, f: Tx -> int, hi: nat)
    requires cfg.shardNum > 0 && s < |y.nodes|
    ensures Sum(InMove(f), MovesFrom(cfg, y, s, hi)) == Sum(GoingBelow(cfg, y, s, hi, f), y.nodes[s].pool)
  {
    var pool := y.nodes[s].pool;
    if hi == 0 {
      forall i | 0 <= i < |pool|
        ensures GoingBelow(cfg, y, s, 0, f)(pool[i]) == 0
      {
        assert Moves(cfg, y, s, pool[i]) ==> y.change[Key(pool[i])] >= 0;
      }
      SumZero(GoingBelow(cfg, y, s, 0, f), pool);
    } else {
      var d := hi - 1;
      MovesBelow(cfg, y, s, f, d);
      forall i | 0 <= i < |pool|
        ensures GoingBelow(cfg, y, s, hi, f)(pool[i])
          == GoingBelow(cfg, y, s, d, f)(pool[i]) + (if d == s then 0 else GoingTo(cfg, y, s, d, f)(pool[i]))
      {
        GoingStep(cfg, y, s, d, f, pool[i]);
      }
      if d == s {
        SumEqual(GoingBelow(cfg, y, s, d, f), GoingBelow(cfg, y, s, hi, f), pool);
      } else {
        var m := Move(s, d, Departing(cfg, y, s, d), TxsFor(cfg, y, s, d, pool));
        SumConcat(InMove(f), MovesFrom(cfg, y, s, d), [m]);
        TxsForSum(cfg, y, s, d, f, pool);
        SumAdd(GoingBelow(cfg, y, s, d, f), GoingTo(cfg, y, s, d, f), GoingBelow(cfg, y, s, hi, f), pool);
      }
    }
  }

  /** Nothing is lost or duplicated: what stays and what goes make up the queue. */
  lemma QueueSums(cfg: Config, f: Tx -> int, y: System, s: nat)
    requires cfg.shardNum > 0 && s < |y.nodes| && InRange(cfg, y.change)
    ensures Sum(f, y.nodes[s].pool)
      == Sum(f, Remaining(cfg, y, s, y.nodes[s].pool)) + Sum(InMove(f), MovesFrom(cfg, y, s, cfg.shardNum))
  {
    var pool := y.nodes[s].pool;
    RemainingSum(cfg, y, s, f, pool);
    MovesBelow(cfg, y, s, f, cfg.shardNum);
    forall i | 0 <= i < |pool|
      ensures f(pool[i]) == Staying(cfg, y, s, f)(pool[i]) + GoingBelow(cfg, y, s, cfg.shardNum, f)(pool[i])
    {
      assert Moves(cfg, y, s, pool[i]) ==> y.change[Key(pool[i])] < cfg.shardNum;
    }
    SumAdd(Staying(cfg, y, s, f), GoingBelow(cfg, y, s, cfg.shardNum, f), f, pool);
  }

  lemma SplitMoves(cfg: Config, f: Tx -> int, y: System, s: nat)
    requires Shape(cfg, y) && s < |y.nodes|
    ensures Everywhere(f, SplitAndSend(cfg, y, s)) == Everywhere(f, y)
  {
    SumUpdate(InPool(f), y.nodes, s, SplitAndSend(cfg, y, s).nodes[s]);
    QueueSums(cfg, f, y, s);
    SumConcat(InMove(f), y.moves, MovesFrom(cfg, y, s, cfg.shardNum));
  }

  lemma {:induction false} RemainingPlaced(cfg: Config, y: System, s: nat, pool: seq<Tx>)
    requires Shape(cfg, y) && PlacedAt(cfg, y.pm, s, pool)
    ensures PlacedAt(cfg, NewMap(y), s, Remaining(cfg, y, s, pool))
  {
    if pool != [] {
      RemainingPlaced(cfg, y, s, pool[..|pool| - 1]);
    }
  }

  lemma {:induction false} TxsForPlaced(cfg: Config, y: System, s: nat, t: nat, pool: seq<Tx>)
    requires Shape(cfg, y) && PlacedAt(cfg, y.pm, s, pool)
    ensures PlacedAt(cfg, NewMap(y), t, TxsFor(cfg, y, s, t, pool))
    ensures forall i :: 0 <= i < |TxsFor(cfg, y, s, t, pool)| ==>
      var k := Key(TxsFor(cfg, y, s, t, pool)[i]); k in y.change && y.change[k] == t
  {
    if pool != [] {
      TxsForPlaced(cfg, y, s, t, pool[..|pool| - 1]);
    }
  }

  lemma {:induction false} MovesFromAre(cfg: Config, y: System, s: nat, hi: nat)
    requires Shape(cfg, y) && s < |y.nodes| && PlacedAt(cfg, y.pm, s, y.nodes[s].pool) && hi <= cfg.shardNum
    ensures forall i :: 0 <= i < |MovesFrom(cfg, y, s, hi)| ==>
      var m := MovesFrom(cfg, y, s, hi)[i];
      && m.from == s && m.to < hi && m.to != s
      && m.accounts == Departing(cfg, y, s, m.to) && PlacedAt(cfg, NewMap(y), m.to, m.txs)
      && (forall k :: 0 <= k < |m.txs| ==> Key(m.txs[k]) in y.change && y.change[Key(m.txs[k])] == m.to)
  {
    if hi > 0 {
      MovesFromAre(cfg, y, s, hi - 1);
      TxsForPlaced(cfg, y, s, hi - 1, y.nodes[s].pool);
    }
  }

  lemma SplitMovesValid(cfg: Config, y: System, s: nat)
    requires Shape(cfg, y) && Places(cfg, y) && Enabled(cfg, y, SendMoves(s))
    ensures var y' := SplitAndSend(cfg, y, s); forall i {:trigger y'.moves[i]} :: 0 <= i < |y'.moves| ==> ValidMove(cfg, y', y'.moves[i])
  {
    var y', sent := SplitAndSend(cfg, y, s), MovesFrom(cfg, y, s, cfg.shardNum);
    assert PlacedAt(cfg, PlaceMap(y, s), s, y.nodes[s].pool);
    MovesFromAre(cfg, y, s, cfg.shardNum);
    forall i | 0 <= i < |y'.moves|
      ensures ValidMove(cfg, y', y'.moves[i])
    {
      var m := y'.moves[i];
      if i < |y.moves| {
        assert ValidMove(cfg, y, y.moves[i]);
      } else {
        assert m == sent[i - |y.moves|];
      }
      assert Departing(cfg, y', m.from, m.to) == Departing(cfg, y, m.from, m.to);
    }
  }

  /** Where everything stands after one shard has split its queue. */
  lemma SplitPlaces(cfg: Config, y: System, s: nat)
    requires Shape(cfg, y) && Places(cfg, y) && Enabled(cfg, y, SendMoves(s))
    ensures Places(cfg, SplitAndSend(cfg, y, s))
  {
    var y' := SplitAndSend(cfg, y, s);
    assert PlacedAt(cfg, PlaceMap(y, s), s, y.nodes[s].pool);
    RemainingPlaced(cfg, y, s, y.nodes[s].pool);
    forall t: nat | t < |y'.nodes|
      ensures PlacedAt(cfg, PlaceMap(y', t), t, y'.nodes[t].pool)
    {
      assert PlacedAt(cfg, PlaceMap(y, t), t, y.nodes[t].pool);
    }
    forall i | 0 <= i < |y'.relays|
      ensures ValidRelay(cfg, y', y'.relays[i])
    {
      assert ValidRelay(cfg, y, y.relays[i]);
    }
    SplitMovesValid(cfg, y, s);
  }

  /** Phases and tries decide the views; splitting the queue changes neither owner nor state. */
  lemma SplitViews(cfg: Config, y: System, s: nat)
    requires Shape(cfg, y) && Enabled(cfg, y, SendMoves(s))
    ensures SameViews(cfg, y, SplitAndSend(cfg, y, s))
  {
    var y' := SplitAndSend(cfg, y, s);
    forall a
      ensures View(cfg, y', a) == View(cfg, y, a)
    {
      assert Owner(cfg, y', a) == Owner(cfg, y, a);
    }
  }

  lemma SplitWeights(cfg: Config, y: System, s: nat)
    requires Shape(cfg, y) && s < |y.nodes|
    ensures SameWeights(y, SplitAndSend(cfg, y, s))
  {
    forall f: Tx -> int
      ensures Everywhere(f, SplitAndSend(cfg, y, s)) == Everywhere(f, y)
    {
      SplitMoves(cfg, f, y, s);
    }
  }

  lemma SplitKeeps(cfg: Config, data: seq<Tx>, y: System, s: nat)
    requires Core(cfg, data, y) && Enabled(cfg, y, SendMoves(s))
    ensures Core(cfg, data, SplitAndSend(cfg, y, s)) && SameViews(cfg, y, SplitAndSend(cfg, y, s)) && SameWeights(y, SplitAndSend(cfg, y, s))
  {
    var y' := SplitAndSend(cfg, y, s);
    SplitShape(cfg, y, s);
    SplitPlaces(cfg, y, s);
    SplitWeights(cfg, y, s);
    SplitViews(cfg, y, s);
  }

  lemma SplitShape(cfg: Config, y: System, s: nat)
    requires Shape(cfg, y) && Enabled(cfg, y, SendMoves(s))
    ensures Shape(cfg, SplitAndSend(cfg, y, s))
  {
    assert y.changing;
  }

  // ----- applying the map

  lemma {:induction false} TakeOverSums(f: Tx -> int, moves: seq<Move>, t: nat)
    ensures Sum(f, ArrivingTxs(moves, t)) + Sum(InMove(f), NotFor(moves, t)) == Sum(InMove(f), moves)
  {
    if moves != [] {
      var init, m := moves[..|moves| - 1], moves[|moves| - 1];
      TakeOverSums(f, init, t);
      if m.to == t {
        SumConcat(f, ArrivingTxs(init, t), m.txs);
      } else {
        SumConcat(InMove(f), NotFor(init, t), [m]);
      }
    }
  }

  lemma TakeOverMoves(f: Tx -> int, y: System, s: nat)
    requires s < |y.nodes|
    ensures Everywhere(f, TakeOver(y, s)) == Everywhere(f, y)
  {
    SumUpdate(InPool(f), y.nodes, s, TakeOver(y, s).nodes[s]);
    SumConcat(f, y.nodes[s].pool, ArrivingTxs(y.moves, s));
    TakeOverSums(f, y.moves, s);
  }

  ghost predicate AllValid(cfg: Config, y: System, moves: seq<Move>)
    requires cfg.shardNum > 0
  {
    forall i {:trigger moves[i]} :: 0 <= i < |moves| ==> ValidMove(cfg, y, moves[i])
  }

  /** What arrives for an account is the state its old home still shows ... */
  lemma {:induction false} ArrivingIs(cfg: Config, y: System, moves: seq<Move>, t: nat, a: Address)
    requires Shape(cfg, y) && AllValid(cfg, y, moves)
    ensures a in ArrivingAccounts(moves, t) ==>
      var o := Home(y.pm, a, cfg.shardNum);
      o < |y.nodes| && Departs(cfg, y, o, t, a) && ArrivingAccounts(moves, t)[a] == StateAt(cfg, y.nodes[o].trie, a, 0)
  {
    if moves != [] {
      ArrivingIs(cfg, y, moves[..|moves| - 1], t, a);
      assert ValidMove(cfg, y, moves[|moves| - 1]);
    }
  }

  /** ... and it does arrive once its old home has sent it. */
  lemma {:induction false} ArrivesIfSent(cfg: Config, y: System, moves: seq<Move>, t: nat, a: Address, i: nat)
    requires Shape(cfg, y) && AllValid(cfg, y, moves)
    requires i < |moves| && moves[i].to == t && Departs(cfg, y, moves[i].from, t, a)
    ensures a in ArrivingAccounts(moves, t)
  {
    var init := moves[..|moves| - 1];
    assert ValidMove(cfg, y, moves[|moves| - 1]);
    if i < |init| {
      assert init[i] == moves[i];
      ArrivesIfSent(cfg, y, init, t, a, i);
    }
  }

  lemma {:induction false} ArrivingPlaced(cfg: Config, y: System, moves: seq<Move>, t: nat)
    requires Shape(cfg, y) && AllValid(cfg, y, moves)
    ensures PlacedAt(cfg, NewMap(y), t, ArrivingTxs(moves, t))
  {
    if moves != [] {
      ArrivingPlaced(cfg, y, moves[..|moves| - 1], t);
      assert ValidMove(cfg, y, moves[|moves| - 1]);
    }
  }

  lemma {:induction false} NotForAre(cfg: Config, y: System, moves: seq<Move>, t: nat)
    requires cfg.shardNum > 0 && AllValid(cfg, y, moves)
    ensures forall i {:trigger NotFor(moves, t)[i]} :: 0 <= i < |NotFor(moves, t)| ==>
      NotFor(moves, t)[i].to != t && ValidMove(cfg, y, NotFor(moves, t)[i])
  {
    if moves != [] {
      NotForAre(cfg, y, moves[..|moves| - 1], t);
      assert ValidMove(cfg, y, moves[|moves| - 1]);
    }
  }

  /** Exactly the accounts that move here arrive, each as its old home shows it. */
  lemma ArrivesExactly(cfg: Config, y: System, s: nat, a: Address)
    requires Shape(cfg, y) && Places(cfg, y) && Enabled(cfg, y, ApplyMap(s))
    ensures var o, n := Home(y.pm, a, cfg.shardNum), Home(NewMap(y), a, cfg.shardNum);
      && o < |y.nodes| && n < |y.nodes|
      && (a in ArrivingAccounts(y.moves, s) <==> n == s && o != s)
      && (a in ArrivingAccounts(y.moves, s) ==> ArrivingAccounts(y.moves, s)[a] == StateAt(cfg, y.nodes[o].trie, a, 0))
  {
    var o, n := Home(y.pm, a, cfg.shardNum), Home(NewMap(y), a, cfg.shardNum);
    assert AllValid(cfg, y, y.moves);
    ArrivingIs(cfg, y, y.moves, s, a);
    if n == s && o != s {
      assert HasMove(y, o, s);
      var i :| 0 <= i < |y.moves| && y.moves[i].from == o && y.moves[i].to == s;
      ArrivesIfSent(cfg, y, y.moves, s, a, i);
    }
  }

  /** The receiver takes over each account in exactly the state the old home shows. */
  lemma TakeOverView(cfg: Config, y: System, s: nat, a: Address)
    requires Shape(cfg, y) && Places(cfg, y) && Enabled(cfg, y, ApplyMap(s))
    ensures View(cfg, TakeOver(y, s), a) == View(cfg, y, a)
  {
    ArrivesExactly(cfg, y, s, a);
  }

  lemma TakeOverShape(cfg: Config, y: System, s: nat)
    requires Shape(cfg, y) && Enabled(cfg, y, ApplyMap(s)) && Places(cfg, y)
    ensures Shape(cfg, TakeOver(y, s))
  {
    forall t: nat | t < |y.nodes|
      ensures Switched(y.nodes[t].phase)
    {
      if t != s {
        assert HasMove(y, t, s);
        var i :| 0 <= i < |y.moves| && y.moves[i].from == t && y.moves[i].to == s;
        assert ValidMove(cfg, y, y.moves[i]);
      }
    }
    assert y.changing;
  }

  lemma TakeOverPlaces(cfg: Config, y: System, s: nat)
    requires Shape(cfg, y) && Places(cfg, y) && Enabled(cfg, y, ApplyMap(s))
    ensures Places(cfg, TakeOver(y, s))
  {
    var y' := TakeOver(y, s);
    assert AllValid(cfg, y, y.moves);
    ArrivingPlaced(cfg, y, y.moves, s);
    NotForAre(cfg, y, y.moves, s);
    forall t: nat | t < |y'.nodes|
      ensures PlacedAt(cfg, PlaceMap(y', t), t, y'.nodes[t].pool)
    {
      assert PlacedAt(cfg, PlaceMap(y, t), t, y.nodes[t].pool);
    }
    forall i | 0 <= i < |y'.relays|
      ensures ValidRelay(cfg, y', y'.relays[i])
    {
      assert ValidRelay(cfg, y, y.relays[i]);
    }
    forall i | 0 <= i < |y'.moves|
      ensures ValidMove(cfg, y', y'.moves[i])
    {
      assert ValidMove(cfg, y, y'.moves[i]);
      TakeOverKeepsCopies(cfg, y, s, y'.moves[i]);
    }
  }

  /** What the receiver stores does not touch the states it has sent away itself. */
  lemma TakeOverKeepsCopies(cfg: Config, y: System, s: nat, m: Move)
    requires Shape(cfg, y) && Places(cfg, y) && s < |y.nodes| && y.nodes[s].phase.Sent? && ValidMove(cfg, y, m) && m.to != s
    ensures ValidMove(cfg, TakeOver(y, s), m)
  {
    var y' := TakeOver(y, s);
    assert AllValid(cfg, y, y.moves);
    forall a | a in y.change && Departs(cfg, y, m.from, m.to, a)
      ensures StateAt(cfg, y'.nodes[m.from].trie, a, 0) == StateAt(cfg, y.nodes[m.from].trie, a, 0)
    {
      ArrivingIs(cfg, y, y.moves, s, a);
    }
    SameDeparting(cfg, y, y', m.from, m.to);
  }

  lemma SameDeparting(cfg: Config, y: System, y': System, s: nat, t: nat)
    requires cfg.shardNum > 0 && s < |y.nodes| && s < |y'.nodes| && y'.pm == y.pm && y'.change == y.change
    requires forall a :: a in y.change && Departs(cfg, y, s, t, a) ==>
      StateAt(cfg, y'.nodes[s].trie, a, 0) == StateAt(cfg, y.nodes[s].trie, a, 0)
    ensures Departing(cfg, y', s, t) == Departing(cfg, y, s, t)
  {
  }

  lemma TakeOverWeights(y: System, s: nat)
    requires s < |y.nodes|
    ensures SameWeights(y, TakeOver(y, s))
  {
    forall f: Tx -> int
      ensures Everywhere(f, TakeOver(y, s)) == Everywhere(f, y)
    {
      TakeOverMoves(f, y, s);
    }
  }

  lemma TakeOverViews(cfg: Config, y: System, s: nat)
    requires Shape(cfg, y) && Places(cfg, y) && Enabled(cfg, y, ApplyMap(s))
    ensures SameViews(cfg, y, TakeOver(y, s))
  {
    forall a
      ensures View(cfg, TakeOver(y, s), a) == View(cfg, y, a)
    {
      TakeOverView(cfg, y, s, a);
    }
  }

  lemma TakeOverKeeps(cfg: Config, data: seq<Tx>, y: System, s: nat)
    requires Core(cfg, data, y) && Enabled(cfg, y, ApplyMap(s))
    ensures Core(cfg, data, TakeOver(y, s)) && SameViews(cfg, y, TakeOver(y, s)) && SameWeights(y, TakeOver(y, s))
  {
    var y' := TakeOver(y, s);
    TakeOverShape(cfg, y, s);
    TakeOverPlaces(cfg, y, s);
    TakeOverWeights(y, s);
    TakeOverViews(cfg, y, s);
  }

  // ----- beginning and finishing a change

  lemma BeginPlaces(cfg: Config, y: System, change: PartitionMap)
    requires Shape(cfg, y) && Places(cfg, y) && Enabled(cfg, y, Begin(change))
    ensures var y' := Apply(cfg, y, Begin(change)); Shape(cfg, y') && Places(cfg, y') && SameViews(cfg, y, y')
  {
    var y' := Apply(cfg, y, Begin(change));
    forall a
      ensures View(cfg, y', a) == View(cfg, y, a)
    {
    }
    forall i | 0 <= i < |y'.relays|
      ensures ValidRelay(cfg, y', y'.relays[i])
    {
      assert ValidRelay(cfg, y, y.relays[i]);
    }
  }

  lemma BeginKeeps(cfg: Config, data: seq<Tx>, y: System, change: PartitionMap)
    requires Core(cfg, data, y) && Enabled(cfg, y, Begin(change))
    ensures Core(cfg, data, Apply(cfg, y, Begin(change))) && SameViews(cfg, y, Apply(cfg, y, Begin(change))) && SameWeights(y, Apply(cfg, y, Begin(change)))
  {
    var y' := Apply(cfg, y, Begin(change));
    BeginPlaces(cfg, y, change);
    SamePlaceWeights(y, y');
  }

  lemma ReadyMoves(f: Tx -> int, y: System, s: nat)
    requires s < |y.nodes|
    ensures Everywhere(f, SetPhase(y, s, Ready)) == Everywhere(f, y)
  {
    SumUpdate(InPool(f), y.nodes, s, y.nodes[s].(phase := Ready));
  }

  /** A move in flight has a sender that switched and a receiver that has not applied yet. */
  lemma FirstMove(cfg: Config, y: System)
    requires cfg.shardNum > 0 && Places(cfg, y)
    ensures y.moves == [] || (
      var m := y.moves[0];
      m.from < |y.nodes| && m.to < |y.nodes| && Switched(y.nodes[m.from].phase) && !y.nodes[m.to].phase.Applied?)
  {
    if y.moves != [] {
      assert ValidMove(cfg, y, y.moves[0]);
    }
  }

  lemma ReadyPlaces(cfg: Config, y: System, s: nat)
    requires Shape(cfg, y) && Places(cfg, y) && Enabled(cfg, y, BecomeReady(s))
    ensures Shape(cfg, SetPhase(y, s, Ready)) && Places(cfg, SetPhase(y, s, Ready))
  {
    var y' := SetPhase(y, s, Ready);
    forall t: nat | t < |y'.nodes|
      ensures PlacedAt(cfg, PlaceMap(y', t), t, y'.nodes[t].pool)
    {
      assert PlacedAt(cfg, PlaceMap(y, t), t, y.nodes[t].pool);
    }
    forall i | 0 <= i < |y'.relays|
      ensures ValidRelay(cfg, y', y'.relays[i])
    {
      assert ValidRelay(cfg, y, y.relays[i]);
    }
    FirstMove(cfg, y);
    assert y.moves == [];
  }

  lemma ReadyWeights(y: System, s: nat)
    requires s < |y.nodes|
    ensures SameWeights(y, SetPhase(y, s, Ready))
  {
    forall f: Tx -> int
      ensures Everywhere(f, SetPhase(y, s, Ready)) == Everywhere(f, y)
    {
      ReadyMoves(f, y, s);
    }
  }

  lemma ReadyKeeps(cfg: Config, data: seq<Tx>, y: System, s: nat)
    requires Core(cfg, data, y) && Enabled(cfg, y, BecomeReady(s))
    ensures Core(cfg, data, SetPhase(y, s, Ready)) && SameViews(cfg, y, SetPhase(y, s, Ready)) && SameWeights(y, SetPhase(y, s, Ready))
  {
    var y' := SetPhase(y, s, Ready);
    ReadyPlaces(cfg, y, s);
    ReadyWeights(y, s);
    forall a
      ensures View(cfg, y', a) == View(cfg, y, a)
    {
    }
  }

  lemma FinishMoves(cfg: Config, f: Tx -> int, y: System)
    requires cfg.shardNum > 0 && Enabled(cfg, y, Finish)
    ensures Everywhere(f, Apply(cfg, y, Finish)) == Everywhere(f, y)
  {
    var y' := Apply(cfg, y, Finish);
    forall k: nat | k <= |y.nodes|
      ensures Sum(InPool(f), y'.nodes[..k]) == Sum(InPool(f), y.nodes[..k])
    {
      SamePools(f, y.nodes, y'.nodes, k);
    }
    assert y.nodes[..|y.nodes|] == y.nodes && y'.nodes[..|y.nodes|] == y'.nodes;
  }

  lemma {:induction false} SamePools(f: Tx -> int, a: seq<Node>, b: seq<Node>, k: nat)
    requires |a| == |b| && k <= |a| && forall i :: 0 <= i < |a| ==> a[i].pool == b[i].pool
    ensures Sum(InPool(f), a[..k]) == Sum(InPool(f), b[..k])
  {
    if k > 0 {
      SamePools(f, a, b, k - 1);
      assert a[..k][..k - 1] == a[..k - 1] && b[..k][..k - 1] == b[..k - 1];
    }
  }

  /** No move survives a change in which everyone has applied. */
  lemma FinishPlaces(cfg: Config, y: System)
    requires Shape(cfg, y) && Places(cfg, y) && Enabled(cfg, y, Finish)
    ensures y.moves == [] && Shape(cfg, Apply(cfg, y, Finish)) && Places(cfg, Apply(cfg, y, Finish))
  {
    var y' := Apply(cfg, y, Finish);
    FirstMove(cfg, y);
    assert y.moves == [];
    forall t: nat | t < |y'.nodes|
      ensures PlacedAt(cfg, PlaceMap(y', t), t, y'.nodes[t].pool)
    {
      assert PlacedAt(cfg, PlaceMap(y, t), t, y.nodes[t].pool);
    }
    forall i | 0 <= i < |y'.relays|
      ensures ValidRelay(cfg, y', y'.relays[i])
    {
      assert ValidRelay(cfg, y, y.relays[i]);
    }
  }

  lemma FinishWeights(cfg: Config, y: System)
    requires cfg.shardNum > 0 && Enabled(cfg, y, Finish)
    ensures SameWeights(y, Apply(cfg, y, Finish))
  {
    forall f: Tx -> int
      ensures Everywhere(f, Apply(cfg, y, Finish)) == Everywhere(f, y)
    {
      FinishMoves(cfg, f, y);
    }
  }

  lemma FinishViews(cfg: Config, y: System)
    requires Shape(cfg, y) && Enabled(cfg, y, Finish)
    ensures SameViews(cfg, y, Apply(cfg, y, Finish))
  {
    var y' := Apply(cfg, y, Finish);
    assert NewMap(y') == NewMap(y);
    forall a
      ensures View(cfg, y', a) == View(cfg, y, a)
    {
    }
  }

  lemma FinishKeeps(cfg: Config, data: seq<Tx>, y: System)
    requires Core(cfg, data, y) && Enabled(cfg, y, Finish)
    ensures Core(cfg, data, Apply(cfg, y, Finish)) && SameViews(cfg, y, Apply(cfg, y, Finish)) && SameWeights(y, Apply(cfg, y, Finish))
  {
    var y' := Apply(cfg, y, Finish);
    FinishPlaces(cfg, y);
    FinishWeights(cfg, y);
    FinishViews(cfg, y);
  }

  lemma RegroupWeights(y: System, order: seq<Move>)
    requires multiset(order) == multiset(y.moves)
    ensures SameWeights(y, y.(moves := order))
  {
    forall f: Tx -> int
      ensures Everywhere(f, y.(moves := order)) == Everywhere(f, y)
    {
      SumOfPermutation(InMove(f), y.moves, order);
    }
  }

  lemma RegroupPlaces(cfg: Config, y: System, order: seq<Move>)
    requires cfg.shardNum > 0 && Places(cfg, y) && multiset(order) == multiset(y.moves)
    ensures Places(cfg, y.(moves := order))
  {
    var y' := y.(moves := order);
    ValidStays(cfg, y, y');
    forall i | 0 <= i < |order|
      ensures ValidMove(cfg, y', order[i])
    {
      assert order[i] in multiset(y.moves);
      var j :| 0 <= j < |y.moves| && y.moves[j] == order[i];
      assert ValidMove(cfg, y, y.moves[j]);
    }
    forall i | 0 <= i < |y'.relays|
      ensures ValidRelay(cfg, y', y'.relays[i])
    {
      assert ValidRelay(cfg, y, y.relays[i]);
    }
    forall s: nat | s < |y'.nodes|
      ensures PlacedAt(cfg, PlaceMap(y', s), s, y'.nodes[s].pool)
    {
      assert PlacedAt(cfg, PlaceMap(y, s), s, y.nodes[s].pool);
    }
  }

  lemma RegroupKeeps(cfg: Config, data: seq<Tx>, y: System, order: seq<Move>)
    requires Core(cfg, data, y) && Enabled(cfg, y, Regroup(order))
    ensures var y' := Apply(cfg, y, Regroup(order)); Core(cfg, data, y') && SameViews(cfg, y, y') && SameWeights(y, y')
  {
    var y' := y.(moves := order);
    assert |multiset(order)| == |order| && |multiset(y.moves)| == |y.moves|;
    RegroupWeights(y, order);
    assert Everywhere(Unsent(), y') == Everywhere(Unsent(), y);
    assert Everywhere(Underway(), y') == Everywhere(Underway(), y);
    RegroupPlaces(cfg, y, order);
    SameShape(cfg, y, y');
    ViewsStay(cfg, y, y');
  }

  lemma ReportCounted(cfg: Config, data: seq<Tx>, y: System, i: nat, e: Event)
    requires cfg.shardNum > 0 && Counted(data, y) && Enabled(cfg, y, e) && (e == CountReport(i) || e == LoseReport(i))
    ensures Counted(data, Apply(cfg, y, e))
  {
    SumWithout(InnerOf(), y.reports, i);
    SumWithout(Relay1Of(), y.reports, i);
    SumWithout(Relay2Of(), y.reports, i);
    assert Everywhere(Unsent(), Apply(cfg, y, e)) == Everywhere(Unsent(), y);
    assert Everywhere(Underway(), Apply(cfg, y, e)) == Everywhere(Underway(), y);
  }

  lemma ReportKeeps(cfg: Config, data: seq<Tx>, y: System, i: nat, e: Event)
    requires Core(cfg, data, y) && Enabled(cfg, y, e) && (e == CountReport(i) || e == LoseReport(i))
    ensures Core(cfg, data, Apply(cfg, y, e)) && SameViews(cfg, y, Apply(cfg, y, e)) && SameWeights(y, Apply(cfg, y, e))
  {
    var y' := Apply(cfg, y, e);
    ReportCounted(cfg, data, y, i, e);
    SameShape(cfg, y, y');
    SamePlaces(cfg, y, y');
    ViewsStay(cfg, y, y');
    SamePlaceWeights(y, y');
  }
}
