/**
 What a committed hop sends on: the next hop, exactly once, if the channel can carry it. If it cannot, the raw
 transaction is gone for good, and drain detection never fires again.
 */
module BridgeSends {
  import opened Sums
  import opened Bridge
  import opened BridgeProtocol
  import opened BridgeSteps
  import opened BridgeRuns

  // ----- one turn of the commit loop

  /** A hop that is not the last of its route. */
  ghost predicate Onward(cfg: Config, raws: map<RawId, Raw>, s: nat, tx: Tx) {
    IsHop(cfg, raws, s, tx) && tx.routeIndex < |raws[tx.rawTxHash.value].route| - 1
  }

  /** The hop after `tx`: hop number `routeIndex + 1` of the same raw transaction, for the next shard of the route. */
  ghost function NextHop(cfg: Config, raws: map<RawId, Raw>, s: nat, tx: Tx): Hop
    requires Onward(cfg, raws, s, tx)
  {
    var raw := raws[tx.rawTxHash.value];
    Hop(raw.route[tx.routeIndex + 1], HopTx(cfg, tx.rawTxHash.value, raw, tx.routeIndex + 1))
  }

  /** The channel to the next shard holds the value. */
  ghost predicate Carries(cfg: Config, raws: map<RawId, Raw>, s: nat, w: Work, tx: Tx)
    requires Onward(cfg, raws, s, tx)
  {
    var d := NextHop(cfg, raws, s, tx).dest;
    d in w.balances && w.balances[d] >= tx.value
  }

  /** The leader's variables after the turn of a hop that can be sent on. */
  ghost function SentWork(w: Work, h: Hop, tx: Tx): Work
    requires h.dest in w.balances
  {
    Work(w.balances[h.dest := w.balances[h.dest] - tx.value], w.outbox + [h], w.executed,
         if tx.routeIndex == 0 then w.bridge1 + [tx] else w.bridge1, w.bridge2,
         if tx.routeIndex == 0 then w.forwarded else w.forwarded + [tx])
  }

  /** With capacity: the channel is debited, the next hop filed, the transaction listed once. Without: nothing changes. */
  lemma TurnSends(cfg: Config, raws: map<RawId, Raw>, s: nat, w: Work, tx: Tx)
    requires ValidConfig(cfg) && s < cfg.shardNum && Onward(cfg, raws, s, tx) && Open(cfg, w.balances)
    ensures RouteInRange(cfg, tx)
    ensures var h := NextHop(cfg, raws, s, tx);
      && h.tx.rawTxHash == tx.rawTxHash && h.tx.value == tx.value
      && CommitOne(cfg, s, w, tx) == if Carries(cfg, raws, s, w, tx) then SentWork(w, h, tx) else w
  {
    HopClass(cfg, raws, s, tx);
    NextIsNextHop(cfg, raws, s, tx);
    assert raws[tx.rawTxHash.value].route[tx.routeIndex + 1] < cfg.shardNum;
  }

  /** A last hop completes its raw transaction, and an inner transaction is executed; neither sends anything. */
  lemma TurnEnds(cfg: Config, raws: map<RawId, Raw>, s: nat, w: Work, tx: Tx)
    requires ValidConfig(cfg) && InPlace(cfg, raws, s, tx) && !Onward(cfg, raws, s, tx)
    ensures RouteInRange(cfg, tx)
    ensures CommitOne(cfg, s, w, tx) == if tx.rawTxHash.Some? then w.(bridge2 := w.bridge2 + [tx]) else w.(executed := w.executed + [tx])
  {
    if tx.rawTxHash.Some? {
      HopClass(cfg, raws, s, tx);
    }
  }

  // ----- a block

  function OfRaw(id: RawId): Tx -> int { (tx: Tx) => Bit(tx.rawTxHash == Some(id)) }

  /** What the leader's variables hold of one raw transaction: hops filed, and entries in the two lists of what was sent on. */
  ghost predicate Holds(w: Work, id: RawId, filed: int, first: int, inner: int) {
    && Sum(OfHop(OfRaw(id)), w.outbox) == filed
    && Sum(OfRaw(id), w.bridge1) == first && Sum(OfRaw(id), w.forwarded) == inner
  }

  lemma HoldsAppended(w: Work, w': Work, h: Hop, tx: Tx, id: RawId, filed: int, first: int, inner: int)
    requires Holds(w, id, filed, first, inner) && h.tx.rawTxHash == tx.rawTxHash && w'.outbox == w.outbox + [h]
    ensures var own := Bit(tx.rawTxHash == Some(id));
      && (w'.bridge1 == w.bridge1 + [tx] && w'.forwarded == w.forwarded ==> Holds(w', id, filed + own, first + own, inner))
      && (w'.bridge1 == w.bridge1 && w'.forwarded == w.forwarded + [tx] ==> Holds(w', id, filed + own, first, inner + own))
  {
    SumAppend(OfHop(OfRaw(id)), w.outbox, h);
    SumAppend(OfRaw(id), w.bridge1, tx);
    SumAppend(OfRaw(id), w.forwarded, tx);
  }

  /** A turn for another raw transaction, or for none, leaves that as it is. */
  lemma OtherTurn(cfg: Config, raws: map<RawId, Raw>, s: nat, w: Work, tx: Tx, id: RawId, filed: int, first: int, inner: int)
    requires ValidConfig(cfg) && s < cfg.shardNum && InPlace(cfg, raws, s, tx) && Open(cfg, w.balances)
    requires tx.rawTxHash != Some(id) && Holds(w, id, filed, first, inner)
    ensures RouteInRange(cfg, tx) && Holds(CommitOne(cfg, s, w, tx), id, filed, first, inner)
  {
    if Onward(cfg, raws, s, tx) {
      TurnSends(cfg, raws, s, w, tx);
      if Carries(cfg, raws, s, w, tx) {
        HoldsAppended(w, CommitOne(cfg, s, w, tx), NextHop(cfg, raws, s, tx), tx, id, filed, first, inner);
      }
    } else {
      TurnEnds(cfg, raws, s, w, tx);
    }
  }

  lemma OwnHolds(w: Work, h: Hop, tx: Tx, id: RawId)
    requires Holds(w, id, 0, 0, 0) && h.dest in w.balances && tx.rawTxHash == h.tx.rawTxHash == Some(id)
    ensures Holds(SentWork(w, h, tx), id, 1, if tx.routeIndex == 0 then 1 else 0, if tx.routeIndex == 0 then 0 else 1)
  {
    HoldsAppended(w, SentWork(w, h, tx), h, tx, id, 0, 0, 0);
  }

  lemma OwnTurn(cfg: Config, raws: map<RawId, Raw>, s: nat, w: Work, tx: Tx)
    requires ValidConfig(cfg) && s < cfg.shardNum && Onward(cfg, raws, s, tx) && Open(cfg, w.balances)
    requires Holds(w, tx.rawTxHash.value, 0, 0, 0)
    ensures RouteInRange(cfg, tx)
    ensures var c := Bit(Carries(cfg, raws, s, w, tx));
      Holds(CommitOne(cfg, s, w, tx), tx.rawTxHash.value, c, if tx.routeIndex == 0 then c else 0, if tx.routeIndex == 0 then 0 else c)
  {
    TurnSends(cfg, raws, s, w, tx);
    if Carries(cfg, raws, s, w, tx) {
      OwnHolds(w, NextHop(cfg, raws, s, tx), tx, tx.rawTxHash.value);
    }
  }

  /** The leader's variables when transaction `p` has its turn. */
  function WorkBefore(cfg: Config, s: nat, balances: map<nat, int>, body: seq<Tx>, p: nat): Work
    requires ValidConfig(cfg) && RoutesInRange(cfg, body) && p <= |body|
  {
    CommitBody(cfg, s, balances, body[..p])
  }

  lemma WorkNext(cfg: Config, raws: map<RawId, Raw>, s: nat, balances: map<nat, int>, body: seq<Tx>, p: nat)
    requires Committable(cfg, raws, s, balances, body) && p < |body|
    ensures Open(cfg, WorkBefore(cfg, s, balances, body, p).balances) && InPlace(cfg, raws, s, body[p]) && RouteInRange(cfg, body[p])
    ensures WorkBefore(cfg, s, balances, body, p + 1) == CommitOne(cfg, s, WorkBefore(cfg, s, balances, body, p), body[p])
  {
    BlockOutbox(cfg, raws, s, balances, body[..p]);
    assert body[..p + 1][..p] == body[..p];
  }

  /** One raw transaction has at most one hop in the block. */
  ghost predicate Alone(body: seq<Tx>, p: nat) {
    p < |body| && forall i :: 0 <= i < |body| && i != p ==> body[i].rawTxHash != body[p].rawTxHash
  }

  /** By the end of the block the next hop is filed exactly once if the channel could carry it in its turn, and else not at all. */
  lemma {:induction false} BlockSends(cfg: Config, raws: map<RawId, Raw>, s: nat, balances: map<nat, int>, body: seq<Tx>, p: nat, n: nat)
    requires Committable(cfg, raws, s, balances, body) && Alone(body, p) && Onward(cfg, raws, s, body[p]) && n <= |body|
    ensures var c := Bit(p < n && Carries(cfg, raws, s, WorkBefore(cfg, s, balances, body, p), body[p]));
      Holds(WorkBefore(cfg, s, balances, body, n), body[p].rawTxHash.value, c,
            if body[p].routeIndex == 0 then c else 0, if body[p].routeIndex == 0 then 0 else c)
  {
    var id := body[p].rawTxHash.value;
    if n > 0 {
      BlockSends(cfg, raws, s, balances, body, p, n - 1);
      WorkNext(cfg, raws, s, balances, body, n - 1);
      var w := WorkBefore(cfg, s, balances, body, n - 1);
      if n - 1 == p {
        OwnTurn(cfg, raws, s, w, body[p]);
      } else {
        var c := Bit(p < n && Carries(cfg, raws, s, WorkBefore(cfg, s, balances, body, p), body[p]));
        OtherTurn(cfg, raws, s, w, body[n - 1], id, c, if body[p].routeIndex == 0 then c else 0, if body[p].routeIndex == 0 then 0 else c);
      }
    }
  }

  lemma {:induction false} BlockFiles(cfg: Config, raws: map<RawId, Raw>, s: nat, balances: map<nat, int>, body: seq<Tx>, p: nat, n: nat)
    requires Committable(cfg, raws, s, balances, body) && p < n <= |body| && Onward(cfg, raws, s, body[p])
    requires Carries(cfg, raws, s, WorkBefore(cfg, s, balances, body, p), body[p])
    ensures NextHop(cfg, raws, s, body[p]) in WorkBefore(cfg, s, balances, body, n).outbox
  {
    WorkNext(cfg, raws, s, balances, body, n - 1);
    var w := WorkBefore(cfg, s, balances, body, n - 1);
    if n - 1 == p {
      TurnSends(cfg, raws, s, w, body[p]);
    } else {
      BlockFiles(cfg, raws, s, balances, body, p, n - 1);
      var sent := OneEffect(cfg, raws, s, w, body[n - 1]);
    }
  }

  lemma {:induction false} HopIsFiled(outbox: seq<Hop>, h: Hop)
    requires h in outbox
    ensures h.tx in HopsTo(outbox, h.dest)
  {
    if h != outbox[|outbox| - 1] {
      HopIsFiled(outbox[..|outbox| - 1], h);
    }
  }

  lemma {:induction false} MessageIsSent(s: nat, outbox: seq<Hop>, hi: nat, d: nat)
    requires d < hi && d != s && HopsTo(outbox, d) != []
    ensures Msg(s, d, Sum(ValueTo(d), outbox), HopsTo(outbox, d)) in Messages(s, outbox, hi)
  {
    if d < hi - 1 {
      MessageIsSent(s, outbox, hi - 1, d);
    }
  }

  // ----- every run

  lemma PoolRaws(cfg: Config, raws: map<RawId, Raw>, s: nat, txs: seq<Tx>, id: RawId)
    requires id in raws && PoolInPlace(cfg, raws, s, txs)
    ensures Sum(OfRaw(id), txs) == Sum(LiveUpTo(id, |raws[id].route| - 1), txs)
  {
    forall i | 0 <= i < |txs|
      ensures OfRaw(id)(txs[i]) == LiveUpTo(id, |raws[id].route| - 1)(txs[i])
    {
      assert InPlace(cfg, raws, s, txs[i]);
    }
    SumEqual(OfRaw(id), LiveUpTo(id, |raws[id].route| - 1), txs);
  }

  lemma MsgRaws(cfg: Config, raws: map<RawId, Raw>, msgs: seq<Msg>, id: RawId)
    requires id in raws && forall i :: 0 <= i < |msgs| ==> ValidMsg(cfg, raws, msgs[i])
    ensures Sum(InMsg(OfRaw(id)), msgs) == Sum(InMsg(LiveUpTo(id, |raws[id].route| - 1)), msgs)
  {
    forall i | 0 <= i < |msgs|
      ensures InMsg(OfRaw(id))(msgs[i]) == InMsg(LiveUpTo(id, |raws[id].route| - 1))(msgs[i])
    {
      assert ValidMsg(cfg, raws, msgs[i]);
      PoolRaws(cfg, raws, msgs[i].to, msgs[i].txs, id);
    }
    SumEqual(InMsg(OfRaw(id)), InMsg(LiveUpTo(id, |raws[id].route| - 1)), msgs);
  }

  /** Every hop in the system is at a position of its route. */
  lemma RawsAreLive(cfg: Config, y: System, id: RawId)
    requires AllInPlace(cfg, y) && id in y.raws
    ensures Everywhere(OfRaw(id), y) == Everywhere(LiveUpTo(id, |y.raws[id].route| - 1), y)
  {
    var f, g := OfRaw(id), LiveUpTo(id, |y.raws[id].route| - 1);
    forall s | 0 <= s < |y.shards|
      ensures InPool(f)(y.shards[s]) == InPool(g)(y.shards[s])
    {
      assert PoolInPlace(cfg, y.raws, s, y.shards[s].pool);
      PoolRaws(cfg, y.raws, s, y.shards[s].pool, id);
    }
    SumEqual(InPool(f), InPool(g), y.shards);
    MsgRaws(cfg, y.raws, y.net, id);
    MsgRaws(cfg, y.raws, y.lost, id);
  }

  /** While a hop is pooled, no other hop of its raw transaction is anywhere, and the last one was not committed. */
  lemma PooledIsAlone(cfg: Config, total: nat, y: System, s: nat, p: nat)
    requires ValidConfig(cfg) && Inv(cfg, total, y) && s < |y.shards| && p < |y.shards[s].pool| && y.shards[s].pool[p].rawTxHash.Some?
    ensures var id := y.shards[s].pool[p].rawTxHash.value;
      && id in y.raws && IsHop(cfg, y.raws, s, y.shards[s].pool[p]) && Everywhere(OfRaw(id), y) == 1
      && Sum(InMsg(OfRaw(id)), y.net) == 0 && Sum(InMsg(OfRaw(id)), y.lost) == 0
      && Sum(VisitAt(id, |y.raws[id].route| - 1), y.visits) == 0
  {
    var tx := y.shards[s].pool[p];
    assert PoolInPlace(cfg, y.raws, s, y.shards[s].pool);
    assert IsHop(cfg, y.raws, s, tx);
    var id := tx.rawTxHash.value;
    var last := |y.raws[id].route| - 1;
    RawsAreLive(cfg, y, id);
    assert HopCounted(y, id, last);
    VisitSumNonNegative(id, last, y.visits);
    PoolWeight(OfRaw(id), y, s, p);
    AllNonNegative(OfRaw(id), y);
    SumBoundsElement(OfRaw(id), y.shards[s].pool, p);
    SumBoundsElement(InPool(OfRaw(id)), y.shards, s);
  }

  lemma PooledAlone(cfg: Config, total: nat, y: System, s: nat, size: nat, p: nat)
    requires Inv(cfg, total, y) && s < |y.shards| && p < size <= |y.shards[s].pool| && y.shards[s].pool[p].rawTxHash.Some?
    ensures Alone(BlockOf(y, s, size), p)
  {
    var body := BlockOf(y, s, size);
    forall i | 0 <= i < |body| && i != p
      ensures body[i].rawTxHash != body[p].rawTxHash
    {
      if i < p {
        if body[i].rawTxHash == body[p].rawTxHash {
          HopsDiffer(cfg, y, s, i, p);
        }
      } else {
        HopsDiffer(cfg, y, s, p, i);
      }
    }
  }

  /** The turn of transaction `p` in a block of shard `s`, when it can be sent on. */
  ghost predicate CarriedIn(cfg: Config, y: System, s: nat, size: nat, p: nat) {
    && ValidConfig(cfg) && s < |y.shards| && p < size <= |y.shards[s].pool| && RoutesInRange(cfg, BlockOf(y, s, size))
    && Onward(cfg, y.raws, s, y.shards[s].pool[p])
    && Carries(cfg, y.raws, s, WorkBefore(cfg, s, y.shards[s].balances, BlockOf(y, s, size), p), y.shards[s].pool[p])
  }

  lemma CommitFiles(cfg: Config, total: nat, y: System, s: nat, size: nat, p: nat)
    requires ValidConfig(cfg) && Inv(cfg, total, y) && s < |y.shards| && p < size <= |y.shards[s].pool|
    requires RoutesInRange(cfg, BlockOf(y, s, size)) && Onward(cfg, y.raws, s, y.shards[s].pool[p])
    ensures Sum(OfHop(OfRaw(y.shards[s].pool[p].rawTxHash.value)), WorkOf(cfg, y, s, size).outbox) == Bit(CarriedIn(cfg, y, s, size, p))
    ensures CarriedIn(cfg, y, s, size, p) ==> NextHop(cfg, y.raws, s, y.shards[s].pool[p]) in WorkOf(cfg, y, s, size).outbox
  {
    var body := BlockOf(y, s, size);
    ReadyIsCommittable(cfg, y, s, size);
    PooledAlone(cfg, total, y, s, size, p);
    BlockSends(cfg, y.raws, s, y.shards[s].balances, body, p, |body|);
    assert body[..|body|] == body;
    if CarriedIn(cfg, y, s, size, p) {
      BlockFiles(cfg, y.raws, s, y.shards[s].balances, body, p, |body|);
    }
  }

  lemma MessagesOf(cfg: Config, y: System, s: nat, size: nat, id: RawId)
    requires CommitReady(cfg, y, s, size)
    ensures var w := WorkOf(cfg, y, s, size);
      Sum(InMsg(OfRaw(id)), Messages(s, w.outbox, cfg.shardNum)) == Sum(OfHop(OfRaw(id)), w.outbox)
  {
    ReadyIsCommittable(cfg, y, s, size);
    BlockOutbox(cfg, y.raws, s, y.shards[s].balances, BlockOf(y, s, size));
    MessagesCarry(cfg, y.raws, OfRaw(id), s, WorkOf(cfg, y, s, size).outbox);
  }

  lemma CommitDelivers(cfg: Config, y: System, s: nat, size: nat, h: Hop)
    requires CommitReady(cfg, y, s, size) && h in WorkOf(cfg, y, s, size).outbox
    ensures exists m :: m in Messages(s, WorkOf(cfg, y, s, size).outbox, cfg.shardNum) && m.from == s && m.to == h.dest && h.tx in m.txs
  {
    var outbox := WorkOf(cfg, y, s, size).outbox;
    ReadyIsCommittable(cfg, y, s, size);
    BlockOutbox(cfg, y.raws, s, y.shards[s].balances, BlockOf(y, s, size));
    var i :| 0 <= i < |outbox| && outbox[i] == h;
    assert ValidHop(cfg, y.raws, s, outbox[i]);
    HopIsFiled(outbox, h);
    MessageIsSent(s, outbox, cfg.shardNum, h.dest);
  }

  lemma CommitSums(cfg: Config, total: nat, y: System, s: nat, size: nat, ok: bool, p: nat)
    requires ValidConfig(cfg) && Inv(cfg, total, y) && s < |y.shards| && p < size <= |y.shards[s].pool|
    requires RoutesInRange(cfg, BlockOf(y, s, size)) && Onward(cfg, y.raws, s, y.shards[s].pool[p])
    ensures var y', id, c := CommitBlock(cfg, y, s, size, ok), y.shards[s].pool[p].rawTxHash.value, CarriedIn(cfg, y, s, size, p);
      && Sum(InMsg(OfRaw(id)), y'.net) == Bit(ok && c) && Sum(InMsg(OfRaw(id)), y'.lost) == Bit(!ok && c)
      && Everywhere(OfRaw(id), y') == Bit(c)
  {
    var y', id, w := CommitBlock(cfg, y, s, size, ok), y.shards[s].pool[p].rawTxHash.value, WorkOf(cfg, y, s, size);
    var msgs := Messages(s, w.outbox, cfg.shardNum);
    PooledIsAlone(cfg, total, y, s, p);
    CommitFiles(cfg, total, y, s, size, p);
    MessagesOf(cfg, y, s, size, id);
    SumConcat(InMsg(OfRaw(id)), y.net, msgs);
    SumConcat(InMsg(OfRaw(id)), y.lost, msgs);
    CommitMoves(cfg, OfRaw(id), y, s, size, ok);
    SumBoundsElement(OfRaw(id), BlockOf(y, s, size), p);
    AllNonNegative(OfRaw(id), y');
  }

  /**
   A committed hop that is not the last of its route is sent on exactly once, to the next shard of the route, if the
   channel can carry its value in its turn; unsigned, it is lost. If the channel cannot, no hop of the raw
   transaction is left anywhere.
   */
  lemma CommitSendsOn(cfg: Config, total: nat, states: seq<System>, events: seq<Event>, k: nat, s: nat, size: nat, ok: bool, p: nat)
    requires ValidConfig(cfg) && Run(cfg, total, states, events) && k < |events| && events[k] == Commit(s, size, ok)
    requires s < |states[k].shards| && p < size <= |states[k].shards[s].pool| && Onward(cfg, states[k].raws, s, states[k].shards[s].pool[p])
    ensures var y, y', tx := states[k], states[k + 1], states[k].shards[s].pool[p];
      var id, h, c := tx.rawTxHash.value, NextHop(cfg, y.raws, s, tx), CarriedIn(cfg, y, s, size, p);
      && Sum(InMsg(OfRaw(id)), y'.net) == Bit(ok && c) && Sum(InMsg(OfRaw(id)), y'.lost) == Bit(!ok && c)
      && Everywhere(OfRaw(id), y') == Bit(c)
      && (ok && c ==> exists m :: m in y'.net && m.from == s && m.to == h.dest && h.tx in m.txs)
  {
    var y, tx := states[k], states[k].shards[s].pool[p];
    assert Follows(cfg, y, events[k], states[k + 1]);
    RunKeeps(cfg, total, states, events, k);
    CommitSums(cfg, total, y, s, size, ok, p);
    if CarriedIn(cfg, y, s, size, p) {
      CommitFiles(cfg, total, y, s, size, p);
      CommitDelivers(cfg, y, s, size, NextHop(cfg, y.raws, s, tx));
    }
  }
}
