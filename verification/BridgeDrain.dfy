/**
 When drain detection fires: exactly when everything is done, as long as every block is signed and reported. A hop
 whose channel cannot carry it keeps it from ever firing.
 */
module BridgeDrain {
  import opened Accounts
  import opened Sums
  import opened Bridge
  import opened BridgeProtocol
  import opened BridgeSteps
  import opened BridgeRuns
  import opened BridgeTrails
  import opened BridgeSends

  // ----- a raw transaction that is gone

  /** No hop of it is anywhere, and its last hop was never committed. */
  ghost predicate Gone(y: System, id: RawId) {
    && id in y.raws && Everywhere(LiveUpTo(id, |y.raws[id].route| - 1), y) == 0
    && Sum(VisitAt(id, |y.raws[id].route| - 1), y.visits) == 0
  }

  /** Where nothing weighs anything, nor does a block. */
  lemma BlockWeighsNothing(f: Tx -> int, y: System, s: nat, size: nat)
    requires (forall tx :: f(tx) >= 0) && Everywhere(f, y) == 0 && s < |y.shards| && size <= |y.shards[s].pool|
    ensures Sum(f, BlockOf(y, s, size)) == 0
  {
    AllNonNegative(f, y);
    SumBoundsElement(InPool(f), y.shards, s);
    SumSplit(f, y.shards[s].pool, size);
    SumNonNegative(f, y.shards[s].pool[size..]);
    SumNonNegative(f, BlockOf(y, s, size));
  }

  lemma HopsNonNegative(f: Tx -> int, outbox: seq<Hop>)
    requires forall tx :: f(tx) >= 0
    ensures Sum(OfHop(f), outbox) >= 0
  {
    forall i | 0 <= i < |outbox|
      ensures OfHop(f)(outbox[i]) >= 0
    {
      assert f(outbox[i].tx) >= 0;
    }
    SumNonNegative(OfHop(f), outbox);
  }

  /** A block without hops of a raw transaction sends none on and records no visit. */
  lemma BlockAddsNothing(cfg: Config, y: System, s: nat, size: nat, id: RawId, j: int)
    requires CommitReady(cfg, y, s, size) && Everywhere(LiveUpTo(id, j), y) == 0
    ensures Sum(LiveUpTo(id, j), BlockOf(y, s, size)) == 0 && Sum(VisitAt(id, j), VisitsOf(s, BlockOf(y, s, size))) == 0
    ensures Sum(OfHop(LiveUpTo(id, j)), WorkOf(cfg, y, s, size).outbox) == 0
  {
    var body := BlockOf(y, s, size);
    ReadyIsCommittable(cfg, y, s, size);
    BlockAdvances(cfg, y.raws, s, y.shards[s].balances, body, id, j);
    BlockWeighsNothing(LiveUpTo(id, j), y, s, size);
    HopsNonNegative(LiveUpTo(id, j), WorkOf(cfg, y, s, size).outbox);
    VisitSumNonNegative(id, j, VisitsOf(s, body));
  }

  lemma CommitLeavesNone(cfg: Config, y: System, s: nat, size: nat, ok: bool, id: RawId, j: int)
    requires CommitReady(cfg, y, s, size) && Everywhere(LiveUpTo(id, j), y) == 0
    ensures Everywhere(LiveUpTo(id, j), CommitBlock(cfg, y, s, size, ok)) == 0
  {
    CommitMoves(cfg, LiveUpTo(id, j), y, s, size, ok);
    BlockAddsNothing(cfg, y, s, size, id, j);
  }

  lemma GoneAfter(y: System, y': System, vs: seq<Visit>, id: RawId)
    requires Gone(y, id) && y'.raws == y.raws && y'.visits == y.visits + vs
    requires Everywhere(LiveUpTo(id, |y.raws[id].route| - 1), y') == 0 && Sum(VisitAt(id, |y.raws[id].route| - 1), vs) == 0
    ensures Gone(y', id)
  {
    SumConcat(VisitAt(id, |y.raws[id].route| - 1), y.visits, vs);
  }

  lemma CommitGone(cfg: Config, y: System, s: nat, size: nat, ok: bool, id: RawId)
    requires CommitReady(cfg, y, s, size) && Gone(y, id)
    ensures Gone(CommitBlock(cfg, y, s, size, ok), id)
  {
    CommitLeavesNone(cfg, y, s, size, ok, id, |y.raws[id].route| - 1);
    BlockAddsNothing(cfg, y, s, size, id, |y.raws[id].route| - 1);
    GoneAfter(y, CommitBlock(cfg, y, s, size, ok), VisitsOf(s, BlockOf(y, s, size)), id);
  }

  lemma DealGone(cfg: Config, y: System, k: RawId, raw: Raw, id: RawId)
    requires ValidConfig(cfg) && Enabled(cfg, y, DealCross(k, raw)) && Gone(y, id)
    ensures Gone(Apply(cfg, y, DealCross(k, raw)), id)
  {
    PoolAdded(LiveUpTo(id, |y.raws[id].route| - 1), y, raw.route[0], HopTx(cfg, k, raw, 0));
  }

  /** Messages, reports and inner transactions do not bring it back. */
  lemma OtherGone(cfg: Config, x: System, e: Event, y: System, id: RawId)
    requires ValidConfig(cfg) && Follows(cfg, x, e, y) && !e.Commit? && !e.DealCross? && Gone(x, id)
    ensures Gone(y, id)
  {
    var f := LiveUpTo(id, |x.raws[id].route| - 1);
    match e
    case DealInner(s, tx) => PoolAdded(f, x, s, tx);
    case Deliver(i) => DeliverMoves(f, x, i);
    case Lose(i) => LoseMoves(InMsg(f), x, i);
    case CountReport(i) =>
    case LoseReport(i) =>
  }

  lemma StepGone(cfg: Config, x: System, e: Event, y: System, id: RawId)
    requires ValidConfig(cfg) && Follows(cfg, x, e, y) && (e.Commit? ==> CommitReady(cfg, x, e.s, e.size)) && Gone(x, id)
    ensures Gone(y, id)
  {
    if e.Commit? {
      CommitGone(cfg, x, e.s, e.size, e.signatureOk, id);
    } else if e.DealCross? {
      DealGone(cfg, x, e.id, e.raw, id);
    } else {
      OtherGone(cfg, x, e, y, id);
    }
  }

  lemma NextGone(cfg: Config, total: nat, states: seq<System>, events: seq<Event>, k: nat, id: RawId)
    requires ValidConfig(cfg) && Run(cfg, total, states, events) && k < |events| && Gone(states[k], id)
    ensures Gone(states[k + 1], id)
  {
    RunReady(cfg, total, states, events, k);
    StepGone(cfg, states[k], events[k], states[k + 1], id);
  }

  lemma {:induction false} GoneForEver(cfg: Config, total: nat, states: seq<System>, events: seq<Event>, j: nat, k: nat, id: RawId)
    requires ValidConfig(cfg) && Run(cfg, total, states, events) && j <= k < |states| && Gone(states[j], id)
    ensures Gone(states[k], id)
  {
    if j < k {
      GoneForEver(cfg, total, states, events, j, k - 1, id);
      NextGone(cfg, total, states, events, k - 1, id);
    }
  }

  lemma CompletedVisited(cfg: Config, total: nat, y: System, id: RawId)
    requires Inv(cfg, total, y) && id in FinalIds(y.raws, y.visits)
    ensures id in y.raws && Sum(VisitAt(id, |y.raws[id].route| - 1), y.visits) > 0
  {
    FinalIdsAre(y.raws, y.visits);
    var last := |y.raws[id].route| - 1;
    var i :| 0 <= i < |y.visits| && y.visits[i].id == id && y.visits[i].index == last;
    SumBoundsElement(VisitAt(id, last), y.visits, i);
  }

  lemma GoneMeansUndrained(cfg: Config, total: nat, states: seq<System>, events: seq<Event>, k: nat, id: RawId)
    requires ValidConfig(cfg) && Run(cfg, total, states, events) && k < |states| && Gone(states[k], id)
    ensures !ExecutionDrained(states[k], total)
  {
    var y := states[k];
    if ExecutionDrained(y, total) {
      DrainedMeansDone(cfg, total, states, events, k);
      RunKeeps(cfg, total, states, events, k);
      CompletedVisited(cfg, total, y, id);
    }
  }

  /** The only hop of a raw transaction in a block is not its last, so the block does not complete it. */
  lemma NotCompleted(cfg: Config, raws: map<RawId, Raw>, s: nat, balances: map<nat, int>, body: seq<Tx>, p: nat)
    requires Committable(cfg, raws, s, balances, body) && Alone(body, p) && Onward(cfg, raws, s, body[p])
    ensures var id := body[p].rawTxHash.value; Sum(VisitAt(id, |raws[id].route| - 1), VisitsOf(s, body)) == 0
  {
    var id := body[p].rawTxHash.value;
    var last := |raws[id].route| - 1;
    BlockBacks(cfg, raws, s, balances, body, id, last);
    forall i | 0 <= i < |body|
      ensures LiveAt(id, last)(body[i]) == 0
    {
    }
    SumZero(LiveAt(id, last), body);
  }

  lemma DropLeavesNone(cfg: Config, total: nat, y: System, s: nat, size: nat, ok: bool, p: nat, y': System)
    requires ValidConfig(cfg) && Inv(cfg, total, y) && s < |y.shards| && p < size <= |y.shards[s].pool|
    requires RoutesInRange(cfg, BlockOf(y, s, size)) && Onward(cfg, y.raws, s, y.shards[s].pool[p]) && !CarriedIn(cfg, y, s, size, p)
    requires y' == CommitBlock(cfg, y, s, size, ok)
    ensures AllInPlace(cfg, y') && y'.raws == y.raws && Everywhere(OfRaw(y.shards[s].pool[p].rawTxHash.value), y') == 0
  {
    CommitPlaces(cfg, y, s, size, ok);
    CommitSums(cfg, total, y, s, size, ok, p);
  }

  lemma DropVisits(cfg: Config, total: nat, y: System, s: nat, size: nat, p: nat)
    requires ValidConfig(cfg) && Inv(cfg, total, y) && s < |y.shards| && p < size <= |y.shards[s].pool|
    requires RoutesInRange(cfg, BlockOf(y, s, size)) && Onward(cfg, y.raws, s, y.shards[s].pool[p])
    ensures var id := y.shards[s].pool[p].rawTxHash.value;
      Sum(VisitAt(id, |y.raws[id].route| - 1), y.visits + VisitsOf(s, BlockOf(y, s, size))) == 0
  {
    var id := y.shards[s].pool[p].rawTxHash.value;
    PooledIsAlone(cfg, total, y, s, p);
    PooledAlone(cfg, total, y, s, size, p);
    ReadyIsCommittable(cfg, y, s, size);
    NotCompleted(cfg, y.raws, s, y.shards[s].balances, BlockOf(y, s, size), p);
    SumConcat(VisitAt(id, |y.raws[id].route| - 1), y.visits, VisitsOf(s, BlockOf(y, s, size)));
  }

  lemma DropStep(cfg: Config, total: nat, y: System, s: nat, size: nat, ok: bool, p: nat, y': System)
    requires ValidConfig(cfg) && Inv(cfg, total, y) && s < |y.shards| && p < size <= |y.shards[s].pool|
    requires RoutesInRange(cfg, BlockOf(y, s, size)) && Onward(cfg, y.raws, s, y.shards[s].pool[p]) && !CarriedIn(cfg, y, s, size, p)
    requires y' == CommitBlock(cfg, y, s, size, ok)
    ensures Gone(y', y.shards[s].pool[p].rawTxHash.value)
  {
    var id := y.shards[s].pool[p].rawTxHash.value;
    DropLeavesNone(cfg, total, y, s, size, ok, p, y');
    RawsAreLive(cfg, y', id);
    DropVisits(cfg, total, y, s, size, p);
    GoneNow(y, y', y.visits + VisitsOf(s, BlockOf(y, s, size)), id);
  }

  lemma GoneNow(y: System, y': System, visits: seq<Visit>, id: RawId)
    requires id in y.raws && y'.raws == y.raws && y'.visits == visits
    requires Everywhere(LiveUpTo(id, |y'.raws[id].route| - 1), y') == 0 && Sum(VisitAt(id, |y.raws[id].route| - 1), visits) == 0
    ensures Gone(y', id)
  {
  }

  /** A hop that its channel cannot carry is the end of its raw transaction: drain detection never fires again. */
  lemma DroppedForEver(cfg: Config, total: nat, states: seq<System>, events: seq<Event>, j: nat, k: nat, s: nat, size: nat, ok: bool, p: nat)
    requires ValidConfig(cfg) && Run(cfg, total, states, events) && j < k < |states| && events[j] == Commit(s, size, ok)
    requires s < |states[j].shards| && p < size <= |states[j].shards[s].pool| && Onward(cfg, states[j].raws, s, states[j].shards[s].pool[p])
    requires !CarriedIn(cfg, states[j], s, size, p)
    ensures Gone(states[k], states[j].shards[s].pool[p].rawTxHash.value) && !ExecutionDrained(states[k], total)
  {
    var id := states[j].shards[s].pool[p].rawTxHash.value;
    assert Follows(cfg, states[j], events[j], states[j + 1]);
    RunKeeps(cfg, total, states, events, j);
    DropStep(cfg, total, states[j], s, size, ok, p, states[j + 1]);
    GoneForEver(cfg, total, states, events, j + 1, k, id);
    GoneMeansUndrained(cfg, total, states, events, k, id);
  }

  function Poor(): Config { Config(2, [Address("a"), Address("b")], 100) }
  function Dear(): Raw { Raw(Address("c"), Address("d"), 101, [0, 1], 0) }

  lemma DearIsValid()
    ensures ValidConfig(Poor()) && ValidRaw(Poor(), Dear())
  {
    assert Address("a").hex[0] == 'a' && Address("b").hex[0] == 'b' && Address("c").hex[0] == 'c' && Address("d").hex[0] == 'd';
  }

  function DearHop(): Tx {
    HopTx(Poor(), 0, Dear(), 0)
  }

  /** The transfer has been dealt. */
  function Dealt(): System {
    System([Shard(Uniform(2, 100), [DearHop()]), Shard(Uniform(2, 100), [])], [], [], map[0 := Dear()], [], 0, 0, 0, [], 0, 0, 0)
  }

  /** Two shards that have not been dealt anything. */
  function BothOpen(): System {
    System([Shard(Uniform(2, 100), []), Shard(Uniform(2, 100), [])], [], [], map[], [], 1, 0, 0, [], 0, 0, 0)
  }

  lemma StartPoor()
    ensures Start(Poor(), 1) == BothOpen()
  {
    assert Start(Poor(), 1).shards == BothOpen().shards;
  }

  lemma DearDealt()
    ensures ValidConfig(Poor()) && Follows(Poor(), Start(Poor(), 1), DealCross(0, Dear()), Dealt())
  {
    DearIsValid();
    StartPoor();
    var y, e := BothOpen(), DealCross(0, Dear());
    assert y.shards[0].pool + [DearHop()] == [DearHop()];
    assert AddToPool(y, 0, [DearHop()]) == Dealt().shards;
    assert Enabled(Poor(), y, e);
  }

  lemma DearCommitted()
    ensures ValidConfig(Poor()) && Enabled(Poor(), Dealt(), Commit(0, 1, true))
    ensures Onward(Poor(), Dealt().raws, 0, DearHop()) && !CarriedIn(Poor(), Dealt(), 0, 1, 0)
  {
    DearIsValid();
    assert IsHop(Poor(), Dealt().raws, 0, DearHop());
    HopClass(Poor(), Dealt().raws, 0, DearHop());
    assert Dealt().shards[0].pool[..1] == [DearHop()];
    UniformIs(2, 100, 1);
    assert BlockOf(Dealt(), 0, 1)[..0] == [];
  }

  /** A transfer of 101 over a channel that holds 100 is dealt and committed, and that is the end of it. */
  lemma DropHappens() returns (states: seq<System>, events: seq<Event>)
    ensures ValidConfig(Poor()) && Run(Poor(), 1, states, events) && Gone(states[|events|], 0)
  {
    DearDealt();
    DearCommitted();
    states := [Start(Poor(), 1), Dealt(), Apply(Poor(), Dealt(), Commit(0, 1, true))];
    events := [DealCross(0, Dear()), Commit(0, 1, true)];
    DroppedForEver(Poor(), 1, states, events, 1, 2, 0, 1, true, 0);
  }

  // ----- exact counts

  function SecondHop(): Tx -> int { (tx: Tx) => Bit(tx.rawTxHash.Some? && tx.routeIndex == 1) }
  function SecondVisit(): Visit -> int { (v: Visit) => Bit(v.index == 1) }
  function ReportedBridge1(): Report -> int { (r: Report) => r.bridge1 }

  /** Every report so far was sent and none was lost: what was counted, with what is still to count, is what was done. */
  ghost predicate Exact(y: System) {
    && y.normal + Sum(ReportedInner(), y.reports) == y.innerDone
    && y.bridge1 + Sum(ReportedBridge1(), y.reports) == Everywhere(SecondHop(), y) + Sum(SecondVisit(), y.visits)
    && y.bridge2 + Sum(ReportedBridge2(), y.reports) == Sum(IsFinal(y.raws), y.visits)
  }

  /** A block lists a first hop as bridge1 exactly if it files the second one. */
  lemma {:induction false} BlockFirsts(cfg: Config, raws: map<RawId, Raw>, s: nat, balances: map<nat, int>, body: seq<Tx>)
    requires Committable(cfg, raws, s, balances, body)
    ensures var w := CommitBody(cfg, s, balances, body); |w.bridge1| == Sum(OfHop(SecondHop()), w.outbox)
    ensures Sum(SecondVisit(), VisitsOf(s, body)) == Sum(SecondHop(), body)
  {
    if body != [] {
      var init, tx := body[..|body| - 1], body[|body| - 1];
      BlockFirsts(cfg, raws, s, balances, init);
      BlockOutbox(cfg, raws, s, balances, init);
      VisitsSum(SecondVisit(), s, body);
      FirstsTurn(cfg, raws, s, CommitBody(cfg, s, balances, init), tx);
    }
  }

  lemma FirstsTurn(cfg: Config, raws: map<RawId, Raw>, s: nat, w: Work, tx: Tx)
    requires ValidConfig(cfg) && s < cfg.shardNum && InPlace(cfg, raws, s, tx) && Open(cfg, w.balances)
    requires |w.bridge1| == Sum(OfHop(SecondHop()), w.outbox)
    ensures RouteInRange(cfg, tx)
    ensures var w' := CommitOne(cfg, s, w, tx); |w'.bridge1| == Sum(OfHop(SecondHop()), w'.outbox)
  {
    if Onward(cfg, raws, s, tx) {
      TurnSends(cfg, raws, s, w, tx);
      SumAppend(OfHop(SecondHop()), w.outbox, NextHop(cfg, raws, s, tx));
    } else {
      TurnEnds(cfg, raws, s, w, tx);
    }
  }

  lemma CommitExact(cfg: Config, y: System, s: nat, size: nat)
    requires CommitReady(cfg, y, s, size) && Exact(y)
    ensures Exact(CommitBlock(cfg, y, s, size, true))
  {
    var body, w := BlockOf(y, s, size), WorkOf(cfg, y, s, size);
    ReadyIsCommittable(cfg, y, s, size);
    BlockLists(cfg, y.raws, s, y.shards[s].balances, body);
    BlockFirsts(cfg, y.raws, s, y.shards[s].balances, body);
    CommitMoves(cfg, SecondHop(), y, s, size, true);
    SumConcat(SecondVisit(), y.visits, VisitsOf(s, body));
    SumConcat(IsFinal(y.raws), y.visits, VisitsOf(s, body));
    SumAppend(ReportedInner(), y.reports, ReportOf(w));
    SumAppend(ReportedBridge1(), y.reports, ReportOf(w));
    SumAppend(ReportedBridge2(), y.reports, ReportOf(w));
  }

  lemma DealExact(cfg: Config, y: System, id: RawId, raw: Raw)
    requires ValidConfig(cfg) && AllInPlace(cfg, y) && Enabled(cfg, y, DealCross(id, raw)) && Exact(y)
    ensures Exact(Apply(cfg, y, DealCross(id, raw)))
  {
    var y' := Apply(cfg, y, DealCross(id, raw));
    PoolAdded(SecondHop(), y, raw.route[0], HopTx(cfg, id, raw, 0));
    forall i | 0 <= i < |y.visits|
      ensures IsFinal(y.raws)(y.visits[i]) == IsFinal(y'.raws)(y.visits[i])
    {
      assert ValidVisit(y.raws, y.visits[i]);
    }
    SumEqual(IsFinal(y.raws), IsFinal(y'.raws), y.visits);
  }

  lemma CountExact(cfg: Config, y: System, i: nat)
    requires ValidConfig(cfg) && Enabled(cfg, y, CountReport(i)) && Exact(y)
    ensures Exact(Apply(cfg, y, CountReport(i)))
  {
    SumWithout(ReportedInner(), y.reports, i);
    SumWithout(ReportedBridge1(), y.reports, i);
    SumWithout(ReportedBridge2(), y.reports, i);
  }

  /** The event does not withhold a report. */
  predicate Reports(e: Event) { !e.LoseReport? && (e.Commit? ==> e.signatureOk) }

  lemma StepExact(cfg: Config, x: System, e: Event, y: System)
    requires ValidConfig(cfg) && Follows(cfg, x, e, y) && Reports(e) && Exact(x)
    requires (e.Commit? ==> CommitReady(cfg, x, e.s, e.size)) && (e.DealCross? ==> AllInPlace(cfg, x))
    ensures Exact(y)
  {
    match e
    case DealInner(s, tx) => PoolAdded(SecondHop(), x, s, tx);
    case DealCross(k, raw) => DealExact(cfg, x, k, raw);
    case Commit(s, size, ok) => CommitExact(cfg, x, s, size);
    case Deliver(i) => DeliverMoves(SecondHop(), x, i);
    case Lose(i) => LoseMoves(InMsg(SecondHop()), x, i);
    case CountReport(i) => CountExact(cfg, x, i);
  }

  lemma NextExact(cfg: Config, total: nat, states: seq<System>, events: seq<Event>, k: nat)
    requires ValidConfig(cfg) && Run(cfg, total, states, events) && k < |events| && Reports(events[k]) && Exact(states[k])
    ensures Exact(states[k + 1])
  {
    RunReady(cfg, total, states, events, k);
    InPlaceAt(cfg, total, states, events, k);
    StepExact(cfg, states[k], events[k], states[k + 1]);
  }

  lemma InPlaceAt(cfg: Config, total: nat, states: seq<System>, events: seq<Event>, k: nat)
    requires ValidConfig(cfg) && Run(cfg, total, states, events) && k < |states|
    ensures AllInPlace(cfg, states[k])
  {
    RunKeeps(cfg, total, states, events, k);
  }

  lemma {:induction false} RunExact(cfg: Config, total: nat, states: seq<System>, events: seq<Event>, k: nat)
    requires ValidConfig(cfg) && Run(cfg, total, states, events) && k < |states| && forall i :: 0 <= i < k ==> Reports(events[i])
    ensures Exact(states[k])
  {
    if k == 0 {
      SumZero(InPool(SecondHop()), states[0].shards);
    } else {
      RunExact(cfg, total, states, events, k - 1);
      NextExact(cfg, total, states, events, k - 1);
    }
  }

  // ----- everything done means drained

  lemma {:induction false} Covers(ids: seq<RawId>, all: set<RawId>)
    requires forall id :: id in all ==> id in ids
    ensures |all| <= |ids|
  {
    if ids == [] {
      assert all == {};
    } else {
      var init, x := ids[..|ids| - 1], ids[|ids| - 1];
      assert ids == init + [x];
      Covers(init, all - {x});
      assert |all| <= |all - {x}| + 1;
    }
  }

  function SecondIds(visits: seq<Visit>): seq<RawId> {
    if visits == [] then []
    else
      var v, before := visits[|visits| - 1], SecondIds(visits[..|visits| - 1]);
      if v.index == 1 then before + [v.id] else before
  }

  lemma {:induction false} SecondIdsAre(visits: seq<Visit>, i: nat)
    ensures |SecondIds(visits)| == Sum(SecondVisit(), visits)
    ensures i < |visits| && visits[i].index == 1 ==> visits[i].id in SecondIds(visits)
  {
    if visits != [] {
      SecondIdsAre(visits[..|visits| - 1], i);
    }
  }

  /** A completed raw transaction went through its second hop. */
  lemma CompletedSecond(cfg: Config, total: nat, states: seq<System>, events: seq<Event>, k: nat, id: RawId)
    requires ValidConfig(cfg) && Run(cfg, total, states, events) && k < |states| && id in states[k].raws
    requires id in FinalIds(states[k].raws, states[k].visits)
    ensures id in SecondIds(states[k].visits)
  {
    var y := states[k];
    RunKeeps(cfg, total, states, events, k);
    CompletedVisited(cfg, total, y, id);
    assert ValidRaw(cfg, y.raws[id]);
    var last, t := |y.raws[id].route| - 1, Trail(y.visits, id);
    TrailCounts(y.visits, id, last);
    TrailFollowsRoute(cfg, total, states, events, k, id);
    CountingHas(t, last);
    var n := TrailVisit(y.visits, id, 1);
    SecondIdsAre(y.visits, n);
  }

  ghost predicate AllDone(y: System) {
    y.left == 0 && y.innerDone == y.inner && forall id :: id in y.raws ==> id in FinalIds(y.raws, y.visits)
  }

  /** With every block signed, and every report counted, drain detection fires exactly when everything is done. */
  lemma DrainedIff(cfg: Config, total: nat, states: seq<System>, events: seq<Event>, k: nat)
    requires ValidConfig(cfg) && Run(cfg, total, states, events) && k < |states|
    requires states[k].reports == [] && forall i :: 0 <= i < k ==> Reports(events[i])
    ensures ExecutionDrained(states[k], total) <==> AllDone(states[k])
  {
    var y := states[k];
    RunKeeps(cfg, total, states, events, k);
    RunExact(cfg, total, states, events, k);
    if ExecutionDrained(y, total) {
      DrainedMeansDone(cfg, total, states, events, k);
    } else if AllDone(y) {
      FinalIdsAre(y.raws, y.visits);
      Covers(FinalIds(y.raws, y.visits), y.raws.Keys);
      forall id | id in y.raws.Keys
        ensures id in SecondIds(y.visits)
      {
        CompletedSecond(cfg, total, states, events, k, id);
      }
      Covers(SecondIds(y.visits), y.raws.Keys);
      SecondIdsAre(y.visits, 0);
      AllNonNegative(SecondHop(), y);
    }
  }

  // ----- whatever is lost

  function FirstVisit(): Visit -> int { (v: Visit) => Bit(v.index == 0) }

  function FirstIds(visits: seq<Visit>): seq<RawId> {
    if visits == [] then []
    else
      var v, before := visits[|visits| - 1], FirstIds(visits[..|visits| - 1]);
      if v.index == 0 then before + [v.id] else before
  }

  lemma {:induction false} FirstIdsAre(raws: map<RawId, Raw>, visits: seq<Visit>)
    requires Ordered(visits) && forall i :: 0 <= i < |visits| ==> ValidVisit(raws, visits[i])
    ensures |FirstIds(visits)| == Sum(FirstVisit(), visits) && Distinct(FirstIds(visits))
    ensures forall i :: 0 <= i < |FirstIds(visits)| ==>
      FirstIds(visits)[i] in raws && exists k :: 0 <= k < |visits| && visits[k].id == FirstIds(visits)[i] && visits[k].index == 0
  {
    if visits != [] {
      var init, v := visits[..|visits| - 1], visits[|visits| - 1];
      FirstIdsAre(raws, init);
      forall i | 0 <= i < |FirstIds(init)|
        ensures exists k :: 0 <= k < |init| && visits[k].id == FirstIds(init)[i] && visits[k].index == 0
      {
        var k :| 0 <= k < |init| && init[k].id == FirstIds(init)[i] && init[k].index == 0;
        assert visits[k] == init[k];
      }
      assert visits[|visits| - 1] == v;
    }
  }

  /** Only first hops are listed as bridge1. */
  lemma {:induction false} BlockBridge1(cfg: Config, raws: map<RawId, Raw>, s: nat, balances: map<nat, int>, body: seq<Tx>)
    requires Committable(cfg, raws, s, balances, body)
    ensures |CommitBody(cfg, s, balances, body).bridge1| <= Sum(FirstVisit(), VisitsOf(s, body))
  {
    if body != [] {
      var init, tx := body[..|body| - 1], body[|body| - 1];
      BlockBridge1(cfg, raws, s, balances, init);
      BlockOutbox(cfg, raws, s, balances, init);
      VisitsSum(FirstVisit(), s, body);
      if Onward(cfg, raws, s, tx) {
        TurnSends(cfg, raws, s, CommitBody(cfg, s, balances, init), tx);
      } else {
        TurnEnds(cfg, raws, s, CommitBody(cfg, s, balances, init), tx);
      }
    }
  }

  ghost predicate Bridge1Bounded(y: System) {
    y.bridge1 + Sum(ReportedBridge1(), y.reports) <= Sum(FirstVisit(), y.visits)
  }

  lemma CommitBounded(cfg: Config, y: System, s: nat, size: nat, ok: bool)
    requires CommitReady(cfg, y, s, size) && Bridge1Bounded(y)
    ensures Bridge1Bounded(CommitBlock(cfg, y, s, size, ok))
  {
    var body := BlockOf(y, s, size);
    ReadyIsCommittable(cfg, y, s, size);
    BlockBridge1(cfg, y.raws, s, y.shards[s].balances, body);
    SumConcat(FirstVisit(), y.visits, VisitsOf(s, body));
    SumAppend(ReportedBridge1(), y.reports, ReportOf(WorkOf(cfg, y, s, size)));
  }

  lemma StepBounded(cfg: Config, x: System, e: Event, y: System)
    requires ValidConfig(cfg) && Follows(cfg, x, e, y) && (e.Commit? ==> CommitReady(cfg, x, e.s, e.size)) && Bridge1Bounded(x)
    ensures Bridge1Bounded(y)
  {
    match e
    case Commit(s, size, ok) => CommitBounded(cfg, x, s, size, ok);
    case CountReport(i) => SumWithout(ReportedBridge1(), x.reports, i);
    case LoseReport(i) => SumWithout(ReportedBridge1(), x.reports, i);
    case _ =>
  }

  lemma {:induction false} RunBounded(cfg: Config, total: nat, states: seq<System>, events: seq<Event>, k: nat)
    requires ValidConfig(cfg) && Run(cfg, total, states, events) && k < |states|
    ensures Bridge1Bounded(states[k])
  {
    if k > 0 {
      RunBounded(cfg, total, states, events, k - 1);
      RunReady(cfg, total, states, events, k - 1);
      StepBounded(cfg, states[k - 1], events[k - 1], states[k]);
    }
  }

  /** No counter ever exceeds what there is to count. */
  lemma CountersBounded(cfg: Config, total: nat, states: seq<System>, events: seq<Event>, k: nat)
    requires ValidConfig(cfg) && Run(cfg, total, states, events) && k < |states|
    ensures var y := states[k]; y.normal <= y.inner && y.bridge1 <= |y.raws| && y.bridge2 <= |y.raws|
  {
    var y := states[k];
    RunKeeps(cfg, total, states, events, k);
    RunBounded(cfg, total, states, events, k);
    AllNonNegative(IsInner(), y);
    SumNonNegative(ReportedInner(), y.reports);
    SumNonNegative(ReportedBridge1(), y.reports);
    SumNonNegative(ReportedBridge2(), y.reports);
    FirstIdsAre(y.raws, y.visits);
    Pigeonhole(FirstIds(y.visits), y.raws.Keys);
    FinalIdsAre(y.raws, y.visits);
    Pigeonhole(FinalIds(y.raws, y.visits), y.raws.Keys);
  }

  /** In any run, drain detection fires exactly when everything is done and every stage of every transaction was counted. */
  lemma DrainedExactly(cfg: Config, total: nat, states: seq<System>, events: seq<Event>, k: nat)
    requires ValidConfig(cfg) && Run(cfg, total, states, events) && k < |states|
    ensures var y := states[k];
      ExecutionDrained(y, total) <==> AllDone(y) && y.normal == y.inner && y.bridge1 == |y.raws| && y.bridge2 == |y.raws|
  {
    RunKeeps(cfg, total, states, events, k);
    CountersBounded(cfg, total, states, events, k);
    if ExecutionDrained(states[k], total) {
      DrainedMeansDone(cfg, total, states, events, k);
    }
  }
}
