/**
 The bridge protocol as a distributed system: one leader per shard, messages that arrive in any order
 and at most once or not at all, blocks whose joint signature may fail, and the supervisor's committee
 (supervisor/committee/committee_bridge.go) that injects transactions and counts block reports.
 */
module BridgeProtocol {
  import opened Accounts
  import opened Sums
  import opened Bridge

  /** A raw cross-shard transaction with the route it was given when it was dealt. */
  datatype Raw = Raw(sender: Address, recipient: Address, value: int, route: seq<nat>, overlayEpoch: int)

  datatype Shard = Shard(balances: map<nat, int>, pool: seq<Tx>)

  /** A hop that was included in a committed block. */
  datatype Visit = Visit(id: RawId, index: int, shard: nat)

  datatype System = System(
    shards: seq<Shard>,
    net: seq<Msg>,            // in flight
    lost: seq<Msg>,           // never to arrive: dropped, or unsent for want of a signature
    raws: map<RawId, Raw>,    // cross-shard transactions dealt so far
    visits: seq<Visit>,       // history of committed hops
    left: nat,                // transactions of the data set not dealt yet
    inner: nat,               // transactions dealt that need no bridge
    innerDone: nat,           // of these, executed
    reports: seq<Report>,     // block reports in flight
    normal: nat, bridge1: nat, bridge2: nat)   // the committee's counters

  datatype Event =
    | DealInner(s: nat, tx: Tx)
    | DealCross(id: RawId, raw: Raw)
    | Commit(s: nat, size: nat, signatureOk: bool)
    | Deliver(i: nat)
    | Lose(i: nat)
    | CountReport(i: nat)
    | LoseReport(i: nat)

  // ----- the steps

  /** What the committee guarantees about a raw transaction when it deals it. */
  ghost predicate ValidRaw(cfg: Config, raw: Raw) {
    && |raw.route| >= 2 && Distinct(raw.route)
    && (forall k :: 0 <= k < |raw.route| ==> raw.route[k] < cfg.shardNum)
    && raw.sender !in cfg.addrs && raw.recipient !in cfg.addrs
  }

  /** The transaction that hop number `k` of a raw transaction runs. */
  function HopTx(cfg: Config, id: RawId, raw: Raw, k: nat): Tx
    requires |cfg.addrs| == cfg.shardNum && k < |raw.route|
    requires forall i :: 0 <= i < |raw.route| ==> raw.route[i] < cfg.shardNum
  {
    Tx(if k == 0 then raw.sender else cfg.addrs[raw.route[k]],
       if k == 0 then cfg.addrs[raw.route[0]] else if k < |raw.route| - 1 then cfg.addrs[raw.route[k + 1]] else raw.recipient,
       raw.value, true, k > 0, raw.sender, raw.recipient, Some(id), raw.route, k, raw.overlayEpoch)
  }

  function AddToPool(y: System, s: nat, txs: seq<Tx>): seq<Shard>
    requires s < |y.shards|
  {
    y.shards[s := y.shards[s].(pool := y.shards[s].pool + txs)]
  }

  ghost predicate Enabled(cfg: Config, y: System, e: Event)
    requires ValidConfig(cfg)
  {
    match e
    case DealInner(s, tx) => y.left > 0 && s < |y.shards| && tx.rawTxHash.None? && tx.route == []
    case DealCross(id, raw) => y.left > 0 && id !in y.raws && ValidRaw(cfg, raw) && raw.route[0] < |y.shards|
    case Commit(s, size, _) => s < |y.shards| && size <= |y.shards[s].pool|
                               && RoutesInRange(cfg, y.shards[s].pool[..size])
    case Deliver(i) => i < |y.net| && y.net[i].to < |y.shards|
    case Lose(i) => i < |y.net|
    case CountReport(i) => i < |y.reports|
    case LoseReport(i) => i < |y.reports|
  }

  function VisitsOf(s: nat, body: seq<Tx>): seq<Visit> {
    if body == [] then []
    else
      var tx, before := body[|body| - 1], VisitsOf(s, body[..|body| - 1]);
      if tx.rawTxHash.Some? then before + [Visit(tx.rawTxHash.value, tx.routeIndex, s)] else before
  }

  function CommitBlock(cfg: Config, y: System, s: nat, size: nat, signatureOk: bool): System
    requires ValidConfig(cfg) && s < |y.shards| && size <= |y.shards[s].pool|
    requires RoutesInRange(cfg, y.shards[s].pool[..size])
  {
    var body, rest := y.shards[s].pool[..size], y.shards[s].pool[size..];
    var w := CommitBody(cfg, s, y.shards[s].balances, body);
    var msgs := Messages(s, w.outbox, cfg.shardNum);
    y.(shards := y.shards[s := Shard(w.balances, rest)],
       visits := y.visits + VisitsOf(s, body),
       innerDone := y.innerDone + |w.executed|,
       net := if signatureOk then y.net + msgs else y.net,
       lost := if signatureOk then y.lost else y.lost + msgs,
       reports := if signatureOk then y.reports + [ReportOf(w)] else y.reports)
  }

  function DeliverMsg(y: System, i: nat): System
    requires i < |y.net| && y.net[i].to < |y.shards|
  {
    var m := y.net[i];
    var r := y.shards[m.to];
    y.(shards := y.shards[m.to := Shard(Credited(r.balances, m), r.pool + m.txs)], net := Without(y.net, i))
  }

  function Apply(cfg: Config, y: System, e: Event): System
    requires ValidConfig(cfg) && Enabled(cfg, y, e)
  {
    match e
    case DealInner(s, tx) => y.(shards := AddToPool(y, s, [tx]), left := y.left - 1, inner := y.inner + 1)
    case DealCross(id, raw) =>
      y.(shards := AddToPool(y, raw.route[0], [HopTx(cfg, id, raw, 0)]), left := y.left - 1, raws := y.raws[id := raw])
    case Commit(s, size, signatureOk) => CommitBlock(cfg, y, s, size, signatureOk)
    case Deliver(i) => DeliverMsg(y, i)
    case Lose(i) => y.(net := Without(y.net, i), lost := y.lost + [y.net[i]])
    case CountReport(i) =>
      var r := y.reports[i];
      y.(reports := Without(y.reports, i),
         normal := y.normal + r.executed, bridge1 := y.bridge1 + r.bridge1, bridge2 := y.bridge2 + r.bridge2)
    case LoseReport(i) => y.(reports := Without(y.reports, i))
  }

  /** A run: the states it goes through from the start, one event between each and the next. */
  ghost predicate Run(cfg: Config, total: nat, states: seq<System>, events: seq<Event>)
    requires ValidConfig(cfg)
  {
    && |states| == |events| + 1 && states[0] == Start(cfg, total)
    && forall i :: 0 <= i < |events| ==> Follows(cfg, states[i], events[i], states[i + 1])
  }

  ghost predicate Follows(cfg: Config, x: System, e: Event, y: System)
    requires ValidConfig(cfg)
  {
    Enabled(cfg, x, e) && y == Apply(cfg, x, e)
  }

  function Start(cfg: Config, total: nat): System {
    System(seq(cfg.shardNum, _ => Shard(Uniform(cfg.shardNum, cfg.initBalance), [])),
           [], [], map[], [], total, 0, 0, [], 0, 0, 0)
  }

  // ----- weights

  /** A live hop of `id` at position `j` or before. */
  function LiveUpTo(id: RawId, j: int): Tx -> int {
    (tx: Tx) => Bit(tx.rawTxHash == Some(id) && tx.routeIndex <= j)
  }

  function IsInner(): Tx -> int { (tx: Tx) => Bit(tx.rawTxHash.None?) }

  function TxValue(): Tx -> int { (tx: Tx) => tx.value }

  function InPool(f: Tx -> int): Shard -> int { (s: Shard) => Sum(f, s.pool) }

  function InMsg(f: Tx -> int): Msg -> int { (m: Msg) => Sum(f, m.txs) }

  /** The weight of every transaction anywhere in the system. */
  function Everywhere(f: Tx -> int, y: System): int {
    Sum(InPool(f), y.shards) + Sum(InMsg(f), y.net) + Sum(InMsg(f), y.lost)
  }

  function VisitAt(id: RawId, j: int): Visit -> int {
    (v: Visit) => Bit(v.id == id && v.index == j)
  }

  function Between(a: nat, b: nat): Msg -> int {
    (m: Msg) => if m.from == a && m.to == b then m.value else 0
  }

  function ReportedInner(): Report -> int { (r: Report) => r.executed }
  function ReportedBridge2(): Report -> int { (r: Report) => r.bridge2 }

  // ----- what every reachable state satisfies

  /** `tx` is the hop its index says, and `s` is the shard that must run it. */
  ghost predicate IsHop(cfg: Config, raws: map<RawId, Raw>, s: nat, tx: Tx) {
    && |cfg.addrs| == cfg.shardNum
    && tx.rawTxHash.Some? && tx.rawTxHash.value in raws
    && var raw := raws[tx.rawTxHash.value];
       && ValidRaw(cfg, raw)
       && 0 <= tx.routeIndex < |raw.route| && raw.route[tx.routeIndex] == s
       && tx == HopTx(cfg, tx.rawTxHash.value, raw, tx.routeIndex)
  }

  ghost predicate InPlace(cfg: Config, raws: map<RawId, Raw>, s: nat, tx: Tx) {
    (tx.rawTxHash.None? && tx.route == []) || IsHop(cfg, raws, s, tx)
  }

  ghost predicate PoolInPlace(cfg: Config, raws: map<RawId, Raw>, s: nat, pool: seq<Tx>) {
    forall i :: 0 <= i < |pool| ==> InPlace(cfg, raws, s, pool[i])
  }

  ghost predicate ValidMsg(cfg: Config, raws: map<RawId, Raw>, m: Msg) {
    && m.from < cfg.shardNum && m.to < cfg.shardNum && m.from != m.to
    && m.value == Sum(TxValue(), m.txs)
    && forall i :: 0 <= i < |m.txs| ==> IsHop(cfg, raws, m.to, m.txs[i])
  }

  ghost predicate ValidVisit(raws: map<RawId, Raw>, v: Visit) {
    v.id in raws && 0 <= v.index < |raws[v.id].route| && v.shard == raws[v.id].route[v.index]
  }

  ghost predicate AllInPlace(cfg: Config, y: System) {
    && |y.shards| == cfg.shardNum
    && (forall id :: id in y.raws ==> ValidRaw(cfg, y.raws[id]))
    && (forall s: nat {:trigger y.shards[s]} :: s < |y.shards| ==> PoolInPlace(cfg, y.raws, s, y.shards[s].pool))
    && (forall i :: 0 <= i < |y.net| ==> ValidMsg(cfg, y.raws, y.net[i]))
    && (forall i :: 0 <= i < |y.lost| ==> ValidMsg(cfg, y.raws, y.lost[i]))
    && (forall i :: 0 <= i < |y.visits| ==> ValidVisit(y.raws, y.visits[i]))
  }

  /** Each hop of a raw transaction is committed at most once, and never again once a later one is live. */
  ghost predicate HopCounted(y: System, id: RawId, j: int) {
    Sum(VisitAt(id, j), y.visits) + Everywhere(LiveUpTo(id, j), y) <= Bit(id in y.raws)
  }

  ghost predicate OneLiveHop(y: System) {
    forall id: RawId, j: int {:trigger HopCounted(y, id, j)} :: HopCounted(y, id, j)
  }

  function Balance(y: System, a: nat, b: nat): int
    requires a < |y.shards|
  {
    if b in y.shards[a].balances then y.shards[a].balances[b] else 0
  }

  /** Both ends of channel `a`-`b`, and the value between them that is still on its way. */
  function ChannelMoney(y: System, a: nat, b: nat): int
    requires a < |y.shards| && b < |y.shards|
  {
    Balance(y, a, b) + Balance(y, b, a) + Sum(Between(a, b), y.net) + Sum(Between(b, a), y.net)
  }

  function LostMoney(y: System, a: nat, b: nat): int {
    Sum(Between(a, b), y.lost) + Sum(Between(b, a), y.lost)
  }

  /** A leader holds a balance for every shard. */
  ghost predicate Open(cfg: Config, balances: map<nat, int>) {
    forall b: nat :: b < cfg.shardNum ==> b in balances
  }

  ghost predicate ChannelsConserved(cfg: Config, y: System) {
    && |y.shards| == cfg.shardNum
    && (forall a: nat {:trigger y.shards[a]} :: a < cfg.shardNum ==> Open(cfg, y.shards[a].balances))
    && (forall a: nat, b: nat {:trigger ChannelMoney(y, a, b)} :: a < cfg.shardNum && b < cfg.shardNum && a != b ==>
          ChannelMoney(y, a, b) + LostMoney(y, a, b) == 2 * cfg.initBalance)
  }

  /** Final visits complete a raw transaction. */
  function IsFinal(raws: map<RawId, Raw>): Visit -> int {
    (v: Visit) => Bit(v.id in raws && v.index == |raws[v.id].route| - 1)
  }

  ghost predicate Counted(y: System, total: nat) {
    && y.left + y.inner + |y.raws| == total
    && Everywhere(IsInner(), y) + y.innerDone == y.inner
    && y.normal + Sum(ReportedInner(), y.reports) <= y.innerDone
    && y.bridge2 + Sum(ReportedBridge2(), y.reports) <= Sum(IsFinal(y.raws), y.visits)
  }

  /** Of one raw transaction, earlier hops are committed earlier. */
  ghost predicate Ordered(visits: seq<Visit>) {
    forall i, j :: 0 <= i < j < |visits| && visits[i].id == visits[j].id ==> visits[i].index < visits[j].index
  }

  ghost predicate NonNegativeValues(raws: map<RawId, Raw>) {
    forall id :: id in raws ==> raws[id].value >= 0
  }

  /** With non-negative values no channel balance is negative. */
  ghost predicate Solvent(cfg: Config, y: System) {
    cfg.initBalance >= 0 && NonNegativeValues(y.raws) ==>
      forall a: nat, b: nat {:trigger Balance(y, a, b)} :: a < |y.shards| && b < cfg.shardNum ==> Balance(y, a, b) >= 0
  }

  ghost predicate Inv(cfg: Config, total: nat, y: System) {
    && AllInPlace(cfg, y) && OneLiveHop(y) && ChannelsConserved(cfg, y) && Counted(y, total)
    && Ordered(y.visits) && Solvent(cfg, y)
  }

  // ----- hops advance one shard at a time

  /** Position decides the class: the first hop is bridge1, the last bridge2, the others forward. */
  lemma HopClass(cfg: Config, raws: map<RawId, Raw>, s: nat, tx: Tx)
    requires ValidConfig(cfg) && IsHop(cfg, raws, s, tx)
    ensures var last := |raws[tx.rawTxHash.value].route| - 1;
      Classify(tx) == if tx.routeIndex == 0 then Bridge1 else if tx.routeIndex == last then Bridge2 else Forward
    ensures RouteInRange(cfg, tx)
  {
    var raw := raws[tx.rawTxHash.value];
    assert cfg.addrs[raw.route[0]] in cfg.addrs;
    assert cfg.addrs[raw.route[tx.routeIndex]] in cfg.addrs;
    if tx.routeIndex < |raw.route| - 1 {
      assert cfg.addrs[raw.route[tx.routeIndex + 1]] in cfg.addrs;
    }
  }

  /** The leader finds the recorded position, and what it sends on is the next hop, for the next shard. */
  lemma NextIsNextHop(cfg: Config, raws: map<RawId, Raw>, s: nat, tx: Tx)
    requires ValidConfig(cfg) && IsHop(cfg, raws, s, tx)
    requires tx.routeIndex < |raws[tx.rawTxHash.value].route| - 1
    ensures RouteInRange(cfg, tx) && NextBridgeHop(cfg, s, tx).Some?
    ensures var dest := NextBridgeHop(cfg, s, tx).value;
      var tx2 := NextBridgeTx(cfg, s, tx);
      && dest < cfg.shardNum && dest != s
      && IsHop(cfg, raws, dest, tx2) && tx2.rawTxHash == tx.rawTxHash
      && tx2.routeIndex == tx.routeIndex + 1 && tx2.value == tx.value
  {
    HopClass(cfg, raws, s, tx);
  }

  /** A transaction without a route goes straight from its sender's shard to its recipient's. */
  lemma DirectHop(cfg: Config, tx: Tx)
    requires ValidConfig(cfg) && |tx.route| < 2 && tx.routeIndex == 0
    requires Addr2Shard(tx.originalSender, cfg.shardNum) != Addr2Shard(tx.finalRecipient, cfg.shardNum)
    ensures var s, d := Addr2Shard(tx.originalSender, cfg.shardNum), Addr2Shard(tx.finalRecipient, cfg.shardNum);
      && RouteInRange(cfg, tx) && NextBridgeHop(cfg, s, tx) == Some(d) && NextBridgeHop(cfg, d, tx) == None
      && NextBridgeTx(cfg, s, tx).recipient == tx.finalRecipient && NextBridgeTx(cfg, s, tx).sender == cfg.addrs[d]
  {
  }

  // ----- what a block does

  function OfHop(f: Tx -> int): Hop -> int { (h: Hop) => f(h.tx) }

  ghost predicate ValidHop(cfg: Config, raws: map<RawId, Raw>, s: nat, h: Hop) {
    h.dest < cfg.shardNum && h.dest != s && IsHop(cfg, raws, h.dest, h.tx)
  }

  ghost predicate ValidOutbox(cfg: Config, raws: map<RawId, Raw>, s: nat, outbox: seq<Hop>) {
    forall i :: 0 <= i < |outbox| ==> ValidHop(cfg, raws, s, outbox[i])
  }

  /** What `tx` sends on, if anything: the next hop of the same raw transaction, with the same value. */
  ghost predicate SentOn(cfg: Config, raws: map<RawId, Raw>, s: nat, tx: Tx, sent: Option<Hop>) {
    sent.Some? ==>
      && ValidHop(cfg, raws, s, sent.value) && tx.rawTxHash.Some?
      && sent.value.tx.rawTxHash == tx.rawTxHash && sent.value.tx.routeIndex == tx.routeIndex + 1
      && sent.value.tx.value == tx.value
  }

  function Debit(sent: Option<Hop>, d: nat): int {
    if sent.Some? && sent.value.dest == d then sent.value.tx.value else 0
  }

  function Extended(outbox: seq<Hop>, sent: Option<Hop>): seq<Hop> {
    if sent.Some? then outbox + [sent.value] else outbox
  }

  /** One committed transaction: outbox and balances. */
  lemma OneEffect(cfg: Config, raws: map<RawId, Raw>, s: nat, w: Work, tx: Tx) returns (sent: Option<Hop>)
    requires ValidConfig(cfg) && s < cfg.shardNum && InPlace(cfg, raws, s, tx) && Open(cfg, w.balances)
    ensures RouteInRange(cfg, tx) && SentOn(cfg, raws, s, tx, sent)
    ensures var w' := CommitOne(cfg, s, w, tx);
      && w'.outbox == Extended(w.outbox, sent) && Open(cfg, w'.balances)
      && (forall d: nat :: d < cfg.shardNum ==> w'.balances[d] == w.balances[d] - Debit(sent, d))
      && (sent.Some? ==> w.balances[sent.value.dest] >= sent.value.tx.value)
  {
    sent := None;
    if tx.rawTxHash.Some? {
      HopClass(cfg, raws, s, tx);
      if tx.routeIndex < |raws[tx.rawTxHash.value].route| - 1 {
        NextIsNextHop(cfg, raws, s, tx);
        var dest := NextBridgeHop(cfg, s, tx).value;
        if w.balances[dest] >= tx.value {
          sent := Some(Hop(dest, NextBridgeTx(cfg, s, tx)));
        }
      }
    }
  }

  /** A block in place at a shard whose leader holds a balance for everyone. */
  ghost predicate Committable(cfg: Config, raws: map<RawId, Raw>, s: nat, balances: map<nat, int>, body: seq<Tx>) {
    ValidConfig(cfg) && s < cfg.shardNum && PoolInPlace(cfg, raws, s, body) && Open(cfg, balances) && RoutesInRange(cfg, body)
  }

  lemma {:induction false} BlockOutbox(cfg: Config, raws: map<RawId, Raw>, s: nat, balances: map<nat, int>, body: seq<Tx>)
    requires Committable(cfg, raws, s, balances, body)
    ensures ValidOutbox(cfg, raws, s, CommitBody(cfg, s, balances, body).outbox)
    ensures Open(cfg, CommitBody(cfg, s, balances, body).balances)
  {
    if body != [] {
      var init := body[..|body| - 1];
      BlockOutbox(cfg, raws, s, balances, init);
      var _ := OneEffect(cfg, raws, s, CommitBody(cfg, s, balances, init), body[|body| - 1]);
    }
  }

  lemma {:induction false} BlockMoney(cfg: Config, raws: map<RawId, Raw>, s: nat, balances: map<nat, int>, body: seq<Tx>, d: nat)
    requires Committable(cfg, raws, s, balances, body) && d < cfg.shardNum
    ensures var w := CommitBody(cfg, s, balances, body);
      d in w.balances && w.balances[d] + Sum(ValueTo(d), w.outbox) == balances[d]
  {
    if body != [] {
      var init := body[..|body| - 1];
      BlockMoney(cfg, raws, s, balances, init, d);
      BlockOutbox(cfg, raws, s, balances, init);
      var w := CommitBody(cfg, s, balances, init);
      var _ := OneEffect(cfg, raws, s, w, body[|body| - 1]);
    }
  }

  /** The lists of the report, against the transactions of the block. */
  lemma {:induction false} BlockLists(cfg: Config, raws: map<RawId, Raw>, s: nat, balances: map<nat, int>, body: seq<Tx>)
    requires Committable(cfg, raws, s, balances, body)
    ensures var w := CommitBody(cfg, s, balances, body);
      && |w.executed| == Sum(IsInner(), body)
      && |w.bridge2| == Sum(IsFinal(raws), VisitsOf(s, body))
    ensures forall i :: 0 <= i < |VisitsOf(s, body)| ==> ValidVisit(raws, VisitsOf(s, body)[i])
  {
    if body != [] {
      var init, tx := body[..|body| - 1], body[|body| - 1];
      BlockLists(cfg, raws, s, balances, init);
      VisitsSum(IsFinal(raws), s, body);
    }
  }

  lemma ExtendedSum(g: Hop -> int, outbox: seq<Hop>, sent: Option<Hop>)
    ensures Sum(g, Extended(outbox, sent)) == Sum(g, outbox) + (if sent.Some? then g(sent.value) else 0)
  {
    if sent.Some? {
      SumConcat(g, outbox, [sent.value]);
    }
  }

  lemma VisitsSum(g: Visit -> int, s: nat, body: seq<Tx>)
    requires body != []
    ensures var init, tx := body[..|body| - 1], body[|body| - 1];
      Sum(g, VisitsOf(s, body)) == Sum(g, VisitsOf(s, init))
        + (if tx.rawTxHash.Some? then g(Visit(tx.rawTxHash.value, tx.routeIndex, s)) else 0)
  {
  }

  /** A hop at position `k` covers its own visit and the next hop at `k + 1`. */
  lemma AdvanceOne(cfg: Config, raws: map<RawId, Raw>, s: nat, tx: Tx, sent: Option<Hop>, id: RawId, j: int)
    requires SentOn(cfg, raws, s, tx, sent)
    ensures (if sent.Some? then OfHop(LiveUpTo(id, j))(sent.value) else 0)
      + (if tx.rawTxHash.Some? then VisitAt(id, j)(Visit(tx.rawTxHash.value, tx.routeIndex, s)) else 0)
      <= LiveUpTo(id, j)(tx)
  {
  }

  /** Of each raw transaction, what a block records and sends on is covered by what it took in. */
  lemma {:induction false} BlockAdvances(cfg: Config, raws: map<RawId, Raw>, s: nat, balances: map<nat, int>, body: seq<Tx>, id: RawId, j: int)
    requires Committable(cfg, raws, s, balances, body)
    ensures Sum(OfHop(LiveUpTo(id, j)), CommitBody(cfg, s, balances, body).outbox) + Sum(VisitAt(id, j), VisitsOf(s, body))
      <= Sum(LiveUpTo(id, j), body)
  {
    if body != [] {
      var init, tx := body[..|body| - 1], body[|body| - 1];
      BlockAdvances(cfg, raws, s, balances, init, id, j);
      BlockOutbox(cfg, raws, s, balances, init);
      var w := CommitBody(cfg, s, balances, init);
      var sent := OneEffect(cfg, raws, s, w, tx);
      ExtendedSum(OfHop(LiveUpTo(id, j)), w.outbox, sent);
      VisitsSum(VisitAt(id, j), s, body);
      AdvanceOne(cfg, raws, s, tx, sent, id, j);
    }
  }

  /** No debit overdraws a channel. */
  lemma {:induction false} BlockKeepsSolvent(cfg: Config, raws: map<RawId, Raw>, s: nat, balances: map<nat, int>, body: seq<Tx>, d: nat)
    requires Committable(cfg, raws, s, balances, body) && d < cfg.shardNum && balances[d] >= 0
    ensures d in CommitBody(cfg, s, balances, body).balances && CommitBody(cfg, s, balances, body).balances[d] >= 0
  {
    if body != [] {
      var init := body[..|body| - 1];
      BlockKeepsSolvent(cfg, raws, s, balances, init, d);
      BlockOutbox(cfg, raws, s, balances, init);
      var _ := OneEffect(cfg, raws, s, CommitBody(cfg, s, balances, init), body[|body| - 1]);
    }
  }

  // ----- what the messages of a block carry

  function OfHopAt(f: Tx -> int, d: nat): Hop -> int { (h: Hop) => if h.dest == d then f(h.tx) else 0 }
  function OfHopBelow(f: Tx -> int, hi: nat): Hop -> int { (h: Hop) => if h.dest < hi then f(h.tx) else 0 }

  lemma {:induction false} FiledSum(f: Tx -> int, outbox: seq<Hop>, d: nat)
    ensures Sum(f, HopsTo(outbox, d)) == Sum(OfHopAt(f, d), outbox)
  {
    if outbox != [] {
      var init, h := outbox[..|outbox| - 1], outbox[|outbox| - 1];
      FiledSum(f, init, d);
      if h.dest == d {
        SumConcat(f, HopsTo(init, d), [h.tx]);
      }
    }
  }

  lemma FiledValue(outbox: seq<Hop>, d: nat)
    ensures Sum(TxValue(), HopsTo(outbox, d)) == Sum(ValueTo(d), outbox)
  {
    FiledSum(TxValue(), outbox, d);
    SumEqual(OfHopAt(TxValue(), d), ValueTo(d), outbox);
  }

  lemma {:induction false} MessagesBelow(f: Tx -> int, s: nat, outbox: seq<Hop>, hi: nat)
    requires forall i :: 0 <= i < |outbox| ==> outbox[i].dest != s
    ensures Sum(InMsg(f), Messages(s, outbox, hi)) == Sum(OfHopBelow(f, hi), outbox)
  {
    if hi == 0 {
      SumZero(OfHopBelow(f, 0), outbox);
    } else {
      var d := hi - 1;
      MessagesBelow(f, s, outbox, d);
      SumAdd(OfHopBelow(f, d), OfHopAt(f, d), OfHopBelow(f, hi), outbox);
      FiledSum(f, outbox, d);
      var here := HopsTo(outbox, d);
      if d == s {
        SumZero(OfHopAt(f, d), outbox);
      } else if here != [] {
        var m := Msg(s, d, Sum(ValueTo(d), outbox), here);
        SumConcat(InMsg(f), Messages(s, outbox, d), [m]);
      }
    }
  }

  lemma MessagesCarry(cfg: Config, raws: map<RawId, Raw>, f: Tx -> int, s: nat, outbox: seq<Hop>)
    requires ValidOutbox(cfg, raws, s, outbox)
    ensures Sum(InMsg(f), Messages(s, outbox, cfg.shardNum)) == Sum(OfHop(f), outbox)
  {
    MessagesBelow(f, s, outbox, cfg.shardNum);
    SumEqual(OfHopBelow(f, cfg.shardNum), OfHop(f), outbox);
  }

  lemma {:induction false} MessagesValue(s: nat, outbox: seq<Hop>, hi: nat, a: nat, b: nat)
    ensures Sum(Between(a, b), Messages(s, outbox, hi))
      == if a == s && b != s && b < hi then Sum(ValueTo(b), outbox) else 0
  {
    if hi > 0 {
      var d := hi - 1;
      MessagesValue(s, outbox, d, a, b);
      FiledValue(outbox, d);
      if d != s && HopsTo(outbox, d) != [] {
        var m := Msg(s, d, Sum(ValueTo(d), outbox), HopsTo(outbox, d));
        SumConcat(Between(a, b), Messages(s, outbox, d), [m]);
      }
    }
  }

  lemma {:induction false} HopsToValid(cfg: Config, raws: map<RawId, Raw>, s: nat, outbox: seq<Hop>, d: nat)
    requires ValidOutbox(cfg, raws, s, outbox)
    ensures forall i :: 0 <= i < |HopsTo(outbox, d)| ==> IsHop(cfg, raws, d, HopsTo(outbox, d)[i])
  {
    if outbox != [] {
      HopsToValid(cfg, raws, s, outbox[..|outbox| - 1], d);
    }
  }

  lemma {:induction false} MessagesValid(cfg: Config, raws: map<RawId, Raw>, s: nat, outbox: seq<Hop>, hi: nat)
    requires ValidOutbox(cfg, raws, s, outbox) && s < cfg.shardNum && hi <= cfg.shardNum
    ensures forall i :: 0 <= i < |Messages(s, outbox, hi)| ==> ValidMsg(cfg, raws, Messages(s, outbox, hi)[i])
  {
    if hi > 0 {
      MessagesValid(cfg, raws, s, outbox, hi - 1);
      HopsToValid(cfg, raws, s, outbox, hi - 1);
      FiledValue(outbox, hi - 1);
    }
  }
}
