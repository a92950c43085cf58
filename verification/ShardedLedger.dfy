/**
 Relay execution and account migration as a distributed system: blocks, relays in any order, re-sharding
 by the supervisor's modified maps with all its interleavings (consensus_shard/pbft_all/
 accountTransfer_module.go, pbftInside_moduleCLPA.go, pbftOutside_moduleCLPA.go). Shown to compute what
 one unsharded chain computes.
 */
module ShardedLedger {
  import opened Accounts
  import opened Sums
  import opened Ledger

  /** Where a shard stands in a change of the partition map. */
  datatype Phase = Running | Ready | Sent | Applied

  datatype Node = Node(trie: Trie, pool: seq<Tx>, phase: Phase)

  /** The accounts and queued transactions one shard sends another in a change. */
  datatype Move = Move(from: nat, to: nat, accounts: map<Address, AccountState>, txs: seq<Tx>)

  datatype System = System(
    left: seq<Tx>,              // the data set not injected yet
    nodes: seq<Node>,
    relays: seq<Relay>,         // in flight
    moves: seq<Move>,           // sent, not applied yet
    pm: PartitionMap,           // the map before the change under way
    change: PartitionMap,       // the modified map of that change
    changing: bool,
    inner: nat, relay1: nat, relay2: nat,      // stages executed so far
    reports: seq<Report>,                      // block reports in flight
    normalNum: nat, relay1Num: nat, relay2Num: nat,   // the committee's counters
    epoch: nat,                 // changes finished
    curEpoch: nat)              // the epoch the committee has heard of

  datatype Event =
    | Inject
    | Block(s: nat, size: nat)
    | DeliverRelay(i: nat)
    | Begin(change: PartitionMap)
    | BecomeReady(s: nat)
    | SendMoves(s: nat)
    | Regroup(order: seq<Move>)     // a shard keeps the messages of a change in a map, which has no order
    | ApplyMap(s: nat)
    | Finish
    | CountReport(i: nat)
    | LoseReport(i: nat)

  // ----- maps and places

  function NewMap(y: System): PartitionMap { y.pm + y.change }

  /** The map a shard executes with. */
  function MapOf(y: System, s: nat): PartitionMap
    requires s < |y.nodes|
  {
    if y.nodes[s].phase.Applied? then NewMap(y) else y.pm
  }

  /** How many changes a shard has been through. */
  function EpochOf(y: System, s: nat): nat
    requires s < |y.nodes|
  {
    if y.nodes[s].phase.Applied? then y.epoch + 1 else y.epoch
  }

  predicate Switched(p: Phase) { p.Sent? || p.Applied? }

  /** The map by which transactions bound for a shard are placed: the new one once its queue was split. */
  function PlaceMap(y: System, s: nat): PartitionMap
    requires s < |y.nodes|
  {
    if Switched(y.nodes[s].phase) then NewMap(y) else y.pm
  }

  // ----- the steps

  /** Whether account `a` leaves shard `s` for shard `t` in this change. */
  predicate Departs(cfg: Config, y: System, s: nat, t: nat, a: Address)
    requires cfg.shardNum > 0
  {
    a in y.change && y.change[a] == t && t != s && Home(y.pm, a, cfg.shardNum) == s
  }

  function TxsFor(cfg: Config, y: System, s: nat, t: nat, pool: seq<Tx>): seq<Tx>
    requires cfg.shardNum > 0
  {
    if pool == [] then []
    else
      var tx, before := pool[|pool| - 1], TxsFor(cfg, y, s, t, pool[..|pool| - 1]);
      if Departs(cfg, y, s, t, Key(tx)) then before + [tx] else before
  }

  /** The part of the queue that stays. */
  function Remaining(cfg: Config, y: System, s: nat, pool: seq<Tx>): seq<Tx>
    requires cfg.shardNum > 0
  {
    if pool == [] then []
    else
      var tx, before := pool[|pool| - 1], Remaining(cfg, y, s, pool[..|pool| - 1]);
      if Key(tx) in y.change && Departs(cfg, y, s, y.change[Key(tx)], Key(tx)) then before else before + [tx]
  }

  /** The states of the accounts that go from `s` to `t`, as `FetchAccounts` reads them. */
  function Departing(cfg: Config, y: System, s: nat, t: nat): map<Address, AccountState>
    requires cfg.shardNum > 0 && s < |y.nodes|
  {
    map a | a in y.change && Departs(cfg, y, s, t, a) :: StateAt(cfg, y.nodes[s].trie, a, 0)
  }

  function MovesFrom(cfg: Config, y: System, s: nat, hi: nat): seq<Move>
    requires cfg.shardNum > 0 && s < |y.nodes|
  {
    if hi == 0 then []
    else
      var before := MovesFrom(cfg, y, s, hi - 1);
      if hi - 1 == s then before
      else before + [Move(s, hi - 1, Departing(cfg, y, s, hi - 1), TxsFor(cfg, y, s, hi - 1, y.nodes[s].pool))]
  }

  function ArrivingAccounts(moves: seq<Move>, t: nat): map<Address, AccountState> {
    if moves == [] then map[]
    else
      var m, before := moves[|moves| - 1], ArrivingAccounts(moves[..|moves| - 1], t);
      if m.to == t then before + m.accounts else before
  }

  function ArrivingTxs(moves: seq<Move>, t: nat): seq<Tx> {
    if moves == [] then []
    else
      var m, before := moves[|moves| - 1], ArrivingTxs(moves[..|moves| - 1], t);
      if m.to == t then before + m.txs else before
  }

  function NotFor(moves: seq<Move>, t: nat): seq<Move> {
    if moves == [] then []
    else
      var m, before := moves[|moves| - 1], NotFor(moves[..|moves| - 1], t);
      if m.to == t then before else before + [m]
  }

  predicate InRange(cfg: Config, pm: PartitionMap) {
    forall a :: a in pm ==> pm[a] < cfg.shardNum
  }

  ghost predicate HasMove(y: System, from: nat, to: nat) {
    exists i :: 0 <= i < |y.moves| && y.moves[i].from == from && y.moves[i].to == to
  }

  ghost predicate Enabled(cfg: Config, y: System, e: Event)
    requires cfg.shardNum > 0
  {
    match e
    case Inject => y.left != [] && |y.nodes| == cfg.shardNum && InRange(cfg, NewMap(y))
                   && (y.changing ==> exists s :: 0 <= s < |y.nodes| && y.nodes[s].phase.Applied?)
    case Block(s, size) => s < |y.nodes| && size <= |y.nodes[s].pool| && (y.nodes[s].phase.Running? || y.nodes[s].phase.Applied?)
    case DeliverRelay(i) => i < |y.relays| && y.relays[i].to < |y.nodes|
    case Begin(change) => !y.changing && InRange(cfg, change)
    case BecomeReady(s) => y.changing && s < |y.nodes| && y.nodes[s].phase.Running?
    // no shard sees this; `FifoLedger.SplitEnabled` derives it from the shard's own test
    case SendMoves(s) => s < |y.nodes| && y.nodes[s].phase.Ready?
                         && (forall t :: 0 <= t < |y.nodes| ==> !y.nodes[t].phase.Running?)
                         && (forall i :: 0 <= i < |y.relays| ==> y.relays[i].to != s)
    case Regroup(order) => multiset(order) == multiset(y.moves)
    // messages from all other shards have been collected
    case ApplyMap(s) => s < |y.nodes| && y.nodes[s].phase.Sent?
                        && (forall t: nat {:trigger HasMove(y, t, s)} :: t < |y.nodes| && t != s ==> HasMove(y, t, s))
    case Finish => y.changing && (forall s :: 0 <= s < |y.nodes| ==> y.nodes[s].phase.Applied?)
    case CountReport(i) => i < |y.reports|
    case LoseReport(i) => i < |y.reports|
  }

  function SetPhase(y: System, s: nat, p: Phase): System
    requires s < |y.nodes|
  {
    y.(nodes := y.nodes[s := y.nodes[s].(phase := p)])
  }

  function InjectNext(cfg: Config, y: System): System
    requires cfg.shardNum > 0 && y.left != [] && |y.nodes| == cfg.shardNum && InRange(cfg, NewMap(y))
  {
    var tx := y.left[0];
    var s := Home(NewMap(y), tx.sender, cfg.shardNum);
    y.(left := y.left[1..], nodes := y.nodes[s := y.nodes[s].(pool := y.nodes[s].pool + [tx])])
  }

  function CommitBlock(cfg: Config, y: System, s: nat, size: nat): System
    requires cfg.shardNum > 0 && s < |y.nodes| && size <= |y.nodes[s].pool|
  {
    var node, body := y.nodes[s], y.nodes[s].pool[..size];
    var r := ReportOf(cfg, MapOf(y, s), s, body).(epoch := EpochOf(y, s));
    y.(nodes := y.nodes[s := node.(trie := ExecBody(cfg, MapOf(y, s), s, node.trie, body), pool := node.pool[size..])],
       relays := y.relays + RelayMsgs(cfg, MapOf(y, s), s, body, cfg.shardNum),
       inner := y.inner + r.inner, relay1 := y.relay1 + r.relay1, relay2 := y.relay2 + r.relay2,
       reports := y.reports + [r])
  }

  function Deliver(y: System, i: nat): System
    requires i < |y.relays| && y.relays[i].to < |y.nodes|
  {
    var m := y.relays[i];
    y.(nodes := y.nodes[m.to := y.nodes[m.to].(pool := y.nodes[m.to].pool + m.txs)], relays := Without(y.relays, i))
  }

  function SplitAndSend(cfg: Config, y: System, s: nat): System
    requires cfg.shardNum > 0 && s < |y.nodes|
  {
    var node := y.nodes[s];
    y.(nodes := y.nodes[s := node.(pool := Remaining(cfg, y, s, node.pool), phase := Sent)],
       moves := y.moves + MovesFrom(cfg, y, s, cfg.shardNum))
  }

  function TakeOver(y: System, s: nat): System
    requires s < |y.nodes|
  {
    var node := y.nodes[s];
    y.(nodes := y.nodes[s := Node(node.trie + ArrivingAccounts(y.moves, s), node.pool + ArrivingTxs(y.moves, s), Applied)],
       moves := NotFor(y.moves, s))
  }

  function Apply(cfg: Config, y: System, e: Event): System
    requires cfg.shardNum > 0 && Enabled(cfg, y, e)
  {
    match e
    case Inject => InjectNext(cfg, y)
    case Block(s, size) => CommitBlock(cfg, y, s, size)
    case DeliverRelay(i) => Deliver(y, i)
    case Begin(change) => y.(change := change, changing := true)
    case BecomeReady(s) => SetPhase(y, s, Ready)
    case SendMoves(s) => SplitAndSend(cfg, y, s)
    case Regroup(order) => y.(moves := order)
    case ApplyMap(s) => TakeOver(y, s)
    case Finish => y.(pm := NewMap(y), change := map[], changing := false, epoch := y.epoch + 1,
                      nodes := seq(|y.nodes|, s requires 0 <= s < |y.nodes| => y.nodes[s].(phase := Running)))
    case CountReport(i) =>
      var r := y.reports[i];
      y.(reports := Without(y.reports, i), normalNum := y.normalNum + r.inner,
         relay1Num := y.relay1Num + r.relay1, relay2Num := y.relay2Num + r.relay2,
         curEpoch := if r.epoch == y.curEpoch + 1 then r.epoch else y.curEpoch)
    case LoseReport(i) => y.(reports := Without(y.reports, i))
  }

  function Start(cfg: Config, data: seq<Tx>): System {
    System(data, seq(cfg.shardNum, _ => Node(map[], [], Running)), [], [], map[], map[], false, 0, 0, 0, [], 0, 0, 0, 0, 0)
  }

  ghost predicate Follows(cfg: Config, x: System, e: Event, y: System)
    requires cfg.shardNum > 0
  {
    Enabled(cfg, x, e) && y == Apply(cfg, x, e)
  }

  ghost predicate Run(cfg: Config, data: seq<Tx>, states: seq<System>, events: seq<Event>)
    requires cfg.shardNum > 0
  {
    && |states| == |events| + 1 && states[0] == Start(cfg, data)
    && forall i :: 0 <= i < |events| ==> Follows(cfg, states[i], events[i], states[i + 1])
  }

  // ----- views and totals

  function InPool(f: Tx -> int): Node -> int { (n: Node) => Sum(f, n.pool) }
  function InRelay(f: Tx -> int): Relay -> int { (r: Relay) => Sum(f, r.txs) }
  function InMove(f: Tx -> int): Move -> int { (m: Move) => Sum(f, m.txs) }

  /** The weight of every transaction not finished yet, wherever it is. */
  function Everywhere(f: Tx -> int, y: System): int {
    Sum(f, y.left) + Sum(InPool(f), y.nodes) + Sum(InRelay(f), y.relays) + Sum(InMove(f), y.moves)
  }

  /** The shard that answers for an account: its new home once that has applied the map, else its old one. */
  function Owner(cfg: Config, y: System, a: Address): nat
    requires cfg.shardNum > 0
  {
    var n := Home(NewMap(y), a, cfg.shardNum);
    if n < |y.nodes| && y.nodes[n].phase.Applied? then n else Home(y.pm, a, cfg.shardNum)
  }

  /** The state of an account as its owner sees it. */
  function View(cfg: Config, y: System, a: Address): AccountState
    requires cfg.shardNum > 0
  {
    var o := Owner(cfg, y, a);
    if o < |y.nodes| then StateAt(cfg, y.nodes[o].trie, a, 0) else AccountState(0, cfg.initBalance)
  }

  // ----- what every reachable state satisfies

  ghost predicate Shape(cfg: Config, y: System) {
    && cfg.shardNum > 0 && |y.nodes| == cfg.shardNum && InRange(cfg, y.pm) && InRange(cfg, y.change)
    && (!y.changing ==> y.change == map[] && y.moves == [] && forall s :: 0 <= s < |y.nodes| ==> y.nodes[s].phase.Running?)
    && (forall s, t :: 0 <= s < |y.nodes| && 0 <= t < |y.nodes| && y.nodes[s].phase.Running? ==> !Switched(y.nodes[t].phase))
    && (forall s, t :: 0 <= s < |y.nodes| && 0 <= t < |y.nodes| && y.nodes[s].phase.Applied? ==> Switched(y.nodes[t].phase))
  }

  ghost predicate AllRelayed(txs: seq<Tx>) {
    forall i :: 0 <= i < |txs| ==> txs[i].relayed
  }

  ghost predicate ValidRelay(cfg: Config, y: System, r: Relay)
    requires cfg.shardNum > 0
  {
    r.to < |y.nodes| && AllRelayed(r.txs) && PlacedAt(cfg, PlaceMap(y, r.to), r.to, r.txs)
  }

  /** A move in flight: its transactions belong to the receiver, its states are what the sender still shows. */
  ghost predicate ValidMove(cfg: Config, y: System, m: Move)
    requires cfg.shardNum > 0
  {
    && m.from < |y.nodes| && m.to < |y.nodes| && m.from != m.to
    && Switched(y.nodes[m.from].phase) && !y.nodes[m.to].phase.Applied?
    && m.accounts == Departing(cfg, y, m.from, m.to)
    && PlacedAt(cfg, NewMap(y), m.to, m.txs)
    && (forall i :: 0 <= i < |m.txs| ==> Key(m.txs[i]) in y.change && y.change[Key(m.txs[i])] == m.to)
  }

  ghost predicate Raw(tx: Tx) { Plain(tx) && !tx.relayed }

  ghost predicate Places(cfg: Config, y: System)
    requires cfg.shardNum > 0
  {
    && (forall s: nat {:trigger y.nodes[s]} :: s < |y.nodes| ==> PlacedAt(cfg, PlaceMap(y, s), s, y.nodes[s].pool))
    && (forall i {:trigger y.relays[i]} :: 0 <= i < |y.relays| ==> ValidRelay(cfg, y, y.relays[i]))
    && (forall i {:trigger y.moves[i]} :: 0 <= i < |y.moves| ==> ValidMove(cfg, y, y.moves[i]))
    && (forall i {:trigger y.left[i]} :: 0 <= i < |y.left| ==> Raw(y.left[i]))
  }

  /** Balance plus what is still to come is what the account will have in the end. */
  ghost predicate Settles(cfg: Config, data: seq<Tx>, y: System, a: Address)
    requires cfg.shardNum > 0
  {
    View(cfg, y, a).balance + Everywhere(EffectOn(a), y) == cfg.initBalance + Sum(EffectOn(a), data)
  }

  /** An account can always pay for its queued transfers, as long as the data set does not overspend. */
  ghost predicate Affords(cfg: Config, data: seq<Tx>, y: System, a: Address)
    requires cfg.shardNum > 0
  {
    View(cfg, y, a).balance - Everywhere(OwedBy(a), y) >= cfg.initBalance - Sum(OwedBy(a), data)
  }

  ghost predicate Money(cfg: Config, data: seq<Tx>, y: System)
    requires cfg.shardNum > 0
  {
    forall a {:trigger Settles(cfg, data, y, a)} {:trigger Affords(cfg, data, y, a)} ::
      Settles(cfg, data, y, a) && Affords(cfg, data, y, a)
  }

  function Unsent(): Tx -> int { (tx: Tx) => Bit(!tx.relayed) }
  function Underway(): Tx -> int { (tx: Tx) => Bit(tx.relayed) }
  function InnerOf(): Report -> int { (r: Report) => r.inner }
  function Relay1Of(): Report -> int { (r: Report) => r.relay1 }
  function Relay2Of(): Report -> int { (r: Report) => r.relay2 }

  ghost predicate Counted(data: seq<Tx>, y: System) {
    && Everywhere(Unsent(), y) + y.inner + y.relay1 == |data|
    && Everywhere(Underway(), y) + y.relay2 == y.relay1
    && y.normalNum + Sum(InnerOf(), y.reports) <= y.inner
    && y.relay1Num + Sum(Relay1Of(), y.reports) <= y.relay1
    && y.relay2Num + Sum(Relay2Of(), y.reports) <= y.relay2
  }

  /** What holds for every data set, overspending or not. */
  ghost predicate Core(cfg: Config, data: seq<Tx>, y: System) {
    Shape(cfg, y) && Places(cfg, y) && Counted(data, y)
  }

  ghost predicate Inv(cfg: Config, data: seq<Tx>, y: System) {
    Core(cfg, data, y) && Money(cfg, data, y)
  }

  ghost predicate RawData(data: seq<Tx>) {
    forall i :: 0 <= i < |data| ==> Raw(data[i])
  }

  /** No account of the data set sends more in total than the balance it starts with. */
  ghost predicate Covered(cfg: Config, data: seq<Tx>) {
    && RawData(data)
    && (forall a {:trigger OwedBy(a)} :: Sum(OwedBy(a), data) <= cfg.initBalance)
  }

  /** Both states hold the same unfinished transactions, by weight. */
  ghost predicate SameWeights(y: System, y': System) {
    forall f: Tx -> int {:trigger Everywhere(f, y')} :: Everywhere(f, y') == Everywhere(f, y)
  }

  /** Every account looks the same to its owner. */
  ghost predicate SameViews(cfg: Config, y: System, y': System)
    requires cfg.shardNum > 0
  {
    forall a {:trigger View(cfg, y', a)} :: View(cfg, y', a) == View(cfg, y, a)
  }

  lemma MoneyFollows(cfg: Config, data: seq<Tx>, y: System, y': System)
    requires cfg.shardNum > 0 && Money(cfg, data, y) && SameViews(cfg, y, y') && SameWeights(y, y')
    ensures Money(cfg, data, y')
  {
    forall a
      ensures Settles(cfg, data, y', a) && Affords(cfg, data, y', a)
    {
      assert Settles(cfg, data, y, a) && Affords(cfg, data, y, a);
      assert View(cfg, y', a) == View(cfg, y, a);
      assert Everywhere(EffectOn(a), y') == Everywhere(EffectOn(a), y);
      assert Everywhere(OwedBy(a), y') == Everywhere(OwedBy(a), y);
    }
  }

  // ----- the start

  lemma {:induction false} AllUnsent(txs: seq<Tx>)
    requires RawData(txs)
    ensures Sum(Unsent(), txs) == |txs| && Sum(Underway(), txs) == 0
  {
    if txs != [] {
      AllUnsent(txs[..|txs| - 1]);
    }
  }

  lemma StartHolds(cfg: Config, data: seq<Tx>)
    requires cfg.shardNum > 0 && RawData(data)
    ensures Inv(cfg, data, Start(cfg, data))
  {
    var y := Start(cfg, data);
    forall f: Tx -> int
      ensures Everywhere(f, y) == Sum(f, data)
    {
      SumZero(InPool(f), y.nodes);
    }
    AllUnsent(data);
    assert Everywhere(Unsent(), y) == Sum(Unsent(), data);
    assert Everywhere(Underway(), y) == Sum(Underway(), data);
    forall a
      ensures Settles(cfg, data, y, a) && Affords(cfg, data, y, a)
    {
      assert Everywhere(EffectOn(a), y) == Sum(EffectOn(a), data);
      assert Everywhere(OwedBy(a), y) == Sum(OwedBy(a), data);
    }
  }

  // ----- what carries over when only some parts change

  lemma MapsInRange(cfg: Config, y: System, s: nat)
    requires Shape(cfg, y) && s < |y.nodes|
    ensures InRange(cfg, MapOf(y, s)) && InRange(cfg, NewMap(y))
  {
  }

  lemma SameShape(cfg: Config, y: System, y': System)
    requires Shape(cfg, y) && |y'.nodes| == |y.nodes| && y'.pm == y.pm && y'.change == y.change
    requires y'.changing == y.changing && (y.moves == [] ==> y'.moves == [])
    requires forall s {:trigger y'.nodes[s]} :: 0 <= s < |y.nodes| ==> y'.nodes[s].phase == y.nodes[s].phase
    ensures Shape(cfg, y')
  {
  }

  /** Only pools change: every shard still shows the same accounts, in the same phase. */
  lemma ViewsStay(cfg: Config, y: System, y': System)
    requires cfg.shardNum > 0 && |y'.nodes| == |y.nodes| && y'.pm == y.pm && y'.change == y.change
    requires forall s {:trigger y'.nodes[s]} :: 0 <= s < |y.nodes| ==>
      y'.nodes[s].phase == y.nodes[s].phase && y'.nodes[s].trie == y.nodes[s].trie
    ensures SameViews(cfg, y, y')
  {
  }

  /** Places that depend only on phases, maps and tries carry over. */
  lemma ValidStays(cfg: Config, y: System, y': System)
    requires cfg.shardNum > 0 && |y'.nodes| == |y.nodes| && y'.pm == y.pm && y'.change == y.change
    requires forall s {:trigger y'.nodes[s]} :: 0 <= s < |y.nodes| ==>
      y'.nodes[s].phase == y.nodes[s].phase && y'.nodes[s].trie == y.nodes[s].trie
    ensures forall r {:trigger ValidRelay(cfg, y', r)} :: ValidRelay(cfg, y, r) ==> ValidRelay(cfg, y', r)
    ensures forall m {:trigger ValidMove(cfg, y', m)} :: ValidMove(cfg, y, m) ==> ValidMove(cfg, y', m)
  {
    forall m | ValidMove(cfg, y, m)
      ensures ValidMove(cfg, y', m)
    {
      assert Departing(cfg, y', m.from, m.to) == Departing(cfg, y, m.from, m.to);
    }
  }

  lemma SamePlaces(cfg: Config, y: System, y': System)
    requires cfg.shardNum > 0 && Places(cfg, y) && y'.left == y.left && y'.nodes == y.nodes
    requires y'.relays == y.relays && y'.moves == y.moves && y'.pm == y.pm && y'.change == y.change
    ensures Places(cfg, y')
  {
    ValidStays(cfg, y, y');
    forall s: nat | s < |y'.nodes|
      ensures PlacedAt(cfg, PlaceMap(y', s), s, y'.nodes[s].pool)
    {
      assert PlacedAt(cfg, PlaceMap(y, s), s, y.nodes[s].pool);
    }
    forall i | 0 <= i < |y'.relays|
      ensures ValidRelay(cfg, y', y'.relays[i])
    {
      assert ValidRelay(cfg, y, y.relays[i]);
    }
    forall i | 0 <= i < |y'.moves|
      ensures ValidMove(cfg, y', y'.moves[i])
    {
      assert ValidMove(cfg, y, y.moves[i]);
    }
  }

  lemma SamePlaceWeights(y: System, y': System)
    requires y'.left == y.left && y'.nodes == y.nodes && y'.relays == y.relays && y'.moves == y.moves
    ensures SameWeights(y, y')
  {
  }
}
