/**
 Every run of the sharded ledger: no misplaced transaction, invisible migration, the balances of one
 unsharded chain in the end, and sound drain detection.
 */
module LedgerRuns {
  import opened Accounts
  import opened Sums
  import opened Ledger
  import opened ShardedLedger
  import opened RelaySteps
  import opened MigrationSteps

  // ----- every state of every run

  lemma OtherKeeps(cfg: Config, data: seq<Tx>, y: System, e: Event)
    requires Core(cfg, data, y) && Enabled(cfg, y, e) && !e.Block?
    ensures var y' := Apply(cfg, y, e); Core(cfg, data, y') && SameViews(cfg, y, y') && SameWeights(y, y')
  {
    match e
    case Inject => InjectKeeps(cfg, data, y);
    case DeliverRelay(i) => DeliverKeeps(cfg, data, y, i);
    case Begin(change) => BeginKeeps(cfg, data, y, change);
    case BecomeReady(s) => ReadyKeeps(cfg, data, y, s);
    case SendMoves(s) => SplitKeeps(cfg, data, y, s);
    case Regroup(order) => RegroupKeeps(cfg, data, y, order);
    case ApplyMap(s) => TakeOverKeeps(cfg, data, y, s);
    case Finish => FinishKeeps(cfg, data, y);
    case CountReport(i) => ReportKeeps(cfg, data, y, i, e);
    case LoseReport(i) => ReportKeeps(cfg, data, y, i, e);
  }

  lemma StepKeeps(cfg: Config, data: seq<Tx>, x: System, e: Event, y: System)
    requires Core(cfg, data, x) && Follows(cfg, x, e, y)
    ensures Core(cfg, data, y)
  {
    match e
    case Block(s, size) => BlockKeeps(cfg, data, x, s, size);
    case _ => OtherKeeps(cfg, data, x, e);
  }

  lemma StepKeepsMoney(cfg: Config, data: seq<Tx>, x: System, e: Event, y: System)
    requires Inv(cfg, data, x) && Covered(cfg, data) && Follows(cfg, x, e, y)
    ensures Money(cfg, data, y)
  {
    match e
    case Block(s, size) => BlockMoney(cfg, data, x, s, size);
    case _ =>
      OtherKeeps(cfg, data, x, e);
      MoneyFollows(cfg, data, x, y);
  }

  lemma {:induction false} RunKeeps(cfg: Config, data: seq<Tx>, states: seq<System>, events: seq<Event>, k: nat)
    requires cfg.shardNum > 0 && RawData(data) && Run(cfg, data, states, events) && k < |states|
    ensures Core(cfg, data, states[k]) && (Covered(cfg, data) ==> Money(cfg, data, states[k]))
  {
    if k == 0 {
      StartHolds(cfg, data);
    } else {
      var i := k - 1;
      RunKeeps(cfg, data, states, events, i);
      StepKeeps(cfg, data, states[i], events[i], states[i + 1]);
      if Covered(cfg, data) {
        StepKeepsMoney(cfg, data, states[i], events[i], states[i + 1]);
      }
    }
  }

  // ----- the theorems

  lemma {:induction false} ArrivingKeyed(cfg: Config, y: System, moves: seq<Move>, t: nat, k: nat)
    requires cfg.shardNum > 0 && AllValid(cfg, y, moves) && k < |ArrivingTxs(moves, t)|
    ensures var key := Key(ArrivingTxs(moves, t)[k]); key in y.change && y.change[key] == t
  {
    var init := moves[..|moves| - 1];
    assert ValidMove(cfg, y, moves[|moves| - 1]);
    if k < |ArrivingTxs(init, t)| {
      ArrivingKeyed(cfg, y, init, t, k);
    }
  }

  /**
   The "incorrect tx" and "error tx" stops are out of reach: whatever a shard may put in its next block is
   its own, and whatever arrives in a change was sent to the right shard.
   */
  lemma NoIncorrectTx(cfg: Config, data: seq<Tx>, states: seq<System>, events: seq<Event>, k: nat, s: nat, i: nat)
    requires cfg.shardNum > 0 && RawData(data) && Run(cfg, data, states, events) && k < |states| && s < |states[k].nodes|
    ensures var y := states[k];
      ((y.nodes[s].phase.Running? || y.nodes[s].phase.Applied?) && i < |y.nodes[s].pool|) ==>
        Home(MapOf(y, s), Key(y.nodes[s].pool[i]), cfg.shardNum) == s
    ensures var y := states[k];
      i < |ArrivingTxs(y.moves, s)| ==> var key := Key(ArrivingTxs(y.moves, s)[i]); key in y.change && y.change[key] == s
  {
    RunKeeps(cfg, data, states, events, k);
    var y := states[k];
    assert PlacedAt(cfg, PlaceMap(y, s), s, y.nodes[s].pool);
    if i < |ArrivingTxs(y.moves, s)| {
      assert AllValid(cfg, y, y.moves);
      ArrivingKeyed(cfg, y, y.moves, s, i);
    }
  }

  /** Only blocks change what an account looks like: a change of the map, however interleaved, does not. */
  lemma {:induction false} MigrationInvisible(cfg: Config, data: seq<Tx>, states: seq<System>, events: seq<Event>, j: nat, k: nat, a: Address)
    requires cfg.shardNum > 0 && RawData(data) && Run(cfg, data, states, events) && j <= k < |states|
    requires forall i :: j <= i < k ==> !events[i].Block?
    ensures View(cfg, states[k], a) == View(cfg, states[j], a)
  {
    if j < k {
      var i := k - 1;
      MigrationInvisible(cfg, data, states, events, j, i, a);
      RunKeeps(cfg, data, states, events, i);
      assert Follows(cfg, states[i], events[i], states[i + 1]);
      OtherKeeps(cfg, data, states[i], events[i]);
    }
  }

  /** Between changes every account is seen at its home and every transaction waits at the home of its key. */
  lemma SettledPlaces(cfg: Config, data: seq<Tx>, states: seq<System>, events: seq<Event>, k: nat)
    requires cfg.shardNum > 0 && RawData(data) && Run(cfg, data, states, events) && k < |states|
    requires !states[k].changing
    ensures var y := states[k];
      && y.moves == [] && |y.nodes| == cfg.shardNum
      && (forall a {:trigger View(cfg, y, a)} :: var h := Home(y.pm, a, cfg.shardNum);
            h < |y.nodes| && View(cfg, y, a) == StateAt(cfg, y.nodes[h].trie, a, 0))
      && (forall s: nat {:trigger y.nodes[s]} :: s < |y.nodes| ==> PlacedAt(cfg, y.pm, s, y.nodes[s].pool))
  {
    RunKeeps(cfg, data, states, events, k);
    var y := states[k];
    assert NewMap(y) == y.pm;
    forall a
      ensures var h := Home(y.pm, a, cfg.shardNum); h < |y.nodes| && View(cfg, y, a) == StateAt(cfg, y.nodes[h].trie, a, 0)
    {
    }
    forall s: nat | s < |y.nodes|
      ensures PlacedAt(cfg, y.pm, s, y.nodes[s].pool)
    {
      assert PlacedAt(cfg, PlaceMap(y, s), s, y.nodes[s].pool);
    }
  }

  /** Every account is seen at its one new home, every queued transaction waits at the new home of its key, and no move is on its way. */
  ghost predicate AtNewHomes(cfg: Config, y: System)
    requires cfg.shardNum > 0
  {
    && y.moves == [] && |y.nodes| == cfg.shardNum
    && (forall a {:trigger View(cfg, y, a)} :: var h := Home(NewMap(y), a, cfg.shardNum);
          h < |y.nodes| && View(cfg, y, a) == StateAt(cfg, y.nodes[h].trie, a, 0))
    && (forall s: nat {:trigger y.nodes[s]} :: s < |y.nodes| ==> PlacedAt(cfg, NewMap(y), s, y.nodes[s].pool))
  }

  ghost predicate AllApplied(y: System) {
    forall s :: 0 <= s < |y.nodes| ==> y.nodes[s].phase.Applied?
  }

  /** When everyone has applied the map, each shard is the new home of what it holds, and nothing is on its way. */
  lemma AppliedEverywhere(cfg: Config, data: seq<Tx>, states: seq<System>, events: seq<Event>, k: nat)
    requires cfg.shardNum > 0 && RawData(data) && Run(cfg, data, states, events) && k < |states| && AllApplied(states[k])
    ensures AtNewHomes(cfg, states[k])
  {
    RunKeeps(cfg, data, states, events, k);
    var y := states[k];
    FirstMove(cfg, y);
    forall a
      ensures var h := Home(NewMap(y), a, cfg.shardNum); h < |y.nodes| && View(cfg, y, a) == StateAt(cfg, y.nodes[h].trie, a, 0)
    {
      var h := Home(NewMap(y), a, cfg.shardNum);
      assert h < |y.nodes| && y.nodes[h].phase.Applied?;
    }
    forall s: nat | s < |y.nodes|
      ensures PlacedAt(cfg, NewMap(y), s, y.nodes[s].pool)
    {
      assert PlacedAt(cfg, PlaceMap(y, s), s, y.nodes[s].pool);
    }
  }

  ghost predicate AllSolvent(y: System) {
    forall s {:trigger y.nodes[s]} :: 0 <= s < |y.nodes| ==> Solvent(y.nodes[s].trie)
  }

  lemma TakeOverSolvent(cfg: Config, y: System, s: nat)
    requires Shape(cfg, y) && Places(cfg, y) && s < |y.nodes| && AllSolvent(y)
    ensures AllSolvent(TakeOver(y, s))
  {
    assert AllValid(cfg, y, y.moves);
    forall a | a in ArrivingAccounts(y.moves, s)
      ensures ArrivingAccounts(y.moves, s)[a].balance >= 0
    {
      ArrivingIs(cfg, y, y.moves, s, a);
      assert Solvent(y.nodes[Home(y.pm, a, cfg.shardNum)].trie);
    }
    assert Solvent(y.nodes[s].trie);
  }

  lemma StepKeepsSolvent(cfg: Config, data: seq<Tx>, x: System, e: Event, y: System)
    requires Core(cfg, data, x) && Follows(cfg, x, e, y) && AllSolvent(x)
    ensures AllSolvent(y)
  {
    match e
    case Block(s, size) => BlockSolvent(cfg, x, s, size);
    case ApplyMap(s) => TakeOverSolvent(cfg, x, s);
    case _ => OtherSolvent(cfg, x, e, y);
  }

  lemma OtherSolvent(cfg: Config, x: System, e: Event, y: System)
    requires cfg.shardNum > 0 && Follows(cfg, x, e, y) && !e.Block? && !e.ApplyMap? && AllSolvent(x)
    ensures AllSolvent(y)
  {
    OtherTries(cfg, x, e, y);
  }

  lemma BlockSolvent(cfg: Config, y: System, s: nat, size: nat)
    requires cfg.shardNum > 0 && s < |y.nodes| && size <= |y.nodes[s].pool| && AllSolvent(y)
    ensures AllSolvent(CommitBlock(cfg, y, s, size))
  {
    assert Solvent(y.nodes[s].trie);
    BodySolvent(cfg, MapOf(y, s), s, y.nodes[s].trie, BodyOf(y, s, size));
  }

  /** Only blocks and applied maps write to a trie. */
  lemma OtherTries(cfg: Config, x: System, e: Event, y: System)
    requires cfg.shardNum > 0 && Follows(cfg, x, e, y) && !e.Block? && !e.ApplyMap?
    ensures |y.nodes| == |x.nodes| && forall s {:trigger y.nodes[s]} :: 0 <= s < |x.nodes| ==> y.nodes[s].trie == x.nodes[s].trie
  {
  }

  lemma {:induction false} RunSolvent(cfg: Config, data: seq<Tx>, states: seq<System>, events: seq<Event>, k: nat)
    requires cfg.shardNum > 0 && RawData(data) && Run(cfg, data, states, events) && k < |states|
    ensures AllSolvent(states[k])
  {
    if k > 0 {
      RunSolvent(cfg, data, states, events, k - 1);
      RunKeeps(cfg, data, states, events, k - 1);
      StepKeepsSolvent(cfg, data, states[k - 1], events[k - 1], states[k]);
    }
  }

  /** No account is ever overdrawn, whether or not the data set overspends. */
  lemma NeverOverdrawn(cfg: Config, data: seq<Tx>, states: seq<System>, events: seq<Event>, k: nat, a: Address)
    requires cfg.shardNum > 0 && RawData(data) && Run(cfg, data, states, events) && k < |states|
    ensures View(cfg, states[k], a).balance >= 0
  {
    RunSolvent(cfg, data, states, events, k);
  }

  /** Nothing is left to do: no transaction to inject, queued, relayed or migrating. */
  ghost predicate Quiet(y: System) {
    && y.left == []
    && (forall s :: 0 <= s < |y.nodes| ==> y.nodes[s].pool == [])
    && (forall i :: 0 <= i < |y.relays| ==> y.relays[i].txs == [])
    && (forall i :: 0 <= i < |y.moves| ==> y.moves[i].txs == [])
  }

  lemma QuietWeighsNothing(f: Tx -> int, y: System)
    requires Quiet(y)
    ensures Everywhere(f, y) == 0
  {
    SumZero(InPool(f), y.nodes);
    SumZero(InRelay(f), y.relays);
    SumZero(InMove(f), y.moves);
  }

  /** One chain with one shard that applies the raw transactions in a single block. */
  function Unsharded(cfg: Config, order: seq<Tx>): Trie {
    ExecBody(Config(1, cfg.initBalance), map[], 0, map[], order)
  }

  lemma UnshardedBalance(cfg: Config, order: seq<Tx>, a: Address)
    requires Covered(cfg, order)
    ensures Balance(cfg, Unsharded(cfg, order), a) == cfg.initBalance + Sum(EffectOn(a), order)
  {
    var one := Config(1, cfg.initBalance);
    forall b
      ensures Home(map[], b, 1) == 0
    {
      assert Addr2Shard(b, 1) < 1;
    }
    forall i | 0 <= i < |order|
      ensures Plain(order[i]) && Home(map[], Key(order[i]), 1) == 0
    {
      assert Raw(order[i]);
    }
    BodyBalances(one, map[], 0, map[], order, a);
  }

  lemma CoveredPermutation(cfg: Config, data: seq<Tx>, order: seq<Tx>)
    requires Covered(cfg, data) && multiset(order) == multiset(data)
    ensures Covered(cfg, order)
  {
    forall i | 0 <= i < |order|
      ensures Raw(order[i])
    {
      assert order[i] in multiset(data);
    }
    forall a
      ensures Sum(OwedBy(a), order) <= cfg.initBalance
    {
      SumOfPermutation(OwedBy(a), order, data);
      assert Sum(OwedBy(a), data) <= cfg.initBalance;
    }
  }

  /**
   Refinement: whatever the number of shards, the injection, block and message order, and the changes of
   the map in between, once nothing is left every account has what one unsharded chain gives it.
   */
  lemma ShardedIsUnsharded(cfg: Config, data: seq<Tx>, states: seq<System>, events: seq<Event>, k: nat, order: seq<Tx>, a: Address)
    requires cfg.shardNum > 0 && Covered(cfg, data) && Run(cfg, data, states, events) && k < |states|
    requires Quiet(states[k]) && multiset(order) == multiset(data)
    ensures View(cfg, states[k], a).balance == Balance(cfg, Unsharded(cfg, order), a)
  {
    RunKeeps(cfg, data, states, events, k);
    assert Settles(cfg, data, states[k], a);
    QuietWeighsNothing(EffectOn(a), states[k]);
    CoveredPermutation(cfg, data, order);
    UnshardedBalance(cfg, order, a);
    SumOfPermutation(EffectOn(a), order, data);
  }

  // ----- drain detection

  /** The relay committee's test that execution is over. */
  predicate ExecutionDrained(dataTotalNum: nat, y: System) {
    y.normalNum + y.relay1Num >= dataTotalNum && y.relay2Num >= y.relay1Num
  }

  lemma {:induction false} EachCounts(txs: seq<Tx>)
    ensures Sum(Unsent(), txs) >= 0 && Sum(Underway(), txs) >= 0
    ensures Sum(Unsent(), txs) == 0 && Sum(Underway(), txs) == 0 ==> txs == []
  {
    if txs != [] {
      EachCounts(txs[..|txs| - 1]);
    }
  }

  lemma WeightlessParts(f: Tx -> int, y: System)
    requires (forall tx :: f(tx) >= 0) && Everywhere(f, y) <= 0
    ensures Sum(f, y.left) == 0
    ensures forall s :: 0 <= s < |y.nodes| ==> Sum(f, y.nodes[s].pool) == 0
    ensures forall i :: 0 <= i < |y.relays| ==> Sum(f, y.relays[i].txs) == 0
    ensures forall i :: 0 <= i < |y.moves| ==> Sum(f, y.moves[i].txs) == 0
  {
    NonNegativeSums(f, y);
    forall p: seq<Tx>
      ensures Sum(f, p) >= 0
    {
      SumNonNegative(f, p);
    }
    forall s | 0 <= s < |y.nodes|
      ensures Sum(f, y.nodes[s].pool) == 0
    {
      SumBoundsElement(InPool(f), y.nodes, s);
    }
    forall i | 0 <= i < |y.relays|
      ensures Sum(f, y.relays[i].txs) == 0
    {
      SumBoundsElement(InRelay(f), y.relays, i);
    }
    forall i | 0 <= i < |y.moves|
      ensures Sum(f, y.moves[i].txs) == 0
    {
      SumBoundsElement(InMove(f), y.moves, i);
    }
  }

  lemma QuietWhenWeightless(y: System)
    requires Everywhere(Unsent(), y) <= 0 && Everywhere(Underway(), y) <= 0
    ensures Quiet(y)
  {
    WeightlessParts(Unsent(), y);
    WeightlessParts(Underway(), y);
    forall p: seq<Tx>
      ensures Sum(Unsent(), p) == 0 && Sum(Underway(), p) == 0 ==> p == []
    {
      EachCounts(p);
    }
  }

  /** Drain detection never fires early, in whatever order block reports arrive and however many are lost. */
  lemma DrainedMeansQuiet(cfg: Config, data: seq<Tx>, states: seq<System>, events: seq<Event>, k: nat)
    requires cfg.shardNum > 0 && RawData(data) && Run(cfg, data, states, events) && k < |states|
    requires ExecutionDrained(|data|, states[k])
    ensures Quiet(states[k])
  {
    RunKeeps(cfg, data, states, events, k);
    var y := states[k];
    ReportsNonNegative(y.reports);
    NonNegativeSums(Unsent(), y);
    NonNegativeSums(Underway(), y);
    QuietWhenWeightless(y);
  }

  lemma ReportsNonNegative(reports: seq<Report>)
    ensures Sum(InnerOf(), reports) >= 0 && Sum(Relay1Of(), reports) >= 0 && Sum(Relay2Of(), reports) >= 0
  {
    SumNonNegative(InnerOf(), reports);
    SumNonNegative(Relay1Of(), reports);
    SumNonNegative(Relay2Of(), reports);
  }

  /** And it does fire: once nothing is left and every report has been counted. */
  lemma QuietMeansDrained(cfg: Config, data: seq<Tx>, states: seq<System>, events: seq<Event>, k: nat)
    requires cfg.shardNum > 0 && RawData(data) && Run(cfg, data, states, events) && k < |states|
    requires Quiet(states[k]) && states[k].normalNum == states[k].inner
    requires states[k].relay1Num == states[k].relay1 && states[k].relay2Num == states[k].relay2
    ensures ExecutionDrained(|data|, states[k])
  {
    RunKeeps(cfg, data, states, events, k);
    QuietWeighsNothing(Unsent(), states[k]);
    QuietWeighsNothing(Underway(), states[k]);
  }

  // ----- exactly then

  /** What was counted, with what is still to count, is what was done. */
  ghost predicate Exact(y: System) {
    && y.normalNum + Sum(InnerOf(), y.reports) == y.inner
    && y.relay1Num + Sum(Relay1Of(), y.reports) == y.relay1
    && y.relay2Num + Sum(Relay2Of(), y.reports) == y.relay2
  }

  lemma BlockExact(cfg: Config, y: System, s: nat, size: nat)
    requires cfg.shardNum > 0 && Exact(y) && Enabled(cfg, y, Block(s, size))
    ensures Exact(CommitBlock(cfg, y, s, size))
  {
    var r := ReportOf(cfg, MapOf(y, s), s, y.nodes[s].pool[..size]).(epoch := EpochOf(y, s));
    SumAppend(InnerOf(), y.reports, r);
    SumAppend(Relay1Of(), y.reports, r);
    SumAppend(Relay2Of(), y.reports, r);
    assert CommitBlock(cfg, y, s, size).reports == y.reports + [r];
  }

  lemma StepExact(cfg: Config, x: System, e: Event, y: System)
    requires cfg.shardNum > 0 && Exact(x) && Follows(cfg, x, e, y) && !e.LoseReport?
    ensures Exact(y)
  {
    match e
    case Block(s, size) => BlockExact(cfg, x, s, size);
    case CountReport(i) =>
      SumWithout(InnerOf(), x.reports, i);
      SumWithout(Relay1Of(), x.reports, i);
      SumWithout(Relay2Of(), x.reports, i);
    case _ =>
  }

  lemma {:induction false} RunExact(cfg: Config, data: seq<Tx>, states: seq<System>, events: seq<Event>, k: nat)
    requires cfg.shardNum > 0 && Run(cfg, data, states, events) && k < |states| && forall i :: 0 <= i < k ==> !events[i].LoseReport?
    ensures Exact(states[k])
  {
    if k > 0 {
      RunExact(cfg, data, states, events, k - 1);
      StepExact(cfg, states[k - 1], events[k - 1], states[k]);
    }
  }

  /** With no report lost and every report counted, drain detection fires exactly when nothing is left. */
  lemma DrainedIff(cfg: Config, data: seq<Tx>, states: seq<System>, events: seq<Event>, k: nat)
    requires cfg.shardNum > 0 && RawData(data) && Run(cfg, data, states, events) && k < |states|
    requires states[k].reports == [] && forall i :: 0 <= i < k ==> !events[i].LoseReport?
    ensures ExecutionDrained(|data|, states[k]) <==> Quiet(states[k])
  {
    RunExact(cfg, data, states, events, k);
    if ExecutionDrained(|data|, states[k]) {
      DrainedMeansQuiet(cfg, data, states, events, k);
    } else if Quiet(states[k]) {
      QuietMeansDrained(cfg, data, states, events, k);
    }
  }

  /** In any run it fires exactly when nothing is left and every stage was counted. */
  lemma DrainedExactly(cfg: Config, data: seq<Tx>, states: seq<System>, events: seq<Event>, k: nat)
    requires cfg.shardNum > 0 && RawData(data) && Run(cfg, data, states, events) && k < |states|
    ensures var y := states[k];
      ExecutionDrained(|data|, y) <==> Quiet(y) && y.normalNum == y.inner && y.relay1Num == y.relay1 && y.relay2Num == y.relay2
  {
    RunKeeps(cfg, data, states, events, k);
    var y := states[k];
    ReportsNonNegative(y.reports);
    NonNegativeSums(Unsent(), y);
    NonNegativeSums(Underway(), y);
    if ExecutionDrained(|data|, y) {
      DrainedMeansQuiet(cfg, data, states, events, k);
    } else if Quiet(y) && y.normalNum == y.inner && y.relay1Num == y.relay1 && y.relay2Num == y.relay2 {
      QuietMeansDrained(cfg, data, states, events, k);
    }
  }
}
