/**
 The money supply of the sharded ledger over whole runs: over any list of accounts that takes in everyone
 involved, all balances and the value of the relays under way are what the accounts started with and what
 transfers that nobody paid for have added.
 */
module Supply {
  import opened Accounts
  import opened Sums
  import opened Ledger
  import opened ShardedLedger
  import opened RelaySteps
  import opened LedgerRuns

  /** The value of a transaction that has left its sender's shard and has not reached its recipient yet. */
  function InTransit(): Tx -> int { (tx: Tx) => if tx.relayed then tx.value else 0 }

  /** What the owners of the listed accounts hold for them. */
  function Holdings(cfg: Config, y: System, accounts: seq<Address>): int
    requires cfg.shardNum > 0
  {
    if accounts == [] then 0
    else Holdings(cfg, y, accounts[..|accounts| - 1]) + View(cfg, y, accounts[|accounts| - 1]).balance
  }

  ghost predicate Known(accounts: seq<Address>, tx: Tx) { tx.sender in accounts && tx.recipient in accounts }

  ghost predicate AllKnown(accounts: seq<Address>, txs: seq<Tx>) {
    forall i :: 0 <= i < |txs| ==> Known(accounts, txs[i])
  }

  // ----- money that nobody paid

  /** The transaction leaves its sender's shard although its debit is skipped. */
  predicate Mints(cfg: Config, pm: PartitionMap, sid: nat, trie: Trie, tx: Tx)
    requires cfg.shardNum > 0
  {
    Skipped(cfg, trie, tx) && Leaves(cfg, pm, sid, tx)
  }

  /** What a block mints, each transaction judged by the trie it meets. */
  function Minted(cfg: Config, pm: PartitionMap, sid: nat, trie: Trie, body: seq<Tx>): nat
    requires cfg.shardNum > 0
  {
    if body == [] then 0
    else
      var init, tx := body[..|body| - 1], body[|body| - 1];
      Minted(cfg, pm, sid, trie, init) + (if Mints(cfg, pm, sid, ExecBody(cfg, pm, sid, trie, init), tx) then tx.value else 0)
  }

  /** Transaction number `p` of the block is worth something and mints. */
  ghost predicate MintsAt(cfg: Config, pm: PartitionMap, sid: nat, trie: Trie, body: seq<Tx>, p: nat)
    requires cfg.shardNum > 0
  {
    p < |body| && body[p].value > 0 && Mints(cfg, pm, sid, ExecBody(cfg, pm, sid, trie, body[..p]), body[p])
  }

  ghost predicate SomeMints(cfg: Config, pm: PartitionMap, sid: nat, trie: Trie, body: seq<Tx>)
    requires cfg.shardNum > 0
  {
    exists p: nat :: MintsAt(cfg, pm, sid, trie, body, p)
  }

  lemma MintsEarlier(cfg: Config, pm: PartitionMap, sid: nat, trie: Trie, body: seq<Tx>, p: nat)
    requires cfg.shardNum > 0 && p < |body| - 1
    ensures MintsAt(cfg, pm, sid, trie, body, p) <==> MintsAt(cfg, pm, sid, trie, body[..|body| - 1], p)
  {
    assert body[..|body| - 1][..p] == body[..p];
  }

  lemma {:induction false} MintedIff(cfg: Config, pm: PartitionMap, sid: nat, trie: Trie, body: seq<Tx>)
    requires cfg.shardNum > 0
    ensures Minted(cfg, pm, sid, trie, body) > 0 <==> SomeMints(cfg, pm, sid, trie, body)
  {
    if body != [] {
      var init, n := body[..|body| - 1], |body| - 1;
      MintedIff(cfg, pm, sid, trie, init);
      assert Minted(cfg, pm, sid, trie, body) > 0 <==> Minted(cfg, pm, sid, trie, init) > 0 || MintsAt(cfg, pm, sid, trie, body, n);
      forall p: nat | p < n
        ensures MintsAt(cfg, pm, sid, trie, body, p) <==> MintsAt(cfg, pm, sid, trie, init, p)
      {
        MintsEarlier(cfg, pm, sid, trie, body, p);
      }
      MintsSplit(cfg, pm, sid, trie, body);
    }
  }

  lemma MintsSplit(cfg: Config, pm: PartitionMap, sid: nat, trie: Trie, body: seq<Tx>)
    requires cfg.shardNum > 0 && body != []
    requires forall p: nat :: p < |body| - 1 ==> (MintsAt(cfg, pm, sid, trie, body, p) <==> MintsAt(cfg, pm, sid, trie, body[..|body| - 1], p))
    ensures SomeMints(cfg, pm, sid, trie, body)
      <==> SomeMints(cfg, pm, sid, trie, body[..|body| - 1]) || MintsAt(cfg, pm, sid, trie, body, |body| - 1)
  {
    if SomeMints(cfg, pm, sid, trie, body) {
      var p: nat :| MintsAt(cfg, pm, sid, trie, body, p);
      assert p < |body| - 1 ==> MintsAt(cfg, pm, sid, trie, body[..|body| - 1], p);
    }
    if SomeMints(cfg, pm, sid, trie, body[..|body| - 1]) {
      var p: nat :| MintsAt(cfg, pm, sid, trie, body[..|body| - 1], p);
      assert MintsAt(cfg, pm, sid, trie, body, p);
    }
  }

  /** A funded block mints nothing. */
  lemma {:induction false} FundedMintsNothing(cfg: Config, pm: PartitionMap, sid: nat, trie: Trie, body: seq<Tx>)
    requires cfg.shardNum > 0 && PlacedAt(cfg, pm, sid, body) && Funded(cfg, pm, sid, trie, body)
    ensures Minted(cfg, pm, sid, trie, body) == 0
  {
    if body != [] {
      FundedMintsNothing(cfg, pm, sid, trie, body[..|body| - 1]);
      if !body[|body| - 1].relayed {
        CanPay(cfg, pm, sid, trie, body);
      }
    }
  }

  // ----- a block

  /** Of the listed accounts those that live in one shard. */
  function Locals(cfg: Config, pm: PartitionMap, sid: nat, accounts: seq<Address>): seq<Address>
    requires cfg.shardNum > 0
  {
    if accounts == [] then []
    else
      var a, before := accounts[|accounts| - 1], Locals(cfg, pm, sid, accounts[..|accounts| - 1]);
      if Home(pm, a, cfg.shardNum) == sid then before + [a] else before
  }

  lemma {:induction false} LocalsAre(cfg: Config, pm: PartitionMap, sid: nat, accounts: seq<Address>)
    requires cfg.shardNum > 0 && Distinct(accounts)
    ensures Distinct(Locals(cfg, pm, sid, accounts))
    ensures forall a :: a in Locals(cfg, pm, sid, accounts) <==> a in accounts && Home(pm, a, cfg.shardNum) == sid
  {
    if accounts != [] {
      var init, a := accounts[..|accounts| - 1], accounts[|accounts| - 1];
      LocalsAre(cfg, pm, sid, init);
      assert accounts == init + [a];
    }
  }

  /** What the local accounts gain in a block, less what was under way to them, plus what the block sends on, was minted. */
  lemma {:induction false} BodyExcess(cfg: Config, pm: PartitionMap, sid: nat, trie: Trie, body: seq<Tx>, accounts: seq<Address>)
    requires cfg.shardNum > 0 && PlacedAt(cfg, pm, sid, body) && Distinct(accounts) && AllKnown(accounts, body)
    ensures var locals := Locals(cfg, pm, sid, accounts);
      Excess(cfg, ExecBody(cfg, pm, sid, trie, body), locals) - Sum(InTransit(), body) + Sum(Carried(cfg, pm, sid, InTransit()), body)
        == Excess(cfg, trie, locals) + Minted(cfg, pm, sid, trie, body)
  {
    if body != [] {
      var init, tx := body[..|body| - 1], body[|body| - 1];
      BodyExcess(cfg, pm, sid, trie, init, accounts);
      LocalsAre(cfg, pm, sid, accounts);
      assert Known(accounts, tx);
      ExecExcess(cfg, pm, sid, ExecBody(cfg, pm, sid, trie, init), |body| - 1, tx, Locals(cfg, pm, sid, accounts));
      OneInTransit(cfg, pm, sid, tx);
    }
  }

  lemma OneInTransit(cfg: Config, pm: PartitionMap, sid: nat, tx: Tx)
    requires cfg.shardNum > 0 && Home(pm, Key(tx), cfg.shardNum) == sid
    ensures Carried(cfg, pm, sid, InTransit())(tx) == (if Leaves(cfg, pm, sid, tx) then tx.value else 0)
    ensures tx.relayed ==> !Leaves(cfg, pm, sid, tx)
  {
    assert InTransit()(Marked(tx)) == tx.value;
  }

  /** A block changes the holdings of the accounts that live there, and no others. */
  lemma BlockView(cfg: Config, y: System, s: nat, size: nat, a: Address)
    requires BlockReady(cfg, y, s, size)
    ensures var pm, trie := MapOf(y, s), y.nodes[s].trie;
      View(cfg, CommitBlock(cfg, y, s, size), a).balance - View(cfg, y, a).balance
        == if Home(pm, a, cfg.shardNum) == s then Balance(cfg, ExecBody(cfg, pm, s, trie, BodyOf(y, s, size)), a) - Balance(cfg, trie, a)
           else 0
  {
    BodyPlaced(cfg, y, s, size);
    if Home(MapOf(y, s), a, cfg.shardNum) != s {
      BodyElsewhere(cfg, MapOf(y, s), s, y.nodes[s].trie, BodyOf(y, s, size), a);
    }
  }

  lemma {:induction false} BlockHoldings(cfg: Config, y: System, s: nat, size: nat, accounts: seq<Address>)
    requires BlockReady(cfg, y, s, size)
    ensures var pm, trie := MapOf(y, s), y.nodes[s].trie; var locals := Locals(cfg, pm, s, accounts);
      Holdings(cfg, CommitBlock(cfg, y, s, size), accounts) - Holdings(cfg, y, accounts)
        == Excess(cfg, ExecBody(cfg, pm, s, trie, BodyOf(y, s, size)), locals) - Excess(cfg, trie, locals)
  {
    if accounts != [] {
      BlockHoldings(cfg, y, s, size, accounts[..|accounts| - 1]);
      BlockView(cfg, y, s, size, accounts[|accounts| - 1]);
    }
  }

  /** All the listed accounts hold, and what is under way. */
  function Supply(cfg: Config, y: System, accounts: seq<Address>): int
    requires cfg.shardNum > 0
  {
    Holdings(cfg, y, accounts) + Everywhere(InTransit(), y)
  }

  lemma BlockSupply(cfg: Config, y: System, s: nat, size: nat, accounts: seq<Address>)
    requires BlockReady(cfg, y, s, size) && Distinct(accounts) && AllKnown(accounts, BodyOf(y, s, size))
    ensures Supply(cfg, CommitBlock(cfg, y, s, size), accounts)
      == Supply(cfg, y, accounts) + Minted(cfg, MapOf(y, s), s, y.nodes[s].trie, BodyOf(y, s, size))
  {
    BodyPlaced(cfg, y, s, size);
    BlockHoldings(cfg, y, s, size, accounts);
    BlockMoves(cfg, InTransit(), y, s, size);
    BodyExcess(cfg, MapOf(y, s), s, y.nodes[s].trie, BodyOf(y, s, size), accounts);
  }

  lemma {:induction false} SameHoldings(cfg: Config, y: System, y': System, accounts: seq<Address>)
    requires cfg.shardNum > 0 && SameViews(cfg, y, y')
    ensures Holdings(cfg, y', accounts) == Holdings(cfg, y, accounts)
  {
    if accounts != [] {
      SameHoldings(cfg, y, y', accounts[..|accounts| - 1]);
      assert View(cfg, y', accounts[|accounts| - 1]) == View(cfg, y, accounts[|accounts| - 1]);
    }
  }

  // ----- no transaction names anyone outside the data set

  function Stranger(accounts: seq<Address>): Tx -> int {
    (tx: Tx) => Bit(!(tx.sender in accounts && tx.recipient in accounts))
  }

  lemma BlockStrangers(cfg: Config, y: System, s: nat, size: nat, accounts: seq<Address>)
    requires BlockReady(cfg, y, s, size)
    ensures Everywhere(Stranger(accounts), CommitBlock(cfg, y, s, size)) <= Everywhere(Stranger(accounts), y)
  {
    var f, body := Stranger(accounts), BodyOf(y, s, size);
    BlockMoves(cfg, f, y, s, size);
    forall i | 0 <= i < |body|
      ensures Carried(cfg, MapOf(y, s), s, f)(body[i]) <= f(body[i])
    {
      assert f(Marked(body[i])) == f(body[i]);
    }
    SumMonotone(Carried(cfg, MapOf(y, s), s, f), f, body);
  }

  lemma StrangersStep(cfg: Config, data: seq<Tx>, x: System, e: Event, y: System, accounts: seq<Address>)
    requires Core(cfg, data, x) && Follows(cfg, x, e, y)
    ensures Everywhere(Stranger(accounts), y) <= Everywhere(Stranger(accounts), x)
  {
    match e
    case Block(s, size) => BlockStrangers(cfg, x, s, size, accounts);
    case _ => OtherKeeps(cfg, data, x, e);
  }

  lemma {:induction false} NoStrangers(cfg: Config, data: seq<Tx>, states: seq<System>, events: seq<Event>, k: nat, accounts: seq<Address>)
    requires cfg.shardNum > 0 && RawData(data) && Run(cfg, data, states, events) && k < |states| && AllKnown(accounts, data)
    ensures Everywhere(Stranger(accounts), states[k]) <= 0
  {
    if k == 0 {
      forall i | 0 <= i < |data|
        ensures Stranger(accounts)(data[i]) == 0
      {
        assert Known(accounts, data[i]);
      }
      SumZero(Stranger(accounts), data);
      SumZero(InPool(Stranger(accounts)), states[0].nodes);
    } else {
      NoStrangers(cfg, data, states, events, k - 1, accounts);
      RunKeeps(cfg, data, states, events, k - 1);
      StrangersStep(cfg, data, states[k - 1], events[k - 1], states[k], accounts);
    }
  }

  lemma WeightlessKnown(accounts: seq<Address>, txs: seq<Tx>)
    requires Sum(Stranger(accounts), txs) == 0
    ensures AllKnown(accounts, txs)
  {
    forall i | 0 <= i < |txs|
      ensures Known(accounts, txs[i])
    {
      SumBoundsElement(Stranger(accounts), txs, i);
    }
  }

  // ----- whole runs

  /** What the step from state `y` mints. */
  function MintedIn(cfg: Config, y: System, e: Event): nat
    requires cfg.shardNum > 0
  {
    if e.Block? && e.s < |y.nodes| && e.size <= |y.nodes[e.s].pool|
    then Minted(cfg, MapOf(y, e.s), e.s, y.nodes[e.s].trie, y.nodes[e.s].pool[..e.size])
    else 0
  }

  function MintedBefore(cfg: Config, states: seq<System>, events: seq<Event>, k: nat): nat
    requires cfg.shardNum > 0 && k <= |events| <= |states|
  {
    if k == 0 then 0 else MintedBefore(cfg, states, events, k - 1) + MintedIn(cfg, states[k - 1], events[k - 1])
  }

  lemma PoolKnown(y: System, s: nat, accounts: seq<Address>)
    requires s < |y.nodes| && Everywhere(Stranger(accounts), y) <= 0
    ensures AllKnown(accounts, y.nodes[s].pool)
  {
    WeightlessParts(Stranger(accounts), y);
    WeightlessKnown(accounts, y.nodes[s].pool);
  }

  lemma StepSupply(cfg: Config, data: seq<Tx>, x: System, e: Event, y: System, accounts: seq<Address>)
    requires Core(cfg, data, x) && Follows(cfg, x, e, y) && Distinct(accounts) && Everywhere(Stranger(accounts), x) <= 0
    ensures Supply(cfg, y, accounts) == Supply(cfg, x, accounts) + MintedIn(cfg, x, e)
  {
    if e.Block? {
      PoolKnown(x, e.s, accounts);
      BlockSupply(cfg, x, e.s, e.size, accounts);
    } else {
      OtherSupply(cfg, data, x, e, y, accounts);
    }
  }

  lemma OtherSupply(cfg: Config, data: seq<Tx>, x: System, e: Event, y: System, accounts: seq<Address>)
    requires Core(cfg, data, x) && Follows(cfg, x, e, y) && !e.Block?
    ensures Supply(cfg, y, accounts) == Supply(cfg, x, accounts)
  {
    OtherKeeps(cfg, data, x, e);
    SameSupply(cfg, x, y, accounts);
  }

  lemma SameSupply(cfg: Config, y: System, y': System, accounts: seq<Address>)
    requires cfg.shardNum > 0 && SameViews(cfg, y, y') && SameWeights(y, y')
    ensures Supply(cfg, y', accounts) == Supply(cfg, y, accounts)
  {
    SameHoldings(cfg, y, y', accounts);
    assert Everywhere(InTransit(), y') == Everywhere(InTransit(), y);
  }

  lemma NextSupply(cfg: Config, data: seq<Tx>, states: seq<System>, events: seq<Event>, i: nat, accounts: seq<Address>)
    requires cfg.shardNum > 0 && RawData(data) && Run(cfg, data, states, events) && i < |events|
    requires Distinct(accounts) && AllKnown(accounts, data)
    ensures Supply(cfg, states[i + 1], accounts) == Supply(cfg, states[i], accounts) + MintedIn(cfg, states[i], events[i])
  {
    RunKeeps(cfg, data, states, events, i);
    NoStrangers(cfg, data, states, events, i, accounts);
    StepSupply(cfg, data, states[i], events[i], states[i + 1], accounts);
  }

  lemma {:induction false} StartSupply(cfg: Config, data: seq<Tx>, accounts: seq<Address>)
    requires cfg.shardNum > 0
    ensures Holdings(cfg, Start(cfg, data), accounts) == |accounts| * cfg.initBalance
  {
    if accounts != [] {
      StartSupply(cfg, data, accounts[..|accounts| - 1]);
      assert |accounts| * cfg.initBalance == (|accounts| - 1) * cfg.initBalance + cfg.initBalance;
    }
  }

  lemma NothingInTransit(cfg: Config, data: seq<Tx>)
    requires RawData(data)
    ensures Everywhere(InTransit(), Start(cfg, data)) == 0
  {
    forall i | 0 <= i < |data|
      ensures InTransit()(data[i]) == 0
    {
      assert Raw(data[i]);
    }
    SumZero(InTransit(), data);
    SumZero(InPool(InTransit()), Start(cfg, data).nodes);
  }

  /**
   In every state of every run, in the middle of relays and migrations and for every data set: balances plus
   relays under way are what the accounts started with plus what was minted.
   */
  lemma {:induction false} SupplyAccount(cfg: Config, data: seq<Tx>, states: seq<System>, events: seq<Event>, k: nat, accounts: seq<Address>)
    requires cfg.shardNum > 0 && RawData(data) && Run(cfg, data, states, events) && k < |states|
    requires Distinct(accounts) && AllKnown(accounts, data)
    ensures Supply(cfg, states[k], accounts) == |accounts| * cfg.initBalance + MintedBefore(cfg, states, events, k)
  {
    if k == 0 {
      StartSupply(cfg, data, accounts);
      NothingInTransit(cfg, data);
    } else {
      SupplyAccount(cfg, data, states, events, k - 1, accounts);
      NextSupply(cfg, data, states, events, k - 1, accounts);
    }
  }

  /** Some block committed before state `k` held a transaction of value that left its shard unpaid. */
  ghost predicate SomeBlockMints(cfg: Config, states: seq<System>, events: seq<Event>, k: nat)
    requires cfg.shardNum > 0 && k <= |events| <= |states|
  {
    exists i :: 0 <= i < k && BlockMints(cfg, states[i], events[i])
  }

  ghost predicate BlockMints(cfg: Config, y: System, e: Event)
    requires cfg.shardNum > 0
  {
    && e.Block? && e.s < |y.nodes| && e.size <= |y.nodes[e.s].pool|
    && SomeMints(cfg, MapOf(y, e.s), e.s, y.nodes[e.s].trie, y.nodes[e.s].pool[..e.size])
  }

  lemma {:induction false} MintedBeforeIff(cfg: Config, states: seq<System>, events: seq<Event>, k: nat)
    requires cfg.shardNum > 0 && k <= |events| <= |states|
    ensures MintedBefore(cfg, states, events, k) > 0 <==> SomeBlockMints(cfg, states, events, k)
  {
    if k > 0 {
      MintedBeforeIff(cfg, states, events, k - 1);
      var y, e := states[k - 1], events[k - 1];
      if e.Block? && e.s < |y.nodes| && e.size <= |y.nodes[e.s].pool| {
        MintedIff(cfg, MapOf(y, e.s), e.s, y.nodes[e.s].trie, y.nodes[e.s].pool[..e.size]);
      }
      assert MintedIn(cfg, y, e) > 0 <==> BlockMints(cfg, y, e);
    }
  }

  /** The supply is what it was at the start if and only if no block let a transaction of value leave unpaid. */
  lemma SupplyConservedIff(cfg: Config, data: seq<Tx>, states: seq<System>, events: seq<Event>, k: nat, accounts: seq<Address>)
    requires cfg.shardNum > 0 && RawData(data) && Run(cfg, data, states, events) && k < |states|
    requires Distinct(accounts) && AllKnown(accounts, data)
    ensures Supply(cfg, states[k], accounts) == |accounts| * cfg.initBalance <==> !SomeBlockMints(cfg, states, events, k)
  {
    SupplyAccount(cfg, data, states, events, k, accounts);
    MintedBeforeIff(cfg, states, events, k);
  }

  lemma {:induction false} NothingMinted(cfg: Config, states: seq<System>, events: seq<Event>, k: nat)
    requires cfg.shardNum > 0 && k <= |events| <= |states|
    requires forall i {:trigger MintedIn(cfg, states[i], events[i])} :: 0 <= i < k ==> MintedIn(cfg, states[i], events[i]) == 0
    ensures MintedBefore(cfg, states, events, k) == 0
  {
    if k > 0 {
      NothingMinted(cfg, states, events, k - 1);
    }
  }

  lemma CoveredMintsNothing(cfg: Config, data: seq<Tx>, states: seq<System>, events: seq<Event>, k: nat)
    requires cfg.shardNum > 0 && Covered(cfg, data) && Run(cfg, data, states, events) && k < |states|
    ensures MintedBefore(cfg, states, events, k) == 0
  {
    forall i | 0 <= i < k
      ensures MintedIn(cfg, states[i], events[i]) == 0
    {
      CoveredAt(cfg, data, states, events, i);
    }
    NothingMinted(cfg, states, events, k);
  }

  lemma CoveredAt(cfg: Config, data: seq<Tx>, states: seq<System>, events: seq<Event>, i: nat)
    requires cfg.shardNum > 0 && Covered(cfg, data) && Run(cfg, data, states, events) && i < |events|
    ensures MintedIn(cfg, states[i], events[i]) == 0
  {
    RunKeeps(cfg, data, states, events, i);
    CoveredStep(cfg, data, states[i], events[i], states[i + 1]);
  }

  lemma CoveredStep(cfg: Config, data: seq<Tx>, x: System, e: Event, y: System)
    requires Inv(cfg, data, x) && Covered(cfg, data) && Follows(cfg, x, e, y)
    ensures MintedIn(cfg, x, e) == 0
  {
    if e.Block? {
      CoveredBlock(cfg, data, x, e.s, e.size);
    }
  }

  lemma CoveredBlock(cfg: Config, data: seq<Tx>, y: System, s: nat, size: nat)
    requires BlockReady(cfg, y, s, size) && Money(cfg, data, y) && Covered(cfg, data)
    ensures Minted(cfg, MapOf(y, s), s, y.nodes[s].trie, BodyOf(y, s, size)) == 0
  {
    BodyPlaced(cfg, y, s, size);
    BlockFunded(cfg, data, y, s, size);
    FundedMintsNothing(cfg, MapOf(y, s), s, y.nodes[s].trie, BodyOf(y, s, size));
  }

  /** A data set in which nobody overspends never changes the supply. */
  lemma SupplyConserved(cfg: Config, data: seq<Tx>, states: seq<System>, events: seq<Event>, k: nat, accounts: seq<Address>)
    requires cfg.shardNum > 0 && Covered(cfg, data) && Run(cfg, data, states, events) && k < |states|
    requires Distinct(accounts) && AllKnown(accounts, data)
    ensures Supply(cfg, states[k], accounts) == |accounts| * cfg.initBalance
  {
    SupplyAccount(cfg, data, states, events, k, accounts);
    CoveredMintsNothing(cfg, data, states, events, k);
  }
}
