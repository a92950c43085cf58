/**
 Executing a block on one shard's state trie (chain/blockchain.go) and handing its cross-shard
 transactions over to other shards (consensus_shard/pbft_all/pbftInside_module.go, toolFuncs.go,
 core/txpool.go). The trie is a map from addresses to account states.
 */
module Ledger {
  import opened Accounts
  import opened Sums

  datatype Tx = Tx(sender: Address, recipient: Address, value: nat, relayed: bool, hasBroker: bool, hasBridge: bool, nonce: nat)

  datatype AccountState = AccountState(nonce: nat, balance: int)

  type Trie = map<Address, AccountState>
  type PartitionMap = map<Address, nat>

  /** Number of shards and the balance of an account nobody has touched yet. */
  datatype Config = Config(shardNum: nat, initBalance: nat)

  /** The stored state, or a fresh one with the given nonce. */
  function StateAt(cfg: Config, trie: Trie, a: Address, nonce: nat): AccountState {
    if a in trie then trie[a] else AccountState(nonce, cfg.initBalance)
  }

  function Balance(cfg: Config, trie: Trie, a: Address): int {
    StateAt(cfg, trie, a, 0).balance
  }

  function Changed(cfg: Config, trie: Trie, a: Address, nonce: nat, delta: int): Trie {
    var st := StateAt(cfg, trie, a, nonce);
    trie[a := st.(balance := st.balance + delta)]
  }

  // ----- one transaction, one block

  /** Transaction number `i` of a block: debit a local sender (or skip the whole transaction), credit a local recipient. */
  function Exec(cfg: Config, pm: PartitionMap, sid: nat, trie: Trie, i: nat, tx: Tx): Trie
    requires cfg.shardNum > 0
  {
    var everywhere := tx.hasBroker || tx.hasBridge;
    var debits := !tx.relayed && (Home(pm, tx.sender, cfg.shardNum) == sid || everywhere);
    if debits && Balance(cfg, trie, tx.sender) < tx.value then trie
    else
      var t := if debits then Changed(cfg, trie, tx.sender, i, 0 - tx.value as int) else trie;
      if Home(pm, tx.recipient, cfg.shardNum) == sid || everywhere then Changed(cfg, t, tx.recipient, i, tx.value) else t
  }

  function ExecBody(cfg: Config, pm: PartitionMap, sid: nat, trie: Trie, body: seq<Tx>): Trie
    requires cfg.shardNum > 0
  {
    if body == [] then trie
    else Exec(cfg, pm, sid, ExecBody(cfg, pm, sid, trie, body[..|body| - 1]), |body| - 1, body[|body| - 1])
  }

  /** The account whose shard must hold the transaction: the sender's first, then the recipient's. */
  function Key(tx: Tx): Address {
    if tx.relayed then tx.recipient else tx.sender
  }

  ghost predicate Plain(tx: Tx) { !tx.hasBroker && !tx.hasBridge }

  ghost predicate PlacedAt(cfg: Config, pm: PartitionMap, sid: nat, txs: seq<Tx>)
    requires cfg.shardNum > 0
  {
    forall i :: 0 <= i < |txs| ==> Plain(txs[i]) && Home(pm, Key(txs[i]), cfg.shardNum) == sid
  }

  /** What a transaction will still do to account `a`. */
  function EffectOn(a: Address): Tx -> int {
    (tx: Tx) => (if tx.recipient == a then tx.value else 0) - (if !tx.relayed && tx.sender == a then tx.value else 0)
  }

  /** What a transaction will still take from account `a`. */
  function OwedBy(a: Address): Tx -> int {
    (tx: Tx) => if !tx.relayed && tx.sender == a then tx.value else 0
  }

  /** The accounts of shard `sid` can pay for everything the block asks of them. */
  ghost predicate Funded(cfg: Config, pm: PartitionMap, sid: nat, trie: Trie, body: seq<Tx>)
    requires cfg.shardNum > 0
  {
    forall a {:trigger OwedBy(a)} :: Home(pm, a, cfg.shardNum) == sid ==> Balance(cfg, trie, a) >= Sum(OwedBy(a), body)
  }

  lemma ExecOne(cfg: Config, pm: PartitionMap, sid: nat, trie: Trie, i: nat, tx: Tx, a: Address)
    requires cfg.shardNum > 0 && Plain(tx) && Home(pm, Key(tx), cfg.shardNum) == sid
    requires !tx.relayed ==> Balance(cfg, trie, tx.sender) >= tx.value
    ensures Balance(cfg, Exec(cfg, pm, sid, trie, i, tx), a)
      == Balance(cfg, trie, a) + (if Home(pm, a, cfg.shardNum) == sid then EffectOn(a)(tx) else 0)
  {
  }

  lemma {:induction false} BodyElsewhere(cfg: Config, pm: PartitionMap, sid: nat, trie: Trie, body: seq<Tx>, a: Address)
    requires cfg.shardNum > 0 && PlacedAt(cfg, pm, sid, body) && Home(pm, a, cfg.shardNum) != sid
    ensures var t := ExecBody(cfg, pm, sid, trie, body); (a in t <==> a in trie) && (a in trie ==> t[a] == trie[a])
  {
    if body != [] {
      var init := body[..|body| - 1];
      BodyElsewhere(cfg, pm, sid, trie, init, a);
    }
  }

  /** A funded block skips nothing: each local account gains or loses exactly what the block says. */
  lemma {:induction false} BodyBalances(cfg: Config, pm: PartitionMap, sid: nat, trie: Trie, body: seq<Tx>, a: Address)
    requires cfg.shardNum > 0 && PlacedAt(cfg, pm, sid, body) && Funded(cfg, pm, sid, trie, body)
    requires Home(pm, a, cfg.shardNum) == sid
    ensures Balance(cfg, ExecBody(cfg, pm, sid, trie, body), a) == Balance(cfg, trie, a) + Sum(EffectOn(a), body)
    decreases |body|, 1
  {
    if body != [] {
      var init, tx := body[..|body| - 1], body[|body| - 1];
      BodyBalances(cfg, pm, sid, trie, init, a);
      if !tx.relayed {
        CanPay(cfg, pm, sid, trie, body);
      }
      ExecOne(cfg, pm, sid, ExecBody(cfg, pm, sid, trie, init), |body| - 1, tx, a);
    }
  }

  lemma {:induction false} CanPay(cfg: Config, pm: PartitionMap, sid: nat, trie: Trie, body: seq<Tx>)
    requires cfg.shardNum > 0 && body != [] && PlacedAt(cfg, pm, sid, body) && Funded(cfg, pm, sid, trie, body)
    requires !body[|body| - 1].relayed
    ensures var tx := body[|body| - 1];
      Balance(cfg, ExecBody(cfg, pm, sid, trie, body[..|body| - 1]), tx.sender) >= tx.value
    decreases |body|, 0
  {
    var init, tx := body[..|body| - 1], body[|body| - 1];
    BodyBalances(cfg, pm, sid, trie, init, tx.sender);
    assert Balance(cfg, trie, tx.sender) >= Sum(OwedBy(tx.sender), body);
    EffectAtLeast(tx.sender, init);
  }

  lemma {:induction false} EffectAtLeast(a: Address, txs: seq<Tx>)
    ensures Sum(EffectOn(a), txs) >= -Sum(OwedBy(a), txs)
  {
    if txs != [] {
      EffectAtLeast(a, txs[..|txs| - 1]);
    }
  }

  // ----- any transaction, of a broker or bridge or neither, wherever it is executed

  predicate DebitedHere(cfg: Config, pm: PartitionMap, sid: nat, tx: Tx)
    requires cfg.shardNum > 0
  {
    !tx.relayed && (Home(pm, tx.sender, cfg.shardNum) == sid || tx.hasBroker || tx.hasBridge)
  }

  predicate CreditedHere(cfg: Config, pm: PartitionMap, sid: nat, tx: Tx)
    requires cfg.shardNum > 0
  {
    Home(pm, tx.recipient, cfg.shardNum) == sid || tx.hasBroker || tx.hasBridge
  }

  /** The shard must debit the sender, who cannot pay. */
  predicate Refused(cfg: Config, pm: PartitionMap, sid: nat, trie: Trie, tx: Tx)
    requires cfg.shardNum > 0
  {
    DebitedHere(cfg, pm, sid, tx) && Balance(cfg, trie, tx.sender) < tx.value
  }

  /** What account `a` receives here from a transaction, less what it sends. */
  function ShareOf(cfg: Config, pm: PartitionMap, sid: nat, a: Address): Tx -> int
    requires cfg.shardNum > 0
  {
    (tx: Tx) => (if CreditedHere(cfg, pm, sid, tx) && tx.recipient == a then tx.value else 0)
              - (if DebitedHere(cfg, pm, sid, tx) && tx.sender == a then tx.value else 0)
  }

  /** A refused transaction changes nothing; any other changes every balance by that account's share. */
  lemma ExecShares(cfg: Config, pm: PartitionMap, sid: nat, trie: Trie, i: nat, tx: Tx, a: Address)
    requires cfg.shardNum > 0
    ensures var t := Exec(cfg, pm, sid, trie, i, tx);
      if Refused(cfg, pm, sid, trie, tx) then t == trie
      else
        && Balance(cfg, t, a) == Balance(cfg, trie, a) + ShareOf(cfg, pm, sid, a)(tx)
        && (a in t <==> a in trie || (DebitedHere(cfg, pm, sid, tx) && tx.sender == a) || (CreditedHere(cfg, pm, sid, tx) && tx.recipient == a))
        && (a in trie ==> t[a].nonce == trie[a].nonce) && (a in t && a !in trie ==> t[a].nonce == i)
  {
  }

  /** The transactions of a block that are not refused, each judged by the trie it meets. */
  function Paid(cfg: Config, pm: PartitionMap, sid: nat, trie: Trie, body: seq<Tx>): seq<Tx>
    requires cfg.shardNum > 0
  {
    if body == [] then []
    else
      var init, tx := body[..|body| - 1], body[|body| - 1];
      var before := Paid(cfg, pm, sid, trie, init);
      if Refused(cfg, pm, sid, ExecBody(cfg, pm, sid, trie, init), tx) then before else before + [tx]
  }

  /** Any block changes any account by its shares of what was paid. */
  lemma {:induction false} BodyShares(cfg: Config, pm: PartitionMap, sid: nat, trie: Trie, body: seq<Tx>, a: Address)
    requires cfg.shardNum > 0
    ensures Balance(cfg, ExecBody(cfg, pm, sid, trie, body), a)
      == Balance(cfg, trie, a) + Sum(ShareOf(cfg, pm, sid, a), Paid(cfg, pm, sid, trie, body))
  {
    if body != [] {
      var init, tx := body[..|body| - 1], body[|body| - 1];
      BodyShares(cfg, pm, sid, trie, init, a);
      ExecShares(cfg, pm, sid, ExecBody(cfg, pm, sid, trie, init), |body| - 1, tx, a);
      assert (Paid(cfg, pm, sid, trie, init) + [tx])[..|Paid(cfg, pm, sid, trie, init)|] == Paid(cfg, pm, sid, trie, init);
    }
  }

  function DebitOf(cfg: Config, pm: PartitionMap, sid: nat, a: Address): Tx -> int
    requires cfg.shardNum > 0
  {
    (tx: Tx) => if DebitedHere(cfg, pm, sid, tx) && tx.sender == a then tx.value else 0
  }

  /** Every account has what the block takes from it here. */
  ghost predicate Afforded(cfg: Config, pm: PartitionMap, sid: nat, trie: Trie, body: seq<Tx>)
    requires cfg.shardNum > 0
  {
    forall a {:trigger DebitOf(cfg, pm, sid, a)} :: Balance(cfg, trie, a) >= Sum(DebitOf(cfg, pm, sid, a), body)
  }

  lemma {:induction false} DebitsBound(cfg: Config, pm: PartitionMap, sid: nat, a: Address, txs: seq<Tx>)
    requires cfg.shardNum > 0
    ensures Sum(ShareOf(cfg, pm, sid, a), txs) >= -Sum(DebitOf(cfg, pm, sid, a), txs) && Sum(DebitOf(cfg, pm, sid, a), txs) >= 0
  {
    if txs != [] {
      DebitsBound(cfg, pm, sid, a, txs[..|txs| - 1]);
    }
  }

  lemma AffordedBefore(cfg: Config, pm: PartitionMap, sid: nat, trie: Trie, body: seq<Tx>)
    requires cfg.shardNum > 0 && body != [] && Afforded(cfg, pm, sid, trie, body)
    ensures Afforded(cfg, pm, sid, trie, body[..|body| - 1])
  {
    forall a
      ensures Balance(cfg, trie, a) >= Sum(DebitOf(cfg, pm, sid, a), body[..|body| - 1])
    {
      assert Balance(cfg, trie, a) >= Sum(DebitOf(cfg, pm, sid, a), body);
    }
  }

  /** A block that all can afford is paid in full. */
  lemma {:induction false} AffordedIsPaid(cfg: Config, pm: PartitionMap, sid: nat, trie: Trie, body: seq<Tx>)
    requires cfg.shardNum > 0 && Afforded(cfg, pm, sid, trie, body)
    ensures Paid(cfg, pm, sid, trie, body) == body
  {
    if body != [] {
      AffordedBefore(cfg, pm, sid, trie, body);
      AffordedIsPaid(cfg, pm, sid, trie, body[..|body| - 1]);
      LastIsPaid(cfg, pm, sid, trie, body);
    }
  }

  lemma LastIsPaid(cfg: Config, pm: PartitionMap, sid: nat, trie: Trie, body: seq<Tx>)
    requires cfg.shardNum > 0 && body != [] && Afforded(cfg, pm, sid, trie, body)
    requires Paid(cfg, pm, sid, trie, body[..|body| - 1]) == body[..|body| - 1]
    ensures !Refused(cfg, pm, sid, ExecBody(cfg, pm, sid, trie, body[..|body| - 1]), body[|body| - 1])
  {
    var init, tx := body[..|body| - 1], body[|body| - 1];
    BodyShares(cfg, pm, sid, trie, init, tx.sender);
    DebitsBound(cfg, pm, sid, tx.sender, init);
    assert Balance(cfg, trie, tx.sender) >= Sum(DebitOf(cfg, pm, sid, tx.sender), body);
  }

  // ----- handing over

  datatype Relay = Relay(from: nat, to: nat, txs: seq<Tx>)

  function Leaves(cfg: Config, pm: PartitionMap, sid: nat, tx: Tx): bool
    requires cfg.shardNum > 0
  {
    Home(pm, tx.recipient, cfg.shardNum) != sid
  }

  function Marked(tx: Tx): Tx { tx.(relayed := true) }

  /** The cross-shard transactions of a block for one destination, marked relayed, in block order. */
  function RelayTo(cfg: Config, pm: PartitionMap, body: seq<Tx>, dest: nat): seq<Tx>
    requires cfg.shardNum > 0
  {
    if body == [] then []
    else
      var tx, before := body[|body| - 1], RelayTo(cfg, pm, body[..|body| - 1], dest);
      if Home(pm, tx.recipient, cfg.shardNum) == dest then before + [Marked(tx)] else before
  }

  /** One relay message per other shard, empty or not. */
  function RelayMsgs(cfg: Config, pm: PartitionMap, sid: nat, body: seq<Tx>, hi: nat): seq<Relay>
    requires cfg.shardNum > 0
  {
    if hi == 0 then []
    else
      var before := RelayMsgs(cfg, pm, sid, body, hi - 1);
      if hi - 1 == sid then before else before + [Relay(sid, hi - 1, RelayTo(cfg, pm, body, hi - 1))]
  }

  /** The report to the supervisor: how many transactions finished here, left here, arrived here, and in which epoch. */
  datatype Report = Report(inner: nat, relay1: nat, relay2: nat, epoch: nat)

  /** Each transaction of a block counts once: it finishes, leaves, or arrives here. Without changes of the map the epoch is 0. */
  function ReportOf(cfg: Config, pm: PartitionMap, sid: nat, body: seq<Tx>): Report
    requires cfg.shardNum > 0
  {
    if body == [] then Report(0, 0, 0, 0)
    else
      var r, tx := ReportOf(cfg, pm, sid, body[..|body| - 1]), body[|body| - 1];
      if Leaves(cfg, pm, sid, tx) then r.(relay1 := r.relay1 + 1)
      else if tx.relayed then r.(relay2 := r.relay2 + 1)
      else r.(inner := r.inner + 1)
  }

  // ----- what execution does to all balances together

  /** No stored balance is below zero. */
  ghost predicate Solvent(trie: Trie) {
    forall a :: a in trie ==> trie[a].balance >= 0
  }

  lemma ExecSolvent(cfg: Config, pm: PartitionMap, sid: nat, trie: Trie, i: nat, tx: Tx)
    requires cfg.shardNum > 0 && Solvent(trie)
    ensures Solvent(Exec(cfg, pm, sid, trie, i, tx))
  {
  }

  /** Whatever its senders can afford, a block leaves no balance below zero. */
  lemma {:induction false} BodySolvent(cfg: Config, pm: PartitionMap, sid: nat, trie: Trie, body: seq<Tx>)
    requires cfg.shardNum > 0 && Solvent(trie)
    ensures Solvent(ExecBody(cfg, pm, sid, trie, body))
  {
    if body != [] {
      var init := body[..|body| - 1];
      BodySolvent(cfg, pm, sid, trie, init);
      ExecSolvent(cfg, pm, sid, ExecBody(cfg, pm, sid, trie, init), |body| - 1, body[|body| - 1]);
    }
  }

  /** What the listed accounts hold beyond the balance they started with. */
  function Excess(cfg: Config, trie: Trie, accounts: seq<Address>): int {
    if accounts == [] then 0
    else Excess(cfg, trie, accounts[..|accounts| - 1]) + Balance(cfg, trie, accounts[|accounts| - 1]) - cfg.initBalance
  }

  lemma {:induction false} ChangedExcess(cfg: Config, trie: Trie, a: Address, nonce: nat, delta: int, accounts: seq<Address>)
    requires Distinct(accounts)
    ensures Excess(cfg, Changed(cfg, trie, a, nonce, delta), accounts)
      == Excess(cfg, trie, accounts) + (if a in accounts then delta else 0)
  {
    if accounts != [] {
      var init, b := accounts[..|accounts| - 1], accounts[|accounts| - 1];
      ChangedExcess(cfg, trie, a, nonce, delta, init);
      assert accounts == init + [b];
    }
  }

  /** The debit of a transaction that its sender's shard executes but the sender cannot pay is skipped. */
  predicate Skipped(cfg: Config, trie: Trie, tx: Tx) {
    !tx.relayed && Balance(cfg, trie, tx.sender) < tx.value
  }

  /** A transaction whose two ends are both booked here: an inner one, or one of a bridge or broker. */
  ghost predicate BookedHere(cfg: Config, pm: PartitionMap, sid: nat, tx: Tx)
    requires cfg.shardNum > 0
  {
    && !tx.relayed
    && ((Home(pm, tx.sender, cfg.shardNum) == sid && Home(pm, tx.recipient, cfg.shardNum) == sid) || tx.hasBroker || tx.hasBridge)
  }

  /** Such transactions leave the sum over the trie as it is, paid or skipped. */
  lemma {:induction false} BookedHereKeepsTotal(cfg: Config, pm: PartitionMap, sid: nat, trie: Trie, body: seq<Tx>, accounts: seq<Address>)
    requires cfg.shardNum > 0 && Distinct(accounts)
    requires forall i :: 0 <= i < |body| ==> BookedHere(cfg, pm, sid, body[i]) && body[i].sender in accounts && body[i].recipient in accounts
    ensures Excess(cfg, ExecBody(cfg, pm, sid, trie, body), accounts) == Excess(cfg, trie, accounts)
  {
    if body != [] {
      var init, tx := body[..|body| - 1], body[|body| - 1];
      BookedHereKeepsTotal(cfg, pm, sid, trie, init, accounts);
      var t := ExecBody(cfg, pm, sid, trie, init);
      assert BookedHere(cfg, pm, sid, tx);
      ChangedExcess(cfg, t, tx.sender, |body| - 1, 0 - tx.value as int, accounts);
      ChangedExcess(cfg, Changed(cfg, t, tx.sender, |body| - 1, 0 - tx.value as int), tx.recipient, |body| - 1, tx.value, accounts);
    }
  }

  /** A transaction in its place changes the accounts of this shard by its debit, if not skipped, and its credit. */
  lemma ExecExcess(cfg: Config, pm: PartitionMap, sid: nat, trie: Trie, i: nat, tx: Tx, accounts: seq<Address>)
    requires cfg.shardNum > 0 && Plain(tx) && Home(pm, Key(tx), cfg.shardNum) == sid && Distinct(accounts)
    requires !tx.relayed ==> tx.sender in accounts
    requires tx.recipient in accounts <==> Home(pm, tx.recipient, cfg.shardNum) == sid
    ensures Excess(cfg, Exec(cfg, pm, sid, trie, i, tx), accounts) == Excess(cfg, trie, accounts)
      + (if Skipped(cfg, trie, tx) then 0
         else (if tx.relayed then 0 else 0 - tx.value as int) + (if Leaves(cfg, pm, sid, tx) then 0 else tx.value))
  {
    var t := if tx.relayed then trie else Changed(cfg, trie, tx.sender, i, 0 - tx.value as int);
    ChangedExcess(cfg, trie, tx.sender, i, 0 - tx.value as int, accounts);
    ChangedExcess(cfg, t, tx.recipient, i, tx.value, accounts);
  }

  /** What one transaction adds to all balances together, executed at its shard and, if it leaves, its relayed copy at the other. */
  function SupplyChange(cfg: Config, pm: PartitionMap, sid: nat, here: Trie, i: nat, there: Trie, j: nat, tx: Tx): int
    requires cfg.shardNum > 0
  {
    var t := Exec(cfg, pm, sid, here, i, tx);
    var sender := Balance(cfg, t, tx.sender) - Balance(cfg, here, tx.sender);
    var dest := Home(pm, tx.recipient, cfg.shardNum);
    var recipient :=
      if dest == sid then Balance(cfg, t, tx.recipient) - Balance(cfg, here, tx.recipient)
      else Balance(cfg, Exec(cfg, pm, dest, there, j, Marked(tx)), tx.recipient) - Balance(cfg, there, tx.recipient);
    sender + recipient
  }

  /**
   A skipped debit does not stop the hand-over, so a cross-shard transfer its sender cannot pay creates
   money; this is the only way a transfer between two accounts changes the supply.
   */
  lemma SupplyConservedIff(cfg: Config, pm: PartitionMap, sid: nat, here: Trie, i: nat, there: Trie, j: nat, tx: Tx)
    requires cfg.shardNum > 0 && Plain(tx) && !tx.relayed && tx.sender != tx.recipient
    requires Home(pm, tx.sender, cfg.shardNum) == sid
    ensures SupplyChange(cfg, pm, sid, here, i, there, j, tx) == 0
      <==> !Leaves(cfg, pm, sid, tx) || !Skipped(cfg, here, tx) || tx.value == 0
  {
    assert Changed(cfg, here, tx.sender, i, 0 - tx.value as int)[tx.sender].balance == Balance(cfg, here, tx.sender) - tx.value;
  }

  /** One hundred and one coins leave an account that holds one hundred, and none is debited. */
  lemma OverdraftMints()
    ensures var cfg := Config(2, 100);
      var tx := Tx(Address("0"), Address("1"), 101, false, false, false, 0);
      SupplyChange(cfg, map[Address("0") := 0, Address("1") := 1], 0, map[], 0, map[], 0, tx) == 101
  {
    assert Address("0").hex[0] == '0' && Address("1").hex[0] == '1';
  }

  // ----- the node

  function Listed(m: map<nat, seq<Tx>>, k: nat): seq<Tx> {
    if k in m then m[k] else []
  }

  /** The relay pool holds, for every other shard, what the block relays there. */
  ghost predicate RelayFiled(cfg: Config, pm: PartitionMap, sid: nat, body: seq<Tx>, pool: map<nat, seq<Tx>>)
    requires cfg.shardNum > 0
  {
    forall k: nat {:trigger Listed(pool, k)} :: k != sid ==> Listed(pool, k) == RelayTo(cfg, pm, body, k)
  }

  lemma FileOne(cfg: Config, pm: PartitionMap, sid: nat, body: seq<Tx>, i: nat, pool: map<nat, seq<Tx>>)
    requires cfg.shardNum > 0 && i < |body| && RelayFiled(cfg, pm, sid, body[..i], pool)
    ensures var tx, rsid := body[i], Home(pm, body[i].recipient, cfg.shardNum);
      RelayFiled(cfg, pm, sid, body[..i + 1],
                 if rsid != sid then pool[rsid := Listed(pool, rsid) + [tx.(relayed := true)]] else pool)
    ensures var r, tx := ReportOf(cfg, pm, sid, body[..i]), body[i];
      ReportOf(cfg, pm, sid, body[..i + 1]) ==
        if Leaves(cfg, pm, sid, tx) then r.(relay1 := r.relay1 + 1)
        else if tx.relayed then r.(relay2 := r.relay2 + 1)
        else r.(inner := r.inner + 1)
  {
    assert body[..i + 1][..i] == body[..i];
    var rsid := Home(pm, body[i].recipient, cfg.shardNum);
    var pool' := if rsid != sid then pool[rsid := Listed(pool, rsid) + [body[i].(relayed := true)]] else pool;
    forall k: nat | k != sid
      ensures Listed(pool', k) == RelayTo(cfg, pm, body[..i + 1], k)
    {
      assert Listed(pool, k) == RelayTo(cfg, pm, body[..i], k);
    }
  }

  class ShardNode {
    const cfg: Config
    const shardId: nat
    var partitionMap: PartitionMap
    var trie: Trie
    var txQueue: seq<Tx>
    var relayPool: map<nat, seq<Tx>>
    var sequenceID: nat
    var seqIDMap: map<nat, nat>

    constructor (cfg: Config, shardId: nat)
      ensures this.cfg == cfg && this.shardId == shardId && sequenceID == 1 && seqIDMap == map[]
      ensures partitionMap == map[] && trie == map[] && txQueue == [] && relayPool == map[]
    {
      this.cfg, this.shardId := cfg, shardId;
      partitionMap, trie, txQueue, relayPool := map[], map[], [], map[];
      sequenceID, seqIDMap := 1, map[];
    }

    /** One turn of the loop of `GetUpdateStatusTrie`. */
    method ExecuteTx(i: nat, tx: Tx)
      requires cfg.shardNum > 0
      modifies this`trie
      ensures trie == Exec(cfg, partitionMap, shardId, old(trie), i, tx)
    {
      if !tx.relayed && (Home(partitionMap, tx.sender, cfg.shardNum) == shardId || tx.hasBroker || tx.hasBridge) {
        var s := if tx.sender in trie then trie[tx.sender] else AccountState(i, cfg.initBalance);
        if s.balance < tx.value {
          return;
        }
        trie := trie[tx.sender := s.(balance := s.balance - tx.value)];
      }
      if Home(partitionMap, tx.recipient, cfg.shardNum) == shardId || tx.hasBroker || tx.hasBridge {
        var r := if tx.recipient in trie then trie[tx.recipient] else AccountState(i, cfg.initBalance);
        trie := trie[tx.recipient := r.(balance := r.balance + tx.value)];
      }
    }

    /** `GetUpdateStatusTrie`: the block's transactions in order, each with its number. */
    method GetUpdateStatusTrie(txs: seq<Tx>)
      requires cfg.shardNum > 0
      modifies this`trie
      ensures trie == ExecBody(cfg, partitionMap, shardId, old(trie), txs)
    {
      for i := 0 to |txs|
        invariant trie == ExecBody(cfg, partitionMap, shardId, old(trie), txs[..i])
      {
        assert txs[..i + 1][..i] == txs[..i];
        ExecuteTx(i, txs[i]);
      }
      assert txs[..|txs|] == txs;
    }

    method PackTxs(maxTxs: nat) returns (packed: seq<Tx>)
      modifies this`txQueue
      ensures packed + txQueue == old(txQueue)
      ensures |packed| == if |old(txQueue)| < maxTxs then |old(txQueue)| else maxTxs
    {
      var txNum := maxTxs;
      if |txQueue| < txNum {
        txNum := |txQueue|;
      }
      packed, txQueue := txQueue[..txNum], txQueue[txNum..];
    }

    method AddRelayTx(tx: Tx, sid: nat)
      modifies this`relayPool
      ensures relayPool == old(relayPool)[sid := Listed(old(relayPool), sid) + [tx]]
    {
      if sid !in relayPool {
        relayPool := relayPool[sid := []];
      }
      relayPool := relayPool[sid := relayPool[sid] + [tx]];
    }

    /**
     The leader's commit: classify, mark, file by destination. A transaction in the wrong shard would
     stop the original with "incorrect tx"; `ok` says that this does not happen.
     */
    method HandleInCommit(body: seq<Tx>) returns (ok: bool, report: Report)
      requires cfg.shardNum > 0
      modifies this`relayPool
      ensures ok <==> forall i :: 0 <= i < |body| ==> Home(partitionMap, Key(body[i]), cfg.shardNum) == shardId
      ensures ok ==> RelayFiled(cfg, partitionMap, shardId, body, relayPool)
      ensures ok ==> report == ReportOf(cfg, partitionMap, shardId, body)
    {
      relayPool, report := map[], Report(0, 0, 0, 0);
      for i := 0 to |body|
        invariant forall k :: 0 <= k < i ==> Home(partitionMap, Key(body[k]), cfg.shardNum) == shardId
        invariant RelayFiled(cfg, partitionMap, shardId, body[..i], relayPool)
        invariant report == ReportOf(cfg, partitionMap, shardId, body[..i])
      {
        var tx := body[i];
        FileOne(cfg, partitionMap, shardId, body, i, relayPool);
        var ssid := Home(partitionMap, tx.sender, cfg.shardNum);
        var rsid := Home(partitionMap, tx.recipient, cfg.shardNum);
        if !tx.relayed && ssid != shardId {
          return false, report;
        }
        if tx.relayed && rsid != shardId {
          return false, report;
        }
        if rsid != shardId {
          report := report.(relay1 := report.relay1 + 1);
          AddRelayTx(tx.(relayed := true), rsid);
        } else if tx.relayed {
          report := report.(relay2 := report.relay2 + 1);
        } else {
          report := report.(inner := report.inner + 1);
        }
      }
      assert body[..|body|] == body;
      ok := true;
    }

    /** `RelayMsgSend`: one message to every other shard, with the sequence number, then the relay pool is cleared. */
    method RelayMsgSend(ghost body: seq<Tx>) returns (sent: seq<Relay>, senderSeq: nat)
      requires cfg.shardNum > 0
      requires RelayFiled(cfg, partitionMap, shardId, body, relayPool)
      modifies this`relayPool
      ensures sent == RelayMsgs(cfg, partitionMap, shardId, body, cfg.shardNum) && relayPool == map[] && senderSeq == sequenceID
    {
      sent, senderSeq := [], sequenceID;
      for sid := 0 to cfg.shardNum
        invariant relayPool == old(relayPool) && sent == RelayMsgs(cfg, partitionMap, shardId, body, sid)
      {
        if sid != shardId {
          sent := sent + [Relay(shardId, sid, Listed(relayPool, sid))];
        }
      }
      relayPool := map[];
    }

    /** Relayed transactions join the queue, and the sender's sequence number is kept. */
    method HandleRelay(relay: Relay, senderSeq: nat)
      modifies this`txQueue, this`seqIDMap
      ensures txQueue == old(txQueue) + relay.txs && seqIDMap == old(seqIDMap)[relay.from := senderSeq]
    {
      txQueue := txQueue + relay.txs;
      seqIDMap := seqIDMap[relay.from := senderSeq];
    }
  }
}
