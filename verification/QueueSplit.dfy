/**
 A shard's part in a change of the partition map, as the code does it: the in-place split of the
 transaction queue and the hand-over of accounts (consensus_shard/pbft_all/accountTransfer_module.go,
 chain/blockchain.go). Shown to carry out the protocol's steps.
 */
module QueueSplit {
  import opened Accounts
  import opened Sums
  import opened Sublists
  import opened Ledger
  import opened ShardedLedger
  import opened MigrationSteps
  import opened LedgerRuns

  // ----- one pass over the queue

  function TakenFrom(addrSet: set<Address>, q: seq<Tx>): seq<Tx> {
    if q == [] then []
    else
      var tx, before := q[|q| - 1], TakenFrom(addrSet, q[..|q| - 1]);
      if Key(tx) in addrSet then before + [tx] else before
  }

  function KeptFrom(addrSet: set<Address>, q: seq<Tx>): seq<Tx> {
    if q == [] then []
    else
      var tx, before := q[|q| - 1], KeptFrom(addrSet, q[..|q| - 1]);
      if Key(tx) in addrSet then before else before + [tx]
  }

  ghost predicate SplitTo(addrSet: set<Address>, q: seq<Tx>, send: seq<Tx>, kept: seq<Tx>) {
    send == TakenFrom(addrSet, q) && kept == KeptFrom(addrSet, q)
  }

  lemma SplitNext(addrSet: set<Address>, q: seq<Tx>, i: nat, send: seq<Tx>, kept: seq<Tx>)
    requires i < |q| && SplitTo(addrSet, q[..i], send, kept)
    ensures if Key(q[i]) in addrSet then SplitTo(addrSet, q[..i + 1], send + [q[i]], kept)
      else SplitTo(addrSet, q[..i + 1], send, kept + [q[i]])
  {
    assert q[..i + 1][..i] == q[..i];
  }

  /** The two-pointer pass: transactions of the departing accounts come out, the others close ranks in place. */
  method TakeOut(queue: array<Tx>, len: nat, addrSet: set<Address>) returns (txSend: seq<Tx>, firstPtr: nat)
    requires len <= queue.Length
    modifies queue
    ensures firstPtr <= len
    ensures txSend == TakenFrom(addrSet, old(queue[..len]))
    ensures queue[..firstPtr] == KeptFrom(addrSet, old(queue[..len]))
  {
    txSend, firstPtr := [], 0;
    ghost var q := queue[..len];
    ghost var kept: seq<Tx> := [];
    for secondPtr := 0 to len
      invariant firstPtr <= secondPtr
      invariant forall k :: secondPtr <= k < len ==> queue[k] == q[k]
      invariant queue[..firstPtr] == kept && SplitTo(addrSet, q[..secondPtr], txSend, kept)
    {
      var ptx := queue[secondPtr];
      SplitNext(addrSet, q, secondPtr, txSend, kept);
      var condition1 := ptx.sender in addrSet && !ptx.relayed;
      var condition2 := ptx.recipient in addrSet && ptx.relayed;
      if condition1 || condition2 {
        txSend := txSend + [ptx];
      } else {
        queue[firstPtr] := ptx;
        firstPtr := firstPtr + 1;
        kept := kept + [ptx];
      }
    }
    assert q[..len] == q;
  }

  // ----- the passes together

  /** Whether the transaction leaves shard `s` for a shard below `hi`. */
  predicate GoesBelow(cfg: Config, y: System, s: nat, hi: nat, tx: Tx)
    requires cfg.shardNum > 0
  {
    Moves(cfg, y, s, tx) && y.change[Key(tx)] < hi
  }

  /** What the passes below `hi` leave. */
  function LeftBefore(cfg: Config, y: System, s: nat, hi: nat, pool: seq<Tx>): seq<Tx>
    requires cfg.shardNum > 0
  {
    if pool == [] then []
    else
      var tx, before := pool[|pool| - 1], LeftBefore(cfg, y, s, hi, pool[..|pool| - 1]);
      if GoesBelow(cfg, y, s, hi, tx) then before else before + [tx]
  }

  lemma {:induction false} RemainingIsLeft(cfg: Config, y: System, s: nat, pool: seq<Tx>)
    requires cfg.shardNum > 0 && InRange(cfg, y.change)
    ensures Remaining(cfg, y, s, pool) == LeftBefore(cfg, y, s, cfg.shardNum, pool)
  {
    if pool != [] {
      RemainingIsLeft(cfg, y, s, pool[..|pool| - 1]);
    }
  }

  ghost predicate IsDeparting(cfg: Config, y: System, s: nat, t: nat, addrSet: set<Address>)
    requires cfg.shardNum > 0
  {
    forall a :: a in addrSet <==> Departs(cfg, y, s, t, a)
  }

  /** A pass for shard `t` over what earlier passes left takes what a pass over the whole queue would. */
  lemma {:induction false} PassTakes(cfg: Config, y: System, s: nat, t: nat, addrSet: set<Address>, pool: seq<Tx>)
    requires cfg.shardNum > 0 && IsDeparting(cfg, y, s, t, addrSet) && t != s
    ensures var q := LeftBefore(cfg, y, s, t, pool);
      && TakenFrom(addrSet, q) == TxsFor(cfg, y, s, t, pool)
      && KeptFrom(addrSet, q) == LeftBefore(cfg, y, s, t + 1, pool)
  {
    if pool != [] {
      var init, tx := pool[..|pool| - 1], pool[|pool| - 1];
      PassTakes(cfg, y, s, t, addrSet, init);
      assert Key(tx) in addrSet <==> Departs(cfg, y, s, t, Key(tx));
      if !GoesBelow(cfg, y, s, t, tx) {
      }
    }
  }

  /** No pass is made for the shard itself. */
  lemma {:induction false} PassSkips(cfg: Config, y: System, s: nat, pool: seq<Tx>)
    requires cfg.shardNum > 0
    ensures LeftBefore(cfg, y, s, s, pool) == LeftBefore(cfg, y, s, s + 1, pool)
  {
    if pool != [] {
      PassSkips(cfg, y, s, pool[..|pool| - 1]);
    }
  }

  lemma {:induction false} AllLeft(cfg: Config, y: System, s: nat, pool: seq<Tx>)
    requires cfg.shardNum > 0
    ensures LeftBefore(cfg, y, s, 0, pool) == pool
  {
    if pool != [] {
      AllLeft(cfg, y, s, pool[..|pool| - 1]);
      assert pool == pool[..|pool| - 1] + [pool[|pool| - 1]];
    }
  }

  /** Where the loop over destinations stands before pass `i`. */
  ghost predicate Progress(cfg: Config, y: System, s: nat, i: nat, queue: seq<Tx>, messages: seq<Move>)
    requires cfg.shardNum > 0 && s < |y.nodes|
  {
    queue == LeftBefore(cfg, y, s, i, y.nodes[s].pool) && messages == MovesFrom(cfg, y, s, i)
  }

  lemma ProgressStart(cfg: Config, y: System, s: nat)
    requires cfg.shardNum > 0 && s < |y.nodes|
    ensures Progress(cfg, y, s, 0, y.nodes[s].pool, [])
  {
    AllLeft(cfg, y, s, y.nodes[s].pool);
  }

  lemma ProgressSkip(cfg: Config, y: System, s: nat, queue: seq<Tx>, messages: seq<Move>)
    requires cfg.shardNum > 0 && s < |y.nodes| && Progress(cfg, y, s, s, queue, messages)
    ensures Progress(cfg, y, s, s + 1, queue, messages)
  {
    PassSkips(cfg, y, s, y.nodes[s].pool);
  }

  // ----- the split loses and duplicates nothing

  /** All send lists, one after the other. */
  function AllSent(moves: seq<Move>): seq<Tx> {
    if moves == [] then [] else AllSent(moves[..|moves| - 1]) + moves[|moves| - 1].txs
  }

  lemma {:induction false} AllSentSum(f: Tx -> int, moves: seq<Move>)
    ensures Sum(f, AllSent(moves)) == Sum(InMove(f), moves)
  {
    if moves != [] {
      var m, before := moves[|moves| - 1], moves[..|moves| - 1];
      AllSentSum(f, before);
      SumConcat(f, AllSent(before), m.txs);
    }
  }

  lemma OneInParts(cfg: Config, y: System, s: nat, x: Tx)
    requires cfg.shardNum > 0 && s < |y.nodes| && InRange(cfg, y.change)
    ensures var pool := y.nodes[s].pool;
      multiset(pool)[x] == multiset(Remaining(cfg, y, s, pool))[x] + multiset(AllSent(MovesFrom(cfg, y, s, cfg.shardNum)))[x]
  {
    var pool, sent := y.nodes[s].pool, MovesFrom(cfg, y, s, cfg.shardNum);
    CountIsSum(x, pool);
    CountIsSum(x, Remaining(cfg, y, s, pool));
    CountIsSum(x, AllSent(sent));
    AllSentSum(Is(x), sent);
    QueueSums(cfg, Is(x), y, s);
  }

  lemma {:induction false} RemainingOrdered(cfg: Config, y: System, s: nat, pool: seq<Tx>)
    requires cfg.shardNum > 0
    ensures OrderedPart(Remaining(cfg, y, s, pool), pool)
  {
    if pool == [] {
      NothingOrdered(pool);
    } else {
      RemainingOrdered(cfg, y, s, pool[..|pool| - 1]);
      OrderedNext(Remaining(cfg, y, s, pool[..|pool| - 1]), pool);
    }
  }

  lemma {:induction false} TxsForOrdered(cfg: Config, y: System, s: nat, t: nat, pool: seq<Tx>)
    requires cfg.shardNum > 0
    ensures OrderedPart(TxsFor(cfg, y, s, t, pool), pool)
  {
    if pool == [] {
      NothingOrdered(pool);
    } else {
      TxsForOrdered(cfg, y, s, t, pool[..|pool| - 1]);
      OrderedNext(TxsFor(cfg, y, s, t, pool[..|pool| - 1]), pool);
    }
  }

  /** What stays and all that is sent are a permutation of the queue, each part in the queue's order. */
  lemma SplitIsPermutation(cfg: Config, y: System, s: nat)
    requires cfg.shardNum > 0 && s < |y.nodes| && InRange(cfg, y.change)
    ensures var pool := y.nodes[s].pool;
      && Parts(pool, Remaining(cfg, y, s, pool), AllSent(MovesFrom(cfg, y, s, cfg.shardNum)))
      && OrderedPart(Remaining(cfg, y, s, pool), pool)
    ensures forall t: nat :: OrderedPart(TxsFor(cfg, y, s, t, y.nodes[s].pool), y.nodes[s].pool)
  {
    var pool := y.nodes[s].pool;
    forall x
      ensures multiset(pool)[x] == multiset(Remaining(cfg, y, s, pool))[x] + multiset(AllSent(MovesFrom(cfg, y, s, cfg.shardNum)))[x]
    {
      OneInParts(cfg, y, s, x);
    }
    RemainingOrdered(cfg, y, s, pool);
    forall t: nat
      ensures OrderedPart(TxsFor(cfg, y, s, t, pool), pool)
    {
      TxsForOrdered(cfg, y, s, t, pool);
    }
  }

  // ----- the node

  /** What a missing key of a Go map reads as. */
  function Lookup(m: PartitionMap, a: Address): nat {
    if a in m then m[a] else 0
  }

  /** Of the received states, those of accounts that live here. */
  function Accepted(cfg: Config, pm: PartitionMap, sid: nat, accounts: map<Address, AccountState>): map<Address, AccountState>
    requires cfg.shardNum > 0
  {
    map a | a in accounts && Home(pm, a, cfg.shardNum) == sid :: accounts[a]
  }

  ghost function AcceptedOf(cfg: Config, pm: PartitionMap, sid: nat, accounts: map<Address, AccountState>, done: set<Address>): map<Address, AccountState>
    requires cfg.shardNum > 0
  {
    map a | a in accounts && a in done && Home(pm, a, cfg.shardNum) == sid :: accounts[a]
  }

  lemma AcceptOne(cfg: Config, pm: PartitionMap, sid: nat, trie: Trie, accounts: map<Address, AccountState>, done: set<Address>, addr: Address)
    requires cfg.shardNum > 0 && addr in accounts
    ensures var t := trie + AcceptedOf(cfg, pm, sid, accounts, done);
      trie + AcceptedOf(cfg, pm, sid, accounts, done + {addr})
        == if Home(pm, addr, cfg.shardNum) == sid then t[addr := accounts[addr]] else t
  {
    var before, after := AcceptedOf(cfg, pm, sid, accounts, done), AcceptedOf(cfg, pm, sid, accounts, done + {addr});
    if Home(pm, addr, cfg.shardNum) == sid {
      assert after == before[addr := accounts[addr]];
      assert trie + before[addr := accounts[addr]] == (trie + before)[addr := accounts[addr]];
    } else {
      assert after == before;
    }
  }

  ghost predicate Mirrors(node: MigratingNode, y: System)
    reads node, node.txQueue
  {
    && node.cfg.shardNum > 0 && node.shardId < |y.nodes| && node.queueLen <= node.txQueue.Length
    && y.pm == node.partitionMap && y.change == node.modifiedMap
    && y.nodes[node.shardId].trie == node.trie && y.nodes[node.shardId].pool == node.txQueue[..node.queueLen]
  }

  class MigratingNode {
    const cfg: Config
    const shardId: nat
    var partitionMap: PartitionMap
    var modifiedMap: PartitionMap
    var trie: Trie
    var txQueue: array<Tx>
    var queueLen: nat
    var accountTransferRound: nat
    var received: seq<Move>               // accountStateTx
    var partitionReady: set<nat>
    var partitionOn: bool
    var collectOver: bool

    constructor (cfg: Config, shardId: nat, capacity: nat, filler: Tx)
      ensures this.cfg == cfg && this.shardId == shardId && partitionMap == map[] && modifiedMap == map[] && trie == map[]
      ensures fresh(txQueue) && txQueue.Length == capacity && queueLen == 0
      ensures accountTransferRound == 0 && received == [] && partitionReady == {} && !partitionOn && !collectOver
    {
      this.cfg, this.shardId := cfg, shardId;
      accountTransferRound, received, partitionReady, partitionOn, collectOver := 0, [], {}, false, false;
      partitionMap, modifiedMap, trie := map[], map[], map[];
      txQueue := new Tx[capacity](_ => filler);
      queueLen := 0;
    }

    /** The accounts that leave, in whatever order the modified map is traversed. */
    method AccountsToFetch() returns (accounts: seq<Address>)
      requires cfg.shardNum > 0
      ensures Distinct(accounts)
      ensures forall a :: a in accounts <==>
        a in modifiedMap && modifiedMap[a] != shardId && Home(partitionMap, a, cfg.shardNum) == shardId
    {
      accounts := [];
      var todo := modifiedMap.Keys;
      while todo != {}
        invariant todo <= modifiedMap.Keys && Distinct(accounts)
        invariant forall a :: a in accounts <==>
          a in modifiedMap && a !in todo && modifiedMap[a] != shardId && Home(partitionMap, a, cfg.shardNum) == shardId
        decreases |todo|
      {
        var key :| key in todo;
        if modifiedMap[key] != shardId && Home(partitionMap, key, cfg.shardNum) == shardId {
          accounts := accounts + [key];
        }
        todo := todo - {key};
      }
    }

    method FetchAccounts(addrs: seq<Address>) returns (res: seq<AccountState>)
      ensures |res| == |addrs| && forall i :: 0 <= i < |addrs| ==> res[i] == StateAt(cfg, trie, addrs[i], 0)
    {
      res := [];
      for i := 0 to |addrs|
        invariant |res| == i && forall k :: 0 <= k < i ==> res[k] == StateAt(cfg, trie, addrs[k], 0)
      {
        var addr := addrs[i];
        var st := if addr in trie then trie[addr] else AccountState(0, cfg.initBalance);
        res := res + [st];
      }
    }

    /** The accounts that leave, and their states. */
    ghost predicate Fetched(accounts: seq<Address>, states: seq<AccountState>)
      requires cfg.shardNum > 0
      reads this
    {
      && |states| == |accounts|
      && (forall i :: 0 <= i < |accounts| ==> states[i] == StateAt(cfg, trie, accounts[i], 0))
      && (forall a :: a in accounts <==>
            a in modifiedMap && modifiedMap[a] != shardId && Home(partitionMap, a, cfg.shardNum) == shardId)
    }

    /** Those of the fetched accounts that go to shard `t`, with their states. */
    method AccountsFor(accounts: seq<Address>, states: seq<AccountState>, t: nat, ghost y: System)
        returns (addrSet: set<Address>, send: map<Address, AccountState>)
      requires cfg.shardNum > 0 && t != shardId
      requires y.pm == partitionMap && y.change == modifiedMap && shardId < |y.nodes| && y.nodes[shardId].trie == trie
      requires Fetched(accounts, states)
      ensures IsDeparting(cfg, y, shardId, t, addrSet) && send == Departing(cfg, y, shardId, t)
    {
      addrSet, send := {}, map[];
      for idx := 0 to |accounts|
        invariant forall a :: a in addrSet <==> a in accounts[..idx] && modifiedMap[a] == t
        invariant send.Keys == addrSet && forall a :: a in send ==> send[a] == StateAt(cfg, trie, a, 0)
      {
        var addr := accounts[idx];
        assert addr in accounts;
        assert accounts[..idx + 1] == accounts[..idx] + [addr];
        if modifiedMap[addr] == t {
          addrSet := addrSet + {addr};
          send := send[addr := states[idx]];
        }
      }
      assert accounts[..|accounts|] == accounts;
    }

    /** The message for shard `t`, taken out of the queue in one pass. */
    method SendTo(t: nat, accounts: seq<Address>, states: seq<AccountState>, ghost y: System) returns (message: Move)
      requires cfg.shardNum > 0 && t != shardId
      requires y.pm == partitionMap && y.change == modifiedMap && shardId < |y.nodes| && y.nodes[shardId].trie == trie
      requires Fetched(accounts, states)
      requires queueLen <= txQueue.Length
      requires txQueue[..queueLen] == LeftBefore(cfg, y, shardId, t, y.nodes[shardId].pool)
      modifies txQueue, this`queueLen
      ensures message == Move(shardId, t, Departing(cfg, y, shardId, t), TxsFor(cfg, y, shardId, t, y.nodes[shardId].pool))
      ensures queueLen <= txQueue.Length
      ensures txQueue[..queueLen] == LeftBefore(cfg, y, shardId, t + 1, y.nodes[shardId].pool)
    {
      var addrSet, send := AccountsFor(accounts, states, t, y);
      PassTakes(cfg, y, shardId, t, addrSet, y.nodes[shardId].pool);
      var txSend, firstPtr := TakeOut(txQueue, queueLen, addrSet);
      queueLen := firstPtr;
      message := Move(shardId, t, send, txSend);
    }

    /** One turn of the loop of `sendAccounts_and_Txs`. */
    method Pass(i: nat, accounts: seq<Address>, states: seq<AccountState>, messages: seq<Move>, ghost y: System) returns (messages': seq<Move>)
      requires cfg.shardNum > 0 && Fetched(accounts, states)
      requires y.pm == partitionMap && y.change == modifiedMap && shardId < |y.nodes| && y.nodes[shardId].trie == trie
      requires queueLen <= txQueue.Length && Progress(cfg, y, shardId, i, txQueue[..queueLen], messages)
      modifies txQueue, this`queueLen
      ensures queueLen <= txQueue.Length && Progress(cfg, y, shardId, i + 1, txQueue[..queueLen], messages')
    {
      if i == shardId {
        ProgressSkip(cfg, y, shardId, txQueue[..queueLen], messages);
        messages' := messages;
      } else {
        var message := SendTo(i, accounts, states, y);
        messages' := messages + [message];
      }
    }

    /** `sendAccounts_and_Txs` performs the protocol's step: the messages of `MovesFrom`, the queue of `Remaining`. */
    method SendAccountsAndTxs(ghost y: System) returns (messages: seq<Move>)
      requires Mirrors(this, y) && InRange(cfg, modifiedMap)
      modifies txQueue, this`queueLen
      ensures messages == MovesFrom(cfg, y, shardId, cfg.shardNum)
      ensures queueLen <= txQueue.Length && txQueue[..queueLen] == Remaining(cfg, y, shardId, y.nodes[shardId].pool)
    {
      var accounts := AccountsToFetch();
      var states := FetchAccounts(accounts);
      messages := [];
      ProgressStart(cfg, y, shardId);
      for i := 0 to cfg.shardNum
        invariant queueLen <= txQueue.Length && Fetched(accounts, states)
        invariant Progress(cfg, y, shardId, i, txQueue[..queueLen], messages)
      {
        messages := Pass(i, accounts, states, messages, y);
      }
      RemainingIsLeft(cfg, y, shardId, y.nodes[shardId].pool);
    }

    /** All that arrived, in whatever order the map of messages is traversed. */
    method Gather(arrived: seq<Move>) returns (accounts: map<Address, AccountState>, txs: seq<Tx>, ghost order: seq<Move>)
      ensures multiset(order) == multiset(arrived) && accounts == Collected(order) && txs == AllSent(order)
    {
      accounts, txs, order := map[], [], [];
      var left := arrived;
      while left != []
        invariant multiset(order) + multiset(left) == multiset(arrived)
        invariant accounts == Collected(order) && txs == AllSent(order)
        decreases |left|
      {
        var i: nat :| i < |left|;
        CollectedNext(order, left, i);
        accounts, txs, order, left := accounts + left[i].accounts, txs + left[i].txs, order + [left[i]], Without(left, i);
      }
    }

    /** The first half of `proposePartition`: collect what arrived, and stop with "error tx" on a stray one. */
    method Collect(arrived: seq<Move>) returns (ok: bool, accounts: map<Address, AccountState>, txs: seq<Tx>, ghost order: seq<Move>)
      ensures multiset(order) == multiset(arrived) && accounts == Collected(order) && txs == AllSent(order)
      ensures ok <==> forall i :: 0 <= i < |txs| ==> Lookup(modifiedMap, Key(txs[i])) == shardId
    {
      accounts, txs, order := Gather(arrived);
      for i := 0 to |txs|
        invariant forall k :: 0 <= k < i ==> Lookup(modifiedMap, Key(txs[k])) == shardId
      {
        var tx := txs[i];
        if !tx.relayed && Lookup(modifiedMap, tx.sender) != shardId {
          return false, accounts, txs, order;
        }
        if tx.relayed && Lookup(modifiedMap, tx.recipient) != shardId {
          return false, accounts, txs, order;
        }
      }
      ok := true;
    }

    /** `AddAccounts`: store the states of the accounts that live here. */
    method AddAccounts(accounts: map<Address, AccountState>)
      requires cfg.shardNum > 0
      modifies this`trie
      ensures trie == old(trie) + Accepted(cfg, partitionMap, shardId, accounts)
    {
      var todo := accounts.Keys;
      ghost var done := {};
      while todo != {}
        invariant todo <= accounts.Keys && done == accounts.Keys - todo
        invariant trie == old(trie) + AcceptedOf(cfg, partitionMap, shardId, accounts, done)
        decreases |todo|
      {
        var addr :| addr in todo;
        AcceptOne(cfg, partitionMap, shardId, old(trie), accounts, done, addr);
        if Home(partitionMap, addr, cfg.shardNum) == shardId {
          trie := trie[addr := accounts[addr]];
        }
        todo := todo - {addr};
        done := done + {addr};
      }
    }

    /** `accountTransfer_do`: first the map, then the accounts that now live here; then all is set for the next change. */
    method AccountTransferDo(accounts: map<Address, AccountState>, atId: nat)
      requires cfg.shardNum > 0
      modifies this`partitionMap, this`trie, this`accountTransferRound, this`received, this`partitionReady, this`partitionOn, this`collectOver
      ensures accountTransferRound == atId && received == [] && partitionReady == {} && !partitionOn && !collectOver
      ensures partitionMap == old(partitionMap) + modifiedMap
      ensures trie == old(trie) + Accepted(cfg, old(partitionMap) + modifiedMap, shardId, accounts)
    {
      partitionMap := partitionMap + modifiedMap;
      AddAccounts(accounts);
      accountTransferRound, received, partitionOn, collectOver, partitionReady := atId, [], false, false, {};
    }
  }

  function Collected(arrived: seq<Move>): map<Address, AccountState> {
    if arrived == [] then map[] else Collected(arrived[..|arrived| - 1]) + arrived[|arrived| - 1].accounts
  }

  /** The messages for shard `t`, in order of arrival. */
  function For(moves: seq<Move>, t: nat): seq<Move> {
    if moves == [] then []
    else
      var m, before := moves[|moves| - 1], For(moves[..|moves| - 1], t);
      if m.to == t then before + [m] else before
  }

  lemma {:induction false} ForCollected(moves: seq<Move>, t: nat)
    ensures Collected(For(moves, t)) == ArrivingAccounts(moves, t) && AllSent(For(moves, t)) == ArrivingTxs(moves, t)
  {
    if moves != [] {
      ForCollected(moves[..|moves| - 1], t);
    }
  }

  lemma CollectedNext(order: seq<Move>, left: seq<Move>, i: nat)
    requires i < |left|
    ensures multiset(order + [left[i]]) + multiset(Without(left, i)) == multiset(order) + multiset(left)
    ensures Collected(order + [left[i]]) == Collected(order) + left[i].accounts
    ensures AllSent(order + [left[i]]) == AllSent(order) + left[i].txs
  {
    assert left == left[..i] + [left[i]] + left[i + 1..];
    assert (order + [left[i]])[..|order|] == order;
  }

  lemma {:induction false} ForParts(moves: seq<Move>, t: nat)
    ensures multiset(NotFor(moves, t)) + multiset(For(moves, t)) == multiset(moves)
  {
    if moves != [] {
      ForParts(moves[..|moves| - 1], t);
      assert moves == moves[..|moves| - 1] + [moves[|moves| - 1]];
    }
  }

  lemma {:induction false} ForApart(moves: seq<Move>, t: nat)
    ensures For(NotFor(moves, t), t) == [] && NotFor(NotFor(moves, t), t) == NotFor(moves, t)
    ensures forall m :: m in For(moves, t) ==> m.to == t
  {
    if moves != [] {
      var before, m := NotFor(moves[..|moves| - 1], t), moves[|moves| - 1];
      ForApart(moves[..|moves| - 1], t);
      assert (before + [m])[..|before|] == before;
    }
  }

  lemma {:induction false} ForAppended(before: seq<Move>, arrived: seq<Move>, t: nat)
    requires For(before, t) == [] && forall i :: 0 <= i < |arrived| ==> arrived[i].to == t
    ensures For(before + arrived, t) == arrived && NotFor(before + arrived, t) == NotFor(before, t)
  {
    if arrived == [] {
      assert before + arrived == before;
    } else {
      var init := arrived[..|arrived| - 1];
      ForAppended(before, init, t);
      assert (before + arrived)[..|before + arrived| - 1] == before + init;
    }
  }

  /** The messages of the change with those for shard `t` last, in the order in which it takes them. */
  function Ordered(y: System, t: nat, arrived: seq<Move>): System {
    y.(moves := NotFor(y.moves, t) + arrived)
  }

  lemma OrderedRegroups(cfg: Config, y: System, t: nat, arrived: seq<Move>)
    requires cfg.shardNum > 0 && multiset(arrived) == multiset(For(y.moves, t))
    ensures Follows(cfg, y, Regroup(Ordered(y, t, arrived).moves), Ordered(y, t, arrived))
    ensures For(Ordered(y, t, arrived).moves, t) == arrived && NotFor(Ordered(y, t, arrived).moves, t) == NotFor(y.moves, t)
  {
    ForParts(y.moves, t);
    ForApart(y.moves, t);
    forall i | 0 <= i < |arrived|
      ensures arrived[i].to == t
    {
      assert arrived[i] in multiset(For(y.moves, t));
    }
    ForAppended(NotFor(y.moves, t), arrived, t);
  }

  /** What the take-over writes is what the handlers accept, and nothing is stray. */
  lemma TransferIsTakeOver(cfg: Config, data: seq<Tx>, y: System, s: nat)
    requires Core(cfg, data, y) && s < |y.nodes|
    ensures var node, arrived := TakeOver(y, s).nodes[s], For(y.moves, s);
      && node.trie == y.nodes[s].trie + Accepted(cfg, y.pm + y.change, s, Collected(arrived))
      && node.pool == y.nodes[s].pool + AllSent(arrived)
      && (forall i :: 0 <= i < |AllSent(arrived)| ==> Lookup(y.change, Key(AllSent(arrived)[i])) == s)
  {
    ForCollected(y.moves, s);
    assert AllValid(cfg, y, y.moves);
    forall a | a in ArrivingAccounts(y.moves, s)
      ensures Home(NewMap(y), a, cfg.shardNum) == s
    {
      ArrivingIs(cfg, y, y.moves, s, a);
    }
    assert Accepted(cfg, NewMap(y), s, ArrivingAccounts(y.moves, s)) == ArrivingAccounts(y.moves, s);
    forall i | 0 <= i < |ArrivingTxs(y.moves, s)|
      ensures Lookup(y.change, Key(ArrivingTxs(y.moves, s)[i])) == s
    {
      ArrivingKeyed(cfg, y, y.moves, s, i);
    }
  }

  /**
   In every reachable state the receiving side does the protocol's step too, in whatever order it takes the
   messages: nothing it collects is stray, and every account it collects lives there under the new map.
   */
  lemma TakeOverIsTransfer(cfg: Config, data: seq<Tx>, states: seq<System>, events: seq<Event>, k: nat, s: nat, arrived: seq<Move>)
    requires cfg.shardNum > 0 && RawData(data) && Run(cfg, data, states, events) && k < |states| && s < |states[k].nodes|
    requires multiset(arrived) == multiset(For(states[k].moves, s))
    ensures Follows(cfg, states[k], Regroup(Ordered(states[k], s, arrived).moves), Ordered(states[k], s, arrived))
    ensures var y := states[k];
      var node := TakeOver(Ordered(y, s, arrived), s).nodes[s];
      && node.trie == y.nodes[s].trie + Accepted(cfg, y.pm + y.change, s, Collected(arrived))
      && node.pool == y.nodes[s].pool + AllSent(arrived)
      && (forall i :: 0 <= i < |AllSent(arrived)| ==> Lookup(y.change, Key(AllSent(arrived)[i])) == s)
  {
    var y := states[k];
    OrderedRegroups(cfg, y, s, arrived);
    RunKeeps(cfg, data, states, events, k);
    StepKeeps(cfg, data, y, Regroup(Ordered(y, s, arrived).moves), Ordered(y, s, arrived));
    TransferIsTakeOver(cfg, data, Ordered(y, s, arrived), s);
  }
}
