/**
 One shard leader of the bridge protocol (consensus_shard/pbft_all/pbftInside_moduleBridge.go and
 pbftOutside_moduleBridge.go): classify the transactions of a committed block, debit the channel to the
 next shard of the route, and prepare the next hop.
 */
module Bridge {
  import opened Accounts
  import opened Sums

  datatype Option<+T> = None | Some(value: T)

  /** The hash of the raw cross-shard transaction; hashes are taken to be injective. */
  type RawId = nat

  datatype Tx = Tx(
    sender: Address, recipient: Address, value: int,
    hasBridge: bool, senderIsBridge: bool,
    originalSender: Address, finalRecipient: Address, rawTxHash: Option<RawId>,
    route: seq<nat>, routeIndex: int, overlayEpoch: int)

  /** Number of shards, their bridge accounts, and the starting balance of every channel. */
  datatype Config = Config(shardNum: nat, addrs: seq<Address>, initBalance: int)

  ghost predicate ValidConfig(cfg: Config) {
    cfg.shardNum > 0 && |cfg.addrs| == cfg.shardNum
  }

  datatype Kind = Executed | Bridge1 | Bridge2 | Forward

  /** The switch of the commit loop; the order of its cases matters. */
  function Classify(tx: Tx): Kind {
    if tx.rawTxHash.Some? && tx.recipient == tx.finalRecipient then Bridge2
    else if tx.rawTxHash.Some? && tx.sender == tx.originalSender then Bridge1
    else if tx.rawTxHash.Some? && tx.hasBridge then Forward
    else Executed
  }

  function Route(cfg: Config, tx: Tx): seq<nat>
    requires cfg.shardNum > 0
  {
    if |tx.route| >= 2 then tx.route
    else [Addr2Shard(tx.originalSender, cfg.shardNum), Addr2Shard(tx.finalRecipient, cfg.shardNum)]
  }

  /** The first position of `sid` at or after `from`, or -1. */
  function FirstIndex(route: seq<nat>, sid: nat, from: nat): (i: int)
    requires from <= |route|
    ensures i == -1 || (from <= i < |route| && route[i] == sid)
    ensures forall k :: from <= k < (if i == -1 then |route| else i) ==> route[k] != sid
    decreases |route| - from
  {
    if from == |route| then -1 else if route[from] == sid then from else FirstIndex(route, sid, from + 1)
  }

  /** Where this shard stands on the route: the recorded index if it names this shard, else a search. */
  function CurrentRouteIndex(sid: nat, tx: Tx, route: seq<nat>): (i: int)
    ensures i == -1 || (0 <= i < |route| && route[i] == sid)
    ensures 0 <= tx.routeIndex < |route| && route[tx.routeIndex] == sid ==> i == tx.routeIndex
    ensures i != tx.routeIndex || i == -1 ==> forall k :: 0 <= k < (if i == -1 then |route| else i) ==> route[k] != sid
  {
    if 0 <= tx.routeIndex < |route| && route[tx.routeIndex] == sid then tx.routeIndex
    else FirstIndex(route, sid, 0)
  }

  function NextBridgeHop(cfg: Config, sid: nat, tx: Tx): Option<nat>
    requires cfg.shardNum > 0
  {
    var route := Route(cfg, tx);
    var i := CurrentRouteIndex(sid, tx, route);
    if i < 0 || i + 1 >= |route| then None else Some(route[i + 1])
  }

  predicate RouteInRange(cfg: Config, tx: Tx)
    requires cfg.shardNum > 0
  {
    forall k :: 0 <= k < |Route(cfg, tx)| ==> Route(cfg, tx)[k] < cfg.shardNum
  }

  /** The next hop's transaction, run by the bridge account of the next shard. */
  function NextBridgeTx(cfg: Config, sid: nat, tx: Tx): Tx
    requires ValidConfig(cfg) && RouteInRange(cfg, tx) && NextBridgeHop(cfg, sid, tx).Some?
  {
    var route := Route(cfg, tx);
    var next := CurrentRouteIndex(sid, tx, route) + 1;
    var recipient := if next < |route| - 1 then cfg.addrs[route[next + 1]] else tx.finalRecipient;
    Tx(cfg.addrs[route[next]], recipient, tx.value, true, true, tx.originalSender, tx.finalRecipient, tx.rawTxHash,
       route, next, tx.overlayEpoch)
  }

  // ----- committing a block, one transaction at a time

  datatype Hop = Hop(dest: nat, tx: Tx)

  /** The leader's variables during the commit loop. */
  datatype Work = Work(
    balances: map<nat, int>, outbox: seq<Hop>,
    executed: seq<Tx>, bridge1: seq<Tx>, bridge2: seq<Tx>, forwarded: seq<Tx>)

  function Opened(balances: map<nat, int>, dest: nat, initBalance: int): map<nat, int> {
    if dest in balances then balances else balances[dest := initBalance]
  }

  /** Debit the channel and prepare the next hop, if the channel can carry the value. */
  function SendOn(cfg: Config, sid: nat, w: Work, tx: Tx): Work
    requires ValidConfig(cfg) && RouteInRange(cfg, tx)
  {
    match NextBridgeHop(cfg, sid, tx)
    case None => w
    case Some(dest) =>
      var open := Opened(w.balances, dest, cfg.initBalance);
      if open[dest] < tx.value then w.(balances := open)
      else
        var sent := w.(balances := open[dest := open[dest] - tx.value],
                       outbox := w.outbox + [Hop(dest, NextBridgeTx(cfg, sid, tx))]);
        if Classify(tx).Bridge1? then sent.(bridge1 := w.bridge1 + [tx]) else sent.(forwarded := w.forwarded + [tx])
  }

  function CommitOne(cfg: Config, sid: nat, w: Work, tx: Tx): Work
    requires ValidConfig(cfg) && RouteInRange(cfg, tx)
  {
    match Classify(tx)
    case Bridge2 => w.(bridge2 := w.bridge2 + [tx])
    case Bridge1 => SendOn(cfg, sid, w, tx)
    case Forward => SendOn(cfg, sid, w, tx)
    case Executed => w.(executed := w.executed + [tx])
  }

  predicate RoutesInRange(cfg: Config, body: seq<Tx>)
    requires cfg.shardNum > 0
  {
    forall i :: 0 <= i < |body| ==> RouteInRange(cfg, body[i])
  }

  function CommitBody(cfg: Config, sid: nat, balances: map<nat, int>, body: seq<Tx>): Work
    requires ValidConfig(cfg) && RoutesInRange(cfg, body)
  {
    if body == [] then Work(balances, [], [], [], [], [])
    else CommitOne(cfg, sid, CommitBody(cfg, sid, balances, body[..|body| - 1]), body[|body| - 1])
  }

  // ----- the messages of a block

  /** A SeqIDinfo message: the hops for one shard and the channel value they carry. */
  datatype Msg = Msg(from: nat, to: nat, value: int, txs: seq<Tx>)

  function HopsTo(outbox: seq<Hop>, dest: nat): seq<Tx> {
    if outbox == [] then []
    else
      var h, before := outbox[|outbox| - 1], HopsTo(outbox[..|outbox| - 1], dest);
      if h.dest == dest then before + [h.tx] else before
  }

  function ValueTo(dest: nat): Hop -> int { (h: Hop) => if h.dest == dest then h.tx.value else 0 }

  /** What a block report tells the supervisor's drain counters. */
  datatype Report = Report(executed: nat, bridge1: nat, bridge2: nat)

  function ReportOf(w: Work): Report {
    Report(|w.executed|, |w.bridge1|, |w.bridge2|)
  }

  /** One message to each other shard below `hi` that has hops to receive. */
  function Messages(sid: nat, outbox: seq<Hop>, hi: nat): seq<Msg> {
    if hi == 0 then []
    else
      var dest, before := hi - 1, Messages(sid, outbox, hi - 1);
      if dest == sid || HopsTo(outbox, dest) == [] then before
      else before + [Msg(sid, dest, Sum(ValueTo(dest), outbox), HopsTo(outbox, dest))]
  }

  // ----- the leader itself

  function Listed(m: map<nat, seq<Tx>>, k: nat): seq<Tx> {
    if k in m then m[k] else []
  }

  /** The value `v` for every shard below `n`. */
  function Uniform(n: nat, v: int): map<nat, int> {
    if n == 0 then map[] else Uniform(n - 1, v)[n - 1 := v]
  }

  lemma {:induction false} UniformIs(n: nat, v: int, k: nat)
    ensures k in Uniform(n, v) <==> k < n
    ensures k < n ==> Uniform(n, v)[k] == v
  {
    if n > 0 {
      UniformIs(n - 1, v, k);
    }
  }

  /** The hops of the outbox, and their values, filed by destination. */
  ghost predicate Filed(cfg: Config, outbox: seq<Hop>, tx2sSend: map<nat, seq<Tx>>, outgoing: map<nat, int>) {
    && (forall k: nat {:trigger Listed(tx2sSend, k)} {:trigger HopsTo(outbox, k)} :: Listed(tx2sSend, k) == HopsTo(outbox, k))
    && (forall k: nat {:trigger outgoing[k]} {:trigger k in outgoing} ::
          k < cfg.shardNum ==> k in outgoing && outgoing[k] == Sum(ValueTo(k), outbox))
  }

  lemma NothingFiled(cfg: Config)
    ensures Filed(cfg, [], map[], Uniform(cfg.shardNum, 0))
  {
    forall k: nat | k < cfg.shardNum
      ensures k in Uniform(cfg.shardNum, 0) && Uniform(cfg.shardNum, 0)[k] == 0
    {
      UniformIs(cfg.shardNum, 0, k);
    }
  }

  lemma FileHop(cfg: Config, outbox: seq<Hop>, tx2sSend: map<nat, seq<Tx>>, outgoing: map<nat, int>, h: Hop)
    requires Filed(cfg, outbox, tx2sSend, outgoing) && h.dest < cfg.shardNum
    ensures h.dest in outgoing
    ensures Filed(cfg, outbox + [h], tx2sSend[h.dest := Listed(tx2sSend, h.dest) + [h.tx]],
                  outgoing[h.dest := outgoing[h.dest] + h.tx.value])
  {
    var s', o' := tx2sSend[h.dest := Listed(tx2sSend, h.dest) + [h.tx]], outgoing[h.dest := outgoing[h.dest] + h.tx.value];
    forall k: nat
      ensures Listed(s', k) == HopsTo(outbox + [h], k)
    {
    }
    forall k: nat | k < cfg.shardNum
      ensures k in o' && o'[k] == Sum(ValueTo(k), outbox + [h])
    {
      assert k in outgoing;
    }
  }

  class BridgeLeader {
    const cfg: Config
    const shardId: nat
    var bridgeBalances: map<nat, int>
    var pool: seq<Tx>
    var seqIDMap: map<nat, nat>

    constructor (cfg: Config, shardId: nat)
      ensures this.cfg == cfg && this.shardId == shardId && pool == [] && seqIDMap == map[]
      ensures bridgeBalances == Uniform(cfg.shardNum, cfg.initBalance)
    {
      this.cfg, this.shardId, bridgeBalances, pool, seqIDMap := cfg, shardId, map[], [], map[];
      new;
      for sid := 0 to cfg.shardNum
        invariant this.cfg == cfg && this.shardId == shardId && pool == [] && seqIDMap == map[]
        invariant bridgeBalances == Uniform(sid, cfg.initBalance)
      {
        bridgeBalances := bridgeBalances[sid := cfg.initBalance];
      }
    }

    method BridgeHasCapacity(dest: nat, value: int) returns (ok: bool)
      modifies this`bridgeBalances
      ensures bridgeBalances == Opened(old(bridgeBalances), dest, cfg.initBalance)
      ensures ok <==> bridgeBalances[dest] >= value
    {
      if dest !in bridgeBalances {
        bridgeBalances := bridgeBalances[dest := cfg.initBalance];
      }
      ok := bridgeBalances[dest] >= value;
    }

    /** The two sending cases of the loop. */
    method SendOnward(tx: Tx, tx2sSend: map<nat, seq<Tx>>, outgoing: map<nat, int>, ghost w: Work)
        returns (sent: bool, tx2sSend': map<nat, seq<Tx>>, outgoing': map<nat, int>)
      requires ValidConfig(cfg) && RouteInRange(cfg, tx) && (Classify(tx).Bridge1? || Classify(tx).Forward?)
      requires bridgeBalances == w.balances && Filed(cfg, w.outbox, tx2sSend, outgoing)
      modifies this`bridgeBalances
      ensures var w' := SendOn(cfg, shardId, w, tx);
        && bridgeBalances == w'.balances && Filed(cfg, w'.outbox, tx2sSend', outgoing')
        && w'.executed == w.executed && w'.bridge2 == w.bridge2
        && w'.bridge1 == (if sent && Classify(tx).Bridge1? then w.bridge1 + [tx] else w.bridge1)
        && w'.forwarded == (if sent && Classify(tx).Forward? then w.forwarded + [tx] else w.forwarded)
    {
      sent, tx2sSend', outgoing' := false, tx2sSend, outgoing;
      var next := NextBridgeHop(cfg, shardId, tx);
      if next.Some? {
        var dest := next.value;
        sent := BridgeHasCapacity(dest, tx.value);
        if sent {
          var tx2 := NextBridgeTx(cfg, shardId, tx);
          FileHop(cfg, w.outbox, tx2sSend, outgoing, Hop(dest, tx2));
          tx2sSend' := tx2sSend[dest := Listed(tx2sSend, dest) + [tx2]];
          bridgeBalances := bridgeBalances[dest := bridgeBalances[dest] - tx.value];
          outgoing' := outgoing[dest := outgoing[dest] + tx.value];
        }
      }
    }

    /**
     The commit loop: the variables it keeps are those of `CommitBody`, with the hops and the values
     filed by destination.
     */
    method CommitLoop(body: seq<Tx>)
        returns (executed: seq<Tx>, bridge1: seq<Tx>, bridge2: seq<Tx>, forwarded: seq<Tx>,
                 tx2sSend: map<nat, seq<Tx>>, outgoing: map<nat, int>)
      requires ValidConfig(cfg) && RoutesInRange(cfg, body)
      modifies this`bridgeBalances
      ensures var w := CommitBody(cfg, shardId, old(bridgeBalances), body);
        && w == Work(bridgeBalances, w.outbox, executed, bridge1, bridge2, forwarded)
        && Filed(cfg, w.outbox, tx2sSend, outgoing)
    {
      executed, bridge1, bridge2, forwarded, tx2sSend, outgoing := [], [], [], [], map[], map[];
      for sid := 0 to cfg.shardNum
        invariant outgoing == Uniform(sid, 0)
      {
        outgoing := outgoing[sid := 0];
      }
      ghost var w := CommitBody(cfg, shardId, bridgeBalances, []);
      NothingFiled(cfg);
      for i := 0 to |body|
        invariant w == CommitBody(cfg, shardId, old(bridgeBalances), body[..i])
        invariant w == Work(bridgeBalances, w.outbox, executed, bridge1, bridge2, forwarded)
        invariant Filed(cfg, w.outbox, tx2sSend, outgoing)
      {
        var tx := body[i];
        assert body[..i + 1][..i] == body[..i];
        ghost var w' := CommitOne(cfg, shardId, w, tx);
        if Classify(tx) == Bridge2 {
          bridge2 := bridge2 + [tx];
        } else if Classify(tx) == Executed {
          executed := executed + [tx];
        } else {
          var sent;
          sent, tx2sSend, outgoing := SendOnward(tx, tx2sSend, outgoing, w);
          if sent && Classify(tx) == Bridge1 {
            bridge1 := bridge1 + [tx];
          } else if sent {
            forwarded := forwarded + [tx];
          }
        }
        w := w';
      }
      assert body[..|body|] == body;
    }

    /** The whole leader commit: no message and no report unless the joint signature verifies. */
    method HandleBridgeLeaderCommit(body: seq<Tx>, signatureOk: bool)
        returns (sent: seq<Msg>, report: Option<Report>)
      requires ValidConfig(cfg) && RoutesInRange(cfg, body)
      modifies this`bridgeBalances
      ensures var w := CommitBody(cfg, shardId, old(bridgeBalances), body);
        && bridgeBalances == w.balances
        && sent == (if signatureOk then Messages(shardId, w.outbox, cfg.shardNum) else [])
        && report == (if signatureOk then Some(ReportOf(w)) else None)
    {
      ghost var w := CommitBody(cfg, shardId, bridgeBalances, body);
      var executed, bridge1, bridge2, forwarded, tx2sSend, outgoing := CommitLoop(body);
      sent, report := [], None;
      if !signatureOk {
        return;
      }
      for sid := 0 to cfg.shardNum
        invariant bridgeBalances == w.balances && sent == Messages(shardId, w.outbox, sid)
      {
        if sid != shardId && |Listed(tx2sSend, sid)| != 0 {
          sent := sent + [Msg(shardId, sid, outgoing[sid], Listed(tx2sSend, sid))];
        }
      }
      report := Some(Report(|executed|, |bridge1|, |bridge2|));
    }

    /** A message from another leader credits the reverse channel and delivers its hops. */
    method HandleSeqIDinfos(m: Msg, senderSeq: nat)
      requires m.to == shardId
      modifies this
      ensures bridgeBalances == Credited(old(bridgeBalances), m)
      ensures pool == old(pool) + m.txs && seqIDMap == old(seqIDMap)[m.from := senderSeq]
    {
      if m.from !in bridgeBalances {
        bridgeBalances := bridgeBalances[m.from := 0];
      }
      bridgeBalances := bridgeBalances[m.from := bridgeBalances[m.from] + m.value];
      if |m.txs| > 0 {
        pool := pool + m.txs;
      }
      seqIDMap := seqIDMap[m.from := senderSeq];
    }
  }

  function Credited(balances: map<nat, int>, m: Msg): map<nat, int> {
    balances[m.from := (if m.from in balances then balances[m.from] else 0) + m.value]
  }
}
