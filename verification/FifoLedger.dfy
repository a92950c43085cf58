/**
 The sharded ledger as its shards see it: relays and announcements travel on first-in-first-out links, each
 shard keeps the sequence numbers it has seen, and it splits its queue when its own test `getPartitionReady`
 passes. Every such run is one of `ShardedLedger`, whose steps wait for what no shard can see.
 */
module FifoLedger {
  import opened Accounts
  import opened Sums
  import opened Ledger
  import opened ShardedLedger
  import opened RelaySteps
  import opened MigrationSteps
  import opened LedgerRuns
  import R = PartitionReady

  /** The ledger, and for each shard what it knows of the others, with the links to it. */
  datatype Net = Net(y: System, rs: seq<R.State>)

  datatype NetEvent =
    | Local(e: Event)              // injection, begin and end of a change, moves, block reports
    | Commit(s: nat, size: nat)
    | Arrive(s: nat, t: nat)       // the first message on the link from s to t
    | Stop(s: nat)
    | Split(s: nat)
    | Adopt(s: nat)

  datatype Maybe<+T> = Nothing | Just(value: T)

  // ----- steps

  predicate IsLocal(e: Event) { e.Inject? || e.Begin? || e.Regroup? || e.Finish? || e.CountReport? || e.LoseReport? }

  /** The guard of `Split` is the shard's own test, and nothing else. */
  ghost predicate NetEnabled(cfg: Config, z: Net, e: NetEvent)
    requires cfg.shardNum > 0
  {
    match e
    case Local(l) => IsLocal(l) && Enabled(cfg, z.y, l)
    case Commit(s, size) => Enabled(cfg, z.y, Block(s, size))
    case Arrive(s, t) => s != t && t < |z.rs| && s < |z.rs[t].senders| && z.rs[t].senders[s].link != []
    case Stop(s) => Enabled(cfg, z.y, BecomeReady(s))
    case Split(s) => s < |z.rs| && s < |z.y.nodes| && z.y.nodes[s].phase.Ready? && R.Ready(z.rs[s])
    case Adopt(s) => Enabled(cfg, z.y, ApplyMap(s))
  }

  function FirstBetween(relays: seq<Relay>, s: nat, t: nat): (i: nat)
    ensures i <= |relays| && (i < |relays| ==> relays[i].from == s && relays[i].to == t)
    ensures forall k :: 0 <= k < i ==> !(relays[k].from == s && relays[k].to == t)
    decreases |relays|
  {
    if relays == [] then 0
    else if relays[0].from == s && relays[0].to == t then 0
    else 1 + FirstBetween(relays[1..], s, t)
  }

  /** What the event is for the ledger: the arrival of a relay delivers the oldest one of its link. */
  function LedgerEvent(z: Net, e: NetEvent): Maybe<Event> {
    match e
    case Local(l) => Just(l)
    case Commit(s, size) => Just(Block(s, size))
    case Arrive(s, t) =>
      if t < |z.rs| && s < |z.rs[t].senders| && z.rs[t].senders[s].link != [] && z.rs[t].senders[s].link[0].RelayMsg?
      then Just(DeliverRelay(FirstBetween(z.y.relays, s, t))) else Nothing
    case Stop(s) => Just(BecomeReady(s))
    case Split(s) => Just(SendMoves(s))
    case Adopt(s) => Just(ApplyMap(s))
  }

  /** What it is for shard `t` and its links. */
  function ShardEvent(e: NetEvent, t: nat): Maybe<R.Event> {
    match e
    case Local(_) => Nothing
    case Commit(s, _) => if t == s then Nothing else Just(R.Block(s))
    case Arrive(s, u) => if t == u then Just(R.Deliver(s)) else Nothing
    case Stop(s) => Just(if t == s then R.AnnounceSelf else R.Announce(s))
    case Split(s) => if t == s then Just(R.Pass) else Nothing
    case Adopt(s) => Just(if t == s then R.ChangeSelf else R.ChangeOther(s))
  }

  /** The shard splits its queue whether or not the ledger could tell that it may. */
  ghost function LedgerNext(cfg: Config, y: System, e: Maybe<Event>): System
    requires cfg.shardNum > 0
  {
    if e.Nothing? then y
    else if e.value.SendMoves? && e.value.s < |y.nodes| then SplitAndSend(cfg, y, e.value.s)
    else if Enabled(cfg, y, e.value) then Apply(cfg, y, e.value)
    else y
  }

  function ShardNext(r: R.State, e: Maybe<R.Event>): R.State {
    if e.Just? && R.Enabled(r, e.value) then R.Apply(r, e.value) else r
  }

  ghost predicate NetFollows(cfg: Config, z: Net, e: NetEvent, z': Net)
    requires cfg.shardNum > 0
  {
    && NetEnabled(cfg, z, e)
    && z'.y == LedgerNext(cfg, z.y, LedgerEvent(z, e))
    && |z'.rs| == |z.rs| && forall t: nat {:trigger z'.rs[t]} :: t < |z.rs| ==> z'.rs[t] == ShardNext(z.rs[t], ShardEvent(e, t))
  }

  function NetStart(cfg: Config, data: seq<Tx>): Net {
    Net(Start(cfg, data), seq(cfg.shardNum, t requires 0 <= t < cfg.shardNum => R.Start(cfg.shardNum, t)))
  }

  ghost predicate NetStepAt(cfg: Config, zs: seq<Net>, es: seq<NetEvent>, i: nat)
    requires cfg.shardNum > 0
  {
    i < |es| && i + 1 < |zs| && NetFollows(cfg, zs[i], es[i], zs[i + 1])
  }

  ghost predicate NetRun(cfg: Config, data: seq<Tx>, zs: seq<Net>, es: seq<NetEvent>)
    requires cfg.shardNum > 0
  {
    && |zs| == |es| + 1 && zs[0] == NetStart(cfg, data)
    && forall i: nat {:trigger NetStepAt(cfg, zs, es, i)} :: i < |es| ==> NetStepAt(cfg, zs, es, i)
  }

  /** The supervisor sends a map only when it has counted a block of the epoch that the last one opened. */
  predicate InTime(z: Net, e: NetEvent) { e.Local? && e.e.Begin? ==> z.y.curEpoch == z.y.epoch }

  ghost predicate Patient(zs: seq<Net>, es: seq<NetEvent>) {
    |zs| == |es| + 1 && forall i :: 0 <= i < |es| ==> InTime(zs[i], es[i])
  }

  // ----- how links and phases belong together

  predicate Stopped(p: Phase) { p.Ready? || p.Sent? }

  function IsBetween(s: nat, t: nat): Relay -> int { (r: Relay) => Bit(r.from == s && r.to == t) }

  ghost predicate PairOk(z: Net, s: nat, t: nat)
    requires t < |z.rs| && s < |z.y.nodes| && t < |z.y.nodes| && s < |z.rs[t].senders|
  {
    var x := z.rs[t].senders[s];
    && (x.announced <==> Stopped(z.y.nodes[s].phase))
    && (Switched(z.y.nodes[t].phase) && x.announced ==> x.heard)
    && Sum(IsBetween(s, t), z.y.relays) == R.RelayCount(x)
  }

  ghost predicate SelfOk(z: Net, t: nat)
    requires t < |z.rs| && t < |z.y.nodes|
  {
    var r, p := z.rs[t], z.y.nodes[t].phase;
    && R.Inv(r) && r.self == t
    && (r.passed <==> p.Sent?) && (t in r.partitionReady <==> Stopped(p)) && (p.Applied? ==> r.partitionReady == {})
  }

  ghost predicate ShardOk(cfg: Config, z: Net, t: nat)
    requires t < |z.rs| == |z.y.nodes| == cfg.shardNum
  {
    && SelfOk(z, t) && |z.rs[t].senders| == cfg.shardNum
    && forall s: nat {:trigger PairOk(z, s, t)} :: s < cfg.shardNum && s != t ==> PairOk(z, s, t)
  }

  ghost predicate BetweenShards(cfg: Config, r: Relay) { r.from < cfg.shardNum && r.to < cfg.shardNum && r.from != r.to }

  ghost predicate NetInv(cfg: Config, z: Net) {
    && cfg.shardNum == |z.rs| == |z.y.nodes|
    && (forall i {:trigger z.y.relays[i]} :: 0 <= i < |z.y.relays| ==> BetweenShards(cfg, z.y.relays[i]))
    && (forall t: nat {:trigger ShardOk(cfg, z, t)} :: t < cfg.shardNum ==> ShardOk(cfg, z, t))
  }

  lemma NetStartHolds(cfg: Config, data: seq<Tx>)
    requires cfg.shardNum > 0
    ensures NetInv(cfg, NetStart(cfg, data))
  {
    var z := NetStart(cfg, data);
    forall t: nat | t < cfg.shardNum
      ensures ShardOk(cfg, z, t)
    {
      R.StartHolds(cfg.shardNum, t);
    }
  }

  // ----- the shard's test tells what the ledger's steps wait for

  lemma NoneBetween(relays: seq<Relay>, s: nat, t: nat, i: nat)
    requires Sum(IsBetween(s, t), relays) == 0 && i < |relays|
    ensures !(relays[i].from == s && relays[i].to == t)
  {
    SumBoundsElement(IsBetween(s, t), relays, i);
  }

  lemma SplitEnabled(cfg: Config, z: Net, s: nat)
    requires cfg.shardNum > 0 && NetInv(cfg, z) && NetEnabled(cfg, z, Split(s))
    ensures Enabled(cfg, z.y, SendMoves(s))
    ensures forall u: nat :: u < cfg.shardNum && u != s ==> u < |z.rs[s].senders| && z.rs[s].senders[u].heard
  {
    assert ShardOk(cfg, z, s);
    forall u: nat | u < cfg.shardNum && u != s
      ensures !z.y.nodes[u].phase.Running? && Sum(IsBetween(u, s), z.y.relays) == 0
      ensures u < |z.rs[s].senders| && z.rs[s].senders[u].heard
    {
      assert PairOk(z, u, s);
      R.ReadyMeansQuiet(z.rs[s], u);
    }
    forall i | 0 <= i < |z.y.relays|
      ensures z.y.relays[i].to != s
    {
      var r := z.y.relays[i];
      assert BetweenShards(cfg, r);
      if r.to == s {
        NoneBetween(z.y.relays, r.from, s, i);
      }
    }
  }

  lemma ArriveEnabled(cfg: Config, z: Net, s: nat, t: nat)
    requires cfg.shardNum > 0 && NetInv(cfg, z) && NetEnabled(cfg, z, Arrive(s, t)) && z.rs[t].senders[s].link[0].RelayMsg?
    ensures FirstBetween(z.y.relays, s, t) < |z.y.relays| && Enabled(cfg, z.y, DeliverRelay(FirstBetween(z.y.relays, s, t)))
  {
    assert ShardOk(cfg, z, t);
    assert R.SenderOk(z.rs[t], s);
    assert PairOk(z, s, t);
    var i := FirstBetween(z.y.relays, s, t);
    if i == |z.y.relays| {
      SumZero(IsBetween(s, t), z.y.relays);
    }
  }

  /** In a state that satisfies both invariants, what the code may do the ledger may do. */
  lemma LedgerMay(cfg: Config, z: Net, e: NetEvent)
    requires cfg.shardNum > 0 && NetInv(cfg, z) && NetEnabled(cfg, z, e)
    ensures var l := LedgerEvent(z, e);
      l.Just? ==> Enabled(cfg, z.y, l.value) && LedgerNext(cfg, z.y, l) == Apply(cfg, z.y, l.value)
  {
    match e
    case Split(s) => SplitEnabled(cfg, z, s);
    case Arrive(s, t) =>
      if z.rs[t].senders[s].link[0].RelayMsg? {
        ArriveEnabled(cfg, z, s, t);
      }
    case _ =>
  }

  // ----- every step keeps links and phases together

  ghost predicate Steps(cfg: Config, z: Net, e: NetEvent, z': Net) {
    && cfg.shardNum > 0 && NetInv(cfg, z) && Shape(cfg, z.y) && Places(cfg, z.y) && NetFollows(cfg, z, e, z')
  }

  /** A shard that has the same phase, for all that matters here, and whose relays have not changed. */
  ghost predicate SamePhase(y: System, y': System, s: nat) {
    && s < |y.nodes| && s < |y'.nodes|
    && var p, p' := y.nodes[s].phase, y'.nodes[s].phase;
       (Stopped(p') <==> Stopped(p)) && (p'.Sent? <==> p.Sent?) && (p'.Applied? ==> p.Applied?)
  }

  /** Where nothing changes for shard `t`, nothing is to be shown. */
  lemma ShardStays(cfg: Config, z: Net, z': Net, t: nat)
    requires NetInv(cfg, z) && t < cfg.shardNum && |z'.rs| == |z'.y.nodes| == cfg.shardNum && z'.rs[t] == z.rs[t]
    requires forall s: nat {:trigger SamePhase(z.y, z'.y, s)} :: s < cfg.shardNum ==> SamePhase(z.y, z'.y, s)
    requires forall s: nat {:trigger IsBetween(s, t)} :: s < cfg.shardNum && s != t ==>
      Sum(IsBetween(s, t), z'.y.relays) == Sum(IsBetween(s, t), z.y.relays)
    ensures ShardOk(cfg, z', t)
  {
    assert ShardOk(cfg, z, t) && SamePhase(z.y, z'.y, t);
    forall s: nat | s < cfg.shardNum && s != t
      ensures PairOk(z', s, t)
    {
      assert PairOk(z, s, t) && SamePhase(z.y, z'.y, s);
      assert Sum(IsBetween(s, t), z'.y.relays) == Sum(IsBetween(s, t), z.y.relays);
    }
  }

  lemma LocalPhases(cfg: Config, y: System, l: Event, s: nat)
    requires Shape(cfg, y) && IsLocal(l) && Enabled(cfg, y, l) && s < cfg.shardNum
    ensures var y' := Apply(cfg, y, l); |y'.nodes| == |y.nodes| && y'.relays == y.relays && SamePhase(y, y', s)
  {
  }

  lemma LocalKeeps(cfg: Config, z: Net, l: Event, z': Net)
    requires Steps(cfg, z, Local(l), z')
    ensures NetInv(cfg, z')
  {
    LedgerMay(cfg, z, Local(l));
    LocalPhases(cfg, z.y, l, 0);
    forall s: nat | s < cfg.shardNum
      ensures SamePhase(z.y, z'.y, s)
    {
      LocalPhases(cfg, z.y, l, s);
    }
    forall t: nat | t < cfg.shardNum
      ensures ShardOk(cfg, z', t)
    {
      assert z'.rs[t] == z.rs[t];
      ShardStays(cfg, z, z', t);
    }
  }

  /** A block sends one relay to every other shard. */
  lemma {:induction false} RelaysBetween(cfg: Config, pm: PartitionMap, sid: nat, body: seq<Tx>, hi: nat, u: nat, t: nat)
    requires cfg.shardNum > 0
    ensures Sum(IsBetween(u, t), RelayMsgs(cfg, pm, sid, body, hi)) == Bit(u == sid && t != sid && t < hi)
  {
    if hi > 0 {
      RelaysBetween(cfg, pm, sid, body, hi - 1, u, t);
      if hi - 1 != sid {
        var r := Relay(sid, hi - 1, RelayTo(cfg, pm, body, hi - 1));
        SumConcat(IsBetween(u, t), RelayMsgs(cfg, pm, sid, body, hi - 1), [r]);
        OneBetween(u, t, r);
      }
    }
  }

  lemma OneBetween(u: nat, t: nat, r: Relay)
    ensures Sum(IsBetween(u, t), [r]) == Bit(r.from == u && r.to == t)
  {
    assert [r][..0] == [];
    assert Sum(IsBetween(u, t), [r][..0]) == 0;
  }

  lemma {:induction false} RelaysAre(cfg: Config, pm: PartitionMap, sid: nat, body: seq<Tx>, hi: nat)
    requires cfg.shardNum > 0
    ensures forall i :: 0 <= i < |RelayMsgs(cfg, pm, sid, body, hi)| ==>
      var r := RelayMsgs(cfg, pm, sid, body, hi)[i]; r.from == sid && r.to < hi && r.to != sid
  {
    if hi > 0 {
      RelaysAre(cfg, pm, sid, body, hi - 1);
    }
  }

  lemma CommitRelays(cfg: Config, y: System, s: nat, size: nat, u: nat, t: nat)
    requires cfg.shardNum > 0 && s < |y.nodes| && size <= |y.nodes[s].pool| && t < cfg.shardNum
    ensures Sum(IsBetween(u, t), CommitBlock(cfg, y, s, size).relays) == Sum(IsBetween(u, t), y.relays) + Bit(u == s && t != s)
  {
    var body := y.nodes[s].pool[..size];
    RelaysBetween(cfg, MapOf(y, s), s, body, cfg.shardNum, u, t);
    SumConcat(IsBetween(u, t), y.relays, RelayMsgs(cfg, MapOf(y, s), s, body, cfg.shardNum));
  }

  lemma CommitMay(cfg: Config, z: Net, s: nat, size: nat, z': Net, t: nat)
    requires Steps(cfg, z, Commit(s, size), z') && t < cfg.shardNum && t != s
    ensures R.Enabled(z.rs[t], R.Block(s)) && z'.rs[t] == R.Apply(z.rs[t], R.Block(s)) && R.Inv(z.rs[t])
  {
    assert ShardOk(cfg, z, t);
    assert PairOk(z, s, t) && R.SenderOk(z.rs[t], s);
    assert z'.rs[t] == ShardNext(z.rs[t], ShardEvent(Commit(s, size), t));
  }

  lemma CommitPair(cfg: Config, z: Net, s: nat, size: nat, z': Net, t: nat, u: nat)
    requires Steps(cfg, z, Commit(s, size), z') && t < cfg.shardNum && u < cfg.shardNum && u != t
    requires z'.y == CommitBlock(cfg, z.y, s, size) && |z'.rs[t].senders| == cfg.shardNum
    ensures PairOk(z', u, t)
  {
    assert ShardOk(cfg, z, t);
    assert PairOk(z, u, t);
    CommitRelays(cfg, z.y, s, size, u, t);
    if t != s {
      CommitMay(cfg, z, s, size, z', t);
      R.CountAfter(z.rs[t], R.Block(s), u);
    } else {
      assert z'.rs[t] == ShardNext(z.rs[t], ShardEvent(Commit(s, size), t));
    }
  }

  lemma CommitShard(cfg: Config, z: Net, s: nat, size: nat, z': Net, t: nat)
    requires Steps(cfg, z, Commit(s, size), z') && t < cfg.shardNum && z'.y == CommitBlock(cfg, z.y, s, size)
    ensures ShardOk(cfg, z', t)
  {
    assert ShardOk(cfg, z, t);
    assert z'.rs[t] == ShardNext(z.rs[t], ShardEvent(Commit(s, size), t));
    if t != s {
      CommitMay(cfg, z, s, size, z', t);
      R.StepKeeps(z.rs[t], R.Block(s), z'.rs[t]);
    }
    forall u: nat | u < cfg.shardNum && u != t
      ensures PairOk(z', u, t)
    {
      CommitPair(cfg, z, s, size, z', t, u);
    }
  }

  lemma CommitNet(cfg: Config, z: Net, s: nat, size: nat, z': Net)
    requires Steps(cfg, z, Commit(s, size), z')
    ensures NetInv(cfg, z')
  {
    LedgerMay(cfg, z, Commit(s, size));
    assert z'.y == CommitBlock(cfg, z.y, s, size);
    RelaysAre(cfg, MapOf(z.y, s), s, z.y.nodes[s].pool[..size], cfg.shardNum);
    forall t: nat | t < cfg.shardNum
      ensures ShardOk(cfg, z', t)
    {
      CommitShard(cfg, z, s, size, z', t);
    }
  }

  /** The ledger after an arrival: unchanged, or without the oldest relay of the link. */
  lemma ArriveLedger(cfg: Config, z: Net, s: nat, t: nat, z': Net)
    requires Steps(cfg, z, Arrive(s, t), z')
    ensures if z.rs[t].senders[s].link[0].RelayMsg?
      then var i := FirstBetween(z.y.relays, s, t); i < |z.y.relays| && z.y.relays[i].to < |z.y.nodes| && z'.y == Deliver(z.y, i)
      else z'.y == z.y
  {
    LedgerMay(cfg, z, Arrive(s, t));
    if z.rs[t].senders[s].link[0].RelayMsg? {
      ArriveEnabled(cfg, z, s, t);
    }
  }

  lemma ArriveRelays(cfg: Config, z: Net, s: nat, t: nat, z': Net, u: nat, v: nat)
    requires Steps(cfg, z, Arrive(s, t), z')
    ensures Sum(IsBetween(u, v), z'.y.relays) == Sum(IsBetween(u, v), z.y.relays) - Bit(u == s && v == t && z.rs[t].senders[s].link[0].RelayMsg?)
  {
    ArriveLedger(cfg, z, s, t, z');
    if z.rs[t].senders[s].link[0].RelayMsg? {
      SumWithout(IsBetween(u, v), z.y.relays, FirstBetween(z.y.relays, s, t));
    }
  }

  lemma ArriveNet(cfg: Config, z: Net, s: nat, t: nat, z': Net)
    requires Steps(cfg, z, Arrive(s, t), z')
    ensures NetInv(cfg, z')
  {
    ArriveLedger(cfg, z, s, t, z');
    forall u: nat | u < cfg.shardNum
      ensures SamePhase(z.y, z'.y, u)
    {
    }
    forall v: nat | v < cfg.shardNum
      ensures ShardOk(cfg, z', v)
    {
      if v == t {
        ArriveShard(cfg, z, s, t, z');
      } else {
        assert z'.rs[v] == z.rs[v];
        forall u: nat | u < cfg.shardNum && u != v
          ensures Sum(IsBetween(u, v), z'.y.relays) == Sum(IsBetween(u, v), z.y.relays)
        {
          ArriveRelays(cfg, z, s, t, z', u, v);
        }
        ShardStays(cfg, z, z', v);
      }
    }
    forall i | 0 <= i < |z'.y.relays|
      ensures BetweenShards(cfg, z'.y.relays[i])
    {
      assert z'.y.relays[i] in z.y.relays;
    }
  }

  lemma ArrivePair(cfg: Config, z: Net, s: nat, t: nat, z': Net, u: nat)
    requires Steps(cfg, z, Arrive(s, t), z') && |z'.y.nodes| == cfg.shardNum && u < cfg.shardNum && u != t
    requires SamePhase(z.y, z'.y, u) && SamePhase(z.y, z'.y, t) && |z'.rs[t].senders| == cfg.shardNum
    requires R.Enabled(z.rs[t], R.Deliver(s)) && z'.rs[t] == R.Apply(z.rs[t], R.Deliver(s))
    ensures PairOk(z', u, t)
  {
    assert ShardOk(cfg, z, t);
    assert PairOk(z, u, t);
    R.CountAfter(z.rs[t], R.Deliver(s), u);
    ArriveRelays(cfg, z, s, t, z', u, t);
  }

  lemma ArriveShard(cfg: Config, z: Net, s: nat, t: nat, z': Net)
    requires Steps(cfg, z, Arrive(s, t), z') && |z'.y.nodes| == cfg.shardNum
    requires forall u: nat {:trigger SamePhase(z.y, z'.y, u)} :: u < cfg.shardNum ==> SamePhase(z.y, z'.y, u)
    ensures ShardOk(cfg, z', t)
  {
    assert ShardOk(cfg, z, t) && SamePhase(z.y, z'.y, t);
    assert PairOk(z, s, t) && R.SenderOk(z.rs[t], s);
    assert z'.rs[t] == R.Apply(z.rs[t], R.Deliver(s));
    R.StepKeeps(z.rs[t], R.Deliver(s), z'.rs[t]);
    forall u: nat | u < cfg.shardNum && u != t
      ensures PairOk(z', u, t)
    {
      assert SamePhase(z.y, z'.y, u);
      ArrivePair(cfg, z, s, t, z', u);
    }
  }

  lemma StopShard(cfg: Config, z: Net, s: nat, z': Net, t: nat)
    requires Steps(cfg, z, Stop(s), z') && t < cfg.shardNum && z'.y == SetPhase(z.y, s, Phase.Ready)
    ensures ShardOk(cfg, z', t)
  {
    assert ShardOk(cfg, z, t);
    assert z'.rs[t] == ShardNext(z.rs[t], ShardEvent(Stop(s), t));
    if t == s {
      R.StepKeeps(z.rs[t], R.AnnounceSelf, z'.rs[t]);
    } else {
      assert PairOk(z, s, t);
      R.StepKeeps(z.rs[t], R.Announce(s), z'.rs[t]);
    }
    forall u: nat | u < cfg.shardNum && u != t
      ensures PairOk(z', u, t)
    {
      assert PairOk(z, u, t);
      if t != s {
        R.CountAfter(z.rs[t], R.Announce(s), u);
      }
    }
  }

  lemma SplitShard(cfg: Config, z: Net, s: nat, z': Net, t: nat)
    requires Steps(cfg, z, Split(s), z') && t < cfg.shardNum && z'.y == SplitAndSend(cfg, z.y, s)
    ensures ShardOk(cfg, z', t)
  {
    assert ShardOk(cfg, z, t);
    assert z'.rs[t] == ShardNext(z.rs[t], ShardEvent(Split(s), t));
    if t == s {
      R.StepKeeps(z.rs[t], R.Pass, z'.rs[t]);
      SplitEnabled(cfg, z, s);
    }
    forall u: nat | u < cfg.shardNum && u != t
      ensures PairOk(z', u, t)
    {
      assert PairOk(z, u, t);
    }
  }

  /** Who sent us accounts has switched. */
  lemma MoverSwitched(cfg: Config, y: System, s: nat, t: nat)
    requires cfg.shardNum > 0 && Places(cfg, y) && Enabled(cfg, y, ApplyMap(s)) && t < |y.nodes| && t != s
    ensures Switched(y.nodes[t].phase)
  {
    assert HasMove(y, t, s);
    var i :| 0 <= i < |y.moves| && y.moves[i].from == t && y.moves[i].to == s;
    assert ValidMove(cfg, y, y.moves[i]);
  }

  lemma AdoptShard(cfg: Config, z: Net, s: nat, z': Net, t: nat)
    requires Steps(cfg, z, Adopt(s), z') && t < cfg.shardNum && z'.y == TakeOver(z.y, s)
    ensures ShardOk(cfg, z', t)
  {
    assert ShardOk(cfg, z, t);
    assert z'.rs[t] == ShardNext(z.rs[t], ShardEvent(Adopt(s), t));
    if t == s {
      R.StepKeeps(z.rs[t], R.ChangeSelf, z'.rs[t]);
    } else {
      MoverSwitched(cfg, z.y, s, t);
      assert PairOk(z, s, t);
      R.StepKeeps(z.rs[t], R.ChangeOther(s), z'.rs[t]);
    }
    forall u: nat | u < cfg.shardNum && u != t
      ensures PairOk(z', u, t)
    {
      assert PairOk(z, u, t);
      if t != s {
        R.CountAfter(z.rs[t], R.ChangeOther(s), u);
      }
    }
  }

  lemma PhaseNet(cfg: Config, z: Net, e: NetEvent, z': Net)
    requires Steps(cfg, z, e, z') && (e.Stop? || e.Split? || e.Adopt?)
    ensures NetInv(cfg, z')
  {
    LedgerMay(cfg, z, e);
    forall t: nat | t < cfg.shardNum
      ensures ShardOk(cfg, z', t)
    {
      match e
      case Stop(s) => StopShard(cfg, z, s, z', t);
      case Split(s) => SplitShard(cfg, z, s, z', t);
      case Adopt(s) => AdoptShard(cfg, z, s, z', t);
    }
  }

  lemma NetStepKeeps(cfg: Config, z: Net, e: NetEvent, z': Net)
    requires Steps(cfg, z, e, z')
    ensures NetInv(cfg, z')
  {
    match e
    case Local(l) => LocalKeeps(cfg, z, l, z');
    case Commit(s, size) => CommitNet(cfg, z, s, size, z');
    case Arrive(s, t) => ArriveNet(cfg, z, s, t, z');
    case _ => PhaseNet(cfg, z, e, z');
  }

  // ----- every state of the shards' own runs is a state of the ledger

  lemma ExtendRun(cfg: Config, data: seq<Tx>, states: seq<System>, events: seq<Event>, e: Event, y: System)
    requires cfg.shardNum > 0 && Run(cfg, data, states, events) && Follows(cfg, states[|events|], e, y)
    ensures Run(cfg, data, states + [y], events + [e]) && (states + [y])[|events + [e]|] == y
  {
    var states', events' := states + [y], events + [e];
    forall i | 0 <= i < |events'|
      ensures Follows(cfg, states'[i], events'[i], states'[i + 1])
    {
      if i < |events| {
        assert Follows(cfg, states[i], events[i], states[i + 1]);
      }
    }
  }

  /** Whatever the shards do by their own tests, the ledger's runs, which wait for what nobody sees, can do too. */
  lemma {:induction false} FifoRefinesLedger(cfg: Config, data: seq<Tx>, zs: seq<Net>, es: seq<NetEvent>, k: nat)
      returns (states: seq<System>, events: seq<Event>)
    requires cfg.shardNum > 0 && RawData(data) && NetRun(cfg, data, zs, es) && k < |zs|
    ensures Run(cfg, data, states, events) && states[|events|] == zs[k].y && NetInv(cfg, zs[k])
  {
    if k == 0 {
      NetStartHolds(cfg, data);
      states, events := [zs[0].y], [];
    } else {
      var z, e, z' := zs[k - 1], es[k - 1], zs[k];
      states, events := FifoRefinesLedger(cfg, data, zs, es, k - 1);
      RunKeeps(cfg, data, states, events, |events|);
      assert NetStepAt(cfg, zs, es, k - 1);
      NetStepKeeps(cfg, z, e, z');
      LedgerMay(cfg, z, e);
      var l := LedgerEvent(z, e);
      if l.Just? {
        ExtendRun(cfg, data, states, events, l.value, z'.y);
        states, events := states + [z'.y], events + [l.value];
      }
    }
  }

  /** Every step of the shards is a step of the ledger, or none. */
  lemma FifoStep(cfg: Config, data: seq<Tx>, zs: seq<Net>, es: seq<NetEvent>, i: nat)
    requires cfg.shardNum > 0 && RawData(data) && NetRun(cfg, data, zs, es) && i < |es|
    ensures Core(cfg, data, zs[i].y) && NetInv(cfg, zs[i])
    ensures var l := LedgerEvent(zs[i], es[i]);
      if l.Just? then Follows(cfg, zs[i].y, l.value, zs[i + 1].y) else zs[i + 1].y == zs[i].y
  {
    var states, events := FifoRefinesLedger(cfg, data, zs, es, i);
    RunKeeps(cfg, data, states, events, |events|);
    assert NetStepAt(cfg, zs, es, i);
    LedgerMay(cfg, zs[i], es[i]);
  }

  lemma FifoSteps(cfg: Config, data: seq<Tx>, zs: seq<Net>, es: seq<NetEvent>, k: nat)
    requires cfg.shardNum > 0 && RawData(data) && NetRun(cfg, data, zs, es) && 0 < k < |zs|
    ensures Steps(cfg, zs[k - 1], es[k - 1], zs[k])
  {
    FifoStep(cfg, data, zs, es, k - 1);
    assert NetStepAt(cfg, zs, es, k - 1);
  }

  /** With the shards' own test, too, no shard meets a misplaced transaction. */
  lemma FifoNoIncorrectTx(cfg: Config, data: seq<Tx>, zs: seq<Net>, es: seq<NetEvent>, k: nat, s: nat, i: nat)
    requires cfg.shardNum > 0 && RawData(data) && NetRun(cfg, data, zs, es) && k < |zs| && s < |zs[k].y.nodes|
    ensures var y := zs[k].y;
      ((y.nodes[s].phase.Running? || y.nodes[s].phase.Applied?) && i < |y.nodes[s].pool|) ==>
        Home(MapOf(y, s), Key(y.nodes[s].pool[i]), cfg.shardNum) == s
    ensures var y := zs[k].y;
      i < |ArrivingTxs(y.moves, s)| ==> var key := Key(ArrivingTxs(y.moves, s)[i]); key in y.change && y.change[key] == s
  {
    var states, events := FifoRefinesLedger(cfg, data, zs, es, k);
    NoIncorrectTx(cfg, data, states, events, |events|, s, i);
  }

  lemma FifoSameViews(cfg: Config, data: seq<Tx>, zs: seq<Net>, es: seq<NetEvent>, i: nat)
    requires cfg.shardNum > 0 && RawData(data) && NetRun(cfg, data, zs, es) && i < |es| && !es[i].Commit?
    ensures SameViews(cfg, zs[i].y, zs[i + 1].y)
  {
    FifoStep(cfg, data, zs, es, i);
    var l := LedgerEvent(zs[i], es[i]);
    assert NetStepAt(cfg, zs, es, i);
    if l.Just? {
      OtherKeeps(cfg, data, zs[i].y, l.value);
    }
  }

  /** Nor does a change of the map alter what an account looks like. */
  lemma {:induction false} FifoMigrationInvisible(cfg: Config, data: seq<Tx>, zs: seq<Net>, es: seq<NetEvent>, j: nat, k: nat, a: Address)
    requires cfg.shardNum > 0 && RawData(data) && NetRun(cfg, data, zs, es) && j <= k < |zs|
    requires forall i :: j <= i < k ==> !es[i].Commit?
    ensures View(cfg, zs[k].y, a) == View(cfg, zs[j].y, a)
  {
    if j < k {
      FifoMigrationInvisible(cfg, data, zs, es, j, k - 1, a);
      FifoSameViews(cfg, data, zs, es, k - 1);
    }
  }

  /** And once all have applied the map, everything is at its one new home. */
  lemma FifoAppliedEverywhere(cfg: Config, data: seq<Tx>, zs: seq<Net>, es: seq<NetEvent>, k: nat)
    requires cfg.shardNum > 0 && RawData(data) && NetRun(cfg, data, zs, es) && k < |zs| && AllApplied(zs[k].y)
    ensures AtNewHomes(cfg, zs[k].y)
  {
    var states, events := FifoRefinesLedger(cfg, data, zs, es, k);
    AppliedEverywhere(cfg, data, states, events, |events|);
  }

  /** Relays and announcements in order suffice: the test passes only when every other shard has stopped and its relays are in. */
  lemma ReadyMeansQuiet(cfg: Config, data: seq<Tx>, zs: seq<Net>, es: seq<NetEvent>, k: nat, s: nat)
    requires cfg.shardNum > 0 && RawData(data) && NetRun(cfg, data, zs, es) && k < |zs| && NetEnabled(cfg, zs[k], Split(s))
    ensures var y := zs[k].y;
      && (forall t :: 0 <= t < |y.nodes| ==> !y.nodes[t].phase.Running?)
      && (forall i :: 0 <= i < |y.relays| ==> y.relays[i].to != s)
  {
    var states, events := FifoRefinesLedger(cfg, data, zs, es, k);
    SplitEnabled(cfg, zs[k], s);
  }

  // ----- what the supervisor waits for

  /** Event `c` commits a block in epoch `q`. */
  ghost predicate CommitIn(zs: seq<Net>, es: seq<NetEvent>, c: nat, q: nat) {
    && c < |es| && c < |zs| && es[c].Commit? && es[c].s < |zs[c].y.nodes|
    && EpochOf(zs[c].y, es[c].s) == q
  }

  ghost predicate BlockIn(zs: seq<Net>, es: seq<NetEvent>, k: nat, q: nat) {
    exists c: nat :: c < k && CommitIn(zs, es, c, q)
  }

  /** A report comes from a block, and an epoch the committee hears of from a report. */
  lemma ReportsAfter(cfg: Config, y: System, e: Event, y': System)
    requires cfg.shardNum > 0 && Follows(cfg, y, e, y')
    ensures forall r :: r in y'.reports ==> r in y.reports || (e.Block? && e.s < |y.nodes| && r.epoch == EpochOf(y, e.s))
    ensures y'.curEpoch == y.curEpoch || exists r :: r in y.reports && r.epoch == y'.curEpoch
  {
    if e.CountReport? {
      assert y.reports[e.i] in y.reports;
    }
  }

  lemma NetReportsAfter(cfg: Config, data: seq<Tx>, zs: seq<Net>, es: seq<NetEvent>, k: nat)
    requires cfg.shardNum > 0 && RawData(data) && NetRun(cfg, data, zs, es) && k < |es|
    ensures forall r :: r in zs[k + 1].y.reports ==> r in zs[k].y.reports || CommitIn(zs, es, k, r.epoch)
    ensures zs[k + 1].y.curEpoch == zs[k].y.curEpoch || exists r :: r in zs[k].y.reports && r.epoch == zs[k + 1].y.curEpoch
  {
    FifoStep(cfg, data, zs, es, k);
    assert NetStepAt(cfg, zs, es, k);
    var l := LedgerEvent(zs[k], es[k]);
    if l.Just? {
      ReportsAfter(cfg, zs[k].y, l.value, zs[k + 1].y);
      assert l.value.Block? ==> es[k] == Commit(l.value.s, l.value.size);
    }
  }

  lemma {:induction false} EpochsHeard(cfg: Config, data: seq<Tx>, zs: seq<Net>, es: seq<NetEvent>, k: nat)
    requires cfg.shardNum > 0 && RawData(data) && NetRun(cfg, data, zs, es) && k < |zs|
    ensures forall r :: r in zs[k].y.reports ==> BlockIn(zs, es, k, r.epoch)
    ensures zs[k].y.curEpoch > 0 ==> BlockIn(zs, es, k, zs[k].y.curEpoch)
  {
    if k > 0 {
      EpochsHeard(cfg, data, zs, es, k - 1);
      NetReportsAfter(cfg, data, zs, es, k - 1);
      forall q: nat | BlockIn(zs, es, k - 1, q) || CommitIn(zs, es, k - 1, q)
        ensures BlockIn(zs, es, k, q)
      {
        if BlockIn(zs, es, k - 1, q) {
          var c: nat :| c < k - 1 && CommitIn(zs, es, c, q);
        }
      }
    }
  }

  /** A change after the first begins only when some shard has committed a block since the change before. */
  lemma BeginAfterBlock(cfg: Config, data: seq<Tx>, zs: seq<Net>, es: seq<NetEvent>, k: nat)
    requires cfg.shardNum > 0 && RawData(data) && NetRun(cfg, data, zs, es) && Patient(zs, es)
    requires k < |es| && es[k].Local? && es[k].e.Begin? && zs[k].y.epoch > 0
    ensures BlockIn(zs, es, k, zs[k].y.epoch)
  {
    EpochsHeard(cfg, data, zs, es, k);
    assert InTime(zs[k], es[k]);
  }

  // ----- a change that hangs

  /** All shards have stopped, everything has arrived at shard `t`, and its test fails. */
  ghost predicate Stuck(cfg: Config, z: Net, t: nat) {
    && t < cfg.shardNum == |z.y.nodes| == |z.rs| && z.y.changing
    && (forall s {:trigger z.y.nodes[s]} :: 0 <= s < |z.y.nodes| ==> Stopped(z.y.nodes[s].phase))
    && z.y.nodes[t].phase.Ready? && R.Settled(z.rs[t]) && !R.Ready(z.rs[t])
  }

  lemma LinksEmpty(cfg: Config, z: Net, t: nat)
    requires NetInv(cfg, z) && t < cfg.shardNum && R.Settled(z.rs[t])
    ensures forall s: nat :: R.Other(z.rs[t], s) ==> z.rs[t].senders[s].link == []
  {
    assert ShardOk(cfg, z, t);
    forall s: nat | R.Other(z.rs[t], s)
      ensures z.rs[t].senders[s].link == []
    {
      assert R.SenderOk(z.rs[t], s);
    }
  }

  /** What can still happen then. */
  lemma StuckAllows(cfg: Config, z: Net, e: NetEvent, z': Net, t: nat)
    requires Steps(cfg, z, e, z') && Stuck(cfg, z, t)
    ensures match e
      case Local(l) => l.Regroup? || l.CountReport? || l.LoseReport?
      case Arrive(s, u) => u != t
      case Split(s) => s != t
      case _ => false
  {
    LinksEmpty(cfg, z, t);
    assert ShardOk(cfg, z, t);
    assert !e.Commit?;
    assert !e.Stop?;
    assert e.Split? ==> e.s != t;
    assert e.Arrive? ==> e.t != t;
    assert e.Local? ==> !e.e.Begin? && !e.e.Finish?;
    assert e.Local? ==> !e.e.Inject?;
    if e.Adopt? && e.s != t {
      MoverSwitched(cfg, z.y, e.s, t);
    }
  }

  lemma StuckStays(cfg: Config, z: Net, e: NetEvent, z': Net, t: nat)
    requires Steps(cfg, z, e, z') && Stuck(cfg, z, t)
    ensures Stuck(cfg, z', t)
  {
    StuckAllows(cfg, z, e, z', t);
    LedgerMay(cfg, z, e);
    assert z'.rs[t] == ShardNext(z.rs[t], ShardEvent(e, t)) == z.rs[t];
    if e.Arrive? {
      ArriveLedger(cfg, z, e.s, e.t, z');
    }
  }

  lemma StuckNext(cfg: Config, data: seq<Tx>, zs: seq<Net>, es: seq<NetEvent>, k: nat, t: nat)
    requires cfg.shardNum > 0 && RawData(data) && NetRun(cfg, data, zs, es) && 0 < k < |zs| && Stuck(cfg, zs[k - 1], t)
    ensures Stuck(cfg, zs[k], t)
  {
    FifoSteps(cfg, data, zs, es, k);
    StuckStays(cfg, zs[k - 1], es[k - 1], zs[k], t);
  }

  /** Then the change hangs for ever: no shard ever applies the map. */
  lemma {:induction false} StuckForEver(cfg: Config, data: seq<Tx>, zs: seq<Net>, es: seq<NetEvent>, j: nat, k: nat, t: nat)
    requires cfg.shardNum > 0 && RawData(data) && NetRun(cfg, data, zs, es) && j <= k < |zs| && Stuck(cfg, zs[j], t)
    ensures Stuck(cfg, zs[k], t)
  {
    if j < k {
      StuckForEver(cfg, data, zs, es, j, k - 1, t);
      StuckNext(cfg, data, zs, es, k, t);
    }
  }

  /** That is so exactly if some shard that ever relayed to it has committed no block since its last change. */
  lemma StuckIff(cfg: Config, data: seq<Tx>, zs: seq<Net>, es: seq<NetEvent>, k: nat, t: nat)
    requires cfg.shardNum > 0 && RawData(data) && NetRun(cfg, data, zs, es) && k < |zs| && t < cfg.shardNum
    requires |zs[k].y.nodes| == |zs[k].rs| == cfg.shardNum && zs[k].y.changing && R.Settled(zs[k].rs[t])
    requires forall s :: 0 <= s < |zs[k].y.nodes| ==> zs[k].y.nodes[s].phase.Ready?
    ensures Stuck(cfg, zs[k], t) <==>
      exists s: nat :: R.Other(zs[k].rs[t], s) && zs[k].rs[t].senders[s].everRelayed && zs[k].rs[t].senders[s].blocks == 0
  {
    var states, events := FifoRefinesLedger(cfg, data, zs, es, k);
    assert ShardOk(cfg, zs[k], t);
    R.ReadyIff(zs[k].rs[t]);
  }
}
