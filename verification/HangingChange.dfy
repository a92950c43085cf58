/**
 A run of two shards, step by step, in which the second change of the partition map hangs: shard 1 has relayed
 once and then takes part in two changes, between which only shard 0 commits a block.
 */
module HangingChange {
  import opened Accounts
  import opened Sums
  import opened Ledger
  import opened ShardedLedger
  import opened FifoLedger
  import R = PartitionReady

  function Two(): Config { Config(2, 0) }

  function Peer(s: nat): nat { if s == 0 then 1 else 0 }

  /** A ledger of two shards without accounts or transactions, after `epoch` changes of which the committee has heard of `cur`. */
  function Bare(p0: Phase, p1: Phase, moves: seq<Move>, changing: bool, epoch: nat, cur: nat): System {
    System([], [Node(map[], [], p0), Node(map[], [], p1)], [], moves, map[], map[], changing, 0, 0, 0, [], 0, 0, 0, epoch, cur)
  }

  /** Both shards run, and what shard `s` sent after an empty block is still on its way. */
  function Sending(s: nat, reports: seq<Report>, epoch: nat, cur: nat): System {
    Bare(Running, Running, [], false, epoch, cur).(relays := [Relay(s, Peer(s), [])], reports := reports)
  }

  function ToOther(s: nat): Move { Move(s, Peer(s), map[], []) }

  function Idle(): R.Sender { R.Sender(1, false, false, 0, false, []) }

  /** What shard 0 knows, with shard 1 and its link. */
  function At0(x: R.Sender, seen: map<nat, nat>, ready: map<nat, nat>, who: set<nat>, passed: bool): R.State {
    R.State(0, [Idle(), x], seen, ready, who, passed)
  }

  /** What shard 1 knows, with shard 0 and its link. */
  function At1(x: R.Sender, seen: map<nat, nat>, ready: map<nat, nat>, who: set<nat>, passed: bool): R.State {
    R.State(1, [x, Idle()], seen, ready, who, passed)
  }

  // ----- steps of the ledger

  lemma EmptyRelays(s: nat)
    requires s < 2
    ensures RelayMsgs(Two(), map[], s, [], 2) == [Relay(s, Peer(s), [])]
  {
    assert RelayMsgs(Two(), map[], s, [], 1) == if s == 0 then [] else [Relay(1, 0, [])];
  }

  lemma BareCommit(s: nat, epoch: nat, cur: nat)
    requires s < 2
    ensures var y := Bare(Running, Running, [], false, epoch, cur);
      Enabled(Two(), y, Block(s, 0)) && Apply(Two(), y, Block(s, 0)) == Sending(s, [Report(0, 0, 0, epoch)], epoch, cur)
  {
    var y := Bare(Running, Running, [], false, epoch, cur);
    EmptyRelays(s);
    assert y.nodes[s].pool[..0] == [];
    var y' := CommitBlock(Two(), y, s, 0);
    assert y'.nodes == [y.nodes[0], y.nodes[1]];
    assert y'.relays == [Relay(s, Peer(s), [])] && y'.reports == [Report(0, 0, 0, epoch)];
  }

  lemma BareCount(s: nat, epoch: nat, cur: nat)
    requires s < 2
    ensures var y := Sending(s, [Report(0, 0, 0, epoch)], epoch, cur);
      && Enabled(Two(), y, CountReport(0))
      && Apply(Two(), y, CountReport(0)) == Sending(s, [], epoch, if epoch == cur + 1 then epoch else cur)
  {
    assert Without([Report(0, 0, 0, epoch)], 0) == [];
  }

  lemma BareDeliver(s: nat, epoch: nat, cur: nat)
    requires s < 2
    ensures var y := Sending(s, [], epoch, cur);
      && FirstBetween(y.relays, s, Peer(s)) == 0 && Enabled(Two(), y, DeliverRelay(0))
      && Apply(Two(), y, DeliverRelay(0)) == Bare(Running, Running, [], false, epoch, cur)
  {
    var y := Sending(s, [], epoch, cur);
    var y' := Deliver(y, 0);
    assert y.nodes[Peer(s)].pool + y.relays[0].txs == [];
    assert y'.nodes[0] == y.nodes[0] && y'.nodes[1] == y.nodes[1];
    assert y'.nodes == y.nodes;
    assert y'.relays == [];
  }

  lemma BareBegin(epoch: nat)
    ensures var y := Bare(Running, Running, [], false, epoch, epoch);
      && Enabled(Two(), y, Begin(map[])) && Apply(Two(), y, Begin(map[])) == Bare(Running, Running, [], true, epoch, epoch)
  {
  }

  lemma BareStop(epoch: nat, cur: nat)
    ensures var y := Bare(Running, Running, [], true, epoch, cur); var y' := Bare(Running, Ready, [], true, epoch, cur);
      && Enabled(Two(), y, BecomeReady(1)) && Apply(Two(), y, BecomeReady(1)) == y'
      && Enabled(Two(), y', BecomeReady(0)) && Apply(Two(), y', BecomeReady(0)) == Bare(Ready, Ready, [], true, epoch, cur)
  {
    var y, y' := Bare(Running, Running, [], true, epoch, cur), Bare(Running, Ready, [], true, epoch, cur);
    assert SetPhase(y, 1, Ready).nodes == y'.nodes;
    assert SetPhase(y', 0, Ready).nodes == Bare(Ready, Ready, [], true, epoch, cur).nodes;
  }

  lemma BareMoves(y: System, s: nat)
    requires s < 2 == |y.nodes| && y.change == map[] && y.nodes[s].pool == []
    ensures MovesFrom(Two(), y, s, 2) == [ToOther(s)]
  {
    assert Departing(Two(), y, s, ToOther(s).to) == map[];
    if s == 0 {
      assert MovesFrom(Two(), y, s, 1) == [];
    } else {
      assert MovesFrom(Two(), y, s, 1) == [ToOther(1)];
    }
  }

  lemma BareSplit(epoch: nat, cur: nat)
    ensures var y := Bare(Ready, Ready, [], true, epoch, cur); var y' := Bare(Sent, Ready, [ToOther(0)], true, epoch, cur);
      && SplitAndSend(Two(), y, 0) == y'
      && SplitAndSend(Two(), y', 1) == Bare(Sent, Sent, [ToOther(0), ToOther(1)], true, epoch, cur)
  {
    var y, y' := Bare(Ready, Ready, [], true, epoch, cur), Bare(Sent, Ready, [ToOther(0)], true, epoch, cur);
    BareMoves(y, 0);
    BareMoves(y', 1);
    assert SplitAndSend(Two(), y, 0).nodes == y'.nodes;
    assert SplitAndSend(Two(), y', 1).nodes == Bare(Sent, Sent, [], true, epoch, cur).nodes;
  }

  lemma BothMoves()
    ensures var moves := [ToOther(0), ToOther(1)];
      ArrivingAccounts(moves, 0) == map[] && ArrivingTxs(moves, 0) == [] && NotFor(moves, 0) == [ToOther(0)]
  {
    var one, moves := [ToOther(0)], [ToOther(0), ToOther(1)];
    assert one[..0] == [] && moves[..1] == one;
    assert ArrivingAccounts(one, 0) == map[] && ArrivingTxs(one, 0) == [] && NotFor(one, 0) == one;
  }

  lemma BareAdopt0(epoch: nat, cur: nat)
    ensures var y := Bare(Sent, Sent, [ToOther(0), ToOther(1)], true, epoch, cur);
      Enabled(Two(), y, ApplyMap(0)) && Apply(Two(), y, ApplyMap(0)) == Bare(Applied, Sent, [ToOther(0)], true, epoch, cur)
  {
    var y := Bare(Sent, Sent, [ToOther(0), ToOther(1)], true, epoch, cur);
    assert y.moves[1].from == 1 && y.moves[1].to == 0;
    assert HasMove(y, 1, 0);
    BothMoves();
    assert TakeOver(y, 0).nodes == [Node(map[], [], Applied), y.nodes[1]];
  }

  lemma BareAdopt1(epoch: nat, cur: nat)
    ensures var y := Bare(Applied, Sent, [ToOther(0)], true, epoch, cur);
      Enabled(Two(), y, ApplyMap(1)) && Apply(Two(), y, ApplyMap(1)) == Bare(Applied, Applied, [], true, epoch, cur)
  {
    var y := Bare(Applied, Sent, [ToOther(0)], true, epoch, cur);
    assert y.moves[0].from == 0 && y.moves[0].to == 1;
    assert HasMove(y, 0, 1);
    assert y.moves[..0] == [];
    assert ArrivingAccounts(y.moves, 1) == map[] && ArrivingTxs(y.moves, 1) == [] && NotFor(y.moves, 1) == [];
    assert TakeOver(y, 1).nodes == [y.nodes[0], Node(map[], [], Applied)];
  }

  lemma BareFinish(epoch: nat, cur: nat)
    ensures var y := Bare(Applied, Applied, [], true, epoch, cur);
      Enabled(Two(), y, Finish) && Apply(Two(), y, Finish) == Bare(Running, Running, [], false, epoch + 1, cur)
  {
    var y := Bare(Applied, Applied, [], true, epoch, cur);
    assert Apply(Two(), y, Finish).nodes == Bare(Running, Running, [], false, epoch + 1, cur).nodes;
    assert NewMap(y) == map[];
  }

  // ----- steps of the shards

  /** Events of shard 1, as shard 0 sees them. */
  lemma Sees0(x: R.Sender, seen: map<nat, nat>, ready: map<nat, nat>, who: set<nat>, passed: bool)
    ensures var r := At0(x, seen, ready, who, passed);
      && (!x.announced ==> ShardNext(r, Just(R.Block(1))) == At0(R.Relayed(x), seen, ready, who, passed))
      && (!x.announced && !passed ==> ShardNext(r, Just(R.Announce(1))) == At0(R.Announced(x), seen, ready, who, passed))
      && (x.announced && x.heard && (passed || 1 !in who) ==> ShardNext(r, Just(R.ChangeOther(1))) == At0(R.Changed(x), seen, ready, who, passed))
  {
    assert forall x' :: [Idle(), x][1 := x'] == [Idle(), x'];
  }

  lemma Sees1(x: R.Sender, seen: map<nat, nat>, ready: map<nat, nat>, who: set<nat>, passed: bool)
    ensures var r := At1(x, seen, ready, who, passed);
      && (!x.announced ==> ShardNext(r, Just(R.Block(0))) == At1(R.Relayed(x), seen, ready, who, passed))
      && (!x.announced && !passed ==> ShardNext(r, Just(R.Announce(0))) == At1(R.Announced(x), seen, ready, who, passed))
      && (x.announced && x.heard && (passed || 0 !in who) ==> ShardNext(r, Just(R.ChangeOther(0))) == At1(R.Changed(x), seen, ready, who, passed))
  {
    assert forall x' :: [x, Idle()][0 := x'] == [x', Idle()];
  }

  /** The only message of a link arrives. */
  lemma Hears0(x: R.Sender, m: R.Msg, seen: map<nat, nat>, ready: map<nat, nat>, who: set<nat>, passed: bool)
    requires x.link == [m]
    ensures ShardNext(At0(x, seen, ready, who, passed), Just(R.Deliver(1)))
      == match m
         case RelayMsg(q) => At0(x.(link := []), seen[1 := q], ready, who, passed)
         case ReadyMsg(q) => At0(x.(link := [], heard := true), seen, ready[1 := q], who + {1}, passed)
  {
    assert x.link[1..] == [];
    assert forall x' :: [Idle(), x][1 := x'] == [Idle(), x'];
    assert forall x', x'' :: [Idle(), x'][1 := x''] == [Idle(), x''];
  }

  lemma Hears1(x: R.Sender, m: R.Msg, seen: map<nat, nat>, ready: map<nat, nat>, who: set<nat>, passed: bool)
    requires x.link == [m]
    ensures ShardNext(At1(x, seen, ready, who, passed), Just(R.Deliver(0)))
      == match m
         case RelayMsg(q) => At1(x.(link := []), seen[0 := q], ready, who, passed)
         case ReadyMsg(q) => At1(x.(link := [], heard := true), seen, ready[0 := q], who + {0}, passed)
  {
    assert x.link[1..] == [];
    assert forall x' :: [x, Idle()][0 := x'] == [x', Idle()];
    assert forall x', x'' :: [x', Idle()][0 := x''] == [x'', Idle()];
  }

  // ----- the run

  ghost predicate Trace(zs: seq<Net>, es: seq<NetEvent>) { NetRun(Two(), [], zs, es) && Patient(zs, es) }

  lemma Extend(zs: seq<Net>, es: seq<NetEvent>, e: NetEvent, z: Net)
    requires Trace(zs, es) && NetFollows(Two(), zs[|es|], e, z) && InTime(zs[|es|], e)
    ensures Trace(zs + [z], es + [e]) && (zs + [z])[|es + [e]|] == z
  {
    var zs', es' := zs + [z], es + [e];
    forall i: nat | i < |es'|
      ensures NetStepAt(Two(), zs', es', i) && InTime(zs'[i], es'[i])
    {
      if i < |es| {
        assert NetStepAt(Two(), zs, es, i) && InTime(zs[i], es[i]);
      }
    }
  }

  /** A run in which the supervisor waits as it should ends in state `z`. */
  ghost predicate Reached(z: Net) {
    exists zs, es :: Trace(zs, es) && zs[|es|] == z
  }

  lemma Next(z: Net, e: NetEvent, z': Net)
    requires NetEnabled(Two(), z, e) && |z.rs| == |z'.rs| == 2 && z'.y == LedgerNext(Two(), z.y, LedgerEvent(z, e))
    requires z'.rs[0] == ShardNext(z.rs[0], ShardEvent(e, 0)) && z'.rs[1] == ShardNext(z.rs[1], ShardEvent(e, 1))
    ensures NetFollows(Two(), z, e, z')
  {
  }

  lemma Reach(z: Net, e: NetEvent, z': Net)
    requires Reached(z) && NetEnabled(Two(), z, e) && InTime(z, e)
    requires |z.rs| == |z'.rs| == 2 && z'.y == LedgerNext(Two(), z.y, LedgerEvent(z, e))
    requires z'.rs[0] == ShardNext(z.rs[0], ShardEvent(e, 0)) && z'.rs[1] == ShardNext(z.rs[1], ShardEvent(e, 1))
    ensures Reached(z')
  {
    Next(z, e, z');
    var zs, es :| Trace(zs, es) && zs[|es|] == z;
    Extend(zs, es, e, z');
  }

  lemma AtStart() returns (z: Net)
    ensures z == Net(Bare(Running, Running, [], false, 0, 0), [At0(Idle(), map[], map[], {}, false), At1(Idle(), map[], map[], {}, false)])
    ensures Reached(z)
  {
    z := Net(Bare(Running, Running, [], false, 0, 0), [At0(Idle(), map[], map[], {}, false), At1(Idle(), map[], map[], {}, false)]);
    var start := NetStart(Two(), []);
    assert start.y.nodes == z.y.nodes && start.rs[0] == z.rs[0] && start.rs[1] == z.rs[1] && start.rs == z.rs;
    assert Trace([start], []);
  }

  /** A shard commits an empty block, and its report is counted. */
  lemma CommitAndCount(s: nat, epoch: nat, cur: nat, rs: seq<R.State>, z: Net) returns (z': Net)
    requires s < 2 && |rs| == |z.rs| == 2 && z.y == Bare(Running, Running, [], false, epoch, cur) && Reached(z)
    requires rs[0] == ShardNext(z.rs[0], ShardEvent(Commit(s, 0), 0)) && rs[1] == ShardNext(z.rs[1], ShardEvent(Commit(s, 0), 1))
    ensures z' == Net(Sending(s, [], epoch, if epoch == cur + 1 then epoch else cur), rs) && Reached(z')
  {
    BareCommit(s, epoch, cur);
    var z1 := Net(Sending(s, [Report(0, 0, 0, epoch)], epoch, cur), rs);
    Reach(z, Commit(s, 0), z1);
    BareCount(s, epoch, cur);
    z' := Net(Sending(s, [], epoch, if epoch == cur + 1 then epoch else cur), rs);
    Reach(z1, Local(CountReport(0)), z');
  }

  /** Shard 1 commits a block, its report is counted and its relay arrives. */
  lemma Block1(z: Net) returns (x: R.Sender, z': Net)
    requires z == Net(Bare(Running, Running, [], false, 0, 0), [At0(Idle(), map[], map[], {}, false), At1(Idle(), map[], map[], {}, false)])
    requires Reached(z)
    ensures x == R.Sender(2, false, false, 1, true, [])
    ensures z' == z.(rs := [At0(x, map[1 := 1], map[], {}, false), z.rs[1]]) && Reached(z')
  {
    var x1, r1 := R.Relayed(Idle()), z.rs[1];
    Sees0(Idle(), map[], map[], {}, false);
    var z2 := CommitAndCount(1, 0, 0, [At0(x1, map[], map[], {}, false), r1], z);
    BareDeliver(1, 0, 0);
    assert x1.link == [R.RelayMsg(1)];
    Hears0(x1, R.RelayMsg(1), map[], map[], {}, false);
    x := x1.(link := []);
    z' := z.(rs := [At0(x, map[1 := 1], map[], {}, false), r1]);
    Reach(z2, Arrive(1, 0), z');
  }

  /** Shard 0 commits a block after the first change; its report tells the committee of the new epoch. */
  lemma Block0(x: R.Sender, ready: map<nat, nat>, r0: R.State, z: Net) returns (x': R.Sender, z': Net)
    requires !x.announced && x.link == [] && Reached(z)
    requires z == Net(Bare(Running, Running, [], false, 1, 0), [r0, At1(x, map[], ready, {}, false)])
    ensures x' == R.Relayed(x).(link := [])
    ensures z' == Net(Bare(Running, Running, [], false, 1, 1), [r0, At1(x', map[0 := x.nextSeq], ready, {}, false)]) && Reached(z')
  {
    var x1 := R.Relayed(x);
    Sees1(x, map[], ready, {}, false);
    var z2 := CommitAndCount(0, 1, 0, [r0, At1(x1, map[], ready, {}, false)], z);
    BareDeliver(0, 1, 1);
    assert x1.link == [R.RelayMsg(x.nextSeq)];
    Hears1(x1, R.RelayMsg(x.nextSeq), map[], ready, {}, false);
    x' := x1.(link := []);
    z' := Net(Bare(Running, Running, [], false, 1, 1), [r0, At1(x', map[0 := x.nextSeq], ready, {}, false)]);
    Reach(z2, Arrive(0, 1), z');
  }

  lemma Begins(epoch: nat, z: Net) returns (z': Net)
    requires z.y == Bare(Running, Running, [], false, epoch, epoch) && |z.rs| == 2 && Reached(z)
    ensures z' == Net(Bare(Running, Running, [], true, epoch, epoch), z.rs) && Reached(z')
  {
    BareBegin(epoch);
    z' := Net(Bare(Running, Running, [], true, epoch, epoch), z.rs);
    Reach(z, Local(Begin(map[])), z');
  }

  /** Shard 1 stops, and its announcement arrives. */
  lemma Stop1(epoch: nat, x: R.Sender, ready: map<nat, nat>, x': R.Sender, seen1: map<nat, nat>, ready1: map<nat, nat>, z: Net) returns (z': Net)
    requires !x.announced && x.link == [] && Reached(z)
    requires z == Net(Bare(Running, Running, [], true, epoch, epoch),
                      [At0(x, map[1 := 1], ready, {}, false), At1(x', seen1, ready1, {}, false)])
    ensures z' == Net(Bare(Running, Ready, [], true, epoch, epoch),
                      [At0(x.(announced := true, heard := true), map[1 := 1], ready[1 := x.nextSeq], {1}, false),
                       At1(x', seen1, ready1, {1}, false)])
    ensures Reached(z')
  {
    BareStop(epoch, epoch);
    Sees0(x, map[1 := 1], ready, {}, false);
    var a, r1 := R.Announced(x), At1(x', seen1, ready1, {1}, false);
    var z1 := Net(Bare(Running, Ready, [], true, epoch, epoch), [At0(a, map[1 := 1], ready, {}, false), r1]);
    Reach(z, Stop(1), z1);
    Hears0(a, R.ReadyMsg(x.nextSeq), map[1 := 1], ready, {}, false);
    z' := z1.(rs := [At0(x.(announced := true, heard := true), map[1 := 1], ready[1 := x.nextSeq], {1}, false), r1]);
    Reach(z1, Arrive(1, 0), z');
  }

  /** Shard 0 stops, and its announcement arrives. */
  lemma Stop0(epoch: nat, h: R.Sender, ready: map<nat, nat>, x: R.Sender, seen1: map<nat, nat>, ready1: map<nat, nat>, z: Net) returns (z': Net)
    requires !x.announced && x.link == [] && Reached(z)
    requires z == Net(Bare(Running, Ready, [], true, epoch, epoch),
                      [At0(h, map[1 := 1], ready, {1}, false), At1(x, seen1, ready1, {1}, false)])
    ensures z' == Net(Bare(Ready, Ready, [], true, epoch, epoch),
                      [At0(h, map[1 := 1], ready, {1, 0}, false),
                       At1(x.(announced := true, heard := true), seen1, ready1[0 := x.nextSeq], {1, 0}, false)])
    ensures Reached(z')
  {
    BareStop(epoch, epoch);
    Sees1(x, seen1, ready1, {1}, false);
    var a, r0 := R.Announced(x), At0(h, map[1 := 1], ready, {1, 0}, false);
    var z1 := Net(Bare(Ready, Ready, [], true, epoch, epoch), [r0, At1(a, seen1, ready1, {1}, false)]);
    Reach(z, Stop(0), z1);
    Hears1(a, R.ReadyMsg(x.nextSeq), seen1, ready1, {1}, false);
    z' := z1.(rs := [r0, At1(x.(announced := true, heard := true), seen1, ready1[0 := x.nextSeq], {1, 0}, false)]);
    Reach(z1, Arrive(0, 1), z');
  }

  /** A change begins, both shards stop, and both announcements arrive. */
  lemma BothStop(epoch: nat, x: R.Sender, x': R.Sender, ready0: map<nat, nat>, seen1: map<nat, nat>, ready1: map<nat, nat>, z: Net) returns (z': Net)
    requires !x.announced && !x'.announced && x.link == [] && x'.link == [] && Reached(z)
    requires z == Net(Bare(Running, Running, [], false, epoch, epoch),
                      [At0(x, map[1 := 1], ready0, {}, false), At1(x', seen1, ready1, {}, false)])
    ensures z' == Net(Bare(Ready, Ready, [], true, epoch, epoch),
                      [At0(x.(announced := true, heard := true), map[1 := 1], ready0[1 := x.nextSeq], {1, 0}, false),
                       At1(x'.(announced := true, heard := true), seen1, ready1[0 := x'.nextSeq], {1, 0}, false)])
    ensures Reached(z')
  {
    z' := Begins(epoch, z);
    z' := Stop1(epoch, x, ready0, x', seen1, ready1, z');
    z' := Stop0(epoch, x.(announced := true, heard := true), ready0[1 := x.nextSeq], x', seen1, ready1, z');
  }

  /** Both pass their tests ... */
  lemma BothSplit(h0: R.Sender, h1: R.Sender, ready0: map<nat, nat>, ready1: map<nat, nat>, z: Net) returns (z': Net)
    requires 1 in ready0 && ready0[1] == 2 && Reached(z)
    requires z == Net(Bare(Ready, Ready, [], true, 0, 0),
                      [At0(h0, map[1 := 1], ready0, {1, 0}, false), At1(h1, map[], ready1, {1, 0}, false)])
    ensures z' == Net(Bare(Sent, Sent, [ToOther(0), ToOther(1)], true, 0, 0),
                      [At0(h0, map[1 := 1], ready0, {1, 0}, true), At1(h1, map[], ready1, {1, 0}, true)])
    ensures Reached(z')
  {
    BareSplit(0, 0);
    var z1 := Net(Bare(Sent, Ready, [ToOther(0)], true, 0, 0), [At0(h0, map[1 := 1], ready0, {1, 0}, true), z.rs[1]]);
    Reach(z, Split(0), z1);
    z' := Net(Bare(Sent, Sent, [ToOther(0), ToOther(1)], true, 0, 0), [z1.rs[0], At1(h1, map[], ready1, {1, 0}, true)]);
    Reach(z1, Split(1), z');
  }

  /** ... and adopt the map. */
  lemma BothAdopt(h0: R.Sender, h1: R.Sender, ready0: map<nat, nat>, ready1: map<nat, nat>, z: Net) returns (z': Net)
    requires h0.announced && h0.heard && h1.announced && h1.heard && Reached(z)
    requires z == Net(Bare(Sent, Sent, [ToOther(0), ToOther(1)], true, 0, 0),
                      [At0(h0, map[1 := 1], ready0, {1, 0}, true), At1(h1, map[], ready1, {1, 0}, true)])
    ensures z' == Net(Bare(Running, Running, [], false, 1, 0),
                      [At0(R.Changed(h0), map[1 := 1], ready0, {}, false), At1(R.Changed(h1), map[], ready1, {}, false)])
    ensures Reached(z')
  {
    var z1 := Adopt0(h0, h1, ready0, ready1, z);
    BareAdopt1(0, 0);
    Sees0(h0, map[1 := 1], ready0, {}, false);
    var z2 := Net(Bare(Applied, Applied, [], true, 0, 0),
                  [At0(R.Changed(h0), map[1 := 1], ready0, {}, false), At1(R.Changed(h1), map[], ready1, {}, false)]);
    Reach(z1, Adopt(1), z2);
    BareFinish(0, 0);
    z' := Net(Bare(Running, Running, [], false, 1, 0), z2.rs);
    Reach(z2, Local(Finish), z');
  }

  lemma Adopt0Ledger(z: Net)
    requires z.y == Bare(Sent, Sent, [ToOther(0), ToOther(1)], true, 0, 0)
    ensures NetEnabled(Two(), z, Adopt(0))
    ensures LedgerNext(Two(), z.y, LedgerEvent(z, Adopt(0))) == Bare(Applied, Sent, [ToOther(0)], true, 0, 0)
  {
    BareAdopt0(0, 0);
  }

  lemma Adopt0(h0: R.Sender, h1: R.Sender, ready0: map<nat, nat>, ready1: map<nat, nat>, z: Net) returns (z': Net)
    requires h1.announced && h1.heard && Reached(z)
    requires z == Net(Bare(Sent, Sent, [ToOther(0), ToOther(1)], true, 0, 0),
                      [At0(h0, map[1 := 1], ready0, {1, 0}, true), At1(h1, map[], ready1, {1, 0}, true)])
    ensures z' == Net(Bare(Applied, Sent, [ToOther(0)], true, 0, 0),
                      [At0(h0, map[1 := 1], ready0, {}, false), At1(R.Changed(h1), map[], ready1, {1, 0}, true)])
    ensures Reached(z')
  {
    Adopt0Ledger(z);
    Sees1(h1, map[], ready1, {1, 0}, true);
    z' := Net(Bare(Applied, Sent, [ToOther(0)], true, 0, 0),
              [At0(h0, map[1 := 1], ready0, {}, false), At1(R.Changed(h1), map[], ready1, {1, 0}, true)]);
    Reach(z, Adopt(0), z');
  }

  /** Two changes between which shard 0 commits a block, so that the supervisor goes on, and shard 1 does not: the second hangs. */
  lemma SecondChangeHangs() returns (zs: seq<Net>, es: seq<NetEvent>)
    ensures NetRun(Two(), [], zs, es) && Patient(zs, es) && Stuck(Two(), zs[|es|], 0)
  {
    var z := AtStart();
    var x;
    x, z := Block1(z);
    z := BothStop(0, x, Idle(), map[], map[], map[], z);
    var h0, h1 := x.(announced := true, heard := true), Idle().(announced := true, heard := true);
    z := BothSplit(h0, h1, map[1 := 2], map[0 := 1], z);
    z := BothAdopt(h0, h1, map[1 := 2], map[0 := 1], z);
    var x';
    x', z := Block0(R.Changed(h1), map[0 := 1], z.rs[0], z);
    z := BothStop(1, R.Changed(h0), x', map[1 := 2], map[0 := 2], map[0 := 1], z);
    assert 1 in z.rs[0].seqIDMap && z.rs[0].readySeq[1] == 3;
    assert Stuck(Two(), z, 0);
    zs, es :| Trace(zs, es) && zs[|es|] == z;
  }
}
