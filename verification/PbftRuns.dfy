/**
 Every run of one shard's replicas in one view: the leader proposes, messages arrive in any order, late or
 never, at most once each.
 */
module PbftRuns {
  import opened Pbft

  datatype System = System(
    reps: seq<Replica>,
    sent: set<Msg>,
    seen: seq<set<Msg>>,        // the messages each replica has handled
    proposals: seq<Block>)      // the leader's proposals, in order

  datatype Event = Propose(body: nat) | Deliver(r: nat, m: Msg)

  predicate Enabled(y: System, e: Event) {
    match e
    case Propose(_) => |y.reps| > 0 && !y.reps[0].proposing
    case Deliver(r, m) => r < |y.reps| && |y.seen| == |y.reps| && m in y.sent && m !in y.seen[r]
  }

  function Apply(y: System, e: Event): System
    requires Enabled(y, e)
  {
    match e
    case Propose(body) =>
      var out := Proposed(y.reps[0], body);
      y.(reps := y.reps[0 := out.rep], sent := y.sent + out.msgs, proposals := y.proposals + [Proposal(y.reps[0], body)])
    case Deliver(r, m) =>
      var out := Handle(|y.reps|, y.reps[r], m);
      y.(reps := y.reps[r := out.rep], sent := y.sent + out.msgs, seen := y.seen[r := y.seen[r] + {m}])
  }

  function Start(n: nat): System {
    System(seq(n, i requires 0 <= i < n => Initial(i)), {}, seq(n, _ => {}), [])
  }

  ghost predicate Follows(x: System, e: Event, y: System) {
    Enabled(x, e) && y == Apply(x, e)
  }

  ghost predicate Run(n: nat, states: seq<System>, events: seq<Event>) {
    && n > 0 && |states| == |events| + 1 && states[0] == Start(n)
    && forall i :: 0 <= i < |events| ==> Follows(states[i], events[i], states[i + 1])
  }

  /**
   Whether the code's own waits let the step happen: a message is handled when its stage is reached, and the
   leader proposes at stage 1. The theorems hold without this, in whatever order stages are reached.
   */
  predicate InTime(x: System, e: Event) {
    match e
    case Propose(_) => |x.reps| > 0 && x.reps[0].stage == 1
    case Deliver(r, m) => r < |x.reps| && !Waits(x.reps[r], m)
  }

  ghost predicate Patient(states: seq<System>, events: seq<Event>) {
    |states| == |events| + 1 && forall i :: 0 <= i < |events| ==> InTime(states[i], events[i])
  }

  // ----- who has said what

  function PrepareSenders(msgs: set<Msg>, b: Block): set<nat> {
    set m | m in msgs && m.Prepare? && m.block == b :: m.sender
  }

  function CommitSenders(msgs: set<Msg>, b: Block): set<nat> {
    set m | m in msgs && m.Commit? && m.block == b :: m.sender
  }

  lemma {:induction false} SubsetSize(a: set<nat>, b: set<nat>)
    requires a <= b
    ensures |a| <= |b|
  {
    if a != {} {
      var x :| x in a;
      SubsetSize(a - {x}, b - {x});
    }
  }

  lemma SendersGrow(msgs: set<Msg>, msgs': set<Msg>, b: Block)
    requires msgs <= msgs'
    ensures |PrepareSenders(msgs, b)| <= |PrepareSenders(msgs', b)| && |CommitSenders(msgs, b)| <= |CommitSenders(msgs', b)|
  {
    SubsetSize(PrepareSenders(msgs, b), PrepareSenders(msgs', b));
    SubsetSize(CommitSenders(msgs, b), CommitSenders(msgs', b));
  }

  // ----- what every reachable state satisfies

  ghost predicate LinkAt(proposals: seq<Block>, i: nat)
    requires i < |proposals|
  {
    && proposals[i].Block? && proposals[i].number == i + 1 && proposals[i].txRootOk
    && proposals[i].parent == (if i == 0 then Genesis else proposals[i - 1])
  }

  /** The proposals form a chain on top of the genesis block. */
  ghost predicate ProposalsChain(proposals: seq<Block>) {
    forall i: nat {:trigger LinkAt(proposals, i)} :: i < |proposals| ==> LinkAt(proposals, i)
  }

  ghost predicate PrefixOf<T>(a: seq<T>, b: seq<T>) { |a| <= |b| && b[..|a|] == a }

  /** The leader's whole chain: the genesis block and all its proposals. */
  function Whole(y: System): seq<Block> { [Genesis] + y.proposals }

  ghost predicate IsProposal(y: System, b: Block, q: nat) {
    1 <= q <= |y.proposals| && y.proposals[q - 1] == b
  }

  ghost predicate MsgOk(y: System, m: Msg) {
    && IsProposal(y, m.block, m.seqId)
    && (!m.PrePrepare? ==> m.sender < |y.reps|)
    && (m.Prepare? && m.sender < |y.reps| ==> m.block.Block? && m.block.parent in y.reps[m.sender].chain)
    && (m.Commit? && |y.reps| > 0 ==> |PrepareSenders(y.sent, m.block)| >= Quorum(|y.reps|))
  }

  /** A block that stands in a chain has its commit quorum. */
  ghost predicate Backed(y: System, b: Block) {
    b.Genesis? || (|y.reps| > 0 && |CommitSenders(y.sent, b)| >= Quorum(|y.reps|))
  }

  ghost predicate ChainOk(y: System, r: Replica) {
    && r.chain != [] && PrefixOf(r.chain, Whole(y)) && |r.chain| <= r.seqId
    && (forall i {:trigger r.chain[i]} :: 0 <= i < |r.chain| ==> Backed(y, r.chain[i]))
  }

  ghost predicate PoolOk(y: System, r: Replica) {
    forall b {:trigger b in r.pool} :: b in r.pool ==> exists q :: IsProposal(y, b, q)
  }

  /** Every counted message has a sender of its own. */
  ghost predicate CountsOk(r: Replica, seen: set<Msg>) {
    forall b {:trigger Count(r.prepares, b)} {:trigger Count(r.commits, b)} ::
      Count(r.prepares, b) <= |PrepareSenders(seen, b)| && Count(r.commits, b) <= |CommitSenders(seen, b)|
  }

  ghost predicate RepOk(y: System, i: nat)
    requires i < |y.reps| == |y.seen|
  {
    && y.reps[i].id == i && y.seen[i] <= y.sent
    && ChainOk(y, y.reps[i]) && PoolOk(y, y.reps[i]) && CountsOk(y.reps[i], y.seen[i])
  }

  /** The leader's chain holds all its proposals but an outstanding one. */
  ghost predicate LeaderOk(y: System)
    requires |y.reps| > 0
  {
    var r, k := y.reps[0], |y.proposals|;
    && (forall i {:trigger y.proposals[i]} :: 0 <= i < k ==> y.proposals[i] in r.pool)
    && (if r.proposing then k > 0 && |r.chain| == k && r.seqId == k else |r.chain| == k + 1 && r.seqId == k + 1)
  }

  ghost predicate Inv(y: System) {
    && |y.reps| > 0 && |y.seen| == |y.reps| && ProposalsChain(y.proposals) && LeaderOk(y)
    && (forall m {:trigger MsgOk(y, m)} :: m in y.sent ==> MsgOk(y, m))
    && (forall i: nat {:trigger RepOk(y, i)} :: i < |y.reps| ==> RepOk(y, i))
  }

  /** Proposals, messages and chains only grow. */
  ghost predicate Grows(x: System, y: System) {
    && |y.reps| == |x.reps| && PrefixOf(x.proposals, y.proposals) && x.sent <= y.sent
    && (forall i {:trigger y.reps[i]} :: 0 <= i < |x.reps| ==> PrefixOf(x.reps[i].chain, y.reps[i].chain))
  }

  lemma ProposalStays(x: System, y: System, b: Block, q: nat)
    requires PrefixOf(x.proposals, y.proposals) && IsProposal(x, b, q)
    ensures IsProposal(y, b, q)
  {
    assert y.proposals[..|x.proposals|][q - 1] == x.proposals[q - 1];
  }

  lemma MsgStays(x: System, y: System, m: Msg)
    requires Grows(x, y) && MsgOk(x, m)
    ensures MsgOk(y, m)
  {
    ProposalStays(x, y, m.block, m.seqId);
    SendersGrow(x.sent, y.sent, m.block);
    if m.Prepare? {
      var a, b := x.reps[m.sender].chain, y.reps[m.sender].chain;
      assert m.block.parent in b[..|a|];
    }
  }

  lemma BackedStays(x: System, y: System, b: Block)
    requires Grows(x, y) && Backed(x, b)
    ensures Backed(y, b)
  {
    SendersGrow(x.sent, y.sent, b);
  }

  lemma ChainStays(x: System, y: System, r: Replica)
    requires Grows(x, y) && ChainOk(x, r)
    ensures ChainOk(y, r)
  {
    assert Whole(y)[..|Whole(x)|] == Whole(x);
    assert Whole(y)[..|r.chain|] == Whole(x)[..|r.chain|];
    forall i | 0 <= i < |r.chain|
      ensures Backed(y, r.chain[i])
    {
      assert Backed(x, r.chain[i]);
      BackedStays(x, y, r.chain[i]);
    }
  }

  lemma PoolStays(x: System, y: System, r: Replica)
    requires Grows(x, y) && PoolOk(x, r)
    ensures PoolOk(y, r)
  {
    forall b | b in r.pool
      ensures exists q :: IsProposal(y, b, q)
    {
      var q :| IsProposal(x, b, q);
      ProposalStays(x, y, b, q);
    }
  }

  lemma RepStays(x: System, y: System, i: nat)
    requires Grows(x, y) && i < |x.reps| == |x.seen| == |y.seen| && RepOk(x, i) && y.reps[i] == x.reps[i] && y.seen[i] == x.seen[i]
    ensures RepOk(y, i)
  {
    ChainStays(x, y, x.reps[i]);
    PoolStays(x, y, x.reps[i]);
  }

  // ----- proposing

  lemma HeadOf(y: System, r: Replica)
    requires ProposalsChain(y.proposals) && ChainOk(y, r)
    ensures NumberOf(Head(r)) == |r.chain| - 1 && Head(r) == Whole(y)[|r.chain| - 1]
    ensures Head(r) == if |r.chain| == 1 then Genesis else y.proposals[|r.chain| - 2]
  {
    var k := |r.chain| - 1;
    assert r.chain[k] == Whole(y)[..|r.chain|][k];
    if k > 0 {
      assert LinkAt(y.proposals, k - 1);
    }
  }

  ghost predicate Proposes(y: System, body: nat, y': System) {
    Inv(y) && Enabled(y, Propose(body)) && y' == Apply(y, Propose(body))
  }

  lemma ProposeGrows(y: System, body: nat, y': System)
    requires Proposes(y, body, y')
    ensures Grows(y, y') && ProposalsChain(y'.proposals)
    ensures IsProposal(y', Proposal(y.reps[0], body), |y.proposals| + 1) && y.reps[0].seqId == |y.proposals| + 1
  {
    assert RepOk(y, 0);
    HeadOf(y, y.reps[0]);
    assert y'.proposals[..|y.proposals|] == y.proposals;
    forall i: nat | i < |y'.proposals|
      ensures LinkAt(y'.proposals, i)
    {
      if i < |y.proposals| {
        assert LinkAt(y.proposals, i);
      }
    }
  }

  lemma ProposeMsgs(y: System, body: nat, y': System, m: Msg)
    requires Proposes(y, body, y') && Grows(y, y') && m in y'.sent
    requires IsProposal(y', Proposal(y.reps[0], body), |y.proposals| + 1) && y.reps[0].seqId == |y.proposals| + 1
    ensures MsgOk(y', m)
  {
    if m in y.sent {
      assert MsgOk(y, m);
      MsgStays(y, y', m);
    }
  }

  lemma ProposeReps(y: System, body: nat, y': System, i: nat)
    requires Proposes(y, body, y') && Grows(y, y') && i < |y.reps|
    requires IsProposal(y', Proposal(y.reps[0], body), |y.proposals| + 1)
    ensures RepOk(y', i)
  {
    assert RepOk(y, i);
    if i > 0 {
      RepStays(y, y', i);
    } else {
      ChainStays(y, y', y.reps[0]);
      PoolStays(y, y', y.reps[0]);
    }
  }

  lemma ProposeKeeps(y: System, body: nat)
    requires Inv(y) && Enabled(y, Propose(body))
    ensures Inv(Apply(y, Propose(body))) && Grows(y, Apply(y, Propose(body)))
  {
    var y' := Apply(y, Propose(body));
    ProposeGrows(y, body, y');
    forall m | m in y'.sent
      ensures MsgOk(y', m)
    {
      ProposeMsgs(y, body, y', m);
    }
    forall i: nat | i < |y'.reps|
      ensures RepOk(y', i)
    {
      ProposeReps(y, body, y', i);
    }
  }

  // ----- handling a message

  /** The replica after the message, and what that does to the whole. */
  ghost predicate Delivers(y: System, r: nat, m: Msg, y': System) {
    Inv(y) && Enabled(y, Deliver(r, m)) && y' == Apply(y, Deliver(r, m))
  }

  lemma SenderNew(y: System, r: nat, m: Msg)
    requires Inv(y) && r < |y.reps| && m in y.sent && m !in y.seen[r]
    ensures m.Prepare? ==> m.sender !in PrepareSenders(y.seen[r], m.block)
    ensures m.Commit? ==> m.sender !in CommitSenders(y.seen[r], m.block)
  {
    assert RepOk(y, r) && MsgOk(y, m);
    forall k | k in y.seen[r] && k.block == m.block
      ensures k.seqId == m.seqId
    {
      assert MsgOk(y, k);
      SameNumber(y, m.block, m.seqId, k.seqId);
    }
  }

  lemma SameNumber(y: System, b: Block, p: nat, q: nat)
    requires ProposalsChain(y.proposals) && IsProposal(y, b, p) && IsProposal(y, b, q)
    ensures p == q && b.Block? && b.number == p
  {
    assert LinkAt(y.proposals, p - 1) && LinkAt(y.proposals, q - 1);
  }

  /** A handler counts the message it handles, if any. */
  lemma HandlerCounts(n: nat, r: Replica, m: Msg, b: Block)
    requires n > 0
    ensures var r' := Handle(n, r, m).rep;
      && Count(r'.prepares, b) <= Count(r.prepares, b) + (if m.Prepare? && m.block == b then 1 else 0)
      && Count(r'.commits, b) <= Count(r.commits, b) + (if m.Commit? && m.block == b then 1 else 0)
  {
  }

  lemma OneMoreSender(seen: set<Msg>, m: Msg, b: Block)
    requires m.Prepare? ==> m.sender !in PrepareSenders(seen, m.block)
    requires m.Commit? ==> m.sender !in CommitSenders(seen, m.block)
    ensures |PrepareSenders(seen + {m}, b)| >= |PrepareSenders(seen, b)| + (if m.Prepare? && m.block == b then 1 else 0)
    ensures |CommitSenders(seen + {m}, b)| >= |CommitSenders(seen, b)| + (if m.Commit? && m.block == b then 1 else 0)
  {
    SendersGrow(seen, seen + {m}, b);
    if m.Prepare? && m.block == b {
      assert PrepareSenders(seen + {m}, b) == PrepareSenders(seen, b) + {m.sender};
    }
    if m.Commit? && m.block == b {
      assert CommitSenders(seen + {m}, b) == CommitSenders(seen, b) + {m.sender};
    }
  }

  lemma CountsKeep(y: System, r: nat, m: Msg)
    requires Inv(y) && Enabled(y, Deliver(r, m))
    ensures CountsOk(Handle(|y.reps|, y.reps[r], m).rep, y.seen[r] + {m})
  {
    var rep' := Handle(|y.reps|, y.reps[r], m).rep;
    assert RepOk(y, r);
    SenderNew(y, r, m);
    CountsStep(y.reps[r], rep', y.seen[r], m, |y.reps|);
  }

  lemma CountsStep(rep: Replica, rep': Replica, seen: set<Msg>, m: Msg, n: nat)
    requires n > 0 && CountsOk(rep, seen) && rep' == Handle(n, rep, m).rep
    requires m.Prepare? ==> m.sender !in PrepareSenders(seen, m.block)
    requires m.Commit? ==> m.sender !in CommitSenders(seen, m.block)
    ensures CountsOk(rep', seen + {m})
  {
    forall b
      ensures Count(rep'.prepares, b) <= |PrepareSenders(seen + {m}, b)| && Count(rep'.commits, b) <= |CommitSenders(seen + {m}, b)|
    {
      assert Count(rep.prepares, b) <= |PrepareSenders(seen, b)| && Count(rep.commits, b) <= |CommitSenders(seen, b)|;
      HandlerCounts(n, rep, m, b);
      OneMoreSender(seen, m, b);
    }
  }

  /** A commit leaves only with a prepare quorum behind it. */
  lemma CommitSent(y: System, r: nat, m: Msg, c: Msg)
    requires Inv(y) && Enabled(y, Deliver(r, m)) && c in Handle(|y.reps|, y.reps[r], m).msgs && c.Commit?
    ensures m.Prepare? && c == Commit(m.block, m.seqId, r) && |PrepareSenders(y.sent, m.block)| >= Quorum(|y.reps|)
  {
    var rep' := Handle(|y.reps|, y.reps[r], m).rep;
    assert RepOk(y, r);
    CountsKeep(y, r, m);
    assert Count(rep'.prepares, m.block) <= |PrepareSenders(y.seen[r] + {m}, m.block)|;
    SendersGrow(y.seen[r] + {m}, y.sent, m.block);
  }

  /** A prepare leaves only from a replica whose current block is the parent. */
  lemma PrepareSent(y: System, r: nat, m: Msg, p: Msg)
    requires Inv(y) && Enabled(y, Deliver(r, m)) && p in Handle(|y.reps|, y.reps[r], m).msgs && p.Prepare?
    ensures m.PrePrepare? && p == Prepare(m.block, m.seqId, r) && m.block.Block? && Head(y.reps[r]) == m.block.parent
  {
    assert RepOk(y, r);
  }

  /** What a handled message does to the chain: nothing, or one more block of the leader's, with its commit quorum. */
  lemma ChainStep(y: System, r: nat, m: Msg)
    requires Inv(y) && Enabled(y, Deliver(r, m))
    ensures var was, now := y.reps[r], Handle(|y.reps|, y.reps[r], m).rep;
      || now.chain == was.chain
      || (&& m.Commit? && |was.chain| < |Whole(y)| && m.block == Whole(y)[|was.chain|] && now.chain == was.chain + [m.block]
          && |CommitSenders(y.sent, m.block)| >= Quorum(|y.reps|) && m.seqId == |was.chain| == was.seqId && now.seqId == was.seqId + 1)
    ensures var was, now := y.reps[r], Handle(|y.reps|, y.reps[r], m).rep;
      now.seqId == was.seqId || (now.seqId == was.seqId + 1 && m.Commit? && m.seqId >= was.seqId)
  {
    var was, now := y.reps[r], Handle(|y.reps|, y.reps[r], m).rep;
    assert RepOk(y, r) && MsgOk(y, m);
    if now.chain != was.chain {
      HeadOf(y, was);
      SameNumber(y, m.block, m.seqId, m.seqId);
      CountsKeep(y, r, m);
      assert Count(now.commits, m.block) <= |CommitSenders(y.seen[r] + {m}, m.block)|;
      SendersGrow(y.seen[r] + {m}, y.sent, m.block);
    }
  }

  lemma DeliverGrows(y: System, r: nat, m: Msg)
    requires Inv(y) && Enabled(y, Deliver(r, m))
    ensures Grows(y, Apply(y, Deliver(r, m)))
  {
    ChainStep(y, r, m);
  }

  lemma DeliverChain(y: System, r: nat, m: Msg, y': System)
    requires Delivers(y, r, m, y') && Grows(y, y')
    ensures ChainOk(y', y'.reps[r])
  {
    var was, now := y.reps[r], y'.reps[r];
    assert RepOk(y, r);
    ChainStep(y, r, m);
    ChainStays(y, y', was);
    if now.chain != was.chain {
      assert Whole(y') == Whole(y);
      SendersGrow(y.sent, y'.sent, m.block);
    }
  }

  lemma DeliverPool(y: System, r: nat, m: Msg, y': System)
    requires Delivers(y, r, m, y') && Grows(y, y')
    ensures PoolOk(y', y'.reps[r])
  {
    assert RepOk(y, r) && MsgOk(y, m);
    PoolStays(y, y', y.reps[r]);
    ProposalStays(y, y', m.block, m.seqId);
  }

  lemma DeliverMsgs(y: System, r: nat, m: Msg, y': System, c: Msg)
    requires Delivers(y, r, m, y') && Grows(y, y') && c in y'.sent
    ensures MsgOk(y', c)
  {
    assert MsgOk(y, m);
    ProposalStays(y, y', m.block, m.seqId);
    if c in y.sent {
      assert MsgOk(y, c);
      MsgStays(y, y', c);
    } else if c.Commit? {
      CommitSent(y, r, m, c);
      SendersGrow(y.sent, y'.sent, m.block);
    } else {
      assert RepOk(y, r);
      PrepareSent(y, r, m, c);
      var a, b := y.reps[r].chain, y'.reps[r].chain;
      assert Head(y.reps[r]) in b[..|a|];
    }
  }

  /** The leader drops every commit but those of its outstanding proposal, and can always append that. */
  lemma LeaderCommits(y: System, m: Msg)
    requires Inv(y) && m in y.sent && m.Commit? && m.seqId >= y.reps[0].seqId
    ensures y.reps[0].proposing && m.block in y.reps[0].pool && Added(y.reps[0].chain, m.block) == y.reps[0].chain + [m.block]
  {
    var r, k := y.reps[0], |y.proposals|;
    assert RepOk(y, 0) && MsgOk(y, m);
    SameNumber(y, m.block, m.seqId, m.seqId);
    HeadOf(y, r);
    assert LinkAt(y.proposals, k - 1);
  }

  lemma DeliverLeader(y: System, r: nat, m: Msg, y': System)
    requires Delivers(y, r, m, y')
    ensures LeaderOk(y')
  {
    if r == 0 {
      if m.Commit? && m.seqId >= y.reps[0].seqId {
        LeaderCommits(y, m);
      } else {
      }
    }
  }

  lemma DeliverKeeps(y: System, r: nat, m: Msg)
    requires Inv(y) && Enabled(y, Deliver(r, m))
    ensures Inv(Apply(y, Deliver(r, m))) && Grows(y, Apply(y, Deliver(r, m)))
  {
    var y' := Apply(y, Deliver(r, m));
    DeliverGrows(y, r, m);
    DeliverLeader(y, r, m, y');
    forall c | c in y'.sent
      ensures MsgOk(y', c)
    {
      DeliverMsgs(y, r, m, y', c);
    }
    forall i: nat | i < |y'.reps|
      ensures RepOk(y', i)
    {
      DeliverReps(y, r, m, y', i);
    }
  }

  lemma DeliverReps(y: System, r: nat, m: Msg, y': System, i: nat)
    requires Delivers(y, r, m, y') && Grows(y, y') && i < |y.reps|
    ensures RepOk(y', i)
  {
    assert RepOk(y, i);
    if i == r {
      DeliverChain(y, r, m, y');
      DeliverPool(y, r, m, y');
      CountsKeep(y, r, m);
    } else {
      RepStays(y, y', i);
    }
  }

  lemma StartHolds(n: nat)
    requires n > 0
    ensures Inv(Start(n))
  {
    var y := Start(n);
    forall i: nat | i < n
      ensures RepOk(y, i)
    {
      assert Whole(y)[..1] == [Genesis];
    }
  }

  lemma StepKeeps(x: System, e: Event, y: System)
    requires Inv(x) && Follows(x, e, y)
    ensures Inv(y) && Grows(x, y)
  {
    match e
    case Propose(body) => ProposeKeeps(x, body);
    case Deliver(r, m) => DeliverKeeps(x, r, m);
  }

  lemma {:induction false} RunKeeps(n: nat, states: seq<System>, events: seq<Event>, k: nat)
    requires Run(n, states, events) && k < |states|
    ensures Inv(states[k]) && |states[k].reps| == n
  {
    if k == 0 {
      StartHolds(n);
    } else {
      RunKeeps(n, states, events, k - 1);
      StepKeeps(states[k - 1], events[k - 1], states[k]);
    }
  }

  // ----- agreement

  lemma {:induction false} RunGrows(n: nat, states: seq<System>, events: seq<Event>, j: nat, k: nat)
    requires Run(n, states, events) && j <= k < |states|
    ensures Grows(states[j], states[k])
  {
    if j < k {
      RunGrows(n, states, events, j, k - 1);
      RunKeeps(n, states, events, k - 1);
      StepKeeps(states[k - 1], events[k - 1], states[k]);
    }
  }

  /** Each replica's chain is, at any time, a prefix of the leader's proposals at any later time. */
  lemma ChainIsPrefix(n: nat, states: seq<System>, events: seq<Event>, j: nat, k: nat, r: nat)
    requires Run(n, states, events) && j <= k < |states| && r < n
    ensures |states[j].reps| == n && PrefixOf(states[j].reps[r].chain, Whole(states[k]))
  {
    RunKeeps(n, states, events, j);
    RunGrows(n, states, events, j, k);
    assert RepOk(states[j], r);
    ChainStays(states[j], states[k], states[j].reps[r]);
  }

  /** Agreement: the chains of any two replicas, each at any time, are comparable. */
  lemma Agreement(n: nat, states: seq<System>, events: seq<Event>, j: nat, k: nat, r: nat, s: nat)
    requires Run(n, states, events) && j < |states| && k < |states| && r < n && s < n
    ensures |states[j].reps| == n && |states[k].reps| == n
    ensures PrefixOf(states[j].reps[r].chain, states[k].reps[s].chain) || PrefixOf(states[k].reps[s].chain, states[j].reps[r].chain)
  {
    var last := |states| - 1;
    ChainIsPrefix(n, states, events, j, last, r);
    ChainIsPrefix(n, states, events, k, last, s);
  }

  // ----- quorums

  /** In step `j` replica `s`, whose current block was the parent, broadcast its prepare for `b`. */
  ghost predicate PreparedIn(states: seq<System>, j: nat, b: Block, s: nat) {
    && j + 1 < |states| && s < |states[j].reps| && b.Block? && Head(states[j].reps[s]) == b.parent
    && Prepare(b, b.number, s) in states[j + 1].sent - states[j].sent
  }

  lemma {:induction false} WhenPrepared(n: nat, states: seq<System>, events: seq<Event>, k: nat, b: Block, s: nat) returns (j: nat)
    requires Run(n, states, events) && k < |states| && s in PrepareSenders(states[k].sent, b)
    ensures j < k && PreparedIn(states, j, b, s)
  {
    RunKeeps(n, states, events, k);
    var m :| m in states[k].sent && m.Prepare? && m.block == b && m.sender == s;
    assert MsgOk(states[k], m);
    SameNumber(states[k], b, m.seqId, m.seqId);
    assert m == Prepare(b, b.number, s);
    if k == 0 {
      assert false;
    } else if m in states[k - 1].sent {
      j := WhenPrepared(n, states, events, k - 1, b, s);
    } else {
      j := k - 1;
      RunKeeps(n, states, events, j);
      SentInStep(states[j], events[j], states[k], m);
    }
  }

  lemma SentInStep(x: System, e: Event, y: System, p: Msg)
    requires Inv(x) && Follows(x, e, y) && p.Prepare? && p in y.sent && p !in x.sent
    ensures p.sender < |x.reps| && p.block.Block? && Head(x.reps[p.sender]) == p.block.parent
  {
    match e
    case Propose(body) =>
    case Deliver(r, m) => PrepareSent(x, r, m, p);
  }

  /**
   A block is appended anywhere only after 2f + 1 replicas have broadcast commits for it and 2f + 1 replicas,
   with its parent as their current block, have broadcast prepares.
   */
  lemma AppendedAfterQuorums(n: nat, states: seq<System>, events: seq<Event>, k: nat, r: nat) returns (b: Block)
    requires Run(n, states, events) && k + 1 < |states| && r < n
    requires |states[k].reps| == |states[k + 1].reps| == n && states[k + 1].reps[r].chain != states[k].reps[r].chain
    ensures states[k + 1].reps[r].chain == states[k].reps[r].chain + [b]
    ensures |CommitSenders(states[k].sent, b)| >= 2 * ((n - 1) / 3) + 1 && |PrepareSenders(states[k].sent, b)| >= 2 * ((n - 1) / 3) + 1
    ensures forall s :: s in PrepareSenders(states[k].sent, b) ==> exists j :: 0 <= j < k && PreparedIn(states, j, b, s)
  {
    RunKeeps(n, states, events, k);
    assert Follows(states[k], events[k], states[k + 1]);
    var m := events[k].m;
    ChainStep(states[k], r, m);
    b := m.block;
    assert MsgOk(states[k], m);
    forall s | s in PrepareSenders(states[k].sent, b)
      ensures exists j :: 0 <= j < k && PreparedIn(states, j, b, s)
    {
      var j := WhenPrepared(n, states, events, k, b, s);
    }
  }

  // ----- sequence numbers that run ahead

  /** The replica's sequence number is that of the next block of its chain. */
  predicate Lockstep(r: Replica) { r.seqId == |r.chain| }

  /** A commit quorum, taken up, for a block beyond the next one. */
  predicate SkipsAhead(n: nat, r: Replica, m: Msg)
    requires n > 0
  {
    && m.Commit? && m.seqId > r.seqId && Count(r.commits, m.block) + 1 >= Quorum(n)
    && m.block !in r.replied && m.block in r.pool
  }

  /** A message breaks the lockstep exactly if it completes such a quorum. */
  lemma LockstepIff(y: System, r: nat, m: Msg)
    requires Inv(y) && Enabled(y, Deliver(r, m)) && Lockstep(y.reps[r])
    ensures Lockstep(Apply(y, Deliver(r, m)).reps[r]) <==> !SkipsAhead(|y.reps|, y.reps[r], m)
  {
    var was := y.reps[r];
    assert RepOk(y, r) && MsgOk(y, m);
    ChainStep(y, r, m);
    SameNumber(y, m.block, m.seqId, m.seqId);
    HeadOf(y, was);
    if m.Commit? && m.seqId == was.seqId {
      assert LinkAt(y.proposals, m.seqId - 1);
      assert m.block.parent == Head(was);
    }
  }

  lemma AheadStays(x: System, e: Event, y: System, r: nat)
    requires Inv(x) && Follows(x, e, y) && r < |x.reps| && x.reps[r].seqId > |x.reps[r].chain|
    ensures |y.reps| == |x.reps| && y.reps[r].chain == x.reps[r].chain && y.reps[r].seqId > |y.reps[r].chain|
  {
    if e.Deliver? && e.r == r {
      ChainStep(x, r, e.m);
    }
  }

  /** A replica whose sequence number has run ahead never appends a block again. */
  lemma {:induction false} AheadIsStuck(n: nat, states: seq<System>, events: seq<Event>, j: nat, k: nat, r: nat)
    requires Run(n, states, events) && j <= k < |states| && r < n
    requires |states[j].reps| == n && states[j].reps[r].seqId > |states[j].reps[r].chain|
    ensures |states[k].reps| == n && states[k].reps[r].chain == states[j].reps[r].chain
    ensures states[k].reps[r].seqId > |states[k].reps[r].chain|
  {
    if j < k {
      AheadIsStuck(n, states, events, j, k - 1, r);
      RunKeeps(n, states, events, k - 1);
      AheadStays(states[k - 1], events[k - 1], states[k], r);
    }
  }

  /** The leader itself never runs ahead. */
  lemma LeaderInLockstep(n: nat, states: seq<System>, events: seq<Event>, k: nat)
    requires Run(n, states, events) && k < |states|
    ensures |states[k].reps| == n && Lockstep(states[k].reps[0])
  {
    RunKeeps(n, states, events, k);
  }

  // ----- two replicas, the second of which runs ahead

  /** No message about `b` is on its way yet. */
  ghost predicate Unheard(y: System, b: Block) {
    forall m :: m in y.sent ==> m.block != b
  }

  lemma NewProposal(y: System, body: nat)
    requires Inv(y) && !y.reps[0].proposing
    ensures Unheard(y, Proposal(y.reps[0], body))
  {
    var b := Proposal(y.reps[0], body);
    assert RepOk(y, 0);
    HeadOf(y, y.reps[0]);
    forall m | m in y.sent
      ensures m.block != b
    {
      assert MsgOk(y, m);
      SameNumber(y, m.block, m.seqId, m.seqId);
    }
  }

  ghost predicate TwoOf(y: System) { |y.reps| == 2 && |y.seen| == 2 }

  /** One step that the code's waits let happen. */
  ghost predicate Goes(x: System, e: Event, y: System) { Follows(x, e, y) && InTime(x, e) }

  /** A round that only the leader takes part in; alone it is a quorum of two. */
  ghost predicate Round(y: System, b: Block, body: nat, y1: System, y2: System, y3: System, y4: System)
    requires TwoOf(y)
  {
    var q := y.reps[0].seqId;
    && Goes(y, Propose(body), y1) && Goes(y1, Deliver(0, PrePrepare(b, q)), y2)
    && Goes(y2, Deliver(0, Prepare(b, q, 0)), y3) && Goes(y3, Deliver(0, Commit(b, q, 0)), y4)
  }

  /** What the round leaves behind. */
  ghost predicate After(y: System, b: Block, y4: System)
    requires TwoOf(y)
  {
    var q := y.reps[0].seqId;
    && TwoOf(y4) && y4.reps[1] == y.reps[1] && y4.seen[1] == y.seen[1] && y.sent <= y4.sent
    && PrePrepare(b, q) in y4.sent && Prepare(b, q, 0) in y4.sent && Commit(b, q, 0) in y4.sent
    && !y4.reps[0].proposing && y4.reps[0].committed == y.reps[0].committed + {b} && y4.reps[0].replied == y.reps[0].replied + {b}
    && y4.reps[0].seqId == q + 1 && Head(y4.reps[0]) == b && y4.reps[0].stage == 1
  }

  lemma RoundSteps(y: System, b: Block, body: nat) returns (y1: System, y2: System, y3: System, y4: System)
    requires TwoOf(y) && !y.reps[0].proposing && b == Proposal(y.reps[0], body) && y.reps[0].id == 0 && y.reps[0].chain != []
    requires b !in y.reps[0].committed && b !in y.reps[0].replied && Unheard(y, b) && y.seen[0] <= y.sent && y.reps[0].stage == 1
    ensures Round(y, b, body, y1, y2, y3, y4) && After(y, b, y4)
  {
    y1, y2 := RoundOpens(y, b, body);
    y3, y4 := RoundCloses(y2, b, y.reps[0].seqId);
  }

  /** Half way through the round: the leader has prepared its own proposal. */
  ghost predicate HalfWay(y: System, b: Block, y2: System)
    requires TwoOf(y)
  {
    var q := y.reps[0].seqId;
    && TwoOf(y2) && y2.reps[1] == y.reps[1] && y2.seen[1] == y.seen[1]
    && y2.sent == y.sent + {PrePrepare(b, q), Prepare(b, q, 0)} && y2.seen[0] == y.seen[0] + {PrePrepare(b, q)}
    && y2.reps[0] == Remembered(y.reps[0], b, q).(proposing := true, stage := 3)
  }

  lemma RoundOpens(y: System, b: Block, body: nat) returns (y1: System, y2: System)
    requires TwoOf(y) && !y.reps[0].proposing && b == Proposal(y.reps[0], body) && y.reps[0].id == 0
    requires Unheard(y, b) && y.seen[0] <= y.sent && y.reps[0].stage == 1
    ensures Goes(y, Propose(body), y1) && Goes(y1, Deliver(0, PrePrepare(b, y.reps[0].seqId)), y2) && HalfWay(y, b, y2)
  {
    var q := y.reps[0].seqId;
    y1 := Apply(y, Propose(body));
    y2 := Apply(y1, Deliver(0, PrePrepare(b, q)));
    assert Remembered(y1.reps[0], b, q).height2Digest == y1.reps[0].height2Digest;
    assert y2.sent == y.sent + {PrePrepare(b, q), Prepare(b, q, 0)};
  }

  lemma RoundCloses(y: System, b: Block, q: nat) returns (y3: System, y4: System)
    requires TwoOf(y) && y.reps[0].id == 0 && y.reps[0].chain != [] && y.reps[0].seqId == q && y.reps[0].stage == 3
    requires b.Block? && b == Proposal(y.reps[0], b.body) && b in y.reps[0].pool && b !in y.reps[0].committed && b !in y.reps[0].replied
    requires Prepare(b, q, 0) in y.sent - y.seen[0] && Commit(b, q, 0) !in y.seen[0]
    ensures Goes(y, Deliver(0, Prepare(b, q, 0)), y3) && Goes(y3, Deliver(0, Commit(b, q, 0)), y4)
    ensures TwoOf(y4) && y4.reps[1] == y.reps[1] && y4.seen[1] == y.seen[1] && y4.sent == y.sent + {Commit(b, q, 0)}
    ensures !y4.reps[0].proposing && y4.reps[0].committed == y.reps[0].committed + {b} && y4.reps[0].replied == y.reps[0].replied + {b}
    ensures y4.reps[0].seqId == q + 1 && Head(y4.reps[0]) == b && y4.reps[0].stage == 1
  {
    assert Quorum(2) == 1;
    y3 := Apply(y, Deliver(0, Prepare(b, q, 0)));
    assert y3.sent == y.sent + {Commit(b, q, 0)} && y3.reps[0].stage == 4;
    y4 := Apply(y3, Deliver(0, Commit(b, q, 0)));
  }

  lemma LeaderRound(y: System, b: Block, body: nat) returns (y1: System, y2: System, y3: System, y4: System)
    requires Inv(y) && TwoOf(y) && !y.reps[0].proposing && y.reps[0].stage == 1
    requires b == Proposal(y.reps[0], body) && b !in y.reps[0].committed && b !in y.reps[0].replied
    ensures Round(y, b, body, y1, y2, y3, y4) && After(y, b, y4) && Inv(y4)
  {
    NewProposal(y, body);
    assert RepOk(y, 0);
    y1, y2, y3, y4 := RoundSteps(y, b, body);
    var q := y.reps[0].seqId;
    StepKeeps(y, Propose(body), y1);
    StepKeeps(y1, Deliver(0, PrePrepare(b, q)), y2);
    StepKeeps(y2, Deliver(0, Prepare(b, q, 0)), y3);
    StepKeeps(y3, Deliver(0, Commit(b, q, 0)), y4);
  }

  /**
   The second replica takes part in the first round up to its own commit, which brings it to stage 3, and then
   hears of the second block before any commit of the first.
   */
  lemma JumpsAhead(y: System, b1: Block, b2: Block) returns (y1: System, y2: System, y3: System, y4: System)
    requires TwoOf(y) && y.reps[1] == Initial(1) && y.seen[1] == {} && b1 == Block(1, Genesis, 0, true) && b2.Block? && b2.number == 2
    requires PrePrepare(b1, 1) in y.sent && Prepare(b1, 1, 0) in y.sent && PrePrepare(b2, 2) in y.sent && Commit(b2, 2, 0) in y.sent
    ensures Goes(y, Deliver(1, PrePrepare(b1, 1)), y1) && Goes(y1, Deliver(1, Prepare(b1, 1, 0)), y2)
    ensures Goes(y2, Deliver(1, PrePrepare(b2, 2)), y3) && Goes(y3, Deliver(1, Commit(b2, 2, 0)), y4)
    ensures TwoOf(y4) && y4.reps[1].seqId == 2 && y4.reps[1].chain == [Genesis]
  {
    assert Quorum(2) == 1;
    y1 := Apply(y, Deliver(1, PrePrepare(b1, 1)));
    assert y1.reps[1] == Remembered(Initial(1), b1, 1).(stage := 2);
    y2 := Apply(y1, Deliver(1, Prepare(b1, 1, 0)));
    assert y2.reps[1].stage == 3 && y2.reps[1].seqId == 1 && y2.reps[1].chain == [Genesis];
    y3 := Apply(y2, Deliver(1, PrePrepare(b2, 2)));
    y4 := Apply(y3, Deliver(1, Commit(b2, 2, 0)));
  }

  /** Two rounds of the leader alone, one after the other. */
  lemma TwoRounds(s0: System) returns (b1: Block, s1: System, s2: System, s3: System, s4: System,
                                       b2: Block, s5: System, s6: System, s7: System, s8: System)
    requires s0 == Start(2)
    ensures TwoOf(s0) && s0.reps[0].seqId == 1 && Round(s0, b1, 0, s1, s2, s3, s4)
    ensures TwoOf(s4) && s4.reps[0].seqId == 2 && Round(s4, b2, 0, s5, s6, s7, s8)
    ensures TwoOf(s8) && s8.reps[1] == Initial(1) && s8.seen[1] == {}
    ensures b1 == Block(1, Genesis, 0, true) && b2.Block? && b2.number == 2
    ensures PrePrepare(b1, 1) in s8.sent && Prepare(b1, 1, 0) in s8.sent && PrePrepare(b2, 2) in s8.sent && Commit(b2, 2, 0) in s8.sent
  {
    StartHolds(2);
    b1 := Proposal(s0.reps[0], 0);
    s1, s2, s3, s4 := LeaderRound(s0, b1, 0);
    b2 := Proposal(s4.reps[0], 0);
    s5, s6, s7, s8 := LeaderRound(s4, b2, 0);
  }

  ghost predicate Trace(states: seq<System>, events: seq<Event>) { Run(2, states, events) && Patient(states, events) }

  lemma Extend(states: seq<System>, events: seq<Event>, e: Event, y: System)
    requires Trace(states, events) && Goes(states[|events|], e, y)
    ensures Trace(states + [y], events + [e]) && (states + [y])[|events + [e]|] == y
  {
    var states', events' := states + [y], events + [e];
    forall i | 0 <= i < |events'|
      ensures Goes(states'[i], events'[i], states'[i + 1])
    {
      if i < |events| {
        assert Follows(states[i], events[i], states[i + 1]) && InTime(states[i], events[i]);
      }
    }
  }

  lemma ExtendRound(states: seq<System>, events: seq<Event>, b: Block, y1: System, y2: System, y3: System, y4: System)
      returns (states': seq<System>, events': seq<Event>)
    requires Trace(states, events) && TwoOf(states[|events|]) && Round(states[|events|], b, 0, y1, y2, y3, y4)
    ensures Trace(states', events') && states'[|events'|] == y4
  {
    var q := states[|events|].reps[0].seqId;
    states', events' := Extended(states, events, Propose(0), y1);
    states', events' := Extended(states', events', Deliver(0, PrePrepare(b, q)), y2);
    states', events' := Extended(states', events', Deliver(0, Prepare(b, q, 0)), y3);
    states', events' := Extended(states', events', Deliver(0, Commit(b, q, 0)), y4);
  }

  lemma Extended(states: seq<System>, events: seq<Event>, e: Event, y: System) returns (states': seq<System>, events': seq<Event>)
    requires Trace(states, events) && Goes(states[|events|], e, y)
    ensures Trace(states', events') && states'[|events'|] == y
  {
    Extend(states, events, e, y);
    states', events' := states + [y], events + [e];
  }

  /** A run that the code's waits allow, at whose end the second replica's sequence number has run ahead of its chain. */
  lemma RunningAheadHappens() returns (states: seq<System>, events: seq<Event>)
    ensures Run(2, states, events) && Patient(states, events) && |states[|events|].reps| == 2
    ensures states[|events|].reps[1].seqId > |states[|events|].reps[1].chain|
  {
    var b1, s1, s2, s3, s4, b2, s5, s6, s7, s8 := TwoRounds(Start(2));
    var t1, t2, t3, t4 := JumpsAhead(s8, b1, b2);
    states, events := ExtendRound([Start(2)], [], b1, s1, s2, s3, s4);
    states, events := ExtendRound(states, events, b2, s5, s6, s7, s8);
    states, events := Extended(states, events, Deliver(1, PrePrepare(b1, 1)), t1);
    states, events := Extended(states, events, Deliver(1, Prepare(b1, 1, 0)), t2);
    states, events := Extended(states, events, Deliver(1, PrePrepare(b2, 2)), t3);
    states, events := Extended(states, events, Deliver(1, Commit(b2, 2, 0)), t4);
  }
}
