/**
 What a quorum is worth and when it acts: two quorums overlap, and in every run each step of the normal case
 happens at the very message that completes its quorum.
 */
module PbftQuorums {
  import opened Pbft
  import opened PbftRuns
  import opened Graphs

  // ----- quorums overlap

  ghost predicate IsQuorum(n: nat, ids: set<nat>)
    requires n > 0
  {
    ids <= Vertices(n) && |ids| >= Quorum(n)
  }

  lemma OverlapSize(n: nat, a: set<nat>, b: set<nat>)
    requires a <= Vertices(n) && b <= Vertices(n)
    ensures |a * b| >= |a| + |b| - n
  {
    VertexCount(n);
    SubsetSize(a + b, Vertices(n));
    assert |a + b| == |a| + |b| - |a * b|;
  }

  /** Of 3f + 1 replicas two quorums share more than f, so one that follows the code; and the other 2f + 1 suffice for one. */
  lemma QuorumsMeet(f: nat, a: set<nat>, b: set<nat>)
    requires IsQuorum(3 * f + 1, a) && IsQuorum(3 * f + 1, b)
    ensures |a * b| > f && Quorum(3 * f + 1) <= (3 * f + 1) - f
  {
    OverlapSize(3 * f + 1, a, b);
  }

  /** Any two sets of at least `q` of `n` replicas share more than `f`. */
  ghost predicate AlwaysMeet(n: nat, q: nat, f: nat) {
    forall a: set<nat>, b: set<nat> :: a <= Vertices(n) && b <= Vertices(n) && |a| >= q && |b| >= q ==> |a * b| > f
  }

  /** The first and the last `q` of `n` replicas. */
  lemma EndsShare(n: nat, q: nat) returns (a: set<nat>, b: set<nat>)
    requires q <= n
    ensures a <= Vertices(n) && b <= Vertices(n) && |a| == |b| == q
    ensures |a * b| == if n <= 2 * q then 2 * q - n else 0
  {
    var others := Vertices(n - q);
    a, b := Vertices(q), Vertices(n) - others;
    VertexCount(q);
    VertexCount(n);
    VertexCount(n - q);
    assert Vertices(n) * others == others;
    assert a * b == a - others && a * others == if n <= 2 * q then others else a;
  }

  lemma Replicas(n: nat) returns (f: nat, extra: nat)
    requires n > 0
    ensures n == 3 * f + 1 + extra && extra <= 2 && (n - 1) / 3 == f && Quorum(n) == 2 * f + 1 && (extra == 0 <==> n % 3 == 1)
  {
    f, extra := (n - 1) / 3, (n - 1) % 3;
  }

  lemma MeetsIf(n: nat, q: nat, f: nat)
    requires q <= n
    ensures AlwaysMeet(n, q, f) <==> 2 * q > n + f
  {
    if 2 * q > n + f {
      forall a: set<nat>, b: set<nat> | a <= Vertices(n) && b <= Vertices(n) && |a| >= q && |b| >= q
        ensures |a * b| > f
      {
        OverlapSize(n, a, b);
      }
    } else {
      var a, b := EndsShare(n, q);
    }
  }

  /** With any other number of replicas the first and the last of them are two quorums that share f or fewer. */
  lemma QuorumsMeetIff(n: nat)
    requires n > 0
    ensures AlwaysMeet(n, Quorum(n), (n - 1) / 3) <==> n % 3 == 1
  {
    var f, extra := Replicas(n);
    MeetsIf(n, 2 * f + 1, f);
  }

  // ----- the append

  lemma SendersAfter(seen: set<Msg>, m: Msg, b: Block)
    requires m.Commit? ==> m.sender !in CommitSenders(seen, m.block)
    ensures |CommitSenders(seen + {m}, b)| == |CommitSenders(seen, b)| + (if m.Commit? && m.block == b then 1 else 0)
  {
    if m.Commit? && m.block == b {
      assert CommitSenders(seen + {m}, b) == CommitSenders(seen, b) + {m.sender};
    } else {
      assert CommitSenders(seen + {m}, b) == CommitSenders(seen, b);
    }
  }

  lemma CommitCounted(n: nat, r: Replica, m: Msg, b: Block)
    requires n > 0
    ensures var r' := Handle(n, r, m).rep;
      && r'.seqId >= r.seqId
      && Count(r'.commits, b) == Count(r.commits, b) + (if m.Commit? && m.block == b && m.seqId >= r.seqId then 1 else 0)
  {
  }

  lemma NothingHeard(y: System, body: nat, r: nat)
    requires Inv(y) && Enabled(y, Propose(body)) && r < |y.reps|
    ensures var b := Proposal(y.reps[0], body); Count(y.reps[r].commits, b) == 0 && CommitSenders(y.seen[r], b) == {}
  {
    var b := Proposal(y.reps[0], body);
    NewProposal(y, body);
    assert RepOk(y, r);
    assert CommitSenders(y.seen[r], b) == {};
    assert Count(y.reps[r].commits, b) <= |CommitSenders(y.seen[r], b)|;
  }

  /** A message keeps the count of commits for `b` exact, as long as the replica has not gone beyond `b`. */
  lemma HeardStep(y: System, r: nat, m: Msg, i: nat, b: Block, q: nat)
    requires Inv(y) && Enabled(y, Deliver(r, m)) && i < |y.reps| && IsProposal(y, b, q)
    requires y.reps[i].seqId <= q ==> Count(y.reps[i].commits, b) == |CommitSenders(y.seen[i], b)|
    ensures var y' := Apply(y, Deliver(r, m));
      |y'.seen| == |y.seen| && (y'.reps[i].seqId <= q ==> Count(y'.reps[i].commits, b) == |CommitSenders(y'.seen[i], b)|)
  {
    if i == r {
      SenderNew(y, r, m);
      SendersAfter(y.seen[r], m, b);
      CommitCounted(|y.reps|, y.reps[r], m, b);
      assert MsgOk(y, m);
      if m.block == b {
        SameNumber(y, b, m.seqId, q);
      }
    }
  }

  /** A replica that has not gone beyond a block has counted every commit it was sent for it. */
  lemma {:induction false} AllHeard(n: nat, states: seq<System>, events: seq<Event>, k: nat, r: nat, b: Block, q: nat)
    requires Run(n, states, events) && k < |states| && r < n && IsProposal(states[k], b, q)
    ensures |states[k].reps| == |states[k].seen| == n
    ensures states[k].reps[r].seqId <= q ==> Count(states[k].reps[r].commits, b) == |CommitSenders(states[k].seen[r], b)|
  {
    RunKeeps(n, states, events, k);
    if k > 0 {
      var x, e := states[k - 1], events[k - 1];
      RunKeeps(n, states, events, k - 1);
      assert Follows(x, e, states[k]);
      if IsProposal(x, b, q) {
        AllHeard(n, states, events, k - 1, r, b, q);
        if e.Deliver? {
          HeardStep(x, e.r, e.m, r, b, q);
        }
      } else {
        NothingHeard(x, e.body, r);
      }
    }
  }

  /** A block taken up had its quorum. */
  lemma {:induction false} RepliedCounted(n: nat, states: seq<System>, events: seq<Event>, k: nat, r: nat, b: Block)
    requires Run(n, states, events) && k < |states| && r < n
    ensures |states[k].reps| == n && (b in states[k].reps[r].replied ==> Count(states[k].reps[r].commits, b) >= Quorum(n))
  {
    RunKeeps(n, states, events, k);
    if k > 0 {
      RepliedCounted(n, states, events, k - 1, r, b);
      var x, e := states[k - 1], events[k - 1];
      assert Follows(x, e, states[k]);
      if e.Deliver? && e.r == r {
        RepliedStep(n, x.reps[r], e.m, b);
      }
    }
  }

  lemma RepliedStep(n: nat, r: Replica, m: Msg, b: Block)
    requires n > 0 && (b in r.replied ==> Count(r.commits, b) >= Quorum(n))
    ensures var r' := Handle(n, r, m).rep; b in r'.replied ==> Count(r'.commits, b) >= Quorum(n)
  {
  }

  /**
   A replica whose next block is pooled appends it at the commit that brings the number of its senders to
   2f + 1, not before and not later.
   */
  lemma AppendedAtQuorum(n: nat, states: seq<System>, events: seq<Event>, k: nat, r: nat, b: Block, q: nat, s: nat)
    requires Run(n, states, events) && k < |events| && r < n && events[k] == Deliver(r, Commit(b, q, s))
    requires |states[k].reps| == |states[k].seen| == |states[k + 1].reps| == |states[k + 1].seen| == n
    requires states[k].reps[r].seqId == |states[k].reps[r].chain| == q && b in states[k].reps[r].pool
    requires |CommitSenders(states[k].seen[r], b)| < 2 * ((n - 1) / 3) + 1
    ensures states[k + 1].reps[r].chain == states[k].reps[r].chain
      + (if |CommitSenders(states[k + 1].seen[r], b)| == 2 * ((n - 1) / 3) + 1 then [b] else [])
  {
    var y, m := states[k], Commit(b, q, s);
    RunKeeps(n, states, events, k);
    assert Follows(y, events[k], states[k + 1]);
    assert MsgOk(y, m);
    AllHeard(n, states, events, k, r, b, q);
    RepliedCounted(n, states, events, k, r, b);
    SenderNew(y, r, m);
    SendersAfter(y.seen[r], m, b);
    NextBlock(y, r, b, q);
  }

  /** The proposal that bears the replica's sequence number can be appended. */
  lemma NextBlock(y: System, r: nat, b: Block, q: nat)
    requires Inv(y) && r < |y.reps| && IsProposal(y, b, q) && y.reps[r].seqId == |y.reps[r].chain| == q
    ensures Added(y.reps[r].chain, b) == y.reps[r].chain + [b] && IsValidBlock(Head(y.reps[r]), b)
  {
    assert RepOk(y, r);
    HeadOf(y, y.reps[r]);
    assert LinkAt(y.proposals, q - 1);
  }

  // ----- prepares and commits

  /** A replica in step answers the pre-prepare of its next block with a prepare. */
  lemma PreparedAtOnce(n: nat, states: seq<System>, events: seq<Event>, k: nat, r: nat, b: Block, q: nat)
    requires Run(n, states, events) && k < |events| && r < n && events[k] == Deliver(r, PrePrepare(b, q))
    requires |states[k].reps| == |states[k + 1].reps| == n && states[k].reps[r].seqId == |states[k].reps[r].chain| == q
    ensures Prepare(b, q, r) in states[k + 1].sent && b in states[k + 1].reps[r].pool
  {
    RunKeeps(n, states, events, k);
    assert Follows(states[k], events[k], states[k + 1]);
    assert MsgOk(states[k], PrePrepare(b, q)) && RepOk(states[k], r);
    NextBlock(states[k], r, b, q);
  }

  /** The replica counts this prepare: the block is pooled and its turn has come. */
  predicate Takes(y: System, e: Event, r: nat, b: Block) {
    && e.Deliver? && e.r == r && r < |y.reps| && e.m.Prepare? && e.m.block == b
    && b in y.reps[r].pool && e.m.seqId == y.reps[r].seqId
  }

  /** How many prepares for `b` replica `r` has counted before state `k`. */
  function Taken(states: seq<System>, events: seq<Event>, r: nat, b: Block, k: nat): nat
    requires k <= |events| && k <= |states|
  {
    if k == 0 then 0 else Taken(states, events, r, b, k - 1) + (if Takes(states[k - 1], events[k - 1], r, b) then 1 else 0)
  }

  lemma PrepareStep(n: nat, r: Replica, m: Msg, b: Block)
    requires n > 0 && (b in r.committed <==> Count(r.prepares, b) >= Quorum(n))
    ensures var r' := Handle(n, r, m).rep; var taken := m.Prepare? && m.block == b && b in r.pool && m.seqId == r.seqId;
      && Count(r'.prepares, b) == Count(r.prepares, b) + (if taken then 1 else 0)
      && (b in r'.committed <==> Count(r'.prepares, b) >= Quorum(n))
  {
    if !m.Prepare? {
      OtherPrepares(n, r, m);
    }
  }

  lemma OtherPrepares(n: nat, r: Replica, m: Msg)
    requires n > 0 && !m.Prepare?
    ensures var r' := Handle(n, r, m).rep; r'.prepares == r.prepares && r'.committed == r.committed
  {
  }

  lemma TakenStep(x: System, e: Event, y: System, r: nat, b: Block)
    requires Follows(x, e, y) && r < |x.reps| && (b in x.reps[r].committed <==> Count(x.reps[r].prepares, b) >= Quorum(|x.reps|))
    ensures |y.reps| == |x.reps|
    ensures Count(y.reps[r].prepares, b) == Count(x.reps[r].prepares, b) + (if Takes(x, e, r, b) then 1 else 0)
    ensures b in y.reps[r].committed <==> Count(y.reps[r].prepares, b) >= Quorum(|x.reps|)
  {
    if e.Deliver? && e.r == r {
      PrepareStep(|x.reps|, x.reps[r], e.m, b);
    }
  }

  lemma {:induction false} PreparesCounted(n: nat, states: seq<System>, events: seq<Event>, k: nat, r: nat, b: Block)
    requires Run(n, states, events) && k < |states| && r < n
    ensures |states[k].reps| == n && Count(states[k].reps[r].prepares, b) == Taken(states, events, r, b, k)
    ensures b in states[k].reps[r].committed <==> Count(states[k].reps[r].prepares, b) >= Quorum(n)
  {
    if k > 0 {
      PreparesCounted(n, states, events, k - 1, r, b);
      assert Follows(states[k - 1], events[k - 1], states[k]);
      TakenStep(states[k - 1], events[k - 1], states[k], r, b);
    }
  }

  lemma RememberedStep(x: System, e: Event, y: System, r: nat, b: Block, q: nat)
    requires Inv(x) && Follows(x, e, y) && r < |x.reps| && (Commit(b, q, r) in x.sent ==> b in x.reps[r].committed)
    ensures |y.reps| == |x.reps| && (Commit(b, q, r) in y.sent ==> b in y.reps[r].committed)
  {
    if e.Deliver? {
      assert RepOk(x, e.r);
      CommittedGrow(|x.reps|, x.reps[e.r], e.m);
    }
  }

  lemma CommittedGrow(n: nat, r: Replica, m: Msg)
    requires n > 0
    ensures r.committed <= Handle(n, r, m).rep.committed
    ensures forall c :: c in Handle(n, r, m).msgs && c.Commit? ==> c.sender == r.id && c.block in Handle(n, r, m).rep.committed
  {
  }

  lemma {:induction false} CommitsRemembered(n: nat, states: seq<System>, events: seq<Event>, k: nat, r: nat, b: Block, q: nat)
    requires Run(n, states, events) && k < |states| && r < n
    ensures |states[k].reps| == n && (Commit(b, q, r) in states[k].sent ==> b in states[k].reps[r].committed)
  {
    RunKeeps(n, states, events, k);
    if k > 0 {
      CommitsRemembered(n, states, events, k - 1, r, b, q);
      RunKeeps(n, states, events, k - 1);
      assert Follows(states[k - 1], events[k - 1], states[k]);
      RememberedStep(states[k - 1], events[k - 1], states[k], r, b, q);
    }
  }

  /** A replica broadcasts its commit at the prepare that is number 2f + 1 of those it counts, not before and not later. */
  lemma CommitAtQuorum(n: nat, states: seq<System>, events: seq<Event>, k: nat, r: nat, b: Block, q: nat, s: nat)
    requires Run(n, states, events) && k < |events| && r < n && events[k] == Deliver(r, Prepare(b, q, s))
    requires Takes(states[k], events[k], r, b)
    ensures Commit(b, q, r) in states[k + 1].sent - states[k].sent <==> Taken(states, events, r, b, k + 1) == 2 * ((n - 1) / 3) + 1
  {
    RunKeeps(n, states, events, k);
    PreparesCounted(n, states, events, k, r, b);
    CommitsRemembered(n, states, events, k, r, b, q);
    assert Follows(states[k], events[k], states[k + 1]);
    assert RepOk(states[k], r);
  }
}
