/**
 A replica that is told of its next block too early: the pre-prepare is pooled, not answered, and never comes
 again. When the replica's turn comes its waits never end, so that it takes up no block any more.
 */
module PbftStalls {
  import opened Pbft
  import opened PbftRuns
  import opened PbftQuorums

  /** The pre-prepare that would open the replica's round. */
  function Opening(y: System, r: nat): Msg
    requires r < |y.reps| && 1 <= y.reps[r].seqId <= |y.proposals|
  {
    PrePrepare(y.proposals[y.reps[r].seqId - 1], y.reps[r].seqId)
  }

  /** Replica `r`, not the leader, is at the beginning of a round whose pre-prepare it has handled already. */
  ghost predicate Missed(y: System, r: nat) {
    && 0 < r < |y.reps| == |y.seen| && y.reps[r].stage == 1
    && 1 <= y.reps[r].seqId <= |y.proposals| && Opening(y, r) in y.seen[r]
  }

  /** What a waiting replica still handles does nothing but fill its pool. */
  lemma MissedHandles(y: System, r: nat, m: Msg)
    requires Inv(y) && Missed(y, r) && Enabled(y, Deliver(r, m)) && InTime(y, Deliver(r, m))
    ensures var r' := Handle(|y.reps|, y.reps[r], m).rep;
      r'.stage == 1 && r'.seqId == y.reps[r].seqId && r'.chain == y.reps[r].chain
  {
    assert MsgOk(y, m);
  }

  lemma MissedStays(x: System, e: Event, y: System, r: nat)
    requires Inv(x) && Follows(x, e, y) && InTime(x, e) && Missed(x, r)
    ensures Missed(y, r) && y.reps[r].chain == x.reps[r].chain && y.reps[r].seqId == x.reps[r].seqId
  {
    if e.Deliver? && e.r == r {
      MissedHandles(x, r, e.m);
    }
  }

  /** It stays so for ever: no block is appended any more. */
  lemma {:induction false} MissedForEver(n: nat, states: seq<System>, events: seq<Event>, j: nat, k: nat, r: nat)
    requires Run(n, states, events) && Patient(states, events) && j <= k < |states| && Missed(states[j], r)
    ensures Missed(states[k], r) && states[k].reps[r].chain == states[j].reps[r].chain
  {
    if j < k {
      MissedForEver(n, states, events, j, k - 1, r);
      RunKeeps(n, states, events, k - 1);
      assert Follows(states[k - 1], events[k - 1], states[k]) && InTime(states[k - 1], events[k - 1]);
      MissedStays(states[k - 1], events[k - 1], states[k], r);
    }
  }

  /** The leader's pre-prepares stay to be heard. */
  lemma {:induction false} OpeningsSent(n: nat, states: seq<System>, events: seq<Event>, k: nat, q: nat)
    requires Run(n, states, events) && k < |states| && 1 <= q <= |states[k].proposals|
    ensures PrePrepare(states[k].proposals[q - 1], q) in states[k].sent
  {
    if k > 0 {
      RunKeeps(n, states, events, k - 1);
      var x, e := states[k - 1], events[k - 1];
      assert Follows(x, e, states[k]);
      if q <= |x.proposals| {
        OpeningsSent(n, states, events, k - 1, q);
      } else {
        assert RepOk(x, 0);
        HeadOf(x, x.reps[0]);
      }
    }
  }

  /** A replica in step, at the beginning of a round, can go on exactly if it has not missed the opening. */
  lemma GoesOnIff(n: nat, states: seq<System>, events: seq<Event>, k: nat, r: nat)
    requires Run(n, states, events) && k < |states| && 0 < r < n == |states[k].reps| == |states[k].seen|
    requires states[k].reps[r].stage == 1 && 1 <= states[k].reps[r].seqId == |states[k].reps[r].chain| <= |states[k].proposals|
    ensures var y := states[k]; var e := Deliver(r, Opening(y, r));
      !Missed(y, r) <==> Enabled(y, e) && InTime(y, e) && Prepare(Opening(y, r).block, y.reps[r].seqId, r) in Handle(n, y.reps[r], Opening(y, r)).msgs
  {
    var y := states[k];
    RunKeeps(n, states, events, k);
    OpeningsSent(n, states, events, k, y.reps[r].seqId);
    assert RepOk(y, r);
    NextBlock(y, r, Opening(y, r).block, y.reps[r].seqId);
  }

  // ----- two replicas, the second of which stalls

  lemma FallsBehind(y: System, b1: Block, b2: Block) returns (y1: System, y2: System, y3: System, y4: System)
    requires TwoOf(y) && y.reps[1] == Initial(1) && y.seen[1] == {} && b1 == Block(1, Genesis, 0, true) && b2.Block? && b2.number == 2
    requires PrePrepare(b1, 1) in y.sent && Prepare(b1, 1, 0) in y.sent && PrePrepare(b2, 2) in y.sent && Commit(b1, 1, 0) in y.sent
    ensures Goes(y, Deliver(1, PrePrepare(b1, 1)), y1) && Goes(y1, Deliver(1, Prepare(b1, 1, 0)), y2)
    ensures Goes(y2, Deliver(1, PrePrepare(b2, 2)), y3) && Goes(y3, Deliver(1, Commit(b1, 1, 0)), y4)
    ensures TwoOf(y4) && y4.reps[1].seqId == 2 && y4.reps[1].stage == 1 && y4.proposals == y.proposals && PrePrepare(b2, 2) in y4.seen[1]
  {
    assert Quorum(2) == 1;
    y1 := Apply(y, Deliver(1, PrePrepare(b1, 1)));
    assert y1.reps[1] == Remembered(Initial(1), b1, 1).(stage := 2);
    y2 := Apply(y1, Deliver(1, Prepare(b1, 1, 0)));
    assert y2.reps[1].stage == 3 && y2.reps[1].seqId == 1 && y2.reps[1].chain == [Genesis];
    y3 := Apply(y2, Deliver(1, PrePrepare(b2, 2)));
    y4 := Apply(y3, Deliver(1, Commit(b1, 1, 0)));
  }

  lemma ExtendedByFour(states: seq<System>, events: seq<Event>, e1: Event, y1: System, e2: Event, y2: System,
                       e3: Event, y3: System, e4: Event, y4: System)
      returns (states': seq<System>, events': seq<Event>)
    requires Trace(states, events) && Goes(states[|events|], e1, y1) && Goes(y1, e2, y2) && Goes(y2, e3, y3) && Goes(y3, e4, y4)
    ensures Trace(states', events') && states'[|events'|] == y4
  {
    states', events' := Extended(states, events, e1, y1);
    states', events' := Extended(states', events', e2, y2);
    states', events' := Extended(states', events', e3, y3);
    states', events' := Extended(states', events', e4, y4);
  }

  lemma StallEnds(states: seq<System>, events: seq<Event>, b2: Block)
    requires Trace(states, events)
    requires var y := states[|events|]; TwoOf(y) && y.reps[1].seqId == 2 && y.reps[1].stage == 1 && PrePrepare(b2, 2) in y.seen[1]
    ensures Missed(states[|events|], 1)
  {
    var y := states[|events|];
    RunKeeps(2, states, events, |events|);
    assert RepOk(y, 1) && MsgOk(y, PrePrepare(b2, 2));
  }

  /** The second replica hears of block 2 before the commit of block 1; it appends block 1, and that is all. */
  lemma StallHappens() returns (states: seq<System>, events: seq<Event>)
    ensures Run(2, states, events) && Patient(states, events) && Missed(states[|events|], 1)
  {
    var b1, s1, s2, s3, s4, b2, s5, s6, s7, s8 := TwoRounds(Start(2));
    states, events := ExtendRound([Start(2)], [], b1, s1, s2, s3, s4);
    states, events := ExtendRound(states, events, b2, s5, s6, s7, s8);
    var t1, t2, t3, t4 := FallsBehind(s8, b1, b2);
    states, events := ExtendedByFour(states, events, Deliver(1, PrePrepare(b1, 1)), t1, Deliver(1, Prepare(b1, 1, 0)), t2,
                                     Deliver(1, PrePrepare(b2, 2)), t3, Deliver(1, Commit(b1, 1, 0)), t4);
    StallEnds(states, events, b2);
  }
}
