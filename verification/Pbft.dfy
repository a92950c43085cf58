/**
 The normal case of the shard's consensus in one view (consensus_shard/pbft_all/messageHandle.go,
 toolFuncs.go, chain/blockchain.go; the protocol of section 4.2 of Castro and Liskov, OSDI 1999): one
 replica's handlers.
 */
module Pbft {

  /** A block with its header. Hashes are injective, so a parent hash stands for the parent itself. */
  datatype Block = Genesis | Block(number: nat, parent: Block, body: nat, txRootOk: bool)

  datatype Msg =
    | PrePrepare(block: Block, seqId: nat)
    | Prepare(block: Block, seqId: nat, sender: nat)
    | Commit(block: Block, seqId: nat, sender: nat)

  /** The state one replica keeps; requests are named by their digests, that is by their blocks. */
  datatype Replica = Replica(
    id: nat,
    seqId: nat,
    chain: seq<Block>,                    // the stored blocks, the current one last
    pool: set<Block>,                     // requestPool
    prepares: map<Block, nat>,            // number of prepare messages counted
    commits: map<Block, nat>,             // number of commit messages counted
    committed: set<Block>,                // isCommitBordcast
    replied: set<Block>,                  // isReply
    proposing: bool,                      // the leader holds the sequence lock
    stage: nat,                           // pbftStage
    height2Digest: map<nat, Block>)

  datatype Out = Out(rep: Replica, msgs: set<Msg>)

  /** 2f + 1 of the n = 3f + 1 replicas. */
  function Quorum(n: nat): nat
    requires n > 0
  {
    2 * ((n - 1) / 3) + 1
  }

  function NumberOf(b: Block): nat { if b.Genesis? then 0 else b.number }

  function Count(m: map<Block, nat>, b: Block): nat { if b in m then m[b] else 0 }

  function Head(r: Replica): Block { if r.chain == [] then Genesis else r.chain[|r.chain| - 1] }

  /** `IsValidBlock`. */
  predicate IsValidBlock(head: Block, b: Block) { b.Block? && b.parent == head && b.txRootOk }

  /** `AddBlock`. */
  function Added(chain: seq<Block>, b: Block): seq<Block> {
    var head := if chain == [] then Genesis else chain[|chain| - 1];
    if b.Genesis? || b.number != NumberOf(head) + 1 then chain
    else if b.parent != head then chain
    else chain + [b]
  }

  function Remembered(r: Replica, b: Block, q: nat): Replica {
    r.(pool := r.pool + {b}, height2Digest := r.height2Digest[q := b])
  }

  function OnPrePrepare(r: Replica, b: Block, q: nat): Out {
    if q < r.seqId then Out(r, {})
    else if r.seqId < q || !IsValidBlock(Head(r), b) then Out(Remembered(r, b, q), {})
    else Out(Remembered(r, b, q).(stage := r.stage + 1), {Prepare(b, q, r.id)})
  }

  function OnPrepare(n: nat, r: Replica, b: Block, q: nat): Out
    requires n > 0
  {
    if q < r.seqId || b !in r.pool || r.seqId < q then Out(r, {})
    else
      var c := Count(r.prepares, b) + 1;
      var r' := r.(prepares := r.prepares[b := c]);
      if c >= Quorum(n) && b !in r.committed
      then Out(r'.(committed := r.committed + {b}, stage := r.stage + 1), {Commit(b, q, r.id)}) else Out(r', {})
  }

  /** Nothing here compares `q` with the replica's own sequence number, except that older messages are dropped. */
  function OnCommit(n: nat, r: Replica, b: Block, q: nat): Replica
    requires n > 0
  {
    if q < r.seqId then r
    else
      var c := Count(r.commits, b) + 1;
      var r' := r.(commits := r.commits[b := c]);
      if c < Quorum(n) || b in r.replied then r'
      else
        var done := r'.(replied := r.replied + {b}, proposing := false, stage := 1);
        if b !in r.pool then done else done.(chain := Added(r.chain, b), seqId := r.seqId + 1)
  }

  function Handle(n: nat, r: Replica, m: Msg): Out
    requires n > 0
  {
    match m
    case PrePrepare(b, q) => OnPrePrepare(r, b, q)
    case Prepare(b, q, _) => OnPrepare(n, r, b, q)
    case Commit(b, q, _) => Out(OnCommit(n, r, b, q), {})
  }

  /** Whether the handler waits with the message: the stage is not reached yet, and the message is not out of date. */
  predicate Waits(r: Replica, m: Msg) {
    m.seqId >= r.seqId && r.stage < (match m case PrePrepare(_, _) => 1 case Prepare(_, _, _) => 2 case Commit(_, _, _) => 3)
  }

  function Proposal(r: Replica, body: nat): Block {
    Block(NumberOf(Head(r)) + 1, Head(r), body, true)
  }

  function Proposed(r: Replica, body: nat): Out {
    var b := Proposal(r, body);
    Out(Remembered(r, b, r.seqId).(proposing := true, stage := 2), {PrePrepare(b, r.seqId)})
  }

  class PbftNode {
    const n: nat
    const nodeId: nat
    var sequenceID: nat
    var blocks: seq<Block>
    var requestPool: set<Block>
    var cntPrepareConfirm: map<Block, nat>
    var cntCommitConfirm: map<Block, nat>
    var isCommitBroadcast: set<Block>
    var isReply: set<Block>
    var sequenceLockHeld: bool
    var pbftStage: nat
    var height2Digest: map<nat, Block>

    ghost function State(): Replica
      reads this
    {
      Replica(nodeId, sequenceID, blocks, requestPool, cntPrepareConfirm, cntCommitConfirm, isCommitBroadcast, isReply,
              sequenceLockHeld, pbftStage, height2Digest)
    }

    constructor (n: nat, nodeId: nat)
      ensures this.n == n && State() == Initial(nodeId)
    {
      this.n, this.nodeId, sequenceID, blocks := n, nodeId, 1, [Genesis];
      requestPool, cntPrepareConfirm, cntCommitConfirm := {}, map[], map[];
      isCommitBroadcast, isReply, sequenceLockHeld := {}, {}, false;
      pbftStage, height2Digest := 1, map[];
    }

    method CurrentBlock() returns (b: Block)
      ensures b == Head(State())
    {
      if blocks == [] {
        b := Genesis;
      } else {
        b := blocks[|blocks| - 1];
      }
    }

    method Propose(body: nat) returns (sent: set<Msg>)
      modifies this
      ensures Out(State(), sent) == Proposed(old(State()), body)
    {
      sequenceLockHeld := true;
      var head := CurrentBlock();
      var block := Block(NumberOf(head) + 1, head, body, true);
      requestPool := requestPool + {block};
      height2Digest := height2Digest[sequenceID := block];
      sent := {PrePrepare(block, sequenceID)};
      pbftStage := 2;
    }

    /** `waiting`: the handler is still at its wait, and nothing has changed. */
    method HandlePrePrepare(block: Block, seqId: nat) returns (waiting: bool, sent: set<Msg>)
      modifies this
      ensures waiting <==> Waits(old(State()), PrePrepare(block, seqId))
      ensures waiting ==> State() == old(State()) && sent == {}
      ensures !waiting ==> Out(State(), sent) == OnPrePrepare(old(State()), block, seqId)
    {
      waiting, sent := pbftStage < 1 && seqId >= sequenceID, {};
      if waiting || seqId < sequenceID {
        return;
      }
      var flag := false;
      if sequenceID < seqId {
        requestPool, height2Digest := requestPool + {block}, height2Digest[seqId := block];
      } else {
        var head := CurrentBlock();
        flag := IsValidBlock(head, block);
        requestPool, height2Digest := requestPool + {block}, height2Digest[seqId := block];
      }
      if flag {
        sent := {Prepare(block, seqId, nodeId)};
        pbftStage := pbftStage + 1;
      }
    }

    method HandlePrepare(block: Block, seqId: nat, sender: nat) returns (waiting: bool, sent: set<Msg>)
      requires n > 0
      modifies this
      ensures waiting <==> Waits(old(State()), Prepare(block, seqId, sender))
      ensures waiting ==> State() == old(State()) && sent == {}
      ensures !waiting ==> Out(State(), sent) == OnPrepare(n, old(State()), block, seqId)
    {
      waiting, sent := pbftStage < 2 && seqId >= sequenceID, {};
      if waiting || seqId < sequenceID {
        return;
      }
      if block !in requestPool {
      } else if sequenceID < seqId {
      } else {
        cntPrepareConfirm := cntPrepareConfirm[block := Count(cntPrepareConfirm, block) + 1];
        if cntPrepareConfirm[block] >= Quorum(n) && block !in isCommitBroadcast {
          sent := {Commit(block, seqId, nodeId)};
          isCommitBroadcast := isCommitBroadcast + {block};
          pbftStage := pbftStage + 1;
        }
      }
    }

    method AddBlock(block: Block)
      modifies this`blocks
      ensures blocks == Added(old(blocks), block)
    {
      var head := CurrentBlock();
      if block.Genesis? || block.number != NumberOf(head) + 1 {
        return;
      }
      if block.parent != head {
        return;
      }
      blocks := blocks + [block];
    }

    method HandleCommit(block: Block, seqId: nat, sender: nat) returns (waiting: bool)
      requires n > 0
      modifies this
      ensures waiting <==> Waits(old(State()), Commit(block, seqId, sender))
      ensures waiting ==> State() == old(State())
      ensures !waiting ==> State() == OnCommit(n, old(State()), block, seqId)
    {
      waiting := pbftStage < 3 && seqId >= sequenceID;
      if waiting || seqId < sequenceID {
        return;
      }
      cntCommitConfirm := cntCommitConfirm[block := Count(cntCommitConfirm, block) + 1];
      if cntCommitConfirm[block] >= Quorum(n) && block !in isReply {
        if block !in requestPool {
          isReply := isReply + {block};
        } else {
          AddBlock(block);
          isReply := isReply + {block};
          sequenceID := sequenceID + 1;
        }
        pbftStage := 1;
        sequenceLockHeld := false;
      }
    }
  }

  function Initial(id: nat): Replica {
    Replica(id, 1, [Genesis], {}, map[], map[], {}, {}, false, 1, map[])
  }
}
