/**
 How a shard learns that the last round of every other shard is over before it splits its queue
 (consensus_shard/pbft_all/accountTransfer_module.go, pbftOutside_moduleCLPA.go): the announcements of the
 other shards and the sequence numbers of their relays, on first-in-first-out links to one shard.
 */
module PartitionReady {

  /** A relay with its sender's sequence number, or the announcement with the sequence number reached. */
  datatype Msg = RelayMsg(seqId: nat) | ReadyMsg(seqId: nat)

  /**
   Another shard and its link to us. `announced` says that it has stopped and announced, `heard` that the
   announcement has arrived; `blocks` counts its blocks since it last changed the map.
   */
  datatype Sender = Sender(nextSeq: nat, announced: bool, heard: bool, blocks: nat, everRelayed: bool, link: seq<Msg>)

  datatype State = State(
    self: nat,
    senders: seq<Sender>,               // indexed by shard; our own entry is not used
    seqIDMap: map<nat, nat>,            // the sequence number of the last relay from each shard
    readySeq: map<nat, nat>,            // the sequence number each shard announced last
    partitionReady: set<nat>,
    passed: bool)                       // the test has been passed, the map not yet applied

  datatype Event =
    | Block(s: nat)          // shard s commits a block and relays to us
    | Announce(s: nat)       // shard s stops and announces
    | AnnounceSelf
    | Deliver(s: nat)
    | Pass                   // we pass the test and split our queue
    | ChangeSelf             // we commit the partition block
    | ChangeOther(s: nat)    // shard s does

  predicate Other(y: State, s: nat) { s < |y.senders| && s != y.self }

  /** `getPartitionReady`. */
  predicate Ready(y: State) {
    && |y.partitionReady| == |y.senders|
    && forall s :: s in y.seqIDMap ==> s in y.readySeq && y.readySeq[s] == y.seqIDMap[s] + 1
  }

  /** The loop over the relay numbers, in whatever order the map is traversed. */
  method GetPartitionReady(shardNums: nat, seqIDMap: map<nat, nat>, readySeq: map<nat, nat>, partitionReady: set<nat>) returns (ready: bool)
    ensures ready <==>
      |partitionReady| == shardNums && forall s :: s in seqIDMap ==> s in readySeq && readySeq[s] == seqIDMap[s] + 1
  {
    var flag := true;
    var todo := seqIDMap.Keys;
    while todo != {}
      invariant todo <= seqIDMap.Keys
      invariant flag <==> forall s :: s in seqIDMap && s !in todo ==> s in readySeq && readySeq[s] == seqIDMap[s] + 1
      decreases |todo|
    {
      var sid :| sid in todo;
      if sid !in readySeq || readySeq[sid] != seqIDMap[sid] + 1 {
        flag := false;
      }
      todo := todo - {sid};
    }
    ready := |partitionReady| == shardNums && flag;
  }

  /**
   One map at a time: nobody announces for a new map while we have not applied the last, and nobody applies a
   map before we have passed the test for it.
   */
  predicate Enabled(y: State, e: Event) {
    match e
    case Block(s) => Other(y, s) && !y.senders[s].announced
    case Announce(s) => Other(y, s) && !y.senders[s].announced && !y.passed
    case AnnounceSelf => y.self < |y.senders| && y.self !in y.partitionReady && !y.passed
    case Deliver(s) => Other(y, s) && y.senders[s].link != []
    case Pass => !y.passed && Ready(y)
    case ChangeSelf => y.passed
    case ChangeOther(s) => Other(y, s) && y.senders[s].announced && y.senders[s].heard && (y.passed || s !in y.partitionReady)
  }

  function Relayed(x: Sender): Sender {
    x.(nextSeq := x.nextSeq + 1, blocks := x.blocks + 1, everRelayed := true, link := x.link + [RelayMsg(x.nextSeq)])
  }

  function Announced(x: Sender): Sender {
    x.(announced := true, link := x.link + [ReadyMsg(x.nextSeq)])
  }

  /** The partition block takes a sequence number too, but sends no relay. */
  function Changed(x: Sender): Sender {
    x.(nextSeq := x.nextSeq + 1, announced := false, heard := false, blocks := 0)
  }

  function Handle(y: State, s: nat, m: Msg): State
    requires s < |y.senders|
  {
    match m
    case RelayMsg(seqId) => y.(seqIDMap := y.seqIDMap[s := seqId])
    case ReadyMsg(seqId) =>
      y.(partitionReady := y.partitionReady + {s}, readySeq := y.readySeq[s := seqId],
         senders := y.senders[s := y.senders[s].(heard := true)])
  }

  function TakeFirst(y: State, s: nat): State
    requires s < |y.senders| && y.senders[s].link != []
  {
    y.(senders := y.senders[s := y.senders[s].(link := y.senders[s].link[1..])])
  }

  function Apply(y: State, e: Event): State
    requires Enabled(y, e)
  {
    match e
    case Block(s) => y.(senders := y.senders[s := Relayed(y.senders[s])])
    case Announce(s) => y.(senders := y.senders[s := Announced(y.senders[s])])
    case AnnounceSelf => y.(partitionReady := y.partitionReady + {y.self})
    case Deliver(s) => Handle(TakeFirst(y, s), s, y.senders[s].link[0])
    case Pass => y.(passed := true)
    case ChangeSelf => y.(partitionReady := {}, passed := false)
    case ChangeOther(s) => y.(senders := y.senders[s := Changed(y.senders[s])])
  }

  function Start(n: nat, self: nat): State {
    State(self, seq(n, _ => Sender(1, false, false, 0, false, [])), map[], map[], {}, false)
  }

  ghost predicate Follows(x: State, e: Event, y: State) {
    Enabled(x, e) && y == Apply(x, e)
  }

  // ----- what every reachable state satisfies

  /** What the last relay on its way, or the last one received, tells about its sender. */
  predicate Latest(x: Sender, known: bool, seqId: nat) {
    && known == x.everRelayed
    && (known ==> (x.blocks > 0 ==> seqId + 1 == x.nextSeq) && (x.blocks == 0 ==> seqId + 1 < x.nextSeq))
  }

  predicate ReadyIsLast(x: Sender) { x.link != [] && x.link[|x.link| - 1].ReadyMsg? }

  /** The messages of a link are relays, but the last one may be the announcement. */
  predicate LinkShape(x: Sender) {
    && (forall i :: 0 <= i < |x.link| - 1 ==> x.link[i].RelayMsg?)
    && (ReadyIsLast(x) <==> x.announced && !x.heard)
    && (ReadyIsLast(x) ==> x.link[|x.link| - 1].seqId == x.nextSeq)
    && (x.heard ==> x.announced && x.link == [])
  }

  /** The number of relays on the link. */
  function RelayCount(x: Sender): nat {
    if ReadyIsLast(x) then |x.link| - 1 else |x.link|
  }

  ghost predicate SenderOk(y: State, s: nat)
    requires s < |y.senders|
  {
    var x := y.senders[s];
    && (x.blocks > 0 ==> x.everRelayed) && x.nextSeq > 0 && LinkShape(x)
    && (if RelayCount(x) > 0 then x.link[RelayCount(x) - 1].RelayMsg? && Latest(x, true, x.link[RelayCount(x) - 1].seqId)
        else Latest(x, s in y.seqIDMap, if s in y.seqIDMap then y.seqIDMap[s] else 0))
    && (!y.passed && s in y.partitionReady ==> x.heard && s in y.readySeq && y.readySeq[s] == x.nextSeq)
  }

  ghost predicate Inv(y: State) {
    && y.self < |y.senders|
    && (forall s :: s in y.seqIDMap ==> Other(y, s))
    && (forall s :: s in y.partitionReady ==> s < |y.senders|)
    && (forall s: nat {:trigger SenderOk(y, s)} :: Other(y, s) ==> SenderOk(y, s))
  }

  lemma StartHolds(n: nat, self: nat)
    requires self < n
    ensures Inv(Start(n, self))
  {
  }

  /** Both states know the same of shard `u`. */
  ghost predicate Alike(x: State, y: State, u: nat) {
    && u < |x.senders| && u < |y.senders| && y.senders[u] == x.senders[u]
    && (u in y.seqIDMap <==> u in x.seqIDMap) && (u in x.seqIDMap ==> y.seqIDMap[u] == x.seqIDMap[u])
    && (u in y.partitionReady <==> u in x.partitionReady) && (u in x.readySeq ==> u in y.readySeq && y.readySeq[u] == x.readySeq[u])
  }

  /** A step that changes one sender, and nothing else that others depend on. */
  lemma OneSender(x: State, y: State, s: nat)
    requires Inv(x) && s < |x.senders| && |y.senders| == |x.senders| && y.self == x.self && y.passed == x.passed
    requires forall u: nat {:trigger Alike(x, y, u)} :: u < |x.senders| && u != s ==> Alike(x, y, u)
    requires (forall u :: u in y.seqIDMap ==> Other(y, u)) && (forall u :: u in y.partitionReady ==> u < |y.senders|)
    requires Other(y, s) ==> SenderOk(y, s)
    ensures Inv(y)
  {
    forall u: nat | Other(y, u)
      ensures SenderOk(y, u)
    {
      if u != s {
        assert SenderOk(x, u) && Alike(x, y, u);
      }
    }
  }

  lemma DeliverKeeps(y: State, s: nat)
    requires Inv(y) && Enabled(y, Deliver(s))
    ensures Inv(Apply(y, Deliver(s)))
  {
    assert SenderOk(y, s);
    OneSender(y, Apply(y, Deliver(s)), s);
  }

  lemma SenderKeeps(y: State, s: nat, e: Event)
    requires Inv(y) && Enabled(y, e) && (e == Block(s) || e == Announce(s) || e == ChangeOther(s))
    ensures Inv(Apply(y, e))
  {
    assert SenderOk(y, s);
    OneSender(y, Apply(y, e), s);
  }

  lemma SelfKeeps(y: State, e: Event)
    requires Inv(y) && Enabled(y, e) && (e.AnnounceSelf? || e.Pass? || e.ChangeSelf?)
    ensures Inv(Apply(y, e))
  {
    var y' := Apply(y, e);
    forall u: nat | Other(y', u)
      ensures SenderOk(y', u)
    {
      assert SenderOk(y, u);
    }
  }

  /** What each event does to a sender and to the number of its relays on the link. */
  lemma CountAfter(y: State, e: Event, u: nat)
    requires Inv(y) && Enabled(y, e) && u < |y.senders| && (e.Block? || e.Announce? || e.Deliver? || e.ChangeOther?)
    ensures var y' := Apply(y, e); |y'.senders| == |y.senders| && (u != e.s ==> y'.senders[u] == y.senders[u])
    ensures var x, x' := y.senders[e.s], Apply(y, e).senders[e.s];
      match e
      case Block(_) => RelayCount(x') == RelayCount(x) + 1 && x'.announced == x.announced && x'.heard == x.heard
      case Announce(_) => RelayCount(x') == RelayCount(x) && x'.announced && x'.heard == x.heard
      case Deliver(_) =>
        && RelayCount(x') == RelayCount(x) - (if x.link[0].RelayMsg? then 1 else 0)
        && x'.announced == x.announced && (x.heard ==> x'.heard) && (x.link[0].ReadyMsg? ==> x.announced && !x.heard)
      case ChangeOther(_) => RelayCount(x') == RelayCount(x) && !x'.announced
      case _ => true
  {
    assert SenderOk(y, e.s);
  }

  lemma StepKeeps(x: State, e: Event, y: State)
    requires Inv(x) && Follows(x, e, y)
    ensures Inv(y) && |y.senders| == |x.senders| && y.self == x.self
  {
    match e
    case Deliver(s) => DeliverKeeps(x, s);
    case Block(s) => SenderKeeps(x, s, e);
    case Announce(s) => SenderKeeps(x, s, e);
    case ChangeOther(s) => SenderKeeps(x, s, e);
    case _ => SelfKeeps(x, e);
  }

  lemma {:induction false} FullSet(n: nat, s: set<nat>)
    requires (forall x :: x in s ==> x < n) && |s| == n
    ensures forall x: nat :: x < n ==> x in s
  {
    if n > 0 {
      var m := n - 1;
      if m in s {
        FullSet(m, s - {m});
        forall x: nat | x < n
          ensures x in s
        {
          assert x == m || x in s - {m};
        }
      } else {
        BoundedSet(m, s);
      }
    }
  }

  lemma {:induction false} BoundedSet(n: nat, s: set<nat>)
    requires forall x :: x in s ==> x < n
    ensures |s| <= n
  {
    if n > 0 {
      BoundedSet(n - 1, s - {n - 1});
    } else {
      assert s == {};
    }
  }

  lemma {:induction false} EveryoneCounts(n: nat, s: set<nat>)
    requires (forall x :: x in s ==> x < n) && forall x: nat :: x < n ==> x in s
    ensures |s| == n
  {
    if n > 0 {
      EveryoneCounts(n - 1, s - {n - 1});
    } else {
      assert s == {};
    }
  }

  // ----- what the test tells

  /** The test is sound: when it passes, every other shard has stopped and none of its relays is still on its way. */
  lemma ReadyMeansQuiet(y: State, s: nat)
    requires Inv(y) && Ready(y) && !y.passed && Other(y, s)
    ensures y.senders[s].announced && y.senders[s].heard && y.senders[s].link == [] && s in y.partitionReady
  {
    FullSet(|y.senders|, y.partitionReady);
    assert SenderOk(y, s);
  }

  /** Every announcement has arrived, and with it everything before it. */
  ghost predicate Settled(y: State) {
    !y.passed && forall s: nat :: s < |y.senders| ==> s in y.partitionReady
  }

  /** Once everything has arrived, the test passes exactly if every shard that has ever relayed committed a block since its last change. */
  lemma ReadyIff(y: State)
    requires Inv(y) && Settled(y)
    ensures Ready(y) <==> forall s: nat :: Other(y, s) && y.senders[s].everRelayed ==> y.senders[s].blocks > 0
  {
    EveryoneCounts(|y.senders|, y.partitionReady);
    forall s: nat | Other(y, s)
      ensures s in y.readySeq && y.readySeq[s] == y.senders[s].nextSeq && y.senders[s].nextSeq > 0
      ensures Latest(y.senders[s], s in y.seqIDMap, if s in y.seqIDMap then y.seqIDMap[s] else 0)
    {
      assert SenderOk(y, s);
    }
  }
}
