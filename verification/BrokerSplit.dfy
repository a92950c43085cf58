/**
 The broker variant of the queue split (consensus_shard/pbft_all/accountTransfermod_Broker.go): some
 transactions follow a departing account, others become cross-shard and go back to the supervisor.
 */
module BrokerSplit {
  import opened Accounts
  import opened Sums
  import opened Sublists
  import opened Exits

  /** A queued transaction; `hasRaw` says that it is half of a broker transaction. */
  datatype BrokerTx = BrokerTx(id: nat, sender: Address, recipient: Address, hasRaw: bool, hasBroker: bool, senderIsBroker: bool,
                               finalRecipient: Address, originalSender: Address)

  // ----- one pass

  /** What one pass does with a transaction, given the accounts that go to the pass's destination. */
  function FateOf(addrSet: set<Address>, tx: BrokerTx): Fate {
    if !tx.hasRaw && !tx.hasBroker then
      if tx.sender in addrSet || tx.recipient in addrSet then HandBack else Stay
    else if !tx.hasRaw then
      if (if tx.senderIsBroker then tx.recipient else tx.sender) in addrSet then Send else Stay
    else if tx.finalRecipient == tx.recipient then
      if tx.recipient in addrSet then Send else Stay
    else if tx.originalSender == tx.sender then
      if tx.sender in addrSet then Send else Stay
    else Stay
  }

  function Part(addrSet: set<Address>, f: Fate, q: seq<BrokerTx>): seq<BrokerTx> {
    if q == [] then []
    else
      var before := Part(addrSet, f, q[..|q| - 1]);
      if FateOf(addrSet, q[|q| - 1]) == f then before + [q[|q| - 1]] else before
  }

  lemma PartNext(addrSet: set<Address>, f: Fate, q: seq<BrokerTx>, i: nat)
    requires i < |q|
    ensures Part(addrSet, f, q[..i + 1]) == if FateOf(addrSet, q[i]) == f then Part(addrSet, f, q[..i]) + [q[i]] else Part(addrSet, f, q[..i])
  {
    assert q[..i + 1][..i] == q[..i];
  }

  ghost predicate SplitTo(addrSet: set<Address>, q: seq<BrokerTx>, send: seq<BrokerTx>, back: seq<BrokerTx>, kept: seq<BrokerTx>) {
    send == Part(addrSet, Send, q) && back == Part(addrSet, HandBack, q) && kept == Part(addrSet, Stay, q)
  }

  lemma SplitNext(addrSet: set<Address>, q: seq<BrokerTx>, i: nat, send: seq<BrokerTx>, back: seq<BrokerTx>, kept: seq<BrokerTx>)
    requires i < |q| && SplitTo(addrSet, q[..i], send, back, kept)
    ensures match FateOf(addrSet, q[i])
      case Send => SplitTo(addrSet, q[..i + 1], send + [q[i]], back, kept)
      case HandBack => SplitTo(addrSet, q[..i + 1], send, back + [q[i]], kept)
      case Stay => SplitTo(addrSet, q[..i + 1], send, back, kept + [q[i]])
  {
    PartNext(addrSet, Send, q, i);
    PartNext(addrSet, HandBack, q, i);
    PartNext(addrSet, Stay, q, i);
  }

  /** The flags of one turn of the loop. */
  method Decide(addrSet: set<Address>, ptx: BrokerTx) returns (beSend: bool, beRemoved: bool, beCross: bool)
    ensures beSend <==> FateOf(addrSet, ptx) == Send
    ensures beRemoved <==> FateOf(addrSet, ptx) != Stay
    ensures beCross <==> FateOf(addrSet, ptx) == HandBack
  {
    beSend, beRemoved, beCross := false, false, false;
    var ok1, ok2 := ptx.sender in addrSet, ptx.recipient in addrSet;
    if !ptx.hasRaw {
      if ptx.hasBroker {
        if ptx.senderIsBroker {
          beSend, beRemoved := ok2, ok2;
        } else {
          beSend, beRemoved := ok1, ok1;
        }
      } else if ok1 || ok2 {
        beRemoved, beCross := true, true;
      }
    } else if ptx.finalRecipient == ptx.recipient {
      beSend, beRemoved := ok2, ok2;
    } else if ptx.originalSender == ptx.sender {
      beSend, beRemoved := ok1, ok1;
    }
  }

  /** One pass of the two-pointer loop. */
  method TakeOut(queue: array<BrokerTx>, len: nat, addrSet: set<Address>, cross: seq<BrokerTx>)
      returns (txSend: seq<BrokerTx>, txsBeCross: seq<BrokerTx>, firstPtr: nat)
    requires len <= queue.Length
    modifies queue
    ensures firstPtr <= len
    ensures txSend == Part(addrSet, Send, old(queue[..len]))
    ensures txsBeCross == cross + Part(addrSet, HandBack, old(queue[..len]))
    ensures queue[..firstPtr] == Part(addrSet, Stay, old(queue[..len]))
  {
    txSend, firstPtr := [], 0;
    var back: seq<BrokerTx> := [];
    ghost var q := queue[..len];
    ghost var kept: seq<BrokerTx> := [];
    for secondPtr := 0 to len
      invariant firstPtr <= secondPtr
      invariant forall k :: secondPtr <= k < len ==> queue[k] == q[k]
      invariant queue[..firstPtr] == kept && SplitTo(addrSet, q[..secondPtr], txSend, back, kept)
    {
      var ptx := queue[secondPtr];
      SplitNext(addrSet, q, secondPtr, txSend, back, kept);
      var beSend, beRemoved, beCross := Decide(addrSet, ptx);
      if beCross {
        back := back + [ptx];
      }
      if beSend {
        txSend := txSend + [ptx];
      }
      if !beRemoved {
        queue[firstPtr] := queue[secondPtr];
        firstPtr := firstPtr + 1;
        kept := kept + [ptx];
      }
    }
    assert q[..len] == q;
    txsBeCross := cross + back;
  }

  // ----- all passes

  /** The departing accounts that go to shard `t`. */
  function Going(dest: map<Address, nat>, t: nat): set<Address> {
    set a | a in dest && dest[a] == t
  }

  /** The first pass from `t` on that takes the transaction out of the queue of shard `sid`. */
  function ExitFrom(dest: map<Address, nat>, sid: nat, t: nat, n: nat, tx: BrokerTx): (e: Exit)
    ensures !ExitsBelow(e, t) && (e.At? ==> e.pass < n && e.pass != sid && !e.fate.Stay? && FateOf(Going(dest, e.pass), tx) == e.fate)
    decreases n - t
  {
    if t >= n then Never
    else if t != sid && FateOf(Going(dest, t), tx) != Stay then At(t, FateOf(Going(dest, t), tx))
    else ExitFrom(dest, sid, t + 1, n, tx)
  }

  function Tags(dest: map<Address, nat>, sid: nat, n: nat, q: seq<BrokerTx>): (tags: seq<Exit>)
    ensures |tags| == |q| && Takes(tags)
    ensures forall i :: 0 <= i < |q| ==> tags[i] == ExitFrom(dest, sid, 0, n, q[i])
  {
    if q == [] then [] else Tags(dest, sid, n, q[..|q| - 1]) + [ExitFrom(dest, sid, 0, n, q[|q| - 1])]
  }

  /** An element that is still queued before pass `t` exits from there on. */
  lemma {:induction false} StillQueued(dest: map<Address, nat>, sid: nat, s: nat, t: nat, n: nat, tx: BrokerTx)
    requires s <= t <= n && !ExitsBelow(ExitFrom(dest, sid, s, n, tx), t)
    ensures ExitFrom(dest, sid, s, n, tx) == ExitFrom(dest, sid, t, n, tx)
    decreases t - s
  {
    if s < t {
      StillQueued(dest, sid, s + 1, t, n, tx);
    }
  }

  lemma ExitNow(dest: map<Address, nat>, sid: nat, t: nat, n: nat, tx: BrokerTx)
    requires t < n && !ExitsBelow(ExitFrom(dest, sid, 0, n, tx), t)
    ensures var e := ExitFrom(dest, sid, 0, n, tx);
      if t == sid || FateOf(Going(dest, t), tx) == Stay then !ExitsBelow(e, t + 1) else e == At(t, FateOf(Going(dest, t), tx))
  {
    StillQueued(dest, sid, 0, t, n, tx);
  }

  /** One pass over what earlier passes left. */
  lemma {:induction false} PassOver(dest: map<Address, nat>, sid: nat, t: nat, n: nat, q: seq<BrokerTx>)
    requires t < n && t != sid
    ensures var tags, addrSet := Tags(dest, sid, n, q), Going(dest, t);
      var left := LeftBefore(q, tags, t);
      && Part(addrSet, Stay, left) == LeftBefore(q, tags, t + 1)
      && Part(addrSet, Send, left) == Chosen(q, tags, At(t, Send))
      && Part(addrSet, HandBack, left) == Chosen(q, tags, At(t, HandBack))
  {
    if q != [] {
      var init, tx := q[..|q| - 1], q[|q| - 1];
      PassOver(dest, sid, t, n, init);
      var left := LeftBefore(init, Tags(dest, sid, n, init), t);
      assert Tags(dest, sid, n, q)[..|init|] == Tags(dest, sid, n, init);
      if !ExitsBelow(ExitFrom(dest, sid, 0, n, tx), t) {
        ExitNow(dest, sid, t, n, tx);
      }
    }
  }

  /** No pass is made for the shard itself. */
  lemma {:induction false} PassSkipped(dest: map<Address, nat>, sid: nat, n: nat, q: seq<BrokerTx>)
    requires sid < n
    ensures var tags := Tags(dest, sid, n, q);
      && LeftBefore(q, tags, sid) == LeftBefore(q, tags, sid + 1)
      && Chosen(q, tags, At(sid, Send)) == [] && Chosen(q, tags, At(sid, HandBack)) == []
  {
    if q != [] {
      var init := q[..|q| - 1];
      PassSkipped(dest, sid, n, init);
      assert Tags(dest, sid, n, q)[..|init|] == Tags(dest, sid, n, init);
    }
  }

  lemma {:induction false} AllLeft(q: seq<BrokerTx>, tags: seq<Exit>)
    requires |tags| == |q|
    ensures LeftBefore(q, tags, 0) == q
  {
    if q != [] {
      AllLeft(q[..|q| - 1], tags[..|q| - 1]);
    }
  }

  /** What one shard sends another. */
  datatype Batch = Batch(to: nat, txs: seq<BrokerTx>)

  function Batches(q: seq<BrokerTx>, tags: seq<Exit>, sid: nat, n: nat): seq<Batch>
    requires |tags| == |q|
  {
    if n == 0 then []
    else if n - 1 == sid then Batches(q, tags, sid, n - 1)
    else Batches(q, tags, sid, n - 1) + [Batch(n - 1, Chosen(q, tags, At(n - 1, Send)))]
  }

  /** Where the loop over destinations stands before pass `i`. */
  ghost predicate Progress(q: seq<BrokerTx>, tags: seq<Exit>, sid: nat, i: nat, left: seq<BrokerTx>, sends: seq<Batch>, cross: seq<BrokerTx>) {
    && |tags| == |q| && left == LeftBefore(q, tags, i)
    && sends == Batches(q, tags, sid, i) && cross == TakenBelow(q, tags, HandBack, i)
  }

  lemma ProgressSkip(q: seq<BrokerTx>, dest: map<Address, nat>, sid: nat, n: nat, left: seq<BrokerTx>, sends: seq<Batch>, cross: seq<BrokerTx>)
    requires sid < n && Progress(q, Tags(dest, sid, n, q), sid, sid, left, sends, cross)
    ensures Progress(q, Tags(dest, sid, n, q), sid, sid + 1, left, sends, cross)
  {
    PassSkipped(dest, sid, n, q);
  }

  lemma ProgressStart(q: seq<BrokerTx>, tags: seq<Exit>, sid: nat)
    requires |tags| == |q|
    ensures Progress(q, tags, sid, 0, q, [], [])
  {
    AllLeft(q, tags);
  }

  /** The pass for shard `i`, unless that is the shard itself. */
  method Pass(queue: array<BrokerTx>, len: nat, dest: map<Address, nat>, sid: nat, i: nat, n: nat,
              sends: seq<Batch>, cross: seq<BrokerTx>, ghost q: seq<BrokerTx>)
      returns (sends': seq<Batch>, cross': seq<BrokerTx>, newLen: nat)
    requires len <= queue.Length && i < n && Progress(q, Tags(dest, sid, n, q), sid, i, queue[..len], sends, cross)
    modifies queue
    ensures newLen <= len && Progress(q, Tags(dest, sid, n, q), sid, i + 1, queue[..newLen], sends', cross')
  {
    if i == sid {
      ProgressSkip(q, dest, sid, n, queue[..len], sends, cross);
      sends', cross', newLen := sends, cross, len;
    } else {
      PassOver(dest, sid, i, n, q);
      var txSend;
      txSend, cross', newLen := TakeOut(queue, len, Going(dest, i), cross);
      sends' := sends + [Batch(i, txSend)];
    }
  }

  /** The loop over destination shards of `sendAccounts_and_Txs`. */
  method SplitQueue(queue: array<BrokerTx>, len: nat, dest: map<Address, nat>, sid: nat, n: nat)
      returns (sends: seq<Batch>, txsBeCross: seq<BrokerTx>, newLen: nat)
    requires len <= queue.Length
    modifies queue
    ensures newLen <= len
    ensures Progress(old(queue[..len]), Tags(dest, sid, n, old(queue[..len])), sid, n, queue[..newLen], sends, txsBeCross)
    ensures multiset(old(queue[..len])) == multiset(queue[..newLen] + InBatches(sends) + txsBeCross)
  {
    sends, txsBeCross, newLen := [], [], len;
    ghost var q := queue[..len];
    ProgressStart(q, Tags(dest, sid, n, q), sid);
    for i := 0 to n
      invariant newLen <= len && Progress(q, Tags(dest, sid, n, q), sid, i, queue[..newLen], sends, txsBeCross)
    {
      sends, txsBeCross, newLen := Pass(queue, newLen, dest, sid, i, n, sends, txsBeCross, q);
    }
    SplitLosesNothing(dest, sid, n, q, queue[..newLen], sends, txsBeCross);
  }

  // ----- what the split does to a queue

  /** Everything sent to other shards. */
  function InBatches(sends: seq<Batch>): seq<BrokerTx> {
    if sends == [] then [] else InBatches(sends[..|sends| - 1]) + sends[|sends| - 1].txs
  }

  lemma {:induction false} BatchesAreTaken(dest: map<Address, nat>, sid: nat, n: nat, q: seq<BrokerTx>, hi: nat)
    requires hi <= n
    ensures InBatches(Batches(q, Tags(dest, sid, n, q), sid, hi)) == TakenBelow(q, Tags(dest, sid, n, q), Send, hi)
  {
    if hi > 0 {
      var tags := Tags(dest, sid, n, q);
      BatchesAreTaken(dest, sid, n, q, hi - 1);
      if hi - 1 == sid {
        PassSkipped(dest, sid, n, q);
      } else {
        var before, b := Batches(q, tags, sid, hi - 1), Batch(hi - 1, Chosen(q, tags, At(hi - 1, Send)));
        assert (before + [b])[..|before|] == before;
      }
    }
  }

  lemma {:induction false} BatchesOrdered(q: seq<BrokerTx>, tags: seq<Exit>, sid: nat, n: nat)
    requires |tags| == |q|
    ensures forall b :: b in Batches(q, tags, sid, n) ==> OrderedPart(b.txs, q)
  {
    if n > 0 {
      BatchesOrdered(q, tags, sid, n - 1);
      ChosenOrdered(q, tags, At(n - 1, Send));
    }
  }

  /**
   Nothing is lost or duplicated: the queue left, the batches sent and the list for the supervisor are together
   a permutation of the queue, and the queue left, each batch and each pass's hand-back keep its order.
   */
  lemma SplitLosesNothing(dest: map<Address, nat>, sid: nat, n: nat, q: seq<BrokerTx>, left: seq<BrokerTx>, sends: seq<Batch>, cross: seq<BrokerTx>)
    requires Progress(q, Tags(dest, sid, n, q), sid, n, left, sends, cross)
    ensures multiset(q) == multiset(left + InBatches(sends) + cross)
    ensures OrderedPart(left, q) && forall b :: b in sends ==> OrderedPart(b.txs, q)
    ensures forall t: nat :: OrderedPart(Chosen(q, Tags(dest, sid, n, q), At(t, HandBack)), q)
  {
    var tags := Tags(dest, sid, n, q);
    SplitIsPermutation(q, tags, n);
    LeftOrdered(q, tags, n);
    BatchesAreTaken(dest, sid, n, q, n);
    forall t: nat
      ensures OrderedPart(Chosen(q, tags, At(t, HandBack)), q)
    {
      ChosenOrdered(q, tags, At(t, HandBack));
    }
    BatchesOrdered(q, tags, sid, n);
  }

  // ----- where everything is afterwards

  /**
   The accounts that decide where a transaction is queued: both ends of an ordinary one; of a broker's the end that is
   no broker; of half a broker transaction the end it shares with the whole.
   */
  function Anchors(tx: BrokerTx): set<Address> {
    if tx.hasRaw then
      (if tx.recipient == tx.finalRecipient then {tx.recipient} else if tx.sender == tx.originalSender then {tx.sender} else {})
    else if tx.hasBroker then {if tx.senderIsBroker then tx.recipient else tx.sender}
    else {tx.sender, tx.recipient}
  }

  predicate Ordinary(tx: BrokerTx) { !tx.hasRaw && !tx.hasBroker }

  lemma FateIs(addrSet: set<Address>, tx: BrokerTx)
    ensures FateOf(addrSet, tx) == if Anchors(tx) !! addrSet then Stay else if Ordinary(tx) then HandBack else Send
  {
  }

  /** Accounts leave for other shards, which exist. */
  predicate Leaving(dest: map<Address, nat>, sid: nat, n: nat) {
    forall a :: a in dest ==> dest[a] < n && dest[a] != sid
  }

  lemma {:induction false} NeverStays(dest: map<Address, nat>, sid: nat, s: nat, n: nat, tx: BrokerTx, t: nat)
    requires ExitFrom(dest, sid, s, n, tx) == Never && s <= t < n && t != sid
    ensures FateOf(Going(dest, t), tx) == Stay
    decreases n - s
  {
    if s < t {
      NeverStays(dest, sid, s + 1, n, tx, t);
    }
  }

  lemma {:induction false} LeftIsFrom(q: seq<BrokerTx>, tags: seq<Exit>, t: nat, tx: BrokerTx)
    requires |tags| == |q| && tx in LeftBefore(q, tags, t)
    ensures exists i :: 0 <= i < |q| && q[i] == tx && !ExitsBelow(tags[i], t)
  {
    var k := |q| - 1;
    if !(q[k] == tx && !ExitsBelow(tags[k], t)) {
      LeftIsFrom(q[..k], tags[..k], t, tx);
      var i :| 0 <= i < k && q[..k][i] == tx && !ExitsBelow(tags[..k][i], t);
      assert q[i] == tx && !ExitsBelow(tags[i], t);
    }
  }

  lemma {:induction false} ChosenIsFrom(q: seq<BrokerTx>, tags: seq<Exit>, e: Exit, tx: BrokerTx)
    requires |tags| == |q| && tx in Chosen(q, tags, e)
    ensures exists i :: 0 <= i < |q| && q[i] == tx && tags[i] == e
  {
    var k := |q| - 1;
    if !(q[k] == tx && tags[k] == e) {
      ChosenIsFrom(q[..k], tags[..k], e, tx);
      var i :| 0 <= i < k && q[..k][i] == tx && tags[..k][i] == e;
      assert q[i] == tx && tags[i] == e;
    }
  }

  /** What stays is anchored at accounts that stay. */
  lemma LeftIsAnchored(dest: map<Address, nat>, sid: nat, n: nat, q: seq<BrokerTx>, tx: BrokerTx)
    requires Leaving(dest, sid, n) && tx in LeftBefore(q, Tags(dest, sid, n, q), n)
    ensures Anchors(tx) !! dest.Keys
  {
    LeftIsFrom(q, Tags(dest, sid, n, q), n, tx);
    forall a | a in Anchors(tx)
      ensures a !in dest
    {
      if a in dest {
        NeverStays(dest, sid, 0, n, tx, dest[a]);
        FateIs(Going(dest, dest[a]), tx);
      }
    }
  }

  /** What pass `t` takes is anchored at an account that goes to shard `t`. */
  lemma TakenIsAnchored(dest: map<Address, nat>, sid: nat, n: nat, q: seq<BrokerTx>, t: nat, f: Fate, tx: BrokerTx)
    requires tx in Chosen(q, Tags(dest, sid, n, q), At(t, f)) && !f.Stay?
    ensures (f.HandBack? <==> Ordinary(tx)) && t != sid && exists a :: a in Anchors(tx) && a in dest && dest[a] == t
  {
    ChosenIsFrom(q, Tags(dest, sid, n, q), At(t, f), tx);
    FateIs(Going(dest, t), tx);
  }

  lemma {:induction false} BackIsFrom(q: seq<BrokerTx>, tags: seq<Exit>, n: nat, tx: BrokerTx)
    requires |tags| == |q| && tx in TakenBelow(q, tags, HandBack, n)
    ensures exists t: nat :: t < n && tx in Chosen(q, tags, At(t, HandBack))
  {
    if tx !in Chosen(q, tags, At(n - 1, HandBack)) {
      BackIsFrom(q, tags, n - 1, tx);
    }
  }

  lemma {:induction false} BatchIsChosen(q: seq<BrokerTx>, tags: seq<Exit>, sid: nat, n: nat, b: Batch)
    requires |tags| == |q| && b in Batches(q, tags, sid, n)
    ensures b.to < n && b.to != sid && b.txs == Chosen(q, tags, At(b.to, Send))
  {
    if n > 0 && b in Batches(q, tags, sid, n - 1) {
      BatchIsChosen(q, tags, sid, n - 1, b);
    }
  }

  /**
   After the split nothing in the queue is anchored at an account that leaves, each batch holds only transactions
   anchored at an account that goes to its shard, and only ordinary transactions go back to the supervisor.
   */
  lemma SplitPlaces(dest: map<Address, nat>, sid: nat, n: nat, q: seq<BrokerTx>, left: seq<BrokerTx>, sends: seq<Batch>, cross: seq<BrokerTx>)
    requires Leaving(dest, sid, n) && Progress(q, Tags(dest, sid, n, q), sid, n, left, sends, cross)
    ensures forall tx :: tx in left ==> Anchors(tx) !! dest.Keys
    ensures forall b, tx :: b in sends && tx in b.txs ==> !Ordinary(tx) && exists a :: a in Anchors(tx) && a in dest && dest[a] == b.to
    ensures forall tx :: tx in cross ==> Ordinary(tx) && exists a :: a in Anchors(tx) && a in dest
  {
    var tags := Tags(dest, sid, n, q);
    forall tx | tx in left
      ensures Anchors(tx) !! dest.Keys
    {
      LeftIsAnchored(dest, sid, n, q, tx);
    }
    forall b, tx | b in sends && tx in b.txs
      ensures !Ordinary(tx) && exists a :: a in Anchors(tx) && a in dest && dest[a] == b.to
    {
      BatchIsChosen(q, tags, sid, n, b);
      TakenIsAnchored(dest, sid, n, q, b.to, Send, tx);
    }
    forall tx | tx in cross
      ensures Ordinary(tx) && exists a :: a in Anchors(tx) && a in dest
    {
      BackIsFrom(q, tags, n, tx);
      var t: nat :| t < n && tx in Chosen(q, tags, At(t, HandBack));
      TakenIsAnchored(dest, sid, n, q, t, HandBack, tx);
    }
  }

  /** The whole list for the supervisor keeps the order exactly if hand-backs are queued in the order of the passes. */
  lemma CrossOrderedIff(dest: map<Address, nat>, sid: nat, n: nat, q: seq<BrokerTx>)
    requires Distinct(q)
    ensures var tags := Tags(dest, sid, n, q);
      OrderedPart(TakenBelow(q, tags, HandBack, n), q) <==> InPassOrder(tags, HandBack, n)
  {
    TakenOrderedIff(q, Tags(dest, sid, n, q), HandBack, n);
  }

  /** Two inner transactions whose senders go to shards 2 and 1 reach the supervisor in reverse order. */
  lemma CrossCanReorder()
    ensures var a, b, c := Address("a"), Address("b"), Address("c");
      var x := BrokerTx(0, a, c, false, false, false, c, a);
      var y := BrokerTx(1, b, c, false, false, false, c, b);
      var q := [x, y];
      Distinct(q) && !OrderedPart(TakenBelow(q, Tags(map[a := 2, b := 1], 0, 3, q), HandBack, 3), q)
  {
    var a, b, c := Address("a"), Address("b"), Address("c");
    var dest := map[a := 2, b := 1];
    var x := BrokerTx(0, a, c, false, false, false, c, a);
    var y := BrokerTx(1, b, c, false, false, false, c, b);
    var q := [x, y];
    assert a.hex[0] == 'a' && b.hex[0] == 'b' && c.hex[0] == 'c';
    assert a !in Going(dest, 1) && c !in Going(dest, 1) && a in Going(dest, 2) && b in Going(dest, 1);
    assert ExitFrom(dest, 0, 2, 3, x) == At(2, HandBack);
    assert ExitFrom(dest, 0, 1, 3, x) == At(2, HandBack);
    assert ExitFrom(dest, 0, 0, 3, x) == At(2, HandBack);
    assert ExitFrom(dest, 0, 1, 3, y) == At(1, HandBack);
    assert ExitFrom(dest, 0, 0, 3, y) == At(1, HandBack);
    var tags := Tags(dest, 0, 3, q);
    assert tags[0] == At(2, HandBack) && tags[1] == At(1, HandBack);
    CrossOrderedIff(dest, 0, 3, q);
  }
}
