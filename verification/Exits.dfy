/**
 Several passes over one queue, each taking some elements out. Each element is tagged with the pass that
 takes it out, if any, and with what becomes of it then.
 */
module Exits {
  import opened Sums
  import opened Sublists

  datatype Fate = Stay | Send | HandBack

  /** `At(t, f)`: pass `t` takes the element out, for the purpose `f`. */
  datatype Exit = Never | At(pass: nat, fate: Fate)

  /** The elements with a given tag, in order. */
  function Chosen<T>(q: seq<T>, tags: seq<Exit>, e: Exit): seq<T>
    requires |tags| == |q|
  {
    if q == [] then []
    else
      var before := Chosen(q[..|q| - 1], tags[..|q| - 1], e);
      if tags[|q| - 1] == e then before + [q[|q| - 1]] else before
  }

  predicate ExitsBelow(e: Exit, n: nat) { e.At? && e.pass < n }
  predicate ExitsFor(e: Exit, f: Fate, n: nat) { e.At? && e.pass < n && e.fate == f }

  /** What is left before pass `n`. */
  function LeftBefore<T>(q: seq<T>, tags: seq<Exit>, n: nat): seq<T>
    requires |tags| == |q|
  {
    if q == [] then []
    else
      var before := LeftBefore(q[..|q| - 1], tags[..|q| - 1], n);
      if ExitsBelow(tags[|q| - 1], n) then before else before + [q[|q| - 1]]
  }

  /** What the passes below `n` take out for one purpose, pass by pass. */
  function TakenBelow<T>(q: seq<T>, tags: seq<Exit>, f: Fate, n: nat): seq<T>
    requires |tags| == |q|
  {
    if n == 0 then [] else TakenBelow(q, tags, f, n - 1) + Chosen(q, tags, At(n - 1, f))
  }

  // ----- nothing is lost or duplicated

  lemma TakenSum<T>(w: T -> int, q: seq<T>, tags: seq<Exit>, f: Fate, t: nat)
    requires |tags| == |q|
    ensures Sum(w, TakenBelow(q, tags, f, t + 1)) == Sum(w, TakenBelow(q, tags, f, t)) + Sum(w, Chosen(q, tags, At(t, f)))
  {
    SumConcat(w, TakenBelow(q, tags, f, t), Chosen(q, tags, At(t, f)));
  }

  lemma {:induction false} OneMoreTaken<T>(w: T -> int, q: seq<T>, tags: seq<Exit>, f: Fate, n: nat)
    requires |tags| == |q| > 0
    ensures Sum(w, TakenBelow(q, tags, f, n))
      == Sum(w, TakenBelow(q[..|q| - 1], tags[..|q| - 1], f, n)) + (if ExitsFor(tags[|q| - 1], f, n) then w(q[|q| - 1]) else 0)
  {
    if n > 0 {
      var t: nat := n - 1;
      OneMoreTaken(w, q, tags, f, t);
      TakenSum(w, q, tags, f, t);
      TakenSum(w, q[..|q| - 1], tags[..|q| - 1], f, t);
    }
  }

  ghost predicate Takes(tags: seq<Exit>) {
    forall i :: 0 <= i < |tags| && tags[i].At? ==> !tags[i].fate.Stay?
  }

  lemma {:induction false} SplitSums<T>(w: T -> int, q: seq<T>, tags: seq<Exit>, n: nat)
    requires |tags| == |q| && Takes(tags)
    ensures Sum(w, q)
      == Sum(w, LeftBefore(q, tags, n)) + Sum(w, TakenBelow(q, tags, Send, n)) + Sum(w, TakenBelow(q, tags, HandBack, n))
  {
    if q == [] {
      NothingTaken(q, tags, Send, n);
      NothingTaken(q, tags, HandBack, n);
    } else {
      var x, init, tags' := q[|q| - 1], q[..|q| - 1], tags[..|q| - 1];
      SplitSums(w, init, tags', n);
      OneMoreTaken(w, q, tags, Send, n);
      OneMoreTaken(w, q, tags, HandBack, n);
      SumConcat(w, LeftBefore(init, tags', n), [x]);
    }
  }

  lemma {:induction false} NothingTaken<T>(q: seq<T>, tags: seq<Exit>, f: Fate, n: nat)
    requires |tags| == |q| == 0
    ensures TakenBelow(q, tags, f, n) == []
  {
    if n > 0 {
      NothingTaken(q, tags, f, n - 1);
    }
  }

  /** What is left and all that was taken out are together a permutation of the queue. */
  lemma SplitIsPermutation<T>(q: seq<T>, tags: seq<Exit>, n: nat)
    requires |tags| == |q| && Takes(tags)
    ensures multiset(q) == multiset(LeftBefore(q, tags, n) + TakenBelow(q, tags, Send, n) + TakenBelow(q, tags, HandBack, n))
  {
    forall w: T -> int
      ensures Sum(w, q)
        == Sum(w, LeftBefore(q, tags, n)) + Sum(w, TakenBelow(q, tags, Send, n)) + Sum(w, TakenBelow(q, tags, HandBack, n))
    {
      SplitSums(w, q, tags, n);
    }
    PartsByWeight(q, LeftBefore(q, tags, n), TakenBelow(q, tags, Send, n), TakenBelow(q, tags, HandBack, n));
  }

  // ----- order

  lemma {:induction false} ChosenOrdered<T>(q: seq<T>, tags: seq<Exit>, e: Exit)
    requires |tags| == |q|
    ensures OrderedPart(Chosen(q, tags, e), q)
  {
    if q == [] {
      NothingOrdered(q);
    } else {
      ChosenOrdered(q[..|q| - 1], tags[..|q| - 1], e);
      OrderedNext(Chosen(q[..|q| - 1], tags[..|q| - 1], e), q);
    }
  }

  lemma {:induction false} LeftOrdered<T>(q: seq<T>, tags: seq<Exit>, n: nat)
    requires |tags| == |q|
    ensures OrderedPart(LeftBefore(q, tags, n), q)
  {
    if q == [] {
      NothingOrdered(q);
    } else {
      LeftOrdered(q[..|q| - 1], tags[..|q| - 1], n);
      OrderedNext(LeftBefore(q[..|q| - 1], tags[..|q| - 1], n), q);
    }
  }

  // ----- the order of what is taken out pass by pass

  /** Elements taken out for the purpose `f` stand in the queue in the order of their passes. */
  ghost predicate InPassOrder(tags: seq<Exit>, f: Fate, n: nat) {
    forall i, j {:trigger tags[i], tags[j]} ::
      0 <= i < j < |tags| && ExitsFor(tags[i], f, n) && ExitsFor(tags[j], f, n) ==> tags[i].pass <= tags[j].pass
  }

  /** The elements that passes below `n` take out for one purpose, in the order of the queue. */
  function Together<T>(q: seq<T>, tags: seq<Exit>, f: Fate, n: nat): seq<T>
    requires |tags| == |q|
  {
    if q == [] then []
    else
      var e, before := tags[|q| - 1], Together(q[..|q| - 1], tags[..|q| - 1], f, n);
      if ExitsFor(e, f, n) then before + [q[|q| - 1]] else before
  }

  lemma {:induction false} TogetherOrdered<T>(q: seq<T>, tags: seq<Exit>, f: Fate, n: nat)
    requires |tags| == |q|
    ensures OrderedPart(Together(q, tags, f, n), q)
  {
    if q == [] {
      NothingOrdered(q);
    } else {
      TogetherOrdered(q[..|q| - 1], tags[..|q| - 1], f, n);
      OrderedNext(Together(q[..|q| - 1], tags[..|q| - 1], f, n), q);
    }
  }

  lemma {:induction false} ChosenNothing<T>(q: seq<T>, tags: seq<Exit>, e: Exit)
    requires |tags| == |q| && forall i :: 0 <= i < |tags| ==> tags[i] != e
    ensures Chosen(q, tags, e) == []
  {
    if q != [] {
      ChosenNothing(q[..|q| - 1], tags[..|q| - 1], e);
    }
  }

  lemma {:induction false} OnePassMore<T>(q: seq<T>, tags: seq<Exit>, f: Fate, t: nat)
    requires |tags| == |q| && InPassOrder(tags, f, t + 1)
    ensures Together(q, tags, f, t) + Chosen(q, tags, At(t, f)) == Together(q, tags, f, t + 1)
  {
    if q != [] {
      var init, tags', e := q[..|q| - 1], tags[..|q| - 1], tags[|q| - 1];
      OnePassMore(init, tags', f, t);
      if ExitsFor(e, f, t) {
        forall i | 0 <= i < |tags'|
          ensures tags'[i] != At(t, f)
        {
          assert tags[i] == tags'[i];
        }
        ChosenNothing(init, tags', At(t, f));
      }
    }
  }

  lemma {:induction false} TogetherNothing<T>(q: seq<T>, tags: seq<Exit>, f: Fate)
    requires |tags| == |q|
    ensures Together(q, tags, f, 0) == []
  {
    if q != [] {
      TogetherNothing(q[..|q| - 1], tags[..|q| - 1], f);
    }
  }

  lemma {:induction false} TakenInOrder<T>(q: seq<T>, tags: seq<Exit>, f: Fate, n: nat)
    requires |tags| == |q| && InPassOrder(tags, f, n)
    ensures TakenBelow(q, tags, f, n) == Together(q, tags, f, n)
  {
    if n == 0 {
      TogetherNothing(q, tags, f);
    } else {
      TakenInOrder(q, tags, f, n - 1);
      OnePassMore(q, tags, f, n - 1);
    }
  }

  lemma {:induction false} TakenPrefix<T>(q: seq<T>, tags: seq<Exit>, f: Fate, lo: nat, n: nat)
    requires |tags| == |q| && lo <= n
    ensures |TakenBelow(q, tags, f, lo)| <= |TakenBelow(q, tags, f, n)|
    ensures TakenBelow(q, tags, f, n)[..|TakenBelow(q, tags, f, lo)|] == TakenBelow(q, tags, f, lo)
  {
    if lo < n {
      TakenPrefix(q, tags, f, lo, n - 1);
    }
  }

  lemma {:induction false} ChosenHas<T>(q: seq<T>, tags: seq<Exit>, i: nat) returns (c: nat)
    requires |tags| == |q| && i < |q|
    ensures c < |Chosen(q, tags, tags[i])| && Chosen(q, tags, tags[i])[c] == q[i]
  {
    var init, tags' := q[..|q| - 1], tags[..|q| - 1];
    if i < |init| {
      c := ChosenHas(init, tags', i);
    } else {
      c := |Chosen(init, tags', tags[i])|;
    }
  }

  /** Where an element stands among the taken: in the stretch of its pass. */
  lemma TakenPosition<T>(q: seq<T>, tags: seq<Exit>, f: Fate, n: nat, i: nat) returns (k: nat)
    requires |tags| == |q| && i < |q| && ExitsFor(tags[i], f, n)
    ensures var t := tags[i].pass;
      && |TakenBelow(q, tags, f, t)| <= k < |TakenBelow(q, tags, f, t + 1)| <= |TakenBelow(q, tags, f, n)|
      && TakenBelow(q, tags, f, n)[k] == q[i]
  {
    var t := tags[i].pass;
    var c := ChosenHas(q, tags, i);
    k := |TakenBelow(q, tags, f, t)| + c;
    assert TakenBelow(q, tags, f, t + 1)[k] == q[i];
    TakenPrefix(q, tags, f, t + 1, n);
  }

  lemma OrderedMeansInPassOrder<T>(q: seq<T>, tags: seq<Exit>, f: Fate, n: nat, i: nat, j: nat)
    requires |tags| == |q| && Distinct(q) && OrderedPart(TakenBelow(q, tags, f, n), q) && i < j < |q|
    requires ExitsFor(tags[i], f, n) && ExitsFor(tags[j], f, n)
    ensures tags[i].pass <= tags[j].pass
  {
    if tags[j].pass < tags[i].pass {
      var k := TakenPosition(q, tags, f, n, i);
      var l := TakenPosition(q, tags, f, n, j);
      TakenPrefix(q, tags, f, tags[j].pass + 1, tags[i].pass);
      OrderedPositions(TakenBelow(q, tags, f, n), q, l, k, j, i);
    }
  }

  /**
   A list collected pass by pass keeps the order of the queue exactly when the queue already holds its
   elements in the order of the passes.
   */
  lemma TakenOrderedIff<T>(q: seq<T>, tags: seq<Exit>, f: Fate, n: nat)
    requires |tags| == |q| && Distinct(q)
    ensures OrderedPart(TakenBelow(q, tags, f, n), q) <==> InPassOrder(tags, f, n)
  {
    if InPassOrder(tags, f, n) {
      TakenInOrder(q, tags, f, n);
      TogetherOrdered(q, tags, f, n);
    }
    if OrderedPart(TakenBelow(q, tags, f, n), q) {
      forall i, j | 0 <= i < j < |tags| && ExitsFor(tags[i], f, n) && ExitsFor(tags[j], f, n)
        ensures tags[i].pass <= tags[j].pass
      {
        OrderedMeansInPassOrder(q, tags, f, n, i, j);
      }
    }
  }
}
