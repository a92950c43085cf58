/** Parts of a list that keep its order. */
module Sublists {
  import opened Sums

  /** `a` falls apart into `b` and `c`, in some order. */
  ghost predicate Parts<T>(a: seq<T>, b: seq<T>, c: seq<T>) {
    multiset(a) == multiset(b) + multiset(c)
  }

  /** `a` lists, in order, the elements of `b` at the positions `ix`. */
  ghost predicate PickedBy<T>(a: seq<T>, b: seq<T>, ix: seq<nat>) {
    && |ix| == |a|
    && (forall k {:trigger ix[k]} :: 0 <= k < |ix| ==> ix[k] < |b| && b[ix[k]] == a[k])
    && (forall j, k :: 0 <= j < k < |ix| ==> ix[j] < ix[k])
  }

  /** `a` is an order-preserving sublist of `b`. */
  ghost predicate OrderedPart<T>(a: seq<T>, b: seq<T>) {
    exists ix :: PickedBy(a, b, ix)
  }

  lemma NothingOrdered<T>(b: seq<T>)
    ensures OrderedPart([], b)
  {
    assert PickedBy([], b, []);
  }

  lemma OrderedNext<T>(a: seq<T>, b: seq<T>)
    requires b != [] && OrderedPart(a, b[..|b| - 1])
    ensures OrderedPart(a, b) && OrderedPart(a + [b[|b| - 1]], b)
  {
    var ix: seq<nat> :| PickedBy(a, b[..|b| - 1], ix);
    assert PickedBy(a, b, ix);
    assert PickedBy(a + [b[|b| - 1]], b, ix + [|b| - 1]);
  }

  /** In a list without repetition a sublist in order fixes the order of its elements' positions. */
  lemma OrderedPositions<T>(a: seq<T>, b: seq<T>, i: nat, j: nat, k: nat, l: nat)
    requires OrderedPart(a, b) && Distinct(b) && i < j < |a| && k < |b| && l < |b|
    requires a[i] == b[k] && a[j] == b[l]
    ensures k < l
  {
    var ix :| PickedBy(a, b, ix);
    assert ix[i] < ix[j];
    assert b[ix[i]] == b[k] && b[ix[j]] == b[l];
  }
}
