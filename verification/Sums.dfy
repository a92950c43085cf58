/** Sums of a weight over a list, for counting and for value. */
module Sums {

  function Bit(c: bool): nat { if c then 1 else 0 }

  function Sum<T>(f: T -> int, s: seq<T>): int {
    if s == [] then 0 else Sum(f, s[..|s| - 1]) + f(s[|s| - 1])
  }

  lemma {:induction false} SumConcat<T>(f: T -> int, s: seq<T>, t: seq<T>)
    ensures Sum(f, s + t) == Sum(f, s) + Sum(f, t)
  {
    if t == [] {
      assert s + t == s;
    } else {
      assert (s + t)[..|s + t| - 1] == s + t[..|t| - 1];
      SumConcat(f, s, t[..|t| - 1]);
    }
  }

  lemma SumAppend<T>(f: T -> int, s: seq<T>, x: T)
    ensures Sum(f, s + [x]) == Sum(f, s) + f(x)
  {
    assert (s + [x])[..|s|] == s;
  }

  lemma SumSplit<T>(f: T -> int, s: seq<T>, k: nat)
    requires k <= |s|
    ensures Sum(f, s) == Sum(f, s[..k]) + Sum(f, s[k..])
  {
    assert s == s[..k] + s[k..];
    SumConcat(f, s[..k], s[k..]);
  }

  function Without<T>(s: seq<T>, i: nat): seq<T>
    requires i < |s|
  {
    s[..i] + s[i + 1..]
  }

  lemma SumWithout<T>(f: T -> int, s: seq<T>, i: nat)
    requires i < |s|
    ensures Sum(f, Without(s, i)) == Sum(f, s) - f(s[i])
  {
    SumSplit(f, s, i);
    SumSplit(f, s[i..], 1);
    assert s[i..][..1] == [s[i]] && s[i..][1..] == s[i + 1..];
    SumConcat(f, s[..i], s[i + 1..]);
  }

  lemma SumUpdate<T>(f: T -> int, s: seq<T>, i: nat, x: T)
    requires i < |s|
    ensures Sum(f, s[i := x]) == Sum(f, s) - f(s[i]) + f(x)
  {
    var t := s[i := x];
    SumWithout(f, s, i);
    SumWithout(f, t, i);
    assert Without(s, i) == Without(t, i);
  }

  lemma {:induction false} SumNonNegative<T>(f: T -> int, s: seq<T>)
    requires forall i :: 0 <= i < |s| ==> f(s[i]) >= 0
    ensures Sum(f, s) >= 0
  {
    if s != [] {
      SumNonNegative(f, s[..|s| - 1]);
    }
  }

  lemma {:induction false} SumBoundsElement<T>(f: T -> int, s: seq<T>, i: nat)
    requires i < |s| && forall k :: 0 <= k < |s| ==> f(s[k]) >= 0
    ensures Sum(f, s) >= f(s[i])
  {
    SumWithout(f, s, i);
    var r := Without(s, i);
    forall k | 0 <= k < |r|
      ensures f(r[k]) >= 0
    {
    }
    SumNonNegative(f, r);
  }

  lemma SumBoundsTwo<T>(f: T -> int, s: seq<T>, i: nat, j: nat)
    requires i < j < |s| && forall k :: 0 <= k < |s| ==> f(s[k]) >= 0
    ensures Sum(f, s) >= f(s[i]) + f(s[j])
  {
    SumSplit(f, s, j);
    SumBoundsElement(f, s[..j], i);
    SumBoundsElement(f, s[j..], 0);
  }

  lemma {:induction false} SumZero<T>(f: T -> int, s: seq<T>)
    requires forall i :: 0 <= i < |s| ==> f(s[i]) == 0
    ensures Sum(f, s) == 0
  {
    if s != [] {
      SumZero(f, s[..|s| - 1]);
    }
  }

  lemma {:induction false} SumEqual<T>(f: T -> int, g: T -> int, s: seq<T>)
    requires forall i :: 0 <= i < |s| ==> f(s[i]) == g(s[i])
    ensures Sum(f, s) == Sum(g, s)
  {
    if s != [] {
      SumEqual(f, g, s[..|s| - 1]);
    }
  }

  lemma {:induction false} SumAdd<T>(f: T -> int, g: T -> int, h: T -> int, s: seq<T>)
    requires forall i :: 0 <= i < |s| ==> h(s[i]) == f(s[i]) + g(s[i])
    ensures Sum(h, s) == Sum(f, s) + Sum(g, s)
  {
    if s != [] {
      SumAdd(f, g, h, s[..|s| - 1]);
    }
  }

  lemma {:induction false} SumMonotone<T>(f: T -> int, g: T -> int, s: seq<T>)
    requires forall i :: 0 <= i < |s| ==> f(s[i]) <= g(s[i])
    ensures Sum(f, s) <= Sum(g, s)
  {
    if s != [] {
      SumMonotone(f, g, s[..|s| - 1]);
    }
  }

  /** Only the bag of elements matters. */
  lemma {:induction false} SumOfPermutation<T>(f: T -> int, s: seq<T>, t: seq<T>)
    requires multiset(s) == multiset(t)
    ensures Sum(f, s) == Sum(f, t)
    decreases |s|
  {
    assert |multiset(s)| == |multiset(t)|;
    if s != [] {
      var x := s[|s| - 1];
      assert x in multiset(t);
      var i :| 0 <= i < |t| && t[i] == x;
      assert s == s[..|s| - 1] + [x];
      assert t == t[..i] + [x] + t[i + 1..];
      assert multiset(s[..|s| - 1]) == multiset(s) - multiset{x};
      assert multiset(Without(t, i)) == multiset(t) - multiset{x};
      SumOfPermutation(f, s[..|s| - 1], Without(t, i));
      SumWithout(f, t, i);
    }
  }

  /** The weight that counts one element. */
  function Is<T(==)>(x: T): T -> int { (y: T) => if y == x then 1 else 0 }

  lemma {:induction false} CountIsSum<T>(x: T, s: seq<T>)
    ensures multiset(s)[x] == Sum(Is(x), s)
  {
    if s != [] {
      CountIsSum(x, s[..|s| - 1]);
      assert s == s[..|s| - 1] + [s[|s| - 1]];
    }
  }

  /** Lists that weigh the same by every weight hold the same elements. */
  lemma PartsByWeight<T>(s: seq<T>, a: seq<T>, b: seq<T>, c: seq<T>)
    requires forall f: T -> int {:trigger Sum(f, s)} :: Sum(f, s) == Sum(f, a) + Sum(f, b) + Sum(f, c)
    ensures multiset(s) == multiset(a + b + c)
  {
    forall x
      ensures multiset(s)[x] == multiset(a + b + c)[x]
    {
      SumConcat(Is(x), a, b);
      SumConcat(Is(x), a + b, c);
      CountIsSum(x, s);
      CountIsSum(x, a + b + c);
    }
  }

  // ----- lists without repetition

  predicate Distinct<T(==)>(s: seq<T>) {
    forall i, j :: 0 <= i < j < |s| ==> s[i] != s[j]
  }

  /** A list of distinct members of a set is no longer than the set, and exhausts it when equally long. */
  lemma {:induction false} Pigeonhole<T>(s: seq<T>, all: set<T>)
    requires Distinct(s) && forall i :: 0 <= i < |s| ==> s[i] in all
    ensures |s| <= |all|
    ensures |s| == |all| ==> forall x :: x in all ==> x in s
  {
    if s != [] {
      var x, rest := s[|s| - 1], s[..|s| - 1];
      Pigeonhole(rest, all - {x});
      assert s == rest + [x];
    }
  }
}
