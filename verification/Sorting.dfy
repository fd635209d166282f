/** Stable sorting by a total preorder, standing for the library sorts the code calls. */
module Sorting {

  ghost predicate TotalPreorder<T(!new)>(leq: (T, T) -> bool) {
    && (forall x, y :: leq(x, y) || leq(y, x))
    && (forall x, y, z :: leq(x, y) && leq(y, z) ==> leq(x, z))
  }

  ghost predicate Sorted<T>(s: seq<T>, leq: (T, T) -> bool) {
    forall i, j | 0 <= i < j < |s| :: leq(s[i], s[j])
  }

  /** Every two positions of s are related. */
  ghost predicate Pairwise<T>(s: seq<T>, rel: (T, T) -> bool) {
    forall i, j | 0 <= i < j < |s| :: rel(s[i], s[j])
  }

  ghost predicate Symmetric<T(!new)>(rel: (T, T) -> bool) {
    forall x, y :: rel(x, y) ==> rel(y, x)
  }

  /** Puts x behind the elements that are not greater than it. */
  function Insert<T>(x: T, s: seq<T>, leq: (T, T) -> bool): (r: seq<T>)
    ensures multiset(r) == multiset(s) + multiset{x}
    ensures |r| == |s| + 1
  {
    if s == [] || !leq(s[0], x) then [x] + s
    else
      assert s == [s[0]] + s[1..];
      [s[0]] + Insert(x, s[1..], leq)
  }

  function Sort<T>(s: seq<T>, leq: (T, T) -> bool): (r: seq<T>)
    ensures multiset(r) == multiset(s) && |r| == |s|
  {
    if s == [] then []
    else
      assert s == s[..|s| - 1] + [s[|s| - 1]];
      Insert(s[|s| - 1], Sort(s[..|s| - 1], leq), leq)
  }

  lemma SameElements<T>(a: seq<T>, b: seq<T>)
    requires multiset(a) == multiset(b)
    ensures forall x :: x in a <==> x in b
  {
    forall x
      ensures x in a <==> x in b
    {
      assert x in a <==> x in multiset(a);
    }
  }

  /** A relation between the head and the rest extends pairwise to the whole. */
  lemma PairwiseCons<T>(x: T, s: seq<T>, rel: (T, T) -> bool)
    requires Pairwise(s, rel) && forall y | y in s :: rel(x, y)
    ensures Pairwise([x] + s, rel)
  {
  }

  lemma {:induction false} InsertPairwise<T(!new)>(x: T, s: seq<T>, leq: (T, T) -> bool, rel: (T, T) -> bool)
    requires Pairwise(s, rel)
    requires forall y | y in s && leq(y, x) :: rel(y, x)
    requires forall i, j | 0 <= i <= j < |s| && !leq(s[i], x) :: rel(x, s[j])
    ensures Pairwise(Insert(x, s, leq), rel)
  {
    if s == [] || !leq(s[0], x) {
      PairwiseCons(x, s, rel);
    } else {
      var t := s[1..];
      InsertPairwise(x, t, leq, rel);
      SameElements(Insert(x, t, leq), t + [x]);
      PairwiseCons(s[0], Insert(x, t, leq), rel);
    }
  }

  lemma {:induction false} SortSorted<T(!new)>(s: seq<T>, leq: (T, T) -> bool)
    requires TotalPreorder(leq)
    ensures Sorted(Sort(s, leq), leq)
  {
    if s != [] {
      var t, x := Sort(s[..|s| - 1], leq), s[|s| - 1];
      SortSorted(s[..|s| - 1], leq);
      InsertPairwise(x, t, leq, leq);
    }
  }

  lemma {:induction false} SortPairwise<T(!new)>(s: seq<T>, leq: (T, T) -> bool, rel: (T, T) -> bool)
    requires Symmetric(rel) && Pairwise(s, rel)
    ensures Pairwise(Sort(s, leq), rel)
  {
    if s != [] {
      var init, x := s[..|s| - 1], s[|s| - 1];
      SortPairwise(init, leq, rel);
      var t := Sort(init, leq);
      SameElements(t, init);
      assert forall y | y in t :: y in init && rel(y, x) && rel(x, y);
      InsertPairwise(x, t, leq, rel);
    }
  }
}
