/** Passes over a store: what an iteration collects, and what a series of moves leaves behind. */
module Scans {
  import opened Binary

  /** `order` visits every key of the store once, as the store's iterator does. */
  ghost predicate Enumerates<K, V>(order: seq<K>, store: map<K, V>) {
    && (forall k | k in order :: k in store)
    && (forall k | k in store :: k in order)
    && NoDuplicates(order)
  }

  /** What pick makes of the keys it accepts, in order. */
  function FilterMap<K, V>(order: seq<K>, pick: K -> Option<V>): (r: seq<V>)
    ensures |r| <= |order|
  {
    if order == [] then [] else
    var n := |order| - 1;
    FilterMap(order[..n], pick) + if pick(order[n]).Some? then [pick(order[n]).value] else []
  }

  lemma FilterMapStep<K, V>(order: seq<K>, pick: K -> Option<V>, i: nat)
    requires i < |order|
    ensures FilterMap(order[..i + 1], pick) ==
      FilterMap(order[..i], pick) + if pick(order[i]).Some? then [pick(order[i]).value] else []
  {
    assert order[..i + 1][..i] == order[..i];
  }

  lemma {:induction false} Picked<K, V>(order: seq<K>, pick: K -> Option<V>, k: K, v: V)
    requires k in order && pick(k) == Some(v)
    ensures v in FilterMap(order, pick)
  {
    var n := |order| - 1;
    assert order == order[..n] + [order[n]];
    if order[n] != k {
      Picked(order[..n], pick, k, v);
    }
  }

  lemma {:induction false} PickedFrom<K, V>(order: seq<K>, pick: K -> Option<V>, i: nat) returns (a: nat)
    requires i < |FilterMap(order, pick)|
    ensures i <= a < |order| && pick(order[a]) == Some(FilterMap(order, pick)[i])
  {
    var n := |order| - 1;
    if i < |FilterMap(order[..n], pick)| {
      a := PickedFrom(order[..n], pick, i);
    } else {
      a := n;
    }
  }

  /** Different places of the result come from different places of the order. */
  lemma {:induction false} PickedApart<K, V>(order: seq<K>, pick: K -> Option<V>, i: nat, j: nat)
    returns (a: nat, b: nat)
    requires i < j < |FilterMap(order, pick)|
    ensures a < b < |order| && pick(order[a]) == Some(FilterMap(order, pick)[i])
      && pick(order[b]) == Some(FilterMap(order, pick)[j])
  {
    var n := |order| - 1;
    var front := FilterMap(order[..n], pick);
    if j < |front| {
      a, b := PickedApart(order[..n], pick, i, j);
    } else {
      a := PickedFrom(order[..n], pick, i);
      b := n;
    }
  }

  lemma {:induction false} NothingPicked<K, V>(order: seq<K>, pick: K -> Option<V>)
    requires forall k | k in order :: pick(k).None?
    ensures FilterMap(order, pick) == []
  {
    if order != [] {
      NothingPicked(order[..|order| - 1], pick);
    }
  }

  ghost predicate NoDuplicates<K>(s: seq<K>) { forall i, j | 0 <= i < j < |s| :: s[i] != s[j] }

  ghost function PickedKeys<K, V>(order: seq<K>, pick: K -> Option<V>): set<K> { set k | k in order && pick(k).Some? }

  lemma PickedKeysStep<K, V>(order: seq<K>, pick: K -> Option<V>)
    requires order != []
    ensures var n := |order| - 1;
      PickedKeys(order, pick) == PickedKeys(order[..n], pick) + if pick(order[n]).Some? then {order[n]} else {}
  {
    var n := |order| - 1;
    assert order == order[..n] + [order[n]];
  }

  /** An order without repetitions yields one value for each key that is accepted. */
  lemma {:induction false} OnePerKey<K, V>(order: seq<K>, pick: K -> Option<V>)
    requires NoDuplicates(order)
    ensures |FilterMap(order, pick)| == |PickedKeys(order, pick)|
  {
    if order != [] {
      var n := |order| - 1;
      OnePerKey(order[..n], pick);
      PickedKeysStep(order, pick);
      assert order[n] !in PickedKeys(order[..n], pick);
    }
  }

  lemma {:induction false} CountOfNoDuplicates<V>(s: seq<V>, x: V)
    requires NoDuplicates(s)
    ensures multiset(s)[x] == if x in s then 1 else 0
  {
    if s != [] {
      var n := |s| - 1;
      CountOfNoDuplicates(s[..n], x);
      assert s == s[..n] + [s[n]];
    }
  }

  /** A value picked at two keys is in the result twice, and one picked at a single key is not. */
  lemma {:induction false} PickedTwice<K, V>(order: seq<K>, pick: K -> Option<V>, k: K, k': K, v: V)
    requires k in order && k' in order && k != k' && pick(k) == Some(v) && pick(k') == Some(v)
    ensures multiset(FilterMap(order, pick))[v] >= 2
  {
    var n := |order| - 1;
    var front := FilterMap(order[..n], pick);
    assert order == order[..n] + [order[n]];
    if order[n] == k {
      Picked(order[..n], pick, k', v);
      assert multiset(front)[v] >= 1;
    } else if order[n] == k' {
      Picked(order[..n], pick, k, v);
      assert multiset(front)[v] >= 1;
    } else {
      PickedTwice(order[..n], pick, k, k', v);
    }
  }

  lemma {:induction false} PickedOnce<K, V>(order: seq<K>, pick: K -> Option<V>, k: K, v: V)
    requires NoDuplicates(order) && forall x | x in order && pick(x) == Some(v) :: x == k
    ensures multiset(FilterMap(order, pick))[v] <= One(k in order)
  {
    if order != [] {
      var n := |order| - 1;
      PickedOnce(order[..n], pick, k, v);
      assert order == order[..n] + [order[n]];
      assert order[n] !in order[..n];
    }
  }

  function One(b: bool): nat { if b then 1 else 0 }

  lemma SameMultiset<V>(s: seq<V>, t: seq<V>)
    requires NoDuplicates(s) && NoDuplicates(t) && (forall x | x in s :: x in t) && (forall x | x in t :: x in s)
    ensures multiset(s) == multiset(t)
  {
    forall x
      ensures multiset(s)[x] == multiset(t)[x]
    {
      CountOfNoDuplicates(s, x);
      CountOfNoDuplicates(t, x);
    }
  }

  // ---------------------------------------------------------------- moving entries

  datatype Move<K, V> = Move(from: K, to: K, val: V)

  function MoveOne<K, V>(store: map<K, V>, m: Move<K, V>): map<K, V> { store[m.to := m.val] - {m.from} }

  /** Each move writes a value under one key and deletes another. */
  function MoveAll<K, V>(store: map<K, V>, ms: seq<Move<K, V>>): map<K, V> {
    if ms == [] then store else MoveOne(MoveAll(store, ms[..|ms| - 1]), ms[|ms| - 1])
  }

  lemma {:induction false} MoveAppend<K, V>(store: map<K, V>, a: seq<Move<K, V>>, b: seq<Move<K, V>>)
    ensures MoveAll(MoveAll(store, a), b) == MoveAll(store, a + b)
  {
    if b == [] {
      assert a + b == a;
    } else {
      var n := |b| - 1;
      MoveAppend(store, a, b[..n]);
      assert (a + b)[..|a| + n] == a + b[..n];
    }
  }

  /** No two moves go to one place, and none goes where another comes from. */
  ghost predicate Compatible<K, V>(ms: seq<Move<K, V>>) {
    && (forall i, j | 0 <= i < j < |ms| :: ms[i].to != ms[j].to)
    && (forall m, n | m in ms && n in ms :: m.to != n.from)
  }

  lemma {:induction false} Moved<K, V>(store: map<K, V>, ms: seq<Move<K, V>>, i: nat)
    requires Compatible(ms) && i < |ms|
    ensures ms[i].to in MoveAll(store, ms) && MoveAll(store, ms)[ms[i].to] == ms[i].val
  {
    var n := |ms| - 1;
    assert ms[i] in ms && ms[n] in ms;
    if i < n {
      Moved(store, ms[..n], i);
    }
  }

  lemma {:induction false} NotMoved<K, V>(store: map<K, V>, ms: seq<Move<K, V>>, k: K)
    requires forall m | m in ms :: m.to != k
    ensures k in MoveAll(store, ms) <==> k in store && forall m | m in ms :: m.from != k
    ensures k in MoveAll(store, ms) ==> MoveAll(store, ms)[k] == store[k]
  {
    if ms != [] {
      var n := |ms| - 1;
      assert ms == ms[..n] + [ms[n]];
      NotMoved(store, ms[..n], k);
    }
  }
}
