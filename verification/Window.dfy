/** The rolling value limit of node/pkg/governor/governor.go: trimming a list of transfers, and
    what admitting one at a time under the limit says about every stretch of a day. */
module Window {
  import opened Binary
  import opened Vaa
  import opened Transfers

  const DAY := 24 * 60 * 60 * NANOS
  const UINT64 := 0x1_0000_0000_0000_0000

  function Sum(ts: seq<Transfer>): nat {
    if ts == [] then 0 else Sum(ts[..|ts| - 1]) + ts[|ts| - 1].value
  }

  /** The value of the transfers that are not before start. */
  function SumSince(ts: seq<Transfer>, start: int): nat {
    if ts == [] then 0
    else SumSince(ts[..|ts| - 1], start) + if ts[|ts| - 1].timestamp >= start then ts[|ts| - 1].value else 0
  }

  /** The value of the transfers between two times, both included. */
  function SumBetween(ts: seq<Transfer>, lo: int, hi: int): nat {
    if ts == [] then 0
    else SumBetween(ts[..|ts| - 1], lo, hi) + if lo <= ts[|ts| - 1].timestamp <= hi then ts[|ts| - 1].value else 0
  }

  ghost predicate Ordered(ts: seq<Transfer>) {
    forall i, j | 0 <= i < j < |ts| :: ts[i].timestamp <= ts[j].timestamp
  }

  // ---------------------------------------------------------------- trimming

  /** How many transfers are cut off: all up to the last one that is before start. */
  function Expired(ts: seq<Transfer>, start: int): (n: nat)
    ensures n <= |ts|
    ensures n > 0 ==> ts[n - 1].timestamp < start
    ensures forall i | n <= i < |ts| :: ts[i].timestamp >= start
  {
    if ts == [] then 0 else if ts[|ts| - 1].timestamp < start then |ts| else Expired(ts[..|ts| - 1], start)
  }

  lemma {:induction false} SumSinceAll(ts: seq<Transfer>, start: int)
    requires forall t | t in ts :: t.timestamp >= start
    ensures SumSince(ts, start) == Sum(ts)
  {
    if ts != [] {
      SumSinceAll(ts[..|ts| - 1], start);
    }
  }

  lemma {:induction false} SumSinceNone(ts: seq<Transfer>, start: int)
    requires forall t | t in ts :: t.timestamp < start
    ensures SumSince(ts, start) == 0
  {
    if ts != [] {
      SumSinceNone(ts[..|ts| - 1], start);
    }
  }

  lemma {:induction false} SumSinceSplit(a: seq<Transfer>, b: seq<Transfer>, start: int)
    ensures SumSince(a + b, start) == SumSince(a, start) + SumSince(b, start)
  {
    if b == [] {
      assert a + b == a;
    } else {
      SumSinceSplit(a, b[..|b| - 1], start);
      assert (a + b)[..|a + b| - 1] == a + b[..|b| - 1];
    }
  }

  lemma SumSinceTail(a: seq<Transfer>, b: seq<Transfer>, start: int)
    requires (forall t | t in a :: t.timestamp < start) && (forall t | t in b :: t.timestamp >= start)
    ensures SumSince(a + b, start) == Sum(b)
  {
    SumSinceNone(a, start);
    SumSinceAll(b, start);
    SumSinceSplit(a, b, start);
  }

  lemma SumSnoc(ts: seq<Transfer>, t: Transfer)
    ensures Sum(ts + [t]) == Sum(ts) + t.value
  {
    assert (ts + [t])[..|ts|] == ts;
  }

  /** In a list in time order exactly the transfers before start are cut off, and the rest adds
      up to the value since start. */
  lemma TrimOrdered(ts: seq<Transfer>, start: int)
    requires Ordered(ts)
    ensures forall i | 0 <= i < Expired(ts, start) :: ts[i].timestamp < start
    ensures SumSince(ts, start) == Sum(ts[Expired(ts, start)..])
    ensures Ordered(ts[Expired(ts, start)..])
  {
    hide Sum, SumSince, Expired;
    var n := Expired(ts, start);
    forall i | 0 <= i < n
      ensures ts[i].timestamp < start
    {
      assert ts[i].timestamp <= ts[n - 1].timestamp;
    }
    assert ts == ts[..n] + ts[n..];
    SumSinceTail(ts[..n], ts[n..], start);
  }

  // ---------------------------------------------------------------- the rolling limit

  /** From number base on, every transfer kept to the limit together with the day before it. */
  ghost predicate Limited(h: seq<Transfer>, base: nat, limit: nat) {
    forall j | base <= j < |h| :: SumSince(h[..j + 1], h[j].timestamp - DAY) <= limit
  }

  /** Admitting one more transfer keeps the history limited if the list it is added to is the
      part of the history since a day ago, and the sum stays under the limit. */
  lemma AdmitLimited(h: seq<Transfer>, base: nat, limit: nat, n: nat, t: Transfer)
    requires Limited(h, base, limit) && n <= |h|
    requires forall i | 0 <= i < n :: h[i].timestamp < t.timestamp - DAY
    requires forall i | n <= i < |h| :: h[i].timestamp >= t.timestamp - DAY
    requires Sum(h[n..]) + t.value <= limit
    ensures Limited(h + [t], base, limit)
  {
    hide Sum, SumSince;
    var g := h + [t];
    forall j | base <= j < |g|
      ensures SumSince(g[..j + 1], g[j].timestamp - DAY) <= limit
    {
      if j < |h| {
        assert g[..j + 1] == h[..j + 1];
      } else {
        assert g[..j + 1] == h[..n] + (h[n..] + [t]);
        SumSnoc(h[n..], t);
        SumSinceTail(h[..n], h[n..] + [t], t.timestamp - DAY);
      }
    }
  }

  lemma {:induction false} EarlierStartCountsMore(ts: seq<Transfer>, a: int, b: int)
    requires a <= b
    ensures SumSince(ts, a) >= SumSince(ts, b)
  {
    if ts != [] {
      EarlierStartCountsMore(ts[..|ts| - 1], a, b);
    }
  }

  lemma {:induction false} BetweenIsSince(ts: seq<Transfer>, lo: int, hi: int)
    requires forall t | t in ts :: t.timestamp <= hi
    ensures SumBetween(ts, lo, hi) == SumSince(ts, lo)
  {
    if ts != [] {
      BetweenIsSince(ts[..|ts| - 1], lo, hi);
    }
  }

  lemma {:induction false} BetweenIgnoresLater(h: seq<Transfer>, j: nat, lo: int, hi: int)
    requires j <= |h| && forall i | j <= i < |h| :: h[i].timestamp > hi
    ensures SumBetween(h, lo, hi) == SumBetween(h[..j], lo, hi)
  {
    if j < |h| {
      BetweenIgnoresLater(h[..|h| - 1], j, lo, hi);
      assert h[..|h| - 1][..j] == h[..j];
    } else {
      assert h[..j] == h;
    }
  }

  /** A day that ends no earlier than transfer j and before the next one. */
  lemma DayEndingAt(h: seq<Transfer>, base: nat, limit: nat, lo: int, j: nat)
    requires Ordered(h) && Limited(h, base, limit) && base <= j < |h|
    requires h[j].timestamp <= lo + DAY && (j + 1 < |h| ==> h[j + 1].timestamp > lo + DAY)
    ensures SumBetween(h, lo, lo + DAY) <= limit
  {
    hide SumBetween, SumSince;
    var front := h[..j + 1];
    BetweenIgnoresLater(h, j + 1, lo, lo + DAY);
    BetweenIsSince(front, lo, lo + DAY);
    EarlierStartCountsMore(front, h[j].timestamp - DAY, lo);
  }

  lemma {:induction false} BetweenAtMost(ts: seq<Transfer>, lo: int, hi: int)
    ensures SumBetween(ts, lo, hi) <= Sum(ts)
  {
    if ts != [] {
      BetweenAtMost(ts[..|ts| - 1], lo, hi);
    }
  }

  lemma {:induction false} SumOfPrefix(ts: seq<Transfer>, n: nat)
    requires n <= |ts|
    ensures Sum(ts[..n]) <= Sum(ts)
  {
    if n < |ts| {
      SumOfPrefix(ts[..|ts| - 1], n);
      assert ts[..|ts| - 1][..n] == ts[..n];
    } else {
      assert ts[..n] == ts;
    }
  }

  /** How many transfers there are up to the last one that is not after hi. */
  lemma {:induction false} LastBy(h: seq<Transfer>, hi: int) returns (n: nat)
    ensures n <= |h| && (forall i | n <= i < |h| :: h[i].timestamp > hi)
    ensures n > 0 ==> h[n - 1].timestamp <= hi
  {
    if h == [] || h[|h| - 1].timestamp <= hi {
      n := |h|;
    } else {
      n := LastBy(h[..|h| - 1], hi);
    }
  }

  /** However a day is placed, the transfers in it add up to no more than the limit, if all but the
      first base of them were admitted under it and those are together within it. */
  lemma EveryDayFrom(h: seq<Transfer>, base: nat, limit: nat, lo: int)
    requires Ordered(h) && Limited(h, base, limit) && base <= |h| && Sum(h[..base]) <= limit
    ensures SumBetween(h, lo, lo + DAY) <= limit
  {
    hide SumBetween, SumSince, Sum, Limited, Ordered;
    var n := LastBy(h, lo + DAY);
    if n > base {
      DayEndingAt(h, base, limit, lo, n - 1);
    } else {
      BetweenIgnoresLater(h, n, lo, lo + DAY);
      BetweenAtMost(h[..n], lo, lo + DAY);
      SumOfPrefix(h[..base], n);
      assert h[..base][..n] == h[..n];
    }
  }

  lemma EveryDayLimited(h: seq<Transfer>, limit: nat, lo: int)
    requires Ordered(h) && Limited(h, 0, limit)
    ensures SumBetween(h, lo, lo + DAY) <= limit
  {
    EveryDayFrom(h, 0, limit, lo);
  }

  /** A day that ends after a transfer that was admitted under the limit is within it; any other day
      is worth what the first base transfers are worth in it. */
  lemma DayWithOrWithout(h: seq<Transfer>, base: nat, limit: nat, lo: int)
    requires Ordered(h) && Limited(h, base, limit) && base <= |h|
    ensures (exists t :: t in h[base..] && t.timestamp <= lo + DAY) ==> SumBetween(h, lo, lo + DAY) <= limit
    ensures !(exists t :: t in h[base..] && t.timestamp <= lo + DAY) ==>
      SumBetween(h, lo, lo + DAY) == SumBetween(h[..base], lo, lo + DAY)
  {
    hide SumBetween, SumSince, Sum, Limited, Ordered;
    var n := LastBy(h, lo + DAY);
    if n > base {
      DayEndingAt(h, base, limit, lo, n - 1);
      assert h[n - 1] in h[base..];
    } else {
      forall t | t in h[base..]
        ensures t.timestamp > lo + DAY
      {
        var i :| 0 <= i < |h| - base && h[base..][i] == t;
        assert t == h[base + i];
      }
      BetweenIgnoresLater(h, base, lo, lo + DAY);
    }
  }

  /** So all days are within the limit exactly if those of the first base transfers are. */
  lemma DaysExactly(h: seq<Transfer>, base: nat, limit: nat)
    requires Ordered(h) && Limited(h, base, limit) && base <= |h|
    ensures forall lo, hi | hi == lo + DAY ::
      if exists t :: t in h[base..] && t.timestamp <= hi then SumBetween(h, lo, hi) <= limit
      else SumBetween(h, lo, hi) == SumBetween(h[..base], lo, hi)
    ensures (forall lo, hi | hi == lo + DAY :: SumBetween(h, lo, hi) <= limit) <==>
      forall lo, hi | hi == lo + DAY :: SumBetween(h[..base], lo, hi) <= limit
  {
    hide SumBetween, Limited, Ordered;
    forall lo, hi | hi == lo + DAY
      ensures if exists t :: t in h[base..] && t.timestamp <= hi then SumBetween(h, lo, hi) <= limit
        else SumBetween(h, lo, hi) == SumBetween(h[..base], lo, hi)
      ensures SumBetween(h[..base], lo, hi) <= SumBetween(h, lo, hi)
    {
      DayWithOrWithout(h, base, limit, lo);
      BetweenSplit(h[..base], h[base..], lo, hi);
      assert h == h[..base] + h[base..];
    }
  }

  // ---------------------------------------------------------------- comparing two lists

  lemma {:induction false} BetweenSplit(a: seq<Transfer>, b: seq<Transfer>, lo: int, hi: int)
    ensures SumBetween(a + b, lo, hi) == SumBetween(a, lo, hi) + SumBetween(b, lo, hi)
  {
    if b == [] {
      assert a + b == a;
    } else {
      BetweenSplit(a, b[..|b| - 1], lo, hi);
      assert (a + b)[..|a + b| - 1] == a + b[..|b| - 1];
    }
  }

  lemma {:induction false} BetweenWider(ts: seq<Transfer>, lo: int, hi: int, lo2: int, hi2: int)
    requires lo2 <= lo && hi <= hi2
    ensures SumBetween(ts, lo, hi) <= SumBetween(ts, lo2, hi2)
  {
    if ts != [] {
      BetweenWider(ts[..|ts| - 1], lo, hi, lo2, hi2);
    }
  }

  lemma {:induction false} NothingBetween(ts: seq<Transfer>, lo: int, hi: int)
    requires forall t | t in ts :: !(lo <= t.timestamp <= hi)
    ensures SumBetween(ts, lo, hi) == 0
  {
    if ts != [] {
      NothingBetween(ts[..|ts| - 1], lo, hi);
    }
  }

  ghost predicate DistinctHashes(ts: seq<Transfer>) { forall i, j | 0 <= i < j < |ts| :: ts[i].hash != ts[j].hash }

  predicate SameIn(a: Transfer, b: Transfer, lo: int, hi: int) {
    b.hash == a.hash && b.value == a.value && lo <= b.timestamp <= hi
  }

  lemma RemoveBetween(b: seq<Transfer>, j: nat, lo: int, hi: int)
    requires j < |b| && lo <= b[j].timestamp <= hi
    ensures SumBetween(b, lo, hi) == SumBetween(b[..j] + b[j + 1..], lo, hi) + b[j].value
  {
    assert b == (b[..j] + [b[j]]) + b[j + 1..];
    BetweenSplit(b[..j] + [b[j]], b[j + 1..], lo, hi);
    BetweenSplit(b[..j], [b[j]], lo, hi);
    BetweenSplit(b[..j], b[j + 1..], lo, hi);
    BetweenOne(b[j], lo, hi);
  }

  lemma BetweenOne(t: Transfer, lo: int, hi: int)
    requires lo <= t.timestamp <= hi
    ensures SumBetween([t], lo, hi) == t.value
  {
    assert [t][..0] == [];
  }

  /** A list is worth no more in one stretch of time than another in another one, if each transfer
      of the first stretch, with a hash of its own, has a counterpart in the second. */
  lemma {:induction false} SumInto(a: seq<Transfer>, b: seq<Transfer>, lo: int, hi: int, lo2: int, hi2: int)
    requires DistinctHashes(a)
    requires forall x | x in a && lo <= x.timestamp <= hi :: exists y :: y in b && SameIn(x, y, lo2, hi2)
    ensures SumBetween(a, lo, hi) <= SumBetween(b, lo2, hi2)
  {
    if a != [] {
      var n := |a| - 1;
      var x := a[n];
      if lo <= x.timestamp <= hi {
        var y :| y in b && SameIn(x, y, lo2, hi2);
        var j :| 0 <= j < |b| && b[j] == y;
        var rest := b[..j] + b[j + 1..];
        forall z | z in a[..n] && lo <= z.timestamp <= hi
          ensures exists w :: w in rest && SameIn(z, w, lo2, hi2)
        {
          var w :| w in b && SameIn(z, w, lo2, hi2);
          assert w.hash == z.hash != y.hash;
          assert b == b[..j] + [b[j]] + b[j + 1..];
          assert w in rest;
        }
        SumInto(a[..n], rest, lo, hi, lo2, hi2);
        RemoveBetween(b, j, lo2, hi2);
      } else {
        SumInto(a[..n], b, lo, hi, lo2, hi2);
      }
    }
  }
}
