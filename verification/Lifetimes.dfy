/** The daily limit of a governor that is restarted any number of times. Each restart cuts the times
    of what was counted to whole seconds and drops what is then more than a day old. */
module Lifetimes {
  import opened Binary
  import opened Vaa
  import opened Keys
  import opened Publication
  import opened Transfers
  import opened GovernorDb
  import opened Scans
  import opened Window
  import opened Governor
  import opened GovernorState
  import opened Reload
  import opened GovernorNode
  import opened GovernorRuns
  import opened TransferFiles
  import opened Restart
  import opened AcrossRestart

  // ---------------------------------------------------------------- cutting times

  /** The times fit the 32 bits of seconds that are stored. */
  ghost predicate InEpoch(ts: seq<Transfer>) { forall t | t in ts :: 0 <= Unix(t.timestamp) < 0x1_0000_0000 }

  lemma CutBack(t: Transfer)
    requires 0 <= Unix(t.timestamp) < 0x1_0000_0000
    ensures Cut(t).timestamp == FromUnix(Unix(t.timestamp))
    ensures t.timestamp - NANOS < Cut(t).timestamp <= t.timestamp
  {
    Widths();
    FromBEOfBE(Unix(t.timestamp), 4);
  }

  lemma CutTwice(t: Transfer)
    ensures Cut(Cut(t)) == Cut(t)
  {
    StoredTimeKept(t.timestamp);
  }

  /** A governor that loads at a whole second drops what is recent but for less than a second. */
  lemma DroppedEarly(t: Transfer, now: int)
    requires 0 <= Unix(t.timestamp) < 0x1_0000_0000 && now % NANOS == 0
    ensures Cut(t).timestamp > now - DAY <==> t.timestamp >= now - DAY + NANOS
  {
    CutBack(t);
  }

  function CutAll(ts: seq<Transfer>): (us: seq<Transfer>)
    ensures |us| == |ts| && forall i | 0 <= i < |ts| :: us[i] == Cut(ts[i])
  {
    seq(|ts|, i requires 0 <= i < |ts| => Cut(ts[i]))
  }

  lemma InCutAll(ts: seq<Transfer>, u: Transfer)
    ensures u in CutAll(ts) <==> exists t :: t in ts && u == Cut(t)
  {
    if u in CutAll(ts) {
      var i :| 0 <= i < |ts| && CutAll(ts)[i] == u;
      assert ts[i] in ts;
    }
    forall t | t in ts
      ensures Cut(t) in CutAll(ts)
    {
      var i :| 0 <= i < |ts| && ts[i] == t;
      assert CutAll(ts)[i] == Cut(t);
    }
  }

  lemma CutAllAppend(a: seq<Transfer>, b: seq<Transfer>)
    ensures CutAll(a + b) == CutAll(a) + CutAll(b)
  {
  }

  lemma CutAllSame(ts: seq<Transfer>)
    requires forall t | t in ts :: Cut(t) == t
    ensures CutAll(ts) == ts
  {
  }

  /** Cutting times moves each transfer back by less than a second. */
  lemma {:induction false} CutCountsMore(ts: seq<Transfer>, lo: int, hi: int)
    requires InEpoch(ts)
    ensures SumBetween(ts, lo, hi) <= SumBetween(CutAll(ts), lo - NANOS + 1, hi)
  {
    hide Cut;
    if ts != [] {
      var n := |ts| - 1;
      CutCountsMore(ts[..n], lo, hi);
      assert CutAll(ts)[..n] == CutAll(ts[..n]);
      CutBack(ts[n]);
      CutValue(ts[n]);
    }
  }

  lemma CutValue(t: Transfer)
    ensures Cut(t).value == t.value && Cut(t).hash == t.hash
  {
  }

  // ---------------------------------------------------------------- the books of a governor

  /** The history h ends in what is listed, the rest is over a day old, and in no stretch of a day is
      it over the limit. */
  ghost predicate Books(ce: ChainEntry, h: seq<Transfer>, clock: int) {
    && |ce.transfers| <= |h| && ce.transfers == h[|h| - |ce.transfers|..]
    && (forall i | 0 <= i < |h| - |ce.transfers| :: h[i].timestamp < clock - DAY)
    && (forall i | 0 <= i < |h| :: h[i].timestamp <= clock)
    && (forall lo, hi | hi == lo + DAY :: SumBetween(h, lo, hi) <= ce.dailyLimit)
  }

  lemma TracksIsBooks(ce: ChainEntry, h: seq<Transfer>, base: nat, clock: int)
    requires Tracks(ce, h, base, clock) && base <= |h| && Sum(h[..base]) <= ce.dailyLimit
    ensures Books(ce, h, clock)
  {
    hide SumBetween, Sum, Limited, Ordered;
    forall lo, hi | hi == lo + DAY
      ensures SumBetween(h, lo, hi) <= ce.dailyLimit
    {
      EveryDayFrom(h, base, ce.dailyLimit, lo);
    }
  }

  lemma ListedInBooks(ce: ChainEntry, h: seq<Transfer>, clock: int, t: Transfer)
    requires Books(ce, h, clock) && t in ce.transfers
    ensures t in h && t.timestamp <= clock
  {
    hide SumBetween;
    var i :| 0 <= i < |ce.transfers| && ce.transfers[i] == t;
    assert t == h[|h| - |ce.transfers| + i];
  }

  lemma ListsDistinct(cs: Chains, seen: Seen, c: uint16)
    requires SeenAgrees(cs, seen) && c in cs && forall t | t in cs[c].transfers :: t.hash != []
    ensures DistinctHashes(cs[c].transfers)
  {
    hide SeenAgrees;
    var ts := cs[c].transfers;
    forall i, j | 0 <= i < j < |ts|
      ensures ts[i].hash != ts[j].hash
    {
      assert ts[i] in ts;
      if ts[i].hash == ts[j].hash { OneListed(cs, seen, c, i, c, j); }
    }
  }

  lemma StoppedHere(cfg: Config, s: State, trusted: Message -> bool, order: seq<Text>, cs: Chains, c: uint16,
        t: Transfer)
    requires Stopped(cfg, s, trusted, order, cs) && ListedIn(s.chains, c, t)
    ensures t.hash != []
  {
    hide SeenAgrees, EntriesMatch, Kept, EmptyLists, SameConfig;
    ListedHere(cfg, s, trusted, c, t);
  }

  /** Where a loaded transfer comes from, and that it was counted in the day before. */
  lemma LoadedWasCounted(cfg: Config, s: State, trusted: Message -> bool, order: seq<Text>, cs: Chains, now: int,
        c: uint16, u: Transfer)
    returns (t: Transfer)
    requires Stopped(cfg, s, trusted, order, cs) && c in s.chains && c in s.history && s.clock <= now
    requires Books(s.chains[c], s.history[c], s.clock) && InEpoch(s.history[c])
    requires ListedIn(Loaded(cfg, cs, s.store, order, now).chains, c, u)
    ensures t in s.history[c] && SameIn(u, t, now - DAY, now) && u.hash != [] && now - DAY <= u.timestamp <= now
    ensures Cut(u) == u
  {
    hide Stopped, Loaded, Books;
    t := LoadedWasListed(cfg, s, trusted, order, cs, now, c, u);
    StoppedHere(cfg, s, trusted, order, cs, c, t);
    ListedInBooks(s.chains[c], s.history[c], s.clock, t);
    CutBack(t);
    CutTwice(t);
  }

  /** What is loaded was all counted in the day before, so it is within the limit. */
  lemma LoadedTotal(cfg: Config, s: State, trusted: Message -> bool, order: seq<Text>, cs: Chains, now: int, c: uint16)
    requires Stopped(cfg, s, trusted, order, cs) && c in s.chains && c in s.history && s.clock <= now
    requires Books(s.chains[c], s.history[c], s.clock) && InEpoch(s.history[c])
    ensures var t := Loaded(cfg, cs, s.store, order, now);
      && c in t.chains && t.chains[c].dailyLimit == s.chains[c].dailyLimit
      && Sum(t.chains[c].transfers) <= s.chains[c].dailyLimit
      && forall u | u in t.chains[c].transfers :: u.timestamp <= now && Cut(u) == u
  {
    hide Loaded, Stopped, SeenAgrees, SumBetween, InEpoch, SameConfig, EmptyLists, Sum, SumSince, Cut;
    LoadedConfig(cfg, s, trusted, order, cs, now);
    ConfigLimits(s.chains, Loaded(cfg, cs, s.store, order, now).chains, c);
    var t := Loaded(cfg, cs, s.store, order, now);
    var r, h := t.chains[c].transfers, s.history[c];
    var lo := now - DAY;
    assert SumBetween(h, lo, now) <= s.chains[c].dailyLimit;
    hide Books;
    forall u | u in r
      ensures u.hash != [] && lo <= u.timestamp <= now && Cut(u) == u && exists y :: y in h && SameIn(u, y, lo, now)
    {
      assert ListedIn(t.chains, c, u);
      var y := LoadedWasCounted(cfg, s, trusted, order, cs, now, c, u);
    }
    ListsDistinct(t.chains, t.seen, c);
    SumInto(r, h, lo, now, lo, now);
    BetweenIsSince(r, lo, now);
    SumSinceAll(r, lo);
  }

  lemma ConfigLimits(cs: Chains, ds: Chains, c: uint16)
    requires SameConfig(cs, ds) && c in cs
    ensures c in ds && ds[c].dailyLimit == cs[c].dailyLimit && ds.Keys == cs.Keys
  {
    assert ds[c].(transfers := [], pending := []).dailyLimit == cs[c].(transfers := [], pending := []).dailyLimit;
  }

  /** What was counted and is recent is loaded. */
  lemma CarriedOver(cfg: Config, s: State, trusted: Message -> bool, order: seq<Text>, cs: Chains, now: int, c: uint16,
        lo: int, hi: int)
    requires Stopped(cfg, s, trusted, order, cs) && c in s.chains && c in s.history && s.clock <= now
    requires Books(s.chains[c], s.history[c], s.clock) && InEpoch(s.history[c]) && lo > now - DAY
    ensures var t := Loaded(cfg, cs, s.store, order, now);
      c in t.chains && SumBetween(CutAll(s.history[c]), lo, hi) <= SumBetween(t.chains[c].transfers, lo, hi)
  {
    hide Loaded, Stopped, SumBetween, SeenAgrees, Cut, ListedIn;
    LoadedTotal(cfg, s, trusted, order, cs, now, c);
    var l, h, r := s.chains[c].transfers, s.history[c], Loaded(cfg, cs, s.store, order, now).chains[c].transfers;
    var k := |h| - |l|;
    assert h == h[..k] + l;
    CutAllAppend(h[..k], l);
    BetweenSplit(CutAll(h[..k]), CutAll(l), lo, hi);
    CutDropped(h, k, s.clock - DAY, lo, hi);
    CutDistinct(cfg, s, trusted, order, cs, c);
    forall u | u in CutAll(l) && lo <= u.timestamp <= hi
      ensures exists y :: y in r && SameIn(u, y, lo, hi)
    {
      InCutAll(l, u);
      var t :| t in l && u == Cut(t);
      StillListed(cfg, s, trusted, order, cs, now, c, t);
      assert u in r && SameIn(u, u, lo, hi);
    }
    SumInto(CutAll(l), r, lo, hi, lo, hi);
  }

  lemma StillListed(cfg: Config, s: State, trusted: Message -> bool, order: seq<Text>, cs: Chains, now: int, c: uint16,
        t: Transfer)
    requires Stopped(cfg, s, trusted, order, cs) && c in s.chains && t in s.chains[c].transfers
    requires Cut(t).timestamp > now - DAY
    ensures var n := Loaded(cfg, cs, s.store, order, now); c in n.chains && Cut(t) in n.chains[c].transfers
  {
    hide Stopped, Loaded, Cut;
    assert ListedIn(s.chains, c, t);
    ListedIsLoaded(cfg, s, trusted, order, cs, now, c, t);
  }

  lemma CutDropped(h: seq<Transfer>, k: nat, start: int, lo: int, hi: int)
    requires k <= |h| && (forall i | 0 <= i < k :: h[i].timestamp < start) && InEpoch(h) && lo >= start
    ensures SumBetween(CutAll(h[..k]), lo, hi) == 0
  {
    hide SumBetween, Cut;
    forall u | u in CutAll(h[..k])
      ensures !(lo <= u.timestamp <= hi)
    {
      InCutAll(h[..k], u);
      var t :| t in h[..k] && u == Cut(t);
      assert t in h;
      CutBack(t);
    }
    NothingBetween(CutAll(h[..k]), lo, hi);
  }

  lemma CutDistinct(cfg: Config, s: State, trusted: Message -> bool, order: seq<Text>, cs: Chains, c: uint16)
    requires Stopped(cfg, s, trusted, order, cs) && c in s.chains
    ensures DistinctHashes(CutAll(s.chains[c].transfers))
  {
    assert SeenAgrees(s.chains, s.seen);
    hide SeenAgrees, Stopped;
    forall t | t in s.chains[c].transfers
      ensures t.hash != []
    {
      assert ListedIn(s.chains, c, t);
      StoppedHere(cfg, s, trusted, order, cs, c, t);
    }
    ListsDistinct(s.chains, s.seen, c);
  }

  // ---------------------------------------------------------------- one life

  ghost function Bases(s: State): map<uint16, nat> { map c | c in s.chains :: |s.chains[c].transfers| }

  /** A governor that has just been started, with what it has loaded: cut times, within the limit. */
  ghost predicate Begins(cfg: Config, s: State, trusted: Message -> bool) {
    && Inv(cfg, s, Bases(s)) && Kept(cfg, s, trusted) && s.history.Keys == s.chains.Keys
    && forall c | c in s.chains ::
         && s.history[c] == s.chains[c].transfers && Sum(s.history[c]) <= s.chains[c].dailyLimit
         && forall t | t in s.history[c] :: Cut(t) == t
  }

  lemma FreshBegins(cfg: Config, s: State, trusted: Message -> bool)
    requires Fresh(s) && s.seen == map[] && (forall k | k in s.store :: KindOf(k) == OtherKind)
    ensures Begins(cfg, s, trusted)
  {
    hide Mirrors, Files, KindOf, Inv;
    FreshInv(cfg, s);
    assert Bases(s) == map c | c in s.chains :: 0;
    StartMirrors(cfg, s, trusted);
    StartFiles(cfg, s, trusted);
  }

  /** What a governor has when it is stopped. */
  ghost predicate Ends(cfg: Config, s: State, end: State, trusted: Message -> bool) {
    && SeenAgrees(end.chains, end.seen) && EntriesMatch(cfg, end.chains) && Kept(cfg, end, trusted)
    && end.history.Keys == end.chains.Keys == s.chains.Keys == s.history.Keys && s.clock <= end.clock
    && forall c | c in s.chains ::
         && end.chains[c].dailyLimit == s.chains[c].dailyLimit
         && Books(end.chains[c], end.history[c], end.clock) && Grows(s.history[c], end.history[c], s.clock)
  }

  lemma RunEnds(cfg: Config, s: State, trusted: Message -> bool, ops: seq<Op>)
    requires Begins(cfg, s, trusted) && IsRun(cfg, s, ops) && TrustedRun(ops, trusted) && OneHashPerId(cfg, trusted)
    ensures Ends(cfg, s, After(cfg, s, ops), trusted)
  {
    hide IsRun, After, Inv, Kept, TrustedRun, OneHashPerId, SeenAgrees, EntriesMatch, Books, Grows, Tracks, Sum, Cut;
    RunKeeps(cfg, s, Bases(s), ops);
    RunMirrors(cfg, s, Bases(s), trusted, ops);
    RunAdvances(cfg, s, ops);
    RunLimits(cfg, s, ops);
    var end := After(cfg, s, ops);
    InvParts(cfg, end, Bases(s));
    RunTracks(cfg, end, Bases(s));
    forall c | c in s.chains
      ensures Books(end.chains[c], end.history[c], end.clock)
    {
      GrowsFrom(s.history[c], end.history[c], s.clock);
      TracksIsBooks(end.chains[c], end.history[c], |s.history[c]|, end.clock);
    }
  }

  lemma GrowsFrom(h: seq<Transfer>, g: seq<Transfer>, clock: int)
    requires Grows(h, g, clock)
    ensures |h| <= |g| && g[..|h|] == h && g == h + g[|h|..] && forall t | t in g[|h|..] :: t.timestamp >= clock
  {
  }

  lemma RunTracks(cfg: Config, s: State, base: map<uint16, nat>)
    requires Inv(cfg, s, base)
    ensures s.history.Keys == s.chains.Keys && base.Keys == s.chains.Keys
    ensures forall c | c in s.chains :: Tracks(s.chains[c], s.history[c], base[c], s.clock)
  {
  }

  lemma EndsStopped(cfg: Config, s: State, end: State, trusted: Message -> bool, order: seq<Text>, cs: Chains)
    requires Ends(cfg, s, end, trusted) && Enumerates(order, end.store) && EmptyLists(cs) && SameConfig(end.chains, cs)
    ensures Stopped(cfg, end, trusted, order, cs)
    ensures end.history.Keys == end.chains.Keys == s.chains.Keys == s.history.Keys && s.clock <= end.clock
  {
    hide SeenAgrees, EntriesMatch, Kept, EmptyLists, SameConfig, Books, Grows, Enumerates;
  }

  lemma EndsBooks(cfg: Config, s: State, end: State, trusted: Message -> bool, c: uint16)
    requires Ends(cfg, s, end, trusted) && c in s.chains
    ensures c in end.chains && c in end.history && c in s.history
    ensures end.chains[c].dailyLimit == s.chains[c].dailyLimit
    ensures Books(end.chains[c], end.history[c], end.clock) && Grows(s.history[c], end.history[c], s.clock)
  {
    hide SeenAgrees, EntriesMatch, Kept, Books, Grows;
  }

  lemma LoadBegins(cfg: Config, s: State, end: State, trusted: Message -> bool, order: seq<Text>, cs: Chains, now: int)
    requires Ends(cfg, s, end, trusted) && OneHashPerId(cfg, trusted) && Closed(trusted) && end.clock <= now
    requires Enumerates(order, end.store) && EmptyLists(cs) && SameConfig(end.chains, cs)
    requires forall c | c in end.history :: InEpoch(end.history[c])
    ensures var t := Loaded(cfg, cs, end.store, order, now);
      && Begins(cfg, t, trusted) && t.clock == now && t.chains.Keys == s.chains.Keys
      && forall c | c in s.chains :: t.chains[c].dailyLimit == s.chains[c].dailyLimit
  {
    hide Loaded, Stopped, SeenAgrees, EntriesMatch, Kept, OneHashPerId, Closed, EmptyLists, SameConfig, InEpoch, Books,
      Grows, Inv, Sum, Cut, Enumerates, Ends, Ordered;
    EndsStopped(cfg, s, end, trusted, order, cs);
    var t := Loaded(cfg, cs, end.store, order, now);
    LoadedKept(cfg, end, trusted, order, cs, now);
    LoadedAgrees(cfg, cs, end.store, order, now);
    LoadedKeys(cfg, end, trusted, order, cs, now);
    forall c | c in t.chains
      ensures Sum(t.chains[c].transfers) <= s.chains[c].dailyLimit == t.chains[c].dailyLimit < UINT64
      ensures forall u | u in t.chains[c].transfers :: u.timestamp <= now && Cut(u) == u
    {
      EndsBooks(cfg, s, end, trusted, c);
      LoadedTotal(cfg, end, trusted, order, cs, now, c);
    }
    ReloadStartsRun(cfg, cs, end.store, order, now);
  }

  lemma LoadedKeys(cfg: Config, s: State, trusted: Message -> bool, order: seq<Text>, cs: Chains, now: int)
    requires Stopped(cfg, s, trusted, order, cs)
    ensures Loaded(cfg, cs, s.store, order, now).chains.Keys == s.chains.Keys
  {
    hide Loaded, Stopped, SeenAgrees, SameConfig, EmptyLists;
    LoadedConfig(cfg, s, trusted, order, cs, now);
    SameConfigKeys(s.chains, Loaded(cfg, cs, s.store, order, now).chains);
  }

  // ---------------------------------------------------------------- many lives

  /** What one governor does until it is stopped, and how and when the next one is started. */
  datatype Life = Life(ops: seq<Op>, order: seq<Text>, cs: Chains, now: int)

  ghost predicate CanRestart(end: State, l: Life) {
    && Enumerates(l.order, end.store) && EmptyLists(l.cs) && SameConfig(end.chains, l.cs) && end.clock <= l.now
    && forall c | c in end.history :: InEpoch(end.history[c])
  }

  ghost function Next(cfg: Config, s: State, l: Life): State
    requires IsRun(cfg, s, l.ops)
  {
    Loaded(cfg, l.cs, After(cfg, s, l.ops).store, l.order, l.now)
  }

  /** A series of lives, the last of which has not ended. */
  ghost predicate Lives(cfg: Config, s: State, trusted: Message -> bool, lives: seq<Life>, last: seq<Op>)
    decreases |lives|
  {
    if lives == [] then IsRun(cfg, s, last) && TrustedRun(last, trusted)
    else
      var l := lives[0];
      && IsRun(cfg, s, l.ops) && TrustedRun(l.ops, trusted) && CanRestart(After(cfg, s, l.ops), l)
      && Lives(cfg, Next(cfg, s, l), trusted, lives[1..], last)
  }

  /** What a run adds to the history of a chain. */
  ghost function Added(cfg: Config, s: State, ops: seq<Op>, c: uint16): seq<Transfer>
    requires IsRun(cfg, s, ops)
  {
    var end := After(cfg, s, ops);
    if c in s.history && c in end.history && |s.history[c]| <= |end.history[c]| then end.history[c][|s.history[c]|..]
    else []
  }

  /** All that was counted on a chain, with the times at which it was. */
  ghost function Counted(cfg: Config, s: State, trusted: Message -> bool, lives: seq<Life>, last: seq<Op>, c: uint16):
      seq<Transfer>
    requires Lives(cfg, s, trusted, lives, last)
    decreases |lives|
  {
    if lives == [] then Added(cfg, s, last, c)
    else Added(cfg, s, lives[0].ops, c) + Counted(cfg, Next(cfg, s, lives[0]), trusted, lives[1..], last, c)
  }

  ghost function Final(cfg: Config, s: State, trusted: Message -> bool, lives: seq<Life>, last: seq<Op>): State
    requires Lives(cfg, s, trusted, lives, last)
    decreases |lives|
  {
    if lives == [] then After(cfg, s, last) else Final(cfg, Next(cfg, s, lives[0]), trusted, lives[1..], last)
  }

  // ---------------------------------------------------------------- the limit over all lives

  /** In no stretch a second short of a day is this over the limit. */
  ghost predicate Bounded(ts: seq<Transfer>, limit: nat) {
    forall lo, hi | hi == lo + DAY - NANOS :: SumBetween(ts, lo, hi) <= limit
  }

  /** What has been counted in the past and is recent at the start is in the list r, with cut times. */
  ghost predicate Carried(past: seq<Transfer>, r: seq<Transfer>, clock: int) {
    forall lo, hi | lo >= clock - DAY + NANOS :: SumBetween(past, lo, hi) <= SumBetween(r, lo - NANOS + 1, hi)
  }

  /** A stretch in which the new governor has counted something is one of its own days. */
  lemma MoreBounded(past: seq<Transfer>, r: seq<Transfer>, more: seq<Transfer>, limit: nat, clock: int)
    requires Bounded(past, limit) && Carried(past, r, clock) && forall t | t in more :: t.timestamp >= clock
    requires forall lo, hi | hi == lo + DAY :: SumBetween(r + more, lo, hi) <= limit
    ensures Bounded(past + more, limit)
  {
    hide SumBetween;
    forall lo, hi | hi == lo + DAY - NANOS
      ensures SumBetween(past + more, lo, hi) <= limit
    {
      BetweenSplit(past, more, lo, hi);
      if exists t :: t in more && lo <= t.timestamp <= hi {
        BetweenSplit(r, more, lo - NANOS, hi);
        BetweenWider(r, lo - NANOS + 1, hi, lo - NANOS, hi);
        BetweenWider(more, lo, hi, lo - NANOS, hi);
        assert SumBetween(past, lo, hi) <= SumBetween(r, lo - NANOS + 1, hi);
      } else {
        NothingBetween(more, lo, hi);
      }
    }
  }

  /** And what is carried over a life is what its end hands over. */
  lemma MoreCarried(past: seq<Transfer>, r: seq<Transfer>, more: seq<Transfer>, clock: int, next: seq<Transfer>,
        now: int)
    requires Carried(past, r, clock) && clock <= now && InEpoch(more) && forall t | t in r :: Cut(t) == t
    requires forall lo, hi | lo > now - DAY :: SumBetween(CutAll(r + more), lo, hi) <= SumBetween(next, lo, hi)
    ensures Carried(past + more, next, now)
  {
    hide SumBetween, Cut;
    forall lo, hi | lo >= now - DAY + NANOS
      ensures SumBetween(past + more, lo, hi) <= SumBetween(next, lo - NANOS + 1, hi)
    {
      BetweenSplit(past, more, lo, hi);
      CutCountsMore(more, lo, hi);
      CutAllAppend(r, more);
      CutAllSame(r);
      BetweenSplit(r, CutAll(more), lo - NANOS + 1, hi);
      assert SumBetween(past, lo, hi) <= SumBetween(r, lo - NANOS + 1, hi);
    }
  }

  lemma LifeBounded(cfg: Config, s: State, trusted: Message -> bool, ops: seq<Op>, c: uint16, past: seq<Transfer>)
    requires Begins(cfg, s, trusted) && IsRun(cfg, s, ops) && TrustedRun(ops, trusted) && OneHashPerId(cfg, trusted)
    requires c in s.chains && Bounded(past, s.chains[c].dailyLimit) && Carried(past, s.history[c], s.clock)
    ensures Bounded(past + Added(cfg, s, ops, c), s.chains[c].dailyLimit)
    ensures c in After(cfg, s, ops).history
      && After(cfg, s, ops).history[c] == s.history[c] + Added(cfg, s, ops, c)
    ensures forall lo, hi | hi == lo + DAY ::
      SumBetween(After(cfg, s, ops).history[c], lo, hi) <= s.chains[c].dailyLimit
  {
    hide IsRun, After, Begins, TrustedRun, OneHashPerId, SeenAgrees, EntriesMatch, Kept, Grows, Bounded, Carried,
      SumBetween;
    RunEnds(cfg, s, trusted, ops);
    var end := After(cfg, s, ops);
    GrowsFrom(s.history[c], end.history[c], s.clock);
    MoreBounded(past, s.history[c], Added(cfg, s, ops, c), s.chains[c].dailyLimit, s.clock);
  }

  lemma LifeCarried(cfg: Config, s: State, trusted: Message -> bool, l: Life, c: uint16, past: seq<Transfer>)
    requires Begins(cfg, s, trusted) && IsRun(cfg, s, l.ops) && TrustedRun(l.ops, trusted)
    requires OneHashPerId(cfg, trusted) && Closed(trusted) && CanRestart(After(cfg, s, l.ops), l)
    requires c in s.chains && Carried(past, s.history[c], s.clock)
    ensures var t := Next(cfg, s, l);
      && Begins(cfg, t, trusted) && c in t.chains && c in t.history && t.clock == l.now
      && t.chains[c].dailyLimit == s.chains[c].dailyLimit
      && Carried(past + Added(cfg, s, l.ops, c), t.history[c], t.clock)
  {
    hide IsRun, After, TrustedRun, OneHashPerId, Closed, Carried, SumBetween, Loaded, Cut, CutAll, EmptyLists,
      SameConfig, InEpoch, Books, Enumerates, Ends, Begins, Grows, Stopped;
    var end := After(cfg, s, l.ops);
    RunEnds(cfg, s, trusted, l.ops);
    EndsStopped(cfg, s, end, trusted, l.order, l.cs);
    EndsBooks(cfg, s, end, trusted, c);
    LoadBegins(cfg, s, end, trusted, l.order, l.cs, l.now);
    var t := Next(cfg, s, l);
    BeginsWith(cfg, s, trusted, c);
    BeginsWith(cfg, t, trusted, c);
    GrowsFrom(s.history[c], end.history[c], s.clock);
    var r, more := s.history[c], Added(cfg, s, l.ops, c);
    assert end.history[c] == r + more;
    EpochOfTail(r, more);
    forall lo, hi | lo > l.now - DAY
      ensures SumBetween(CutAll(r + more), lo, hi) <= SumBetween(t.history[c], lo, hi)
    {
      CarriedOver(cfg, end, trusted, l.order, l.cs, l.now, c, lo, hi);
    }
    MoreCarried(past, r, more, s.clock, t.history[c], l.now);
  }

  lemma BeginsWith(cfg: Config, s: State, trusted: Message -> bool, c: uint16)
    requires Begins(cfg, s, trusted) && c in s.chains
    ensures c in s.history && s.history[c] == s.chains[c].transfers && forall t | t in s.history[c] :: Cut(t) == t
  {
    hide Inv, Kept, Cut, Sum;
  }

  lemma EpochOfTail(r: seq<Transfer>, more: seq<Transfer>)
    requires InEpoch(r + more)
    ensures InEpoch(more)
  {
    forall t | t in more
      ensures t in r + more
    {
    }
  }

  lemma {:induction false} LivesBounded(cfg: Config, s: State, trusted: Message -> bool, lives: seq<Life>,
        last: seq<Op>, c: uint16, past: seq<Transfer>)
    requires Begins(cfg, s, trusted) && Lives(cfg, s, trusted, lives, last)
    requires OneHashPerId(cfg, trusted) && Closed(trusted) && c in s.chains && c in s.history
    requires Bounded(past, s.chains[c].dailyLimit) && Carried(past, s.history[c], s.clock)
    ensures Bounded(past + Counted(cfg, s, trusted, lives, last, c), s.chains[c].dailyLimit)
    ensures var end := Final(cfg, s, trusted, lives, last);
      c in end.history && forall lo, hi | hi == lo + DAY :: SumBetween(end.history[c], lo, hi) <= s.chains[c].dailyLimit
    decreases |lives|
  {
    hide Begins, OneHashPerId, Closed, Bounded, Carried, IsRun, After, TrustedRun, CanRestart, Added, SumBetween, Next;
    if lives == [] {
      LifeBounded(cfg, s, trusted, last, c, past);
    } else {
      var l := lives[0];
      LifeBounded(cfg, s, trusted, l.ops, c, past);
      LifeCarried(cfg, s, trusted, l, c, past);
      var t, more := Next(cfg, s, l), Added(cfg, s, l.ops, c);
      LivesBounded(cfg, t, trusted, lives[1..], last, c, past + more);
      var rest := Counted(cfg, t, trusted, lives[1..], last, c);
      assert (past + more) + rest == past + (more + rest);
    }
  }

  // ---------------------------------------------------------------- the main result

  /** Also the messages as they are reloaded. */
  ghost function Closure(trusted: Message -> bool): Message -> bool {
    m => trusted(m) || exists n :: trusted(n) && m == Reloaded(n)
  }

  lemma ReloadedTwice(m: Message)
    ensures Reloaded(Reloaded(m)) == Reloaded(m)
  {
    StoredTimeKept(m.timestamp);
  }

  lemma SameHashReloaded(cfg: Config, m: Message)
    ensures HashFromMsg(cfg, Reloaded(m)) == HashFromMsg(cfg, m) && IdOfMessage(Reloaded(m)) == IdOfMessage(m)
  {
    ReloadKeeps(cfg.crypto, m, 0, 0);
  }

  lemma ClosureCloses(cfg: Config, trusted: Message -> bool)
    requires OneHashPerId(cfg, trusted)
    ensures Closed(Closure(trusted)) && OneHashPerId(cfg, Closure(trusted))
    ensures forall m | trusted(m) :: Closure(trusted)(m)
  {
    hide Reloaded, HashFromMsg, IdOfMessage;
    var closed := Closure(trusted);
    forall m | closed(m)
      ensures closed(Reloaded(m))
      ensures exists n :: trusted(n) && HashFromMsg(cfg, n) == HashFromMsg(cfg, m) && IdOfMessage(n) == IdOfMessage(m)
    {
      if !trusted(m) {
        var n :| trusted(n) && m == Reloaded(n);
        ReloadedTwice(n);
        SameHashReloaded(cfg, n);
      }
    }
    forall a, b | closed(a) && closed(b) && IdOfMessage(a) == IdOfMessage(b)
      ensures HashFromMsg(cfg, a) == HashFromMsg(cfg, b)
    {
      var m :| trusted(m) && HashFromMsg(cfg, m) == HashFromMsg(cfg, a) && IdOfMessage(m) == IdOfMessage(a);
      var n :| trusted(n) && HashFromMsg(cfg, n) == HashFromMsg(cfg, b) && IdOfMessage(n) == IdOfMessage(b);
    }
  }

  lemma {:induction false} MoreTrusted(cfg: Config, s: State, trusted: Message -> bool, more: Message -> bool,
        lives: seq<Life>, last: seq<Op>, c: uint16)
    requires Lives(cfg, s, trusted, lives, last) && forall m | trusted(m) :: more(m)
    ensures Lives(cfg, s, more, lives, last)
    ensures Counted(cfg, s, more, lives, last, c) == Counted(cfg, s, trusted, lives, last, c)
    ensures Final(cfg, s, more, lives, last) == Final(cfg, s, trusted, lives, last)
    decreases |lives|
  {
    hide IsRun, After, CanRestart, Added, Next;
    if lives != [] {
      MoreTrusted(cfg, Next(cfg, s, lives[0]), trusted, more, lives[1..], last, c);
    }
  }

  /** A governor starts empty and is restarted any number of times. For every chain, what it has in its
      books for any stretch of a day is within the limit. What was really counted is within the
      limit for any stretch that is a second shorter than a day, whatever restarts are in it. */
  lemma DailyLimitAcrossRestarts(cfg: Config, s: State, trusted: Message -> bool, lives: seq<Life>, last: seq<Op>,
        c: uint16, lo: int)
    requires Fresh(s) && s.seen == map[] && (forall k | k in s.store :: KindOf(k) == OtherKind) && c in s.chains
    requires OneHashPerId(cfg, trusted) && Lives(cfg, s, trusted, lives, last)
    ensures SumBetween(Counted(cfg, s, trusted, lives, last, c), lo, lo + DAY - NANOS) <= s.chains[c].dailyLimit
    ensures var end := Final(cfg, s, trusted, lives, last);
      c in end.history && SumBetween(end.history[c], lo, lo + DAY) <= s.chains[c].dailyLimit
  {
    hide OneHashPerId, Closed, Closure, KindOf, Lives, Counted, Final, Begins, SumBetween;
    var closed := Closure(trusted);
    ClosureCloses(cfg, trusted);
    MoreTrusted(cfg, s, trusted, closed, lives, last, c);
    FreshBegins(cfg, s, closed);
    NothingYet(s.history[c], s.chains[c].dailyLimit, s.clock);
    LivesBounded(cfg, s, closed, lives, last, c, []);
    var all := Counted(cfg, s, trusted, lives, last, c);
    assert [] + all == all;
  }

  lemma NothingYet(h: seq<Transfer>, limit: nat, clock: int)
    ensures Bounded([], limit) && Carried([], h, clock)
  {
  }
}
