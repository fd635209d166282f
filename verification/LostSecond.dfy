/** The second that a restart can cut off is needed: a governor that is restarted lets through twice
    its daily limit within a day. */
module LostSecond {
  import opened Binary
  import opened Vaa
  import opened Keys
  import opened Publication
  import opened Transfers
  import opened GovernorDb
  import opened Scans
  import opened Listings
  import opened Window
  import opened Governor
  import opened GovernorState
  import opened Reload
  import opened GovernorNode
  import opened GovernorRuns
  import opened TransferFiles
  import opened Restart
  import opened AcrossRestart
  import opened Lifetimes

  /** Whatever the amount, it is worth so much. */
  function Always(value: uint64): Prices { (_, _) => Some(value) }

  /** A new message on a chain on which nothing is listed and no transfer is too big. */
  ghost predicate Free(cfg: Config, s: State, m: Message, hdr: TransferHdr) {
    && ParseMsg(cfg, s.chains, m) == Applies(hdr) && HashFromMsg(cfg, m) !in s.seen
    && m.emitterChain in s.chains && s.history.Keys == s.chains.Keys
    && s.chains[m.emitterChain].transfers == [] && s.chains[m.emitterChain].bigTransactionSize == 0
  }

  /** It is counted at the full limit. */
  lemma FreeIsCounted(cfg: Config, s: State, m: Message, hdr: TransferHdr, now: int)
    requires Free(cfg, s, m, hdr)
    ensures var c := m.emitterChain;
      var limit := s.chains[c].dailyLimit;
      var x := NewTransfer(cfg, m, hdr, limit, now);
      Processed(cfg, s, m, now, Always(limit)).0 == Recorded(Trimmed(s.(clock := now), c), c, x)
  {
    hide HashFromMsg, ParseMsg, NewKey, Encoded, Trimmed, Recorded;
    SameChain(s.(clock := now), m.emitterChain);
    NothingSince(now - DAY);
  }

  lemma NothingSince(start: int)
    ensures SumSince([], start) == 0
  {
  }

  lemma CountedAlone(cfg: Config, s: State, c: uint16, x: Transfer, now: int)
    requires c in s.chains && s.history.Keys == s.chains.Keys && s.chains[c].transfers == [] && x.hash != []
    ensures var t := Recorded(Trimmed(s.(clock := now), c), c, x);
      && t.clock == now && t.chains.Keys == s.chains.Keys == t.history.Keys
      && t.history == s.history[c := s.history[c] + [x]] && t.seen == s.seen[x.hash := true]
      && t.chains == s.chains[c := s.chains[c].(transfers := [x])]
  {
    hide NewKey, Encoded;
    var u := s.(clock := now);
    NothingExpired(now - DAY);
    assert Trim(u.chains, c, 0) == u.chains;
    assert [] + [x] == [x];
  }

  lemma NothingExpired(start: int)
    ensures Expired([], start) == 0 && Hashes([][..0]) == {} && TransferKeys([][..0]) == {}
  {
  }

  // ---------------------------------------------------------------- the two messages

  /** Two different messages of one chain that the governor is about. */
  ghost predicate TwoMessages(cfg: Config, cs: Chains, m: Message, hdr: TransferHdr, n: Message, ndr: TransferHdr) {
    && ParseMsg(cfg, cs, m) == Applies(hdr) && ParseMsg(cfg, cs, n) == Applies(ndr)
    && m.emitterChain == n.emitterChain && IdOfMessage(m) != IdOfMessage(n)
    && HashFromMsg(cfg, m) != HashFromMsg(cfg, n)
  }

  function Either(m: Message, n: Message): Message -> bool { x => x == m || x == n }

  lemma EitherOneHash(cfg: Config, m: Message, n: Message)
    requires IdOfMessage(m) != IdOfMessage(n)
    ensures OneHashPerId(cfg, Either(m, n))
  {
    hide HashFromMsg, IdOfMessage;
  }

  const HALF := NANOS / 2

  /** The first governor counts m a day, less half a second, before it is restarted at time now. */
  function FirstLife(limit: uint64, m: Message, order: seq<Text>, cs: Chains, now: int): Life {
    Life([Process(m, now - DAY + HALF, Always(limit))], order, cs, now)
  }

  lemma OneOp(cfg: Config, s: State, op: Op)
    requires Possible(s, op)
    ensures IsRun(cfg, s, [op]) && After(cfg, s, [op]) == Apply(cfg, s, op)
  {
    hide Apply, Possible;
    assert [op][1..] == [];
  }

  /** What the first life leaves behind: one transfer, and nothing waiting. */
  lemma FirstEnd(cfg: Config, s: State, m: Message, hdr: TransferHdr, now: int)
    requires Fresh(s) && s.seen == map[] && ParseMsg(cfg, s.chains, m) == Applies(hdr) && s.clock <= now - DAY + HALF
    requires m.emitterChain in s.chains && s.chains[m.emitterChain].bigTransactionSize == 0
    ensures var c := m.emitterChain;
      var op := Process(m, now - DAY + HALF, Always(s.chains[c].dailyLimit));
      var x := NewTransfer(cfg, m, hdr, s.chains[c].dailyLimit, op.now);
      && Possible(s, op) && IsRun(cfg, s, [op])
      && var end := After(cfg, s, [op]);
         && end.clock == op.now && end.chains.Keys == s.chains.Keys == end.history.Keys
         && end.history == s.history[c := [x]] && end.seen == map[HashFromMsg(cfg, m) := true]
         && end.chains == s.chains[c := s.chains[c].(transfers := [x])]
  {
    hide HashFromMsg, ParseMsg, Trimmed, Recorded, Processed;
    var c := m.emitterChain;
    var op := Process(m, now - DAY + HALF, Always(s.chains[c].dailyLimit));
    var x := NewTransfer(cfg, m, hdr, s.chains[c].dailyLimit, op.now);
    assert Free(cfg, s, m, hdr);
    FreeIsCounted(cfg, s, m, hdr, op.now);
    CountedAlone(cfg, s, c, x, op.now);
    OneOp(cfg, s, op);
    assert s.history[c] + [x] == [x];
  }

  // ---------------------------------------------------------------- after the restart

  /** A load that finds no recent transfer and nothing waiting leaves nothing seen. */
  lemma NothingLoaded(cfg: Config, s: State, trusted: Message -> bool, order: seq<Text>, cs: Chains, now: int)
    requires Stopped(cfg, s, trusted, order, cs) && Enqueued(s.seen) == {}
    requires forall c, t | ListedIn(s.chains, c, t) :: Cut(t).timestamp <= now - DAY
    ensures var t := Loaded(cfg, cs, s.store, order, now);
      t.seen == map[] && forall c | c in t.chains :: t.chains[c].transfers == []
  {
    hide Stopped, Loaded, SeenAgrees, Cut, SameConfig, EmptyLists, Enqueued, Complete;
    var t := Loaded(cfg, cs, s.store, order, now);
    LoadedConfig(cfg, s, trusted, order, cs, now);
    forall c | c in t.chains
      ensures t.chains[c].transfers == []
    {
      if t.chains[c].transfers != [] {
        assert ListedIn(t.chains, c, t.chains[c].transfers[0]);
        var v := LoadedWasListed(cfg, s, trusted, order, cs, now, c, t.chains[c].transfers[0]);
      }
    }
    forall h
      ensures h !in Enqueued(t.seen)
    {
      LoadedQueue(cfg, s, trusted, order, cs, now, h);
    }
    NothingComplete(t.chains, t.seen);
    SeenSplits(t.seen);
  }

  lemma NothingComplete(cs: Chains, seen: Seen)
    requires SeenAgrees(cs, seen) && forall c | c in cs :: cs[c].transfers == []
    ensures forall h :: h !in Complete(seen)
  {
    assert forall c, i, h :: !ListedAt(TransferLists(cs), c, i, h);
  }

  lemma SeenSplits(seen: Seen)
    requires (forall h :: h !in Enqueued(seen)) && forall h :: h !in Complete(seen)
    ensures seen == map[]
  {
    forall h
      ensures h !in seen
    {
      assert h !in Enqueued(seen) && h !in Complete(seen);
    }
  }

  lemma ParsesElsewhere(cfg: Config, cs: Chains, ds: Chains, m: Message)
    requires SameConfig(cs, ds)
    ensures ParseMsg(cfg, ds, m) == ParseMsg(cfg, cs, m)
    ensures forall c | c in cs ::
      ds[c].bigTransactionSize == cs[c].bigTransactionSize && ds[c].dailyLimit == cs[c].dailyLimit
  {
    hide DecodeTransferHdr;
    forall c | c in cs
      ensures ds[c].emitterAddr == cs[c].emitterAddr && ds[c].bigTransactionSize == cs[c].bigTransactionSize
      ensures ds[c].dailyLimit == cs[c].dailyLimit
    {
      assert ds[c].(transfers := [], pending := []) == cs[c].(transfers := [], pending := []);
      assert ds[c].(transfers := [], pending := []).emitterAddr == ds[c].emitterAddr;
      assert cs[c].(transfers := [], pending := []).emitterAddr == cs[c].emitterAddr;
      assert ds[c].(transfers := [], pending := []).bigTransactionSize == ds[c].bigTransactionSize;
      assert cs[c].(transfers := [], pending := []).bigTransactionSize == cs[c].bigTransactionSize;
      assert ds[c].(transfers := [], pending := []).dailyLimit == ds[c].dailyLimit;
      assert cs[c].(transfers := [], pending := []).dailyLimit == cs[c].dailyLimit;
    }
  }

  /** The premises of the example: an empty governor, a chain without a size for big transfers, and a
      restart at a whole second. */
  ghost predicate Scene(cfg: Config, s: State, m: Message, hdr: TransferHdr, n: Message, ndr: TransferHdr, now: int) {
    && Fresh(s) && s.seen == map[] && (forall k | k in s.store :: KindOf(k) == OtherKind)
    && TwoMessages(cfg, s.chains, m, hdr, n, ndr) && m.emitterChain in s.chains
    && s.chains[m.emitterChain].bigTransactionSize == 0
    && now % NANOS == 0 && s.clock <= now - DAY + HALF && DAY <= now && Unix(now) < 0x1_0000_0000
  }

  /** After the restart the second message is as free as the first one was. */
  lemma FreeAgain(cfg: Config, s: State, m: Message, hdr: TransferHdr, n: Message, ndr: TransferHdr, now: int,
        order: seq<Text>, cs: Chains)
    requires Scene(cfg, s, m, hdr, n, ndr, now)
    requires var l := FirstLife(s.chains[m.emitterChain].dailyLimit, m, order, cs, now);
      && IsRun(cfg, s, l.ops) && Enumerates(order, After(cfg, s, l.ops).store)
      && EmptyLists(cs) && SameConfig(After(cfg, s, l.ops).chains, cs)
    ensures var l := FirstLife(s.chains[m.emitterChain].dailyLimit, m, order, cs, now);
      var t := Next(cfg, s, l);
      && CanRestart(After(cfg, s, l.ops), l) && TrustedRun(l.ops, Either(m, n))
      && Free(cfg, t, n, ndr) && t.clock == now && t.chains[n.emitterChain].dailyLimit ==
         s.chains[m.emitterChain].dailyLimit
      && t.history[n.emitterChain] == []
  {
    hide KindOf, HashFromMsg, ParseMsg, IsRun, After, Loaded, EmptyLists, SameConfig, Enumerates, Enqueued, IdOfMessage,
      SeenAgrees, EntriesMatch, OneHashPerId, Stopped, Inv, Cut, ListedIn, Ordered, InEpoch;
    var c, trusted := m.emitterChain, Either(m, n);
    var limit := s.chains[c].dailyLimit;
    var l := FirstLife(limit, m, order, cs, now);
    FirstEnd(cfg, s, m, hdr, now);
    EitherOneHash(cfg, m, n);
    RunStops(cfg, s, trusted, l.ops, order, cs);
    var end := After(cfg, s, l.ops);
    var x := NewTransfer(cfg, m, hdr, limit, now - DAY + HALF);
    DroppedEarly(x, now);
    OnlyOneListed(s, end, c, x);
    OneComplete(HashFromMsg(cfg, m));
    NothingLoaded(cfg, end, trusted, order, cs, now);
    var t := Next(cfg, s, l);
    LoadedConfig(cfg, end, trusted, order, cs, now);
    LoadedAgrees(cfg, cs, end.store, order, now);
    ParsesElsewhere(cfg, end.chains, t.chains, n);
    SameConfigKeys(end.chains, t.chains);
    ParsesWithList(cfg, s.chains, c, [x], n);
    EpochOfOne(s, end, c, x);
  }

  lemma EpochOfOne(s: State, end: State, c: uint16, x: Transfer)
    requires Fresh(s) && c in s.chains && end.history == s.history[c := [x]]
    requires 0 <= Unix(x.timestamp) < 0x1_0000_0000
    ensures forall d | d in end.history :: InEpoch(end.history[d])
  {
    forall d | d in end.history
      ensures d == c || end.history[d] == []
    {
      assert d in s.history.Keys;
    }
  }

  lemma OnlyOneListed(s: State, end: State, c: uint16, x: Transfer)
    requires Fresh(s) && c in s.chains && end.chains == s.chains[c := s.chains[c].(transfers := [x])]
    ensures forall d, t | ListedIn(end.chains, d, t) :: t == x
  {
  }

  lemma OneComplete(h: Text)
    ensures var seen: Seen := map[h := true]; Enqueued(seen) == {}
  {
  }

  lemma ParsesWithList(cfg: Config, cs: Chains, c: uint16, ts: seq<Transfer>, n: Message)
    requires c in cs
    ensures ParseMsg(cfg, cs[c := cs[c].(transfers := ts)], n) == ParseMsg(cfg, cs, n)
  {
    hide DecodeTransferHdr;
  }

  // ---------------------------------------------------------------- twice the limit in a day

  /** A governor counts a transfer worth its daily limit. Half a second before that transfer is a day
      old it is restarted at a whole second, and counts another one worth the limit. So within less
      than a day it lets through twice the limit. */
  lemma TwiceTheLimit(cfg: Config, s: State, m: Message, hdr: TransferHdr, n: Message, ndr: TransferHdr, now: int,
        order: seq<Text>, cs: Chains)
    requires Scene(cfg, s, m, hdr, n, ndr, now)
    requires var l := FirstLife(s.chains[m.emitterChain].dailyLimit, m, order, cs, now);
      IsRun(cfg, s, l.ops) ==>
        && Enumerates(order, After(cfg, s, l.ops).store)
        && EmptyLists(cs) && SameConfig(After(cfg, s, l.ops).chains, cs)
    ensures var c := m.emitterChain;
      var limit := s.chains[c].dailyLimit;
      var lives, last := [FirstLife(limit, m, order, cs, now)], [Process(n, now, Always(limit))];
      && Lives(cfg, s, Either(m, n), lives, last)
      && SumBetween(Counted(cfg, s, Either(m, n), lives, last, c), now - DAY + HALF, now) == 2 * limit
  {
    hide KindOf, HashFromMsg, ParseMsg, Loaded, EmptyLists, SameConfig, Enumerates, IdOfMessage, Next, CanRestart,
      TrustedRun, IsRun, After, Lives, Counted, Added, Free, SumBetween, Fresh;
    var c := m.emitterChain;
    var limit := s.chains[c].dailyLimit;
    var l, op := FirstLife(limit, m, order, cs, now), Process(n, now, Always(limit));
    FirstAdded(cfg, s, m, hdr, now);
    FreeAgain(cfg, s, m, hdr, n, ndr, now, order, cs);
    var t := Next(cfg, s, l);
    NextAdded(cfg, t, n, ndr, now);
    EitherTrusted(m, n, op);
    OneRestart(cfg, s, Either(m, n), l, [op], c);
    var x, y := NewTransfer(cfg, m, hdr, limit, now - DAY + HALF), NewTransfer(cfg, n, ndr, limit, now);
    SumOfTwo(x, y, now - DAY + HALF, now);
  }

  lemma FirstAdded(cfg: Config, s: State, m: Message, hdr: TransferHdr, now: int)
    requires Fresh(s) && s.seen == map[] && ParseMsg(cfg, s.chains, m) == Applies(hdr) && s.clock <= now - DAY + HALF
    requires m.emitterChain in s.chains && s.chains[m.emitterChain].bigTransactionSize == 0
    ensures var c := m.emitterChain;
      var op := Process(m, now - DAY + HALF, Always(s.chains[c].dailyLimit));
      IsRun(cfg, s, [op]) && Added(cfg, s, [op], c) == [NewTransfer(cfg, m, hdr, s.chains[c].dailyLimit, op.now)]
  {
    hide HashFromMsg, ParseMsg, IsRun, After, NewTransfer;
    FirstEnd(cfg, s, m, hdr, now);
    var c := m.emitterChain;
    var x := NewTransfer(cfg, m, hdr, s.chains[c].dailyLimit, now - DAY + HALF);
    assert s.history[c] == [] && [x][0..] == [x];
  }

  lemma NextAdded(cfg: Config, s: State, n: Message, ndr: TransferHdr, now: int)
    requires Free(cfg, s, n, ndr) && s.clock == now && s.history[n.emitterChain] == []
    ensures var c := n.emitterChain;
      var op := Process(n, now, Always(s.chains[c].dailyLimit));
      IsRun(cfg, s, [op]) && Added(cfg, s, [op], c) == [NewTransfer(cfg, n, ndr, s.chains[c].dailyLimit, now)]
  {
    hide HashFromMsg, ParseMsg, IsRun, After, Processed, Recorded, Trimmed;
    var c := n.emitterChain;
    var limit := s.chains[c].dailyLimit;
    var y, op := NewTransfer(cfg, n, ndr, limit, now), Process(n, now, Always(limit));
    FreeIsCounted(cfg, s, n, ndr, now);
    CountedAlone(cfg, s, c, y, now);
    OneOp(cfg, s, op);
    assert [] + [y] == [y] && [y][0..] == [y];
  }

  lemma OneRestart(cfg: Config, s: State, trusted: Message -> bool, l: Life, last: seq<Op>, c: uint16)
    requires IsRun(cfg, s, l.ops) && TrustedRun(l.ops, trusted) && CanRestart(After(cfg, s, l.ops), l)
    requires IsRun(cfg, Next(cfg, s, l), last) && TrustedRun(last, trusted)
    ensures Lives(cfg, s, trusted, [l], last)
    ensures Counted(cfg, s, trusted, [l], last, c) == Added(cfg, s, l.ops, c) + Added(cfg, Next(cfg, s, l), last, c)
  {
    hide IsRun, TrustedRun, CanRestart, After, Next, Added;
    assert [l][1..] == [];
  }

  lemma EitherTrusted(m: Message, n: Message, op: Op)
    requires op.Process? && op.m == n
    ensures TrustedRun([op], Either(m, n))
  {
  }

  lemma SumOfTwo(x: Transfer, y: Transfer, lo: int, hi: int)
    requires lo <= x.timestamp <= hi && lo <= y.timestamp <= hi
    ensures SumBetween([x] + [y], lo, hi) == x.value + y.value
  {
    BetweenSplit([x], [y], lo, hi);
    BetweenOne(x, lo, hi);
    BetweenOne(y, lo, hi);
  }
}
