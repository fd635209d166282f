/** Runs of the chain governor: any messages and any checks, in any order, at times that do not go
    back and at whatever prices hold at the moment. */
module GovernorRuns {
  import opened Binary
  import opened Vaa
  import opened Keys
  import opened Publication
  import opened Transfers
  import opened GovernorDb
  import opened Scans
  import opened Window
  import opened Governor
  import opened GovernorState
  import opened Reload
  import opened GovernorNode

  datatype Op = Process(m: Message, now: int, prices: Prices) | Check(order: seq<uint16>, now: int, prices: Prices)

  ghost predicate Possible(s: State, op: Op) {
    && s.history.Keys == s.chains.Keys && s.clock <= op.now
    && (op.Check? ==> forall c | c in op.order :: c in s.chains)
  }

  ghost function Apply(cfg: Config, s: State, op: Op): State
    requires Possible(s, op)
  {
    match op
    case Process(m, now, prices) => Processed(cfg, s, m, now, prices).0
    case Check(order, now, prices) => DrainAll(s.(clock := now), order, prices).0
  }

  ghost predicate IsRun(cfg: Config, s: State, ops: seq<Op>)
    decreases |ops|
  {
    ops == [] || (Possible(s, ops[0]) && IsRun(cfg, Apply(cfg, s, ops[0]), ops[1..]))
  }

  ghost function After(cfg: Config, s: State, ops: seq<Op>): State
    requires IsRun(cfg, s, ops)
    decreases |ops|
  {
    if ops == [] then s else After(cfg, Apply(cfg, s, ops[0]), ops[1..])
  }

  lemma OpKeeps(cfg: Config, s: State, base: map<uint16, nat>, op: Op)
    requires Inv(cfg, s, base) && Possible(s, op)
    ensures Inv(cfg, Apply(cfg, s, op), base)
  {
    hide Inv, Processed, DrainAll;
    match op
    case Process(m, now, prices) => ProcessedKeeps(cfg, s, base, m, now, prices);
    case Check(order, now, prices) =>
      TickKeeps(cfg, s, base, now);
      DrainAllKeeps(cfg, s.(clock := now), base, order, prices);
  }

  /** On every run the index agrees with the lists and every chain keeps to its limit. */
  lemma {:induction false} RunKeeps(cfg: Config, s: State, base: map<uint16, nat>, ops: seq<Op>)
    requires Inv(cfg, s, base) && IsRun(cfg, s, ops)
    ensures Inv(cfg, After(cfg, s, ops), base)
    decreases |ops|
  {
    hide Inv, Apply, Possible;
    if ops != [] {
      OpKeeps(cfg, s, base, ops[0]);
      RunKeeps(cfg, Apply(cfg, s, ops[0]), base, ops[1..]);
    }
  }

  // ---------------------------------------------------------------- the limit

  /** The configuration of the chains does not change. */
  ghost predicate SameLimits(s: State, t: State) {
    t.chains.Keys == s.chains.Keys && forall c | c in s.chains :: t.chains[c].dailyLimit == s.chains[c].dailyLimit
  }

  /** What is counted is added to the history with the time of the moment. */
  ghost predicate Grows(h: seq<Transfer>, g: seq<Transfer>, clock: int) {
    |h| <= |g| && h == g[..|h|] && forall i | |h| <= i < |g| :: g[i].timestamp >= clock
  }

  ghost predicate Advances(s: State, t: State) {
    && s.clock <= t.clock && t.history.Keys == s.history.Keys
    && forall c | c in s.history :: Grows(s.history[c], t.history[c], s.clock)
  }

  lemma AdvancesFurther(s: State, t: State, u: State)
    requires Advances(s, t) && Advances(t, u)
    ensures Advances(s, u)
  {
    forall c | c in s.history
      ensures Grows(s.history[c], u.history[c], s.clock)
    {
      var h, g, f := s.history[c], t.history[c], u.history[c];
      assert f[..|h|] == g[..|h|];
      assert forall i | |h| <= i < |g| :: f[i] == g[i];
    }
  }

  lemma ProcessedLimits(cfg: Config, s: State, m: Message, now: int, prices: Prices)
    requires s.history.Keys == s.chains.Keys
    ensures SameLimits(s, Processed(cfg, s, m, now, prices).0)
  {
    hide HashFromMsg, DecodeTransferHdr, NewKey, Encoded, SumSince, Expired, Judge, NewTransfer, NewPending, Hashes,
      TransferKeys;
  }

  lemma ProcessedAdvances(cfg: Config, s: State, m: Message, now: int, prices: Prices)
    requires s.history.Keys == s.chains.Keys && s.clock <= now
    ensures Advances(s, Processed(cfg, s, m, now, prices).0)
  {
    hide HashFromMsg, ParseMsg, SumSince, Judge, Enter, Trimmed, Grows;
    forall h: seq<Transfer>
      ensures Grows(h, h, s.clock)
    {
      GrowsNot(h, s.clock);
    }
    var t := s.(clock := now);
    assert Advances(s, t);
    if ParseMsg(cfg, t.chains, m).Applies? && HashFromMsg(cfg, m) !in t.seen {
      var hdr := ParseMsg(cfg, t.chains, m).hdr;
      var c := m.emitterChain;
      AppliesHere(cfg, t.chains, m, hdr);
      SameChain(t, c);
      var j := Judge(t.chains[c], TotalOf(t, c), prices(hdr.amount, TokenOf(hdr)));
      EnterAdvances(cfg, Trimmed(t, c), m, hdr, j);
      AdvancesFurther(s, Trimmed(t, c), Enter(cfg, Trimmed(t, c), m, hdr, j));
    }
  }

  lemma EnterAdvances(cfg: Config, s: State, m: Message, hdr: TransferHdr, j: Judgement)
    requires m.emitterChain in s.chains && m.emitterChain in s.history
    ensures Advances(s, Enter(cfg, s, m, hdr, j))
  {
    hide HashFromMsg, NewKey, Encoded, NewPending;
  }

  lemma RoundAdvances(s: State, c: uint16, prices: Prices)
    requires Ready(s, c)
    ensures Advances(s, RoundOf(s, c, prices).0)
  {
    SameChain(s, c);
    var t := Trimmed(s, c);
    hide FateOf, FirstMoving, Trimmed, Released, SumSince, DecodeTransferHdr, Grows;
    forall h: seq<Transfer>
      ensures Grows(h, h, s.clock)
    {
      GrowsNot(h, s.clock);
    }
    var ce := t.chains[c];
    var i := FirstMoving(ce, TotalOf(s, c), s.clock, prices, 0);
    if i < |ce.pending| {
      var pe := ce.pending[i];
      var fate := FateOf(ce, pe, TotalOf(s, c), s.clock, prices);
      var hdr := DecodeTransferHdr(pe.dbData.msg.payload);
      if fate.Goes? {
        ReleaseAdvances(t, c, i,
          if hdr.Some? && fate.counts then Some(TransferOf(pe, hdr.value, fate.value, s.clock)) else None);
      }
    }
  }

  lemma GrowsNot(h: seq<Transfer>, clock: int)
    ensures Grows(h, h, clock)
  {
  }

  lemma ReleaseAdvances(s: State, c: uint16, i: nat, counted: Option<Transfer>)
    requires c in s.chains && i < |s.chains[c].pending| && c in s.history
    requires counted.Some? ==> counted.value.timestamp == s.clock
    ensures Advances(s, Released(s, c, i, counted))
  {
    hide NewKey, Encoded;
  }

  lemma {:induction false} DrainAdvances(s: State, c: uint16, prices: Prices)
    requires Ready(s, c)
    ensures Advances(s, Drain(s, c, prices).0)
    decreases |s.chains[c].pending|
  {
    hide RoundOf, Advances;
    RoundShrinks(s, c, prices);
    RoundAdvances(s, c, prices);
    var (t, r) := RoundOf(s, c, prices);
    if r.Sent? || r.Dropped? {
      DrainAdvances(t, c, prices);
      AdvancesFurther(s, t, Drain(t, c, prices).0);
    }
  }

  lemma {:induction false} DrainAllAdvances(s: State, order: seq<uint16>, prices: Prices)
    requires s.history.Keys == s.chains.Keys && forall c | c in order :: c in s.chains
    ensures Advances(s, DrainAll(s, order, prices).0)
    decreases |order|
  {
    hide Drain;
    if order != [] {
      DrainReady(s, order[0], prices);
      DrainAdvances(s, order[0], prices);
      var t := Drain(s, order[0], prices).0;
      if Drain(s, order[0], prices).2 {
        DrainAllAdvances(t, order[1..], prices);
        AdvancesFurther(s, t, DrainAll(t, order[1..], prices).0);
      }
    }
  }

  /** A run only adds to the history, and only what it counts itself. */
  lemma {:induction false} RunAdvances(cfg: Config, s: State, ops: seq<Op>)
    requires IsRun(cfg, s, ops)
    ensures Advances(s, After(cfg, s, ops))
    decreases |ops|
  {
    hide Processed, DrainAll;
    if ops != [] {
      var t := Apply(cfg, s, ops[0]);
      match ops[0] {
        case Process(m, now, prices) => ProcessedAdvances(cfg, s, m, now, prices);
        case Check(order, now, prices) =>
          DrainAllAdvances(s.(clock := now), order, prices);
          assert Advances(s, s.(clock := now));
          AdvancesFurther(s, s.(clock := now), t);
      }
      RunAdvances(cfg, t, ops[1..]);
      AdvancesFurther(s, t, After(cfg, s, ops));
    }
  }

  lemma RoundLimits(s: State, c: uint16, prices: Prices)
    requires Ready(s, c)
    ensures SameLimits(s, RoundOf(s, c, prices).0)
  {
    RoundShrinks(s, c, prices);
    hide FateOf, FirstMoving, Expired, NewKey, Encoded, SumSince, DecodeTransferHdr, Hashes, TransferKeys;
  }

  lemma {:induction false} DrainLimits(s: State, c: uint16, prices: Prices)
    requires Ready(s, c)
    ensures SameLimits(s, Drain(s, c, prices).0)
    decreases |s.chains[c].pending|
  {
    hide RoundOf;
    RoundShrinks(s, c, prices);
    RoundLimits(s, c, prices);
    var (t, r) := RoundOf(s, c, prices);
    if r.Sent? || r.Dropped? {
      DrainLimits(t, c, prices);
    }
  }

  lemma {:induction false} DrainAllLimits(s: State, order: seq<uint16>, prices: Prices)
    requires s.history.Keys == s.chains.Keys && forall c | c in order :: c in s.chains
    ensures SameLimits(s, DrainAll(s, order, prices).0)
    decreases |order|
  {
    hide Drain;
    if order != [] {
      DrainReady(s, order[0], prices);
      DrainLimits(s, order[0], prices);
      if Drain(s, order[0], prices).2 {
        DrainAllLimits(Drain(s, order[0], prices).0, order[1..], prices);
      }
    }
  }

  lemma {:induction false} RunLimits(cfg: Config, s: State, ops: seq<Op>)
    requires IsRun(cfg, s, ops)
    ensures SameLimits(s, After(cfg, s, ops))
    decreases |ops|
  {
    hide Processed, DrainAll;
    if ops != [] {
      match ops[0] {
        case Process(m, now, prices) => ProcessedLimits(cfg, s, m, now, prices);
        case Check(order, now, prices) => DrainAllLimits(s.(clock := now), order, prices);
      }
      RunLimits(cfg, Apply(cfg, s, ops[0]), ops[1..]);
    }
  }

  /** On every run of a governor that starts empty, and for every chain, the transfers counted in
      any stretch of a day, wherever it begins, are worth no more than the daily limit. */
  lemma DailyLimitOnEveryRun(cfg: Config, s: State, ops: seq<Op>, c: uint16, lo: int)
    requires Fresh(s) && s.seen == map[] && IsRun(cfg, s, ops) && c in s.chains
    ensures c in After(cfg, s, ops).history
    ensures SumBetween(After(cfg, s, ops).history[c], lo, lo + DAY) <= s.chains[c].dailyLimit
  {
    hide SumBetween, IsRun, After;
    FreshInv(cfg, s);
    hide Fresh;
    RunKeeps(cfg, s, map c | c in s.chains :: 0, ops);
    RunLimits(cfg, s, ops);
    var end := After(cfg, s, ops);
    EveryDayLimited(end.history[c], end.chains[c].dailyLimit, lo);
  }

  /** A governor that starts from any list that was reloaded, of which the first base[c] transfers of
      chain c were counted before: a day that ends after a new transfer is within the limit, and any
      other day is worth what the reloaded transfers are worth in it. So all days are within the
      limit exactly if those of the reloaded list are. */
  lemma DailyLimitAfterReload(cfg: Config, s: State, base: map<uint16, nat>, ops: seq<Op>, c: uint16)
    requires Inv(cfg, s, base) && IsRun(cfg, s, ops) && c in s.chains && c in base && c in s.history
    requires base[c] <= |s.history[c]|
    ensures c in After(cfg, s, ops).history && base[c] <= |After(cfg, s, ops).history[c]|
    ensures var h, limit := After(cfg, s, ops).history[c], s.chains[c].dailyLimit;
      forall lo, hi | hi == lo + DAY ::
        if exists t :: t in h[base[c]..] && t.timestamp <= hi then SumBetween(h, lo, hi) <= limit
        else SumBetween(h, lo, hi) == SumBetween(s.history[c][..base[c]], lo, hi)
    ensures var h, limit := After(cfg, s, ops).history[c], s.chains[c].dailyLimit;
      (forall lo, hi | hi == lo + DAY :: SumBetween(h, lo, hi) <= limit) <==>
        forall lo, hi | hi == lo + DAY :: SumBetween(s.history[c][..base[c]], lo, hi) <= limit
  {
    hide SumBetween, IsRun, After, Limited, Ordered, Inv, Grows;
    RunKeeps(cfg, s, base, ops);
    RunLimits(cfg, s, ops);
    RunAdvances(cfg, s, ops);
    var h := After(cfg, s, ops).history[c];
    LimitedSince(cfg, After(cfg, s, ops), base, c);
    GrowsPrefix(s.history[c], h, s.clock, base[c]);
    DaysExactly(h, base[c], s.chains[c].dailyLimit);
  }

  lemma LimitedSince(cfg: Config, s: State, base: map<uint16, nat>, c: uint16)
    requires Inv(cfg, s, base) && c in s.chains
    ensures c in base && c in s.history && Ordered(s.history[c])
      && Limited(s.history[c], base[c], s.chains[c].dailyLimit)
  {
    hide SeenAgrees, EntriesMatch, Limited, Ordered;
  }

  lemma GrowsPrefix(h: seq<Transfer>, g: seq<Transfer>, clock: int, n: nat)
    requires Grows(h, g, clock) && n <= |h|
    ensures n <= |g| && g[..n] == h[..n]
  {
  }

  /** The state that a load leaves is one that runs can start from exactly if no transfer that was
      reloaded is from the future and the values that were reloaded can be added up. */
  lemma ReloadStartsRun(cfg: Config, cs: Chains, store: Store, order: seq<Text>, now: int)
    requires EmptyLists(cs)
    ensures var s := Loaded(cfg, cs, store, order, now);
      Inv(cfg, s, map c | c in s.chains :: |s.chains[c].transfers|) <==> forall c | c in s.chains ::
        Sum(s.chains[c].transfers) < UINT64 && forall t | t in s.chains[c].transfers :: t.timestamp <= now
  {
    hide SeenAgrees, EntriesMatch, Sum, EmptyLists, Loaded, Inv;
    LoadedAgrees(cfg, cs, store, order, now);
    StartsRun(cfg, Loaded(cfg, cs, store, order, now));
  }

  /** A state whose history is what is listed. */
  lemma StartsRun(cfg: Config, s: State)
    requires SeenAgrees(s.chains, s.seen) && EntriesMatch(cfg, s.chains) && s.history.Keys == s.chains.Keys
    requires forall c | c in s.chains :: s.history[c] == s.chains[c].transfers && Ordered(s.chains[c].transfers)
    ensures Inv(cfg, s, map c | c in s.chains :: |s.chains[c].transfers|) <==> forall c | c in s.chains ::
      Sum(s.chains[c].transfers) < UINT64 && forall t | t in s.chains[c].transfers :: t.timestamp <= s.clock
  {
    hide SeenAgrees, EntriesMatch, Sum, Tracks, Ordered;
    forall c | c in s.chains
      ensures Tracks(s.chains[c], s.history[c], |s.chains[c].transfers|, s.clock) <==>
        Sum(s.chains[c].transfers) < UINT64 && forall t | t in s.chains[c].transfers :: t.timestamp <= s.clock
    {
      StartTracks(s.chains[c], s.clock);
    }
  }

  lemma LoadedAgrees(cfg: Config, cs: Chains, store: Store, order: seq<Text>, now: int)
    requires EmptyLists(cs)
    ensures var s := Loaded(cfg, cs, store, order, now);
      && SeenAgrees(s.chains, s.seen) && EntriesMatch(cfg, s.chains) && s.clock == now
      && s.history.Keys == s.chains.Keys
      && forall c | c in s.chains :: s.history[c] == s.chains[c].transfers && Ordered(s.chains[c].transfers)
  {
    hide SeenAgrees, EntriesMatch, Rebuilt, PendingFrom, EmptyLists, StoredPendings, StoredTransfers, AfterLoad, Stale,
      TransferKeys, KnownPending, KnownTransfer, ListedHash, TransfersFrom, SameConfig, Enqueued, Ordered;
    var ts := StoredTransfers(store, order);
    ReloadRebuilds(cfg, cs, StoredPendings(store, order), ts, now);
    var s := Loaded(cfg, cs, store, order, now);
    forall c | c in s.chains
      ensures Ordered(s.chains[c].transfers)
    {
      ReloadedInOrder(s.chains, ts, c);
    }
  }

  lemma ReloadedInOrder(cs: Chains, ts: seq<Transfer>, c: uint16)
    requires TransfersFrom(cs, ts) && c in cs
    ensures Ordered(cs[c].transfers)
  {
  }

  lemma StartTracks(ce: ChainEntry, now: int)
    requires Ordered(ce.transfers)
    ensures Tracks(ce, ce.transfers, |ce.transfers|, now) <==>
      Sum(ce.transfers) < UINT64 && forall t | t in ce.transfers :: t.timestamp <= now
  {
    hide Sum, Ordered;
    assert ce.transfers[0..] == ce.transfers;
  }

  // ---------------------------------------------------------------- the queues

  /** The operation holds back a new message with hash h. */
  ghost predicate Enters(cfg: Config, s: State, op: Op, h: Text)
    requires Possible(s, op)
  {
    op.Process? && h == HashFromMsg(cfg, op.m) && h !in s.seen && Processed(cfg, s, op.m, op.now, op.prices).1 == Hold
  }

  /** The operation takes a message with hash h out of a queue to be published. */
  ghost predicate Leaves(cfg: Config, s: State, op: Op, h: Text)
    requires Possible(s, op)
  {
    op.Check? && h in MsgHashes(cfg, DrainAll(s.(clock := op.now), op.order, op.prices).1)
  }

  ghost function Entries(cfg: Config, s: State, ops: seq<Op>, h: Text): nat
    requires IsRun(cfg, s, ops)
    decreases |ops|
  {
    if ops == [] then 0 else One(Enters(cfg, s, ops[0], h)) + Entries(cfg, Apply(cfg, s, ops[0]), ops[1..], h)
  }

  ghost function Exits(cfg: Config, s: State, ops: seq<Op>, h: Text): nat
    requires IsRun(cfg, s, ops)
    decreases |ops|
  {
    if ops == [] then 0 else One(Leaves(cfg, s, ops[0], h)) + Exits(cfg, Apply(cfg, s, ops[0]), ops[1..], h)
  }

  lemma EnterSeen(cfg: Config, s: State, m: Message, hdr: TransferHdr, j: Judgement)
    requires m.emitterChain in s.chains && m.emitterChain in s.history && HashFromMsg(cfg, m) !in s.seen
    ensures var h := HashFromMsg(cfg, m);
      Enqueued(Enter(cfg, s, m, hdr, j).seen) == if j.Queues? then Enqueued(s.seen) + {h} else Enqueued(s.seen)
  {
    hide HashFromMsg;
  }

  lemma ProcessConserves(cfg: Config, s: State, base: map<uint16, nat>, op: Op, h: Text)
    requires Inv(cfg, s, base) && op.Process? && Possible(s, op)
    ensures h in Enqueued(Apply(cfg, s, op).seen) <==> h in Enqueued(s.seen) || Enters(cfg, s, op, h)
    ensures Enters(cfg, s, op, h) ==> h !in Enqueued(s.seen)
  {
    hide Inv, HashFromMsg, Trimmed, Enter, ParseMsg, SumSince, Judge;
    var t := s.(clock := op.now);
    TickKeeps(cfg, s, base, op.now);
    if ParseMsg(cfg, t.chains, op.m).Applies? && HashFromMsg(cfg, op.m) !in t.seen {
      var hdr := ParseMsg(cfg, t.chains, op.m).hdr;
      var c := op.m.emitterChain;
      AppliesHere(cfg, t.chains, op.m, hdr);
      TrimConserves(cfg, t, base, c);
      TrimmedParses(cfg, t, c, op.m);
      var j := Judge(t.chains[c], TotalOf(t, c), op.prices(hdr.amount, TokenOf(hdr)));
      EnterSeen(cfg, Trimmed(t, c), op.m, hdr, j);
    }
  }

  lemma OpConserves(cfg: Config, s: State, base: map<uint16, nat>, op: Op, h: Text)
    requires Inv(cfg, s, base) && Possible(s, op)
    ensures One(h in Enqueued(s.seen)) + One(Enters(cfg, s, op, h)) ==
            One(Leaves(cfg, s, op, h)) + One(h in Enqueued(Apply(cfg, s, op).seen))
  {
    hide Inv, HashFromMsg, Enqueued, Processed, DrainAll;
    if op.Process? {
      ProcessConserves(cfg, s, base, op, h);
    } else {
      TickKeeps(cfg, s, base, op.now);
      DrainAllKeeps(cfg, s.(clock := op.now), base, op.order, op.prices);
    }
  }

  /** On every run a message leaves the queues exactly as often as it enters them, but for those
      waiting at the start or at the end: none is lost and none is released twice. */
  lemma {:induction false} QueueConserved(cfg: Config, s: State, base: map<uint16, nat>, ops: seq<Op>, h: Text)
    requires Inv(cfg, s, base) && IsRun(cfg, s, ops)
    ensures One(h in Enqueued(s.seen)) + Entries(cfg, s, ops, h) ==
            Exits(cfg, s, ops, h) + One(h in Enqueued(After(cfg, s, ops).seen))
    decreases |ops|
  {
    hide Inv, Apply, Possible, Enters, Leaves, Enqueued;
    if ops != [] {
      OpKeeps(cfg, s, base, ops[0]);
      OpConserves(cfg, s, base, ops[0], h);
      QueueConserved(cfg, Apply(cfg, s, ops[0]), base, ops[1..], h);
    }
  }
}
