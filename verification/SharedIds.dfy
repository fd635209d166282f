/** Two messages with one id: the store keys pending transfers by message id, so the record of the
    second overwrites that of the first, and a restart then forgets the first. */
module SharedIds {
  import opened Binary
  import opened Vaa
  import opened Keys
  import opened Publication
  import opened Transfers
  import opened GovernorDb
  import opened Scans
  import opened Window
  import opened Governor
  import opened GovernorState
  import opened Reload
  import opened GovernorNode
  import opened GovernorRuns
  import opened Migration
  import opened TransferFiles
  import opened Restart
  import opened AcrossRestart

  /** What a load enqueues comes from a stored pending transfer, and every known one is enqueued. */
  lemma LoadEnqueues(cfg: Config, cs: Chains, store: Store, order: seq<Text>, now: int)
    requires EmptyLists(cs)
    ensures var seen := Loaded(cfg, cs, store, order, now).seen;
      && (forall h | h in Enqueued(seen) ::
            exists q :: q in StoredPendings(store, order) && HashFromMsg(cfg, q.msg) == h)
      && (forall q | q in StoredPendings(store, order) && KnownPending(cfg, cs, q) ::
            HashFromMsg(cfg, q.msg) in Enqueued(seen))
  {
    hide Rebuilt, EmptyLists, StoredPendings, StoredTransfers, AfterLoad, Stale, TransferKeys, KnownPending,
      KnownTransfer, ListedHash, SameConfig, Enqueued, TransfersFrom, PendingFrom, SeenAgrees, EntriesMatch,
        HashFromMsg,
      InQueue;
    var ps := StoredPendings(store, order);
    ReloadRebuilds(cfg, cs, ps, StoredTransfers(store, order), now);
    var t := Loaded(cfg, cs, store, order, now);
    forall h | h in Enqueued(t.seen)
      ensures exists q :: q in ps && HashFromMsg(cfg, q.msg) == h
    {
      var q := EnqueuedIsQueued(cfg, t.chains, t.seen, h);
      FromStoreInQueue(t.chains, ps, q);
    }
  }

  lemma StoredAt(store: Store, order: seq<Text>, k: Text, q: PendingTransfer)
    requires Enumerates(order, store) && KindOf(k) == PendingKind && At(store, k, Pending(q))
    ensures q in StoredPendings(store, order)
  {
    hide KindOf, ReadEntry, Collect, PendingsOf;
    Collected(store, order, PENDING_KINDS, k, Pending(q));
    PendingsOfHolds(Collect(store, order, PENDING_KINDS), q);
  }

  lemma StoredFrom(store: Store, order: seq<Text>, q: PendingTransfer) returns (k: Text)
    requires Enumerates(order, store) && q in StoredPendings(store, order)
    ensures k in store && KindOf(k) in PENDING_KINDS && At(store, k, Pending(q))
  {
    hide KindOf, ReadEntry, Collect, PendingsOf;
    PendingsOfHolds(Collect(store, order, PENDING_KINDS), q);
    k := CollectedFrom(store, order, PENDING_KINDS, Pending(q));
  }

  /** A message that is to be queued, which has not been seen before. */
  ghost predicate MayQueue(cfg: Config, s: State, c: uint16, pe: PendingEntry) {
    && c in s.chains && pe.hash !in s.seen && EntryMatches(cfg, c, pe) && KnownPending(cfg, s.chains, pe.dbData)
  }

  /** The new record, which replaces the one under its key. */
  lemma NewRecord(cfg: Config, s: State, c: uint16, pe: PendingEntry)
    requires MayQueue(cfg, s, c, pe)
    ensures c in s.chains
    ensures var t := Queued(s, c, pe);
      && t.store == s.store[PendingKey(pe.dbData) := Encoded(Pending(pe.dbData))]
      && KindOf(PendingKey(pe.dbData)) == PendingKind
      && At(t.store, PendingKey(pe.dbData), Pending(ReloadedPending(pe.dbData)))
  {
    KindOfPendingKey(pe.dbData);
    DecodeOfEncodePending(pe.dbData);
    hide EncodePending, DecodePending, MessageIDString, KindOf;
  }

  /** A queued message whose record a new entry overwrites. */
  ghost predicate Overwritten(cfg: Config, s: State, pe: PendingEntry, h: Text) {
    exists p :: InQueue(s.chains, p) && PendingKey(p) == PendingKey(pe.dbData) && HashFromMsg(cfg, p.msg) == h
  }

  lemma SurvivorFrom(cfg: Config, s: State, trusted: Message -> bool, c: uint16, pe: PendingEntry, order: seq<Text>,
        q: PendingTransfer)
    requires Mirrors(cfg, s, trusted) && MayQueue(cfg, s, c, pe)
    requires c in s.chains && Enumerates(order, Queued(s, c, pe).store)
    requires q in StoredPendings(Queued(s, c, pe).store, order)
    ensures || q == ReloadedPending(pe.dbData)
      || exists p :: InQueue(s.chains, p) && PendingKey(p) != PendingKey(pe.dbData) && q == ReloadedPending(p)
  {
    hide MayQueue, Mirrors, StoredPendings, ReloadedPending, PendingKey, Queued, InQueue, KindOf, Encoded, ReadEntry;
    NewRecord(cfg, s, c, pe);
    MirrorReadable(cfg, s, trusted);
    var t := Queued(s, c, pe);
    var k := StoredFrom(t.store, order, q);
    if k != PendingKey(pe.dbData) {
      var p := RecordOwner(cfg, s, trusted, k);
      QueuedReadsBack(cfg, s, trusted, p);
    }
  }

  lemma RecordOwner(cfg: Config, s: State, trusted: Message -> bool, k: Text) returns (p: PendingTransfer)
    requires Mirrors(cfg, s, trusted) && k in s.store && KindOf(k) == PendingKind
    ensures InQueue(s.chains, p) && PendingKey(p) == k
  {
    hide InQueue, OnRecord, KnownPending, KindOf, ReadEntry, PendingKey;
    p :| InQueue(s.chains, p) && PendingKey(p) == k;
  }

  lemma Survives(cfg: Config, s: State, trusted: Message -> bool, c: uint16, pe: PendingEntry, order: seq<Text>,
        p: PendingTransfer)
    requires Mirrors(cfg, s, trusted) && MayQueue(cfg, s, c, pe) && Enumerates(order, Queued(s, c, pe).store)
    requires p == pe.dbData || (InQueue(s.chains, p) && PendingKey(p) != PendingKey(pe.dbData))
    ensures ReloadedPending(p) in StoredPendings(Queued(s, c, pe).store, order)
  {
    hide MayQueue, Mirrors, StoredPendings, ReloadedPending, PendingKey, Queued, InQueue, KindOf, Encoded, ReadEntry;
    NewRecord(cfg, s, c, pe);
    KindOfPendingKey(p);
    if p != pe.dbData {
      QueuedReadsBack(cfg, s, trusted, p);
    }
    StoredAt(Queued(s, c, pe).store, order, PendingKey(p), ReloadedPending(p));
  }

  /** A restart right after a message has been queued finds exactly the messages that are waiting,
      except one with the same id that was waiting before. */
  lemma OverwrittenIsLost(cfg: Config, s: State, trusted: Message -> bool, c: uint16, pe: PendingEntry,
        order: seq<Text>, cs: Chains, now: int, h: Text)
    requires SeenAgrees(s.chains, s.seen) && EntriesMatch(cfg, s.chains) && Mirrors(cfg, s, trusted)
    requires MayQueue(cfg, s, c, pe)
    requires Enumerates(order, Queued(s, c, pe).store) && EmptyLists(cs) && SameConfig(s.chains, cs)
    ensures var t := Queued(s, c, pe);
      h in Enqueued(Loaded(cfg, cs, t.store, order, now).seen) <==>
        h in Enqueued(t.seen) && !Overwritten(cfg, s, pe, h)
  {
    hide SeenAgrees, EntriesMatch, Mirrors, MayQueue, Queued, Loaded, KnownPending, EmptyLists, SameConfig, Enqueued,
      StoredPendings, ReloadedPending, PendingKey, HashFromMsg, InQueue;
    QueuedSeen(cfg, s, c, pe);
    var t := Queued(s, c, pe);
    var seen := Loaded(cfg, cs, t.store, order, now).seen;
    LoadEnqueues(cfg, cs, t.store, order, now);
    if h in Enqueued(seen) {
      var q :| q in StoredPendings(t.store, order) && HashFromMsg(cfg, q.msg) == h;
      SurvivorFrom(cfg, s, trusted, c, pe, order, q);
      SurvivorStays(cfg, s, pe, q, h);
    }
    if h in Enqueued(t.seen) && !Overwritten(cfg, s, pe, h) {
      var p := pe.dbData;
      if h != pe.hash {
        p := EnqueuedIsQueued(cfg, s.chains, s.seen, h);
        QueuedIsKnown(cfg, s, trusted, p);
      }
      Survives(cfg, s, trusted, c, pe, order, p);
      KnownElsewhere(cfg, s.chains, cs, p, EmptyTransfer());
      ReloadedKnown(cfg, cs, p);
    }
  }

  lemma QueuedSeen(cfg: Config, s: State, c: uint16, pe: PendingEntry)
    requires MayQueue(cfg, s, c, pe)
    ensures c in s.chains && pe.hash !in s.seen && pe.hash == HashFromMsg(cfg, pe.dbData.msg)
    ensures KnownPending(cfg, s.chains, pe.dbData)
    ensures forall g :: g in Enqueued(Queued(s, c, pe).seen) <==> g in Enqueued(s.seen) || g == pe.hash
  {
    hide HashFromMsg, DecodeTransferHdr, NewKey, Encoded;
  }

  lemma SurvivorStays(cfg: Config, s: State, pe: PendingEntry, q: PendingTransfer, h: Text)
    requires SeenAgrees(s.chains, s.seen) && EntriesMatch(cfg, s.chains) && pe.hash !in s.seen
    requires pe.hash == HashFromMsg(cfg, pe.dbData.msg) && HashFromMsg(cfg, q.msg) == h
    requires || q == ReloadedPending(pe.dbData)
      || exists p :: InQueue(s.chains, p) && PendingKey(p) != PendingKey(pe.dbData) && q == ReloadedPending(p)
    ensures (h in Enqueued(s.seen) || h == pe.hash) && !Overwritten(cfg, s, pe, h)
  {
    assert forall g | g in Enqueued(s.seen) :: g in s.seen;
    hide SeenAgrees, EntriesMatch, Enqueued, ReloadedPending, PendingKey, HashFromMsg, InQueue;
    if q == ReloadedPending(pe.dbData) {
      ReloadedKnown(cfg, map[], pe.dbData);
      forall p | InQueue(s.chains, p)
        ensures HashFromMsg(cfg, p.msg) != h
      {
        QueuedIsEnqueued(cfg, s.chains, s.seen, p);
      }
    } else {
      var p :| InQueue(s.chains, p) && PendingKey(p) != PendingKey(pe.dbData) && q == ReloadedPending(p);
      ReloadedKnown(cfg, map[], p);
      QueuedIsEnqueued(cfg, s.chains, s.seen, p);
      forall r | InQueue(s.chains, r) && HashFromMsg(cfg, r.msg) == h
        ensures r == p
      {
        SameHashSamePlace(cfg, s, p, r);
      }
    }
  }

  lemma SameHashSamePlace(cfg: Config, s: State, p: PendingTransfer, r: PendingTransfer)
    requires SeenAgrees(s.chains, s.seen) && EntriesMatch(cfg, s.chains) && InQueue(s.chains, p) && InQueue(s.chains, r)
    requires HashFromMsg(cfg, p.msg) == HashFromMsg(cfg, r.msg)
    ensures p == r
  {
    hide SeenAgrees, EntriesMatch, HashFromMsg;
    var c, i :| c in s.chains && 0 <= i < |s.chains[c].pending| && s.chains[c].pending[i].dbData == p;
    var d, j :| d in s.chains && 0 <= j < |s.chains[d].pending| && s.chains[d].pending[j].dbData == r;
    OnePlace(cfg, s.chains, s.seen, c, i, d, j);
  }

  /** There is such a message exactly if the key was in the store. */
  lemma OverwritesExactly(cfg: Config, s: State, trusted: Message -> bool, pe: PendingEntry)
    requires SeenAgrees(s.chains, s.seen) && EntriesMatch(cfg, s.chains) && Mirrors(cfg, s, trusted)
    ensures (exists h :: h in Enqueued(s.seen) && Overwritten(cfg, s, pe, h)) <==> PendingKey(pe.dbData) in s.store
    ensures (exists h :: Overwritten(cfg, s, pe, h)) <==> PendingKey(pe.dbData) in s.store
  {
    KindOfPendingKey(pe.dbData);
    hide SeenAgrees, EntriesMatch, Enqueued, PendingKey, HashFromMsg, InQueue, KindOf, KnownPending, ReadEntry;
    if PendingKey(pe.dbData) in s.store {
      var p :| InQueue(s.chains, p) && PendingKey(p) == PendingKey(pe.dbData);
      QueuedIsEnqueued(cfg, s.chains, s.seen, p);
      assert Overwritten(cfg, s, pe, HashFromMsg(cfg, p.msg));
    }
    forall h | Overwritten(cfg, s, pe, h)
      ensures PendingKey(pe.dbData) in s.store
    {
      var p :| InQueue(s.chains, p) && PendingKey(p) == PendingKey(pe.dbData) && HashFromMsg(cfg, p.msg) == h;
      assert OnRecord(s.store, p);
    }
  }

  /** So the restart forgets nothing exactly if the key was not in the store. */
  lemma QueueSurvivesExactly(cfg: Config, s: State, trusted: Message -> bool, c: uint16, pe: PendingEntry,
        order: seq<Text>, cs: Chains, now: int)
    requires SeenAgrees(s.chains, s.seen) && EntriesMatch(cfg, s.chains) && Mirrors(cfg, s, trusted)
    requires MayQueue(cfg, s, c, pe)
    requires Enumerates(order, Queued(s, c, pe).store) && EmptyLists(cs) && SameConfig(s.chains, cs)
    ensures var t := Queued(s, c, pe);
      Enqueued(Loaded(cfg, cs, t.store, order, now).seen) == Enqueued(t.seen) <==> PendingKey(pe.dbData) !in s.store
  {
    hide SeenAgrees, EntriesMatch, Mirrors, MayQueue, Queued, Loaded, EmptyLists, SameConfig, Enqueued, PendingKey,
      Overwritten, HashFromMsg, KnownPending;
    QueuedSeen(cfg, s, c, pe);
    var t := Queued(s, c, pe);
    var seen := Loaded(cfg, cs, t.store, order, now).seen;
    OverwritesExactly(cfg, s, trusted, pe);
    forall h
      ensures h in Enqueued(seen) <==> h in Enqueued(t.seen) && !Overwritten(cfg, s, pe, h)
    {
      OverwrittenIsLost(cfg, s, trusted, c, pe, order, cs, now, h);
    }
    if PendingKey(pe.dbData) in s.store {
      var h :| h in Enqueued(s.seen) && Overwritten(cfg, s, pe, h);
      assert h in Enqueued(t.seen) && h !in Enqueued(seen);
    }
  }

  // ---------------------------------------------------------------- on runs

  /** Whatever message m is held back after a run on which ids were not shared: a restart right after
      it forgets nothing exactly if no record under the id of m was in the store before. */
  lemma SharedIdOnEveryRun(cfg: Config, s: State, trusted: Message -> bool, ops: seq<Op>, op: Op, order: seq<Text>,
        cs: Chains, now: int)
    requires Fresh(s) && s.seen == map[] && (forall k | k in s.store :: KindOf(k) == OtherKind)
    requires IsRun(cfg, s, ops) && TrustedRun(ops, trusted) && OneHashPerId(cfg, trusted)
    requires var end := After(cfg, s, ops);
      && op.Process? && Possible(end, op) && Enters(cfg, end, op, HashFromMsg(cfg, op.m))
      && Enumerates(order, Apply(cfg, end, op).store) && EmptyLists(cs) && SameConfig(end.chains, cs)
    ensures var end := After(cfg, s, ops);
      var t := Apply(cfg, end, op);
      Enqueued(Loaded(cfg, cs, t.store, order, now).seen) == Enqueued(t.seen) <==>
        PENDING + MessageIDString(op.m) !in end.store
  {
    hide Fresh, OneHashPerId, KindOf, TrustedRun, IsRun, After, Loaded, EmptyLists, SameConfig, Inv, Kept, Enqueued,
      HashFromMsg, Apply, Enters;
    var base := map d | d in s.chains :: 0;
    FreshInv(cfg, s);
    StartKept(cfg, s, trusted);
    RunKeeps(cfg, s, base, ops);
    RunMirrors(cfg, s, base, trusted, ops);
    HeldBackSurvives(cfg, After(cfg, s, ops), base, trusted, op, order, cs, now);
  }

  lemma StartKept(cfg: Config, s: State, trusted: Message -> bool)
    requires Fresh(s) && forall k | k in s.store :: KindOf(k) == OtherKind
    ensures Kept(cfg, s, trusted)
  {
    hide Mirrors, Files, Fresh, KindOf;
    StartMirrors(cfg, s, trusted);
    StartFiles(cfg, s, trusted);
  }

  lemma HeldBackSurvives(cfg: Config, s: State, base: map<uint16, nat>, trusted: Message -> bool, op: Op,
        order: seq<Text>, cs: Chains, now: int)
    requires Inv(cfg, s, base) && Kept(cfg, s, trusted) && OneHashPerId(cfg, trusted)
    requires op.Process? && Possible(s, op) && Enters(cfg, s, op, HashFromMsg(cfg, op.m))
    requires Enumerates(order, Apply(cfg, s, op).store) && EmptyLists(cs) && SameConfig(s.chains, cs)
    ensures var t := Apply(cfg, s, op);
      Enqueued(Loaded(cfg, cs, t.store, order, now).seen) == Enqueued(t.seen) <==>
        PENDING + MessageIDString(op.m) !in s.store
  {
    hide Inv, Kept, OneHashPerId, Loaded, EmptyLists, SameConfig, Enqueued, HashFromMsg, ParseMsg, Trimmed, Queued,
      Judge, SumSince, NewPending, Recorded, SeenAgrees, EntriesMatch, Mirrors, MayQueue, PendingKey, KindOf;
    var m, u := op.m, s.(clock := op.now);
    var c := m.emitterChain;
    var hdr := ParseMsg(cfg, u.chains, m).hdr;
    AppliesHere(cfg, u.chains, m, hdr);
    TickKeeps(cfg, s, base, op.now);
    TickMirrors(cfg, s, trusted, op.now);
    TrimKeeps(cfg, u, base, c);
    TrimKept(cfg, u, base, trusted, c);
    TrimmedParses(cfg, u, c, m);
    var w := Trimmed(u, c);
    InvParts(cfg, w, base);
    var pe := NewPending(cfg, m, hdr, w.clock);
    NewMayQueue(cfg, w, m, hdr);
    TrimConfigOf(u, c);
    SameConfigAs(w.chains, s.chains, cs);
    KeptMirrors(cfg, w, trusted);
    assert Apply(cfg, s, op) == Queued(w, c, pe);
    QueueSurvivesExactly(cfg, w, trusted, c, pe, order, cs, now);
    TrimKeepsPendingKeys(cfg, u, trusted, c, pe.dbData);
    KeyOfNewPending(cfg, m, hdr, w.clock);
  }

  lemma KeptMirrors(cfg: Config, s: State, trusted: Message -> bool)
    requires Kept(cfg, s, trusted)
    ensures Mirrors(cfg, s, trusted)
  {
  }

  lemma KeyOfNewPending(cfg: Config, m: Message, hdr: TransferHdr, now: int)
    ensures PendingKey(NewPending(cfg, m, hdr, now).dbData) == PENDING + MessageIDString(m)
  {
  }

  lemma NewMayQueue(cfg: Config, s: State, m: Message, hdr: TransferHdr)
    requires ParseMsg(cfg, s.chains, m) == Applies(hdr) && HashFromMsg(cfg, m) !in s.seen
    ensures MayQueue(cfg, s, m.emitterChain, NewPending(cfg, m, hdr, s.clock))
  {
    hide HashFromMsg, KnownPending, EntryMatches, NewPending, ParseMsg;
    AppliesHere(cfg, s.chains, m, hdr);
    PendingMatches(cfg, s.chains, m, hdr, s.clock);
    PendingHash(cfg, m, hdr, s.clock);
    NewPendingKnown(cfg, s.chains, m, hdr, s.clock);
  }

  lemma TrimConfigOf(s: State, c: uint16)
    requires c in s.chains
    ensures SameConfig(Trimmed(s, c).chains, s.chains)
  {
    hide Expired, Hashes, TransferKeys;
  }

  lemma TrimKeepsPendingKeys(cfg: Config, s: State, trusted: Message -> bool, c: uint16, p: PendingTransfer)
    requires c in s.chains
    ensures PendingKey(p) in Trimmed(s, c).store <==> PendingKey(p) in s.store
  {
    KindOfPendingKey(p);
    var gone := s.chains[c].transfers[..Expired(s.chains[c].transfers, s.clock - DAY)];
    forall t | t in gone
      ensures NewKey(Done(t)) != PendingKey(p)
    {
      KindsOfTransferKey(t);
    }
  }
}
