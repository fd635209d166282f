/** What a governor takes from its store when it starts, told by the keys and bytes of the store and
    the configuration alone. */
module Loading {
  import opened Binary
  import opened Vaa
  import opened Keys
  import opened Sorting
  import opened Publication
  import opened Transfers
  import opened GovernorDb
  import opened Scans
  import opened Migration
  import opened Window
  import opened Listings
  import opened Governor
  import opened GovernorState
  import opened Reload
  import opened GovernorNode
  import opened GovernorRuns
  import opened Admission
  import opened Restart
  import opened AcrossRestart

  const PENDING_TAG := Ascii("GOV:PENDING3:")
  const OLD_PENDING_TAG := Ascii("GOV:PENDING2:")
  const TRANSFER_TAG := Ascii("GOV:XFER3:")
  const OLD_TRANSFER_TAG := Ascii("GOV:XFER2:")

  /** A key that is the tag and a message id, which takes at least 68 bytes. */
  ghost predicate Tagged(k: Text, tag: Text) { |k| >= |tag| + 68 && k[..|tag|] == tag }

  /** The store has the pending transfer under that key, in the present format or in the old one. */
  ghost predicate StoresPending(store: Store, k: Text, p: PendingTransfer) {
    && k in store
    && ((Tagged(k, PENDING_TAG) && DecodePending(store[k], false) == Some(p)) ||
        (Tagged(k, OLD_PENDING_TAG) && DecodePending(store[k], true) == Some(p)))
  }

  ghost predicate StoresTransfer(store: Store, k: Text, t: Transfer) {
    && k in store
    && ((Tagged(k, TRANSFER_TAG) && DecodeTransfer(store[k]) == Some(t)) ||
        (Tagged(k, OLD_TRANSFER_TAG) && DecodeOldTransfer(store[k]) == Some(t)))
  }

  // ---------------------------------------------------------------- what is stored

  lemma ReadsStored(store: Store, k: Text, p: PendingTransfer, t: Transfer)
    requires k in store
    ensures StoresPending(store, k, p) <==>
      KindOf(k) in PENDING_KINDS && ReadEntry(k, store[k]) == Some(Pending(p))
    ensures StoresTransfer(store, k, t) <==>
      KindOf(k) in TRANSFER_KINDS && ReadEntry(k, store[k]) == Some(Done(t))
  {
    KindsAreDisjoint(k);
    hide DecodePending, DecodeTransfer, DecodeOldTransfer, Ascii, KindOf;
  }

  lemma PendingStored(store: Store, order: seq<Text>, p: PendingTransfer)
    requires Enumerates(order, store)
    ensures p in StoredPendings(store, order) <==> exists k :: StoresPending(store, k, p)
  {
    hide StoresPending, ReadEntry, KindOf, Collect;
    PendingsOfHolds(Collect(store, order, PENDING_KINDS), p);
    if Pending(p) in Collect(store, order, PENDING_KINDS) {
      var k := CollectedFrom(store, order, PENDING_KINDS, Pending(p));
      ReadsStored(store, k, p, EmptyTransfer());
    }
    if k :| StoresPending(store, k, p) {
      StoredUnder(store, k, p, EmptyTransfer());
      ReadsStored(store, k, p, EmptyTransfer());
      Collected(store, order, PENDING_KINDS, k, Pending(p));
    }
  }

  lemma StoredUnder(store: Store, k: Text, p: PendingTransfer, t: Transfer)
    requires StoresPending(store, k, p) || StoresTransfer(store, k, t)
    ensures k in store
  {
    hide DecodePending, DecodeTransfer, DecodeOldTransfer, Tagged;
  }

  lemma TransferStored(store: Store, order: seq<Text>, t: Transfer)
    requires Enumerates(order, store)
    ensures t in StoredTransfers(store, order) <==> exists k :: StoresTransfer(store, k, t)
  {
    hide StoresTransfer, StoresPending, ReadEntry, KindOf, Collect;
    TransfersOfHolds(Collect(store, order, TRANSFER_KINDS), t);
    if Done(t) in Collect(store, order, TRANSFER_KINDS) {
      var k := CollectedFrom(store, order, TRANSFER_KINDS, Done(t));
      ReadsStored(store, k, NoPending(), t);
    }
    if k :| StoresTransfer(store, k, t) {
      StoredUnder(store, k, NoPending(), t);
      ReadsStored(store, k, NoPending(), t);
      Collected(store, order, TRANSFER_KINDS, k, Done(t));
    }
  }

  function NoPending(): PendingTransfer {
    PendingTransfer(0, Message(Zeros(32), 0, 0, 0, 0, 0, Zeros(32), [], false, false))
  }

  // ---------------------------------------------------------------- what is taken

  lemma KnownIsGoverned(cfg: Config, cs: Chains, p: PendingTransfer)
    ensures KnownPending(cfg, cs, p) <==> Governs(cfg, cs, p.msg)
  {
    hide FromBE;
  }

  /** A transfer of a configured emitter and token. */
  ghost predicate GovernedTransfer(cfg: Config, cs: Chains, t: Transfer) {
    && t.emitterChain in cs && t.emitterAddress == cs[t.emitterChain].emitterAddr
    && TokenKey(t.originChain, t.originAddress) in cfg.tokens
  }

  lemma KnownTransferIsGoverned(cfg: Config, cs: Chains, t: Transfer)
    ensures KnownTransfer(cfg, cs, t) <==> GovernedTransfer(cfg, cs, t)
  {
  }

  lemma HasTransfer(cs: Chains, h: Text)
    requires ListedHash(cs, h)
    ensures exists c, i :: c in cs && 0 <= i < |cs[c].transfers| && cs[c].transfers[i].hash == h
  {
    var c, i :| ListedAt(TransferLists(cs), c, i, h);
    assert cs[c].transfers[i].hash == h;
  }

  /** Everything that is listed is governed by the configuration of cs, and on its own chain. */
  ghost predicate OnlyGoverned(cfg: Config, cs: Chains, ds: Chains) {
    && (forall c, i | c in ds && 0 <= i < |ds[c].pending| ::
          KnownPending(cfg, cs, ds[c].pending[i].dbData) && ds[c].pending[i].dbData.msg.emitterChain == c)
    && (forall c, i | c in ds && 0 <= i < |ds[c].transfers| ::
          GovernedTransfer(cfg, cs, ds[c].transfers[i]) && ds[c].transfers[i].emitterChain == c)
  }

  lemma AddPendingGoverned(cfg: Config, cs: Chains, ix: Index, p: PendingTransfer)
    requires SameConfig(cs, ix.chains) && OnlyGoverned(cfg, cs, ix.chains)
    ensures OnlyGoverned(cfg, cs, AddPending(cfg, ix, p).chains)
  {
    KnownElsewhere(cfg, cs, ix.chains, p, EmptyTransfer());
    hide HashFromMsg, DecodeTransferHdr, KnownPending, GovernedTransfer, SameConfig;
    if KnownPending(cfg, cs, p) {
      KnownHere(cfg, ix.chains, p);
      EntryForKeeps(cfg, p);
    }
  }

  lemma KnownHere(cfg: Config, cs: Chains, p: PendingTransfer)
    requires KnownPending(cfg, cs, p)
    ensures p.msg.emitterChain in cs && DecodeTransferHdr(p.msg.payload).Some?
  {
  }

  lemma EntryForKeeps(cfg: Config, p: PendingTransfer)
    requires DecodeTransferHdr(p.msg.payload).Some?
    ensures EntryFor(cfg, p).dbData == p
  {
  }

  lemma AddTransferGoverned(cfg: Config, cs: Chains, ix: Index, t: Transfer)
    requires SameConfig(cs, ix.chains) && OnlyGoverned(cfg, cs, ix.chains)
    ensures OnlyGoverned(cfg, cs, AddTransfer(cfg, ix, t).chains)
  {
    KnownElsewhere(cfg, cs, ix.chains, NoPending(), t);
    hide KnownPending, SameConfig;
  }

  lemma {:induction false} AddPendingsGoverned(cfg: Config, cs: Chains, ix: Index, ps: seq<PendingTransfer>)
    requires SameConfig(cs, ix.chains) && OnlyGoverned(cfg, cs, ix.chains)
    ensures var jx := AddPendings(cfg, ix, ps); SameConfig(cs, jx.chains) && OnlyGoverned(cfg, cs, jx.chains)
  {
    hide AddPending, OnlyGoverned, SameConfig;
    if ps != [] {
      var n := |ps| - 1;
      AddPendingsGoverned(cfg, cs, ix, ps[..n]);
      AddPendingGoverned(cfg, cs, AddPendings(cfg, ix, ps[..n]), ps[n]);
      AddKeepsConfig(cfg, cs, AddPendings(cfg, ix, ps[..n]), ps[n], EmptyTransfer());
    }
  }

  lemma {:induction false} AddTransfersGoverned(cfg: Config, cs: Chains, ix: Index, ts: seq<Transfer>)
    requires SameConfig(cs, ix.chains) && OnlyGoverned(cfg, cs, ix.chains)
    ensures var jx := AddTransfers(cfg, ix, ts); SameConfig(cs, jx.chains) && OnlyGoverned(cfg, cs, jx.chains)
  {
    hide AddTransfer, OnlyGoverned, SameConfig;
    if ts != [] {
      var n := |ts| - 1;
      AddTransfersGoverned(cfg, cs, ix, ts[..n]);
      AddTransferGoverned(cfg, cs, AddTransfers(cfg, ix, ts[..n]), ts[n]);
      AddKeepsConfig(cfg, cs, AddTransfers(cfg, ix, ts[..n]), NoPending(), ts[n]);
    }
  }

  lemma AddKeepsConfig(cfg: Config, cs: Chains, ix: Index, p: PendingTransfer, t: Transfer)
    requires SameConfig(cs, ix.chains)
    ensures SameConfig(cs, AddPending(cfg, ix, p).chains) && SameConfig(cs, AddTransfer(cfg, ix, t).chains)
  {
    hide HashFromMsg, DecodeTransferHdr;
  }

  lemma EmptyGoverned(cfg: Config, cs: Chains)
    requires EmptyLists(cs)
    ensures SameConfig(cs, cs) && OnlyGoverned(cfg, cs, cs)
  {
  }

  lemma LoadedGoverned(cfg: Config, cs: Chains, store: Store, order: seq<Text>, now: int)
    requires EmptyLists(cs)
    ensures OnlyGoverned(cfg, cs, Loaded(cfg, cs, store, order, now).chains)
  {
    hide OnlyGoverned, SameConfig, AddPendings, AddTransfers, Recent, Sort, StoredPendings, StoredTransfers, Stale,
      TransferKeys, AfterLoad;
    var ps, ts := StoredPendings(store, order), StoredTransfers(store, order);
    EmptyGoverned(cfg, cs);
    AddPendingsGoverned(cfg, cs, Index(cs, map[]), Sort(ps, PendingLeq));
    AddTransfersGoverned(cfg, cs, AddPendings(cfg, Index(cs, map[]), Sort(ps, PendingLeq)),
      Recent(Sort(ts, TransferLeq), now - DAY));
  }

  // ---------------------------------------------------------------- the load

  /** The store has a pending transfer that is governed and has hash h. */
  ghost predicate WaitsInStore(cfg: Config, cs: Chains, store: Store, h: Text) {
    exists k, p :: StoresPending(store, k, p) && Governs(cfg, cs, p.msg) && HashFromMsg(cfg, p.msg) == h
  }

  /** After a load of any readable store into empty lists, exactly the governed messages that the store
      has as pending are enqueued; every queue entry is one of these as it was stored, in the queue of
      its chain; and every listed transfer is a stored one of the last 24 hours, of a configured emitter
      and token, in the list of its chain. No such transfer is left out, unless its message is enqueued
      or another one with its hash is listed. */
  lemma LoadedExactly(cfg: Config, cs: Chains, store: Store, order: seq<Text>, now: int)
    requires EmptyLists(cs) && Enumerates(order, store)
    ensures var s := Loaded(cfg, cs, store, order, now);
      && s.clock == now && s.chains.Keys == cs.Keys
      && (forall h :: h in Enqueued(s.seen) <==> WaitsInStore(cfg, cs, store, h))
      && (forall c, i | c in s.chains && 0 <= i < |s.chains[c].pending| ::
            var p := s.chains[c].pending[i].dbData;
            (exists k :: StoresPending(store, k, p)) && Governs(cfg, cs, p.msg) && p.msg.emitterChain == c)
      && (forall c, i | c in s.chains && 0 <= i < |s.chains[c].transfers| ::
            var t := s.chains[c].transfers[i];
            && (exists k :: StoresTransfer(store, k, t)) && t.timestamp > now - 86_400_000_000_000
            && GovernedTransfer(cfg, cs, t) && t.emitterChain == c)
      && (forall k, t | StoresTransfer(store, k, t) && GovernedTransfer(cfg, cs, t)
            && t.timestamp > now - 86_400_000_000_000 && t.hash != [] ::
            t.hash in Enqueued(s.seen) || exists c, i ::
              c in s.chains && 0 <= i < |s.chains[c].transfers| && s.chains[c].transfers[i].hash == t.hash)
  {
    hide EmptyLists, StoredPendings, StoredTransfers, AfterLoad, Stale, TransferKeys, Sort, Rebuilt, StoresPending,
      StoresTransfer, Governs, GovernedTransfer, HashFromMsg, Enqueued, KnownPending, KnownTransfer, ListedHash,
      SeenAgrees, EntriesMatch, EntryMatches, Ordered;
    var ps, ts := StoredPendings(store, order), StoredTransfers(store, order);
    var s := Loaded(cfg, cs, store, order, now);
    ReloadRebuilds(cfg, cs, ps, ts, now);
    LoadedGoverned(cfg, cs, store, order, now);
    forall p: PendingTransfer
      ensures p in ps <==> exists k :: StoresPending(store, k, p)
      ensures KnownPending(cfg, cs, p) <==> Governs(cfg, cs, p.msg)
    {
      PendingStored(store, order, p);
      KnownIsGoverned(cfg, cs, p);
    }
    forall t: Transfer
      ensures t in ts <==> exists k :: StoresTransfer(store, k, t)
    {
      TransferStored(store, order, t);
    }
    forall k, t | StoresTransfer(store, k, t) && GovernedTransfer(cfg, cs, t)
      && t.timestamp > now - 86_400_000_000_000 && t.hash != [] && t.hash !in Enqueued(s.seen)
      ensures exists c, i ::
        c in s.chains && 0 <= i < |s.chains[c].transfers| && s.chains[c].transfers[i].hash == t.hash
    {
      KnownTransferIsGoverned(cfg, cs, t);
      assert t in ts;
      HasTransfer(s.chains, t.hash);
    }
    forall h | h in Enqueued(s.seen)
      ensures WaitsInStore(cfg, cs, store, h)
    {
      var c, i := EnqueuedHasEntry(cfg, Index(s.chains, s.seen), h);
      var p := s.chains[c].pending[i].dbData;
      assert p in ps && KnownPending(cfg, cs, p);
    }
  }

  lemma EnqueuedHasEntry(cfg: Config, ix: Index, h: Text) returns (c: uint16, i: nat)
    requires Agrees(cfg, ix) && h in Enqueued(ix.seen)
    ensures c in ix.chains && i < |ix.chains[c].pending| && HashFromMsg(cfg, ix.chains[c].pending[i].dbData.msg) == h
  {
    hide HashFromMsg, DecodeTransferHdr;
    var d, j :| ListedAt(PendingLists(ix.chains), d, j, h);
    c, i := d, j;
    assert EntryMatches(cfg, c, ix.chains[c].pending[i]);
  }
}
