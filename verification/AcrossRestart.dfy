/** A governor that is stopped and started again: after any run, what it loads from its store is
    what it had, with times cut to seconds, and its store again holds exactly that. */
module AcrossRestart {
  import opened Binary
  import opened Vaa
  import opened Keys
  import opened Publication
  import opened Transfers
  import opened GovernorDb
  import opened Scans
  import opened Listings
  import opened Sorting
  import opened Window
  import opened Governor
  import opened GovernorState
  import opened Reload
  import opened GovernorNode
  import opened GovernorRuns
  import opened Migration
  import opened TransferFiles
  import opened Restart

  /** A transfer and a queue entry as they come back from the store. */
  function Cut(t: Transfer): Transfer { t.(timestamp := StoredTime(t.timestamp)) }

  function CutEntry(pe: PendingEntry): PendingEntry { pe.(dbData := ReloadedPending(pe.dbData)) }

  // ---------------------------------------------------------------- the store holds what is listed

  lemma {:induction false} TransfersOfHolds(es: seq<Entry>, t: Transfer)
    ensures t in TransfersOf(es) <==> Done(t) in es
  {
    if es != [] {
      TransfersOfHolds(es[1..], t);
    }
  }

  lemma SoundIsShort(cfg: Config, trusted: Message -> bool, c: uint16, t: Transfer)
    requires Sound(cfg, trusted, c, t)
    ensures ShortTexts(t)
  {
    hide MessageID;
    var m :| trusted(m) && IsAbout(cfg, t, m);
    MessageIDShort(m);
  }

  lemma ListedReadsBack(cfg: Config, s: State, trusted: Message -> bool, c: uint16, t: Transfer)
    requires Files(cfg, s, trusted) && ListedIn(s.chains, c, t)
    ensures KindOf(TransferKey(t)) == TransferKind && At(s.store, TransferKey(t), Done(Cut(t)))
  {
    assert OnFile(s.store, t) && Sound(cfg, trusted, c, t);
    SoundKind(cfg, trusted, c, t);
    SoundIsShort(cfg, trusted, c, t);
    hide Sound, KindOf, ListedIn, EncodeTransfer, DecodeTransfer, Files;
    TransferReadsBack(t);
  }

  lemma ListedIsStored(cfg: Config, s: State, trusted: Message -> bool, order: seq<Text>, c: uint16, t: Transfer)
    requires Files(cfg, s, trusted) && ListedIn(s.chains, c, t) && Enumerates(order, s.store)
    ensures Cut(t) in StoredTransfers(s.store, order)
  {
    hide Files, KindOf, ReadEntry, Collect, TransfersOf, TransferKey;
    ListedReadsBack(cfg, s, trusted, c, t);
    Collected(s.store, order, TRANSFER_KINDS, TransferKey(t), Done(Cut(t)));
    TransfersOfHolds(Collect(s.store, order, TRANSFER_KINDS), Cut(t));
  }

  lemma StoredIsListed(cfg: Config, s: State, trusted: Message -> bool, order: seq<Text>, u: Transfer)
    returns (c: uint16, t: Transfer)
    requires Kept(cfg, s, trusted) && Enumerates(order, s.store) && u in StoredTransfers(s.store, order)
    ensures ListedIn(s.chains, c, t) && u == Cut(t)
  {
    hide Mirrors, KindOf, ReadEntry, Collect, TransfersOf, TransferKey, ListedIn;
    var es := Collect(s.store, order, TRANSFER_KINDS);
    TransfersOfHolds(es, u);
    var k := CollectedFrom(s.store, order, TRANSFER_KINDS, Done(u));
    MirrorReadable(cfg, s, trusted);
    c, t :| ListedIn(s.chains, c, t) && TransferKey(t) == k;
    ListedReadsBack(cfg, s, trusted, c, t);
  }

  // ---------------------------------------------------------------- what is listed after loading

  /** What a run leaves that can be loaded again. */
  ghost predicate Stopped(cfg: Config, s: State, trusted: Message -> bool, order: seq<Text>, cs: Chains) {
    && SeenAgrees(s.chains, s.seen) && EntriesMatch(cfg, s.chains) && Kept(cfg, s, trusted)
    && Enumerates(order, s.store) && EmptyLists(cs) && SameConfig(s.chains, cs)
  }

  /** Everything that a load lists was listed before. */
  lemma LoadedWasListed(cfg: Config, s: State, trusted: Message -> bool, order: seq<Text>, cs: Chains, now: int,
        c: uint16, u: Transfer)
    returns (t: Transfer)
    requires Stopped(cfg, s, trusted, order, cs) && ListedIn(Loaded(cfg, cs, s.store, order, now).chains, c, u)
    ensures ListedIn(s.chains, c, t) && u == Cut(t) && u.timestamp > now - DAY
  {
    var d: uint16;
    LoadedFrom(cfg, cs, s.store, order, now, c, u);
    hide SeenAgrees, EntriesMatch, Kept, Loaded, StoredTransfers, ListedIn;
    d, t := StoredIsListed(cfg, s, trusted, order, u);
    ListedHere(cfg, s, trusted, d, t);
  }

  lemma LoadedFrom(cfg: Config, cs: Chains, store: Store, order: seq<Text>, now: int, c: uint16, u: Transfer)
    requires EmptyLists(cs) && ListedIn(Loaded(cfg, cs, store, order, now).chains, c, u)
    ensures u in StoredTransfers(store, order) && u.emitterChain == c && u.timestamp > now - DAY
  {
    hide Rebuilt, EmptyLists, StoredPendings, StoredTransfers, AfterLoad, Stale, TransferKeys, KnownPending,
      KnownTransfer, ListedHash, SameConfig, Enqueued, Agrees, PendingFrom;
    ReloadRebuilds(cfg, cs, StoredPendings(store, order), StoredTransfers(store, order), now);
    var cs' := Loaded(cfg, cs, store, order, now).chains;
    var i :| 0 <= i < |cs'[c].transfers| && cs'[c].transfers[i] == u;
  }

  lemma ListedHere(cfg: Config, s: State, trusted: Message -> bool, c: uint16, t: Transfer)
    requires Kept(cfg, s, trusted) && ListedIn(s.chains, c, t)
    ensures t.emitterChain == c && t.hash != [] && KnownTransfer(cfg, s.chains, t)
  {
    hide Mirrors, KnownTransfer, OnFile;
    SoundKind(cfg, trusted, c, t);
  }

  /** A hash is known to a load if it is that of a stored transfer that is recent. */
  lemma LoadKnows(cfg: Config, cs: Chains, store: Store, order: seq<Text>, now: int, u: Transfer)
    returns (c: uint16, v: Transfer)
    requires EmptyLists(cs) && u in StoredTransfers(store, order) && KnownTransfer(cfg, cs, u)
    requires u.timestamp > now - DAY && u.hash != [] && u.hash !in Enqueued(Loaded(cfg, cs, store, order, now).seen)
    ensures ListedIn(Loaded(cfg, cs, store, order, now).chains, c, v) && v.hash == u.hash
  {
    hide Rebuilt, EmptyLists, StoredPendings, StoredTransfers, AfterLoad, Stale, TransferKeys, KnownPending,
      KnownTransfer, SameConfig, Enqueued, Agrees, PendingFrom, TransfersFrom;
    ReloadRebuilds(cfg, cs, StoredPendings(store, order), StoredTransfers(store, order), now);
    var cs' := Loaded(cfg, cs, store, order, now).chains;
    assert ListedHash(cs', u.hash);
    var d, i :| ListedAt(TransferLists(cs'), d, i, u.hash);
    c, v := d, cs'[d].transfers[i];
  }

  lemma SameHashSameTransfer(cfg: Config, s: State, trusted: Message -> bool, c: uint16, t: Transfer, d: uint16,
        u: Transfer)
    requires SeenAgrees(s.chains, s.seen) && ListedIn(s.chains, c, t) && ListedIn(s.chains, d, u)
    requires t.hash == u.hash != []
    ensures c == d && t == u
  {
    hide SeenAgrees;
    var i :| 0 <= i < |s.chains[c].transfers| && s.chains[c].transfers[i] == t;
    var j :| 0 <= j < |s.chains[d].transfers| && s.chains[d].transfers[j] == u;
    OneListed(s.chains, s.seen, c, i, d, j);
  }

  /** And what was listed is listed again if it is still recent. */
  lemma ListedIsLoaded(cfg: Config, s: State, trusted: Message -> bool, order: seq<Text>, cs: Chains, now: int,
        c: uint16, t: Transfer)
    requires Stopped(cfg, s, trusted, order, cs) && ListedIn(s.chains, c, t) && Cut(t).timestamp > now - DAY
    ensures ListedIn(Loaded(cfg, cs, s.store, order, now).chains, c, Cut(t))
  {
    hide SeenAgrees, EntriesMatch, Kept, Loaded, StoredTransfers, ListedIn, EmptyLists, SameConfig, KnownTransfer;
    ListedHere(cfg, s, trusted, c, t);
    StoredOfListed(cfg, s, trusted, order, c, t);
    KnownCut(cfg, s.chains, cs, t);
    ListedIsComplete(s.chains, s.seen, c, t);
    LoadedQueue(cfg, s, trusted, order, cs, now, t.hash);
    var d, v := LoadKnows(cfg, cs, s.store, order, now, Cut(t));
    var w := LoadedWasListed(cfg, s, trusted, order, cs, now, d, v);
    SameHashSameTransfer(cfg, s, trusted, c, t, d, w);
  }

  lemma StoredOfListed(cfg: Config, s: State, trusted: Message -> bool, order: seq<Text>, c: uint16, t: Transfer)
    requires Kept(cfg, s, trusted) && ListedIn(s.chains, c, t) && Enumerates(order, s.store)
    ensures Cut(t) in StoredTransfers(s.store, order)
  {
    hide Mirrors, Files, StoredTransfers;
    ListedIsStored(cfg, s, trusted, order, c, t);
  }

  lemma KnownCut(cfg: Config, cs: Chains, ds: Chains, t: Transfer)
    requires SameConfig(cs, ds) && KnownTransfer(cfg, cs, t)
    ensures KnownTransfer(cfg, ds, Cut(t))
  {
    KnownTransfersElsewhere(cfg, cs, ds, [t]);
    assert t in [t];
  }

  lemma LoadedQueue(cfg: Config, s: State, trusted: Message -> bool, order: seq<Text>, cs: Chains, now: int, h: Text)
    requires Stopped(cfg, s, trusted, order, cs)
    ensures h in Enqueued(Loaded(cfg, cs, s.store, order, now).seen) <==> h in Enqueued(s.seen)
  {
    hide SeenAgrees, EntriesMatch, Mirrors, Files, Collect, PendingsOf, StoredTransfers, Rebuilt, EmptyLists,
      SameConfig, Enqueued, AfterLoad, Stale, TransferKeys;
    ReloadSameQueue(cfg, s, trusted, order, cs, StoredTransfers(s.store, order), now, h);
  }

  // ---------------------------------------------------------------- what is queued after loading

  ghost predicate QueuedIn(cs: Chains, c: uint16, pe: PendingEntry) { c in cs && pe in cs[c].pending }

  lemma EntryOfMessage(cfg: Config, c: uint16, pe: PendingEntry, d: uint16, qe: PendingEntry)
    requires EntryMatches(cfg, c, pe) && EntryMatches(cfg, d, qe) && pe.dbData == ReloadedPending(qe.dbData)
    ensures c == d && pe == CutEntry(qe) && pe.hash == qe.hash
  {
    hide DecodeTransferHdr;
    ReloadedKnown(cfg, map[], qe.dbData);
  }

  lemma EntryInQueue(cfg: Config, cs: Chains, p: PendingTransfer) returns (c: uint16, pe: PendingEntry)
    requires EntriesMatch(cfg, cs) && InQueue(cs, p)
    ensures QueuedIn(cs, c, pe) && pe.dbData == p && EntryMatches(cfg, c, pe)
  {
    hide EntryMatches;
    var d, i :| d in cs && 0 <= i < |cs[d].pending| && cs[d].pending[i].dbData == p;
    c, pe := d, cs[d].pending[i];
  }

  /** Every entry that a load queues was queued before. */
  lemma LoadedWasQueued(cfg: Config, s: State, trusted: Message -> bool, order: seq<Text>, cs: Chains, now: int,
        c: uint16, pe: PendingEntry)
    returns (qe: PendingEntry)
    requires Stopped(cfg, s, trusted, order, cs) && QueuedIn(Loaded(cfg, cs, s.store, order, now).chains, c, pe)
    ensures QueuedIn(s.chains, c, qe) && pe == CutEntry(qe)
  {
    hide SeenAgrees, Loaded, Mirrors, Files, QueuedIn, EntryMatches, StoredPendings, InQueue, ReloadedPending;
    var t := Loaded(cfg, cs, s.store, order, now);
    LoadedEntry(cfg, cs, s.store, order, now, c, pe);
    var p := StoredPendingIsQueued(cfg, s, trusted, order, pe.dbData);
    var d, e := EntryInQueue(cfg, s.chains, p);
    EntryOfMessage(cfg, c, pe, d, e);
    qe := e;
  }

  lemma StoredPendingIsQueued(cfg: Config, s: State, trusted: Message -> bool, order: seq<Text>, q: PendingTransfer)
    returns (p: PendingTransfer)
    requires Mirrors(cfg, s, trusted) && Enumerates(order, s.store) && q in StoredPendings(s.store, order)
    ensures InQueue(s.chains, p) && q == ReloadedPending(p)
  {
    hide Mirrors, Collect, PendingsOf, InQueue, ReloadedPending;
    PendingsOfHolds(Collect(s.store, order, PENDING_KINDS), q);
    p := StoredIsQueued(cfg, s, trusted, order, q);
  }

  lemma LoadedEntry(cfg: Config, cs: Chains, store: Store, order: seq<Text>, now: int, c: uint16, pe: PendingEntry)
    requires EmptyLists(cs) && QueuedIn(Loaded(cfg, cs, store, order, now).chains, c, pe)
    ensures pe.dbData in StoredPendings(store, order) && EntryMatches(cfg, c, pe)
  {
    hide Rebuilt, EmptyLists, StoredPendings, StoredTransfers, AfterLoad, Stale, TransferKeys, KnownPending,
      KnownTransfer, ListedHash, SameConfig, Enqueued, TransfersFrom, EntryMatches, SeenAgrees;
    ReloadRebuilds(cfg, cs, StoredPendings(store, order), StoredTransfers(store, order), now);
    var cs' := Loaded(cfg, cs, store, order, now).chains;
    var i :| 0 <= i < |cs'[c].pending| && cs'[c].pending[i] == pe;
  }

  /** And every entry that was queued is queued again. */
  lemma QueuedIsLoaded(cfg: Config, s: State, trusted: Message -> bool, order: seq<Text>, cs: Chains, now: int,
        c: uint16, qe: PendingEntry)
    requires Stopped(cfg, s, trusted, order, cs) && QueuedIn(s.chains, c, qe)
    ensures QueuedIn(Loaded(cfg, cs, s.store, order, now).chains, c, CutEntry(qe))
  {
    hide SeenAgrees, Loaded, Kept, EntryMatches, EntriesMatch, Enqueued, InQueue, HashFromMsg;
    var t := Loaded(cfg, cs, s.store, order, now);
    QueuedHash(cfg, s.chains, s.seen, c, qe);
    LoadedQueue(cfg, s, trusted, order, cs, now, qe.hash);
    LoadedAgrees(cfg, cs, s.store, order, now);
    var p := EnqueuedIsQueued(cfg, t.chains, t.seen, qe.hash);
    var d, pe := EntryInQueue(cfg, t.chains, p);
    MatchingEntryHash(cfg, d, pe);
    var re := LoadedWasQueued(cfg, s, trusted, order, cs, now, d, pe);
    QueuedOnce(cfg, s.chains, s.seen, c, qe, d, re);
  }

  lemma MatchingEntryHash(cfg: Config, c: uint16, pe: PendingEntry)
    requires EntryMatches(cfg, c, pe)
    ensures pe.hash == HashFromMsg(cfg, pe.dbData.msg)
  {
  }

  lemma QueuedHash(cfg: Config, cs: Chains, seen: Seen, c: uint16, qe: PendingEntry)
    requires SeenAgrees(cs, seen) && EntriesMatch(cfg, cs) && QueuedIn(cs, c, qe)
    ensures qe.hash in Enqueued(seen)
  {
    hide SeenAgrees, HashFromMsg;
    var i :| 0 <= i < |cs[c].pending| && cs[c].pending[i] == qe;
    assert EntryMatches(cfg, c, cs[c].pending[i]);
    PendingIsEnqueued(cs, seen, c, i);
  }

  lemma QueuedOnce(cfg: Config, cs: Chains, seen: Seen, c: uint16, pe: PendingEntry, d: uint16, qe: PendingEntry)
    requires SeenAgrees(cs, seen) && EntriesMatch(cfg, cs) && QueuedIn(cs, c, pe) && QueuedIn(cs, d, qe)
    requires pe.hash == qe.hash
    ensures c == d && pe == qe
  {
    hide SeenAgrees, HashFromMsg;
    var i :| 0 <= i < |cs[c].pending| && cs[c].pending[i] == pe;
    var j :| 0 <= j < |cs[d].pending| && cs[d].pending[j] == qe;
    assert EntryMatches(cfg, c, cs[c].pending[i]) && EntryMatches(cfg, d, cs[d].pending[j]);
    OnePlace(cfg, cs, seen, c, i, d, j);
  }

  // ---------------------------------------------------------------- the restart

  /** After any run of a governor that started empty, its store can be loaded and nothing in it has to
      be rewritten. The queue of a restarted governor is the one it had, with times cut to seconds,
      and its lists are the ones it had, cut to seconds and to the last day. */
  lemma RestartOnEveryRun(cfg: Config, s: State, trusted: Message -> bool, ops: seq<Op>, order: seq<Text>, cs: Chains,
        now: int, c: uint16)
    requires Fresh(s) && s.seen == map[] && (forall k | k in s.store :: KindOf(k) == OtherKind)
    requires IsRun(cfg, s, ops) && TrustedRun(ops, trusted) && OneHashPerId(cfg, trusted)
    requires var end := After(cfg, s, ops); Enumerates(order, end.store) && EmptyLists(cs) && SameConfig(end.chains, cs)
    ensures var end := After(cfg, s, ops);
      var t := Loaded(cfg, cs, end.store, order, now);
      && AllReadable(end.store) && AfterLoad(end.store, order) == end.store
      && (forall pe :: QueuedIn(t.chains, c, pe) <==> exists qe :: QueuedIn(end.chains, c, qe) && pe == CutEntry(qe))
      && (forall u :: ListedIn(t.chains, c, u) <==>
            u.timestamp > now - DAY && exists v :: ListedIn(end.chains, c, v) && u == Cut(v))
  {
    hide Kept, Fresh, OneHashPerId, IsRun, After, KindOf, AllReadable, AfterLoad, Loaded, EmptyLists, SameConfig,
      TrustedRun, QueuedIn, ListedIn, Cut, CutEntry, Stopped;
    RunStops(cfg, s, trusted, ops, order, cs);
    var end := After(cfg, s, ops);
    var t := Loaded(cfg, cs, end.store, order, now);
    StoppedReadable(cfg, end, trusted, order, cs);
    forall pe
      ensures QueuedIn(t.chains, c, pe) <==> exists qe :: QueuedIn(end.chains, c, qe) && pe == CutEntry(qe)
    {
      if QueuedIn(t.chains, c, pe) {
        var qe := LoadedWasQueued(cfg, end, trusted, order, cs, now, c, pe);
      }
      forall qe | QueuedIn(end.chains, c, qe) && pe == CutEntry(qe)
        ensures QueuedIn(t.chains, c, pe)
      {
        QueuedIsLoaded(cfg, end, trusted, order, cs, now, c, qe);
      }
    }
    forall u
      ensures ListedIn(t.chains, c, u) <==>
        u.timestamp > now - DAY && exists v :: ListedIn(end.chains, c, v) && u == Cut(v)
    {
      if ListedIn(t.chains, c, u) {
        var v := LoadedWasListed(cfg, end, trusted, order, cs, now, c, u);
      }
      forall v | ListedIn(end.chains, c, v) && u == Cut(v) && u.timestamp > now - DAY
        ensures ListedIn(t.chains, c, u)
      {
        ListedIsLoaded(cfg, end, trusted, order, cs, now, c, v);
      }
    }
  }

  lemma RunStops(cfg: Config, s: State, trusted: Message -> bool, ops: seq<Op>, order: seq<Text>, cs: Chains)
    requires Fresh(s) && s.seen == map[] && (forall k | k in s.store :: KindOf(k) == OtherKind)
    requires IsRun(cfg, s, ops) && TrustedRun(ops, trusted) && OneHashPerId(cfg, trusted)
    requires var end := After(cfg, s, ops); Enumerates(order, end.store) && EmptyLists(cs) && SameConfig(end.chains, cs)
    ensures Stopped(cfg, After(cfg, s, ops), trusted, order, cs)
    ensures Inv(cfg, After(cfg, s, ops), map c | c in s.chains :: 0)
  {
    hide Mirrors, Files, Fresh, OneHashPerId, IsRun, After, Limits, KindOf, EmptyLists, SameConfig, TrustedRun,
      SeenAgrees, EntriesMatch;
    var base := map c | c in s.chains :: 0;
    FreshInv(cfg, s);
    StartMirrors(cfg, s, trusted);
    StartFiles(cfg, s, trusted);
    RunKeeps(cfg, s, base, ops);
    RunMirrors(cfg, s, base, trusted, ops);
  }

  lemma StoppedReadable(cfg: Config, s: State, trusted: Message -> bool, order: seq<Text>, cs: Chains)
    requires Stopped(cfg, s, trusted, order, cs)
    ensures AllReadable(s.store) && AfterLoad(s.store, order) == s.store
  {
    hide SeenAgrees, EntriesMatch, Mirrors, Files, AllReadable, AfterLoad, EmptyLists, SameConfig;
    MirrorReadable(cfg, s, trusted);
    NothingToMove(s.store, order);
  }

  // ---------------------------------------------------------------- the store still mirrors it

  /** With a message, also what it is reloaded as. */
  ghost predicate Closed(trusted: Message -> bool) { forall m | trusted(m) :: trusted(Reloaded(m)) }

  lemma EncodeReloaded(p: PendingTransfer)
    ensures PendingKey(ReloadedPending(p)) == PendingKey(p)
    ensures Encoded(Pending(ReloadedPending(p))) == Encoded(Pending(p))
  {
    StoredTimeKept(p.releaseTime);
    StoredTimeKept(p.msg.timestamp);
  }

  lemma EncodeCut(t: Transfer)
    ensures TransferKey(Cut(t)) == TransferKey(t) && Encoded(Done(Cut(t))) == Encoded(Done(t))
  {
    StoredTimeKept(t.timestamp);
  }

  /** The transfers that a load deletes from the store. */
  ghost function StaleKeys(store: Store, order: seq<Text>, now: int): set<Text> {
    TransferKeys(Stale(Sort(StoredTransfers(store, order), TransferLeq), now - DAY))
  }

  lemma StaleKeyFrom(store: Store, order: seq<Text>, now: int, k: Text)
    ensures k in StaleKeys(store, order, now) <==>
      exists u :: u in StoredTransfers(store, order) && u.timestamp <= now - DAY && TransferKey(u) == k
  {
    hide StoredTransfers, Stale, NewKey, Sort;
    var ts := StoredTransfers(store, order);
    var us := Sort(ts, TransferLeq);
    SameElements(ts, us);
    forall u
      ensures u in Stale(us, now - DAY) <==> u in ts && u.timestamp <= now - DAY
    {
      RecentOrStale(us, now - DAY, u);
    }
    KeysOf(Stale(us, now - DAY), k);
  }

  lemma KeysOf(ts: seq<Transfer>, k: Text)
    ensures k in TransferKeys(ts) <==> exists u :: u in ts && TransferKey(u) == k
  {
    hide NewKey;
    forall u | u in ts && TransferKey(u) == k
      ensures k in TransferKeys(ts)
    {
      KeyIsTransferKey(u);
    }
  }

  lemma LoadedStore(cfg: Config, s: State, trusted: Message -> bool, order: seq<Text>, cs: Chains, now: int)
    requires Stopped(cfg, s, trusted, order, cs)
    ensures Loaded(cfg, cs, s.store, order, now).store == s.store - StaleKeys(s.store, order, now)
  {
    hide Stopped, StoredTransfers, Stale, Sort, Recovered, TransferKeys;
    StoppedReadable(cfg, s, trusted, order, cs);
  }

  /** No pending transfer is deleted, and a listed transfer exactly if it is too old. */
  lemma StaleKeysAre(cfg: Config, s: State, trusted: Message -> bool, order: seq<Text>, cs: Chains, now: int)
    requires Stopped(cfg, s, trusted, order, cs) && OneHashPerId(cfg, trusted)
    ensures forall k | k in StaleKeys(s.store, order, now) :: KindOf(k) != PendingKind
    ensures forall c, t | ListedIn(s.chains, c, t) ::
      TransferKey(t) in StaleKeys(s.store, order, now) <==> Cut(t).timestamp <= now - DAY
  {
    hide Stopped, StoredTransfers, StaleKeys, KindOf, TransferKey, ListedIn, OneHashPerId;
    forall k | k in StaleKeys(s.store, order, now)
      ensures KindOf(k) != PendingKind
    {
      StaleKeyFrom(s.store, order, now, k);
      var u :| u in StoredTransfers(s.store, order) && u.timestamp <= now - DAY && TransferKey(u) == k;
      KeyIsTransferKey(u);
      KindsOfTransferKey(u);
    }
    forall c, t | ListedIn(s.chains, c, t)
      ensures TransferKey(t) in StaleKeys(s.store, order, now) <==> Cut(t).timestamp <= now - DAY
    {
      StaleKeyOf(cfg, s, trusted, order, cs, now, c, t);
    }
  }

  lemma StaleKeyOf(cfg: Config, s: State, trusted: Message -> bool, order: seq<Text>, cs: Chains, now: int, c: uint16,
        t: Transfer)
    requires Stopped(cfg, s, trusted, order, cs) && OneHashPerId(cfg, trusted) && ListedIn(s.chains, c, t)
    ensures TransferKey(t) in StaleKeys(s.store, order, now) <==> Cut(t).timestamp <= now - DAY
  {
    StaleKeyFrom(s.store, order, now, TransferKey(t));
    EncodeCut(t);
    hide SeenAgrees, EntriesMatch, Kept, EmptyLists, SameConfig, StoredTransfers, StaleKeys, TransferKey, OneHashPerId,
      ListedIn, Cut;
    StoredOfListed(cfg, s, trusted, order, c, t);
    forall u | u in StoredTransfers(s.store, order) && TransferKey(u) == TransferKey(t)
      ensures u == Cut(t)
    {
      var d, v := StoredIsListed(cfg, s, trusted, order, u);
      EncodeCut(v);
      SameKeySameTransfer(cfg, s, trusted, c, t, d, v);
    }
  }

  lemma SameKeySameTransfer(cfg: Config, s: State, trusted: Message -> bool, c: uint16, t: Transfer, d: uint16,
        u: Transfer)
    requires SeenAgrees(s.chains, s.seen) && Kept(cfg, s, trusted) && OneHashPerId(cfg, trusted)
    requires ListedIn(s.chains, c, t) && ListedIn(s.chains, d, u) && TransferKey(t) == TransferKey(u)
    ensures c == d && t == u
  {
    hide SeenAgrees, Mirrors, OneHashPerId, TransferKey, OnFile, Sound, KnownTransfer, FiledFor;
    SameTransferKey(cfg, trusted, c, t, d, u);
    SoundKind(cfg, trusted, c, t);
    SameHashSameTransfer(cfg, s, trusted, c, t, d, u);
  }

  lemma LoadedConfig(cfg: Config, s: State, trusted: Message -> bool, order: seq<Text>, cs: Chains, now: int)
    requires Stopped(cfg, s, trusted, order, cs)
    ensures var t := Loaded(cfg, cs, s.store, order, now);
      && SeenAgrees(t.chains, t.seen) && SameConfig(cs, t.chains) && SameConfig(s.chains, cs) && EmptyLists(cs)
      && SameConfig(s.chains, t.chains) && t.clock == now
  {
    hide Rebuilt, EmptyLists, StoredPendings, StoredTransfers, AfterLoad, Stale, TransferKeys, KnownPending,
      KnownTransfer, ListedHash, SameConfig, Enqueued, TransfersFrom, PendingFrom, SeenAgrees, EntriesMatch, Kept;
    ReloadRebuilds(cfg, cs, StoredPendings(s.store, order), StoredTransfers(s.store, order), now);
    SameConfigAs(s.chains, cs, Loaded(cfg, cs, s.store, order, now).chains);
  }

  lemma InQueueAt(cs: Chains, p: PendingTransfer) returns (c: uint16, pe: PendingEntry)
    requires InQueue(cs, p)
    ensures QueuedIn(cs, c, pe) && pe.dbData == p
  {
    var d, i :| d in cs && 0 <= i < |cs[d].pending| && cs[d].pending[i].dbData == p;
    c, pe := d, cs[d].pending[i];
  }

  lemma AtInQueue(cs: Chains, c: uint16, pe: PendingEntry)
    requires QueuedIn(cs, c, pe)
    ensures InQueue(cs, pe.dbData)
  {
    var i :| 0 <= i < |cs[c].pending| && cs[c].pending[i] == pe;
  }

  /** What is queued after a load is on record. */
  lemma LoadedOnRecord(cfg: Config, s: State, trusted: Message -> bool, order: seq<Text>, cs: Chains, now: int,
        p: PendingTransfer)
    requires Stopped(cfg, s, trusted, order, cs) && OneHashPerId(cfg, trusted) && Closed(trusted)
    requires InQueue(Loaded(cfg, cs, s.store, order, now).chains, p)
    ensures var t := Loaded(cfg, cs, s.store, order, now);
      OnRecord(t.store, p) && trusted(p.msg) && KnownPending(cfg, t.chains, p)
  {
    hide Stopped, Loaded, InQueue, OneHashPerId, KnownPending, PendingKey, ReloadedPending, Encoded, KindOf, SameConfig,
      SeenAgrees, QueuedIn, Closed;
    var t := Loaded(cfg, cs, s.store, order, now);
    var c, pe := InQueueAt(t.chains, p);
    var qe := LoadedWasQueued(cfg, s, trusted, order, cs, now, c, pe);
    var q := qe.dbData;
    AtInQueue(s.chains, c, qe);
    StoppedOnRecord(cfg, s, trusted, order, cs, q);
    EncodeReloaded(q);
    KindOfPendingKey(q);
    LoadedStore(cfg, s, trusted, order, cs, now);
    StaleKeysAre(cfg, s, trusted, order, cs, now);
    LoadedConfig(cfg, s, trusted, order, cs, now);
    KnownElsewhere(cfg, s.chains, t.chains, q, EmptyTransfer());
    ReloadedKnown(cfg, t.chains, q);
    ReloadedTrusted(trusted, q);
  }

  lemma ReloadedTrusted(trusted: Message -> bool, q: PendingTransfer)
    requires Closed(trusted) && trusted(q.msg)
    ensures trusted(ReloadedPending(q).msg)
  {
  }

  lemma StoppedOnRecord(cfg: Config, s: State, trusted: Message -> bool, order: seq<Text>, cs: Chains,
        q: PendingTransfer)
    requires Stopped(cfg, s, trusted, order, cs) && InQueue(s.chains, q)
    ensures OnRecord(s.store, q) && trusted(q.msg) && KnownPending(cfg, s.chains, q)
  {
    hide SeenAgrees, EntriesMatch, Files, InQueue, OnRecord, KnownPending, KindOf, ReadEntry, PendingKey;
  }

  lemma StoppedOwner(cfg: Config, s: State, trusted: Message -> bool, order: seq<Text>, cs: Chains, k: Text)
    returns (p: PendingTransfer)
    requires Stopped(cfg, s, trusted, order, cs) && k in s.store && KindOf(k) == PendingKind
    ensures InQueue(s.chains, p) && PendingKey(p) == k
  {
    hide SeenAgrees, EntriesMatch, Files, InQueue, OnRecord, KnownPending, KindOf, ReadEntry, PendingKey;
    p :| InQueue(s.chains, p) && PendingKey(p) == k;
  }

  lemma StoppedKinds(cfg: Config, s: State, trusted: Message -> bool, order: seq<Text>, cs: Chains)
    requires Stopped(cfg, s, trusted, order, cs)
    ensures forall k | k in s.store ::
      !IsOld(KindOf(k)) && (KindOf(k) == TransferKind ==> ReadEntry(k, s.store[k]).Some?)
  {
    hide SeenAgrees, EntriesMatch, Files, InQueue, OnRecord, KnownPending, KindOf, ReadEntry, PendingKey;
  }

  lemma LoadedMirrors(cfg: Config, s: State, trusted: Message -> bool, order: seq<Text>, cs: Chains, now: int)
    requires Stopped(cfg, s, trusted, order, cs) && OneHashPerId(cfg, trusted) && Closed(trusted)
    ensures Mirrors(cfg, Loaded(cfg, cs, s.store, order, now), trusted)
  {
    hide Stopped, Loaded, InQueue, OneHashPerId, OnRecord, KnownPending, PendingKey, ReloadedPending, KindOf, ReadEntry,
      QueuedIn, Closed, StaleKeys;
    var t := Loaded(cfg, cs, s.store, order, now);
    LoadedStore(cfg, s, trusted, order, cs, now);
    StoppedKinds(cfg, s, trusted, order, cs);
    forall p | InQueue(t.chains, p)
      ensures OnRecord(t.store, p) && trusted(p.msg) && KnownPending(cfg, t.chains, p)
    {
      LoadedOnRecord(cfg, s, trusted, order, cs, now, p);
    }
    forall k | k in t.store && KindOf(k) == PendingKind
      ensures exists p :: InQueue(t.chains, p) && PendingKey(p) == k
    {
      var q := StoppedOwner(cfg, s, trusted, order, cs, k);
      var c, qe := InQueueAt(s.chains, q);
      QueuedIsLoaded(cfg, s, trusted, order, cs, now, c, qe);
      AtInQueue(t.chains, c, CutEntry(qe));
      EncodeReloaded(q);
    }
  }

  lemma StoppedFiled(cfg: Config, s: State, trusted: Message -> bool, order: seq<Text>, cs: Chains, c: uint16,
        t: Transfer)
    requires Stopped(cfg, s, trusted, order, cs) && ListedIn(s.chains, c, t)
    ensures OnFile(s.store, t) && Sound(cfg, trusted, c, t) && KnownTransfer(cfg, s.chains, t)
  {
    hide SeenAgrees, EntriesMatch, Mirrors, OnFile, Sound, KnownTransfer, ListedIn, FiledFor, KindOf;
  }

  lemma StoppedFileOwner(cfg: Config, s: State, trusted: Message -> bool, order: seq<Text>, cs: Chains, k: Text)
    returns (c: uint16, t: Transfer)
    requires Stopped(cfg, s, trusted, order, cs) && k in s.store && KindOf(k) == TransferKind
    ensures ListedIn(s.chains, c, t) && TransferKey(t) == k
  {
    hide SeenAgrees, EntriesMatch, Mirrors, OnFile, Sound, KnownTransfer, ListedIn, KindOf, TransferKey;
    c, t :| ListedIn(s.chains, c, t) && TransferKey(t) == k;
  }

  lemma CutIsSound(cfg: Config, trusted: Message -> bool, c: uint16, t: Transfer)
    requires Sound(cfg, trusted, c, t)
    ensures Sound(cfg, trusted, c, Cut(t))
  {
    hide HashFromMsg;
    var m :| trusted(m) && IsAbout(cfg, t, m);
    assert IsAbout(cfg, Cut(t), m);
  }

  lemma LoadedFiles(cfg: Config, s: State, trusted: Message -> bool, order: seq<Text>, cs: Chains, now: int)
    requires Stopped(cfg, s, trusted, order, cs) && OneHashPerId(cfg, trusted)
    ensures Files(cfg, Loaded(cfg, cs, s.store, order, now), trusted)
  {
    hide Stopped, Loaded, OneHashPerId, Sound, KnownTransfer, TransferKey, KindOf, ListedIn, StaleKeys, Cut, Encoded,
      SameConfig, SeenAgrees;
    var t := Loaded(cfg, cs, s.store, order, now);
    LoadedStore(cfg, s, trusted, order, cs, now);
    StaleKeysAre(cfg, s, trusted, order, cs, now);
    LoadedConfig(cfg, s, trusted, order, cs, now);
    forall c, u | ListedIn(t.chains, c, u)
      ensures OnFile(t.store, u) && Sound(cfg, trusted, c, u) && KnownTransfer(cfg, t.chains, u)
    {
      var v := LoadedWasListed(cfg, s, trusted, order, cs, now, c, u);
      StoppedFiled(cfg, s, trusted, order, cs, c, v);
      EncodeCut(v);
      CutIsSound(cfg, trusted, c, v);
      KnownCut(cfg, s.chains, t.chains, v);
    }
    forall k | k in t.store && KindOf(k) == TransferKind
      ensures FiledFor(t.chains, k)
    {
      var c, v := StoppedFileOwner(cfg, s, trusted, order, cs, k);
      ListedIsLoaded(cfg, s, trusted, order, cs, now, c, v);
      EncodeCut(v);
    }
  }

  /** The store still holds exactly what a restarted governor has in its queues and lists. */
  lemma LoadedKept(cfg: Config, s: State, trusted: Message -> bool, order: seq<Text>, cs: Chains, now: int)
    requires Stopped(cfg, s, trusted, order, cs) && OneHashPerId(cfg, trusted) && Closed(trusted)
    ensures Kept(cfg, Loaded(cfg, cs, s.store, order, now), trusted)
  {
    hide Stopped, Loaded, Mirrors, Files, OneHashPerId, Closed;
    LoadedMirrors(cfg, s, trusted, order, cs, now);
    LoadedFiles(cfg, s, trusted, order, cs, now);
  }
}
