/** What the governor leaves in the store is what a restarted one needs: on every run the stored
    pending transfers are exactly the queued ones and the stored transfers are exactly the listed
    ones, and reloading the pending transfers enqueues the same messages. */
module Restart {
  import opened Binary
  import opened Vaa
  import opened Keys
  import opened Publication
  import opened Transfers
  import opened GovernorDb
  import opened Scans
  import opened Sorting
  import opened Listings
  import opened Window
  import opened Governor
  import opened GovernorState
  import opened Reload
  import opened GovernorNode
  import opened GovernorRuns
  import opened Migration
  import opened TransferFiles

  function PendingKey(p: PendingTransfer): Text { NewKey(Pending(p)) }

  ghost predicate InQueue(cs: Chains, p: PendingTransfer) {
    exists c, i :: c in cs && 0 <= i < |cs[c].pending| && cs[c].pending[i].dbData == p
  }

  predicate OnRecord(store: Store, p: PendingTransfer) {
    PendingKey(p) in store && store[PendingKey(p)] == Encoded(Pending(p))
  }

  /** Every queued transfer is stored, every stored pending transfer is queued, and everything the
      governor has stored is in the new formats and can be read. */
  ghost predicate Mirrors(cfg: Config, s: State, trusted: Message -> bool) {
    && (forall p | InQueue(s.chains, p) :: OnRecord(s.store, p) && trusted(p.msg) && KnownPending(cfg, s.chains, p))
    && (forall k | k in s.store && KindOf(k) == PendingKind :: exists p :: InQueue(s.chains, p) && PendingKey(p) == k)
    && (forall k | k in s.store :: !IsOld(KindOf(k)) && (KindOf(k) == TransferKind ==> ReadEntry(k, s.store[k]).Some?))
  }

  // ---------------------------------------------------------------- queues

  lemma EnqueueIn(cs: Chains, c: uint16, pe: PendingEntry, p: PendingTransfer)
    requires c in cs
    ensures InQueue(Enqueue(cs, c, pe), p) <==> InQueue(cs, p) || p == pe.dbData
  {
    var cs' := Enqueue(cs, c, pe);
    if InQueue(cs, p) {
      var d, i :| d in cs && 0 <= i < |cs[d].pending| && cs[d].pending[i].dbData == p;
      assert cs'[d].pending[i].dbData == p;
    }
    assert cs'[c].pending[|cs[c].pending|].dbData == pe.dbData;
  }

  lemma TransfersIn(cs: Chains, c: uint16, transfers: seq<Transfer>, p: PendingTransfer)
    requires c in cs
    ensures InQueue(cs[c := cs[c].(transfers := transfers)], p) <==> InQueue(cs, p)
  {
    var cs' := cs[c := cs[c].(transfers := transfers)];
    if InQueue(cs, p) {
      var d, i :| d in cs && 0 <= i < |cs[d].pending| && cs[d].pending[i].dbData == p;
      assert cs'[d].pending[i].dbData == p;
    }
  }

  /** The message at a place has the hash that is listed there, and no other place has it. */
  lemma OnePlace(cfg: Config, cs: Chains, seen: Seen, c: uint16, i: nat, d: uint16, j: nat)
    requires SeenAgrees(cs, seen) && EntriesMatch(cfg, cs)
    requires c in cs && i < |cs[c].pending| && d in cs && j < |cs[d].pending|
    requires HashFromMsg(cfg, cs[c].pending[i].dbData.msg) == HashFromMsg(cfg, cs[d].pending[j].dbData.msg)
    ensures c == d && i == j
  {
    hide HashFromMsg;
    var h := HashFromMsg(cfg, cs[c].pending[i].dbData.msg);
    assert EntryMatches(cfg, c, cs[c].pending[i]) && EntryMatches(cfg, d, cs[d].pending[j]);
    assert ListedAt(PendingLists(cs), c, i, h) && ListedAt(PendingLists(cs), d, j, h);
  }

  lemma DequeueIn(cfg: Config, cs: Chains, seen: Seen, c: uint16, i: nat, p: PendingTransfer)
    requires SeenAgrees(cs, seen) && EntriesMatch(cfg, cs) && c in cs && i < |cs[c].pending|
    ensures InQueue(Dequeue(cs, c, i), p) <==> InQueue(cs, p) && p != cs[c].pending[i].dbData
  {
    hide SeenAgrees, EntriesMatch, HashFromMsg;
    var cs' := Dequeue(cs, c, i);
    if InQueue(cs', p) {
      var d, j :| d in cs' && 0 <= j < |cs'[d].pending| && cs'[d].pending[j].dbData == p;
      var k := if d == c && j >= i then j + 1 else j;
      assert cs[d].pending[k].dbData == p;
      if p == cs[c].pending[i].dbData {
        OnePlace(cfg, cs, seen, c, i, d, k);
      }
    }
    if InQueue(cs, p) && p != cs[c].pending[i].dbData {
      var d, j :| d in cs && 0 <= j < |cs[d].pending| && cs[d].pending[j].dbData == p;
      assert cs'[d].pending[if d == c && j > i then j - 1 else j].dbData == p;
    }
  }

  lemma SameKeySameId(p: PendingTransfer, q: PendingTransfer)
    requires PendingKey(p) == PendingKey(q)
    ensures IdOfMessage(p.msg) == IdOfMessage(q.msg)
  {
    SameTag(PENDING, MessageIDString(p.msg), MessageIDString(q.msg));
    MessageIDInjective(IdOfMessage(p.msg), IdOfMessage(q.msg));
  }

  /** With one hash per id, no two queued transfers share a key. */
  lemma OneQueuedPerKey(cfg: Config, s: State, trusted: Message -> bool, p: PendingTransfer, q: PendingTransfer)
    requires SeenAgrees(s.chains, s.seen) && EntriesMatch(cfg, s.chains) && Mirrors(cfg, s, trusted)
      && OneHashPerId(cfg, trusted)
    requires InQueue(s.chains, p) && InQueue(s.chains, q) && PendingKey(p) == PendingKey(q)
    ensures p == q
  {
    hide SeenAgrees, EntriesMatch, HashFromMsg, OnRecord, KnownPending, PendingKey, ReadEntry, KindOf;
    SameKeySameId(p, q);
    var c, i :| c in s.chains && 0 <= i < |s.chains[c].pending| && s.chains[c].pending[i].dbData == p;
    var d, j :| d in s.chains && 0 <= j < |s.chains[d].pending| && s.chains[d].pending[j].dbData == q;
    OnePlace(cfg, s.chains, s.seen, c, i, d, j);
  }

  lemma KindOfPendingKey(p: PendingTransfer)
    ensures KindOf(PendingKey(p)) == PendingKind
  {
    KindOfKeys(p.msg, EmptyTransfer());
  }

  // ---------------------------------------------------------------- each change keeps the mirror

  /** The stored pending transfers depend on nothing but the pending keys. */
  lemma OtherKeysMirror(cfg: Config, s: State, t: State, trusted: Message -> bool)
    requires Mirrors(cfg, s, trusted) && SameConfig(s.chains, t.chains)
    requires forall p :: InQueue(t.chains, p) <==> InQueue(s.chains, p)
    requires forall k | KindOf(k) == PendingKind :: k in t.store <==> k in s.store
    requires forall k | KindOf(k) == PendingKind && k in s.store :: t.store[k] == s.store[k]
    requires forall k | k in t.store && KindOf(k) != PendingKind ::
      !IsOld(KindOf(k)) && (KindOf(k) == TransferKind ==> ReadEntry(k, t.store[k]).Some?)
    ensures Mirrors(cfg, t, trusted)
  {
    hide InQueue, KnownPending, PendingKey, ReadEntry, KindOf, Encoded, SameConfig;
    forall p | InQueue(t.chains, p)
      ensures OnRecord(t.store, p) && trusted(p.msg) && KnownPending(cfg, t.chains, p)
    {
      KindOfPendingKey(p);
      KnownElsewhere(cfg, s.chains, t.chains, p, EmptyTransfer());
    }
    forall k | k in t.store && KindOf(k) == PendingKind
      ensures exists p :: InQueue(t.chains, p) && PendingKey(p) == k
    {
      var p :| InQueue(s.chains, p) && PendingKey(p) == k;
      assert InQueue(t.chains, p);
    }
  }

  lemma TrimMirrors(cfg: Config, s: State, trusted: Message -> bool, c: uint16)
    requires Mirrors(cfg, s, trusted) && c in s.chains
    ensures Mirrors(cfg, Trimmed(s, c), trusted)
  {
    hide InQueue, OnRecord, KnownPending, PendingKey, ReadEntry, KindOf, Encoded, NewKey, Expired, Hashes;
    var ts := s.chains[c].transfers;
    var n := Expired(ts, s.clock - DAY);
    var t := Trimmed(s, c);
    forall p
      ensures InQueue(t.chains, p) <==> InQueue(s.chains, p)
    {
      TransfersIn(s.chains, c, ts[n..], p);
    }
    forall k | k in TransferKeys(ts[..n])
      ensures KindOf(k) != PendingKind
    {
      var u :| u in ts[..n] && NewKey(Done(u)) == k;
      KindsOfTransferKey(u);
    }
    OtherKeysMirror(cfg, s, t, trusted);
  }

  /** The texts of a transfer fit their length fields, so it can be read back. */
  predicate ShortTexts(t: Transfer) { |t.msgID| < 0x1_0000 && |t.hash| < 0x1_0000 }

  lemma StoredTransferReads(t: Transfer)
    requires ShortTexts(t) && KindOf(NewKey(Done(t))) == TransferKind
    ensures ReadEntry(NewKey(Done(t)), Encoded(Done(t))).Some?
  {
    TransferReadsBack(t);
  }

  lemma CountMirrors(cfg: Config, s: State, trusted: Message -> bool, c: uint16, t: Transfer)
    requires Mirrors(cfg, s, trusted) && c in s.chains && c in s.history && ShortTexts(t)
    ensures Mirrors(cfg, Recorded(s, c, t), trusted)
  {
    hide InQueue, OnRecord, KnownPending, PendingKey, ReadEntry, KindOf, Encoded, NewKey;
    var u := Recorded(s, c, t);
    forall p
      ensures InQueue(u.chains, p) <==> InQueue(s.chains, p)
    {
      TransfersIn(s.chains, c, s.chains[c].transfers + [t], p);
    }
    KindsOfTransferKey(t);
    if KindOf(NewKey(Done(t))) == TransferKind {
      StoredTransferReads(t);
    }
    OtherKeysMirror(cfg, s, u, trusted);
  }

  lemma QueueMirrors(cfg: Config, s: State, trusted: Message -> bool, c: uint16, pe: PendingEntry)
    requires SeenAgrees(s.chains, s.seen) && EntriesMatch(cfg, s.chains) && Mirrors(cfg, s, trusted)
      && OneHashPerId(cfg, trusted)
    requires c in s.chains && pe.hash !in s.seen && EntryMatches(cfg, c, pe)
    requires trusted(pe.dbData.msg) && KnownPending(cfg, s.chains, pe.dbData)
    ensures Mirrors(cfg, Queued(s, c, pe), trusted)
  {
    hide InQueue, KnownPending, PendingKey, ReadEntry, KindOf, Encoded, NewKey, SeenAgrees, EntriesMatch, HashFromMsg,
      DecodeTransferHdr;
    var t := Queued(s, c, pe);
    forall p
      ensures InQueue(t.chains, p) <==> InQueue(s.chains, p) || p == pe.dbData
    {
      EnqueueIn(s.chains, c, pe, p);
    }
    KeyIsPendingKey(pe.dbData);
    KindOfPendingKey(pe.dbData);
    EnqueueConfig(s.chains, c, pe);
    forall p | InQueue(t.chains, p)
      ensures OnRecord(t.store, p) && trusted(p.msg) && KnownPending(cfg, t.chains, p)
    {
      KnownElsewhere(cfg, s.chains, t.chains, p, EmptyTransfer());
      if p != pe.dbData {
        NewHashNewKey(cfg, s, trusted, pe, p);
      }
    }
    forall k | k in t.store && KindOf(k) == PendingKind
      ensures exists p :: InQueue(t.chains, p) && PendingKey(p) == k
    {
      if k in s.store {
        var p :| InQueue(s.chains, p) && PendingKey(p) == k;
        assert InQueue(t.chains, p);
      } else {
        assert InQueue(t.chains, pe.dbData);
      }
    }
  }

  lemma KeyIsPendingKey(p: PendingTransfer)
    ensures NewKey(Pending(p)) == PendingKey(p)
  {
  }

  lemma EnqueueConfig(cs: Chains, c: uint16, pe: PendingEntry)
    requires c in cs
    ensures SameConfig(cs, Enqueue(cs, c, pe))
  {
  }

  /** A message that has not been seen has another id than all queued ones. */
  lemma NewHashNewKey(cfg: Config, s: State, trusted: Message -> bool, pe: PendingEntry, p: PendingTransfer)
    requires SeenAgrees(s.chains, s.seen) && EntriesMatch(cfg, s.chains) && OneHashPerId(cfg, trusted)
    requires pe.hash == HashFromMsg(cfg, pe.dbData.msg) && pe.hash !in s.seen
    requires InQueue(s.chains, p) && trusted(p.msg) && trusted(pe.dbData.msg)
    ensures PendingKey(p) != PendingKey(pe.dbData)
  {
    hide SeenAgrees, HashFromMsg, PendingKey, DecodeTransferHdr;
    var c, i :| c in s.chains && 0 <= i < |s.chains[c].pending| && s.chains[c].pending[i].dbData == p;
    assert EntryMatches(cfg, c, s.chains[c].pending[i]);
    PendingIsEnqueued(s.chains, s.seen, c, i);
    if PendingKey(p) == PendingKey(pe.dbData) {
      SameKeySameId(p, pe.dbData);
    }
  }

  lemma RemoveMirrors(cfg: Config, s: State, trusted: Message -> bool, c: uint16, i: nat, t: State)
    requires SeenAgrees(s.chains, s.seen) && EntriesMatch(cfg, s.chains) && Mirrors(cfg, s, trusted)
      && OneHashPerId(cfg, trusted)
    requires c in s.chains && i < |s.chains[c].pending|
    requires t.chains == Dequeue(s.chains, c, i) && t.store == s.store - {PendingKey(s.chains[c].pending[i].dbData)}
    ensures Mirrors(cfg, t, trusted)
  {
    hide KnownPending, PendingKey, ReadEntry, KindOf, Encoded, SeenAgrees, EntriesMatch, HashFromMsg, OneHashPerId;
    var gone := s.chains[c].pending[i].dbData;
    assert InQueue(s.chains, gone);
    hide InQueue;
    forall p
      ensures InQueue(t.chains, p) <==> InQueue(s.chains, p) && p != gone
    {
      DequeueIn(cfg, s.chains, s.seen, c, i, p);
    }
    DequeueConfig(s.chains, c, i);
    forall p | InQueue(t.chains, p)
      ensures OnRecord(t.store, p) && trusted(p.msg) && KnownPending(cfg, t.chains, p)
    {
      KnownElsewhere(cfg, s.chains, t.chains, p, EmptyTransfer());
      if PendingKey(p) == PendingKey(gone) {
        OneQueuedPerKey(cfg, s, trusted, p, gone);
      }
    }
    forall k | k in t.store && KindOf(k) == PendingKind
      ensures exists p :: InQueue(t.chains, p) && PendingKey(p) == k
    {
      var p :| InQueue(s.chains, p) && PendingKey(p) == k;
      assert InQueue(t.chains, p);
    }
  }

  lemma DequeueConfig(cs: Chains, c: uint16, i: nat)
    requires c in cs && i < |cs[c].pending|
    ensures SameConfig(cs, Dequeue(cs, c, i))
  {
  }

  lemma ReleaseMirrors(cfg: Config, s: State, trusted: Message -> bool, c: uint16, i: nat, counted: Option<Transfer>)
    requires SeenAgrees(s.chains, s.seen) && EntriesMatch(cfg, s.chains) && Mirrors(cfg, s, trusted)
      && OneHashPerId(cfg, trusted)
    requires c in s.chains && i < |s.chains[c].pending|
      && (counted.Some? ==> c in s.history && ShortTexts(counted.value))
    ensures Mirrors(cfg, Released(s, c, i, counted), trusted)
  {
    hide SeenAgrees, EntriesMatch, OneHashPerId, Mirrors, Encoded, NewKey, ShortTexts;
    var p := s.chains[c].pending[i].dbData;
    KeyIsPendingKey(p);
    var left := s.(chains := Dequeue(s.chains, c, i), seen := s.seen - {s.chains[c].pending[i].hash},
      store := s.store - {PendingKey(p)});
    RemoveMirrors(cfg, s, trusted, c, i, left);
    if counted.Some? {
      var t := counted.value;
      CountMirrors(cfg, left, trusted, c, t);
      KeysDiffer(Pending(p), Done(t));
      assert left.store[NewKey(Done(t)) := Encoded(Done(t))] ==
        s.store[NewKey(Done(t)) := Encoded(Done(t))] - {PendingKey(p)};
      assert Released(s, c, i, counted) == Recorded(left, c, t);
    } else {
      assert Released(s, c, i, counted) == left;
    }
  }

  // ---------------------------------------------------------------- the texts are short

  lemma {:induction false} DecGrows(m: nat, n: nat)
    requires m <= n
    ensures |Dec(m)| <= |Dec(n)|
    decreases n
  {
    if m >= 10 {
      DecGrows(m / 10, n / 10);
    }
  }

  lemma DecThree(n: nat)
    ensures n < 1000 ==> |Dec(n)| <= 3
    ensures n >= 1000 ==> |Dec(n)| == |Dec(n / 1000)| + 3
  {
    var a := n / 10;
    var b := a / 10;
    assert n >= 10 ==> |Dec(n)| == |Dec(a)| + 1;
    assert a >= 10 ==> |Dec(a)| == |Dec(b)| + 1;
    assert b >= 10 ==> |Dec(b)| == |Dec(b / 10)| + 1;
    assert b / 10 == n / 1000;
  }

  /** A number of w bytes has at most three digits per byte, and one more. */
  lemma {:induction false} DecShort(n: nat, w: nat)
    requires Fits(n, w)
    ensures |Dec(n)| <= 3 * w + 1
  {
    DecThree(n);
    if w > 0 && n >= 1000 {
      DecShort(n / 256, w - 1);
      hide Dec;
      DecGrows(n / 1000, n / 256);
    }
  }

  lemma MessageIDShort(m: Message)
    ensures |MessageIDString(m)| < 0x1_0000
  {
    Widths();
    DecShort(m.emitterChain, 2);
    DecShort(m.sequence, 8);
  }

  lemma NewTransferShort(cfg: Config, m: Message, hdr: TransferHdr, value: uint64, now: int)
    ensures ShortTexts(NewTransfer(cfg, m, hdr, value, now))
  {
    hide MessageID;
    MessageIDShort(m);
  }

  lemma ReleasedTransferShort(cfg: Config, c: uint16, pe: PendingEntry, hdr: TransferHdr, value: uint64, now: int)
    requires EntryMatches(cfg, c, pe)
    ensures ShortTexts(TransferOf(pe, hdr, value, now))
  {
    hide MessageID;
    MessageIDShort(pe.dbData.msg);
  }

  // ---------------------------------------------------------------- every run keeps the mirror

  /** The store mirrors the queues and the lists. */
  ghost predicate Kept(cfg: Config, s: State, trusted: Message -> bool) {
    Mirrors(cfg, s, trusted) && Files(cfg, s, trusted)
  }

  lemma NewTransferSound(cfg: Config, cs: Chains, trusted: Message -> bool, m: Message, hdr: TransferHdr,
        value: uint64, now: int)
    requires ParseMsg(cfg, cs, m) == Applies(hdr) && trusted(m)
    ensures var t := NewTransfer(cfg, m, hdr, value, now);
      t.hash == HashFromMsg(cfg, m) && Sound(cfg, trusted, m.emitterChain, t) && KnownTransfer(cfg, cs, t)
  {
    hide HashFromMsg, DecodeTransferHdr;
    assert IsAbout(cfg, NewTransfer(cfg, m, hdr, value, now), m);
  }

  lemma ReleasedTransferSound(cfg: Config, cs: Chains, trusted: Message -> bool, c: uint16, pe: PendingEntry,
        hdr: TransferHdr, value: uint64, now: int)
    requires EntryMatches(cfg, c, pe) && trusted(pe.dbData.msg) && KnownPending(cfg, cs, pe.dbData)
    ensures var t := TransferOf(pe, hdr, value, now);
      t.hash == pe.hash && Sound(cfg, trusted, c, t) && KnownTransfer(cfg, cs, t)
  {
    hide HashFromMsg, DecodeTransferHdr;
    assert IsAbout(cfg, TransferOf(pe, hdr, value, now), pe.dbData.msg);
  }

  lemma EnterMirrors(cfg: Config, s: State, trusted: Message -> bool, m: Message, hdr: TransferHdr, j: Judgement)
    requires SeenAgrees(s.chains, s.seen) && EntriesMatch(cfg, s.chains) && Kept(cfg, s, trusted)
      && OneHashPerId(cfg, trusted)
    requires ParseMsg(cfg, s.chains, m) == Applies(hdr) && HashFromMsg(cfg, m) !in s.seen && trusted(m)
    requires m.emitterChain in s.chains && m.emitterChain in s.history
    ensures Kept(cfg, Enter(cfg, s, m, hdr, j), trusted)
  {
    hide SeenAgrees, EntriesMatch, OneHashPerId, Mirrors, Files, HashFromMsg, EntryMatches, NewPending, NewTransfer,
      ShortTexts, Sound, KnownTransfer, ParseMsg, Queued, Recorded;
    match j
    case Refused =>
    case Queues =>
      PendingMatches(cfg, s.chains, m, hdr, s.clock);
      PendingHash(cfg, m, hdr, s.clock);
      NewPendingKnown(cfg, s.chains, m, hdr, s.clock);
      QueueMirrors(cfg, s, trusted, m.emitterChain, NewPending(cfg, m, hdr, s.clock));
      QueueFiles(cfg, s, trusted, m.emitterChain, NewPending(cfg, m, hdr, s.clock));
    case Counts(value) =>
      NewTransferShort(cfg, m, hdr, value, s.clock);
      NewTransferSound(cfg, s.chains, trusted, m, hdr, value, s.clock);
      CountMirrors(cfg, s, trusted, m.emitterChain, NewTransfer(cfg, m, hdr, value, s.clock));
      CountFiles(cfg, s, trusted, m.emitterChain, NewTransfer(cfg, m, hdr, value, s.clock));
  }

  lemma NewPendingKnown(cfg: Config, cs: Chains, m: Message, hdr: TransferHdr, now: int)
    requires ParseMsg(cfg, cs, m) == Applies(hdr)
    ensures NewPending(cfg, m, hdr, now).dbData.msg == m && KnownPending(cfg, cs, NewPending(cfg, m, hdr, now).dbData)
  {
    hide HashFromMsg;
  }

  lemma InvParts(cfg: Config, s: State, base: map<uint16, nat>)
    requires Inv(cfg, s, base)
    ensures SeenAgrees(s.chains, s.seen) && EntriesMatch(cfg, s.chains) && s.history.Keys == s.chains.Keys
  {
  }

  lemma TickMirrors(cfg: Config, s: State, trusted: Message -> bool, now: int)
    requires Kept(cfg, s, trusted)
    ensures Kept(cfg, s.(clock := now), trusted)
  {
    TickFiles(cfg, s, trusted, now);
    hide InQueue, KnownPending, OnRecord, KindOf, ReadEntry, PendingKey, Files;
  }

  lemma TrimKept(cfg: Config, s: State, base: map<uint16, nat>, trusted: Message -> bool, c: uint16)
    requires Inv(cfg, s, base) && Kept(cfg, s, trusted) && OneHashPerId(cfg, trusted) && c in s.chains
    ensures Kept(cfg, Trimmed(s, c), trusted)
  {
    hide Mirrors, Files, Trimmed, SeenAgrees, EntriesMatch, Limits;
    TrimMirrors(cfg, s, trusted, c);
    TrimFiles(cfg, s, trusted, c);
  }

  lemma ProcessedMirrors(cfg: Config, s: State, base: map<uint16, nat>, trusted: Message -> bool, m: Message,
        now: int, prices: Prices)
    requires Inv(cfg, s, base) && s.clock <= now && Kept(cfg, s, trusted) && OneHashPerId(cfg, trusted) && trusted(m)
    ensures s.history.Keys == s.chains.Keys && Kept(cfg, Processed(cfg, s, m, now, prices).0, trusted)
  {
    hide Inv, Kept, OneHashPerId, ParseMsg, HashFromMsg, Trimmed, Enter, SumSince, Judge, SeenAgrees, EntriesMatch;
    KeysReady(cfg, s, base);
    var t := s.(clock := now);
    TickKeeps(cfg, s, base, now);
    TickMirrors(cfg, s, trusted, now);
    if ParseMsg(cfg, t.chains, m).Applies? && HashFromMsg(cfg, m) !in t.seen {
      var hdr := ParseMsg(cfg, t.chains, m).hdr;
      var c := m.emitterChain;
      AppliesHere(cfg, t.chains, m, hdr);
      TrimKeeps(cfg, t, base, c);
      TrimKept(cfg, t, base, trusted, c);
      TrimmedParses(cfg, t, c, m);
      InvParts(cfg, Trimmed(t, c), base);
      var j := Judge(t.chains[c], TotalOf(t, c), prices(hdr.amount, TokenOf(hdr)));
      EnterMirrors(cfg, Trimmed(t, c), trusted, m, hdr, j);
    }
  }

  /** Releasing an entry, counted as a transfer of the given value or not counted. */
  lemma ReleaseKept(cfg: Config, s: State, trusted: Message -> bool, c: uint16, i: nat,
        counted: Option<(TransferHdr, uint64)>, now: int)
    requires SeenAgrees(s.chains, s.seen) && EntriesMatch(cfg, s.chains) && Kept(cfg, s, trusted)
      && OneHashPerId(cfg, trusted)
    requires c in s.chains && c in s.history && i < |s.chains[c].pending|
    ensures var pe := s.chains[c].pending[i];
      Kept(cfg, Released(s, c, i, if counted.None? then None
        else Some(TransferOf(pe, counted.value.0, counted.value.1, now))), trusted)
  {
    var pe := s.chains[c].pending[i];
    assert InQueue(s.chains, pe.dbData);
    QueuedIsKnown(cfg, s, trusted, pe.dbData);
    DequeueMatches(cfg, s.chains, c, i);
    MatchingHash(cfg, c, pe);
    hide SeenAgrees, EntriesMatch, OneHashPerId, Mirrors, Files, EntryMatches, ShortTexts, Released, Sound,
      KnownPending,
      KnownTransfer, TransferOf;
    var t: Option<Transfer> :=
      if counted.None? then None else Some(TransferOf(pe, counted.value.0, counted.value.1, now));
    if counted.Some? {
      ReleasedTransferShort(cfg, c, pe, counted.value.0, counted.value.1, now);
      ReleasedTransferSound(cfg, s.chains, trusted, c, pe, counted.value.0, counted.value.1, now);
    }
    ReleaseMirrors(cfg, s, trusted, c, i, t);
    ReleaseFiles(cfg, s, trusted, c, i, t);
  }

  lemma RoundMirrors(cfg: Config, s: State, base: map<uint16, nat>, trusted: Message -> bool, c: uint16, prices: Prices)
    requires Inv(cfg, s, base) && c in s.chains && Kept(cfg, s, trusted) && OneHashPerId(cfg, trusted)
    ensures Ready(s, c) && Kept(cfg, RoundOf(s, c, prices).0, trusted)
  {
    hide Inv, Kept, OneHashPerId, Trimmed, Released, SumSince, SeenAgrees, EntriesMatch, FateOf, DecodeTransferHdr,
      EntryMatches, ShortTexts, TransferOf;
    KeysReady(cfg, s, base);
    TrimKeeps(cfg, s, base, c);
    TrimKept(cfg, s, base, trusted, c);
    SameChain(s, c);
    var t := Trimmed(s, c);
    InvParts(cfg, t, base);
    var ce := t.chains[c];
    var i := FirstMoving(ce, TotalOf(s, c), s.clock, prices, 0);
    if i < |ce.pending| {
      var pe := ce.pending[i];
      var fate := FateOf(ce, pe, TotalOf(s, c), s.clock, prices);
      if fate.Goes? {
        var hdr := DecodeTransferHdr(pe.dbData.msg.payload);
        ReleaseKept(cfg, t, trusted, c, i,
          if fate.counts && hdr.Some? then Some((hdr.value, fate.value)) else None, s.clock);
      }
    }
  }

  lemma {:induction false} DrainMirrors(cfg: Config, s: State, base: map<uint16, nat>, trusted: Message -> bool,
        c: uint16, prices: Prices)
    requires Inv(cfg, s, base) && c in s.chains && Kept(cfg, s, trusted) && OneHashPerId(cfg, trusted)
    ensures Ready(s, c) && Kept(cfg, Drain(s, c, prices).0, trusted)
    decreases |s.chains[c].pending|
  {
    hide Inv, Kept, OneHashPerId, RoundOf, HashFromMsg, Enqueued, AllWait;
    RoundMirrors(cfg, s, base, trusted, c, prices);
    RoundKeeps(cfg, s, base, c, prices);
    RoundShrinks(s, c, prices);
    if RoundOf(s, c, prices).1.Sent? {
      DrainMirrors(cfg, RoundOf(s, c, prices).0, base, trusted, c, prices);
    }
  }

  lemma {:induction false} DrainAllMirrors(cfg: Config, s: State, base: map<uint16, nat>, trusted: Message -> bool,
        order: seq<uint16>, prices: Prices)
    requires Inv(cfg, s, base) && (forall c | c in order :: c in s.chains) && Kept(cfg, s, trusted)
      && OneHashPerId(cfg, trusted)
    ensures s.history.Keys == s.chains.Keys && Kept(cfg, DrainAll(s, order, prices).0, trusted)
    decreases |order|
  {
    hide Inv, Kept, OneHashPerId, Drain, SentExactly, AllWait;
    KeysReady(cfg, s, base);
    if order != [] {
      var c := order[0];
      DrainMirrors(cfg, s, base, trusted, c, prices);
      DrainKeeps(cfg, s, base, c, prices);
      DrainReady(s, c, prices);
      if Drain(s, c, prices).2 {
        DrainAllMirrors(cfg, Drain(s, c, prices).0, base, trusted, order[1..], prices);
      }
    }
  }

  ghost predicate TrustedRun(ops: seq<Op>, trusted: Message -> bool) {
    forall op | op in ops && op.Process? :: trusted(op.m)
  }

  /** On every run the stored pending transfers are the queued ones, and the stored transfers are
      the listed ones. */
  lemma {:induction false} RunMirrors(cfg: Config, s: State, base: map<uint16, nat>, trusted: Message -> bool,
        ops: seq<Op>)
    requires Inv(cfg, s, base) && Kept(cfg, s, trusted) && OneHashPerId(cfg, trusted) && IsRun(cfg, s, ops)
      && TrustedRun(ops, trusted)
    ensures Kept(cfg, After(cfg, s, ops), trusted)
    decreases |ops|
  {
    hide Inv, Kept, OneHashPerId, Processed, DrainAll;
    if ops != [] {
      var op := ops[0];
      match op {
        case Process(m, now, prices) => ProcessedMirrors(cfg, s, base, trusted, m, now, prices);
        case Check(order, now, prices) =>
          TickKeeps(cfg, s, base, now);
          TickMirrors(cfg, s, trusted, now);
          DrainAllMirrors(cfg, s.(clock := now), base, trusted, order, prices);
      }
      OpKeeps(cfg, s, base, op);
      RunMirrors(cfg, Apply(cfg, s, op), base, trusted, ops[1..]);
    }
  }

  // ---------------------------------------------------------------- reloading the mirror

  lemma {:induction false} PendingsOfHolds(es: seq<Entry>, p: PendingTransfer)
    ensures p in PendingsOf(es) <==> Pending(p) in es
  {
    if es != [] {
      PendingsOfHolds(es[1..], p);
    }
  }

  /** What is stored for a queued transfer is read back as it, with its times cut to seconds. */
  lemma QueuedReadsBack(cfg: Config, s: State, trusted: Message -> bool, p: PendingTransfer)
    requires Mirrors(cfg, s, trusted) && InQueue(s.chains, p)
    ensures PendingKey(p) in s.store && At(s.store, PendingKey(p), Pending(ReloadedPending(p)))
  {
    hide InQueue, EncodePending, DecodePending, MessageIDString;
    KindOfPendingKey(p);
    assert OnRecord(s.store, p) && KnownPending(cfg, s.chains, p);
    DecodeOfEncodePending(p);
  }

  lemma ReloadedKnown(cfg: Config, cs: Chains, p: PendingTransfer)
    ensures KnownPending(cfg, cs, ReloadedPending(p)) <==> KnownPending(cfg, cs, p)
    ensures HashFromMsg(cfg, ReloadedPending(p).msg) == HashFromMsg(cfg, p.msg)
  {
    hide DecodeTransferHdr;
    ReloadKeeps(cfg.crypto, p.msg, 0, 0);
  }

  lemma StoredIsQueued(cfg: Config, s: State, trusted: Message -> bool, order: seq<Text>, q: PendingTransfer)
    returns (p: PendingTransfer)
    requires Mirrors(cfg, s, trusted) && Enumerates(order, s.store)
      && Pending(q) in Collect(s.store, order, PENDING_KINDS)
    ensures InQueue(s.chains, p) && q == ReloadedPending(p)
  {
    hide InQueue, OnRecord, KnownPending, Collect, KindOf, ReadEntry, ReloadedPending, PendingKey;
    var k := CollectedFrom(s.store, order, PENDING_KINDS, Pending(q));
    p :| InQueue(s.chains, p) && PendingKey(p) == k;
    QueuedReadsBack(cfg, s, trusted, p);
  }

  lemma EnqueuedIsQueued(cfg: Config, cs: Chains, seen: Seen, h: Text) returns (p: PendingTransfer)
    requires SeenAgrees(cs, seen) && EntriesMatch(cfg, cs) && h in Enqueued(seen)
    ensures InQueue(cs, p) && HashFromMsg(cfg, p.msg) == h
  {
    hide HashFromMsg;
    var c, i :| ListedAt(PendingLists(cs), c, i, h);
    p := cs[c].pending[i].dbData;
    assert EntryMatches(cfg, c, cs[c].pending[i]);
  }

  lemma QueuedIsEnqueued(cfg: Config, cs: Chains, seen: Seen, p: PendingTransfer)
    requires SeenAgrees(cs, seen) && EntriesMatch(cfg, cs) && InQueue(cs, p)
    ensures HashFromMsg(cfg, p.msg) in Enqueued(seen)
  {
    hide HashFromMsg;
    var c, i :| c in cs && 0 <= i < |cs[c].pending| && cs[c].pending[i].dbData == p;
    assert EntryMatches(cfg, c, cs[c].pending[i]);
    assert ListedAt(PendingLists(cs), c, i, HashFromMsg(cfg, p.msg));
  }

  lemma FromStoreInQueue(cs: Chains, ps: seq<PendingTransfer>, p: PendingTransfer)
    requires PendingFrom(cs, ps) && InQueue(cs, p)
    ensures p in ps
  {
  }

  /** A governor restarted from a mirrored store enqueues exactly the messages that were enqueued. */
  lemma ReloadSameQueue(cfg: Config, s: State, trusted: Message -> bool, order: seq<Text>, cs: Chains,
        ts: seq<Transfer>, now: int, h: Text)
    requires SeenAgrees(s.chains, s.seen) && EntriesMatch(cfg, s.chains) && Mirrors(cfg, s, trusted)
      && Enumerates(order, s.store) && EmptyLists(cs)
      && SameConfig(s.chains, cs)
    ensures var ps := PendingsOf(Collect(s.store, order, PENDING_KINDS));
      h in Enqueued(Rebuilt(cfg, cs, ps, ts, now).seen) <==> h in Enqueued(s.seen)
  {
    hide SeenAgrees, EntriesMatch, InQueue, Mirrors, Collect, PendingsOf, Rebuilt, HashFromMsg, KnownPending, Enqueued,
      PendingFrom, TransfersFrom, EmptyLists, Limits, SameConfig, ReloadedPending;
    var es := Collect(s.store, order, PENDING_KINDS);
    var ps := PendingsOf(es);
    ReloadRebuilds(cfg, cs, ps, ts, now);
    var ix := Rebuilt(cfg, cs, ps, ts, now);
    if h in Enqueued(ix.seen) {
      var q := EnqueuedIsQueued(cfg, ix.chains, ix.seen, h);
      FromStoreInQueue(ix.chains, ps, q);
      PendingsOfHolds(es, q);
      var p := StoredIsQueued(cfg, s, trusted, order, q);
      ReloadedKnown(cfg, cs, p);
      QueuedIsEnqueued(cfg, s.chains, s.seen, p);
    }
    if h in Enqueued(s.seen) {
      var p := EnqueuedIsQueued(cfg, s.chains, s.seen, h);
      QueuedStored(cfg, s, trusted, order, p);
      PendingsOfHolds(es, ReloadedPending(p));
      KnownElsewhere(cfg, s.chains, cs, p, EmptyTransfer());
      QueuedIsKnown(cfg, s, trusted, p);
      ReloadedKnown(cfg, cs, p);
    }
  }

  lemma QueuedIsKnown(cfg: Config, s: State, trusted: Message -> bool, p: PendingTransfer)
    requires Mirrors(cfg, s, trusted) && InQueue(s.chains, p)
    ensures KnownPending(cfg, s.chains, p) && trusted(p.msg)
  {
    hide InQueue, OnRecord, KnownPending, KindOf, ReadEntry, PendingKey;
  }

  lemma QueuedStored(cfg: Config, s: State, trusted: Message -> bool, order: seq<Text>, p: PendingTransfer)
    requires Mirrors(cfg, s, trusted) && InQueue(s.chains, p) && Enumerates(order, s.store)
    ensures Pending(ReloadedPending(p)) in Collect(s.store, order, PENDING_KINDS)
  {
    hide InQueue, Mirrors, Collect, KindOf, ReadEntry, ReloadedPending, PendingKey;
    QueuedReadsBack(cfg, s, trusted, p);
    KindOfPendingKey(p);
    Collected(s.store, order, PENDING_KINDS, PendingKey(p), Pending(ReloadedPending(p)));
  }

  lemma MirrorReadable(cfg: Config, s: State, trusted: Message -> bool)
    requires Mirrors(cfg, s, trusted)
    ensures AllReadable(s.store) && forall k | k in s.store :: !IsOld(KindOf(k))
  {
    hide InQueue, OnRecord, KnownPending, KindOf, ReadEntry, ReloadedPending, PendingKey;
    forall k | k in s.store
      ensures Readable(s.store, k)
    {
      if KindOf(k) == PendingKind {
        var p :| InQueue(s.chains, p) && PendingKey(p) == k;
        QueuedReadsBack(cfg, s, trusted, p);
      }
    }
  }

  lemma StartMirrors(cfg: Config, s: State, trusted: Message -> bool)
    requires Fresh(s) && forall k | k in s.store :: KindOf(k) == OtherKind
    ensures Mirrors(cfg, s, trusted)
  {
    hide KindOf, ReadEntry, KnownPending, OnRecord;
    assert forall p :: !InQueue(s.chains, p);
  }
}
