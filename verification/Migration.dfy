/** What loading the governor's data does to the store and to a second load. */
module Migration {
  import opened Binary
  import opened Vaa
  import opened Keys
  import opened Publication
  import opened Transfers
  import opened GovernorDb
  import opened Scans
  import opened Sorting

  /** The store holds e under key k. */
  predicate At(store: Store, k: Text, e: Entry) { k in store && ReadEntry(k, store[k]) == Some(e) }

  function KeyFor(kind: Kind, e: Entry): Text { if IsOld(kind) then OldKey(e) else NewKey(e) }

  /** Every governor key belongs to the entry stored under it. */
  ghost predicate KeysMatch(store: Store) {
    forall k | k in store && KindOf(k) != OtherKind ::
      ReadEntry(k, store[k]).Some? && KeyFor(KindOf(k), ReadEntry(k, store[k]).value) == k
  }

  /** No entry in an old format has a successor in the new one. */
  ghost predicate NoClash(store: Store) {
    forall k | k in store && IsOld(KindOf(k)) && ReadEntry(k, store[k]).Some? ::
      NewKey(ReadEntry(k, store[k]).value) !in store
  }

  /** The new format can only be read back with at least four bytes of payload. */
  predicate LongEnough(e: Entry) { e.Pending? ==> |e.p.msg.payload| >= 4 }

  ghost predicate LongPayloads(store: Store) {
    forall k | k in store && IsOld(KindOf(k)) && ReadEntry(k, store[k]).Some? ::
      LongEnough(ReadEntry(k, store[k]).value)
  }

  // ---------------------------------------------------------------- what the database writes

  /** Texts and payload have lengths with which the entry can be read back. */
  predicate Legible(e: Entry) {
    match e
    case Pending(p) => |p.msg.payload| >= 4
    case Done(t) => |t.msgID| < 0x1_0000 && |t.hash| < 0x1_0000
  }

  lemma WrittenPendingReadsBack(p: PendingTransfer)
    requires |p.msg.payload| >= 4
    ensures KindOf(NewKey(Pending(p))) == PendingKind
    ensures var r := ReadEntry(NewKey(Pending(p)), Encoded(Pending(p)));
      r.Some? && NewKey(r.value) == NewKey(Pending(p))
  {
    KindOfKeys(p.msg, EmptyTransfer());
    DecodeOfEncodePending(p);
    hide KindOf, EncodePending, DecodePending, MessageID;
  }

  lemma WrittenTransferReadsBack(t: Transfer)
    requires Legible(Done(t)) && KindOf(NewKey(Done(t))) != OtherKind
    ensures KindOf(NewKey(Done(t))) == TransferKind
    ensures var r := ReadEntry(NewKey(Done(t)), Encoded(Done(t))); r.Some? && NewKey(r.value) == NewKey(Done(t))
  {
    KindsOfTransferKey(t);
    TransferReadsBack(t);
    hide KindOf, EncodeTransfer, DecodeTransfer;
  }

  lemma KindsOfTransferKey(t: Transfer)
    ensures KindOf(NewKey(Done(t))) == TransferKind || KindOf(NewKey(Done(t))) == OtherKind
  {
    var key := NewKey(Done(t));
    TagsDiffer();
    KindsAreDisjoint(key);
    assert key[4] == 88 && key[8] == 51;
  }

  /** So in a store that is only written by storing legible entries and by deleting, every governor
      key belongs to the entry under it. */
  lemma WritesKeepKeys(store: Store, e: Entry, gone: set<Text>)
    requires KeysMatch(store) && Legible(e)
    ensures KeysMatch(store[NewKey(e) := Encoded(e)]) && KeysMatch(store - gone)
  {
    hide KindOf, ReadEntry, NewKey, OldKey, Encoded;
    match e
    case Pending(p) => WrittenPendingReadsBack(p);
    case Done(t) => if KindOf(NewKey(e)) != OtherKind { WrittenTransferReadsBack(t); }
  }

  // ---------------------------------------------------------------- keys of entries

  lemma KeysDiffer(e: Entry, f: Entry)
    ensures NewKey(e) != OldKey(f)
    ensures e.Pending? && f.Done? ==> NewKey(e) != NewKey(f) && OldKey(e) != OldKey(f)
    ensures NewKey(e) == NewKey(f) <==> OldKey(e) == OldKey(f)
  {
    TagsDiffer();
    assert NewKey(e)[4] == if e.Pending? then 80 else 88;
    assert OldKey(f)[4] == if f.Pending? then 80 else 88;
    assert NewKey(f)[4] == if f.Pending? then 80 else 88;
    assert OldKey(e)[4] == if e.Pending? then 80 else 88;
    assert e.Pending? ==> NewKey(e)[11] == 51;
    assert e.Done? ==> NewKey(e)[8] == 51;
    assert f.Pending? ==> OldKey(f)[11] == 50;
    assert f.Done? ==> OldKey(f)[8] == 50;
    if e.Pending? == f.Pending? {
      SameIdSameKeys(e, f);
    }
  }

  lemma SameIdSameKeys(e: Entry, f: Entry)
    requires e.Pending? == f.Pending?
    ensures NewKey(e) == NewKey(f) <==> OldKey(e) == OldKey(f)
  {
    match e
    case Pending(p) =>
      SameTag(PENDING, MessageIDString(p.msg), MessageIDString(f.p.msg));
      SameTag(OLD_PENDING, MessageIDString(p.msg), MessageIDString(f.p.msg));
    case Done(t) =>
      SameTag(TRANSFER, t.msgID, f.t.msgID);
      SameTag(OLD_TRANSFER, t.msgID, f.t.msgID);
  }

  lemma SameTag(tag: Text, a: Text, b: Text)
    ensures tag + a == tag + b <==> a == b
  {
    CutAppend(tag, a);
    CutAppend(tag, b);
  }

  /** An entry found under a governor key is of the variant that the key says. */
  lemma KindsOfEntry(k: Text, val: seq<byte>, e: Entry)
    requires ReadEntry(k, val) == Some(e) && k == KeyFor(KindOf(k), e)
    ensures KindOf(NewKey(e)) == if e.Pending? then PendingKind else TransferKind
    ensures KindOf(OldKey(e)) == if e.Pending? then OldPendingKind else OldTransferKind
  {
    match e
    case Pending(p) => KindOfKeys(p.msg, EmptyTransfer());
    case Done(t) =>
      TagOfKey(TRANSFER, t.msgID);
      TagOfKey(OLD_TRANSFER, t.msgID);
      assert |t.msgID| >= MIN_ID_LENGTH;
      KindsAreDisjoint(TRANSFER + t.msgID);
      KindsAreDisjoint(OLD_TRANSFER + t.msgID);
  }

  /** An entry read in an old format and written in the new one reads back as itself, unless its
      payload is too short. */
  lemma ReadsBack(k: Text, val: seq<byte>, e: Entry)
    requires IsOld(KindOf(k)) && ReadEntry(k, val) == Some(e) && k == OldKey(e)
    ensures ReadEntry(NewKey(e), Encoded(e)) == if LongEnough(e) then Some(e) else None
  {
    KindsOfEntry(k, val, e);
    match e
    case Pending(p) => OldPendingMigrates(val);
    case Done(t) => OldTransferMigrates(val);
  }

  // ---------------------------------------------------------------- what a scan collects

  lemma Collected(store: Store, order: seq<Text>, kinds: set<Kind>, k: Text, e: Entry)
    requires k in order && KindOf(k) in kinds && At(store, k, e)
    ensures e in Collect(store, order, kinds)
  {
    Picked(order, Pick(store, kinds), k, e);
  }

  lemma CollectedFrom(store: Store, order: seq<Text>, kinds: set<Kind>, e: Entry) returns (k: Text)
    requires e in Collect(store, order, kinds)
    ensures k in order && KindOf(k) in kinds && At(store, k, e)
  {
    var i :| 0 <= i < |Collect(store, order, kinds)| && Collect(store, order, kinds)[i] == e;
    var a := PickedFrom(order, Pick(store, kinds), i);
    k := order[a];
  }

  /** Two different keys do not hold entries with the same id. */
  lemma OneKeyPerEntry(store: Store, k: Text, e: Entry, k': Text, f: Entry)
    requires KeysMatch(store) && NoClash(store) && At(store, k, e) && At(store, k', f) && k != k'
    ensures NewKey(e) != NewKey(f)
  {
    KeysDiffer(e, f);
    assert KindOf(k) != OtherKind && KindOf(k') != OtherKind;
  }

  lemma CollectedOnce(store: Store, order: seq<Text>, kinds: set<Kind>, i: nat, j: nat)
    requires Scanned(store, order) && i < j < |Collect(store, order, kinds)|
    ensures NewKey(Collect(store, order, kinds)[i]) != NewKey(Collect(store, order, kinds)[j])
  {
    var a, b := PickedApart(order, Pick(store, kinds), i, j);
    OneKeyPerEntry(store, order[a], Collect(store, order, kinds)[i], order[b], Collect(store, order, kinds)[j]);
  }

  // ---------------------------------------------------------------- the store after a load

  predicate IsNew(kind: Kind) { kind.PendingKind? || kind.TransferKind? }

  ghost predicate Visited(store: Store, order: seq<Text>) { KeysMatch(store) && Enumerates(order, store) }

  ghost predicate Scanned(store: Store, order: seq<Text>) { Visited(store, order) && NoClash(store) }

  /** The entries a load rewrites, in order. */
  function OldEntries(store: Store, order: seq<Text>): seq<Entry> {
    Collect(store, order, {OldPendingKind}) + Collect(store, order, {OldTransferKind})
  }

  lemma AfterLoadMoves(store: Store, order: seq<Text>)
    ensures AfterLoad(store, order) == MoveAll(store, Moves(OldEntries(store, order)))
  {
    hide Encoded, NewKey, OldKey, ReadEntry;
    var a, b := Collect(store, order, {OldPendingKind}), Collect(store, order, {OldTransferKind});
    MoveAppend(store, Moves(a), Moves(b));
    assert Moves(a + b) == Moves(a) + Moves(b);
  }

  lemma OldEntryFrom(store: Store, order: seq<Text>, e: Entry)
    requires Visited(store, order) && e in OldEntries(store, order)
    ensures At(store, OldKey(e), e) && IsOld(KindOf(OldKey(e))) && KindOf(NewKey(e)) != OtherKind
      && !IsOld(KindOf(NewKey(e)))
  {
    var kinds := if e in Collect(store, order, {OldPendingKind}) then {OldPendingKind} else {OldTransferKind};
    var k := CollectedFrom(store, order, kinds, e);
    KindsOfEntry(k, store[k], e);
  }

  lemma OldEntryIn(store: Store, order: seq<Text>, k: Text, e: Entry)
    requires Visited(store, order) && At(store, k, e) && IsOld(KindOf(k))
    ensures e in OldEntries(store, order)
  {
    Collected(store, order, {KindOf(k)}, k, e);
  }

  lemma OldKeysApart(store: Store, k: Text, e: Entry, k': Text, f: Entry)
    requires KeysMatch(store) && At(store, k, e) && At(store, k', f) && k != k' && IsOld(KindOf(k)) && IsOld(KindOf(k'))
    ensures NewKey(e) != NewKey(f)
  {
    hide NewKey, OldKey, ReadEntry, KindOf;
    KeysDiffer(e, f);
  }

  lemma OldCollectedOnce(store: Store, order: seq<Text>, kind: Kind, i: nat, j: nat)
    requires Visited(store, order) && IsOld(kind) && i < j < |Collect(store, order, {kind})|
    ensures NewKey(Collect(store, order, {kind})[i]) != NewKey(Collect(store, order, {kind})[j])
  {
    hide NewKey, OldKey, ReadEntry, KindOf;
    var a, b := PickedApart(order, Pick(store, {kind}), i, j);
    OldKeysApart(store, order[a], Collect(store, order, {kind})[i], order[b], Collect(store, order, {kind})[j]);
  }

  /** Pending and completed entries are collected apart, but no two share a key. */
  lemma OldEntriesApart(store: Store, order: seq<Text>, i: nat, j: nat)
    requires Visited(store, order) && i < j < |OldEntries(store, order)|
    ensures NewKey(OldEntries(store, order)[i]) != NewKey(OldEntries(store, order)[j])
  {
    hide NewKey, OldKey, ReadEntry, KindOf, Collect, KeysMatch;
    var a, b := Collect(store, order, {OldPendingKind}), Collect(store, order, {OldTransferKind});
    if j < |a| {
      OldCollectedOnce(store, order, OldPendingKind, i, j);
    } else if i >= |a| {
      OldCollectedOnce(store, order, OldTransferKind, i - |a|, j - |a|);
    } else {
      var k := CollectedFrom(store, order, {OldPendingKind}, a[i]);
      var k' := CollectedFrom(store, order, {OldTransferKind}, b[j - |a|]);
      OldKeysApart(store, k, a[i], k', b[j - |a|]);
    }
  }

  lemma MovesCompatible(store: Store, order: seq<Text>)
    requires Visited(store, order)
    ensures Compatible(Moves(OldEntries(store, order)))
  {
    hide Encoded, NewKey, OldKey, ReadEntry;
    var es := OldEntries(store, order);
    var ms := Moves(es);
    forall i, j | 0 <= i < j < |ms|
      ensures ms[i].to != ms[j].to
    {
      OldEntriesApart(store, order, i, j);
    }
    forall m, n | m in ms && n in ms
      ensures m.to != n.from
    {
      var i :| 0 <= i < |ms| && ms[i] == m;
      var j :| 0 <= j < |ms| && ms[j] == n;
      KeysDiffer(es[i], es[j]);
    }
  }

  /** A key that no rewritten entry has or gets keeps its value; one that an entry had is gone. */
  lemma OldEntryMoves(store: Store, order: seq<Text>, k: Text)
    requires Visited(store, order) && (IsNew(KindOf(k)) ==> NoClash(store) && k in store)
    ensures forall m | m in Moves(OldEntries(store, order)) :: m.to != k
    ensures !IsOld(KindOf(k)) ==> forall m | m in Moves(OldEntries(store, order)) :: m.from != k
  {
    var es := OldEntries(store, order);
    forall m | m in Moves(es)
      ensures m.to != k && (!IsOld(KindOf(k)) ==> m.from != k)
    {
      var i :| 0 <= i < |es| && Moves(es)[i] == m;
      OldEntryFrom(store, order, es[i]);
    }
  }

  /** Keys that are not the governor's are left alone, and so are entries in the new formats. */
  lemma OthersUntouched(store: Store, order: seq<Text>, k: Text)
    requires Scanned(store, order) && !IsOld(KindOf(k)) && (IsNew(KindOf(k)) ==> k in store)
    ensures k in AfterLoad(store, order) <==> k in store
    ensures k in store ==> AfterLoad(store, order)[k] == store[k]
  {
    AfterLoadMoves(store, order);
    OldEntryMoves(store, order, k);
    NotMoved(store, Moves(OldEntries(store, order)), k);
  }

  lemma NoOldKeysLeft(store: Store, order: seq<Text>, k: Text)
    requires Visited(store, order) && IsOld(KindOf(k))
    ensures k !in AfterLoad(store, order)
  {
    hide Encoded, NewKey, OldKey, ReadEntry, KindOf;
    AfterLoadMoves(store, order);
    OldEntryMoves(store, order, k);
    var es := OldEntries(store, order);
    NotMoved(store, Moves(es), k);
    if k in store {
      var e := ReadEntry(k, store[k]).value;
      OldEntryIn(store, order, k, e);
      var i :| 0 <= i < |es| && es[i] == e;
      assert Moves(es)[i].from == k;
    }
  }

  /** An entry that was in an old format is now under its new key. */
  lemma OldEntriesMove(store: Store, order: seq<Text>, k: Text, e: Entry)
    requires Visited(store, order) && IsOld(KindOf(k)) && At(store, k, e)
    ensures NewKey(e) in AfterLoad(store, order) && AfterLoad(store, order)[NewKey(e)] == Encoded(e)
  {
    AfterLoadMoves(store, order);
    OldEntryIn(store, order, k, e);
    MovesCompatible(store, order);
    var es := OldEntries(store, order);
    var i :| 0 <= i < |es| && es[i] == e;
    Moved(store, Moves(es), i);
  }

  /** And nothing else is there. */
  lemma NewKeysFrom(store: Store, order: seq<Text>, k: Text) returns (e: Entry)
    requires Scanned(store, order) && IsNew(KindOf(k)) && k in AfterLoad(store, order) && k !in store
    ensures At(store, OldKey(e), e) && IsOld(KindOf(OldKey(e))) && NewKey(e) == k
  {
    hide Encoded, NewKey, OldKey, ReadEntry;
    AfterLoadMoves(store, order);
    var es := OldEntries(store, order);
    var ms := Moves(es);
    if forall m | m in ms :: m.to != k {
      NotMoved(store, ms, k);
    }
    var m :| m in ms && m.to == k;
    var i :| 0 <= i < |ms| && ms[i] == m;
    e := es[i];
    OldEntryFrom(store, order, e);
  }

  // ---------------------------------------------------------------- a second load

  ghost predicate Holds(store: Store, e: Entry) { exists k :: At(store, k, e) }

  lemma EntriesKept(store: Store, order: seq<Text>, e: Entry)
    requires Scanned(store, order) && LongPayloads(store) && Holds(store, e)
    ensures At(AfterLoad(store, order), NewKey(e), e)
  {
    var k :| At(store, k, e);
    if IsOld(KindOf(k)) {
      OldEntriesMove(store, order, k, e);
      ReadsBack(k, store[k], e);
    } else {
      OthersUntouched(store, order, k);
    }
  }

  /** Under each governor key of the new store there is an entry that was in the old one, with
      that key, unless its payload was too short. */
  lemma EntriesFrom(store: Store, order: seq<Text>, k: Text)
    requires Scanned(store, order) && k in AfterLoad(store, order) && KindOf(k) != OtherKind
    ensures IsNew(KindOf(k))
    ensures LongPayloads(store) ==> ReadEntry(k, AfterLoad(store, order)[k]).Some?
    ensures ReadEntry(k, AfterLoad(store, order)[k]).Some? ==>
      var e := ReadEntry(k, AfterLoad(store, order)[k]).value; NewKey(e) == k && Holds(store, e)
  {
    if IsOld(KindOf(k)) {
      NoOldKeysLeft(store, order, k);
    }
    if k in store {
      OthersUntouched(store, order, k);
      assert At(store, k, ReadEntry(k, store[k]).value);
    } else {
      var e := NewKeysFrom(store, order, k);
      OldEntriesMove(store, order, OldKey(e), e);
      ReadsBack(OldKey(e), store[OldKey(e)], e);
    }
  }

  lemma AfterLoadIsScanned(store: Store, order: seq<Text>, order': seq<Text>)
    requires Scanned(store, order) && LongPayloads(store) && Enumerates(order', AfterLoad(store, order))
    ensures Scanned(AfterLoad(store, order), order')
  {
    hide Encoded, NewKey, OldKey, ReadEntry, KindOf, AfterLoad;
    var after := AfterLoad(store, order);
    forall k | k in after && KindOf(k) != OtherKind
      ensures IsNew(KindOf(k)) && ReadEntry(k, after[k]).Some? && NewKey(ReadEntry(k, after[k]).value) == k
    {
      EntriesFrom(store, order, k);
    }
  }

  /** Once every old payload is long enough the new store can be read, and only then. */
  lemma ReadableAgain(store: Store, order: seq<Text>)
    requires Scanned(store, order)
    ensures AllReadable(AfterLoad(store, order)) <==> LongPayloads(store)
  {
    hide Encoded, NewKey, OldKey, ReadEntry;
    var after := AfterLoad(store, order);
    if LongPayloads(store) {
      forall k | k in after
        ensures Readable(after, k)
      {
        if KindOf(k) != OtherKind { EntriesFrom(store, order, k); }
      }
    } else {
      var k :| k in store && IsOld(KindOf(k)) && ReadEntry(k, store[k]).Some?
        && !LongEnough(ReadEntry(k, store[k]).value);
      var e := ReadEntry(k, store[k]).value;
      OldEntriesMove(store, order, k, e);
      ReadsBack(k, store[k], e);
      KindsOfEntry(k, store[k], e);
      assert !Readable(after, NewKey(e));
    }
  }

  /** The kinds of one variant: what a load returns in one of its two lists. */
  predicate OneVariant(kinds: set<Kind>, pending: bool) { kinds == if pending then PENDING_KINDS else TRANSFER_KINDS }

  lemma VariantOfKind(store: Store, k: Text, e: Entry, kinds: set<Kind>, pending: bool)
    requires OneVariant(kinds, pending) && At(store, k, e)
    ensures KindOf(k) in kinds <==> e.Pending? == pending
  {
    hide KindOf, DecodePending, DecodeTransfer, DecodeOldTransfer;
  }

  lemma SameListed(store: Store, order: seq<Text>, order': seq<Text>, kinds: set<Kind>, pending: bool, e: Entry)
    requires Scanned(store, order) && LongPayloads(store) && Enumerates(order', AfterLoad(store, order))
      && OneVariant(kinds, pending)
    ensures e in Collect(store, order, kinds) <==> e in Collect(AfterLoad(store, order), order', kinds)
  {
    hide Encoded, NewKey, OldKey, ReadEntry, AfterLoad, Collect;
    var after := AfterLoad(store, order);
    if e in Collect(store, order, kinds) {
      var k := CollectedFrom(store, order, kinds, e);
      VariantOfKind(store, k, e, kinds, pending);
      EntriesKept(store, order, e);
      VariantOfKind(after, NewKey(e), e, kinds, pending);
      Collected(after, order', kinds, NewKey(e), e);
    }
    if e in Collect(after, order', kinds) {
      var k := CollectedFrom(after, order', kinds, e);
      VariantOfKind(after, k, e, kinds, pending);
      KindNotOther(after, k, e);
      EntriesFrom(store, order, k);
      var k0 :| At(store, k0, e);
      VariantOfKind(store, k0, e, kinds, pending);
      Collected(store, order, kinds, k0, e);
    }
  }

  lemma KindNotOther(store: Store, k: Text, e: Entry)
    requires At(store, k, e)
    ensures KindOf(k) != OtherKind
  {
  }

  lemma SameList(store: Store, order: seq<Text>, order': seq<Text>, kinds: set<Kind>, pending: bool)
    requires Scanned(store, order) && LongPayloads(store) && Enumerates(order', AfterLoad(store, order))
      && OneVariant(kinds, pending)
    ensures multiset(Collect(store, order, kinds)) == multiset(Collect(AfterLoad(store, order), order', kinds))
  {
    hide Encoded, NewKey, OldKey, ReadEntry, AfterLoad, Collect;
    var after := AfterLoad(store, order);
    AfterLoadIsScanned(store, order, order');
    CollectNoDuplicates(store, order, kinds);
    CollectNoDuplicates(after, order', kinds);
    forall e
      ensures e in Collect(store, order, kinds) <==> e in Collect(after, order', kinds)
    {
      SameListed(store, order, order', kinds, pending, e);
    }
    SameMultiset(Collect(store, order, kinds), Collect(after, order', kinds));
  }

  lemma CollectNoDuplicates(store: Store, order: seq<Text>, kinds: set<Kind>)
    requires Scanned(store, order)
    ensures NoDuplicates(Collect(store, order, kinds))
  {
    hide Encoded, NewKey, OldKey, ReadEntry;
    forall i, j | 0 <= i < j < |Collect(store, order, kinds)|
      ensures Collect(store, order, kinds)[i] != Collect(store, order, kinds)[j]
    {
      CollectedOnce(store, order, kinds, i, j);
    }
  }

  /** A store without old keys is left as it is. */
  lemma NothingToMove(store: Store, order: seq<Text>)
    requires forall k | k in store :: !IsOld(KindOf(k))
    ensures AfterLoad(store, order) == store
  {
    hide Encoded, NewKey, OldKey, ReadEntry;
    NothingPicked(order, Pick(store, {OldPendingKind}));
    NothingPicked(order, Pick(store, {OldTransferKind}));
  }

  /** Loading returns one entry for each governor key, leaves no key in an old format, does not
      touch anything else, and makes a second load write nothing. The second load succeeds
      exactly when no old pending transfer had a payload under four bytes, and then it returns
      the same entries. */
  lemma LoadMigrates(store: Store, order: seq<Text>, order': seq<Text>)
    requires Scanned(store, order) && Enumerates(order', AfterLoad(store, order))
    ensures AllReadable(store)
    ensures |Collect(store, order, PENDING_KINDS)| == |set k | k in store && KindOf(k) in PENDING_KINDS|
    ensures |Collect(store, order, TRANSFER_KINDS)| == |set k | k in store && KindOf(k) in TRANSFER_KINDS|
    ensures forall k | k in AfterLoad(store, order) :: !IsOld(KindOf(k))
    ensures forall k | KindOf(k) == OtherKind :: k in AfterLoad(store, order) <==> k in store
    ensures forall k | KindOf(k) == OtherKind && k in store :: AfterLoad(store, order)[k] == store[k]
    ensures AfterLoad(AfterLoad(store, order), order') == AfterLoad(store, order)
    ensures AllReadable(AfterLoad(store, order)) <==> LongPayloads(store)
    ensures LongPayloads(store) ==>
      && multiset(Collect(store, order, PENDING_KINDS)) ==
         multiset(Collect(AfterLoad(store, order), order', PENDING_KINDS))
      && multiset(Collect(store, order, TRANSFER_KINDS)) ==
         multiset(Collect(AfterLoad(store, order), order', TRANSFER_KINDS))
  {
    hide Encoded, NewKey, OldKey, ReadEntry, AfterLoad, Collect;
    var after := AfterLoad(store, order);
    EntryPerKey(store, order, PENDING_KINDS);
    EntryPerKey(store, order, TRANSFER_KINDS);
    forall k | k in after
      ensures !IsOld(KindOf(k))
    {
      if IsOld(KindOf(k)) { NoOldKeysLeft(store, order, k); }
    }
    forall k | KindOf(k) == OtherKind
      ensures k in after <==> k in store
      ensures k in store ==> after[k] == store[k]
    {
      OthersUntouched(store, order, k);
    }
    NothingToMove(after, order');
    ReadableAgain(store, order);
    if LongPayloads(store) {
      SameList(store, order, order', PENDING_KINDS, true);
      SameList(store, order, order', TRANSFER_KINDS, false);
    }
  }

  lemma EntryPerKey(store: Store, order: seq<Text>, kinds: set<Kind>)
    requires Scanned(store, order) && OtherKind !in kinds
    ensures |Collect(store, order, kinds)| == |set k | k in store && KindOf(k) in kinds|
  {
    hide ReadEntry, NewKey, OldKey, KindOf;
    var pick := Pick(store, kinds);
    OnePerKey(order, pick);
    forall k | k in store
      ensures pick(k).Some? <==> KindOf(k) in kinds
    {
      assert KindOf(k) in kinds ==> KindOf(k) != OtherKind;
    }
    assert PickedKeys(order, pick) == set k | k in store && KindOf(k) in kinds;
  }

  // ---------------------------------------------------------------- when the second load agrees

  /** Without the promise that no entry exists in both formats, each new key still holds either what
      it held before or a rewritten entry. */
  lemma AfterLoadAt(store: Store, order: seq<Text>, k: Text, f: Entry)
    requires Visited(store, order) && At(AfterLoad(store, order), k, f)
    ensures IsNew(KindOf(k)) && NewKey(f) == k
  {
    hide Encoded, NewKey, OldKey, ReadEntry, KindOf;
    KindNotOther(AfterLoad(store, order), k, f);
    if IsOld(KindOf(k)) {
      NoOldKeysLeft(store, order, k);
    }
    AfterLoadMoves(store, order);
    var es := OldEntries(store, order);
    if m :| m in Moves(es) && m.to == k {
      var i :| 0 <= i < |es| && Moves(es)[i] == m;
      var e := es[i];
      OldEntryFrom(store, order, e);
      OldEntriesMove(store, order, OldKey(e), e);
      ReadsBack(OldKey(e), store[OldKey(e)], e);
    } else {
      NotMoved(store, Moves(es), k);
    }
  }

  /** An id in both formats makes the second load return one entry where the first returned two. */
  lemma ClashLosesEntry(store: Store, order: seq<Text>, order': seq<Text>, k: Text, kinds: set<Kind>, pending: bool)
    requires Visited(store, order) && Enumerates(order', AfterLoad(store, order))
      && AllReadable(AfterLoad(store, order))
    requires k in store && IsOld(KindOf(k)) && ReadEntry(k, store[k]).Some?
      && NewKey(ReadEntry(k, store[k]).value) in store
    requires OneVariant(kinds, pending) && ReadEntry(k, store[k]).value.Pending? == pending
    ensures multiset(Collect(store, order, kinds)) != multiset(Collect(AfterLoad(store, order), order', kinds))
  {
    hide Encoded, NewKey, OldKey, ReadEntry, KindOf, AllReadable, AfterLoad;
    var after := AfterLoad(store, order);
    var e := ReadEntry(k, store[k]).value;
    var n := NewKey(e);
    KindsOfEntry(k, store[k], e);
    var f := ReadEntry(n, store[n]).value;
    OldEntriesMove(store, order, k, e);
    VariantOfKind(store, k, e, kinds, pending);
    KindsSayVariant(n, store[n], f, e);
    VariantOfKind(store, n, f, kinds, pending);
    Collected(store, order, kinds, n, f);
    if multiset(Collect(store, order, kinds)) == multiset(Collect(after, order', kinds)) {
      SameElements(Collect(store, order, kinds), Collect(after, order', kinds));
      var k2 := CollectedFrom(after, order', kinds, f);
      AfterLoadAt(store, order, k2, f);
      ReadsBack(k, store[k], e);
      ReadableMeansEntry(after, n);
      assert f == e;
      PickedTwice(order, Pick(store, kinds), k, n, e);
      forall x | x in order' && Pick(after, kinds)(x) == Some(e)
        ensures x == n
      {
        AfterLoadAt(store, order, x, e);
      }
      PickedOnce(order', Pick(after, kinds), n, e);
    }
  }

  /** Two entries whose keys are of the same kind are of the same variant. */
  lemma KindsSayVariant(n: Text, val: seq<byte>, f: Entry, e: Entry)
    requires ReadEntry(n, val) == Some(f) && KindOf(n) == if e.Pending? then PendingKind else TransferKind
    ensures f.Pending? == e.Pending?
  {
    hide KindOf, DecodePending, DecodeTransfer, DecodeOldTransfer;
  }

  lemma ReadableMeansEntry(store: Store, k: Text)
    requires AllReadable(store) && k in store && KindOf(k) != OtherKind
    ensures ReadEntry(k, store[k]).Some?
  {
    hide ReadEntry, KindOf;
    assert Readable(store, k);
  }

  ghost predicate SameLists(store: Store, order: seq<Text>, after: Store, order': seq<Text>) {
    && multiset(Collect(store, order, PENDING_KINDS)) == multiset(Collect(after, order', PENDING_KINDS))
    && multiset(Collect(store, order, TRANSFER_KINDS)) == multiset(Collect(after, order', TRANSFER_KINDS))
  }

  /** In a store whose governor keys belong to their entries, a second load can be done and returns the
      same entries if and only if no entry exists in both formats and no old pending payload is under
      four bytes. */
  lemma SecondLoadExact(store: Store, order: seq<Text>, order': seq<Text>)
    requires Visited(store, order) && Enumerates(order', AfterLoad(store, order))
    ensures AllReadable(AfterLoad(store, order)) && SameLists(store, order, AfterLoad(store, order), order') <==>
            NoClash(store) && LongPayloads(store)
  {
    hide Encoded, NewKey, OldKey, ReadEntry, KindOf, AfterLoad, Collect, AllReadable, LongPayloads;
    var after := AfterLoad(store, order);
    if NoClash(store) {
      LoadMigrates(store, order, order');
    } else if AllReadable(after) {
      var k :| k in store && IsOld(KindOf(k)) && ReadEntry(k, store[k]).Some?
        && NewKey(ReadEntry(k, store[k]).value) in store;
      var pending := ReadEntry(k, store[k]).value.Pending?;
      ClashLosesEntry(store, order, order', k, if pending then PENDING_KINDS else TRANSFER_KINDS, pending);
    }
  }
}
