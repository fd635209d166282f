/** Loading the governor's data from the store, which rewrites entries still in the old formats:
    node/pkg/db/governor.go. The store is a map from keys to values. */
module GovernorDb {
  import opened Binary
  import opened Vaa
  import opened Keys
  import opened Publication
  import opened Transfers
  import opened Scans

  type Store = map<Text, seq<byte>>

  datatype Entry = Pending(p: PendingTransfer) | Done(t: Transfer)

  function NewKey(e: Entry): Text {
    match e
    case Pending(p) => PENDING + MessageIDString(p.msg)
    case Done(t) => TRANSFER + t.msgID
  }

  function OldKey(e: Entry): Text {
    match e
    case Pending(p) => OLD_PENDING + MessageIDString(p.msg)
    case Done(t) => OLD_TRANSFER + t.msgID
  }

  function Encoded(e: Entry): seq<byte> {
    match e
    case Pending(p) => EncodePending(p)
    case Done(t) => EncodeTransfer(t)
  }

  /** The pending transfers of a list of entries, and the completed ones. */
  function PendingsOf(es: seq<Entry>): seq<PendingTransfer> {
    if es == [] then [] else (if es[0].Pending? then [es[0].p] else []) + PendingsOf(es[1..])
  }

  function TransfersOf(es: seq<Entry>): seq<Transfer> {
    if es == [] then [] else (if es[0].Done? then [es[0].t] else []) + TransfersOf(es[1..])
  }

  predicate IsOld(kind: Kind) { kind.OldPendingKind? || kind.OldTransferKind? }

  /** The entry that a value stands for under a governor key. */
  function ReadEntry(key: Text, val: seq<byte>): Option<Entry> {
    match KindOf(key)
    case PendingKind => (match DecodePending(val, false) case None => None case Some(p) => Some(Pending(p)))
    case OldPendingKind => (match DecodePending(val, true) case None => None case Some(p) => Some(Pending(p)))
    case TransferKind => (match DecodeTransfer(val) case None => None case Some(t) => Some(Done(t)))
    case OldTransferKind => (match DecodeOldTransfer(val) case None => None case Some(t) => Some(Done(t)))
    case OtherKind => None
  }

  predicate Readable(store: Store, k: Text)
    requires k in store
  {
    KindOf(k) == OtherKind || ReadEntry(k, store[k]).Some?
  }

  predicate AllReadable(store: Store) { forall k | k in store :: Readable(store, k) }

  function Pick(store: Store, kinds: set<Kind>): Text -> Option<Entry> {
    k => if k in store && KindOf(k) in kinds then ReadEntry(k, store[k]) else None
  }

  /** The entries under keys of the given kinds, in the order of the scan. */
  function Collect(store: Store, order: seq<Text>, kinds: set<Kind>): seq<Entry> {
    FilterMap(order, Pick(store, kinds))
  }

  const PENDING_KINDS := {PendingKind, OldPendingKind}
  const TRANSFER_KINDS := {TransferKind, OldTransferKind}

  /** Rewriting an entry stores it under its new key and deletes its old key. */
  function MoveOf(e: Entry): Move<Text, seq<byte>> { Move(OldKey(e), NewKey(e), Encoded(e)) }

  function Moves(es: seq<Entry>): (ms: seq<Move<Text, seq<byte>>>)
    ensures |ms| == |es| && forall i | 0 <= i < |es| :: ms[i] == MoveOf(es[i])
  {
    seq(|es|, i requires 0 <= i < |es| => MoveOf(es[i]))
  }

  /** The store after a load. */
  function AfterLoad(store: Store, order: seq<Text>): Store {
    MoveAll(MoveAll(store, Moves(Collect(store, order, {OldPendingKind}))),
      Moves(Collect(store, order, {OldTransferKind})))
  }

  // ---------------------------------------------------------------- the database

  method UnmarshalEntry(key: Text, val: seq<byte>) returns (r: Option<Entry>)
    ensures r == ReadEntry(key, val)
  {
    match KindOf(key)
    case PendingKind =>
      var p := UnmarshalPending(val, false);
      r := if p.None? then None else Some(Pending(p.value));
    case OldPendingKind =>
      var p := UnmarshalPending(val, true);
      r := if p.None? then None else Some(Pending(p.value));
    case TransferKind =>
      var t := UnmarshalTransfer(val);
      r := if t.None? then None else Some(Done(t.value));
    case OldTransferKind =>
      var t := UnmarshalOldTransfer(val);
      r := if t.None? then None else Some(Done(t.value));
    case OtherKind => r := None;
  }

  datatype Found = Found(transfers: seq<Entry>, pending: seq<Entry>, oldTransfers: seq<Entry>, oldPending: seq<Entry>)

  function Add(f: Found, kind: Kind, e: Entry): Found {
    match kind
    case PendingKind => f.(pending := f.pending + [e])
    case OldPendingKind => f.(pending := f.pending + [e], oldPending := f.oldPending + [e])
    case TransferKind => f.(transfers := f.transfers + [e])
    case OldTransferKind => f.(transfers := f.transfers + [e], oldTransfers := f.oldTransfers + [e])
    case OtherKind => f
  }

  function AllFound(store: Store, order: seq<Text>): Found {
    Found(Collect(store, order, TRANSFER_KINDS), Collect(store, order, PENDING_KINDS),
          Collect(store, order, {OldTransferKind}), Collect(store, order, {OldPendingKind}))
  }

  lemma NothingFound(store: Store)
    ensures AllFound(store, []) == Found([], [], [], [])
  {
  }

  lemma AllFoundStep(store: Store, order: seq<Text>, i: nat)
    requires i < |order| && (forall k | k in order :: k in store) && Readable(store, order[i])
    ensures AllFound(store, order[..i + 1]) ==
      if KindOf(order[i]) == OtherKind then AllFound(store, order[..i])
      else Add(AllFound(store, order[..i]), KindOf(order[i]), ReadEntry(order[i], store[order[i]]).value)
  {
    hide ReadEntry, KindOf;
    FilterMapStep(order, Pick(store, TRANSFER_KINDS), i);
    FilterMapStep(order, Pick(store, PENDING_KINDS), i);
    FilterMapStep(order, Pick(store, {OldTransferKind}), i);
    FilterMapStep(order, Pick(store, {OldPendingKind}), i);
  }

  /** The number of keys before the first entry that cannot be read. */
  function ReadablePrefix(store: Store, order: seq<Text>): (n: nat)
    requires forall k | k in order :: k in store
    ensures n <= |order|
  {
    if order == [] || !Readable(store, order[0]) then 0 else 1 + ReadablePrefix(store, order[1..])
  }

  lemma {:induction false} PrefixLength(store: Store, order: seq<Text>, n: nat)
    requires (forall k | k in order :: k in store) && n <= |order|
    ensures n == ReadablePrefix(store, order) <==>
      (forall i | 0 <= i < n :: Readable(store, order[i])) && (n < |order| ==> !Readable(store, order[n]))
  {
    hide Readable;
    if n > 0 {
      PrefixLength(store, order[1..], n - 1);
      assert forall i | 0 < i < |order| :: order[i] == order[1..][i - 1];
    }
  }

  lemma ReadablePrefixIs(store: Store, order: seq<Text>, n: nat)
    requires Enumerates(order, store) && n <= |order| && (forall i | 0 <= i < n :: Readable(store, order[i]))
    requires n < |order| ==> !Readable(store, order[n])
    ensures n == ReadablePrefix(store, order) && (n == |order| <==> AllReadable(store))
  {
    PrefixLength(store, order, n);
    hide Readable;
    assert forall i | 0 <= i < |order| :: order[i] in order;
  }

  /** Collects the entries up to the first one that cannot be read. */
  method Scan(store: Store, order: seq<Text>) returns (f: Found, ok: bool)
    requires Enumerates(order, store)
    ensures ok <==> AllReadable(store)
    ensures f == AllFound(store, order[..ReadablePrefix(store, order)])
  {
    hide ReadEntry, KindOf, AllFound, Add, ReadablePrefix;
    NothingFound(store);
    f := Found([], [], [], []);
    for i := 0 to |order|
      invariant forall j | 0 <= j < i :: Readable(store, order[j])
      invariant f == AllFound(store, order[..i])
    {
      var key, val := order[i], store[order[i]];
      if KindOf(key) != OtherKind {
        var e := UnmarshalEntry(key, val);
        if e.None? {
          ReadablePrefixIs(store, order, i);
          return f, false;
        }
        f := Add(f, KindOf(key), e.value);
      }
      AllFoundStep(store, order, i);
    }
    ReadablePrefixIs(store, order, |order|);
    ok := true;
  }

  class Database {
    var store: Store

    method StorePendingMsg(p: PendingTransfer)
      modifies this
      ensures store == old(store)[NewKey(Pending(p)) := Encoded(Pending(p))]
    {
      var b := MarshalPending(p);
      store := store[PENDING + MessageIDString(p.msg) := b];
    }

    method StoreTransfer(t: Transfer)
      modifies this
      ensures store == old(store)[NewKey(Done(t)) := Encoded(Done(t))]
    {
      var b := MarshalTransfer(t);
      store := store[TRANSFER + t.msgID := b];
    }

    method DeletePendingMsg(p: PendingTransfer)
      modifies this
      ensures store == old(store) - {NewKey(Pending(p))}
    {
      store := store - {PENDING + MessageIDString(p.msg)};
    }

    method DeleteTransfer(t: Transfer)
      modifies this
      ensures store == old(store) - {NewKey(Done(t))}
    {
      store := store - {TRANSFER + t.msgID};
    }

    method StoreEntry(e: Entry)
      modifies this
      ensures store == old(store)[NewKey(e) := Encoded(e)]
    {
      match e
      case Pending(p) => StorePendingMsg(p);
      case Done(t) => StoreTransfer(t);
    }

    method RewriteAll(es: seq<Entry>)
      modifies this
      ensures store == MoveAll(old(store), Moves(es))
    {
      hide Encoded, NewKey, OldKey;
      ghost var ms := Moves(es);
      for i := 0 to |es|
        invariant store == MoveAll(old(store), ms[..i])
      {
        StoreEntry(es[i]);
        store := store - {OldKey(es[i])};
        assert ms[..i + 1][..i] == ms[..i] && ms[i] == MoveOf(es[i]);
      }
      assert ms[..|es|] == ms;
    }

    /** Returns the completed and the pending transfers; if an entry cannot be read, those before it,
        an error and an unchanged store. */
    method GetChainGovernorData(order: seq<Text>) returns (transfers: seq<Entry>, pending: seq<Entry>, ok: bool)
      requires Enumerates(order, store)
      modifies this
      ensures ok <==> AllReadable(old(store))
      ensures ok <==> ReadablePrefix(old(store), order) == |order|
      ensures transfers == Collect(old(store), order[..ReadablePrefix(old(store), order)], TRANSFER_KINDS)
      ensures pending == Collect(old(store), order[..ReadablePrefix(old(store), order)], PENDING_KINDS)
      ensures store == if ok then AfterLoad(old(store), order) else old(store)
    {
      var found;
      found, ok := Scan(store, order);
      transfers, pending := found.transfers, found.pending;
      PrefixLength(store, order, ReadablePrefix(store, order));
      ReadablePrefixIs(store, order, ReadablePrefix(store, order));
      if ok {
        assert order[..|order|] == order;
        RewriteAll(found.oldPending);
        RewriteAll(found.oldTransfers);
      }
    }
  }
}
