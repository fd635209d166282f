/** What the governor stores about the transfers it has counted: on every change the stored
    transfers are exactly the listed ones. */
module TransferFiles {
  import opened Binary
  import opened Vaa
  import opened Keys
  import opened Publication
  import opened Transfers
  import opened GovernorDb
  import opened Listings
  import opened Window
  import opened Governor
  import opened GovernorState
  import opened Reload
  import opened Migration

  /** Among these messages, one message id stands for one message. */
  ghost predicate OneHashPerId(cfg: Config, trusted: Message -> bool) {
    forall a, b | trusted(a) && trusted(b) && IdOfMessage(a) == IdOfMessage(b) ::
      HashFromMsg(cfg, a) == HashFromMsg(cfg, b)
  }

  function TransferKey(t: Transfer): Text { NewKey(Done(t)) }

  predicate OnFile(store: Store, t: Transfer) {
    TransferKey(t) in store && store[TransferKey(t)] == Encoded(Done(t))
  }

  ghost predicate IsAbout(cfg: Config, t: Transfer, m: Message) {
    t.msgID == MessageIDString(m) && t.hash == HashFromMsg(cfg, m)
  }

  /** A transfer of chain c, counted for a trusted message. */
  ghost predicate Sound(cfg: Config, trusted: Message -> bool, c: uint16, t: Transfer) {
    t.emitterChain == c && exists m :: trusted(m) && IsAbout(cfg, t, m)
  }

  ghost predicate ListedIn(cs: Chains, c: uint16, t: Transfer) { c in cs && t in cs[c].transfers }

  ghost predicate FiledFor(cs: Chains, k: Text) { exists c, t :: ListedIn(cs, c, t) && TransferKey(t) == k }

  /** Every listed transfer is stored, and every stored transfer is listed. */
  ghost predicate Files(cfg: Config, s: State, trusted: Message -> bool) {
    && (forall c, t | ListedIn(s.chains, c, t) ::
          OnFile(s.store, t) && Sound(cfg, trusted, c, t) && KnownTransfer(cfg, s.chains, t))
    && (forall k | k in s.store && KindOf(k) == TransferKind :: FiledFor(s.chains, k))
  }

  // ---------------------------------------------------------------- keys

  lemma SameTransferKey(cfg: Config, trusted: Message -> bool, c: uint16, t: Transfer, d: uint16, u: Transfer)
    requires OneHashPerId(cfg, trusted) && Sound(cfg, trusted, c, t) && Sound(cfg, trusted, d, u)
    requires TransferKey(t) == TransferKey(u)
    ensures t.hash == u.hash
  {
    hide HashFromMsg;
    SameTag(TRANSFER, t.msgID, u.msgID);
    var a :| trusted(a) && IsAbout(cfg, t, a);
    var b :| trusted(b) && IsAbout(cfg, u, b);
    MessageIDInjective(IdOfMessage(a), IdOfMessage(b));
  }

  lemma SoundKind(cfg: Config, trusted: Message -> bool, c: uint16, t: Transfer)
    requires Sound(cfg, trusted, c, t)
    ensures KindOf(TransferKey(t)) == TransferKind && t.hash != []
  {
    hide HashFromMsg, KindOf;
    var m :| trusted(m) && IsAbout(cfg, t, m);
    KindOfKeys(m, t);
  }

  /** Two listed transfers with one hash are one. */
  lemma OneListed(cs: Chains, seen: Seen, c: uint16, i: nat, d: uint16, j: nat)
    requires SeenAgrees(cs, seen)
    requires c in cs && i < |cs[c].transfers| && d in cs && j < |cs[d].transfers|
    requires cs[c].transfers[i].hash == cs[d].transfers[j].hash != []
    ensures c == d && i == j
  {
    var h := cs[c].transfers[i].hash;
    assert ListedAt(TransferLists(cs), c, i, h) && ListedAt(TransferLists(cs), d, j, h);
  }

  lemma ListedIsComplete(cs: Chains, seen: Seen, c: uint16, t: Transfer)
    requires SeenAgrees(cs, seen) && ListedIn(cs, c, t) && t.hash != []
    ensures t.hash in Complete(seen) && t.hash in seen && t.hash !in Enqueued(seen)
  {
    var i :| 0 <= i < |cs[c].transfers| && cs[c].transfers[i] == t;
    assert ListedAt(TransferLists(cs), c, i, t.hash);
  }

  /** With one hash per id, two listed transfers with one key are one. */
  lemma OneListedPerKey(cfg: Config, s: State, trusted: Message -> bool, c: uint16, i: nat, d: uint16, j: nat)
    requires SeenAgrees(s.chains, s.seen) && Files(cfg, s, trusted) && OneHashPerId(cfg, trusted)
    requires c in s.chains && i < |s.chains[c].transfers| && d in s.chains && j < |s.chains[d].transfers|
    requires TransferKey(s.chains[c].transfers[i]) == TransferKey(s.chains[d].transfers[j])
    ensures c == d && i == j
  {
    hide SeenAgrees, OneHashPerId, Sound, TransferKey, OnFile, KnownTransfer, FiledFor;
    var t, u := s.chains[c].transfers[i], s.chains[d].transfers[j];
    assert ListedIn(s.chains, c, t) && ListedIn(s.chains, d, u);
    SameTransferKey(cfg, trusted, c, t, d, u);
    SoundKind(cfg, trusted, c, t);
    OneListed(s.chains, s.seen, c, i, d, j);
  }

  // ---------------------------------------------------------------- each change keeps the files

  /** A change of the queue and of pending keys only. */
  lemma SameListsFiles(cfg: Config, s: State, t: State, trusted: Message -> bool)
    requires Files(cfg, s, trusted) && SameConfig(s.chains, t.chains)
    requires forall c | c in s.chains :: t.chains[c].transfers == s.chains[c].transfers
    requires forall k | KindOf(k) == TransferKind :: k in t.store <==> k in s.store
    requires forall k | KindOf(k) == TransferKind && k in s.store :: t.store[k] == s.store[k]
    ensures Files(cfg, t, trusted)
  {
    hide Sound, TransferKey, KindOf, Encoded, SameConfig;
    assert t.chains.Keys == s.chains.Keys by { SameConfigKeys(s.chains, t.chains); }
    forall c, u | ListedIn(t.chains, c, u)
      ensures OnFile(t.store, u) && Sound(cfg, trusted, c, u) && KnownTransfer(cfg, t.chains, u)
    {
      assert ListedIn(s.chains, c, u);
      SoundKind(cfg, trusted, c, u);
      KnownTransfersElsewhere(cfg, s.chains, t.chains, [u]);
      assert u in [u];
    }
    forall k | k in t.store && KindOf(k) == TransferKind
      ensures FiledFor(t.chains, k)
    {
      var c, u :| ListedIn(s.chains, c, u) && TransferKey(u) == k;
      assert ListedIn(t.chains, c, u);
    }
  }

  lemma SameConfigKeys(cs: Chains, ds: Chains)
    requires SameConfig(cs, ds)
    ensures ds.Keys == cs.Keys
  {
  }

  lemma CountFiles(cfg: Config, s: State, trusted: Message -> bool, c: uint16, t: Transfer)
    requires SeenAgrees(s.chains, s.seen) && Files(cfg, s, trusted) && OneHashPerId(cfg, trusted)
    requires c in s.chains && c in s.history && t.hash !in s.seen
    requires Sound(cfg, trusted, c, t) && KnownTransfer(cfg, s.chains, t)
    ensures Files(cfg, Recorded(s, c, t), trusted)
  {
    hide SeenAgrees, OneHashPerId, Sound, TransferKey, KindOf, Encoded, KnownTransfer, NewKey;
    var r := Recorded(s, c, t);
    KeyIsTransferKey(t);
    CountConfig(s.chains, c, t);
    forall d, u | ListedIn(r.chains, d, u)
      ensures OnFile(r.store, u) && Sound(cfg, trusted, d, u) && KnownTransfer(cfg, r.chains, u)
    {
      KnownTransfersElsewhere(cfg, s.chains, r.chains, [t, u]);
      assert [t, u][1] == u && [t, u][0] == t;
      if ListedIn(s.chains, d, u) {
        SoundKind(cfg, trusted, d, u);
        ListedIsComplete(s.chains, s.seen, d, u);
        if TransferKey(u) == TransferKey(t) {
          SameTransferKey(cfg, trusted, c, t, d, u);
        }
      }
    }
    forall k | k in r.store && KindOf(k) == TransferKind
      ensures FiledFor(r.chains, k)
    {
      if k in s.store {
        var d, u :| ListedIn(s.chains, d, u) && TransferKey(u) == k;
        assert ListedIn(r.chains, d, u);
      } else {
        assert ListedIn(r.chains, c, t);
      }
    }
  }

  lemma KeyIsTransferKey(t: Transfer)
    ensures NewKey(Done(t)) == TransferKey(t)
  {
  }

  lemma CountConfig(cs: Chains, c: uint16, t: Transfer)
    requires c in cs
    ensures SameConfig(cs, Count(cs, c, t))
  {
  }

  lemma TrimConfig(cs: Chains, c: uint16, n: nat)
    requires c in cs && n <= |cs[c].transfers|
    ensures SameConfig(cs, Trim(cs, c, n))
  {
  }

  lemma TrimFiles(cfg: Config, s: State, trusted: Message -> bool, c: uint16)
    requires SeenAgrees(s.chains, s.seen) && Files(cfg, s, trusted) && OneHashPerId(cfg, trusted) && c in s.chains
    ensures Files(cfg, Trimmed(s, c), trusted)
  {
    hide SeenAgrees, OneHashPerId, Sound, KindOf, Encoded, KnownTransfer, NewKey, Expired, Hashes, FiledFor,
      TransferKeys;
    var ts := s.chains[c].transfers;
    var n := Expired(ts, s.clock - DAY);
    var r := Trimmed(s, c);
    TrimConfig(s.chains, c, n);
    forall d, u | ListedIn(r.chains, d, u)
      ensures OnFile(r.store, u) && Sound(cfg, trusted, d, u) && KnownTransfer(cfg, r.chains, u)
    {
      var j := LeftAt(s.chains, c, n, d, u);
      assert ListedIn(s.chains, d, u);
      KnownTransfersElsewhere(cfg, s.chains, r.chains, [u]);
      assert u in [u];
      KeyStays(cfg, s, trusted, c, n, d, j);
    }
    forall k | k in r.store && KindOf(k) == TransferKind
      ensures FiledFor(r.chains, k)
    {
      StillFiled(s, c, n, k);
    }
  }

  lemma StillFiled(s: State, c: uint16, n: nat, k: Text)
    requires c in s.chains && n <= |s.chains[c].transfers| && FiledFor(s.chains, k)
    requires k !in TransferKeys(s.chains[c].transfers[..n])
    ensures FiledFor(Trim(s.chains, c, n), k)
  {
    hide NewKey;
    var ts := s.chains[c].transfers;
    var d, u :| ListedIn(s.chains, d, u) && TransferKey(u) == k;
    forall v | v in ts[..n]
      ensures TransferKey(v) != k
    {
      assert NewKey(Done(v)) in TransferKeys(ts[..n]);
    }
    assert ts == ts[..n] + ts[n..];
    assert ListedIn(Trim(s.chains, c, n), d, u);
  }

  lemma KeyStays(cfg: Config, s: State, trusted: Message -> bool, c: uint16, n: nat, d: uint16, j: nat)
    requires SeenAgrees(s.chains, s.seen) && Files(cfg, s, trusted) && OneHashPerId(cfg, trusted)
    requires c in s.chains && n <= |s.chains[c].transfers| && d in s.chains && j < |s.chains[d].transfers|
    requires d == c ==> j >= n
    ensures TransferKey(s.chains[d].transfers[j]) !in TransferKeys(s.chains[c].transfers[..n])
  {
    hide SeenAgrees, OneHashPerId, Files, NewKey;
    var ts := s.chains[c].transfers;
    forall i | 0 <= i < n
      ensures TransferKey(ts[i]) != TransferKey(s.chains[d].transfers[j])
    {
      if TransferKey(ts[i]) == TransferKey(s.chains[d].transfers[j]) {
        OneListedPerKey(cfg, s, trusted, c, i, d, j);
      }
    }
  }

  /** Where something that is still listed after trimming was before. */
  lemma LeftAt(cs: Chains, c: uint16, n: nat, d: uint16, u: Transfer) returns (j: nat)
    requires c in cs && n <= |cs[c].transfers| && ListedIn(Trim(cs, c, n), d, u)
    ensures d in cs && j < |cs[d].transfers| && cs[d].transfers[j] == u && (d == c ==> j >= n)
  {
    var cs' := Trim(cs, c, n);
    var i :| 0 <= i < |cs'[d].transfers| && cs'[d].transfers[i] == u;
    j := if d == c then i + n else i;
  }

  lemma PendingKeyKind(p: PendingTransfer)
    ensures KindOf(NewKey(Pending(p))) == PendingKind
  {
    KindOfKeys(p.msg, EmptyTransfer());
  }

  lemma QueueFiles(cfg: Config, s: State, trusted: Message -> bool, c: uint16, pe: PendingEntry)
    requires Files(cfg, s, trusted) && c in s.chains
    ensures Files(cfg, Queued(s, c, pe), trusted)
  {
    hide Files, KindOf, Encoded, NewKey;
    PendingKeyKind(pe.dbData);
    SameListsFiles(cfg, s, Queued(s, c, pe), trusted);
  }

  lemma DequeueFiles(cfg: Config, s: State, trusted: Message -> bool, c: uint16, i: nat, t: State)
    requires Files(cfg, s, trusted) && c in s.chains && i < |s.chains[c].pending|
    requires t.chains == Dequeue(s.chains, c, i)
      && t.store == s.store - {NewKey(Pending(s.chains[c].pending[i].dbData))}
    ensures Files(cfg, t, trusted)
  {
    hide Files, KindOf, Encoded, NewKey;
    PendingKeyKind(s.chains[c].pending[i].dbData);
    SameListsFiles(cfg, s, t, trusted);
  }

  lemma ReleaseFiles(cfg: Config, s: State, trusted: Message -> bool, c: uint16, i: nat, counted: Option<Transfer>)
    requires SeenAgrees(s.chains, s.seen) && Files(cfg, s, trusted) && OneHashPerId(cfg, trusted)
    requires c in s.chains && i < |s.chains[c].pending| && s.chains[c].pending[i].hash != []
    requires counted.Some? ==>
      && c in s.history && counted.value.hash == s.chains[c].pending[i].hash
      && Sound(cfg, trusted, c, counted.value) && KnownTransfer(cfg, s.chains, counted.value)
    ensures Files(cfg, Released(s, c, i, counted), trusted)
  {
    hide SeenAgrees, OneHashPerId, Files, Encoded, NewKey, Sound, KnownTransfer;
    var pe := s.chains[c].pending[i];
    var left := s.(chains := Dequeue(s.chains, c, i), seen := s.seen - {pe.hash},
      store := s.store - {NewKey(Pending(pe.dbData))});
    DequeueFiles(cfg, s, trusted, c, i, left);
    DequeueAgrees(s.chains, s.seen, c, i);
    if counted.Some? {
      var t := counted.value;
      assert SameConfig(s.chains, left.chains);
      KnownTransfersElsewhere(cfg, s.chains, left.chains, [t]);
      assert t in [t];
      CountFiles(cfg, left, trusted, c, t);
      KeysDiffer(Pending(pe.dbData), Done(t));
      assert left.store[NewKey(Done(t)) := Encoded(Done(t))] ==
        s.store[NewKey(Done(t)) := Encoded(Done(t))] - {NewKey(Pending(pe.dbData))};
      assert Released(s, c, i, counted) == Recorded(left, c, t);
    } else {
      assert Released(s, c, i, counted) == left;
    }
  }

  lemma TickFiles(cfg: Config, s: State, trusted: Message -> bool, now: int)
    requires Files(cfg, s, trusted)
    ensures Files(cfg, s.(clock := now), trusted)
  {
    hide OnFile, Sound, KindOf, KnownTransfer;
  }

  lemma StartFiles(cfg: Config, s: State, trusted: Message -> bool)
    requires Fresh(s) && forall k | k in s.store :: KindOf(k) == OtherKind
    ensures Files(cfg, s, trusted)
  {
    hide KindOf, Sound, OnFile, KnownTransfer;
  }
}
