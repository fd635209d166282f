/** The state of the chain governor, node/pkg/governor/governor.go, and what each change of it
    keeps: the index of seen messages agrees with the lists, and the rolling limit holds. */
module Governor {
  import opened Binary
  import opened Vaa
  import opened Keys
  import opened Publication
  import opened Transfers
  import opened GovernorDb
  import opened Listings
  import opened Window

  datatype TokenKey = TokenKey(chain: uint16, addr: Address)

  datatype PendingEntry = PendingEntry(token: TokenKey, amount: nat, hash: Text, dbData: PendingTransfer)

  datatype ChainEntry = ChainEntry(
    emitterAddr: Address,
    dailyLimit: uint64,
    bigTransactionSize: uint64,
    transfers: seq<Transfer>,
    pending: seq<PendingEntry>)

  type Chains = map<uint16, ChainEntry>

  /** Key is a hash; true is a completed transfer, false an enqueued one. */
  type Seen = map<Text, bool>

  /** The hash function and the governed tokens. */
  datatype Config = Config(crypto: Crypto, tokens: set<TokenKey>)

  /** What an amount of a token is worth at the prices of the moment, None if it is too large. */
  type Prices = (nat, TokenKey) -> Option<uint64>

  predicate IsBigTransfer(ce: ChainEntry, value: uint64) {
    value >= ce.bigTransactionSize && ce.bigTransactionSize != 0
  }

  function HashFromMsg(cfg: Config, m: Message): (h: Text)
    ensures h != []
  {
    CreateDigest(cfg.crypto, m)
  }

  // ---------------------------------------------------------------- the index of seen messages

  function PendingHashes(ps: seq<PendingEntry>): (hs: seq<Text>)
    ensures |hs| == |ps| && forall i | 0 <= i < |ps| :: hs[i] == ps[i].hash
  {
    seq(|ps|, i requires 0 <= i < |ps| => ps[i].hash)
  }

  function TransferHashes(ts: seq<Transfer>): (hs: seq<Text>)
    ensures |hs| == |ts| && forall i | 0 <= i < |ts| :: hs[i] == ts[i].hash
  {
    seq(|ts|, i requires 0 <= i < |ts| => ts[i].hash)
  }

  function PendingLists(cs: Chains): Lists { map c | c in cs :: PendingHashes(cs[c].pending) }

  function TransferLists(cs: Chains): Lists { map c | c in cs :: TransferHashes(cs[c].transfers) }

  function Enqueued(seen: Seen): set<Text> { set h | h in seen && !seen[h] }

  function Complete(seen: Seen): set<Text> { set h | h in seen && seen[h] }

  /** Every enqueued hash has exactly one pending entry over all chains, every complete hash
      exactly one transfer, and no hash is both. */
  ghost predicate SeenAgrees(cs: Chains, seen: Seen) {
    && ListsExactly(PendingLists(cs), Enqueued(seen))
    && ListsExactly(TransferLists(cs), Complete(seen))
    && [] !in seen
  }

  /** Chains whose lists are empty. */
  ghost predicate EmptyLists(cs: Chains) { forall c | c in cs :: cs[c].transfers == [] && cs[c].pending == [] }

  lemma EmptyAgrees(cs: Chains)
    requires EmptyLists(cs)
    ensures SeenAgrees(cs, map[])
  {
    var l, m := PendingLists(cs), TransferLists(cs);
    assert forall c, i, h :: !ListedAt(l, c, i, h);
    assert forall c, i, h :: !ListedAt(m, c, i, h);
    var none: Seen := map[];
    assert Enqueued(none) == {} && Complete(none) == {};
  }

  function Enqueue(cs: Chains, c: uint16, pe: PendingEntry): Chains
    requires c in cs
  {
    cs[c := cs[c].(pending := cs[c].pending + [pe])]
  }

  function Count(cs: Chains, c: uint16, t: Transfer): Chains
    requires c in cs
  {
    cs[c := cs[c].(transfers := cs[c].transfers + [t])]
  }

  function Dequeue(cs: Chains, c: uint16, i: nat): Chains
    requires c in cs && i < |cs[c].pending|
  {
    cs[c := cs[c].(pending := cs[c].pending[..i] + cs[c].pending[i + 1..])]
  }

  function Trim(cs: Chains, c: uint16, n: nat): Chains
    requires c in cs && n <= |cs[c].transfers|
  {
    cs[c := cs[c].(transfers := cs[c].transfers[n..])]
  }

  function Hashes(ts: seq<Transfer>): set<Text> { set t | t in ts :: t.hash }

  /** Changing one chain's pending list changes that list of hashes and nothing else. */
  lemma PendingListChanges(cs: Chains, c: uint16, pending: seq<PendingEntry>)
    requires c in cs
    ensures var cs' := cs[c := cs[c].(pending := pending)];
      PendingLists(cs') == PendingLists(cs)[c := PendingHashes(pending)] && TransferLists(cs') == TransferLists(cs)
  {
  }

  lemma TransferListChanges(cs: Chains, c: uint16, transfers: seq<Transfer>)
    requires c in cs
    ensures var cs' := cs[c := cs[c].(transfers := transfers)];
      TransferLists(cs') == TransferLists(cs)[c := TransferHashes(transfers)] && PendingLists(cs') == PendingLists(cs)
  {
  }

  lemma EnqueueAgrees(cs: Chains, seen: Seen, c: uint16, pe: PendingEntry)
    requires SeenAgrees(cs, seen) && c in cs && pe.hash != [] && pe.hash !in seen
    ensures SeenAgrees(Enqueue(cs, c, pe), seen[pe.hash := false])
  {
    hide ListsExactly;
    PendingListChanges(cs, c, cs[c].pending + [pe]);
    assert PendingHashes(cs[c].pending + [pe]) == PendingHashes(cs[c].pending) + [pe.hash];
    AppendKeeps(PendingLists(cs), Enqueued(seen), c, pe.hash);
    assert Enqueued(seen[pe.hash := false]) == Enqueued(seen) + {pe.hash};
    assert Complete(seen[pe.hash := false]) == Complete(seen);
  }

  function Noted(seen: Seen, h: Text): Seen { if h == [] then seen else seen[h := true] }

  lemma CountAgrees(cs: Chains, seen: Seen, c: uint16, t: Transfer)
    requires SeenAgrees(cs, seen) && c in cs && t.hash !in seen
    ensures SeenAgrees(Count(cs, c, t), Noted(seen, t.hash))
  {
    hide ListsExactly;
    TransferListChanges(cs, c, cs[c].transfers + [t]);
    assert TransferHashes(cs[c].transfers + [t]) == TransferHashes(cs[c].transfers) + [t.hash];
    AppendKeeps(TransferLists(cs), Complete(seen), c, t.hash);
    assert Enqueued(Noted(seen, t.hash)) == Enqueued(seen);
    assert t.hash != [] ==> Complete(Noted(seen, t.hash)) == Complete(seen) + {t.hash};
  }

  lemma PendingIsEnqueued(cs: Chains, seen: Seen, c: uint16, i: nat)
    requires SeenAgrees(cs, seen) && c in cs && i < |cs[c].pending| && cs[c].pending[i].hash != []
    ensures cs[c].pending[i].hash in seen && !seen[cs[c].pending[i].hash]
  {
    assert ListedAt(PendingLists(cs), c, i, cs[c].pending[i].hash);
  }

  lemma DequeueAgrees(cs: Chains, seen: Seen, c: uint16, i: nat)
    requires SeenAgrees(cs, seen) && c in cs && i < |cs[c].pending| && cs[c].pending[i].hash != []
    ensures SeenAgrees(Dequeue(cs, c, i), seen - {cs[c].pending[i].hash})
  {
    hide ListsExactly;
    var ps, h := cs[c].pending, cs[c].pending[i].hash;
    PendingListChanges(cs, c, ps[..i] + ps[i + 1..]);
    assert PendingHashes(ps[..i] + ps[i + 1..]) == PendingHashes(ps)[..i] + PendingHashes(ps)[i + 1..];
    PendingIsEnqueued(cs, seen, c, i);
    RemoveAtKeeps(PendingLists(cs), Enqueued(seen), c, i);
    assert Enqueued(seen - {h}) == Enqueued(seen) - {h};
    assert Complete(seen - {h}) == Complete(seen);
  }

  lemma TrimmedAreComplete(cs: Chains, seen: Seen, c: uint16, n: nat, h: Text)
    requires SeenAgrees(cs, seen) && c in cs && n <= |cs[c].transfers| && h in Hashes(cs[c].transfers[..n]) && h in seen
    ensures seen[h]
  {
    var i :| 0 <= i < n && cs[c].transfers[..n][i].hash == h;
    assert ListedAt(TransferLists(cs), c, i, h);
  }

  lemma TrimAgrees(cs: Chains, seen: Seen, c: uint16, n: nat)
    requires SeenAgrees(cs, seen) && c in cs && n <= |cs[c].transfers|
    ensures SeenAgrees(Trim(cs, c, n), seen - Hashes(cs[c].transfers[..n]))
  {
    hide ListsExactly;
    var ts := cs[c].transfers;
    var gone := Hashes(ts[..n]);
    TransferListChanges(cs, c, ts[n..]);
    assert TransferHashes(ts[n..]) == TransferHashes(ts)[n..];
    RemoveFirstKeeps(TransferLists(cs), Complete(seen), c, n);
    HashesOfPrefix(ts, n);
    forall h | h in gone && h in seen
      ensures seen[h]
    {
      TrimmedAreComplete(cs, seen, c, n, h);
    }
    assert Enqueued(seen - gone) == Enqueued(seen);
    assert Complete(seen - gone) == Complete(seen) - gone;
  }

  lemma HashesOfPrefix(ts: seq<Transfer>, n: nat)
    requires n <= |ts|
    ensures (set h | h in TransferHashes(ts)[..n]) == Hashes(ts[..n])
  {
    forall h | h in Hashes(ts[..n])
      ensures h in TransferHashes(ts)[..n]
    {
      var i :| 0 <= i < n && ts[..n][i].hash == h;
      assert TransferHashes(ts)[..n][i] == h;
    }
  }

  // ---------------------------------------------------------------- entries and the rolling limit

  /** A pending entry of chain c is about its message. */
  ghost predicate EntryMatches(cfg: Config, c: uint16, pe: PendingEntry) {
    var m := pe.dbData.msg;
    && pe.hash == HashFromMsg(cfg, m) && m.emitterChain == c
    && DecodeTransferHdr(m.payload).Some?
    && var hdr := DecodeTransferHdr(m.payload).value;
       pe.token == TokenKey(hdr.originChain, hdr.originAddress) && pe.amount == hdr.amount
  }

  ghost predicate EntriesMatch(cfg: Config, cs: Chains) {
    forall c, i | c in cs && 0 <= i < |cs[c].pending| :: EntryMatches(cfg, c, cs[c].pending[i])
  }

  lemma MatchingHash(cfg: Config, c: uint16, pe: PendingEntry)
    requires EntryMatches(cfg, c, pe)
    ensures pe.hash != []
  {
  }

  lemma EnqueueMatches(cfg: Config, cs: Chains, c: uint16, pe: PendingEntry)
    requires EntriesMatch(cfg, cs) && c in cs && EntryMatches(cfg, c, pe)
    ensures EntriesMatch(cfg, Enqueue(cs, c, pe))
  {
    hide EntryMatches;
  }

  lemma DequeueMatches(cfg: Config, cs: Chains, c: uint16, i: nat)
    requires EntriesMatch(cfg, cs) && c in cs && i < |cs[c].pending|
    ensures EntriesMatch(cfg, Dequeue(cs, c, i)) && EntryMatches(cfg, c, cs[c].pending[i])
  {
    hide EntryMatches;
    var cs' := Dequeue(cs, c, i);
    forall d, j | d in cs' && 0 <= j < |cs'[d].pending|
      ensures EntryMatches(cfg, d, cs'[d].pending[j])
    {
      assert cs'[d].pending[j] == cs[d].pending[if d == c && j >= i then j + 1 else j];
    }
  }

  lemma SamePendingMatches(cfg: Config, cs: Chains, c: uint16, transfers: seq<Transfer>)
    requires EntriesMatch(cfg, cs) && c in cs
    ensures EntriesMatch(cfg, cs[c := cs[c].(transfers := transfers)])
  {
    hide EntryMatches;
  }

  /** The list of ce is what is left of the history h; what was cut off is over a day old. */
  ghost predicate Tracks(ce: ChainEntry, h: seq<Transfer>, base: nat, clock: int) {
    && |ce.transfers| <= |h| && ce.transfers == h[|h| - |ce.transfers|..]
    && (forall i | 0 <= i < |h| - |ce.transfers| :: h[i].timestamp < clock - DAY)
    && (forall i | 0 <= i < |h| :: h[i].timestamp <= clock)
    && Ordered(h) && Limited(h, base, ce.dailyLimit) && Sum(ce.transfers) < UINT64
  }

  lemma TracksLater(ce: ChainEntry, h: seq<Transfer>, base: nat, clock: int, now: int)
    requires Tracks(ce, h, base, clock) && clock <= now
    ensures Tracks(ce, h, base, now)
  {
  }

  lemma {:induction false} SumOfTail(ts: seq<Transfer>, n: nat)
    requires n <= |ts|
    ensures Sum(ts[n..]) <= Sum(ts)
  {
    if n < |ts| {
      SumOfTail(ts[..|ts| - 1], n);
      assert ts[n..][..|ts| - n - 1] == ts[..|ts| - 1][n..];
    }
  }

  lemma DropTwice(h: seq<Transfer>, k: nat, n: nat)
    requires k + n <= |h|
    ensures h[k..][n..] == h[k + n..]
  {
  }

  lemma OrderedTail(h: seq<Transfer>, k: nat)
    requires Ordered(h) && k <= |h|
    ensures Ordered(h[k..])
  {
  }

  lemma TrimTracks(ce: ChainEntry, h: seq<Transfer>, base: nat, now: int)
    requires Tracks(ce, h, base, now)
    ensures var n := Expired(ce.transfers, now - DAY);
      && Tracks(ce.(transfers := ce.transfers[n..]), h, base, now)
      && SumSince(ce.transfers, now - DAY) == Sum(ce.transfers[n..])
  {
    hide Sum, SumSince, Limited, Expired, Ordered;
    var ts := ce.transfers;
    var n := Expired(ts, now - DAY);
    var k := |h| - |ts|;
    OrderedTail(h, k);
    TrimOrdered(ts, now - DAY);
    SumOfTail(ts, n);
    DropTwice(h, k, n);
    OlderPart(h, k, n, now - DAY);
  }

  lemma OlderPart(h: seq<Transfer>, k: nat, n: nat, start: int)
    requires k + n <= |h| && (forall i | 0 <= i < k :: h[i].timestamp < start)
      && (forall i | 0 <= i < n :: h[k..][i].timestamp < start)
    ensures forall i | 0 <= i < k + n :: h[i].timestamp < start
  {
    forall i | k <= i < k + n
      ensures h[i].timestamp < start
    {
      assert h[i] == h[k..][i - k];
    }
  }

  /** Counting a transfer after trimming, within the limit. */
  lemma CountTracks(ce: ChainEntry, h: seq<Transfer>, base: nat, now: int, t: Transfer)
    requires Tracks(ce, h, base, now) && t.timestamp == now
    requires forall i | 0 <= i < |ce.transfers| :: ce.transfers[i].timestamp >= now - DAY
    requires Sum(ce.transfers) + t.value <= ce.dailyLimit
    ensures Tracks(ce.(transfers := ce.transfers + [t]), h + [t], base, now)
  {
    hide Sum, Limited;
    var n := |h| - |ce.transfers|;
    forall i | n <= i < |h|
      ensures h[i].timestamp >= now - DAY
    {
      assert h[i] == ce.transfers[i - n];
    }
    AdmitLimited(h, base, ce.dailyLimit, n, t);
    SumSnoc(ce.transfers, t);
    assert (h + [t])[n..] == ce.transfers + [t];
  }
}
