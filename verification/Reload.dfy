/** Rebuilding the governor's lists and its index of seen messages from the store:
    node/pkg/governor/governor_db.go. */
module Reload {
  import opened Binary
  import opened Vaa
  import opened Keys
  import opened Sorting
  import opened Publication
  import opened Transfers
  import opened GovernorDb
  import opened Listings
  import opened Window
  import opened Governor

  datatype Index = Index(chains: Chains, seen: Seen)

  // ---------------------------------------------------------------- one entry at a time

  predicate KnownEmitter(cs: Chains, chain: uint16, address: Address) {
    chain in cs && address == cs[chain].emitterAddr
  }

  /** A pending transfer of a configured chain, emitter and token, with a payload that parses. */
  predicate KnownPending(cfg: Config, cs: Chains, p: PendingTransfer) {
    && KnownEmitter(cs, p.msg.emitterChain, p.msg.emitterAddress)
    && DecodeTransferHdr(p.msg.payload).Some?
    && var hdr := DecodeTransferHdr(p.msg.payload).value; TokenKey(hdr.originChain, hdr.originAddress) in cfg.tokens
  }

  predicate KnownTransfer(cfg: Config, cs: Chains, t: Transfer) {
    KnownEmitter(cs, t.emitterChain, t.emitterAddress) && TokenKey(t.originChain, t.originAddress) in cfg.tokens
  }

  function EntryFor(cfg: Config, p: PendingTransfer): PendingEntry
    requires DecodeTransferHdr(p.msg.payload).Some?
  {
    var hdr := DecodeTransferHdr(p.msg.payload).value;
    PendingEntry(TokenKey(hdr.originChain, hdr.originAddress), hdr.amount, HashFromMsg(cfg, p.msg), p)
  }

  function AddPending(cfg: Config, ix: Index, p: PendingTransfer): Index {
    if !KnownPending(cfg, ix.chains, p) || HashFromMsg(cfg, p.msg) in ix.seen then ix
    else Index(Enqueue(ix.chains, p.msg.emitterChain, EntryFor(cfg, p)), ix.seen[HashFromMsg(cfg, p.msg) := false])
  }

  /** A transfer without a hash is listed but cannot be recognised again. */
  function AddTransfer(cfg: Config, ix: Index, t: Transfer): Index {
    if !KnownTransfer(cfg, ix.chains, t) || t.hash in ix.seen then ix
    else Index(Count(ix.chains, t.emitterChain, t), Noted(ix.seen, t.hash))
  }

  function AddPendings(cfg: Config, ix: Index, ps: seq<PendingTransfer>): Index {
    if ps == [] then ix else AddPending(cfg, AddPendings(cfg, ix, ps[..|ps| - 1]), ps[|ps| - 1])
  }

  function AddTransfers(cfg: Config, ix: Index, ts: seq<Transfer>): Index {
    if ts == [] then ix else AddTransfer(cfg, AddTransfers(cfg, ix, ts[..|ts| - 1]), ts[|ts| - 1])
  }

  // ---------------------------------------------------------------- the whole reload

  predicate PendingLeq(p: PendingTransfer, q: PendingTransfer) { p.msg.timestamp <= q.msg.timestamp }

  predicate TransferLeq(t: Transfer, u: Transfer) { t.timestamp <= u.timestamp }

  /** The transfers after start, and the others. */
  function Recent(ts: seq<Transfer>, start: int): seq<Transfer> {
    if ts == [] then []
    else Recent(ts[..|ts| - 1], start) + if start < ts[|ts| - 1].timestamp then [ts[|ts| - 1]] else []
  }

  function Stale(ts: seq<Transfer>, start: int): seq<Transfer> {
    if ts == [] then []
    else Stale(ts[..|ts| - 1], start) + if start < ts[|ts| - 1].timestamp then [] else [ts[|ts| - 1]]
  }

  /** The lists and the index after reloading pending transfers ps and transfers ts. */
  function Rebuilt(cfg: Config, cs: Chains, ps: seq<PendingTransfer>, ts: seq<Transfer>, now: int): Index {
    AddTransfers(cfg, AddPendings(cfg, Index(cs, map[]), Sort(ps, PendingLeq)),
      Recent(Sort(ts, TransferLeq), now - DAY))
  }

  // ---------------------------------------------------------------- the index agrees with the lists

  ghost predicate Agrees(cfg: Config, ix: Index) { SeenAgrees(ix.chains, ix.seen) && EntriesMatch(cfg, ix.chains) }

  lemma KnownEntryMatches(cfg: Config, cs: Chains, p: PendingTransfer)
    requires KnownPending(cfg, cs, p)
    ensures EntryMatches(cfg, p.msg.emitterChain, EntryFor(cfg, p)) && EntryFor(cfg, p).hash == HashFromMsg(cfg, p.msg)
  {
  }

  lemma AddPendingAgrees(cfg: Config, ix: Index, p: PendingTransfer)
    requires Agrees(cfg, ix)
    ensures Agrees(cfg, AddPending(cfg, ix, p))
  {
    hide SeenAgrees, EntriesMatch, EntryMatches, HashFromMsg, DecodeTransferHdr;
    if KnownPending(cfg, ix.chains, p) && HashFromMsg(cfg, p.msg) !in ix.seen {
      KnownEntryMatches(cfg, ix.chains, p);
      EnqueueAgrees(ix.chains, ix.seen, p.msg.emitterChain, EntryFor(cfg, p));
      EnqueueMatches(cfg, ix.chains, p.msg.emitterChain, EntryFor(cfg, p));
    }
  }

  lemma AddTransferAgrees(cfg: Config, ix: Index, t: Transfer)
    requires Agrees(cfg, ix)
    ensures Agrees(cfg, AddTransfer(cfg, ix, t))
  {
    hide SeenAgrees, EntriesMatch;
    if KnownTransfer(cfg, ix.chains, t) && t.hash !in ix.seen {
      CountAgrees(ix.chains, ix.seen, t.emitterChain, t);
      SamePendingMatches(cfg, ix.chains, t.emitterChain, ix.chains[t.emitterChain].transfers + [t]);
    }
  }

  lemma {:induction false} AddPendingsAgree(cfg: Config, ix: Index, ps: seq<PendingTransfer>)
    requires Agrees(cfg, ix)
    ensures Agrees(cfg, AddPendings(cfg, ix, ps))
  {
    hide Agrees, AddPending;
    if ps != [] {
      AddPendingsAgree(cfg, ix, ps[..|ps| - 1]);
      AddPendingAgrees(cfg, AddPendings(cfg, ix, ps[..|ps| - 1]), ps[|ps| - 1]);
    }
  }

  lemma {:induction false} AddTransfersAgree(cfg: Config, ix: Index, ts: seq<Transfer>)
    requires Agrees(cfg, ix)
    ensures Agrees(cfg, AddTransfers(cfg, ix, ts))
  {
    hide Agrees, AddTransfer;
    if ts != [] {
      AddTransfersAgree(cfg, ix, ts[..|ts| - 1]);
      AddTransferAgrees(cfg, AddTransfers(cfg, ix, ts[..|ts| - 1]), ts[|ts| - 1]);
    }
  }

  // ---------------------------------------------------------------- where the lists come from

  /** The configured part of the chains. */
  ghost predicate SameConfig(cs: Chains, ds: Chains) {
    && ds.Keys == cs.Keys
    && forall c | c in cs :: ds[c].(transfers := [], pending := []) == cs[c].(transfers := [], pending := [])
  }

  /** The pending lists hold only transfers of ps, oldest first. */
  ghost predicate PendingFrom(cs: Chains, ps: seq<PendingTransfer>) {
    && (forall c, i | c in cs && 0 <= i < |cs[c].pending| :: cs[c].pending[i].dbData in ps)
    && (forall c, i, j | c in cs && 0 <= i < j < |cs[c].pending| ::
          cs[c].pending[i].dbData.msg.timestamp <= cs[c].pending[j].dbData.msg.timestamp)
  }

  /** The lists hold only transfers of ts, each of its own chain, in time order. */
  ghost predicate TransfersFrom(cs: Chains, ts: seq<Transfer>) {
    && (forall c, i | c in cs && 0 <= i < |cs[c].transfers| ::
          cs[c].transfers[i] in ts && cs[c].transfers[i].emitterChain == c)
    && (forall c | c in cs :: Ordered(cs[c].transfers))
  }

  lemma AddPendingFrom(cfg: Config, ix: Index, ps: seq<PendingTransfer>, p: PendingTransfer)
    requires PendingFrom(ix.chains, ps) && forall q | q in ps :: q.msg.timestamp <= p.msg.timestamp
    ensures PendingFrom(AddPending(cfg, ix, p).chains, ps + [p]) && SameConfig(ix.chains, AddPending(cfg, ix, p).chains)
    ensures forall c | c in ix.chains :: AddPending(cfg, ix, p).chains[c].transfers == ix.chains[c].transfers
  {
    hide HashFromMsg, DecodeTransferHdr;
  }

  lemma AddTransferFrom(cfg: Config, ix: Index, ts: seq<Transfer>, t: Transfer)
    requires TransfersFrom(ix.chains, ts) && forall u | u in ts :: u.timestamp <= t.timestamp
    ensures TransfersFrom(AddTransfer(cfg, ix, t).chains, ts + [t])
      && SameConfig(ix.chains, AddTransfer(cfg, ix, t).chains)
    ensures forall c | c in ix.chains :: AddTransfer(cfg, ix, t).chains[c].pending == ix.chains[c].pending
  {
  }

  lemma {:induction false} AddPendingsFrom(cfg: Config, ix: Index, ps: seq<PendingTransfer>)
    requires EmptyLists(ix.chains) && Sorted(ps, PendingLeq)
    ensures var jx := AddPendings(cfg, ix, ps);
      && PendingFrom(jx.chains, ps) && SameConfig(ix.chains, jx.chains)
      && forall c | c in jx.chains :: jx.chains[c].transfers == []
  {
    hide AddPending;
    if ps != [] {
      var n := |ps| - 1;
      AddPendingsFrom(cfg, ix, ps[..n]);
      forall q | q in ps[..n]
        ensures q.msg.timestamp <= ps[n].msg.timestamp
      {
        var i :| 0 <= i < n && ps[i] == q;
        assert PendingLeq(ps[i], ps[n]);
      }
      AddPendingFrom(cfg, AddPendings(cfg, ix, ps[..n]), ps[..n], ps[n]);
      assert ps == ps[..n] + [ps[n]];
    }
  }

  lemma {:induction false} AddTransfersFrom(cfg: Config, ix: Index, ts: seq<Transfer>)
    requires (forall c | c in ix.chains :: ix.chains[c].transfers == []) && Sorted(ts, TransferLeq)
    ensures var jx := AddTransfers(cfg, ix, ts);
      && TransfersFrom(jx.chains, ts) && SameConfig(ix.chains, jx.chains)
      && forall c | c in jx.chains :: jx.chains[c].pending == ix.chains[c].pending
  {
    hide AddTransfer;
    if ts != [] {
      var n := |ts| - 1;
      AddTransfersFrom(cfg, ix, ts[..n]);
      forall u | u in ts[..n]
        ensures u.timestamp <= ts[n].timestamp
      {
        var i :| 0 <= i < n && ts[i] == u;
        assert TransferLeq(ts[i], ts[n]);
      }
      AddTransferFrom(cfg, AddTransfers(cfg, ix, ts[..n]), ts[..n], ts[n]);
      assert ts == ts[..n] + [ts[n]];
    }
  }

  /** A transfer is kept if it is recent and dropped if it is not. */
  lemma {:induction false} RecentOrStale(ts: seq<Transfer>, start: int, t: Transfer)
    ensures t in Recent(ts, start) <==> t in ts && start < t.timestamp
    ensures t in Stale(ts, start) <==> t in ts && start >= t.timestamp
  {
    if ts != [] {
      var n := |ts| - 1;
      RecentOrStale(ts[..n], start, t);
      assert t in ts <==> t in ts[..n] || t == ts[n];
    }
  }

  lemma {:induction false} RecentSorted(ts: seq<Transfer>, start: int)
    requires Sorted(ts, TransferLeq)
    ensures Sorted(Recent(ts, start), TransferLeq)
  {
    if ts != [] {
      var n := |ts| - 1;
      RecentSorted(ts[..n], start);
      var rest := Recent(ts[..n], start);
      forall i | 0 <= i < |rest|
        ensures TransferLeq(rest[i], ts[n])
      {
        RecentOrStale(ts[..n], start, rest[i]);
        var k :| 0 <= k < n && ts[k] == rest[i];
        assert TransferLeq(ts[k], ts[n]);
      }
    }
  }

  // ---------------------------------------------------------------- nothing known is lost

  lemma AddPendingKnows(cfg: Config, ix: Index, p: PendingTransfer)
    ensures ix.seen.Keys <= AddPending(cfg, ix, p).seen.Keys
    ensures KnownPending(cfg, ix.chains, p) ==> HashFromMsg(cfg, p.msg) in AddPending(cfg, ix, p).seen
    ensures Complete(ix.seen) == {} ==> Complete(AddPending(cfg, ix, p).seen) == {}
  {
    hide HashFromMsg, DecodeTransferHdr;
    var jx := AddPending(cfg, ix, p);
    assert forall h | h in jx.seen :: h in ix.seen || !jx.seen[h];
  }

  lemma KnownElsewhere(cfg: Config, cs: Chains, ds: Chains, p: PendingTransfer, t: Transfer)
    requires SameConfig(cs, ds)
    ensures KnownPending(cfg, cs, p) <==> KnownPending(cfg, ds, p)
    ensures KnownTransfer(cfg, cs, t) <==> KnownTransfer(cfg, ds, t)
  {
    hide DecodeTransferHdr;
    assert forall c | c in cs ::
      ds[c].(transfers := [], pending := []).emitterAddr == cs[c].(transfers := [], pending := []).emitterAddr;
  }

  lemma {:induction false} AddPendingsKnow(cfg: Config, ix: Index, ps: seq<PendingTransfer>)
    requires EmptyLists(ix.chains) && Sorted(ps, PendingLeq) && Complete(ix.seen) == {}
    ensures Complete(AddPendings(cfg, ix, ps).seen) == {}
    ensures forall p | p in ps && KnownPending(cfg, ix.chains, p) ::
      HashFromMsg(cfg, p.msg) in AddPendings(cfg, ix, ps).seen
  {
    hide AddPending, HashFromMsg, KnownPending, Complete;
    if ps != [] {
      var n := |ps| - 1;
      AddPendingsKnow(cfg, ix, ps[..n]);
      AddPendingsFrom(cfg, ix, ps[..n]);
      var jx := AddPendings(cfg, ix, ps[..n]);
      AddPendingKnows(cfg, jx, ps[n]);
      KnownElsewhere(cfg, ix.chains, jx.chains, ps[n], EmptyTransfer());
      assert ps == ps[..n] + [ps[n]];
    }
  }

  lemma AddTransferKnows(cfg: Config, ix: Index, t: Transfer)
    ensures Enqueued(AddTransfer(cfg, ix, t).seen) == Enqueued(ix.seen)
    ensures ix.seen.Keys <= AddTransfer(cfg, ix, t).seen.Keys
    ensures KnownTransfer(cfg, ix.chains, t) && t.hash != [] ==> t.hash in AddTransfer(cfg, ix, t).seen
  {
  }

  lemma {:induction false} AddTransfersKnow(cfg: Config, ix: Index, ts: seq<Transfer>)
    requires (forall c | c in ix.chains :: ix.chains[c].transfers == []) && Sorted(ts, TransferLeq)
    ensures var jx := AddTransfers(cfg, ix, ts);
      && Enqueued(jx.seen) == Enqueued(ix.seen)
      && (forall t | t in ts && KnownTransfer(cfg, ix.chains, t) && t.hash != [] :: t.hash in jx.seen)
  {
    hide AddTransfer, Enqueued, KnownTransfer;
    if ts != [] {
      var n := |ts| - 1;
      AddTransfersKnow(cfg, ix, ts[..n]);
      AddTransfersFrom(cfg, ix, ts[..n]);
      var jx := AddTransfers(cfg, ix, ts[..n]);
      AddTransferKnows(cfg, jx, ts[n]);
      KnownElsewhere(cfg, ix.chains, jx.chains, PendingTransfer(0,
        Message(Zeros(32), 0, 0, 0, 0, 0, Zeros(32), [], false, false)), ts[n]);
      assert ts == ts[..n] + [ts[n]];
    }
  }

  // ---------------------------------------------------------------- what the lists hold in the end

  /** A transfer u without a hash is listed once more if it is added. */
  lemma AddTransferCounts(cfg: Config, ix: Index, t: Transfer, u: Transfer)
    requires [] !in ix.seen && KnownTransfer(cfg, ix.chains, u) && u.hash == []
    ensures var jx := AddTransfer(cfg, ix, t);
      && [] !in jx.seen && KnownTransfer(cfg, jx.chains, u)
      && multiset(jx.chains[u.emitterChain].transfers)[u] ==
           multiset(ix.chains[u.emitterChain].transfers)[u] + multiset([t])[u]
  {
  }

  lemma {:induction false} AddTransfersCount(cfg: Config, ix: Index, ts: seq<Transfer>, u: Transfer)
    requires [] !in ix.seen && KnownTransfer(cfg, ix.chains, u) && u.hash == []
    ensures var jx := AddTransfers(cfg, ix, ts);
      && [] !in jx.seen && KnownTransfer(cfg, jx.chains, u)
      && multiset(jx.chains[u.emitterChain].transfers)[u] ==
           multiset(ix.chains[u.emitterChain].transfers)[u] + multiset(ts)[u]
  {
    if ts != [] {
      var n := |ts| - 1;
      AddTransfersCount(cfg, ix, ts[..n], u);
      AddTransferCounts(cfg, AddTransfers(cfg, ix, ts[..n]), ts[n], u);
      hide AddTransfer;
      assert ts == ts[..n] + [ts[n]];
    }
  }

  lemma {:induction false} RecentCount(ts: seq<Transfer>, start: int, t: Transfer)
    ensures multiset(Recent(ts, start))[t] == if start < t.timestamp then multiset(ts)[t] else 0
  {
    if ts != [] {
      var n := |ts| - 1;
      RecentCount(ts[..n], start, t);
      assert ts == ts[..n] + [ts[n]];
    }
  }

  ghost predicate ListedHash(cs: Chains, h: Text) { exists c, i :: ListedAt(TransferLists(cs), c, i, h) }

  /** A hash that was seen is enqueued or listed. */
  lemma SeenIsListed(cfg: Config, ix: Index, h: Text)
    requires Agrees(cfg, ix) && h in ix.seen
    ensures h in Enqueued(ix.seen) || ListedHash(ix.chains, h)
  {
    hide EntriesMatch;
    assert h in Enqueued(ix.seen) || h in Complete(ix.seen);
  }

  // ---------------------------------------------------------------- the main result

  lemma OrdersArePreorders()
    ensures TotalPreorder(PendingLeq) && TotalPreorder(TransferLeq)
  {
  }

  /** Reloading into empty lists. The index agrees with the lists; every list is in time order and
      holds only what was stored, transfers only from the last day; the enqueued hashes are
      exactly those of the known pending transfers. Every known recent transfer without a hash is
      listed as often as it was stored, and one with a hash is listed unless it is enqueued or
      another one with its hash is listed. */
  lemma ReloadRebuilds(cfg: Config, cs: Chains, ps: seq<PendingTransfer>, ts: seq<Transfer>, now: int)
    requires EmptyLists(cs)
    ensures var ix := Rebuilt(cfg, cs, ps, ts, now);
      && Agrees(cfg, ix) && SameConfig(cs, ix.chains)
      && PendingFrom(ix.chains, ps) && TransfersFrom(ix.chains, ts)
      && (forall c, i | c in ix.chains && 0 <= i < |ix.chains[c].transfers| ::
         ix.chains[c].transfers[i].timestamp > now - DAY)
      && (forall p | p in ps && KnownPending(cfg, cs, p) :: HashFromMsg(cfg, p.msg) in Enqueued(ix.seen))
      && (forall t | t in ts && KnownTransfer(cfg, cs, t) && t.timestamp > now - DAY && t.hash == [] ::
            t.emitterChain in ix.chains
              && multiset(ix.chains[t.emitterChain].transfers)[t] == multiset(ts)[t])
      && (forall t | t in ts && KnownTransfer(cfg, cs, t) && t.timestamp > now - DAY && t.hash != [] ::
            t.hash in Enqueued(ix.seen) || ListedHash(ix.chains, t.hash))
  {
    hide Agrees, AddPendings, AddTransfers, Recent, HashFromMsg, KnownPending, KnownTransfer, Enqueued, ListedHash,
      PendingFrom, TransfersFrom, SameConfig, EmptyLists, Sort;
    var mid := AddPendings(cfg, Index(cs, map[]), Sort(ps, PendingLeq));
    PendingsRebuilt(cfg, cs, ps);
    TransfersRebuilt(cfg, mid, ts, now - DAY);
    var jx := AddTransfers(cfg, mid, Recent(Sort(ts, TransferLeq), now - DAY));
    SameConfigAs(cs, mid.chains, jx.chains);
    SamePendingFrom(mid.chains, jx.chains, ps);
    KnownTransfersElsewhere(cfg, cs, mid.chains, ts);
  }

  lemma SameConfigAs(cs: Chains, ds: Chains, es: Chains)
    requires SameConfig(cs, ds) && SameConfig(ds, es)
    ensures SameConfig(cs, es) && ds.Keys == es.Keys
  {
  }

  /** The second half of a reload. */
  lemma TransfersRebuilt(cfg: Config, mid: Index, ts: seq<Transfer>, start: int)
    requires Agrees(cfg, mid) && forall c | c in mid.chains :: mid.chains[c].transfers == []
    ensures var jx := AddTransfers(cfg, mid, Recent(Sort(ts, TransferLeq), start));
      && Agrees(cfg, jx) && SameConfig(mid.chains, jx.chains) && Enqueued(jx.seen) == Enqueued(mid.seen)
      && (forall c | c in jx.chains :: c in mid.chains && jx.chains[c].pending == mid.chains[c].pending)
      && TransfersFrom(jx.chains, ts)
      && (forall c, i | c in jx.chains && 0 <= i < |jx.chains[c].transfers| ::
            jx.chains[c].transfers[i].timestamp > start)
      && forall t | t in ts && KnownTransfer(cfg, mid.chains, t) && t.timestamp > start ::
           if t.hash == [] then
             t.emitterChain in jx.chains && multiset(jx.chains[t.emitterChain].transfers)[t] == multiset(ts)[t]
           else t.hash in Enqueued(jx.seen) || ListedHash(jx.chains, t.hash)
  {
    hide Agrees, AddTransfers, Recent, KnownTransfer, Enqueued, ListedHash, Sort;
    var us := Sort(ts, TransferLeq);
    var recent := Recent(us, start);
    OrdersArePreorders();
    SortSorted(ts, TransferLeq);
    SameElements(ts, us);
    RecentSorted(us, start);
    forall t
      ensures t in recent <==> t in us && start < t.timestamp
    {
      RecentOrStale(us, start, t);
    }
    AddTransfersAgree(cfg, mid, recent);
    AddTransfersFrom(cfg, mid, recent);
    AddTransfersKnow(cfg, mid, recent);
    AllListed(cfg, mid, us, start, ts);
  }

  lemma SamePendingFrom(cs: Chains, ds: Chains, ps: seq<PendingTransfer>)
    requires PendingFrom(cs, ps) && ds.Keys == cs.Keys && forall c | c in ds :: ds[c].pending == cs[c].pending
    ensures PendingFrom(ds, ps)
  {
  }

  /** The state between the two halves of a reload. */
  lemma PendingsRebuilt(cfg: Config, cs: Chains, ps: seq<PendingTransfer>)
    requires EmptyLists(cs)
    ensures var mid := AddPendings(cfg, Index(cs, map[]), Sort(ps, PendingLeq));
      && Agrees(cfg, mid) && SameConfig(cs, mid.chains) && PendingFrom(mid.chains, ps)
      && (forall c | c in mid.chains :: mid.chains[c].transfers == [])
      && (forall p | p in ps && KnownPending(cfg, cs, p) :: HashFromMsg(cfg, p.msg) in Enqueued(mid.seen))
  {
    hide SeenAgrees, AddPendings, HashFromMsg, KnownPending, Enqueued, Complete;
    var qs := Sort(ps, PendingLeq);
    OrdersArePreorders();
    SortSorted(ps, PendingLeq);
    SameElements(ps, qs);
    var start := Index(cs, map[]);
    EmptyAgrees(cs);
    assert Agrees(cfg, start);
    NothingSeen();
    AddPendingsAgree(cfg, start, qs);
    AddPendingsFrom(cfg, start, qs);
    AddPendingsKnow(cfg, start, qs);
    EnqueuedUnlessComplete(AddPendings(cfg, start, qs).seen);
  }

  lemma AllListed(cfg: Config, mid: Index, us: seq<Transfer>, start: int, ts: seq<Transfer>)
    requires Agrees(cfg, mid) && (forall c | c in mid.chains :: mid.chains[c].transfers == [])
    requires Sorted(us, TransferLeq) && multiset(us) == multiset(ts)
    ensures var jx := AddTransfers(cfg, mid, Recent(us, start));
      forall t | t in ts && KnownTransfer(cfg, mid.chains, t) && t.timestamp > start ::
        if t.hash == [] then
          t.emitterChain in jx.chains && multiset(jx.chains[t.emitterChain].transfers)[t] == multiset(ts)[t]
        else t.hash in Enqueued(jx.seen) || ListedHash(jx.chains, t.hash)
  {
    var recent := Recent(us, start);
    var jx := AddTransfers(cfg, mid, recent);
    assert [] !in mid.seen;
    RecentSorted(us, start);
    AddTransfersAgree(cfg, mid, recent);
    AddTransfersKnow(cfg, mid, recent);
    SameElements(ts, us);
    hide Agrees, AddTransfers, Recent, ListedHash, Enqueued, Sorted;
    forall t | t in ts && KnownTransfer(cfg, mid.chains, t) && t.timestamp > start
      ensures if t.hash == [] then
          t.emitterChain in jx.chains && multiset(jx.chains[t.emitterChain].transfers)[t] == multiset(ts)[t]
        else t.hash in Enqueued(jx.seen) || ListedHash(jx.chains, t.hash)
    {
      RecentOrStale(us, start, t);
      if t.hash == [] {
        AddTransfersCount(cfg, mid, recent, t);
        RecentCount(us, start, t);
      } else {
        SeenIsListed(cfg, jx, t.hash);
      }
    }
  }

  lemma NothingSeen()
    ensures var none: Seen := map[]; Complete(none) == {}
  {
  }

  lemma EnqueuedUnlessComplete(seen: Seen)
    requires Complete(seen) == {}
    ensures forall h | h in seen :: h in Enqueued(seen)
  {
    forall h | h in seen
      ensures h in Enqueued(seen)
    {
      assert h !in Complete(seen);
    }
  }

  lemma KnownTransfersElsewhere(cfg: Config, cs: Chains, ds: Chains, ts: seq<Transfer>)
    requires SameConfig(cs, ds)
    ensures forall t | t in ts :: KnownTransfer(cfg, cs, t) <==> KnownTransfer(cfg, ds, t)
  {
    assert forall c | c in cs ::
      ds[c].(transfers := [], pending := []).emitterAddr == cs[c].(transfers := [], pending := []).emitterAddr;
  }
}
