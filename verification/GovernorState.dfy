/** The whole state of the chain governor, the changes its operations are made of, and the
    invariant that each of them keeps. */
module GovernorState {
  import opened Binary
  import opened Vaa
  import opened Keys
  import opened Publication
  import opened Transfers
  import opened GovernorDb
  import opened Listings
  import opened Window
  import opened Governor

  /** `history` remembers, per chain, every transfer that was ever counted, and `clock` the time
      of the latest operation; the node keeps neither. */
  datatype State = State(chains: Chains, seen: Seen, store: Store, history: map<uint16, seq<Transfer>>, clock: int)

  function TransferKeys(ts: seq<Transfer>): set<Text> { set t | t in ts :: NewKey(Done(t)) }

  /** Nothing on chain c is more than a day old, and t fits under the limit with the rest. */
  ghost predicate MayCount(s: State, c: uint16, t: Transfer)
    requires c in s.chains
  {
    && t.timestamp == s.clock
    && (forall i | 0 <= i < |s.chains[c].transfers| :: s.chains[c].transfers[i].timestamp >= s.clock - DAY)
    && Sum(s.chains[c].transfers) + t.value <= s.chains[c].dailyLimit
  }

  /** Entry i of chain c may be released, counted as t or not counted. */
  ghost predicate MayGo(s: State, c: uint16, i: nat, counted: Option<Transfer>) {
    && c in s.chains && i < |s.chains[c].pending|
    && (counted.Some? ==>
       c in s.history && MayCount(s, c, counted.value) && counted.value.hash == s.chains[c].pending[i].hash)
  }

  function Recorded(s: State, c: uint16, t: Transfer): State
    requires c in s.chains && c in s.history
  {
    s.(chains := Count(s.chains, c, t), seen := Noted(s.seen, t.hash),
      store := s.store[NewKey(Done(t)) := Encoded(Done(t))],
       history := s.history[c := s.history[c] + [t]])
  }

  function Trimmed(s: State, c: uint16): State
    requires c in s.chains
  {
    var ts := s.chains[c].transfers;
    var n := Expired(ts, s.clock - DAY);
    s.(chains := Trim(s.chains, c, n), seen := s.seen - Hashes(ts[..n]), store := s.store - TransferKeys(ts[..n]))
  }

  function Queued(s: State, c: uint16, pe: PendingEntry): State
    requires c in s.chains
  {
    var e := Pending(pe.dbData);
    s.(chains := Enqueue(s.chains, c, pe), seen := s.seen[pe.hash := false], store := s.store[NewKey(e) := Encoded(e)])
  }

  /** The entry leaves the queue, is forgotten or counted, and then its record is deleted. */
  function Released(s: State, c: uint16, i: nat, counted: Option<Transfer>): State
    requires c in s.chains && i < |s.chains[c].pending| && (counted.Some? ==> c in s.history)
  {
    var pe := s.chains[c].pending[i];
    var left := s.(chains := Dequeue(s.chains, c, i), seen := s.seen - {pe.hash});
    var done := if counted.Some? then Recorded(left, c, counted.value) else left;
    done.(store := done.store - {NewKey(Pending(pe.dbData))})
  }

  // ---------------------------------------------------------------- the invariant

  ghost predicate Limits(s: State, base: map<uint16, nat>) {
    && s.history.Keys == s.chains.Keys && base.Keys == s.chains.Keys
    && forall c | c in s.chains :: Tracks(s.chains[c], s.history[c], base[c], s.clock)
  }

  ghost predicate Inv(cfg: Config, s: State, base: map<uint16, nat>) {
    SeenAgrees(s.chains, s.seen) && EntriesMatch(cfg, s.chains) && Limits(s, base)
  }

  lemma TickKeeps(cfg: Config, s: State, base: map<uint16, nat>, now: int)
    requires Inv(cfg, s, base) && s.clock <= now
    ensures Inv(cfg, s.(clock := now), base)
  {
    hide Tracks, SeenAgrees, EntriesMatch;
    forall c | c in s.chains
      ensures Tracks(s.chains[c], s.history[c], base[c], now)
    {
      TracksLater(s.chains[c], s.history[c], base[c], s.clock, now);
    }
  }

  lemma TrimKeeps(cfg: Config, s: State, base: map<uint16, nat>, c: uint16)
    requires Inv(cfg, s, base) && c in s.chains
    ensures Inv(cfg, Trimmed(s, c), base)
    ensures SumSince(s.chains[c].transfers, s.clock - DAY) == Sum(Trimmed(s, c).chains[c].transfers)
    ensures forall i | 0 <= i < |Trimmed(s, c).chains[c].transfers| ::
      Trimmed(s, c).chains[c].transfers[i].timestamp >= s.clock - DAY
  {
    hide Tracks, SeenAgrees, EntriesMatch, Sum, SumSince, Expired, Hashes, TransferKeys;
    var ts := s.chains[c].transfers;
    SamePendingMatches(cfg, s.chains, c, ts[Expired(ts, s.clock - DAY)..]);
    TrimAgrees(s.chains, s.seen, c, Expired(ts, s.clock - DAY));
    TrimTracks(s.chains[c], s.history[c], base[c], s.clock);
  }

  /** The rolling limit does not depend on the queue. */
  lemma QueueTracks(ce: ChainEntry, pending: seq<PendingEntry>, h: seq<Transfer>, base: nat, clock: int)
    requires Tracks(ce, h, base, clock)
    ensures Tracks(ce.(pending := pending), h, base, clock)
  {
  }

  lemma EnqueueKeeps(cfg: Config, s: State, base: map<uint16, nat>, c: uint16, pe: PendingEntry)
    requires Inv(cfg, s, base) && c in s.chains && pe.hash !in s.seen && EntryMatches(cfg, c, pe)
    ensures Inv(cfg, Queued(s, c, pe), base)
  {
    hide SeenAgrees, EntryMatches, EntriesMatch, NewKey, Encoded, Tracks;
    MatchingHash(cfg, c, pe);
    EnqueueAgrees(s.chains, s.seen, c, pe);
    EnqueueMatches(cfg, s.chains, c, pe);
    QueueTracks(s.chains[c], s.chains[c].pending + [pe], s.history[c], base[c], s.clock);
  }

  lemma CountKeeps(cfg: Config, s: State, base: map<uint16, nat>, c: uint16, t: Transfer)
    requires Inv(cfg, s, base) && c in s.chains && t.hash != [] && t.hash !in s.seen && MayCount(s, c, t)
    ensures Inv(cfg, Recorded(s, c, t), base)
  {
    hide SeenAgrees, EntriesMatch, NewKey, Encoded, Tracks, Sum;
    SamePendingMatches(cfg, s.chains, c, s.chains[c].transfers + [t]);
    CountAgrees(s.chains, s.seen, c, t);
    CountTracks(s.chains[c], s.history[c], base[c], s.clock, t);
  }

  lemma DequeueKeeps(cfg: Config, s: State, base: map<uint16, nat>, c: uint16, i: nat)
    requires Inv(cfg, s, base) && c in s.chains && i < |s.chains[c].pending|
    ensures s.chains[c].pending[i].hash != []
    ensures Inv(cfg, s.(chains := Dequeue(s.chains, c, i), seen := s.seen - {s.chains[c].pending[i].hash}), base)
  {
    hide SeenAgrees, EntryMatches, EntriesMatch, Tracks;
    DequeueMatches(cfg, s.chains, c, i);
    MatchingHash(cfg, c, s.chains[c].pending[i]);
    DequeueAgrees(s.chains, s.seen, c, i);
    var ps := s.chains[c].pending;
    QueueTracks(s.chains[c], ps[..i] + ps[i + 1..], s.history[c], base[c], s.clock);
  }

  lemma ReleaseKeeps(cfg: Config, s: State, base: map<uint16, nat>, c: uint16, i: nat, counted: Option<Transfer>)
    requires Inv(cfg, s, base) && MayGo(s, c, i, counted)
    ensures Inv(cfg, Released(s, c, i, counted), base)
  {
    hide SeenAgrees, EntriesMatch, NewKey, Encoded, Tracks, Sum;
    DequeueKeeps(cfg, s, base, c, i);
    var left := s.(chains := Dequeue(s.chains, c, i), seen := s.seen - {s.chains[c].pending[i].hash});
    if counted.Some? {
      CountKeeps(cfg, left, base, c, counted.value);
    }
  }

  /** A governor that has counted nothing yet. */
  ghost predicate Fresh(s: State) {
    && s.history.Keys == s.chains.Keys
    && EmptyLists(s.chains) && forall c | c in s.chains :: s.history[c] == []
  }

  lemma FreshInv(cfg: Config, s: State)
    requires Fresh(s) && s.seen == map[]
    ensures Inv(cfg, s, map c | c in s.chains :: 0)
  {
    hide SeenAgrees;
    EmptyAgrees(s.chains);
  }

  lemma TrimConserves(cfg: Config, s: State, base: map<uint16, nat>, c: uint16)
    requires Inv(cfg, s, base) && c in s.chains
    ensures Enqueued(Trimmed(s, c).seen) == Enqueued(s.seen)
  {
    hide SeenAgrees, EntriesMatch, Limits, Expired;
    var ts := s.chains[c].transfers;
    var n := Expired(ts, s.clock - DAY);
    forall h | h in Hashes(ts[..n]) && h in s.seen
      ensures s.seen[h]
    {
      TrimmedAreComplete(s.chains, s.seen, c, n, h);
    }
  }

  lemma ReleaseConserves(cfg: Config, s: State, base: map<uint16, nat>, c: uint16, i: nat, counted: Option<Transfer>)
    requires Inv(cfg, s, base) && MayGo(s, c, i, counted)
    ensures var h := s.chains[c].pending[i].hash;
      h in Enqueued(s.seen) && Enqueued(Released(s, c, i, counted).seen) == Enqueued(s.seen) - {h}
  {
    hide SeenAgrees, EntriesMatch, EntryMatches, Limits, NewKey, Encoded, MayCount;
    DequeueMatches(cfg, s.chains, c, i);
    MatchingHash(cfg, c, s.chains[c].pending[i]);
    PendingIsEnqueued(s.chains, s.seen, c, i);
  }
}
