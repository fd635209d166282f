/** The operations of the chain governor as they run: node/pkg/governor/governor.go. */
module GovernorNode {
  import opened Binary
  import opened Vaa
  import opened Keys
  import opened Publication
  import opened Transfers
  import opened GovernorDb
  import opened Scans
  import opened Window
  import opened Governor
  import opened GovernorState
  import opened Reload
  import opened Sorting

  const MAX_ENQUEUED := 24 * 60 * 60 * NANOS

  // ---------------------------------------------------------------- admitting a message

  datatype Governed = Ignored | Malformed | Applies(hdr: TransferHdr)

  /** Whether the governor applies to a message. */
  function ParseMsg(cfg: Config, cs: Chains, m: Message): Governed {
    if m.emitterChain !in cs || m.emitterAddress != cs[m.emitterChain].emitterAddr
      || !IsTransfer(m.payload) then Ignored
    else match DecodeTransferHdr(m.payload)
      case None => Malformed
      case Some(hdr) => if TokenOf(hdr) in cfg.tokens then Applies(hdr) else Ignored
  }

  function TokenOf(hdr: TransferHdr): TokenKey { TokenKey(hdr.originChain, hdr.originAddress) }

  function NewTransfer(cfg: Config, m: Message, hdr: TransferHdr, value: uint64, now: int): Transfer {
    Transfer(now, value, hdr.originChain, hdr.originAddress, m.emitterChain, m.emitterAddress, MessageIDString(m),
             HashFromMsg(cfg, m), hdr.targetAddress, hdr.targetChain)
  }

  function NewPending(cfg: Config, m: Message, hdr: TransferHdr, now: int): PendingEntry {
    PendingEntry(TokenOf(hdr), hdr.amount, HashFromMsg(cfg, m), PendingTransfer(now + MAX_ENQUEUED, m))
  }

  datatype Outcome = Publish | Hold | Failed

  /** What happens to a message that is not a duplicate, when chain ce already has total. */
  datatype Judgement = Refused | Queues | Counts(value: uint64)

  function Judge(ce: ChainEntry, total: uint64, value: Option<uint64>): Judgement {
    if value.None? || total + value.value >= UINT64 then Refused
    else if IsBigTransfer(ce, value.value) || total + value.value > ce.dailyLimit then Queues
    else Counts(value.value)
  }

  function OutcomeOf(j: Judgement): Outcome {
    match j
    case Refused => Failed
    case Queues => Hold
    case Counts(_) => Publish
  }

  function Enter(cfg: Config, s: State, m: Message, hdr: TransferHdr, j: Judgement): State
    requires m.emitterChain in s.chains && m.emitterChain in s.history
  {
    match j
    case Refused => s
    case Queues => Queued(s, m.emitterChain, NewPending(cfg, m, hdr, s.clock))
    case Counts(value) => Recorded(s, m.emitterChain, NewTransfer(cfg, m, hdr, value, s.clock))
  }

  /** The state and the answer after a message has been processed. */
  function Processed(cfg: Config, s0: State, m: Message, now: int, prices: Prices): (State, Outcome)
    requires s0.history.Keys == s0.chains.Keys
  {
    var s := s0.(clock := now);
    match ParseMsg(cfg, s.chains, m)
    case Ignored => (s, Publish)
    case Malformed => (s, Failed)
    case Applies(hdr) =>
      var h := HashFromMsg(cfg, m);
      if h in s.seen then (s, if s.seen[h] then Publish else Hold)
      else
        var c := m.emitterChain;
        var total := SumSince(s.chains[c].transfers, now - DAY) % UINT64;
        var j := Judge(s.chains[c], total, prices(hdr.amount, TokenOf(hdr)));
        (Enter(cfg, Trimmed(s, c), m, hdr, j), OutcomeOf(j))
  }

  // ---------------------------------------------------------------- releasing pending messages

  /** What becomes of a pending entry when the rest of its chain is worth total. */
  datatype Fate = Waits | Breaks | Goes(counts: bool, value: uint64)

  function FateOf(ce: ChainEntry, pe: PendingEntry, total: uint64, now: int, prices: Prices): Fate {
    match prices(pe.amount, pe.token)
    case None => Breaks
    case Some(v) =>
      if IsBigTransfer(ce, v) then (if now < pe.dbData.releaseTime then Waits else Goes(false, v))
      else if now > pe.dbData.releaseTime then Goes(false, v)
      else if total + v >= UINT64 then Breaks
      else if total + v > ce.dailyLimit then Waits
      else Goes(true, v)
  }

  predicate Ready(s: State, c: uint16) { s.history.Keys == s.chains.Keys && c in s.chains }

  function TransferOf(pe: PendingEntry, hdr: TransferHdr, value: uint64, now: int): Transfer {
    var m := pe.dbData.msg;
    Transfer(now, value, pe.token.chain, pe.token.addr, m.emitterChain, m.emitterAddress, MessageIDString(m), pe.hash,
             hdr.targetAddress, hdr.targetChain)
  }

  /** The first pending entry from number k on that does not have to wait. */
  function FirstMoving(ce: ChainEntry, total: uint64, now: int, prices: Prices, k: nat): (i: nat)
    requires k <= |ce.pending|
    ensures k <= i <= |ce.pending|
    ensures forall j | k <= j < i :: FateOf(ce, ce.pending[j], total, now, prices) == Waits
    ensures i < |ce.pending| ==> FateOf(ce, ce.pending[i], total, now, prices) != Waits
    decreases |ce.pending| - k
  {
    if k == |ce.pending| || FateOf(ce, ce.pending[k], total, now, prices) != Waits then k
    else FirstMoving(ce, total, now, prices, k + 1)
  }

  datatype Round = Quiet | Broken | Sent(m: Message) | Dropped

  function TotalOf(s: State, c: uint16): uint64
    requires c in s.chains
  {
    SumSince(s.chains[c].transfers, s.clock - DAY) % UINT64
  }

  /** One pass over the queue of chain c, after trimming: the first entry that can go, goes. */
  function RoundOf(s: State, c: uint16, prices: Prices): (State, Round)
    requires Ready(s, c)
  {
    var t := Trimmed(s, c);
    var ce := t.chains[c];
    var i := FirstMoving(ce, TotalOf(s, c), s.clock, prices, 0);
    if i == |ce.pending| then (t, Quiet)
    else
      var pe := ce.pending[i];
      match FateOf(ce, pe, TotalOf(s, c), s.clock, prices)
      case Waits => (t, Quiet)
      case Breaks => (t, Broken)
      case Goes(counts, value) =>
        match DecodeTransferHdr(pe.dbData.msg.payload)
        case None => (Released(t, c, i, None), Dropped)
        case Some(hdr) =>
          (Released(t, c, i, if counts then Some(TransferOf(pe, hdr, value, s.clock)) else None), Sent(pe.dbData.msg))
  }

  lemma RoundShrinks(s: State, c: uint16, prices: Prices)
    requires Ready(s, c)
    ensures var (t, r) := RoundOf(s, c, prices);
      && Ready(t, c) && t.clock == s.clock && t.chains.Keys == s.chains.Keys
      && |t.chains[c].pending| == |s.chains[c].pending| - (if r.Sent? || r.Dropped? then 1 else 0)
      && forall d | d in s.chains && d != c :: t.chains[d] == s.chains[d] && t.history[d] == s.history[d]
  {
    hide NewKey, Encoded, SumSince, Expired, FateOf, FirstMoving, DecodeTransferHdr;
  }

  /** Rounds until nothing moves or something breaks: the messages sent, and whether all went well. */
  function Drain(s: State, c: uint16, prices: Prices): (State, seq<Message>, bool)
    requires Ready(s, c)
    decreases |s.chains[c].pending|
  {
    RoundShrinks(s, c, prices);
    var (t, r) := RoundOf(s, c, prices);
    match r
    case Quiet => (t, [], true)
    case Broken => (t, [], false)
    case Dropped => Drain(t, c, prices)
    case Sent(m) => var (u, ms, ok) := Drain(t, c, prices); (u, [m] + ms, ok)
  }

  /** The chains in turn, until one breaks. */
  function DrainAll(s: State, order: seq<uint16>, prices: Prices): (State, seq<Message>, bool)
    requires s.history.Keys == s.chains.Keys && forall c | c in order :: c in s.chains
    decreases |order|
  {
    if order == [] then (s, [], true) else
    DrainReady(s, order[0], prices);
    var (t, ms, ok) := Drain(s, order[0], prices);
    if !ok then (t, ms, false) else
    var (u, ns, all) := DrainAll(t, order[1..], prices);
    (u, ms + ns, all)
  }

  /** What a call returns, and what it keeps for the next one: if a chain breaks the messages that
      were taken out of the queues are kept. */
  function Handed(waiting: seq<Message>, ms: seq<Message>, ok: bool): (Option<seq<Message>>, seq<Message>) {
    if ok then (Some(waiting + ms), []) else (None, waiting + ms)
  }

  lemma {:induction false} DrainReady(s: State, c: uint16, prices: Prices)
    requires Ready(s, c)
    ensures var t := Drain(s, c, prices).0;
      Ready(t, c) && t.clock == s.clock && t.chains.Keys == s.chains.Keys && forall d | d in s.chains && d != c ::
        t.chains[d] == s.chains[d] && t.history[d] == s.history[d]
    decreases |s.chains[c].pending|
  {
    hide RoundOf;
    RoundShrinks(s, c, prices);
    var (t, r) := RoundOf(s, c, prices);
    if r.Sent? || r.Dropped? {
      DrainReady(t, c, prices);
    }
  }

  // ---------------------------------------------------------------- both operations are runs

  lemma PendingMatches(cfg: Config, cs: Chains, m: Message, hdr: TransferHdr, now: int)
    requires ParseMsg(cfg, cs, m) == Applies(hdr)
    ensures EntryMatches(cfg, m.emitterChain, NewPending(cfg, m, hdr, now))
  {
  }

  lemma EnterKeeps(cfg: Config, s: State, base: map<uint16, nat>, m: Message, hdr: TransferHdr, value: Option<uint64>)
    requires Inv(cfg, s, base) && ParseMsg(cfg, s.chains, m) == Applies(hdr) && HashFromMsg(cfg, m) !in s.seen
    requires forall i | 0 <= i < |s.chains[m.emitterChain].transfers| ::
      s.chains[m.emitterChain].transfers[i].timestamp >= s.clock - DAY
    ensures Sum(s.chains[m.emitterChain].transfers) < UINT64
    ensures Inv(cfg, Enter(cfg, s, m, hdr, Judge(s.chains[m.emitterChain], Sum(s.chains[m.emitterChain].transfers),
      value)), base)
  {
    hide SeenAgrees, EntriesMatch, EntryMatches, NewKey, Encoded, Sum, Queued, Recorded, ParseMsg, HashFromMsg,
      NewPending, Ordered, Limited;
    var c := m.emitterChain;
    AppliesHere(cfg, s.chains, m, hdr);
    var j := Judge(s.chains[c], Sum(s.chains[c].transfers), value);
    match j
    case Refused =>
    case Queues =>
      PendingMatches(cfg, s.chains, m, hdr, s.clock);
      PendingHash(cfg, m, hdr, s.clock);
      EnqueueKeeps(cfg, s, base, c, NewPending(cfg, m, hdr, s.clock));
    case Counts(v) => CountKeeps(cfg, s, base, c, NewTransfer(cfg, m, hdr, v, s.clock));
  }

  lemma PendingHash(cfg: Config, m: Message, hdr: TransferHdr, now: int)
    ensures NewPending(cfg, m, hdr, now).hash == HashFromMsg(cfg, m)
  {
  }

  lemma AppliesHere(cfg: Config, cs: Chains, m: Message, hdr: TransferHdr)
    requires ParseMsg(cfg, cs, m) == Applies(hdr)
    ensures m.emitterChain in cs
  {
  }

  /** Processing a message keeps the invariant, so it holds whatever messages come, in whatever
      order, at whatever prices. */
  lemma ProcessedKeeps(cfg: Config, s: State, base: map<uint16, nat>, m: Message, now: int, prices: Prices)
    requires Inv(cfg, s, base) && s.clock <= now
    ensures Inv(cfg, Processed(cfg, s, m, now, prices).0, base)
  {
    hide Inv, Sum, SumSince, ParseMsg, HashFromMsg, NewKey, Encoded, Trimmed, Enter;
    KeysReady(cfg, s, base);
    var t := s.(clock := now);
    TickKeeps(cfg, s, base, now);
    match ParseMsg(cfg, t.chains, m)
    case Ignored =>
    case Malformed =>
    case Applies(hdr) =>
      AppliesHere(cfg, t.chains, m, hdr);
      var c := m.emitterChain;
      if HashFromMsg(cfg, m) !in t.seen {
        TrimKeeps(cfg, t, base, c);
        SumFits(cfg, t, base, c);
        TrimmedParses(cfg, t, c, m);
        EnterKeeps(cfg, Trimmed(t, c), base, m, hdr, prices(hdr.amount, TokenOf(hdr)));
      }
  }

  lemma KeysReady(cfg: Config, s: State, base: map<uint16, nat>)
    requires Inv(cfg, s, base)
    ensures s.history.Keys == s.chains.Keys
  {
  }

  lemma TrimmedParses(cfg: Config, s: State, c: uint16, m: Message)
    requires c in s.chains
    ensures ParseMsg(cfg, Trimmed(s, c).chains, m) == ParseMsg(cfg, s.chains, m)
    ensures Trimmed(s, c).seen.Keys <= s.seen.Keys && Trimmed(s, c).clock == s.clock
    ensures Trimmed(s, c).chains.Keys == s.chains.Keys && Trimmed(s, c).history == s.history
    ensures Trimmed(s, c).chains[c].dailyLimit == s.chains[c].dailyLimit
    ensures Trimmed(s, c).chains[c].bigTransactionSize == s.chains[c].bigTransactionSize
    ensures Trimmed(s, c).chains[c].pending == s.chains[c].pending
  {
    hide DecodeTransferHdr, Expired, Hashes, TransferKeys;
  }

  /** A round keeps the invariant; what is sent was waiting, and is the only one that is gone. */
  lemma RoundKeeps(cfg: Config, s: State, base: map<uint16, nat>, c: uint16, prices: Prices)
    requires Inv(cfg, s, base) && c in s.chains
    ensures Ready(s, c)
    ensures var (t, r) := RoundOf(s, c, prices);
      && Inv(cfg, t, base) && !r.Dropped? && c in t.chains && c in t.history
      && (r.Sent? ==>
            var h := HashFromMsg(cfg, r.m); h in Enqueued(s.seen) && Enqueued(t.seen) == Enqueued(s.seen) - {h})
      && (!r.Sent? ==> Enqueued(t.seen) == Enqueued(s.seen))
      && (r.Quiet? ==> AllWait(t, c, prices))
  {
    hide Inv, Sum, SumSince, NewKey, Encoded, Trimmed, Released, Enqueued, HashFromMsg, EntryMatches, AllWait;
    KeysReady(cfg, s, base);
    RoundShrinks(s, c, prices);
    TrimKeeps(cfg, s, base, c);
    SumFits(cfg, s, base, c);
    TrimConserves(cfg, s, base, c);
    SameChain(s, c);
    var t := Trimmed(s, c);
    var ce := t.chains[c];
    var i := FirstMoving(ce, TotalOf(s, c), s.clock, prices, 0);
    if RoundOf(s, c, prices).1.Quiet? {
      QuietWaits(cfg, s, base, c, prices);
    }
    if i < |ce.pending| {
      var fate := FateOf(ce, ce.pending[i], TotalOf(s, c), s.clock, prices);
      if fate.Goes? {
        ReleasedKeeps(cfg, t, base, c, i, fate);
      }
    }
  }

  /** What the books say was counted in the 24 hours up to now. */
  function DaysWorth(books: seq<Transfer>, now: int): nat { SumBetween(books, now - 86_400_000_000_000, now) }

  /** An entry has to wait: a big transfer before its release time, any other one up to its release
      time as long as the day has no room for it. */
  ghost predicate HasToWait(ce: ChainEntry, books: seq<Transfer>, pe: PendingEntry, now: int, prices: Prices) {
    var value, release := prices(pe.amount, pe.token), pe.dbData.releaseTime;
    && value.Some?
    && if ce.bigTransactionSize != 0 && value.value >= ce.bigTransactionSize then now < release
       else now <= release && ce.dailyLimit < DaysWorth(books, now) + value.value < UINT64
  }

  /** Every entry still waiting on chain c has to wait. */
  ghost predicate AllWait(s: State, c: uint16, prices: Prices)
    requires c in s.chains && c in s.history
  {
    forall i | 0 <= i < |s.chains[c].pending| ::
      HasToWait(s.chains[c], s.history[c], s.chains[c].pending[i], s.clock, prices)
  }

  lemma WaitsExactly(ce: ChainEntry, books: seq<Transfer>, pe: PendingEntry, now: int, prices: Prices)
    requires DaysWorth(books, now) < UINT64
    ensures FateOf(ce, pe, DaysWorth(books, now), now, prices) == Waits <==> HasToWait(ce, books, pe, now, prices)
  {
    hide DaysWorth;
  }

  /** The total a check works with is what was counted in the last 24 hours. */
  lemma TotalIsDaysWorth(cfg: Config, s: State, base: map<uint16, nat>, c: uint16)
    requires Inv(cfg, s, base) && c in s.chains
    ensures c in s.history && TotalOf(s, c) == DaysWorth(s.history[c], s.clock)
  {
    hide SumSince, SumBetween, SeenAgrees, EntriesMatch, Sum, Limited, Ordered, Expired;
    SumFits(cfg, s, base, c);
    var h, ts := s.history[c], s.chains[c].transfers;
    var n := |h| - |ts|;
    assert h == h[..n] + ts;
    assert forall t | t in h :: t.timestamp <= s.clock;
    BetweenIsSince(h, s.clock - DAY, s.clock);
    SumSinceSplit(h[..n], ts, s.clock - DAY);
    assert forall t | t in h[..n] :: t.timestamp < s.clock - DAY;
    SumSinceNone(h[..n], s.clock - DAY);
  }

  lemma QuietWaits(cfg: Config, s: State, base: map<uint16, nat>, c: uint16, prices: Prices)
    requires Inv(cfg, s, base) && c in s.chains && Ready(s, c) && RoundOf(s, c, prices).1.Quiet?
    ensures AllWait(Trimmed(s, c), c, prices)
  {
    hide Inv, FateOf, HasToWait, TotalOf, Trimmed, Released, DaysWorth, DecodeTransferHdr;
    SameChain(s, c);
    TotalIsDaysWorth(cfg, s, base, c);
    var t := Trimmed(s, c);
    var ce := t.chains[c];
    forall i | 0 <= i < |ce.pending|
      ensures HasToWait(ce, t.history[c], ce.pending[i], t.clock, prices)
    {
      WaitsExactly(ce, t.history[c], ce.pending[i], s.clock, prices);
    }
  }

  lemma SameChain(s: State, c: uint16)
    requires c in s.chains
    ensures Trimmed(s, c).chains.Keys == s.chains.Keys && Trimmed(s, c).history == s.history
      && Trimmed(s, c).clock == s.clock
  {
    hide Expired, Hashes, TransferKeys;
  }

  /** An entry whose turn it is can be released, counted or not. */
  lemma ReleasedKeeps(cfg: Config, s: State, base: map<uint16, nat>, c: uint16, i: nat, fate: Fate)
    requires Inv(cfg, s, base) && c in s.chains && i < |s.chains[c].pending| && fate.Goes?
    requires forall k | 0 <= k < |s.chains[c].transfers| :: s.chains[c].transfers[k].timestamp >= s.clock - DAY
    requires fate.counts ==> Sum(s.chains[c].transfers) + fate.value <= s.chains[c].dailyLimit
    ensures c in s.history && DecodeTransferHdr(s.chains[c].pending[i].dbData.msg.payload).Some?
    ensures var pe := s.chains[c].pending[i];
      var hdr := DecodeTransferHdr(pe.dbData.msg.payload).value;
      var t := Released(s, c, i, if fate.counts then Some(TransferOf(pe, hdr, fate.value, s.clock)) else None);
      var h := HashFromMsg(cfg, pe.dbData.msg);
      Inv(cfg, t, base) && h in Enqueued(s.seen) && Enqueued(t.seen) == Enqueued(s.seen) - {h}
  {
    hide SeenAgrees, EntriesMatch, Limits, NewKey, Encoded, Sum, Released, Enqueued, HashFromMsg, DecodeTransferHdr;
    KeysReady(cfg, s, base);
    DequeueMatches(cfg, s.chains, c, i);
    var pe := s.chains[c].pending[i];
    var hdr := DecodeTransferHdr(pe.dbData.msg.payload).value;
    var counted := if fate.counts then Some(TransferOf(pe, hdr, fate.value, s.clock)) else None;
    ReleaseKeeps(cfg, s, base, c, i, counted);
    ReleaseConserves(cfg, s, base, c, i, counted);
  }

  function MsgHashes(cfg: Config, ms: seq<Message>): (hs: seq<Text>)
    ensures |hs| == |ms| && forall i | 0 <= i < |ms| :: hs[i] == HashFromMsg(cfg, ms[i])
  {
    seq(|ms|, i requires 0 <= i < |ms| => HashFromMsg(cfg, ms[i]))
  }

  /** The hashes sent are all different, were enqueued before, and are the only ones that no
      longer are. */
  ghost predicate SentExactly(cfg: Config, was: Seen, now: Seen, ms: seq<Message>) {
    var hs := MsgHashes(cfg, ms);
    && NoDuplicates(hs)
    && (forall h | h in hs :: h in Enqueued(was) && h !in Enqueued(now))
    && (forall h | h in Enqueued(was) :: h in hs || h in Enqueued(now))
    && Enqueued(now) <= Enqueued(was)
  }

  lemma SentFirst(cfg: Config, a: Seen, b: Seen, c: Seen, m: Message, ms: seq<Message>)
    requires HashFromMsg(cfg, m) in Enqueued(a) && Enqueued(b) == Enqueued(a) - {HashFromMsg(cfg, m)}
      && SentExactly(cfg, b, c, ms)
    ensures SentExactly(cfg, a, c, [m] + ms)
  {
    hide HashFromMsg, Enqueued;
    assert MsgHashes(cfg, [m] + ms) == [HashFromMsg(cfg, m)] + MsgHashes(cfg, ms);
  }

  lemma SentBoth(cfg: Config, a: Seen, b: Seen, c: Seen, ms: seq<Message>, ns: seq<Message>)
    requires SentExactly(cfg, a, b, ms) && SentExactly(cfg, b, c, ns)
    ensures SentExactly(cfg, a, c, ms + ns)
  {
    hide HashFromMsg, Enqueued;
    var hs, gs := MsgHashes(cfg, ms), MsgHashes(cfg, ns);
    var all := hs + gs;
    assert MsgHashes(cfg, ms + ns) == all;
    forall i, j | 0 <= i < j < |all|
      ensures all[i] != all[j]
    {
      if i < |hs| <= j {
        assert all[i] in hs && all[j] in gs;
      }
    }
    forall h | h in Enqueued(a)
      ensures h in all || h in Enqueued(c)
    {
      assert h in hs || h in Enqueued(b);
    }
  }

  lemma {:induction false} DrainKeeps(cfg: Config, s: State, base: map<uint16, nat>, c: uint16, prices: Prices)
    requires Inv(cfg, s, base) && c in s.chains
    ensures Ready(s, c)
    ensures var (t, ms, ok) := Drain(s, c, prices);
      && Inv(cfg, t, base) && c in t.chains && c in t.history && SentExactly(cfg, s.seen, t.seen, ms)
      && (ok ==> AllWait(t, c, prices))
    decreases |s.chains[c].pending|
  {
    hide Inv, RoundOf, AllWait, HashFromMsg, Enqueued;
    RoundKeeps(cfg, s, base, c, prices);
    RoundShrinks(s, c, prices);
    var (t, r) := RoundOf(s, c, prices);
    if r.Sent? {
      DrainKeeps(cfg, t, base, c, prices);
      SentFirst(cfg, s.seen, t.seen, Drain(t, c, prices).0.seen, r.m, Drain(t, c, prices).1);
    } else {
      NothingSent(cfg, s.seen, t.seen);
    }
  }

  lemma WaitElsewhere(s: State, t: State, c: uint16, prices: Prices)
    requires c in s.chains && c in t.chains && c in s.history && c in t.history && AllWait(s, c, prices)
    requires s.chains[c] == t.chains[c] && s.history[c] == t.history[c] && s.clock == t.clock
    ensures AllWait(t, c, prices)
  {
  }

  lemma {:induction false} DrainAllElsewhere(s: State, order: seq<uint16>, prices: Prices, c: uint16)
    requires s.history.Keys == s.chains.Keys && (forall d | d in order :: d in s.chains) && c in s.chains && c !in order
    ensures var t := DrainAll(s, order, prices).0;
      && c in t.chains && t.chains[c] == s.chains[c] && t.clock == s.clock
      && c in t.history && t.history[c] == s.history[c]
    decreases |order|
  {
    hide Drain;
    if order != [] {
      DrainReady(s, order[0], prices);
      if Drain(s, order[0], prices).2 {
        DrainAllElsewhere(Drain(s, order[0], prices).0, order[1..], prices, c);
      }
    }
  }

  /** Checking the pending messages keeps the invariant. What it sends was waiting and is sent
      once, nothing else leaves the queues, and unless it breaks nothing is left that could go. */
  lemma {:induction false} DrainAllKeeps(cfg: Config, s: State, base: map<uint16, nat>, order: seq<uint16>,
        prices: Prices)
    requires Inv(cfg, s, base) && forall c | c in order :: c in s.chains
    ensures s.history.Keys == s.chains.Keys
    ensures var (t, ms, ok) := DrainAll(s, order, prices);
      && Inv(cfg, t, base) && t.chains.Keys == s.chains.Keys && SentExactly(cfg, s.seen, t.seen, ms)
      && t.history.Keys == t.chains.Keys && (ok ==> forall c | c in order :: AllWait(t, c, prices))
    decreases |order|
  {
    hide Inv, Drain, AllWait, HashFromMsg, Enqueued, SentExactly;
    KeysReady(cfg, s, base);
    if order == [] {
      NothingSent(cfg, s.seen, s.seen);
    } else {
      var c := order[0];
      DrainKeeps(cfg, s, base, c, prices);
      DrainReady(s, c, prices);
      var (t, ms, ok) := Drain(s, c, prices);
      if ok {
        var rest := order[1..];
        DrainAllKeeps(cfg, t, base, rest, prices);
        var (u, ns, all) := DrainAll(t, rest, prices);
        SentBoth(cfg, s.seen, t.seen, u.seen, ms, ns);
        if all && c !in rest {
          DrainAllElsewhere(t, rest, prices, c);
          WaitElsewhere(t, u, c, prices);
        }
      }
    }
  }

  lemma NothingSent(cfg: Config, was: Seen, now: Seen)
    requires Enqueued(was) == Enqueued(now)
    ensures SentExactly(cfg, was, now, [])
  {
  }

  lemma WrapAdd(a: nat, v: nat)
    ensures (a % UINT64 + v) % UINT64 == (a + v) % UINT64
  {
  }

  /** The wrapped sum of what is not before start, and how many transfers to cut off. */
  method SumAndSplit(transfers: seq<Transfer>, start: int) returns (sum: uint64, n: nat)
    ensures sum == SumSince(transfers, start) % UINT64
    ensures n == Expired(transfers, start)
  {
    var trimIdx := -1;
    sum := 0;
    for i := 0 to |transfers|
      invariant trimIdx + 1 == Expired(transfers[..i], start)
      invariant sum == SumSince(transfers[..i], start) % UINT64
    {
      var t := transfers[i];
      assert transfers[..i + 1][..i] == transfers[..i];
      if t.timestamp < start {
        trimIdx := i;
      } else {
        WrapAdd(SumSince(transfers[..i], start), t.value);
        sum := (sum + t.value) % UINT64;
      }
    }
    assert transfers[..|transfers|] == transfers;
    n := trimIdx + 1;
  }

  // ---------------------------------------------------------------- loading

  function StoredPendings(store: Store, order: seq<Text>): seq<PendingTransfer> {
    PendingsOf(Collect(store, order, PENDING_KINDS))
  }

  function StoredTransfers(store: Store, order: seq<Text>): seq<Transfer> {
    TransfersOf(Collect(store, order, TRANSFER_KINDS))
  }

  function Recovered(cfg: Config, cs: Chains, store: Store, order: seq<Text>, now: int): Index {
    Rebuilt(cfg, cs, StoredPendings(store, order), StoredTransfers(store, order), now)
  }

  /** The state after loading a readable store into the empty lists cs: rewritten entries, and no
      transfer that is too old. */
  function Loaded(cfg: Config, cs: Chains, store: Store, order: seq<Text>, now: int): State {
    var ix := Recovered(cfg, cs, store, order, now);
    var stale := Stale(Sort(StoredTransfers(store, order), TransferLeq), now - DAY);
    State(ix.chains, ix.seen, AfterLoad(store, order) - TransferKeys(stale),
      map c | c in ix.chains :: ix.chains[c].transfers, now)
  }


  class ChainGovernor {
    const cfg: Config
    const db: Database
    var chains: Chains
    var seen: Seen
    var toPublish: seq<Message>
    ghost var history: map<uint16, seq<Transfer>>
    ghost var clock: int

    ghost function S(): State
      reads this, db
    {
      State(chains, seen, db.store, history, clock)
    }

    /** A governor for the given chains, whose lists are empty. */
    constructor (cfg: Config, db: Database, chains: Chains)
      requires forall c | c in chains :: chains[c].transfers == [] && chains[c].pending == []
      ensures this.cfg == cfg && this.db == db && this.chains == chains && seen == map[] && toPublish == []
      ensures Fresh(S()) && Inv(cfg, S(), map c | c in chains :: 0)
    {
      this.cfg, this.db, this.chains, seen, toPublish := cfg, db, chains, map[], [];
      history, clock := map c | c in chains :: [], 0;
      new;
      FreshInv(cfg, S());
    }

    method ReloadPendingTransfer(p: PendingTransfer)
      modifies this`chains, this`seen
      ensures Index(chains, seen) == AddPending(cfg, old(Index(chains, seen)), p)
    {
      hide HashFromMsg, DecodeTransferHdr;
      var m := p.msg;
      if m.emitterChain !in chains { return; }
      if m.emitterAddress != chains[m.emitterChain].emitterAddr { return; }
      var hdr := DecodeTransferHdr(m.payload);
      if hdr.None? { return; }
      var token := TokenKey(hdr.value.originChain, hdr.value.originAddress);
      if token !in cfg.tokens { return; }
      var hash := HashFromMsg(cfg, m);
      if hash in seen { return; }
      chains := Enqueue(chains, m.emitterChain, PendingEntry(token, hdr.value.amount, hash, p));
      seen := seen[hash := false];
    }

    method ReloadTransfer(t: Transfer)
      modifies this`chains, this`seen
      ensures Index(chains, seen) == AddTransfer(cfg, old(Index(chains, seen)), t)
    {
      if t.emitterChain !in chains { return; }
      if t.emitterAddress != chains[t.emitterChain].emitterAddr { return; }
      if TokenKey(t.originChain, t.originAddress) !in cfg.tokens { return; }
      if t.hash in seen { return; }
      if t.hash != [] { seen := seen[t.hash := true]; }
      chains := Count(chains, t.emitterChain, t);
    }

    method ReloadPendingTransfers(ps: seq<PendingTransfer>)
      modifies this`chains, this`seen
      ensures Index(chains, seen) == AddPendings(cfg, old(Index(chains, seen)), ps)
    {
      hide AddPending;
      for i := 0 to |ps|
        invariant Index(chains, seen) == AddPendings(cfg, old(Index(chains, seen)), ps[..i])
      {
        assert ps[..i + 1][..i] == ps[..i];
        ReloadPendingTransfer(ps[i]);
      }
      assert ps[..|ps|] == ps;
    }

    /** Reloads the transfers after start and deletes the others from the store. */
    method ReloadTransfers(ts: seq<Transfer>, start: int)
      modifies this`chains, this`seen, db
      ensures Index(chains, seen) == AddTransfers(cfg, old(Index(chains, seen)), Recent(ts, start))
      ensures db.store == old(db.store) - TransferKeys(Stale(ts, start))
    {
      hide AddTransfer, NewKey, Recent, Stale, AddTransfers, TransferKeys;
      NothingReloaded(cfg, Index(chains, seen), start);
      assert ts[..0] == [];
      for i := 0 to |ts|
        invariant Index(chains, seen) == AddTransfers(cfg, old(Index(chains, seen)), Recent(ts[..i], start))
        invariant db.store == old(db.store) - TransferKeys(Stale(ts[..i], start))
      {
        ReloadStep(ts, i, start);
        if start < ts[i].timestamp {
          AddSnoc(cfg, old(Index(chains, seen)), Recent(ts[..i], start), ts[i]);
          ReloadTransfer(ts[i]);
        } else {
          StaleKeys(Stale(ts[..i], start), ts[i]);
          db.DeleteTransfer(ts[i]);
        }
      }
      assert ts[..|ts|] == ts;
    }

    /** Reloads everything from the store into empty lists; `order` is the order of the store's
        iterator. Nothing changes if the store cannot be read. */
    method LoadFromDB(order: seq<Text>, now: int) returns (ok: bool)
      requires Enumerates(order, db.store) && Fresh(S()) && seen == map[]
      modifies this, db
      ensures ok <==> AllReadable(old(db.store))
      ensures !ok ==> S() == old(S())
      ensures ok ==> S() == Loaded(cfg, old(chains), old(db.store), order, now)
      ensures toPublish == old(toPublish)
    {
      hide Collect, AfterLoad, Rebuilt, Stale, Recent, AllReadable, AddPendings, AddTransfers, PendingsOf, TransfersOf,
        TransferKeys, Sort;
      var transfers, pending, readable := db.GetChainGovernorData(order);
      if !readable { return false; }
      assert order[..|order|] == order;
      ghost var cs := chains;
      var ps, ts := PendingsOf(pending), TransfersOf(transfers);
      ReloadPendingTransfers(Sort(ps, PendingLeq));
      ReloadTransfers(Sort(ts, TransferLeq), now - DAY);
      history, clock := map c | c in chains :: chains[c].transfers, now;
      RebuiltIs(cfg, cs, ps, ts, now);
      return true;
    }

    /** Adds up what is not before start and cuts off everything up to the last transfer that is;
        the sum is a 64-bit one. */
    method TrimAndSumValue(transfers: seq<Transfer>, start: int) returns (sum: uint64, rest: seq<Transfer>)
      modifies this`seen, db
      ensures sum == SumSince(transfers, start) % UINT64
      ensures var n := Expired(transfers, start);
        && rest == transfers[n..]
        && seen == old(seen) - Hashes(transfers[..n])
        && db.store == old(db.store) - TransferKeys(transfers[..n])
    {
      var n;
      sum, n := SumAndSplit(transfers, start);
      Forget(transfers[..n]);
      rest := transfers[n..];
    }

    /** Deletes the records of the transfers and forgets their hashes. */
    method Forget(gone: seq<Transfer>)
      modifies this`seen, db
      ensures seen == old(seen) - Hashes(gone)
      ensures db.store == old(db.store) - TransferKeys(gone)
    {
      for i := 0 to |gone|
        invariant seen == old(seen) - Hashes(gone[..i])
        invariant db.store == old(db.store) - TransferKeys(gone[..i])
      {
        ForgetStep(gone, i);
        db.DeleteTransfer(gone[i]);
        seen := seen - {gone[i].hash};
      }
      assert gone[..|gone|] == gone;
    }

    /** Brings chain c up to date. Transfers being in time order, the sum is that of what is left. */
    method TrimAndSumValueForChain(c: uint16, start: int, ghost base: map<uint16, nat>) returns (sum: uint64)
      requires Inv(cfg, S(), base) && c in chains && start == clock - DAY
      modifies this`chains, this`seen, db
      ensures S() == Trimmed(old(S()), c) && Inv(cfg, S(), base)
      ensures sum == Sum(chains[c].transfers)
      ensures sum == SumSince(old(chains)[c].transfers, clock - DAY) % UINT64
      ensures forall i | 0 <= i < |chains[c].transfers| :: chains[c].transfers[i].timestamp >= clock - DAY
    {
      hide Inv, Hashes, TransferKeys, Expired, Sum, SumSince;
      TrimKeeps(cfg, S(), base, c);
      ghost var s := S();
      var rest;
      sum, rest := TrimAndSumValue(chains[c].transfers, start);
      chains := chains[c := chains[c].(transfers := rest)];
      SumFits(cfg, s, base, c);
    }

    /** Decides about a message: publish it, hold it back, or fail. */
    method ProcessMsgForTime(m: Message, now: int, prices: Prices, ghost base: map<uint16, nat>) returns (r: Outcome)
      requires Inv(cfg, S(), base) && clock <= now
      modifies this`chains, this`seen, this`history, this`clock, db
      ensures history.Keys == chains.Keys && old(history.Keys == chains.Keys)
      ensures (S(), r) == Processed(cfg, old(S()), m, now, prices)
      ensures Inv(cfg, S(), base)
    {
      hide Inv, SumSince, Sum, NewKey, Encoded, HashFromMsg, MessageIDString, DecodeTransferHdr, Judge, Enter;
      KeysReady(cfg, S(), base);
      ProcessedKeeps(cfg, S(), base, m, now, prices);
      TickKeeps(cfg, S(), base, now);
      clock := now;
      var parsed := ParseMsg(cfg, chains, m);
      if parsed.Malformed? { return Failed; }
      if parsed.Ignored? { return Publish; }
      var hdr, c := parsed.hdr, m.emitterChain;
      var hash := HashFromMsg(cfg, m);
      if hash in seen { return if seen[hash] then Publish else Hold; }
      TrimmedParses(cfg, S(), c, m);
      var prevTotal := TrimAndSumValueForChain(c, now - DAY, base);
      JudgeSame(chains[c], old(chains)[c], prevTotal, prices(hdr.amount, TokenOf(hdr)));
      r := Admit(m, hdr, prevTotal, now, prices);
      KeysReady(cfg, S(), base);
    }

    /** The second half of processing: the chain is trimmed and adds up to prevTotal. */
    method Admit(m: Message, hdr: TransferHdr, prevTotal: uint64, now: int, prices: Prices) returns (r: Outcome)
      requires m.emitterChain in chains && m.emitterChain in history && now == clock
      modifies this`chains, this`seen, this`history, db
      ensures var j := Judge(old(chains)[m.emitterChain], prevTotal, prices(hdr.amount, TokenOf(hdr)));
        S() == Enter(cfg, old(S()), m, hdr, j) && r == OutcomeOf(j)
    {
      hide HashFromMsg, MessageIDString, Encoded;
      var c, hash := m.emitterChain, HashFromMsg(cfg, m);
      var value := prices(hdr.amount, TokenOf(hdr));
      if value.None? { return Failed; }
      var newTotal := (prevTotal + value.value) % UINT64;
      Overflow(prevTotal, value.value);
      if newTotal < prevTotal { return Failed; }
      var enqueueIt := IsBigTransfer(chains[c], value.value) || newTotal > chains[c].dailyLimit;
      if enqueueIt {
        var dbData := PendingTransfer(now + MAX_ENQUEUED, m);
        db.StorePendingMsg(dbData);
        chains := Enqueue(chains, c, PendingEntry(TokenOf(hdr), hdr.amount, hash, dbData));
        seen := seen[hash := false];
        return Hold;
      }
      var xfer := NewTransfer(cfg, m, hdr, value.value, now);
      db.StoreTransfer(xfer);
      chains := Count(chains, c, xfer);
      seen := seen[hash := true];
      history := history[c := history[c] + [xfer]];
      return Publish;
    }

    /** Releases entry i of chain c, which is `pe`. */
    method Release(c: uint16, i: nat, counted: Option<Transfer>)
      requires c in chains && i < |chains[c].pending| && c in history
      modifies this`chains, this`seen, this`history, db
      ensures S() == Released(old(S()), c, i, counted)
    {
      hide Encoded, MessageIDString;
      var pe := chains[c].pending[i];
      if counted.Some? {
        var xfer := counted.value;
        db.StoreTransfer(xfer);
        chains := Count(chains, c, xfer);
        seen := Noted(seen - {pe.hash}, xfer.hash);
        history := history[c := history[c] + [xfer]];
      } else {
        seen := seen - {pe.hash};
      }
      db.DeletePendingMsg(pe.dbData);
      chains := Dequeue(chains, c, i);
    }

    /** One pass over the queue of chain c. */
    method ReleaseRound(c: uint16, now: int, prices: Prices, ghost base: map<uint16, nat>) returns (r: Round)
      requires Inv(cfg, S(), base) && Ready(S(), c) && clock == now
      modifies this`chains, this`seen, this`history, db
      ensures (S(), r) == RoundOf(old(S()), c, prices)
    {
      hide Inv, Sum, SumSince, HashFromMsg, DecodeTransferHdr, FateOf, Trimmed, Released;
      SameChain(S(), c);
      ghost var s := S();
      var total := TrimAndSumValueForChain(c, now - DAY, base);
      var ce := chains[c];
      var idx := 0;
      while idx < |ce.pending|
        invariant idx <= |ce.pending| && chains[c] == ce && S() == Trimmed(s, c)
        invariant FirstMoving(ce, total, now, prices, 0) == FirstMoving(ce, total, now, prices, idx)
      {
        var pe := ce.pending[idx];
        var fate := FateOf(ce, pe, total, now, prices);
        if fate.Breaks? { return Broken; }
        if fate.Goes? {
          var hdr := DecodeTransferHdr(pe.dbData.msg.payload);
          if hdr.None? {
            Release(c, idx, None);
            return Dropped;
          }
          Release(c, idx, if fate.counts then Some(TransferOf(pe, hdr.value, fate.value, now)) else None);
          return Sent(pe.dbData.msg);
        }
        idx := idx + 1;
      }
      return Quiet;
    }

    method ReleaseChain(c: uint16, now: int, prices: Prices, ghost base: map<uint16, nat>)
      returns (out: seq<Message>, ok: bool)
      requires Inv(cfg, S(), base) && Ready(S(), c) && clock == now
      modifies this`chains, this`seen, this`history, db
      ensures (S(), out, ok) == Drain(old(S()), c, prices) && Inv(cfg, S(), base)
    {
      hide Inv, RoundOf, Drain;
      out := [];
      ghost var s := S();
      ghost var ms := Drain(s, c, prices).1;
      assert [] + ms == ms;
      while true
        invariant Inv(cfg, S(), base) && Ready(S(), c) && clock == now
        invariant Drain(s, c, prices) == (Drain(S(), c, prices).0, out +
          Drain(S(), c, prices).1, Drain(S(), c, prices).2)
        decreases |chains[c].pending|
      {
        DrainUnfolds(S(), c, prices);
        RoundShrinks(S(), c, prices);
        RoundKeeps(cfg, S(), base, c, prices);
        var r := ReleaseRound(c, now, prices, base);
        if r.Quiet? { return out + [], true; }
        if r.Broken? { return out + [], false; }
        if r.Sent? {
          ms := Drain(S(), c, prices).1;
          assert out + ([r.m] + ms) == (out + [r.m]) + ms;
          out := out + [r.m];
        }
      }
    }

    /** Returns the messages that can be published now. If a chain breaks, what was taken out of
        the queues is kept for the next call. `order` is the order in which the chains are visited. */
    method CheckPendingForTime(now: int, prices: Prices, order: seq<uint16>, ghost base: map<uint16, nat>)
      returns (r: Option<seq<Message>>)
      requires Inv(cfg, S(), base) && clock <= now && forall c | c in order :: c in chains
      modifies this, db
      ensures old(history.Keys == chains.Keys)
      ensures var (t, ms, ok) := DrainAll(old(S()).(clock := now), order, prices);
        S() == t && (r, toPublish) == Handed(old(toPublish), ms, ok)
      ensures Inv(cfg, S(), base)
    {
      hide Inv, Drain, DrainAll, SentExactly, AllWait;
      KeysReady(cfg, S(), base);
      TickKeeps(cfg, S(), base, now);
      clock := now;
      ghost var s := S();
      var waiting, msgs: seq<Message> := toPublish, [];
      toPublish := [];
      assert order[0..] == order && [] + DrainAll(s, order, prices).1 == DrainAll(s, order, prices).1;
      for i := 0 to |order|
        invariant Inv(cfg, S(), base) && clock == now && toPublish == [] && history.Keys == chains.Keys == s.chains.Keys
        invariant DrainAll(s, order, prices) ==
          (DrainAll(S(), order[i..], prices).0, msgs +
            DrainAll(S(), order[i..], prices).1, DrainAll(S(), order[i..], prices).2)
      {
        DrainReady(S(), order[i], prices);
        DrainKeeps(cfg, S(), base, order[i], prices);
        DrainAllUnfolds(S(), order[i..], prices);
        assert order[i..][1..] == order[i + 1..];
        var out, ok := ReleaseChain(order[i], now, prices, base);
        if !ok {
          toPublish := waiting + (msgs + out);
          return None;
        }
        assert msgs + (out + DrainAll(S(), order[i + 1..], prices).1) ==
          (msgs + out) + DrainAll(S(), order[i + 1..], prices).1;
        msgs := msgs + out;
      }
      assert order[|order|..] == [] && msgs + [] == msgs;
      NoneLeft(S(), prices);
      return Some(waiting + msgs);
    }
  }

  lemma NoneLeft(s: State, prices: Prices)
    requires s.history.Keys == s.chains.Keys
    ensures DrainAll(s, [], prices) == (s, [], true)
  {
  }

  lemma DrainAllUnfolds(s: State, order: seq<uint16>, prices: Prices)
    requires s.history.Keys == s.chains.Keys && order != [] && forall c | c in order :: c in s.chains
    ensures var (t, ms, ok) := Drain(s, order[0], prices);
      && t.history.Keys == t.chains.Keys == s.chains.Keys
      && (!ok ==> DrainAll(s, order, prices) == (t, ms, false))
      && (ok ==> var (u, ns, all) := DrainAll(t, order[1..], prices); DrainAll(s, order, prices) == (u, ms + ns, all))
  {
    hide Drain;
    DrainReady(s, order[0], prices);
  }

  lemma DrainUnfolds(s: State, c: uint16, prices: Prices)
    requires Ready(s, c)
    ensures var (t, r) := RoundOf(s, c, prices);
      && Ready(t, c)
      && (r.Quiet? ==> Drain(s, c, prices) == (t, [], true))
      && (r.Broken? ==> Drain(s, c, prices) == (t, [], false))
      && (r.Sent? ==> var (u, ms, ok) := Drain(t, c, prices); Drain(s, c, prices) == (u, [r.m] + ms, ok))
      && (r.Dropped? ==> Drain(s, c, prices) == Drain(t, c, prices))
  {
    hide RoundOf;
    RoundShrinks(s, c, prices);
  }

  lemma JudgeSame(a: ChainEntry, b: ChainEntry, total: uint64, value: Option<uint64>)
    requires a.dailyLimit == b.dailyLimit && a.bigTransactionSize == b.bigTransactionSize
    ensures Judge(a, total, value) == Judge(b, total, value)
  {
  }

  /** An unsigned sum has wrapped exactly when it is smaller than what it started from. */
  lemma Overflow(a: uint64, b: uint64)
    ensures (a + b) % UINT64 < a <==> a + b >= UINT64
    ensures a + b < UINT64 ==> (a + b) % UINT64 == a + b
  {
  }

  lemma RebuiltIs(cfg: Config, cs: Chains, ps: seq<PendingTransfer>, ts: seq<Transfer>, now: int)
    ensures Rebuilt(cfg, cs, ps, ts, now) ==
      AddTransfers(cfg, AddPendings(cfg, Index(cs, map[]), Sort(ps, PendingLeq)),
        Recent(Sort(ts, TransferLeq), now - DAY))
  {
  }

  lemma NothingReloaded(cfg: Config, ix: Index, start: int)
    ensures AddTransfers(cfg, ix, Recent([], start)) == ix && TransferKeys(Stale([], start)) == {}
  {
  }

  lemma ReloadStep(ts: seq<Transfer>, i: nat, start: int)
    requires i < |ts|
    ensures Recent(ts[..i + 1], start) ==
      if start < ts[i].timestamp then Recent(ts[..i], start) + [ts[i]] else Recent(ts[..i], start)
    ensures Stale(ts[..i + 1], start) ==
      if start < ts[i].timestamp then Stale(ts[..i], start) else Stale(ts[..i], start) + [ts[i]]
  {
    assert ts[..i + 1][..i] == ts[..i];
  }

  lemma AddSnoc(cfg: Config, ix: Index, ts: seq<Transfer>, t: Transfer)
    ensures AddTransfers(cfg, ix, ts + [t]) == AddTransfer(cfg, AddTransfers(cfg, ix, ts), t)
  {
    hide AddTransfer;
    assert (ts + [t])[..|ts|] == ts;
  }

  lemma StaleKeys(ts: seq<Transfer>, t: Transfer)
    ensures TransferKeys(ts + [t]) == TransferKeys(ts) + {NewKey(Done(t))}
  {
    hide NewKey;
    assert forall u :: u in ts + [t] <==> u in ts || u == t;
  }

  lemma ForgetStep(gone: seq<Transfer>, i: nat)
    requires i < |gone|
    ensures Hashes(gone[..i + 1]) == Hashes(gone[..i]) + {gone[i].hash}
    ensures TransferKeys(gone[..i + 1]) == TransferKeys(gone[..i]) + {NewKey(Done(gone[i]))}
  {
    hide NewKey;
    assert gone[..i + 1] == gone[..i] + [gone[i]];
  }

  lemma SumFits(cfg: Config, s: State, base: map<uint16, nat>, c: uint16)
    requires Inv(cfg, s, base) && c in s.chains
    ensures SumSince(s.chains[c].transfers, s.clock - DAY) < UINT64
  {
    hide SumSince, SeenAgrees, EntriesMatch, Sum, Limited, Ordered, Expired;
    TrimTracks(s.chains[c], s.history[c], base[c], s.clock);
  }
}
