/** What the governor answers about a message, told by the bytes of the message, the books and the
    index of seen messages alone. */
module Admission {
  import opened Binary
  import opened Vaa
  import opened Keys
  import opened Publication
  import opened Transfers
  import opened GovernorDb
  import opened Window
  import opened Governor
  import opened GovernorState
  import opened Reload
  import opened GovernorNode
  import opened GovernorRuns

  /** A transfer sent by the emitter that is configured for its chain. */
  ghost predicate FromGovernedEmitter(cs: Chains, m: Message) {
    && m.emitterChain in cs && m.emitterAddress == cs[m.emitterChain].emitterAddr
    && |m.payload| > 0 && (m.payload[0] == 1 || m.payload[0] == 3)
  }

  /** The token of a transfer: its chain is in bytes 65 and 66, its address in bytes 33 to 64. */
  function TokenIn(m: Message): TokenKey
    requires |m.payload| >= 101
  {
    Widths();
    TokenKey(FromBE(m.payload[65..67]), m.payload[33..65])
  }

  ghost predicate Governs(cfg: Config, cs: Chains, m: Message) {
    FromGovernedEmitter(cs, m) && |m.payload| >= 101 && TokenIn(m) in cfg.tokens
  }

  /** What a transfer is worth: its amount is in bytes 1 to 32. */
  function WorthOf(m: Message, prices: Prices): Option<uint64>
    requires |m.payload| >= 101
  {
    prices(FromBE(m.payload[1..33]), TokenIn(m))
  }

  /** The transfer that counts message m. */
  ghost predicate CountsAs(cfg: Config, t: Transfer, m: Message, value: uint64, now: int)
    requires |m.payload| >= 101
  {
    && t.timestamp == now && t.value == value
    && t.originChain == TokenIn(m).chain && t.originAddress == TokenIn(m).addr
    && t.targetChain == FromBE(m.payload[99..101]) && t.targetAddress == m.payload[67..99]
    && t.emitterChain == m.emitterChain && t.emitterAddress == m.emitterAddress
    && t.msgID == MessageIDString(m) && t.hash == HashFromMsg(cfg, m)
  }

  /** The entry that holds message m back for 24 hours. */
  ghost predicate HoldsBack(cfg: Config, pe: PendingEntry, m: Message, now: int)
    requires |m.payload| >= 101
  {
    && pe.dbData.msg == m && pe.dbData.releaseTime == now + 86_400_000_000_000
    && pe.hash == HashFromMsg(cfg, m) && pe.token == TokenIn(m) && pe.amount == FromBE(m.payload[1..33])
  }

  // ---------------------------------------------------------------- which messages are governed

  lemma ParsesExactly(cfg: Config, cs: Chains, m: Message)
    ensures ParseMsg(cfg, cs, m).Malformed? <==> FromGovernedEmitter(cs, m) && |m.payload| < 101
    ensures ParseMsg(cfg, cs, m).Applies? <==> Governs(cfg, cs, m)
    ensures Governs(cfg, cs, m) ==> DecodeTransferHdr(m.payload) == Some(ParseMsg(cfg, cs, m).hdr)
  {
    hide FromBE;
  }

  lemma HeaderReads(m: Message, prices: Prices)
    requires DecodeTransferHdr(m.payload).Some?
    ensures |m.payload| >= 101
    ensures var hdr := DecodeTransferHdr(m.payload).value;
      && TokenOf(hdr) == TokenIn(m) && hdr.amount == FromBE(m.payload[1..33])
      && prices(hdr.amount, TokenOf(hdr)) == WorthOf(m, prices)
  {
    hide FromBE;
  }

  lemma NewTransferCounts(cfg: Config, m: Message, value: uint64, now: int)
    requires DecodeTransferHdr(m.payload).Some?
    ensures |m.payload| >= 101
    ensures CountsAs(cfg, NewTransfer(cfg, m, DecodeTransferHdr(m.payload).value, value, now), m, value, now)
    ensures HoldsBack(cfg, NewPending(cfg, m, DecodeTransferHdr(m.payload).value, now), m, now)
  {
    hide FromBE, HashFromMsg, MessageIDString;
  }

  // ---------------------------------------------------------------- a message that was not seen before

  ghost predicate IsBig(ce: ChainEntry, value: uint64) {
    ce.bigTransactionSize != 0 && value >= ce.bigTransactionSize
  }

  /** The message is not big and the 24 hours up to now have room for it. */
  ghost predicate HasRoom(ce: ChainEntry, books: seq<Transfer>, value: uint64, now: int) {
    !IsBig(ce, value) && DaysWorth(books, now) + value <= ce.dailyLimit
  }

  ghost predicate Computable(books: seq<Transfer>, value: Option<uint64>, now: int) {
    value.Some? && DaysWorth(books, now) + value.value < UINT64
  }

  /** Only the queue and the books of chain c have changed, by these entries. */
  ghost predicate Adds(s: State, t: State, c: uint16, held: seq<PendingEntry>, counted: seq<Transfer>) {
    && c in s.chains && c in s.history && t.chains.Keys == s.chains.Keys
    && t.history == s.history[c := s.history[c] + counted]
    && (forall d | d in s.chains && d != c :: t.chains[d] == s.chains[d])
    && t.chains[c].pending == s.chains[c].pending + held
    && t.chains[c].dailyLimit == s.chains[c].dailyLimit
    && t.chains[c].bigTransactionSize == s.chains[c].bigTransactionSize
  }

  lemma JudgedExactly(ce: ChainEntry, books: seq<Transfer>, value: Option<uint64>, now: int)
    requires DaysWorth(books, now) < UINT64
    ensures var j := Judge(ce, DaysWorth(books, now), value);
      && (j.Refused? <==> !Computable(books, value, now))
      && (j.Counts? <==> Computable(books, value, now) && HasRoom(ce, books, value.value, now))
      && (j.Counts? ==> j.value == value.value)
  {
    hide DaysWorth;
  }

  lemma EnterAdds(cfg: Config, s: State, m: Message, hdr: TransferHdr, j: Judgement)
    requires m.emitterChain in s.chains && m.emitterChain in s.history && DecodeTransferHdr(m.payload) == Some(hdr)
    ensures |m.payload| >= 101
    ensures var t, c := Enter(cfg, s, m, hdr, j), m.emitterChain;
      match j
      case Refused => t == s
      case Queues => exists pe :: Adds(s, t, c, [pe], []) && HoldsBack(cfg, pe, m, s.clock)
      case Counts(v) => exists x :: Adds(s, t, c, [], [x]) && CountsAs(cfg, x, m, v, s.clock)
  {
    hide NewKey, Encoded, HashFromMsg, NewPending, NewTransfer, CountsAs, HoldsBack, DecodeTransferHdr;
    HeaderReads(m, (a, t) => None);
    var t, c := Enter(cfg, s, m, hdr, j), m.emitterChain;
    assert s.history[c] + [] == s.history[c] && s.chains[c].pending + [] == s.chains[c].pending;
    match j
    case Refused =>
    case Queues =>
      NewTransferCounts(cfg, m, 0, s.clock);
      assert Adds(s, t, c, [NewPending(cfg, m, hdr, s.clock)], []);
    case Counts(v) =>
      NewTransferCounts(cfg, m, v, s.clock);
      assert Adds(s, t, c, [], [NewTransfer(cfg, m, hdr, v, s.clock)]);
  }

  lemma TrimAdds(s: State, c: uint16)
    requires Ready(s, c)
    ensures Adds(s, Trimmed(s, c), c, [], [])
  {
    hide Expired, Hashes, TransferKeys;
    assert s.history[c] + [] == s.history[c] && s.chains[c].pending + [] == s.chains[c].pending;
  }

  lemma AddsAfter(s: State, t: State, u: State, c: uint16, held: seq<PendingEntry>, counted: seq<Transfer>)
    requires Adds(s, t, c, [], []) && Adds(t, u, c, held, counted)
    ensures Adds(s, u, c, held, counted)
  {
    assert s.history[c] + [] == s.history[c] && s.chains[c].pending + [] == s.chains[c].pending;
  }

  lemma DaysWorthSnoc(books: seq<Transfer>, x: Transfer, now: int)
    requires x.timestamp == now
    ensures DaysWorth(books + [x], now) == DaysWorth(books, now) + x.value
  {
    assert (books + [x])[..|books|] == books;
  }

  /** What becomes of a governed message that was not seen before. It fails exactly if its value, or
      what it adds up to, does not fit into 64 bits; of the others it is published exactly if it is
      not big and the last 24 hours have room for it, and then it is on the books and they keep to
      the limit; otherwise it waits in the queue for 24 hours. */
  ghost predicate Decided(cfg: Config, s: State, m: Message, now: int, prices: Prices, t: State, r: Outcome)
    requires m.emitterChain in s.chains && m.emitterChain in s.history && |m.payload| >= 101
  {
    var c := m.emitterChain;
    var ce, books, value := s.chains[c], s.history[c], WorthOf(m, prices);
    && t.clock == now
    && (r == Failed <==> !Computable(books, value, now))
    && (r == Publish <==> Computable(books, value, now) && HasRoom(ce, books, value.value, now))
    && match r
       case Failed => Adds(s, t, c, [], [])
       case Hold => exists pe :: Adds(s, t, c, [pe], []) && HoldsBack(cfg, pe, m, now)
       case Publish =>
         && c in t.history && DaysWorth(t.history[c], now) <= ce.dailyLimit
         && exists x :: Adds(s, t, c, [], [x]) && CountsAs(cfg, x, m, value.value, now)
  }

  lemma EnterKeepsClock(cfg: Config, s: State, m: Message, hdr: TransferHdr, j: Judgement)
    requires m.emitterChain in s.chains && m.emitterChain in s.history
    ensures Enter(cfg, s, m, hdr, j).clock == s.clock
  {
  }

  lemma ClockAdds(s: State, now: int, t: State, c: uint16, held: seq<PendingEntry>, counted: seq<Transfer>)
    requires Adds(s.(clock := now), t, c, held, counted)
    ensures Adds(s, t, c, held, counted)
  {
  }

  lemma NewMessageDecided(cfg: Config, s: State, base: map<uint16, nat>, m: Message, now: int, prices: Prices)
    requires Inv(cfg, s, base) && s.clock <= now
    requires Governs(cfg, s.chains, m) && HashFromMsg(cfg, m) !in s.seen
    ensures s.history.Keys == s.chains.Keys
    ensures var (t, r) := Processed(cfg, s, m, now, prices); Decided(cfg, s, m, now, prices, t, r)
  {
    hide Inv, SumSince, ParseMsg, HashFromMsg, Trimmed, Enter, Judge, Computable, HasRoom, DaysWorth, CountsAs,
      HoldsBack, DecodeTransferHdr, Adds;
    KeysReady(cfg, s, base);
    TickKeeps(cfg, s, base, now);
    ParsesExactly(cfg, s.chains, m);
    var s0, c, hdr := s.(clock := now), m.emitterChain, ParseMsg(cfg, s.chains, m).hdr;
    var books, value := s.history[c], WorthOf(m, prices);
    HeaderReads(m, prices);
    TotalIsDaysWorth(cfg, s0, base, c);
    var j := Judge(s.chains[c], TotalOf(s0, c), value);
    JudgedExactly(s.chains[c], books, value, now);
    SameChain(s0, c);
    TrimAdds(s0, c);
    var t1 := Trimmed(s0, c);
    var t := Enter(cfg, t1, m, hdr, j);
    EnterAdds(cfg, t1, m, hdr, j);
    EnterKeepsClock(cfg, t1, m, hdr, j);
    ClockAdds(s, now, t1, c, [], []);
    match j
    case Refused =>
    case Queues =>
      var pe :| Adds(t1, t, c, [pe], []) && HoldsBack(cfg, pe, m, now);
      AddsAfter(s, t1, t, c, [pe], []);
    case Counts(v) =>
      var x :| Adds(t1, t, c, [], [x]) && CountsAs(cfg, x, m, v, now);
      AddsAfter(s, t1, t, c, [], [x]);
      RoomUsed(cfg, s, t, c, x, m, v, now);
  }

  lemma RoomUsed(cfg: Config, s: State, t: State, c: uint16, x: Transfer, m: Message, value: uint64, now: int)
    requires Adds(s, t, c, [], [x]) && |m.payload| >= 101 && CountsAs(cfg, x, m, value, now)
    requires HasRoom(s.chains[c], s.history[c], value, now)
    ensures c in t.history && DaysWorth(t.history[c], now) <= s.chains[c].dailyLimit
  {
    hide DaysWorth, HashFromMsg, MessageIDString, FromBE;
    DaysWorthSnoc(s.history[c], x, now);
  }

  // ---------------------------------------------------------------- the answer

  /** A message that is not governed changes nothing: it is published, or refused if it is a transfer
      of a governed emitter that is too short. */
  lemma OthersPass(cfg: Config, s: State, m: Message, now: int, prices: Prices)
    requires s.history.Keys == s.chains.Keys && !Governs(cfg, s.chains, m)
    ensures Processed(cfg, s, m, now, prices) ==
      (s.(clock := now), if FromGovernedEmitter(s.chains, m) && |m.payload| < 101 then Failed else Publish)
  {
    hide FromGovernedEmitter, Governs, ParseMsg;
    ParsesExactly(cfg, s.chains, m);
  }

  /** A governed message that was seen before changes nothing: it is published again exactly if it is
      complete and held back exactly if it is enqueued. */
  lemma SeenAgain(cfg: Config, s: State, m: Message, now: int, prices: Prices)
    requires s.history.Keys == s.chains.Keys && Governs(cfg, s.chains, m) && HashFromMsg(cfg, m) in s.seen
    ensures var (t, r) := Processed(cfg, s, m, now, prices);
      var h := HashFromMsg(cfg, m);
      t == s.(clock := now) && (r == Publish <==> h in Complete(s.seen)) && (r == Hold <==> h in Enqueued(s.seen))
  {
    hide Governs, ParseMsg, HashFromMsg;
    ParsesExactly(cfg, s.chains, m);
  }

  lemma EnterShows(cfg: Config, s: State, m: Message, hdr: TransferHdr, j: Judgement)
    requires m.emitterChain in s.chains && m.emitterChain in s.history && HashFromMsg(cfg, m) !in s.seen
    ensures var t, h := Enter(cfg, s, m, hdr, j), HashFromMsg(cfg, m);
      && (OutcomeOf(j) == Publish <==> h in Complete(t.seen)) && (OutcomeOf(j) == Hold <==> h in Enqueued(t.seen))
  {
    hide NewKey, Encoded, HashFromMsg;
  }

  /** Whatever was seen before, the answer about a governed message is what the index says of it
      afterwards: published if it is complete, held back if it is enqueued, failed if it is neither. */
  lemma AnswerIsIndexed(cfg: Config, s: State, base: map<uint16, nat>, m: Message, now: int, prices: Prices)
    requires Inv(cfg, s, base) && s.clock <= now && Governs(cfg, s.chains, m)
    ensures s.history.Keys == s.chains.Keys
    ensures var (t, r) := Processed(cfg, s, m, now, prices);
      var h := HashFromMsg(cfg, m);
      && (r == Publish <==> h in Complete(t.seen)) && (r == Hold <==> h in Enqueued(t.seen))
      && (r == Failed <==> h !in t.seen)
  {
    hide Inv, SumSince, Governs, ParseMsg, HashFromMsg, Trimmed, Enter, Judge;
    KeysReady(cfg, s, base);
    ParsesExactly(cfg, s.chains, m);
    var s0, c, hdr := s.(clock := now), m.emitterChain, ParseMsg(cfg, s.chains, m).hdr;
    if HashFromMsg(cfg, m) in s.seen {
      SeenAgain(cfg, s, m, now, prices);
    } else {
      AppliesHere(cfg, s0.chains, m, hdr);
      TrimmedParses(cfg, s0, c, m);
      EnterShows(cfg, Trimmed(s0, c), m, hdr, Judge(s.chains[c], TotalOf(s0, c), prices(hdr.amount, TokenOf(hdr))));
    }
  }

  /** All of this holds in every state that a run reaches. */
  lemma AnswersOnEveryRun(cfg: Config, s: State, base: map<uint16, nat>, ops: seq<Op>, m: Message, now: int,
        prices: Prices)
    requires Inv(cfg, s, base) && IsRun(cfg, s, ops) && After(cfg, s, ops).clock <= now
    ensures var e := After(cfg, s, ops);
      && e.history.Keys == e.chains.Keys
      && var (t, r) := Processed(cfg, e, m, now, prices);
         var h := HashFromMsg(cfg, m);
         if !Governs(cfg, e.chains, m) then
           && t == e.(clock := now)
           && r == if FromGovernedEmitter(e.chains, m) && |m.payload| < 101 then Failed else Publish
         else
           && (r == Publish <==> h in Complete(t.seen)) && (r == Hold <==> h in Enqueued(t.seen))
           && (r == Failed <==> h !in t.seen)
           && if h in e.seen then t == e.(clock := now) else
              m.emitterChain in e.history && Decided(cfg, e, m, now, prices, t, r)
  {
    hide Inv, IsRun, After, Processed, Governs, FromGovernedEmitter, HashFromMsg, Decided, Complete, Enqueued;
    RunKeeps(cfg, s, base, ops);
    var e := After(cfg, s, ops);
    KeysReady(cfg, e, base);
    GovernedHere(cfg, e.chains, m);
    if !Governs(cfg, e.chains, m) {
      OthersPass(cfg, e, m, now, prices);
    } else {
      AnswerIsIndexed(cfg, e, base, m, now, prices);
      if HashFromMsg(cfg, m) in e.seen {
        SeenAgain(cfg, e, m, now, prices);
      } else {
        NewMessageDecided(cfg, e, base, m, now, prices);
      }
    }
  }

  lemma GovernedHere(cfg: Config, cs: Chains, m: Message)
    ensures Governs(cfg, cs, m) ==> m.emitterChain in cs && |m.payload| >= 101
  {
  }
}
