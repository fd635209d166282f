/** What a check of the queues does, told by values, limits and release times alone: which messages
    it takes out, in which order, which of them it counts, and which it leaves waiting. */
module Releases {
  import opened Binary
  import opened Vaa
  import opened Keys
  import opened Publication
  import opened Transfers
  import opened GovernorDb
  import opened Listings
  import opened Window
  import opened Governor
  import opened GovernorState
  import opened Reload
  import opened GovernorNode
  import opened GovernorRuns
  import opened Admission

  /** One message taken out of the queue of chain c when it was worth `value`, and the transfer it was
      counted as, if it was. */
  datatype Move = Move(c: uint16, pe: PendingEntry, value: uint64, counted: Option<Transfer>)

  function Booked(mv: Move, c: uint16): seq<Transfer> {
    if mv.c == c && mv.counted.Some? then [mv.counted.value] else []
  }

  function CountedOn(moves: seq<Move>, c: uint16): seq<Transfer> {
    if moves == [] then [] else Booked(moves[0], c) + CountedOn(moves[1..], c)
  }

  function Gone(moves: seq<Move>, c: uint16): set<PendingEntry> { set mv | mv in moves && mv.c == c :: mv.pe }

  function Except(ps: seq<PendingEntry>, gone: set<PendingEntry>): seq<PendingEntry> {
    if ps == [] then [] else if ps[0] in gone then Except(ps[1..], gone) else [ps[0]] + Except(ps[1..], gone)
  }

  function Messages(moves: seq<Move>): seq<Message> {
    seq(|moves|, i requires 0 <= i < |moves| => moves[i].pe.dbData.msg)
  }

  function QueueAfter(s: State, moves: seq<Move>, c: uint16): seq<PendingEntry>
    requires c in s.chains
  {
    Except(s.chains[c].pending, Gone(moves, c))
  }

  function BooksAfter(s: State, moves: seq<Move>, c: uint16): seq<Transfer>
    requires c in s.history
  {
    s.history[c] + CountedOn(moves, c)
  }

  // ---------------------------------------------------------------- the rules

  /** Whether an entry that leaves is counted: it is if it is not big, the day has room for it and its
      release time has not passed. It leaves uncounted only when that time has come. */
  ghost predicate Due(cfg: Config, ce: ChainEntry, books: seq<Transfer>, mv: Move, now: int) {
    var m, release := mv.pe.dbData.msg, mv.pe.dbData.releaseTime;
    match mv.counted
    case None => if IsBig(ce, mv.value) then now >= release else now > release
    case Some(t) =>
      && now <= release && HasRoom(ce, books, mv.value, now)
      && |m.payload| >= 101 && CountsAs(cfg, t, m, mv.value, now)
  }

  /** Entry i of the queue is the first one that need not wait. */
  ghost predicate FirstAt(ce: ChainEntry, queue: seq<PendingEntry>, books: seq<Transfer>, i: int, now: int,
        prices: Prices) {
    0 <= i < |queue| && forall j | 0 <= j < i :: HasToWait(ce, books, queue[j], now, prices)
  }

  ghost predicate Rightly(cfg: Config, ce: ChainEntry, queue: seq<PendingEntry>, books: seq<Transfer>, mv: Move,
        now: int, prices: Prices) {
    && (exists i :: FirstAt(ce, queue, books, i, now, prices) && queue[i] == mv.pe)
    && |mv.pe.dbData.msg.payload| >= 101 && WorthOf(mv.pe.dbData.msg, prices) == Some(mv.value)
    && Due(cfg, ce, books, mv, now)
  }

  /** Each move is right with the queue and the books as the moves before it have left them. */
  ghost predicate Lawful(cfg: Config, s: State, moves: seq<Move>, prices: Prices) {
    forall k | 0 <= k < |moves| :: var c := moves[k].c;
      && c in s.chains && c in s.history
      && Rightly(cfg, s.chains[c], QueueAfter(s, moves[..k], c), BooksAfter(s, moves[..k], c), moves[k], s.clock,
           prices)
  }

  ghost predicate SameRules(a: ChainEntry, b: ChainEntry) {
    a.dailyLimit == b.dailyLimit && a.bigTransactionSize == b.bigTransactionSize
  }

  /** The moves take exactly their entries out of the queues and add exactly what they count to the
      books; nothing else changes there. */
  ghost predicate Leads(s: State, moves: seq<Move>, t: State) {
    && t.chains.Keys == s.chains.Keys == t.history.Keys == s.history.Keys && t.clock == s.clock
    && forall c | c in s.chains ::
         && SameRules(t.chains[c], s.chains[c])
         && t.chains[c].pending == QueueAfter(s, moves, c) && t.history[c] == BooksAfter(s, moves, c)
  }

  /** The first entry of chain c that need not wait has no value, or one that cannot be added up. */
  ghost predicate Blocked(s: State, c: uint16, prices: Prices)
    requires c in s.chains && c in s.history
  {
    var ce, books := s.chains[c], s.history[c];
    exists i ::
      FirstAt(ce, ce.pending, books, i, s.clock, prices) && Unusable(ce, books, ce.pending[i], s.clock, prices)
  }

  ghost predicate Unusable(ce: ChainEntry, books: seq<Transfer>, pe: PendingEntry, now: int, prices: Prices) {
    var value := prices(pe.amount, pe.token);
    value.Some? ==>
      !IsBig(ce, value.value) && now <= pe.dbData.releaseTime && DaysWorth(books, now) + value.value >= UINT64
  }

  // ---------------------------------------------------------------- lists of moves

  lemma Regroup(x: seq<Transfer>, y: seq<Transfer>, z: seq<Transfer>)
    ensures x + (y + z) == (x + y) + z
  {
  }

  lemma {:induction false} CountedOnBoth(a: seq<Move>, b: seq<Move>, c: uint16)
    ensures CountedOn(a + b, c) == CountedOn(a, c) + CountedOn(b, c)
  {
    if a == [] {
      assert a + b == b;
    } else {
      CountedOnBoth(a[1..], b, c);
      assert (a + b)[0] == a[0] && (a + b)[1..] == a[1..] + b;
      Regroup(Booked(a[0], c), CountedOn(a[1..], c), CountedOn(b, c));
    }
  }

  lemma GoneBoth(a: seq<Move>, b: seq<Move>, c: uint16)
    ensures Gone(a + b, c) == Gone(a, c) + Gone(b, c)
  {
  }

  lemma {:induction false} ExceptBoth(ps: seq<PendingEntry>, a: set<PendingEntry>, b: set<PendingEntry>)
    ensures Except(Except(ps, a), b) == Except(ps, a + b)
  {
    if ps != [] {
      ExceptBoth(ps[1..], a, b);
      if ps[0] !in a {
        assert Except(ps, a)[1..] == Except(ps[1..], a);
      }
    }
  }

  lemma {:induction false} ExceptNone(ps: seq<PendingEntry>, gone: set<PendingEntry>)
    requires forall p | p in ps :: p !in gone
    ensures Except(ps, gone) == ps
  {
    if ps != [] {
      ExceptNone(ps[1..], gone);
    }
  }

  /** Taking out entry i of a list without repetitions. */
  lemma {:induction false} ExceptOne(ps: seq<PendingEntry>, i: nat)
    requires i < |ps| && forall j, k | 0 <= j < k < |ps| :: ps[j] != ps[k]
    ensures Except(ps, {ps[i]}) == ps[..i] + ps[i + 1..]
  {
    if i == 0 {
      ExceptNone(ps[1..], {ps[0]});
    } else {
      ExceptOne(ps[1..], i - 1);
      assert ps[..i] + ps[i + 1..] == [ps[0]] + (ps[1..][..i - 1] + ps[1..][i..]);
    }
  }

  lemma NoMoves(cfg: Config, s: State, prices: Prices)
    requires s.history.Keys == s.chains.Keys
    ensures Lawful(cfg, s, [], prices) && Leads(s, [], s)
  {
    forall c | c in s.chains
      ensures s.chains[c].pending == QueueAfter(s, [], c)
    {
      ExceptNone(s.chains[c].pending, Gone([], c));
    }
  }

  lemma SameMove(cfg: Config, a: ChainEntry, b: ChainEntry, queue: seq<PendingEntry>, books: seq<Transfer>, mv: Move,
        now: int, prices: Prices)
    requires SameRules(a, b) && Rightly(cfg, a, queue, books, mv, now, prices)
    ensures Rightly(cfg, b, queue, books, mv, now, prices)
  {
    hide WorthOf, CountsAs, DaysWorth;
    var i :| FirstAt(a, queue, books, i, now, prices) && queue[i] == mv.pe;
    assert FirstAt(b, queue, books, i, now, prices);
  }

  lemma QueueAfterBoth(s: State, a: seq<Move>, t: State, b: seq<Move>, c: uint16)
    requires Leads(s, a, t) && c in s.chains
    ensures QueueAfter(t, b, c) == QueueAfter(s, a + b, c) && BooksAfter(t, b, c) == BooksAfter(s, a + b, c)
  {
    hide Except, CountedOn, Gone;
    CountedOnBoth(a, b, c);
    GoneBoth(a, b, c);
    ExceptBoth(s.chains[c].pending, Gone(a, c), Gone(b, c));
  }

  /** Moves after moves are moves. */
  lemma MovesBoth(cfg: Config, s: State, a: seq<Move>, t: State, b: seq<Move>, u: State, prices: Prices)
    requires Lawful(cfg, s, a, prices) && Leads(s, a, t) && Lawful(cfg, t, b, prices) && Leads(t, b, u)
    ensures Lawful(cfg, s, a + b, prices) && Leads(s, a + b, u)
  {
    hide Rightly, QueueAfter, BooksAfter;
    forall c | c in s.chains
      ensures QueueAfter(t, b, c) == QueueAfter(s, a + b, c) && BooksAfter(t, b, c) == BooksAfter(s, a + b, c)
    {
      QueueAfterBoth(s, a, t, b, c);
    }
    var all := a + b;
    forall k | 0 <= k < |all|
      ensures var c := all[k].c;
        && c in s.chains && c in s.history
        && Rightly(cfg, s.chains[c], QueueAfter(s, all[..k], c), BooksAfter(s, all[..k], c), all[k], s.clock, prices)
    {
      var c := all[k].c;
      if k < |a| {
        assert all[..k] == a[..k];
      } else {
        var l := k - |a|;
        assert all[..k] == a + b[..l] && all[k] == b[l];
        QueueAfterBoth(s, a, t, b[..l], c);
        SameMove(cfg, t.chains[c], s.chains[c], QueueAfter(t, b[..l], c), BooksAfter(t, b[..l], c), b[l], s.clock,
          prices);
      }
    }
  }

  // ---------------------------------------------------------------- a round, a chain, a check

  lemma TrimLeads(cfg: Config, s: State, c: uint16)
    requires Ready(s, c)
    ensures Leads(s, [], Trimmed(s, c))
  {
    hide Expired, Hashes, TransferKeys, Except;
    forall d | d in s.chains
      ensures QueueAfter(s, [], d) == s.chains[d].pending
    {
      ExceptNone(s.chains[d].pending, Gone([], d));
    }
  }

  lemma DifferentEntries(cs: Chains, seen: Seen, c: uint16, i: nat, j: nat)
    requires SeenAgrees(cs, seen) && c in cs && i < j < |cs[c].pending| && cs[c].pending[i].hash != []
    ensures cs[c].pending[i] != cs[c].pending[j]
  {
    var l, h, g := PendingLists(cs), cs[c].pending[i].hash, cs[c].pending[j].hash;
    assert ListedAt(l, c, i, h);
    assert g == [] || ListedAt(l, c, j, g);
  }

  lemma NoRepetitions(cfg: Config, s: State, base: map<uint16, nat>, c: uint16)
    requires Inv(cfg, s, base) && c in s.chains
    ensures var ps := s.chains[c].pending; forall j, k | 0 <= j < k < |ps| :: ps[j] != ps[k]
  {
    hide SeenAgrees, EntryMatches, Limits;
    var ps := s.chains[c].pending;
    forall j, k | 0 <= j < k < |ps|
      ensures ps[j] != ps[k]
    {
      MatchingHash(cfg, c, ps[j]);
      DifferentEntries(s.chains, s.seen, c, j, k);
    }
  }

  lemma OnlyMove(mv: Move, c: uint16)
    ensures Gone([mv], c) == (if c == mv.c then {mv.pe} else {}) && CountedOn([mv], c) == Booked(mv, c)
  {
    assert [mv][1..] == [];
  }

  lemma ReleaseLeads(cfg: Config, s: State, base: map<uint16, nat>, c: uint16, i: nat, mv: Move)
    requires Inv(cfg, s, base) && Ready(s, c) && i < |s.chains[c].pending|
    requires mv.c == c && mv.pe == s.chains[c].pending[i]
    ensures Leads(s, [mv], Released(s, c, i, mv.counted))
  {
    hide Inv, Except, NewKey, Encoded, CountedOn, Gone;
    NoRepetitions(cfg, s, base, c);
    ExceptOne(s.chains[c].pending, i);
    assert s.history[c] + [] == s.history[c];
    forall d | d in s.chains
      ensures Gone([mv], d) == (if d == c then {mv.pe} else {}) && CountedOn([mv], d) == Booked(mv, d)
    {
      OnlyMove(mv, d);
    }
    forall d | d in s.chains && d != c
      ensures QueueAfter(s, [mv], d) == s.chains[d].pending && BooksAfter(s, [mv], d) == s.history[d]
    {
      ExceptNone(s.chains[d].pending, {});
    }
  }

  /** An entry of the queue is about its message. */
  lemma EntryReads(cfg: Config, c: uint16, pe: PendingEntry, prices: Prices)
    requires EntryMatches(cfg, c, pe)
    ensures |pe.dbData.msg.payload| >= 101 && prices(pe.amount, pe.token) == WorthOf(pe.dbData.msg, prices)
  {
    hide FromBE;
  }

  lemma TransferCounts(cfg: Config, c: uint16, pe: PendingEntry, value: uint64, now: int)
    requires EntryMatches(cfg, c, pe)
    ensures DecodeTransferHdr(pe.dbData.msg.payload).Some? && |pe.dbData.msg.payload| >= 101
    ensures CountsAs(cfg, TransferOf(pe, DecodeTransferHdr(pe.dbData.msg.payload).value, value, now), pe.dbData.msg,
      value, now)
  {
    hide FromBE, HashFromMsg, MessageIDString;
  }

  lemma GoesRightly(cfg: Config, s: State, base: map<uint16, nat>, c: uint16, i: nat, prices: Prices)
    returns (mv: Move)
    requires Inv(cfg, s, base) && Ready(s, c) && i < |s.chains[c].pending|
    requires TotalOf(s, c) == DaysWorth(s.history[c], s.clock)
    requires FateOf(s.chains[c], s.chains[c].pending[i], TotalOf(s, c), s.clock, prices).Goes?
    requires FirstAt(s.chains[c], s.chains[c].pending, s.history[c], i, s.clock, prices)
    ensures var pe := s.chains[c].pending[i];
      var fate := FateOf(s.chains[c], pe, TotalOf(s, c), s.clock, prices);
      && DecodeTransferHdr(pe.dbData.msg.payload).Some?
      && mv == Move(c, pe, fate.value, if fate.counts then
           Some(TransferOf(pe, DecodeTransferHdr(pe.dbData.msg.payload).value, fate.value, s.clock)) else None)
      && Rightly(cfg, s.chains[c], s.chains[c].pending, s.history[c], mv, s.clock, prices)
  {
    hide SeenAgrees, Limits, EntryMatches, DaysWorth, TotalOf, HasToWait, WorthOf, CountsAs, TransferOf,
      DecodeTransferHdr;
    var pe := s.chains[c].pending[i];
    var fate := FateOf(s.chains[c], pe, TotalOf(s, c), s.clock, prices);
    EntryReads(cfg, c, pe, prices);
    TransferCounts(cfg, c, pe, fate.value, s.clock);
    mv := Move(c, pe, fate.value, if fate.counts then
      Some(TransferOf(pe, DecodeTransferHdr(pe.dbData.msg.payload).value, fate.value, s.clock)) else None);
  }

  lemma OneMove(cfg: Config, s: State, c: uint16, mv: Move, prices: Prices)
    requires Ready(s, c) && mv.c == c
      && Rightly(cfg, s.chains[c], s.chains[c].pending, s.history[c], mv, s.clock, prices)
    ensures Lawful(cfg, s, [mv], prices)
  {
    hide Rightly;
    ExceptNone(s.chains[c].pending, Gone([], c));
    assert [mv][..0] == [] && s.history[c] + [] == s.history[c];
  }

  /** A round makes one move, or none because all have to wait or the first that need not is
      unusable. */
  lemma RoundMoves(cfg: Config, s: State, base: map<uint16, nat>, c: uint16, prices: Prices) returns (moves: seq<Move>)
    requires Inv(cfg, s, base) && c in s.chains
    ensures Ready(s, c)
    ensures var (t, r) := RoundOf(s, c, prices);
      && Ready(t, c) && Lawful(cfg, s, moves, prices) && Leads(s, moves, t)
      && Messages(moves) == (if r.Sent? then [r.m] else []) && (forall mv | mv in moves :: mv.c == c)
      && (r.Broken? ==> Blocked(t, c, prices))
  {
    hide Inv, Sum, SumSince, NewKey, Encoded, Trimmed, Released, Lawful, Leads, Rightly, DaysWorth, FateOf, HasToWait,
      TransferOf, DecodeTransferHdr, TotalOf, Unusable;
    KeysReady(cfg, s, base);
    RoundShrinks(s, c, prices);
    SameChain(s, c);
    TrimKeeps(cfg, s, base, c);
    TrimLeads(cfg, s, c);
    NoMoves(cfg, s, prices);
    TotalIsDaysWorth(cfg, s, base, c);
    var t := Trimmed(s, c);
    SameTotal(cfg, s, base, c);
    var ce := t.chains[c];
    var i := FirstMoving(ce, TotalOf(s, c), s.clock, prices, 0);
    moves := [];
    if i < |ce.pending| {
      forall j | 0 <= j < i
        ensures HasToWait(ce, t.history[c], ce.pending[j], t.clock, prices)
      {
        WaitsExactly(ce, t.history[c], ce.pending[j], t.clock, prices);
      }
      assert FirstAt(ce, ce.pending, t.history[c], i, t.clock, prices);
      var fate := FateOf(ce, ce.pending[i], TotalOf(s, c), s.clock, prices);
      if fate.Goes? {
        var mv := GoesRightly(cfg, t, base, c, i, prices);
        OneMove(cfg, t, c, mv, prices);
        ReleaseLeads(cfg, t, base, c, i, mv);
        moves := [mv];
        MovesBoth(cfg, s, [], t, moves, Released(t, c, i, mv.counted), prices);
        assert [] + moves == moves;
      } else {
        BreaksUnusable(ce, t.history[c], ce.pending[i], t.clock, prices);
      }
    }
  }

  lemma SameTotal(cfg: Config, s: State, base: map<uint16, nat>, c: uint16)
    requires Inv(cfg, s, base) && c in s.chains
    ensures TotalOf(Trimmed(s, c), c) == TotalOf(s, c)
  {
    hide Inv, Trimmed, TotalOf, DaysWorth;
    TrimKeeps(cfg, s, base, c);
    SameChain(s, c);
    TotalIsDaysWorth(cfg, s, base, c);
    TotalIsDaysWorth(cfg, Trimmed(s, c), base, c);
  }

  lemma BreaksUnusable(ce: ChainEntry, books: seq<Transfer>, pe: PendingEntry, now: int, prices: Prices)
    requires DaysWorth(books, now) < UINT64
    ensures FateOf(ce, pe, DaysWorth(books, now), now, prices) == Breaks <==> Unusable(ce, books, pe, now, prices)
  {
    hide DaysWorth;
  }

  lemma NoMessages()
    ensures Messages([]) == []
  {
  }

  lemma MessagesBoth(a: seq<Move>, b: seq<Move>)
    ensures Messages(a + b) == Messages(a) + Messages(b)
  {
  }

  lemma {:induction false} DrainMoves(cfg: Config, s: State, base: map<uint16, nat>, c: uint16, prices: Prices)
    returns (moves: seq<Move>)
    requires Inv(cfg, s, base) && c in s.chains
    ensures Ready(s, c)
    ensures var (t, ms, ok) := Drain(s, c, prices);
      && Ready(t, c) && Lawful(cfg, s, moves, prices) && Leads(s, moves, t) && Messages(moves) == ms
      && (forall mv | mv in moves :: mv.c == c) && (!ok ==> Blocked(t, c, prices))
    decreases |s.chains[c].pending|
  {
    hide Inv, RoundOf, Lawful, Leads, Blocked, Messages, HashFromMsg, Enqueued, AllWait;
    moves := RoundMoves(cfg, s, base, c, prices);
    RoundKeeps(cfg, s, base, c, prices);
    RoundShrinks(s, c, prices);
    var (t, r) := RoundOf(s, c, prices);
    if r.Sent? {
      var more := DrainMoves(cfg, t, base, c, prices);
      MovesBoth(cfg, s, moves, t, more, Drain(t, c, prices).0, prices);
      MessagesBoth(moves, more);
      moves := moves + more;
    }
  }

  /** What the moves of a check are: lawful ones on the chains that are visited, that take it from
      its first state to its last one and whose messages it hands over. If it ends well every entry
      left on these chains has to wait, and otherwise one of them is blocked. */
  ghost predicate Explains(cfg: Config, s: State, order: seq<uint16>, prices: Prices, moves: seq<Move>)
    requires s.history.Keys == s.chains.Keys && forall c | c in order :: c in s.chains
  {
    var (t, ms, ok) := DrainAll(s, order, prices);
    && Lawful(cfg, s, moves, prices) && Leads(s, moves, t) && Messages(moves) == ms
    && (forall mv | mv in moves :: mv.c in order)
    && if ok then forall c | c in order :: AllWait(t, c, prices)
       else exists c :: c in order && Blocked(t, c, prices)
  }

  lemma {:induction false} DrainAllMoves(cfg: Config, s: State, base: map<uint16, nat>, order: seq<uint16>,
        prices: Prices)
    returns (moves: seq<Move>)
    requires Inv(cfg, s, base) && forall c | c in order :: c in s.chains
    ensures s.history.Keys == s.chains.Keys
    ensures var (t, ms, ok) := DrainAll(s, order, prices);
      && t.chains.Keys == t.history.Keys == s.chains.Keys
      && Lawful(cfg, s, moves, prices) && Leads(s, moves, t) && Messages(moves) == ms
      && (forall mv | mv in moves :: mv.c in order)
      && (!ok ==> exists c :: c in order && Blocked(t, c, prices))
    decreases |order|
  {
    hide Inv, Drain, Lawful, Leads, Blocked, Messages, HashFromMsg, Enqueued, AllWait, SentExactly;
    KeysReady(cfg, s, base);
    moves := [];
    if order == [] {
      NoMoves(cfg, s, prices);
      NoMessages();
    } else {
      moves := DrainMoves(cfg, s, base, order[0], prices);
      DrainKeeps(cfg, s, base, order[0], prices);
      DrainReady(s, order[0], prices);
      var (t, ms, ok) := Drain(s, order[0], prices);
      if ok {
        var more := DrainAllMoves(cfg, t, base, order[1..], prices);
        MovesBoth(cfg, s, moves, t, more, DrainAll(t, order[1..], prices).0, prices);
        MessagesBoth(moves, more);
        moves := moves + more;
      }
    }
  }

  // ---------------------------------------------------------------- runs

  /** The run up to operation k, and then operation k. */
  lemma {:induction false} RunAt(cfg: Config, s: State, ops: seq<Op>, k: nat)
    requires IsRun(cfg, s, ops) && k < |ops|
    ensures IsRun(cfg, s, ops[..k]) && IsRun(cfg, s, ops[..k + 1]) && Possible(After(cfg, s, ops[..k]), ops[k])
    ensures After(cfg, s, ops[..k + 1]) == Apply(cfg, After(cfg, s, ops[..k]), ops[k])
    decreases |ops|
  {
    hide Possible, Apply;
    if k == 0 {
      assert ops[..1][1..] == [];
    } else {
      RunAt(cfg, Apply(cfg, s, ops[0]), ops[1..], k - 1);
      assert ops[..k][1..] == ops[1..][..k - 1] && ops[..k + 1][1..] == ops[1..][..k];
    }
  }

  /** Operation k of the run is a check, and these are its moves. */
  ghost predicate MovesAt(cfg: Config, s: State, ops: seq<Op>, k: nat, moves: seq<Move>)
    requires IsRun(cfg, s, ops)
  {
    && k < |ops| && ops[k].Check? && IsRun(cfg, s, ops[..k]) && Possible(After(cfg, s, ops[..k]), ops[k])
    && Explains(cfg, After(cfg, s, ops[..k]).(clock := ops[k].now), ops[k].order, ops[k].prices, moves)
  }

  /** Every check of every run has such moves. So each message it takes out leaves counted, as a
      transfer that is not big and has room in the day, or uncounted, when its release time has come;
      and after a check that ends well each entry that is left is big and before its release time, or
      not past it and without room in the day. */
  lemma ChecksOnEveryRun(cfg: Config, s: State, base: map<uint16, nat>, ops: seq<Op>, k: nat)
    returns (moves: seq<Move>)
    requires Inv(cfg, s, base) && IsRun(cfg, s, ops) && k < |ops| && ops[k].Check?
    ensures MovesAt(cfg, s, ops, k, moves)
  {
    hide Inv, IsRun, After, DrainAll, Lawful, Leads, AllWait, Blocked, SentExactly;
    RunAt(cfg, s, ops, k);
    var e := After(cfg, s, ops[..k]);
    RunKeeps(cfg, s, base, ops[..k]);
    TickKeeps(cfg, e, base, ops[k].now);
    moves := DrainAllMoves(cfg, e.(clock := ops[k].now), base, ops[k].order, ops[k].prices);
    DrainAllKeeps(cfg, e.(clock := ops[k].now), base, ops[k].order, ops[k].prices);
  }

  // ---------------------------------------------------------------- a day in the queue

  /** No entry with hash h has a release time before that time. */
  ghost predicate NotBefore(s: State, h: Text, time: int) {
    forall c, i | c in s.chains && 0 <= i < |s.chains[c].pending| && s.chains[c].pending[i].hash == h ::
      s.chains[c].pending[i].dbData.releaseTime >= time
  }

  lemma {:induction false} ExceptIn(ps: seq<PendingEntry>, gone: set<PendingEntry>, p: PendingEntry)
    requires p in Except(ps, gone)
    ensures p in ps
  {
    if p != ps[0] || ps[0] in gone {
      ExceptIn(ps[1..], gone, p);
    }
  }

  lemma CheckKeepsTime(s: State, moves: seq<Move>, t: State, h: Text, time: int)
    requires Leads(s, moves, t) && NotBefore(s, h, time)
    ensures NotBefore(t, h, time)
  {
    hide Except;
    forall c, i | c in t.chains && 0 <= i < |t.chains[c].pending| && t.chains[c].pending[i].hash == h
      ensures t.chains[c].pending[i].dbData.releaseTime >= time
    {
      ExceptIn(s.chains[c].pending, Gone(moves, c), t.chains[c].pending[i]);
    }
  }

  lemma AddsKeepTime(s: State, t: State, c: uint16, held: seq<PendingEntry>, counted: seq<Transfer>, h: Text, time: int)
    requires Adds(s, t, c, held, counted) && NotBefore(s, h, time)
    requires forall pe | pe in held :: pe.dbData.releaseTime >= time
    ensures NotBefore(t, h, time)
  {
    forall d, i | d in t.chains && 0 <= i < |t.chains[d].pending| && t.chains[d].pending[i].hash == h
      ensures t.chains[d].pending[i].dbData.releaseTime >= time
    {
      if d == c && i >= |s.chains[c].pending| {
        assert t.chains[c].pending[i] == held[i - |s.chains[c].pending|];
      } else {
        assert t.chains[d].pending[i] == s.chains[d].pending[i];
      }
    }
  }

  lemma ProcessKeepsTime(cfg: Config, s: State, base: map<uint16, nat>, m: Message, now: int, prices: Prices, h: Text,
        time: int)
    requires Inv(cfg, s, base) && s.clock <= now && NotBefore(s, h, time) && time <= now + 86_400_000_000_000
    ensures s.history.Keys == s.chains.Keys
    ensures NotBefore(Processed(cfg, s, m, now, prices).0, h, time)
  {
    hide Inv, Processed, Governs, HashFromMsg, Adds, NotBefore, CountsAs, Complete, Enqueued;
    KeysReady(cfg, s, base);
    var t := Processed(cfg, s, m, now, prices).0;
    if !Governs(cfg, s.chains, m) {
      OthersPass(cfg, s, m, now, prices);
      SameTime(s, now, h, time);
    } else if HashFromMsg(cfg, m) in s.seen {
      SeenAgain(cfg, s, m, now, prices);
      SameTime(s, now, h, time);
    } else {
      NewMessageDecided(cfg, s, base, m, now, prices);
      var c := m.emitterChain;
      match Processed(cfg, s, m, now, prices).1
      case Failed => AddsKeepTime(s, t, c, [], [], h, time);
      case Hold =>
        GovernedHere(cfg, s.chains, m);
        var pe :| Adds(s, t, c, [pe], []) && HoldsBack(cfg, pe, m, now);
        AddsKeepTime(s, t, c, [pe], [], h, time);
      case Publish =>
        GovernedHere(cfg, s.chains, m);
        var x :| Adds(s, t, c, [], [x]) && CountsAs(cfg, x, m, WorthOf(m, prices).value, now);
        AddsKeepTime(s, t, c, [], [x], h, time);
    }
  }

  lemma SameTime(s: State, now: int, h: Text, time: int)
    requires NotBefore(s, h, time)
    ensures NotBefore(s.(clock := now), h, time)
  {
  }

  lemma OpKeepsTime(cfg: Config, s: State, base: map<uint16, nat>, op: Op, h: Text, time: int)
    requires Inv(cfg, s, base) && Possible(s, op) && NotBefore(s, h, time) && time <= op.now + 86_400_000_000_000
    ensures NotBefore(Apply(cfg, s, op), h, time) && Apply(cfg, s, op).clock == op.now
  {
    hide Inv, Processed, DrainAll, Lawful, NotBefore;
    match op
    case Process(m, now, prices) =>
      ProcessKeepsTime(cfg, s, base, m, now, prices, h, time);
      ProcessedClock(cfg, s, m, now, prices);
    case Check(order, now, prices) =>
      TickKeeps(cfg, s, base, now);
      SameTime(s, now, h, time);
      var moves := DrainAllMoves(cfg, s.(clock := now), base, order, prices);
      CheckKeepsTime(s.(clock := now), moves, DrainAll(s.(clock := now), order, prices).0, h, time);
  }

  lemma ProcessedClock(cfg: Config, s: State, m: Message, now: int, prices: Prices)
    requires s.history.Keys == s.chains.Keys
    ensures Processed(cfg, s, m, now, prices).0.clock == now
  {
    hide HashFromMsg, DecodeTransferHdr, SumSince, Judge, NewPending, NewTransfer, NewKey, Encoded, Expired;
  }

  lemma UnseenHasNoEntry(cfg: Config, s: State, base: map<uint16, nat>, h: Text, time: int)
    requires Inv(cfg, s, base) && h !in s.seen
    ensures NotBefore(s, h, time)
  {
    hide Limits, EntryMatches, SeenAgrees;
    forall c, i | c in s.chains && 0 <= i < |s.chains[c].pending|
      ensures s.chains[c].pending[i].hash != h
    {
      MatchingHash(cfg, c, s.chains[c].pending[i]);
      PendingIsEnqueued(s.chains, s.seen, c, i);
    }
  }

  /** From operation a, which holds the message back, up to operation b. */
  lemma {:induction false} WaitsFrom(cfg: Config, s: State, base: map<uint16, nat>, ops: seq<Op>, a: nat, b: nat,
        h: Text)
    requires Inv(cfg, s, base) && IsRun(cfg, s, ops) && a < b <= |ops|
    requires IsRun(cfg, s, ops[..a]) && h !in After(cfg, s, ops[..a]).seen
    ensures IsRun(cfg, s, ops[..b])
    ensures NotBefore(After(cfg, s, ops[..b]), h, ops[a].now + 86_400_000_000_000)
    ensures ops[a].now <= After(cfg, s, ops[..b]).clock
    decreases b
  {
    hide Inv, IsRun, After, Apply, NotBefore;
    var time := ops[a].now + 86_400_000_000_000;
    RunAt(cfg, s, ops, b - 1);
    RunKeeps(cfg, s, base, ops[..b - 1]);
    var e := After(cfg, s, ops[..b - 1]);
    if b == a + 1 {
      UnseenHasNoEntry(cfg, e, base, h, time);
    } else {
      WaitsFrom(cfg, s, base, ops, a, b - 1, h);
    }
    OpKeepsTime(cfg, e, base, ops[b - 1], h, time);
  }

  /** A message that was held back leaves the queues uncounted 24 hours later or not at all: on every
      run, if operation a holds it back and a move of the later check b takes it out uncounted, at
      least 86 400 seconds have passed in between. */
  lemma HeldForADay(cfg: Config, s: State, base: map<uint16, nat>, ops: seq<Op>, a: nat, b: nat, moves: seq<Move>,
        k: nat)
    requires Inv(cfg, s, base) && IsRun(cfg, s, ops) && a < b && MovesAt(cfg, s, ops, b, moves)
    requires ops[a].Process? && IsRun(cfg, s, ops[..a]) && Possible(After(cfg, s, ops[..a]), ops[a])
    requires Enters(cfg, After(cfg, s, ops[..a]), ops[a], HashFromMsg(cfg, ops[a].m))
    requires k < |moves| && HashFromMsg(cfg, moves[k].pe.dbData.msg) == HashFromMsg(cfg, ops[a].m)
    requires moves[k].counted.None?
    ensures ops[b].now - ops[a].now >= 86_400_000_000_000
  {
    hide Inv, IsRun, After, DrainAll, AllWait, Blocked, HashFromMsg, Processed, Leads;
    var h := HashFromMsg(cfg, ops[a].m);
    WaitsFrom(cfg, s, base, ops, a, b, h);
    var e := After(cfg, s, ops[..b]);
    RunKeeps(cfg, s, base, ops[..b]);
    TickKeeps(cfg, e, base, ops[b].now);
    var s0 := e.(clock := ops[b].now);
    MoveTakes(cfg, s0, base, moves, ops[b].prices, k);
  }

  lemma MoveTakes(cfg: Config, s: State, base: map<uint16, nat>, moves: seq<Move>, prices: Prices, k: nat)
    requires Inv(cfg, s, base) && Lawful(cfg, s, moves, prices) && k < |moves|
    ensures var mv := moves[k];
      && mv.c in s.chains && mv.pe in s.chains[mv.c].pending && mv.pe.hash == HashFromMsg(cfg, mv.pe.dbData.msg)
      && (mv.counted.None? ==> s.clock >= mv.pe.dbData.releaseTime)
  {
    hide SeenAgrees, Limits, HashFromMsg, Except, WorthOf, CountsAs, HasRoom;
    var mv := moves[k];
    ExceptIn(s.chains[mv.c].pending, Gone(moves[..k], mv.c), mv.pe);
  }
}
