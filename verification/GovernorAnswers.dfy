/** What the callers of the governor get on a run: messages taken out of the queues are returned by
    the same call or, if that one fails, by a later one. */
module GovernorAnswers {
  import opened Binary
  import opened Vaa
  import opened Keys
  import opened Publication
  import opened Transfers
  import opened GovernorDb
  import opened Scans
  import opened Governor
  import opened GovernorState
  import opened Reload
  import opened GovernorNode
  import opened GovernorRuns
  import opened TransferFiles
  import opened Restart
  import opened AcrossRestart

  ghost function Taken(s: State, op: Op): (seq<Message>, bool)
    requires Possible(s, op) && op.Check?
  {
    var (_, ms, ok) := DrainAll(s.(clock := op.now), op.order, op.prices);
    (ms, ok)
  }

  /** All messages that a run takes out of the queues, in order. */
  ghost function AllTaken(cfg: Config, s: State, ops: seq<Op>): seq<Message>
    requires IsRun(cfg, s, ops)
    decreases |ops|
  {
    if ops == [] then []
    else (if ops[0].Check? then Taken(s, ops[0]).0 else []) + AllTaken(cfg, Apply(cfg, s, ops[0]), ops[1..])
  }

  /** What is kept for the next call after one operation, and what that operation returns. */
  ghost function KeptBy(s: State, op: Op, waiting: seq<Message>): seq<Message>
    requires Possible(s, op)
  {
    if op.Check? then Handed(waiting, Taken(s, op).0, Taken(s, op).1).1 else waiting
  }

  ghost function ReturnedBy(s: State, op: Op, waiting: seq<Message>): seq<Message>
    requires Possible(s, op)
  {
    if !op.Check? then []
    else match Handed(waiting, Taken(s, op).0, Taken(s, op).1).0 case Some(ms) => ms case None => []
  }

  /** What is kept at the end of a run, and all that its calls have returned. */
  ghost function Left(cfg: Config, s: State, ops: seq<Op>, waiting: seq<Message>): seq<Message>
    requires IsRun(cfg, s, ops)
    decreases |ops|
  {
    if ops == [] then waiting else Left(cfg, Apply(cfg, s, ops[0]), ops[1..], KeptBy(s, ops[0], waiting))
  }

  ghost function Returned(cfg: Config, s: State, ops: seq<Op>, waiting: seq<Message>): seq<Message>
    requires IsRun(cfg, s, ops)
    decreases |ops|
  {
    if ops == [] then []
    else ReturnedBy(s, ops[0], waiting) + Returned(cfg, Apply(cfg, s, ops[0]), ops[1..], KeptBy(s, ops[0], waiting))
  }

  lemma OpReturns(s: State, op: Op, waiting: seq<Message>)
    requires Possible(s, op)
    ensures ReturnedBy(s, op, waiting) + KeptBy(s, op, waiting) ==
      waiting + if op.Check? then Taken(s, op).0 else []
    ensures op.Check? && Taken(s, op).1 ==> KeptBy(s, op, waiting) == []
    ensures op.Check? && !Taken(s, op).1 ==> ReturnedBy(s, op, waiting) == []
  {
    hide DrainAll;
  }

  /** On every run, what is returned and then what is kept is what was kept at the start and what was
      taken out of the queues since, in order. */
  lemma {:induction false} ReturnedInOrder(cfg: Config, s: State, ops: seq<Op>, waiting: seq<Message>)
    requires IsRun(cfg, s, ops)
    ensures Returned(cfg, s, ops, waiting) + Left(cfg, s, ops, waiting) == waiting + AllTaken(cfg, s, ops)
    decreases |ops|
  {
    hide Apply, Possible, KeptBy, ReturnedBy, Taken;
    if ops != [] {
      var op := ops[0];
      var t, kept, now := Apply(cfg, s, op), KeptBy(s, op, waiting), if op.Check? then Taken(s, op).0 else [];
      OpReturns(s, op, waiting);
      ReturnedInOrder(cfg, t, ops[1..], kept);
      var back, later := ReturnedBy(s, op, waiting), Returned(cfg, t, ops[1..], kept);
      var left, taken := Left(cfg, t, ops[1..], kept), AllTaken(cfg, t, ops[1..]);
      assert (back + later) + left == back + (later + left);
      assert back + (kept + taken) == (back + kept) + taken;
      assert (waiting + now) + taken == waiting + (now + taken);
    }
  }

  /** After a check that ends well nothing is kept: it has returned all that was. */
  lemma {:induction false} NothingKept(cfg: Config, s: State, ops: seq<Op>, waiting: seq<Message>)
    requires IsRun(cfg, s, ops) && ops != [] && ops[|ops| - 1].Check?
    requires var n := |ops| - 1;
      && IsRun(cfg, s, ops[..n]) && Possible(After(cfg, s, ops[..n]), ops[n])
      && Taken(After(cfg, s, ops[..n]), ops[n]).1
    ensures Left(cfg, s, ops, waiting) == []
    decreases |ops|
  {
    hide Apply, Possible, KeptBy, ReturnedBy, Taken;
    var op, rest := ops[0], ops[1..];
    var t, kept := Apply(cfg, s, op), KeptBy(s, op, waiting);
    if rest == [] {
      OpReturns(s, op, waiting);
    } else {
      assert ops[..|ops| - 1][1..] == rest[..|rest| - 1];
      NothingKept(cfg, t, rest, kept);
    }
  }

  // ---------------------------------------------------------------- counting messages

  ghost function Times(cfg: Config, ms: seq<Message>, h: Text): nat { multiset(MsgHashes(cfg, ms))[h] }

  lemma TimesSplit(cfg: Config, a: seq<Message>, b: seq<Message>, h: Text)
    ensures Times(cfg, a + b, h) == Times(cfg, a, h) + Times(cfg, b, h)
  {
    hide HashFromMsg;
    assert MsgHashes(cfg, a + b) == MsgHashes(cfg, a) + MsgHashes(cfg, b);
  }

  lemma NoTimes(cfg: Config, h: Text)
    ensures Times(cfg, [], h) == 0
  {
  }

  /** A message leaves the queues as often as it is taken out. */
  lemma {:induction false} TakenIsExits(cfg: Config, s: State, base: map<uint16, nat>, ops: seq<Op>, h: Text)
    requires Inv(cfg, s, base) && IsRun(cfg, s, ops)
    ensures Times(cfg, AllTaken(cfg, s, ops), h) == Exits(cfg, s, ops, h)
    decreases |ops|
  {
    hide Inv, Apply, Possible, Times, Leaves, Taken;
    if ops == [] {
      NoTimes(cfg, h);
    } else {
      var op := ops[0];
      var now := if op.Check? then Taken(s, op).0 else [];
      OpTakes(cfg, s, base, op, h);
      OpKeeps(cfg, s, base, op);
      TakenIsExits(cfg, Apply(cfg, s, op), base, ops[1..], h);
      TimesSplit(cfg, now, AllTaken(cfg, Apply(cfg, s, op), ops[1..]), h);
    }
  }

  lemma OpTakes(cfg: Config, s: State, base: map<uint16, nat>, op: Op, h: Text)
    requires Inv(cfg, s, base) && Possible(s, op)
    ensures Times(cfg, if op.Check? then Taken(s, op).0 else [], h) == One(Leaves(cfg, s, op, h))
  {
    hide Inv, DrainAll, HashFromMsg, AllWait;
    if op.Check? {
      TickKeeps(cfg, s, base, op.now);
      DrainAllKeeps(cfg, s.(clock := op.now), base, op.order, op.prices);
      CountOfNoDuplicates(MsgHashes(cfg, Taken(s, op).0), h);
    } else {
      NoTimes(cfg, h);
    }
  }

  /** On every run, every message that was held back at the start or on the way is returned, kept for
      the next call, or still held back. */
  lemma AnswersConserved(cfg: Config, s: State, base: map<uint16, nat>, ops: seq<Op>, waiting: seq<Message>, h: Text)
    requires Inv(cfg, s, base) && IsRun(cfg, s, ops)
    ensures One(h in Enqueued(s.seen)) + Times(cfg, waiting, h) + Entries(cfg, s, ops, h) ==
      Times(cfg, Returned(cfg, s, ops, waiting), h) + Times(cfg, Left(cfg, s, ops, waiting), h) +
        One(h in Enqueued(After(cfg, s, ops).seen))
  {
    hide Inv, IsRun, Times, Entries, Exits, After, AllTaken, Returned, Left;
    QueueConserved(cfg, s, base, ops, h);
    TakenIsExits(cfg, s, base, ops, h);
    ReturnedInOrder(cfg, s, ops, waiting);
    TimesSplit(cfg, waiting, AllTaken(cfg, s, ops), h);
    TimesSplit(cfg, Returned(cfg, s, ops, waiting), Left(cfg, s, ops, waiting), h);
  }

  // ---------------------------------------------------------------- what a restart loses

  lemma SomeTimes(cfg: Config, ms: seq<Message>)
    ensures ms == [] <==> forall h :: Times(cfg, ms, h) == 0
  {
    hide HashFromMsg;
    if ms == [] {
      forall h ensures Times(cfg, ms, h) == 0 { NoTimes(cfg, h); }
    } else {
      var h := HashFromMsg(cfg, ms[0]);
      assert MsgHashes(cfg, ms)[0] == h;
      assert Times(cfg, ms, h) > 0;
    }
  }

  /** A governor runs from an empty start and is restarted. Of the messages it held back, those that it
      kept for a later call are in no queue and in no store any more: a message is lost as often as
      it was kept, so nothing is lost exactly if nothing was kept. */
  lemma RestartLosesKept(cfg: Config, s: State, trusted: Message -> bool, ops: seq<Op>, order: seq<Text>, cs: Chains,
        now: int)
    requires Fresh(s) && s.seen == map[] && (forall k | k in s.store :: KindOf(k) == OtherKind)
    requires IsRun(cfg, s, ops) && TrustedRun(ops, trusted) && OneHashPerId(cfg, trusted)
    requires var end := After(cfg, s, ops); Enumerates(order, end.store) && EmptyLists(cs) && SameConfig(end.chains, cs)
    ensures var t := Loaded(cfg, cs, After(cfg, s, ops).store, order, now);
      forall h :: Entries(cfg, s, ops, h) == Times(cfg, Returned(cfg, s, ops, []), h) + One(h in Enqueued(t.seen)) +
        Times(cfg, Left(cfg, s, ops, []), h)
    ensures var t := Loaded(cfg, cs, After(cfg, s, ops).store, order, now);
      Left(cfg, s, ops, []) == [] <==> forall h ::
        Entries(cfg, s, ops, h) == Times(cfg, Returned(cfg, s, ops, []), h) + One(h in Enqueued(t.seen))
  {
    hide Fresh, OneHashPerId, KindOf, TrustedRun, IsRun, After, Loaded, EmptyLists, SameConfig, Stopped, Inv, Times,
      Entries, Returned, Left, Enqueued;
    var base := map c | c in s.chains :: 0;
    var end := After(cfg, s, ops);
    var t := Loaded(cfg, cs, end.store, order, now);
    FreshInv(cfg, s);
    RunStops(cfg, s, trusted, ops, order, cs);
    forall h
      ensures Entries(cfg, s, ops, h) == Times(cfg, Returned(cfg, s, ops, []), h) + One(h in Enqueued(t.seen)) +
        Times(cfg, Left(cfg, s, ops, []), h)
    {
      AnswersConserved(cfg, s, base, ops, [], h);
      LoadedQueue(cfg, end, trusted, order, cs, now, h);
      NoTimes(cfg, h);
      NothingEnqueued(h);
    }
    SomeTimes(cfg, Left(cfg, s, ops, []));
  }

  lemma NothingEnqueued(h: Text)
    ensures h !in Enqueued(map[])
  {
  }
}
