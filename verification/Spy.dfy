/** The spy's subscriptions, node/cmd/spy/spy.go: a publisher that holds a mutex while it sends into
    bounded channels, and subscribers that come and go. Every interleaving is a run. */
module Spy {
  import opened Binary
  import opened Vaa

  type Id = nat
  type Bytes = seq<byte>

  datatype Filter = Filter(chainId: uint16, emitterAddr: Address)

  const CAPACITY := 1

  /** Where the handler of a subscription is. Leaving starts the cleanup loop: `Spawn` starts a
      receiver, `Await` waits for it or for its timer, `Try` tries the mutex. */
  datatype Phase = Receive | Send | Spawn | Await | Try | Gone

  /** `receivers` are those that a cleanup has started and that have not received anything yet; they
      stay blocked on the channel when their timer runs out. `sent` and `taken` record what was put
      into the channel and what the handler took out of it to send on. */
  datatype Sub = Sub(
    filters: seq<Filter>,
    buffer: seq<Bytes>,
    phase: Phase,
    receivers: nat,
    sent: seq<Bytes>,
    taken: seq<Bytes>)

  /** The publisher that holds the mutex, with the sends it still has to do. */
  datatype Job = Job(msg: Bytes, todo: seq<Id>)

  /** `registered` is the map the mutex protects. */
  datatype State = State(subs: map<Id, Sub>, registered: set<Id>, job: Option<Job>)

  // ---------------------------------------------------------------- whom a message is sent to

  predicate MatchesOne(f: Filter, v: VAA) { f.chainId == v.emitterChain && f.emitterAddr == v.emitterAddress }

  function Matches(fs: seq<Filter>, v: VAA): nat {
    if fs == [] then 0
    else (if MatchesOne(fs[0], v) then 1 else 0) + Matches(fs[1..], v)
  }

  function Copies(id: Id, n: nat): seq<Id> { seq(n, _ => id) }

  /** The sends of one publication, visiting the subscriptions in some order. The message is only
      decoded when the first filter is met, and if that fails nobody after it gets it. */
  function Targets(subs: map<Id, Sub>, order: seq<Id>, msg: Bytes): seq<Id>
    requires forall id | id in order :: id in subs
  {
    if order == [] then []
    else
      var id := order[0];
      if subs[id].filters == [] then [id] + Targets(subs, order[1..], msg)
      else match Decode(msg)
        case None => []
        case Some(v) => Copies(id, Matches(subs[id].filters, v)) + Targets(subs, order[1..], msg)
  }

  lemma {:induction false} CopiesCount(id: Id, n: nat, x: Id)
    ensures multiset(Copies(id, n))[x] == if x == id then n else 0
  {
    if n > 0 {
      CopiesCount(id, n - 1, x);
      assert Copies(id, n) == Copies(id, n - 1) + [id];
    }
  }

  /** The filters that name the emitter of v, by their positions. */
  ghost function Naming(fs: seq<Filter>, v: VAA): set<nat> {
    set j: nat | j < |fs| && fs[j].chainId == v.emitterChain && fs[j].emitterAddr == v.emitterAddress
  }

  lemma {:induction false} MatchesExact(fs: seq<Filter>, v: VAA)
    ensures Matches(fs, v) == |Naming(fs, v)|
  {
    if fs != [] {
      var front := fs[..|fs| - 1];
      MatchesExact(front, v);
      MatchesLast(fs, v);
      var last := if MatchesOne(fs[|fs| - 1], v) then {|fs| - 1} else {};
      assert Naming(fs, v) == Naming(front, v) + last;
    }
  }

  lemma {:induction false} MatchesLast(fs: seq<Filter>, v: VAA)
    requires fs != []
    ensures Matches(fs, v) == Matches(fs[..|fs| - 1], v) + if MatchesOne(fs[|fs| - 1], v) then 1 else 0
  {
    if |fs| > 1 {
      MatchesLast(fs[1..], v);
      assert fs[1..][..|fs| - 2] == fs[..|fs| - 1][1..];
    }
  }

  /** A message that decodes goes once to a subscription without filters, and otherwise once for each
      filter that has its emitter chain and its emitter address. */
  lemma {:induction false} TargetsExact(subs: map<Id, Sub>, order: seq<Id>, msg: Bytes, x: Id)
    requires (forall id | id in order :: id in subs) && Decode(msg).Some?
    requires forall i, j | 0 <= i < j < |order| :: order[i] != order[j]
    ensures multiset(Targets(subs, order, msg))[x] ==
      if x !in order then 0 else if subs[x].filters == [] then 1 else |Naming(subs[x].filters, Decode(msg).value)|
  {
    hide Decode, Matches, Naming;
    if order != [] {
      var id, rest := order[0], order[1..];
      TargetsExact(subs, rest, msg, x);
      MatchesExact(subs[id].filters, Decode(msg).value);
      CopiesCount(id, Matches(subs[id].filters, Decode(msg).value), x);
      assert x in order <==> x == id || x in rest;
    }
  }

  /** A message that does not decode goes to the subscriptions that are visited before the first one
      with filters, once each, and to no other. */
  lemma {:induction false} UndecodableTargets(subs: map<Id, Sub>, order: seq<Id>, msg: Bytes) returns (k: nat)
    requires (forall id | id in order :: id in subs) && Decode(msg) == None
    ensures k <= |order| && Targets(subs, order, msg) == order[..k]
    ensures forall i | 0 <= i < k :: subs[order[i]].filters == []
    ensures k < |order| ==> subs[order[k]].filters != []
  {
    hide Decode;
    if order == [] || subs[order[0]].filters != [] {
      k := 0;
    } else {
      var rest := order[1..];
      k := UndecodableTargets(subs, rest, msg);
      assert forall i | 0 < i < |order| :: order[i] == rest[i - 1];
      k := k + 1;
      assert order[..k] == [order[0]] + rest[..k - 1];
    }
  }

  lemma NoTargets(subs: map<Id, Sub>, msg: Bytes)
    ensures Targets(subs, [], msg) == []
  {
  }

  lemma TargetsStep(subs: map<Id, Sub>, order: seq<Id>, msg: Bytes)
    requires order != [] && forall id | id in order :: id in subs
    ensures subs[order[0]].filters == [] ==> Targets(subs, order, msg) == [order[0]] + Targets(subs, order[1..], msg)
    ensures subs[order[0]].filters != [] && Decode(msg).None? ==> Targets(subs, order, msg) == []
    ensures subs[order[0]].filters != [] && Decode(msg).Some? ==>
      Targets(subs, order, msg) == Copies(order[0], Matches(subs[order[0]].filters, Decode(msg).value)) +
        Targets(subs, order[1..], msg)
  {
    hide Decode, Matches, Copies;
  }

  method CountMatches(fs: seq<Filter>, v: VAA, id: Id) returns (sends: seq<Id>)
    ensures sends == Copies(id, Matches(fs, v))
  {
    sends := [];
    ghost var n: nat := 0;
    assert fs[0..] == fs;
    for j := 0 to |fs|
      invariant sends == Copies(id, n) && n + Matches(fs[j..], v) == Matches(fs, v)
    {
      assert fs[j..][1..] == fs[j + 1..];
      if fs[j].chainId == v.emitterChain && fs[j].emitterAddr == v.emitterAddress {
        sends := sends + [id];
        n := n + 1;
      }
    }
  }

  /** The sends of a publication as the nested loops make them; false is the error of a message that
      had to be decoded and could not. */
  method PublishSignedVAA(subs: map<Id, Sub>, order: seq<Id>, msg: Bytes) returns (sends: seq<Id>, ok: bool)
    requires forall id | id in order :: id in subs
    ensures sends == Targets(subs, order, msg)
    ensures ok <==> Decode(msg).Some? || forall id | id in order :: subs[id].filters == []
  {
    hide Decode, Matches, Copies, Targets;
    NoTargets(subs, msg);
    sends := [];
    var v: Option<VAA> := None;
    assert order[0..] == order;
    for i := 0 to |order|
      invariant Targets(subs, order, msg) == sends + Targets(subs, order[i..], msg)
      invariant v.Some? ==> Decode(msg) == v
      invariant v.Some? || forall j | 0 <= j < i :: subs[order[j]].filters == []
    {
      var id := order[i];
      TargetsStep(subs, order[i..], msg);
      assert order[i..][1..] == order[i + 1..] && order[i..][0] == id;
      if subs[id].filters == [] {
        sends := sends + [id];
      } else {
        if v.None? {
          v := Unmarshal(msg);
          if v.None? { return sends, false; }
        }
        var more := CountMatches(subs[id].filters, v.value, id);
        sends := sends + more;
      }
    }
    assert order[|order|..] == [] && sends + [] == sends;
    return sends, true;
  }

  // ---------------------------------------------------------------- steps

  datatype Step =
    | Publish(msg: Bytes, order: seq<Id>)   // lock the mutex
    | Push                                  // one send into a channel
    | Finish                                // unlock the mutex
    | Register(id: Id, filters: seq<Filter>)
    | Take(id: Id)                          // the handler receives a message
    | Sent(id: Id)                          // the subscriber accepted it
    | Leave(id: Id)                         // the client is gone, or too slow
    | Start(id: Id)                         // cleanup starts a receiver
    | Drain(id: Id)                         // such a receiver receives
    | Timeout(id: Id)                       // cleanup stops waiting for it
    | Fail(id: Id)                          // the mutex is taken
    | Remove(id: Id)                        // the mutex is free

  ghost predicate Enabled(s: State, step: Step) {
    match step
    case Publish(msg, order) =>
      && s.job.None? && (forall id :: id in order <==> id in s.registered) && (forall id | id in order :: id in s.subs)
      && (forall i, j | 0 <= i < j < |order| :: order[i] != order[j])
    case Push => s.job.Some? && s.job.value.todo != [] && s.job.value.todo[0] in s.subs
      && |s.subs[s.job.value.todo[0]].buffer| < CAPACITY
    case Finish => s.job.Some? && s.job.value.todo == []
    case Register(id, _) => s.job.None? && id !in s.subs
    case Take(id) => id in s.subs && s.subs[id].phase == Receive && s.subs[id].buffer != []
    case Sent(id) => id in s.subs && s.subs[id].phase == Send
    case Leave(id) => id in s.subs && s.subs[id].phase in {Receive, Send}
    case Start(id) => id in s.subs && s.subs[id].phase == Spawn
    case Drain(id) => id in s.subs && s.subs[id].receivers > 0 && s.subs[id].buffer != []
    case Timeout(id) => id in s.subs && s.subs[id].phase == Await
    case Fail(id) => id in s.subs && s.subs[id].phase == Try && s.job.Some?
    case Remove(id) => id in s.subs && s.subs[id].phase == Try && s.job.None?
  }

  function Update(s: State, id: Id, sub: Sub): State { s.(subs := s.subs[id := sub]) }

  ghost function Apply(s: State, step: Step): State
    requires Enabled(s, step)
  {
    match step
    case Publish(msg, order) => s.(job := Some(Job(msg, Targets(s.subs, order, msg))))
    case Push =>
      var j := s.job.value;
      var sub := s.subs[j.todo[0]];
      Update(s, j.todo[0], sub.(buffer := sub.buffer + [j.msg], sent := sub.sent +
        [j.msg])).(job := Some(Job(j.msg, j.todo[1..])))
    case Finish => s.(job := None)
    case Register(id, filters) => Update(s, id, Sub(filters, [], Receive, 0, [], [])).(registered := s.registered +
      {id})
    case Take(id) =>
      var sub := s.subs[id];
      Update(s, id, sub.(phase := Send, buffer := sub.buffer[1..], taken := sub.taken + [sub.buffer[0]]))
    case Sent(id) => Update(s, id, s.subs[id].(phase := Receive))
    case Leave(id) => Update(s, id, s.subs[id].(phase := Spawn))
    case Start(id) => Update(s, id, s.subs[id].(phase := Await, receivers := s.subs[id].receivers + 1))
    case Drain(id) =>
      Update(s, id, s.subs[id].(buffer := s.subs[id].buffer[1..], receivers := s.subs[id].receivers - 1))
    case Timeout(id) => Update(s, id, s.subs[id].(phase := Try))
    case Fail(id) => Update(s, id, s.subs[id].(phase := Spawn))
    case Remove(id) => Update(s, id, s.subs[id].(phase := Gone)).(registered := s.registered - {id})
  }

  const START := State(map[], {}, None)

  ghost predicate IsRun(s: State, steps: seq<Step>)
    decreases |steps|
  {
    steps == [] || (Enabled(s, steps[0]) && IsRun(Apply(s, steps[0]), steps[1..]))
  }

  ghost function After(s: State, steps: seq<Step>): State
    requires IsRun(s, steps)
    decreases |steps|
  {
    if steps == [] then s else After(Apply(s, steps[0]), steps[1..])
  }

  // ---------------------------------------------------------------- the invariant

  ghost predicate SubInv(sub: Sub) {
    && |sub.buffer| <= CAPACITY
    && (sub.phase in {Receive, Send} ==> sub.receivers == 0 && sub.sent == sub.taken + sub.buffer)
    && sub.taken <= sub.sent
  }

  /** The registered subscriptions are those whose handler is not gone, and everything a publisher
      still has to send goes to a registered one. */
  ghost predicate Inv(s: State) {
    && (forall id | id in s.subs :: SubInv(s.subs[id]) && (id in s.registered <==> s.subs[id].phase != Gone))
    && (forall id | id in s.registered :: id in s.subs)
    && (s.job.Some? ==> forall id | id in s.job.value.todo :: id in s.registered)
  }

  lemma {:induction false} TargetsAreVisited(subs: map<Id, Sub>, order: seq<Id>, msg: Bytes)
    requires forall id | id in order :: id in subs
    ensures forall x | x in Targets(subs, order, msg) :: x in order
  {
    if order != [] {
      TargetsAreVisited(subs, order[1..], msg);
    }
  }

  lemma UpdateKeeps(s: State, id: Id, sub: Sub)
    requires Inv(s) && id in s.subs && SubInv(sub) && (sub.phase == Gone <==> s.subs[id].phase == Gone)
    ensures Inv(Update(s, id, sub))
  {
    hide SubInv;
  }

  lemma PushKeeps(s: State)
    requires Inv(s) && Enabled(s, Push)
    ensures Inv(Apply(s, Push))
  {
    var j := s.job.value;
    var sub := s.subs[j.todo[0]];
    UpdateKeeps(s, j.todo[0], sub.(buffer := sub.buffer + [j.msg], sent := sub.sent + [j.msg]));
  }

  lemma HandlerKeeps(s: State, step: Step)
    requires Inv(s) && Enabled(s, step) && IsHandler(step)
    ensures Inv(Apply(s, step))
  {
    var t := Apply(s, step);
    UpdateKeeps(s, step.id, t.subs[step.id]);
  }

  /** A step of a handler, or of a receiver it has started, other than the last one. */
  predicate IsHandler(step: Step) {
    step.Take? || step.Sent? || step.Leave? || step.Start? || step.Drain? || step.Timeout? || step.Fail?
  }

  lemma StepKeeps(s: State, step: Step)
    requires Inv(s) && Enabled(s, step)
    ensures Inv(Apply(s, step))
  {
    hide Decode, Targets, SubInv;
    if IsHandler(step) {
      HandlerKeeps(s, step);
    } else {
      match step
      case Publish(msg, order) => TargetsAreVisited(s.subs, order, msg);
      case Push => PushKeeps(s);
      case Finish =>
      case Register(id, filters) => NewSubInv(filters);
      case Remove(id) => GoneInv(s.subs[id]);
    }
  }

  lemma NewSubInv(filters: seq<Filter>)
    ensures SubInv(Sub(filters, [], Receive, 0, [], []))
  {
  }

  lemma GoneInv(sub: Sub)
    requires SubInv(sub)
    ensures SubInv(sub.(phase := Gone))
  {
  }

  lemma {:induction false} RunKeeps(s: State, steps: seq<Step>)
    requires Inv(s) && IsRun(s, steps)
    ensures Inv(After(s, steps))
    decreases |steps|
  {
    hide Inv, Enabled, Apply;
    if steps != [] {
      StepKeeps(s, steps[0]);
      RunKeeps(Apply(s, steps[0]), steps[1..]);
    }
  }

  // ---------------------------------------------------------------- what holds on every run

  function Repeat(msg: Bytes, n: nat): seq<Bytes> { seq(n, _ => msg) }

  /** What a step publishes to a subscription: one copy for each time it is a target. */
  ghost function Published(s: State, step: Step, id: Id): seq<Bytes>
    requires Enabled(s, step)
  {
    if step.Publish? then Repeat(step.msg, multiset(Targets(s.subs, step.order, step.msg))[id]) else []
  }

  /** Everything that is published to a subscription during a run. */
  ghost function Due(s: State, steps: seq<Step>, id: Id): seq<Bytes>
    requires IsRun(s, steps)
    decreases |steps|
  {
    if steps == [] then [] else Published(s, steps[0], id) + Due(Apply(s, steps[0]), steps[1..], id)
  }

  /** What the publisher that holds the mutex has still to send to a subscription. */
  function Outstanding(s: State, id: Id): seq<Bytes> {
    if s.job.None? then [] else Repeat(s.job.value.msg, multiset(s.job.value.todo)[id])
  }

  function SentTo(s: State, id: Id): seq<Bytes> { if id in s.subs then s.subs[id].sent else [] }

  lemma PushSends(s: State, id: Id)
    requires Enabled(s, Push)
    ensures var t := Apply(s, Push); SentTo(t, id) + Outstanding(t, id) == SentTo(s, id) + Outstanding(s, id)
  {
    var j := s.job.value;
    var n := multiset(j.todo)[id];
    assert j.todo == [j.todo[0]] + j.todo[1..];
    if id == j.todo[0] {
      assert Repeat(j.msg, n) == [j.msg] + Repeat(j.msg, n - 1);
    }
  }

  lemma StepSends(s: State, step: Step, id: Id)
    requires Enabled(s, step)
    ensures var t := Apply(s, step);
      SentTo(t, id) + Outstanding(t, id) == SentTo(s, id) + Outstanding(s, id) + Published(s, step, id)
  {
    hide Targets, Repeat;
    if step.Push? {
      PushSends(s, id);
    } else if step.Finish? {
      NothingLeft(s.job.value.msg);
    }
  }

  lemma NothingLeft(msg: Bytes)
    ensures Repeat(msg, 0) == []
  {
  }

  lemma {:induction false} RunSends(s: State, steps: seq<Step>, id: Id)
    requires IsRun(s, steps)
    ensures var t := After(s, steps);
      SentTo(t, id) + Outstanding(t, id) == SentTo(s, id) + Outstanding(s, id) + Due(s, steps, id)
    decreases |steps|
  {
    hide Enabled, Apply, Published, Outstanding, SentTo;
    if steps != [] {
      StepSends(s, steps[0], id);
      RunSends(Apply(s, steps[0]), steps[1..], id);
    }
  }

  /** On every run, what was put into a subscription's channel and what the publisher still has to
      send to it is everything that was published to it, in order. Until its handler begins to
      leave, all of it has been taken out to be sent on, but for what is still in the channel. */
  lemma DeliveredInOrder(steps: seq<Step>, id: Id)
    requires IsRun(START, steps) && id in After(START, steps).subs
    ensures var t := After(START, steps);
      && t.subs[id].sent + Outstanding(t, id) == Due(START, steps, id)
      && t.subs[id].taken <= Due(START, steps, id) && |t.subs[id].buffer| <= CAPACITY
      && (t.subs[id].phase in {Receive, Send} ==>
            t.subs[id].taken + t.subs[id].buffer + Outstanding(t, id) == Due(START, steps, id))
  {
    RunKeeps(START, steps);
    RunSends(START, steps, id);
    hide IsRun, After, Due, Outstanding;
    assert SubInv(After(START, steps).subs[id]);
  }

  /** While a publisher holds the mutex the set of subscriptions does not change, so what it still
      has to send goes to subscriptions whose handler is there. */
  lemma PublisherKeepsSubscriptions(s: State, step: Step)
    requires Inv(s) && s.job.Some? && Enabled(s, step)
    ensures Apply(s, step).registered == s.registered
    ensures forall id | id in s.job.value.todo :: s.subs[id].phase != Gone
  {
    hide SubInv;
  }

  /** The publisher cannot go on: the channel it sends to is full. */
  ghost predicate Blocked(s: State, id: Id) {
    && s.job.Some? && s.job.value.todo != [] && s.job.value.todo[0] == id
    && id in s.subs && |s.subs[id].buffer| == CAPACITY
  }

  /** The step that empties the channel at once, if there is one. */
  function DrainStep(sub: Sub, id: Id): Option<Step> {
    if sub.receivers > 0 then Some(Drain(id)) else if sub.phase == Receive then Some(Take(id)) else None
  }

  /** How many steps a handler can make before a receiver is waiting on its channel for good. */
  function Distance(sub: Sub): nat {
    if sub.receivers > 0 then 0
    else match sub.phase
      case Send => 4
      case Receive => 3
      case Await => 3
      case Try => 2
      case _ => 1
  }

  /** A blocked publisher has a live handler on the other side that can make a step. */
  lemma BlockedHandlerLives(s: State, id: Id)
    requires Inv(s) && Blocked(s, id)
    ensures s.subs[id].phase != Gone
    ensures exists step :: IsHandler(step) && step.id == id && Enabled(s, step)
    ensures DrainStep(s.subs[id], id).Some? ==> Enabled(s, DrainStep(s.subs[id], id).value)
    ensures Distance(s.subs[id]) == 0 ==> DrainStep(s.subs[id], id) == Some(Drain(id))
  {
    assert id in s.job.value.todo;
    var step := match s.subs[id].phase
      case Receive => Take(id)
      case Send => Sent(id)
      case Spawn => Start(id)
      case Await => Timeout(id)
      case _ => Fail(id);
    assert IsHandler(step) && step.id == id && Enabled(s, step);
  }

  /** Whatever that handler does, it empties the channel or comes closer to doing so. Once a receiver
      waits on the channel it stays there until it has emptied it. No one else's step undoes this. */
  lemma BlockedGetsDrained(s: State, id: Id, step: Step)
    requires Inv(s) && Blocked(s, id) && Enabled(s, step)
    ensures var t := Apply(s, step);
      && id in t.subs
      && (IsHandler(step) && step.id == id ==>
            || t.subs[id].buffer == []
            || Distance(t.subs[id]) < Distance(s.subs[id])
            || (Distance(s.subs[id]) == 0 && t.subs[id].receivers > 0))
      && (!(IsHandler(step) && step.id == id) ==> t.subs[id] == s.subs[id] && Blocked(t, id))
      && (t.subs[id].buffer != [] ==> Blocked(t, id))
  {
    assert id in s.job.value.todo;
    hide Decode, Targets;
  }

  ghost function Moves(steps: seq<Step>, id: Id): nat {
    if steps == [] then 0 else (if IsHandler(steps[0]) && steps[0].id == id then 1 else 0) + Moves(steps[1..], id)
  }

  /** At some point of the run the channel is empty. */
  ghost predicate Emptied(s: State, steps: seq<Step>, id: Id)
    requires IsRun(s, steps)
    decreases |steps|
  {
    || (id in s.subs && s.subs[id].buffer == [])
    || (steps != [] && Emptied(Apply(s, steps[0]), steps[1..], id))
  }

  /** On every run on from a blocked state, once the handler on the other side has made a few steps,
      the channel has been emptied, or a receiver that will empty it is waiting and able to. */
  lemma {:induction false} BlockedRunDrains(s: State, id: Id, steps: seq<Step>)
    requires Inv(s) && IsRun(s, steps) && Blocked(s, id) && Moves(steps, id) >= Distance(s.subs[id])
    ensures Emptied(s, steps, id) || (Blocked(After(s, steps), id) && Enabled(After(s, steps), Drain(id)))
    decreases |steps|
  {
    hide Inv, Apply;
    if steps == [] {
      BlockedHandlerLives(s, id);
    } else {
      var t := Apply(s, steps[0]);
      BlockedGetsDrained(s, id, steps[0]);
      StepKeeps(s, steps[0]);
      if t.subs[id].buffer == [] {
        assert Emptied(t, steps[1..], id);
      } else {
        BlockedRunDrains(t, id, steps[1..]);
      }
    }
  }

  /** A publisher that is not blocked can go on; so publishing and leaving never lock each other up. */
  lemma PublisherGoesOn(s: State)
    requires Inv(s) && s.job.Some?
    ensures Enabled(s, Push) || Enabled(s, Finish) || exists id :: Blocked(s, id)
  {
    if s.job.value.todo != [] && !Enabled(s, Push) {
      var id := s.job.value.todo[0];
      assert SubInv(s.subs[id]);
      assert Blocked(s, id);
    }
  }
}
