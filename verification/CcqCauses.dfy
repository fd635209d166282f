/** Why a client of the query server gets the reply it gets: each reply has the one step of the run
    that caused it, and where a handler stands can be read off the steps that were taken. */
module CcqCauses {
  import opened Binary
  import opened Vaa
  import opened Sorting
  import opened Ccq
  import opened CcqVerdict
  import opened CcqRuns

  /** Another handler with the same signature is between its registration and its removal. */
  ghost predicate TakenBy(s: State, g: HandlerId, h: HandlerId) {
    && g != h && g in s.handlers && h in s.handlers
    && InFlight(s.handlers[g].phase) && s.handlers[g].req.signature == s.handlers[h].req.signature
  }

  /** The listener has a response for handler h, which waits for it. */
  ghost predicate Delivers(s: State, step: Step, h: HandlerId) {
    && step == Handle && s.turn.Holding? && s.turn.h == h && PhaseOf(s, h) == Some(Waiting)
  }

  ghost function EffectOn(net: Net, s: State, h: HandlerId): Effect
    requires s.turn.Holding? && h in s.handlers
  {
    Process(net, s.responses, s.turn.m, s.handlers[h].req).1
  }

  /** The step makes handler h write r to its client. */
  ghost predicate Causes(net: Net, s: State, step: Step, h: HandlerId, r: Reply) {
    match r
    case Duplicate => step == Add(h) && exists g :: TakenBy(s, g, h)
    case PublishFailed => step == Publish(h, false)
    case TimedOut => step == Timeout(h) && PhaseOf(s, h) == Some(Waiting)
    case Unmet => Delivers(s, step, h) && EffectOn(net, s, h) == QuorumNotMet
    case MarshalFailed =>
      Delivers(s, step, h) && EffectOn(net, s, h).Forward? && net.remarshal(s.turn.m.response) == None
    case Result(response, signatures) =>
      && Delivers(s, step, h) && EffectOn(net, s, h).Forward? && net.remarshal(s.turn.m.response) == Some(response)
      && signatures == ForClient(EffectOn(net, s, h).signatures)
  }

  lemma StepReplies(net: Net, s: State, step: Step, h: HandlerId, r: Reply)
    requires PendingExact(s) && Enabled(net, s, step)
    ensures (h, r) in Apply(net, s, step).replies <==> (h, r) in s.replies || Causes(net, s, step, h, r)
  {
    hide Process, ForClient;
    if step.Add? {
      TakenExactly(s, step.h);
    }
  }

  lemma TakenExactly(s: State, h: HandlerId)
    requires PendingExact(s) && PhaseOf(s, h) == Some(Fresh)
    ensures s.handlers[h].req.signature in s.pending <==> exists g :: TakenBy(s, g, h)
  {
    var sig := s.handlers[h].req.signature;
    if sig in s.pending {
      assert TakenBy(s, s.pending[sig], h);
    }
  }

  /** At step k of the run handler h writes r to its client. */
  ghost predicate CausedAt(net: Net, steps: seq<Step>, k: int, h: HandlerId, r: Reply) {
    && 0 <= k < |steps| && IsRun(net, Init(), steps[..k])
    && Causes(net, After(net, Init(), steps[..k]), steps[k], h, r)
  }

  /** On every run a client has a reply exactly if a step of the run caused it. */
  lemma {:induction false} RepliesHaveCauses(net: Net, steps: seq<Step>, h: HandlerId, r: Reply)
    requires IsRun(net, Init(), steps)
    ensures (h, r) in After(net, Init(), steps).replies <==> exists k :: CausedAt(net, steps, k, h, r)
  {
    hide Apply, Enabled, Causes, CausedAt, Inv;
    if steps == [] {
      NothingCaused(net, h, r);
    } else {
      var n := |steps| - 1;
      LastStep(net, Init(), steps);
      hide IsRun, After;
      InitInv(net);
      RunKeeps(net, Init(), steps[..n]);
      InvPending(net, After(net, Init(), steps[..n]));
      RepliesHaveCauses(net, steps[..n], h, r);
      StepReplies(net, After(net, Init(), steps[..n]), steps[n], h, r);
      CausedBefore(net, steps, h, r);
    }
  }

  lemma NothingCaused(net: Net, h: HandlerId, r: Reply)
    ensures (h, r) !in Init().replies && !exists k :: CausedAt(net, [], k, h, r)
  {
    hide Causes;
  }

  lemma InitInv(net: Net)
    ensures Inv(net, Init())
  {
  }

  lemma InvPending(net: Net, s: State)
    requires Inv(net, s)
    ensures PendingExact(s) && RepliesExact(s)
  {
    hide PendingExact, RepliesExact, ResultsGood, Gathering;
  }

  lemma CausedBefore(net: Net, steps: seq<Step>, h: HandlerId, r: Reply)
    requires steps != [] && IsRun(net, Init(), steps[..|steps| - 1])
    ensures var n := |steps| - 1;
      (exists k :: CausedAt(net, steps, k, h, r)) <==>
        || (exists k :: CausedAt(net, steps[..n], k, h, r))
        || Causes(net, After(net, Init(), steps[..n]), steps[n], h, r)
  {
    hide IsRun, After, Causes;
    var n := |steps| - 1;
    forall k | 0 <= k < n
      ensures CausedAt(net, steps[..n], k, h, r) <==> CausedAt(net, steps, k, h, r)
    {
      assert steps[..n][..k] == steps[..k];
    }
    assert CausedAt(net, steps, n, h, r) <==> Causes(net, After(net, Init(), steps[..n]), steps[n], h, r);
    assert forall k | CausedAt(net, steps, k, h, r) :: k == n || CausedAt(net, steps[..n], k, h, r);
    assert forall k | CausedAt(net, steps[..n], k, h, r) :: CausedAt(net, steps, k, h, r);
  }

  // ---------------------------------------------------------------- where a handler stands

  function HandlerOf(s: State, h: HandlerId): Option<Handler> {
    if h in s.handlers then Some(s.handlers[h]) else None
  }

  /** The handler has written r. */
  predicate Wrote(o: Option<Handler>, r: Reply) { o.Some? && Replied(o.value.phase, r) }

  /** It has written what only a handler that waited writes. */
  predicate WroteAfterWaiting(p: Phase) {
    (p.Answered? || p.Finished?) && p.reply != Duplicate && p.reply != PublishFailed
  }

  /** The steps of handler h that were taken so far are those that its phase tells of. */
  ghost predicate Told(o: Option<Handler>, steps: seq<Step>, h: HandlerId) {
    && (forall req :: Arrive(h, req) in steps <==> o.Some? && o.value.req == req)
    && (Add(h) in steps <==> o.Some? && o.value.phase != Fresh)
    && (Publish(h, true) in steps <==> o.Some? && (o.value.phase == Waiting || WroteAfterWaiting(o.value.phase)))
    && (Publish(h, false) in steps <==> Wrote(o, PublishFailed))
    && (Timeout(h) in steps <==> Wrote(o, TimedOut))
    && (Remove(h) in steps <==> o.Some? && o.value.phase.Finished? && o.value.phase.reply != Duplicate)
    && (o.Some? ==> o.value.phase != Answered(Duplicate))
  }

  /** The step is one of handler h itself. */
  predicate Own(step: Step, h: HandlerId) { !step.Get? && !step.Handle? && step.h == h }

  lemma Later(steps: seq<Step>, step: Step)
    ensures forall x :: x in steps + [step] <==> x in steps || x == step
  {
  }

  lemma ToldSame(o: Option<Handler>, steps: seq<Step>, step: Step, h: HandlerId)
    requires Told(o, steps, h) && !Own(step, h)
    ensures Told(o, steps + [step], h)
  {
    Later(steps, step);
  }

  lemma ToldDelivery(o: Option<Handler>, steps: seq<Step>, h: HandlerId, r: Reply)
    requires Told(o, steps, h) && o.Some? && o.value.phase == Waiting
    requires r.Unmet? || r.MarshalFailed? || r.Result?
    ensures Told(Some(o.value.(phase := Answered(r))), steps + [Handle], h)
  {
    Later(steps, Handle);
  }

  lemma ToldOwn(o: Option<Handler>, steps: seq<Step>, step: Step, h: HandlerId, o': Option<Handler>)
    requires Told(o, steps, h) && Own(step, h)
    requires match step
      case Arrive(_, req) => o == None && o' == Some(Handler(req, Fresh))
      case Add(_) =>
        o.Some? && o.value.phase == Fresh && (o' == Some(o.value.(phase := Posting)) ||
          o' == Some(o.value.(phase := Finished(Duplicate))))
      case Publish(_, ok) =>
        && o.Some? && o.value.phase == Posting
        && o' == Some(o.value.(phase := if ok then Waiting else Answered(PublishFailed)))
      case Timeout(_) => o.Some? && o.value.phase == Waiting && o' == Some(o.value.(phase := Answered(TimedOut)))
      case Remove(_) =>
        o.Some? && o.value.phase.Answered? && o' == Some(o.value.(phase := Finished(o.value.phase.reply)))
      case _ => true
    ensures Told(o', steps + [step], h)
  {
    Later(steps, step);
  }

  lemma ToldStep(net: Net, s: State, steps: seq<Step>, step: Step, h: HandlerId)
    requires Enabled(net, s, step) && Told(HandlerOf(s, h), steps, h)
    ensures Told(HandlerOf(Apply(net, s, step), h), steps + [step], h)
  {
    hide Process, ForClient, Told;
    var o, o' := HandlerOf(s, h), HandlerOf(Apply(net, s, step), h);
    if Own(step, h) {
      ToldOwn(o, steps, step, h, o');
    } else if o' == o {
      ToldSame(o, steps, step, h);
    } else {
      assert step.Handle?;
      ToldDelivery(o, steps, h, o'.value.phase.reply);
    }
  }

  lemma {:induction false} ToldOnEveryRun(net: Net, steps: seq<Step>, h: HandlerId)
    requires IsRun(net, Init(), steps)
    ensures Told(HandlerOf(After(net, Init(), steps), h), steps, h)
  {
    if steps != [] {
      var n := |steps| - 1;
      LastStep(net, Init(), steps);
      hide Told, Apply;
      ToldOnEveryRun(net, steps[..n], h);
      assert steps == steps[..n] + [steps[n]];
      ToldStep(net, After(net, Init(), steps[..n]), steps[..n], steps[n], h);
    }
  }

  /** The run up to step k, and then step k. */
  lemma {:induction false} StepAt(net: Net, steps: seq<Step>, k: nat)
    requires IsRun(net, Init(), steps) && k < |steps|
    ensures IsRun(net, Init(), steps[..k]) && IsRun(net, Init(), steps[..k + 1])
    ensures Enabled(net, After(net, Init(), steps[..k]), steps[k])
    ensures After(net, Init(), steps[..k + 1]) == Apply(net, After(net, Init(), steps[..k]), steps[k])
    decreases |steps|
  {
    hide IsRun, After, Enabled, Apply;
    LastStep(net, Init(), steps);
    if k == |steps| - 1 {
      assert steps[..k + 1] == steps;
    } else {
      var front := steps[..|steps| - 1];
      StepAt(net, front, k);
      assert front[..k] == steps[..k] && front[..k + 1] == steps[..k + 1];
    }
  }

  /** After the first k steps handler h is waiting. */
  ghost predicate WaitingAt(net: Net, steps: seq<Step>, k: int, h: HandlerId) {
    && 0 <= k <= |steps| && IsRun(net, Init(), steps[..k])
    && PhaseOf(After(net, Init(), steps[..k]), h) == Some(Waiting)
  }

  /** A handler has been waiting exactly if the run has posted its request. */
  lemma WaitedExactly(net: Net, steps: seq<Step>, h: HandlerId)
    requires IsRun(net, Init(), steps)
    ensures (exists k :: WaitingAt(net, steps, k, h)) <==> Publish(h, true) in steps
  {
    hide IsRun, After;
    if Publish(h, true) in steps {
      var k :| 0 <= k < |steps| && steps[k] == Publish(h, true);
      StepAt(net, steps, k);
      assert WaitingAt(net, steps, k + 1, h);
    }
    if exists k :: WaitingAt(net, steps, k, h) {
      var k :| WaitingAt(net, steps, k, h);
      ToldOnEveryRun(net, steps[..k], h);
      assert Publish(h, true) in steps[..k];
    }
  }

  /** Step k registers handler h while another handler with its signature is in flight. */
  ghost predicate TakenAt(net: Net, steps: seq<Step>, k: int, h: HandlerId) {
    && 0 <= k < |steps| && steps[k] == Add(h) && IsRun(net, Init(), steps[..k])
    && exists g :: TakenBy(After(net, Init(), steps[..k]), g, h)
  }

  lemma TakenIsCaused(net: Net, steps: seq<Step>, k: int, h: HandlerId)
    ensures TakenAt(net, steps, k, h) <==> CausedAt(net, steps, k, h, Duplicate)
  {
    hide IsRun, After, TakenBy;
  }

  /** What a run tells its clients. A client is told that publishing failed exactly if it did, that its
      request timed out exactly if its handler's timer ran out, which it can only do while it waits,
      and that the request is a duplicate exactly if another handler with the same signature was in
      flight when it registered. A handler has finished exactly if it has unregistered or was told
      that it is a duplicate, and it answers the request that it came with. */
  lemma StepsTellReplies(net: Net, steps: seq<Step>, h: HandlerId)
    requires IsRun(net, Init(), steps)
    ensures var s := After(net, Init(), steps);
      && ((h, PublishFailed) in s.replies <==> Publish(h, false) in steps)
      && ((h, TimedOut) in s.replies <==> Timeout(h) in steps)
      && ((h, Duplicate) in s.replies <==> exists k :: TakenAt(net, steps, k, h))
      && (forall req :: Arrive(h, req) in steps <==> h in s.handlers && s.handlers[h].req == req)
      && (PhaseOf(s, h) == Some(Posting) <==>
           && Add(h) in steps && Publish(h, true) !in steps && Publish(h, false) !in steps
           && !exists k :: TakenAt(net, steps, k, h))
      && (h in s.handlers && s.handlers[h].phase.Finished? <==>
           Remove(h) in steps || exists k :: TakenAt(net, steps, k, h))
    ensures forall k | 0 <= k < |steps| && steps[k] == Timeout(h) :: WaitingAt(net, steps, k, h)
  {
    hide IsRun, After, Inv, TakenAt, CausedAt;
    var s := After(net, Init(), steps);
    ToldOnEveryRun(net, steps, h);
    RepliesHaveCauses(net, steps, h, Duplicate);
    InitInv(net);
    RunKeeps(net, Init(), steps);
    InvPending(net, s);
    forall k
      ensures TakenAt(net, steps, k, h) <==> CausedAt(net, steps, k, h, Duplicate)
    {
      TakenIsCaused(net, steps, k, h);
    }
    forall r
      ensures (h, r) in s.replies <==> Wrote(HandlerOf(s, h), r)
    {
      WroteExactly(s, h, r);
    }
    forall k | 0 <= k < |steps| && steps[k] == Timeout(h)
      ensures WaitingAt(net, steps, k, h)
    {
      StepAt(net, steps, k);
    }
    assert Wrote(HandlerOf(s, h), Duplicate) <==> PhaseOf(s, h) == Some(Finished(Duplicate));
  }

  lemma WroteExactly(s: State, h: HandlerId, r: Reply)
    requires RepliesExact(s)
    ensures (h, r) in s.replies <==> Wrote(HandlerOf(s, h), r)
  {
  }
}
