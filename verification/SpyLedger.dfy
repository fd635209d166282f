/** The ledger of a subscription of the spy: where its handler is and what its channel holds can be read
    off the steps that were taken, and a handler that leaves can always come to its end. */
module SpyLedger {
  import opened Binary
  import opened Vaa
  import opened Spy

  function SubOf(s: State, id: Id): Option<Sub> { if id in s.subs then Some(s.subs[id]) else None }

  ghost function Times(steps: seq<Step>, step: Step): nat { multiset(steps)[step] }

  function One(b: bool): nat { if b then 1 else 0 }

  /** What the steps so far have made of subscription id: its filters are those it came with; its
      handler serves it until it leaves, and sends on what it takes, one message at a time; then it
      goes round its cleanup loop, each time starting a receiver, waiting for it and trying the
      mutex, until it is removed. */
  ghost predicate Booked(o: Option<Sub>, steps: seq<Step>, id: Id) {
    && (forall fs :: Register(id, fs) in steps <==> o.Some? && o.value.filters == fs)
    && (Leave(id) in steps <==> o.Some? && o.value.phase !in {Receive, Send})
    && (Remove(id) in steps <==> o.Some? && o.value.phase == Gone)
    && Times(steps, Take(id)) == (if o.Some? then |o.value.taken| else 0)
    && (o == None || o.value.phase == Receive ==> Times(steps, Take(id)) == Times(steps, Sent(id)))
    && (o.Some? && o.value.phase == Send ==> Times(steps, Take(id)) == Times(steps, Sent(id)) + 1)
    && Times(steps, Start(id)) == Times(steps, Drain(id)) + (if o.Some? then o.value.receivers else 0)
    && Times(steps, Start(id)) == Times(steps, Timeout(id)) + One(o.Some? && o.value.phase == Await)
    && Times(steps, Timeout(id)) ==
         Times(steps, Fail(id)) + One(o.Some? && o.value.phase == Try) + One(o.Some? && o.value.phase == Gone)
  }

  /** The step is one of the handler of id, or of a receiver that it has started. */
  predicate Own(step: Step, id: Id) { !step.Publish? && !step.Push? && !step.Finish? && step.id == id }

  lemma Added(steps: seq<Step>, step: Step)
    ensures forall x :: Times(steps + [step], x) == Times(steps, x) + One(x == step)
    ensures forall x :: x in steps + [step] <==> x in steps || x == step
  {
  }

  lemma BookedSame(o: Option<Sub>, o': Option<Sub>, steps: seq<Step>, step: Step, id: Id)
    requires Booked(o, steps, id) && !Own(step, id) && o.Some? == o'.Some?
    requires o.Some? ==> o'.value == o.value.(buffer := o'.value.buffer, sent := o'.value.sent)
    ensures Booked(o', steps + [step], id)
  {
    hide Times;
    Added(steps, step);
  }

  lemma BookedOwn(o: Option<Sub>, o': Option<Sub>, steps: seq<Step>, step: Step, id: Id)
    requires Booked(o, steps, id) && Own(step, id) && o'.Some? && (step.Register? <==> o == None)
    requires match step
      case Register(_, fs) => o'.value.filters == fs && o'.value.phase == Receive && o'.value.taken == []
        && o'.value.receivers == 0
      case Take(_) =>
        && o.value.phase == Receive && |o'.value.taken| == |o.value.taken| + 1
        && o'.value == o.value.(phase := Send, buffer := o'.value.buffer, taken := o'.value.taken)
      case Sent(_) => o.value.phase == Send && o'.value == o.value.(phase := Receive)
      case Leave(_) => o.value.phase in {Receive, Send} && o'.value == o.value.(phase := Spawn)
      case Start(_) =>
        o.value.phase == Spawn && o'.value == o.value.(phase := Await, receivers := o.value.receivers + 1)
      case Drain(_) =>
        && o.value.receivers > 0
        && o'.value == o.value.(buffer := o'.value.buffer, receivers := o.value.receivers - 1)
      case Timeout(_) => o.value.phase == Await && o'.value == o.value.(phase := Try)
      case Fail(_) => o.value.phase == Try && o'.value == o.value.(phase := Spawn)
      case Remove(_) => o.value.phase == Try && o'.value == o.value.(phase := Gone)
      case _ => true
    ensures Booked(o', steps + [step], id)
  {
    hide Times;
    Added(steps, step);
  }

  lemma BookedStep(s: State, steps: seq<Step>, step: Step, id: Id)
    requires Enabled(s, step) && Booked(SubOf(s, id), steps, id)
    ensures Booked(SubOf(Apply(s, step), id), steps + [step], id)
  {
    hide Booked, Targets, Times;
    var o, o' := SubOf(s, id), SubOf(Apply(s, step), id);
    if Own(step, id) {
      BookedOwn(o, o', steps, step, id);
    } else {
      BookedSame(o, o', steps, step, id);
    }
  }

  lemma {:induction false} LastOf(s: State, steps: seq<Step>)
    requires IsRun(s, steps) && steps != []
    ensures var n := |steps| - 1;
      && IsRun(s, steps[..n]) && Enabled(After(s, steps[..n]), steps[n])
      && After(s, steps) == Apply(After(s, steps[..n]), steps[n])
    decreases |steps|
  {
    hide Enabled, Apply;
    var n := |steps| - 1;
    if n > 0 {
      var rest := steps[1..];
      LastOf(Apply(s, steps[0]), rest);
      assert steps[..n][1..] == rest[..n - 1];
    }
  }

  /** So it is on every run, for every subscription. */
  lemma {:induction false} LedgerOnEveryRun(steps: seq<Step>, id: Id)
    requires IsRun(START, steps)
    ensures Booked(SubOf(After(START, steps), id), steps, id)
    ensures id in After(START, steps).registered <==>
      id in After(START, steps).subs && Remove(id) !in steps
  {
    RunKeeps(START, steps);
    if steps != [] {
      var n := |steps| - 1;
      LastOf(START, steps);
      hide Booked, Apply, Inv;
      LedgerOnEveryRun(steps[..n], id);
      assert steps == steps[..n] + [steps[n]];
      BookedStep(After(START, steps[..n]), steps[..n], steps[n], id);
    }
    RemovedExactly(steps, id);
  }

  lemma RemovedExactly(steps: seq<Step>, id: Id)
    requires IsRun(START, steps) && Inv(After(START, steps)) && Booked(SubOf(After(START, steps), id), steps, id)
    ensures id in After(START, steps).registered <==>
      id in After(START, steps).subs && Remove(id) !in steps
  {
    hide IsRun, After, Times;
  }

  /** A handler that is leaving gets away with at most three steps of its own once no publisher holds
      the mutex. */
  lemma LeavingEnds(s: State, id: Id) returns (steps: seq<Step>)
    requires s.job == None && id in s.subs && s.subs[id].phase in {Spawn, Await, Try}
    ensures |steps| <= 3 && (forall x | x in steps :: Own(x, id)) && IsRun(s, steps)
    ensures var t := After(s, steps); id in t.subs && t.subs[id].phase == Gone && t.registered == s.registered - {id}
  {
    steps := match s.subs[id].phase
      case Spawn => [Start(id), Timeout(id), Remove(id)]
      case Await => [Timeout(id), Remove(id)]
      case _ => [Remove(id)];
    var rest := [Timeout(id), Remove(id)];
    assert rest[1..] == [Remove(id)] && [Remove(id)][1..] == [] && [Start(id), Timeout(id), Remove(id)][1..] == rest;
    var s1 := if s.subs[id].phase == Spawn then Apply(s, Start(id)) else s;
    var s2 := if s1.subs[id].phase == Await then Apply(s1, Timeout(id)) else s1;
    var s3 := Apply(s2, Remove(id));
    assert IsRun(s3, []) && IsRun(s2, [Remove(id)]) && After(s2, [Remove(id)]) == s3;
    if s.subs[id].phase != Try {
      assert IsRun(s1, rest) && After(s1, rest) == s3;
    }
  }
}
