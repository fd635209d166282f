/** What the listener has counted for a request: on every run, the answers that were delivered for it
    since it last came to a verdict. */
module CcqTally {
  import opened Binary
  import opened Vaa
  import opened Sorting
  import opened Ccq
  import opened CcqVerdict
  import opened CcqRuns
  import opened CcqCauses

  /** The listener is about to handle a response to the request that it looked up, sig. */
  ghost predicate HandlesFor(s: State, step: Step, sig: seq<byte>) {
    step == Handle && s.turn.Holding? && s.turn.h in s.handlers && s.handlers[s.turn.h].req.signature == sig
  }

  /** The step counts the answer d of guardian i to the request sig. */
  ghost predicate Counts(net: Net, s: State, step: Step, sig: seq<byte>, d: Digest, i: nat) {
    && HandlesFor(s, step, sig) && net.parse(s.turn.m.response) == Some(s.handlers[s.turn.h].req)
    && net.digest(s.turn.m.response) == d && SignerOf(net, s.turn.m) == i
  }

  /** The step brings the request sig to a verdict. */
  ghost predicate Closes(net: Net, s: State, step: Step, sig: seq<byte>) {
    HandlesFor(s, step, sig) && (EffectOn(net, s, s.turn.h).Forward? || EffectOn(net, s, s.turn.h).QuorumNotMet?)
  }

  /** The answer d of guardian i to the request sig is on the tally. */
  ghost predicate Tallied(s: State, sig: seq<byte>, d: Digest, i: nat) {
    sig in s.responses && d in s.responses[sig] && Holds(s.responses[sig][d], i)
  }

  lemma GrownHolds(net: Net, responses: map<seq<byte>, Buckets>, m: Gossip, req: Request, d: Digest, i: nat)
    requires SignerOf(net, m) != -1
    ensures var b, was := Grown(net, responses, m, req), Held(responses, req);
      (d in b && Holds(b[d], i)) <==>
        (d in was && Holds(was[d], i)) || (net.digest(m.response) == d && SignerOf(net, m) == i)
  {
    hide SignerOf;
    var b, was := Grown(net, responses, m, req), Held(responses, req);
    var e := net.digest(m.response);
    var added := b[e][|b[e]| - 1];
    assert b[e] == BucketOf(was, e) + [added] && added.index == SignerOf(net, m);
    assert forall g :: g in b[e] <==> g in BucketOf(was, e) || g == added;
    if d == e && i == added.index {
      assert added in b[d];
    }
  }

  lemma HoldsNone(i: nat)
    ensures !Holds([], i)
  {
  }

  lemma StepTallies(net: Net, s: State, step: Step, sig: seq<byte>, d: Digest, i: nat)
    requires Enabled(net, s, step)
    ensures Tallied(Apply(net, s, step), sig, d, i) <==>
      !Closes(net, s, step, sig) && (Tallied(s, sig, d, i) || Counts(net, s, step, sig, d, i))
  {
    hide SignerOf, Hopeless, Holds, Grown, Quorum;
    if step.Handle? {
      var m, req := s.turn.m, s.handlers[s.turn.h].req;
      if SignerOf(net, m) != -1 {
        GrownHolds(net, s.responses, m, req, d, i);
      }
      HoldsNone(i);
      assert Apply(net, s, step).responses == Process(net, s.responses, m, req).0;
    }
  }

  ghost predicate CountsAt(net: Net, steps: seq<Step>, k: int, sig: seq<byte>, d: Digest, i: nat) {
    && 0 <= k < |steps| && IsRun(net, Init(), steps[..k])
    && Counts(net, After(net, Init(), steps[..k]), steps[k], sig, d, i)
  }

  ghost predicate ClosesAt(net: Net, steps: seq<Step>, k: int, sig: seq<byte>) {
    && 0 <= k < |steps| && IsRun(net, Init(), steps[..k])
    && Closes(net, After(net, Init(), steps[..k]), steps[k], sig)
  }

  /** Step k counts the answer, and no step from there on brings the request to a verdict. */
  ghost predicate StandsFrom(net: Net, steps: seq<Step>, k: int, sig: seq<byte>, d: Digest, i: nat) {
    CountsAt(net, steps, k, sig, d, i) && forall l | k <= l < |steps| :: !ClosesAt(net, steps, l, sig)
  }

  lemma StandsBefore(net: Net, steps: seq<Step>, sig: seq<byte>, d: Digest, i: nat)
    requires steps != [] && IsRun(net, Init(), steps[..|steps| - 1])
    ensures var n := |steps| - 1;
      (exists k :: StandsFrom(net, steps, k, sig, d, i)) <==>
        && !ClosesAt(net, steps, n, sig)
        && (CountsAt(net, steps, n, sig, d, i) || exists k :: StandsFrom(net, steps[..n], k, sig, d, i))
  {
    hide IsRun, After, Counts, Closes;
    var n := |steps| - 1;
    var front := steps[..n];
    forall k | 0 <= k < n
      ensures CountsAt(net, front, k, sig, d, i) <==> CountsAt(net, steps, k, sig, d, i)
      ensures ClosesAt(net, front, k, sig) <==> ClosesAt(net, steps, k, sig)
    {
      assert front[..k] == steps[..k];
    }
    forall k | StandsFrom(net, front, k, sig, d, i) && !ClosesAt(net, steps, n, sig)
      ensures StandsFrom(net, steps, k, sig, d, i)
    {
    }
    forall k | StandsFrom(net, steps, k, sig, d, i) && k < n
      ensures StandsFrom(net, front, k, sig, d, i)
    {
    }
    assert CountsAt(net, steps, n, sig, d, i) && !ClosesAt(net, steps, n, sig) ==>
      StandsFrom(net, steps, n, sig, d, i);
    assert forall k | StandsFrom(net, steps, k, sig, d, i) :: !ClosesAt(net, steps, n, sig);
  }

  /** On every run, the tally of a request is made up exactly of the answers that were delivered for it
      since the last verdict on it; a verdict clears it, and nothing else does. */
  lemma {:induction false} TallyOnEveryRun(net: Net, steps: seq<Step>, sig: seq<byte>, d: Digest, i: nat)
    requires IsRun(net, Init(), steps)
    ensures Tallied(After(net, Init(), steps), sig, d, i) <==> exists k :: StandsFrom(net, steps, k, sig, d, i)
  {
    hide Apply, Enabled, StandsFrom, CountsAt, ClosesAt, Counts, Closes, Tallied;
    if steps == [] {
      NothingTallied(net, sig, d, i);
    } else {
      var n := |steps| - 1;
      LastStep(net, Init(), steps);
      hide IsRun, After;
      TallyOnEveryRun(net, steps[..n], sig, d, i);
      StepTallies(net, After(net, Init(), steps[..n]), steps[n], sig, d, i);
      StandsBefore(net, steps, sig, d, i);
      AtLast(net, steps, sig, d, i);
    }
  }

  lemma AtLast(net: Net, steps: seq<Step>, sig: seq<byte>, d: Digest, i: nat)
    requires steps != [] && IsRun(net, Init(), steps[..|steps| - 1])
    ensures var n := |steps| - 1;
      var s := After(net, Init(), steps[..n]);
      && (CountsAt(net, steps, n, sig, d, i) <==> Counts(net, s, steps[n], sig, d, i))
      && (ClosesAt(net, steps, n, sig) <==> Closes(net, s, steps[n], sig))
  {
    hide IsRun, After, Counts, Closes;
  }

  lemma NothingTallied(net: Net, sig: seq<byte>, d: Digest, i: nat)
    ensures !Tallied(Init(), sig, d, i) && !exists k :: StandsFrom(net, [], k, sig, d, i)
  {
    hide Counts, Closes;
  }
}
