/** Whole runs of the query server: HTTP handlers and the gossip listener interleave freely
    over the pending map, the response buckets and the handlers' channels. */
module CcqRuns {
  import opened Binary
  import opened Vaa
  import opened Sorting
  import opened Ccq
  import opened CcqVerdict
  import opened Resign

  type HandlerId = nat

  // ---------------------------------------------------------------- the map of pending requests

  type Pending = map<seq<byte>, HandlerId>

  function AddTo(p: Pending, signature: seq<byte>, h: HandlerId): (Pending, bool) {
    if signature in p then (p, false) else (p[signature := h], true)
  }

  function Lookup(p: Pending, signature: seq<byte>): Option<HandlerId> {
    if signature in p then Some(p[signature]) else None
  }

  function RemoveFrom(p: Pending, signature: seq<byte>): Pending { p - {signature} }

  /** The mutex-guarded map; each method is one atomic step of a run. */
  class PendingResponses {
    var entries: Pending

    constructor ()
      ensures entries == map[]
    {
      entries := map[];
    }

    method Add(signature: seq<byte>, h: HandlerId) returns (added: bool)
      modifies this
      ensures (entries, added) == AddTo(old(entries), signature, h)
    {
      if signature in entries { return false; }
      entries := entries[signature := h];
      return true;
    }

    method Get(signature: seq<byte>) returns (r: Option<HandlerId>)
      ensures r == Lookup(entries, signature)
    {
      if signature in entries { return Some(entries[signature]); }
      return None;
    }

    method Remove(signature: seq<byte>)
      modifies this
      ensures entries == RemoveFrom(old(entries), signature)
    {
      entries := entries - {signature};
    }
  }

  // ---------------------------------------------------------------- states and steps

  /** What a handler writes to its client. */
  datatype Reply =
    | Duplicate | PublishFailed | TimedOut | Unmet | MarshalFailed
    | Result(response: seq<byte>, signatures: seq<Signature>)

  /** A handler registers, posts its request, waits, answers, and unregisters. */
  datatype Phase = Fresh | Posting | Waiting | Answered(reply: Reply) | Finished(reply: Reply)

  datatype Handler = Handler(req: Request, phase: Phase)

  /** The listener looks the request up and later writes to the handler it found. */
  datatype Turn = Idle | Holding(m: Gossip, h: HandlerId)

  datatype State = State(
    handlers: map<HandlerId, Handler>,
    pending: Pending,
    responses: map<seq<byte>, Buckets>,
    turn: Turn,
    replies: seq<(HandlerId, Reply)>)

  datatype Step =
    | Arrive(h: HandlerId, req: Request)
    | Add(h: HandlerId)
    | Publish(h: HandlerId, ok: bool)
    | Timeout(h: HandlerId)
    | Remove(h: HandlerId)
    | Get(m: Gossip)
    | Handle

  function Init(): State { State(map[], map[], map[], Idle, []) }

  function PhaseOf(s: State, h: HandlerId): Option<Phase> {
    if h in s.handlers then Some(s.handlers[h].phase) else None
  }

  predicate Enabled(net: Net, s: State, step: Step) {
    match step
    case Arrive(h, _) => h !in s.handlers
    case Add(h) => PhaseOf(s, h) == Some(Fresh)
    case Publish(h, _) => PhaseOf(s, h) == Some(Posting)
    case Timeout(h) => PhaseOf(s, h) == Some(Waiting)
    case Remove(h) => PhaseOf(s, h).Some? && PhaseOf(s, h).value.Answered?
    case Get(m) => s.turn.Idle?
    case Handle => s.turn.Holding? && s.turn.h in s.handlers
  }

  function SetPhase(s: State, h: HandlerId, p: Phase): State
    requires h in s.handlers
  {
    s.(handlers := s.handlers[h := s.handlers[h].(phase := p)])
  }

  function Answer(s: State, h: HandlerId, r: Reply): State
    requires h in s.handlers
  {
    SetPhase(s, h, Answered(r)).(replies := s.replies + [(h, r)])
  }

  /** The client's channel takes a message only while its handler waits; otherwise it is dropped. */
  function Offer(s: State, h: HandlerId, r: Reply): State
    requires h in s.handlers
  {
    if s.handlers[h].phase == Waiting then Answer(s, h, r) else s
  }

  /** The handler writes the response it decoded, which need not be the bytes that were signed. */
  function Written(net: Net, m: Gossip, sigs: seq<GuardianSignature>): Reply {
    match net.remarshal(m.response)
    case Some(b) => Result(b, ForClient(sigs))
    case None => MarshalFailed
  }

  ghost function Apply(net: Net, s: State, step: Step): State
    requires Enabled(net, s, step)
  {
    match step
    case Arrive(h, req) => s.(handlers := s.handlers[h := Handler(req, Fresh)])
    case Add(h) =>
      var (pending', added) := AddTo(s.pending, s.handlers[h].req.signature, h);
      if added then SetPhase(s, h, Posting).(pending := pending')
      else SetPhase(s, h, Finished(Duplicate)).(replies := s.replies + [(h, Duplicate)])
    case Publish(h, ok) => if ok then SetPhase(s, h, Waiting) else Answer(s, h, PublishFailed)
    case Timeout(h) => Answer(s, h, TimedOut)
    case Remove(h) =>
      SetPhase(s, h, Finished(s.handlers[h].phase.reply)).(
        pending := RemoveFrom(s.pending, s.handlers[h].req.signature))
    case Get(m) =>
      var r := net.parse(m.response);
      if r.None? then s
      else (match Lookup(s.pending, r.value.signature) case Some(h) => s.(turn := Holding(m, h)) case None => s)
    case Handle =>
      var m, h := s.turn.m, s.turn.h;
      var (responses', e) := Process(net, s.responses, m, s.handlers[h].req);
      var s' := s.(responses := responses', turn := Idle);
      match e
      case Forward(sigs) => Offer(s', h, Written(net, m, sigs))
      case QuorumNotMet => Offer(s', h, Unmet)
      case _ => s'
  }

  // ---------------------------------------------------------------- invariant

  predicate InFlight(p: Phase) { p.Posting? || p.Waiting? || p.Answered? }

  predicate Replied(p: Phase, r: Reply) { p == Answered(r) || p == Finished(r) }

  /** The pending map holds exactly the handlers between their Add and their Remove. */
  ghost predicate PendingExact(s: State) {
    && (forall sig | sig in s.pending ::
          && s.pending[sig] in s.handlers
          && InFlight(s.handlers[s.pending[sig]].phase)
          && s.handlers[s.pending[sig]].req.signature == sig)
    && (forall h | h in s.handlers && InFlight(s.handlers[h].phase) ::
          s.handlers[h].req.signature in s.pending && s.pending[s.handlers[h].req.signature] == h)
  }

  predicate OtherHandler(a: (HandlerId, Reply), b: (HandlerId, Reply)) { a.0 != b.0 }

  /** Each handler has replied once or not at all, and its phase says which. */
  ghost predicate RepliesExact(s: State) {
    && Pairwise(s.replies, OtherHandler)
    && (forall h, r | (h, r) in s.replies :: h in s.handlers && Replied(s.handlers[h].phase, r))
    && (forall h, r | h in s.handlers && Replied(s.handlers[h].phase, r) :: (h, r) in s.replies)
  }

  /** The response is what a gossiped answer to req decodes to, and the signatures are exactly a
      quorum and verify over the gossiped bytes unless an index overflows a byte. */
  ghost predicate Certified(net: Net, req: Request, gossiped: seq<byte>, r: Reply)
    requires r.Result?
  {
    && net.parse(gossiped) == Some(req)
    && net.remarshal(gossiped) == Some(r.response)
    && |r.signatures| == Quorum(net)
    && (|net.keys| <= 256 ==> ValidSignatures(net.c, net.digest(gossiped), r.signatures, net.keys))
  }

  ghost predicate GoodResult(net: Net, req: Request, r: Reply) {
    r.Result? ==> exists gossiped :: Certified(net, req, gossiped, r)
  }

  ghost predicate ResultsGood(net: Net, s: State) {
    forall h, r | h in s.handlers && Replied(s.handlers[h].phase, r) :: GoodResult(net, s.handlers[h].req, r)
  }

  /** What holds of the handlers, the pending map and the replies. */
  ghost predicate Core(net: Net, s: State) {
    PendingExact(s) && RepliesExact(s) && ResultsGood(net, s)
  }

  ghost predicate Inv(net: Net, s: State) {
    && Core(net, s)
    && Gathering(net, s.responses)
    && (s.turn.Holding? ==> s.turn.h in s.handlers)
  }

  lemma ArriveKeeps(net: Net, s: State, h: HandlerId, req: Request)
    requires Core(net, s) && h !in s.handlers
    ensures Core(net, s.(handlers := s.handlers[h := Handler(req, Fresh)]))
  {
  }

  lemma AnswerKeeps(net: Net, s: State, h: HandlerId, r: Reply)
    requires Core(net, s) && h in s.handlers && (s.handlers[h].phase.Posting? || s.handlers[h].phase.Waiting?)
    requires GoodResult(net, s.handlers[h].req, r)
    ensures Core(net, Answer(s, h, r))
  {
    AnswerPending(s, h, r);
    AnswerReplies(s, h, r);
    hide PendingExact, RepliesExact, GoodResult;
  }

  lemma AnswerPending(s: State, h: HandlerId, r: Reply)
    requires PendingExact(s) && h in s.handlers && (s.handlers[h].phase.Posting? || s.handlers[h].phase.Waiting?)
    ensures PendingExact(Answer(s, h, r))
  {
  }

  lemma AnswerReplies(s: State, h: HandlerId, r: Reply)
    requires RepliesExact(s) && h in s.handlers && (s.handlers[h].phase.Posting? || s.handlers[h].phase.Waiting?)
    ensures RepliesExact(Answer(s, h, r))
  {
    assert forall x | x in s.replies :: OtherHandler(x, (h, r));
  }

  lemma RegisterKeeps(net: Net, s: State, h: HandlerId)
    requires Core(net, s) && PhaseOf(s, h) == Some(Fresh) && s.handlers[h].req.signature !in s.pending
    ensures Core(net, SetPhase(s, h, Posting).(pending := s.pending[s.handlers[h].req.signature := h]))
  {
  }

  lemma DuplicateKeeps(net: Net, s: State, h: HandlerId)
    requires Core(net, s) && PhaseOf(s, h) == Some(Fresh)
    ensures Core(net, SetPhase(s, h, Finished(Duplicate)).(replies := s.replies + [(h, Duplicate)]))
  {
    assert GoodResult(net, s.handlers[h].req, Duplicate);
    hide GoodResult;
    assert forall x | x in s.replies :: OtherHandler(x, (h, Duplicate));
  }

  lemma PostedKeeps(net: Net, s: State, h: HandlerId)
    requires Core(net, s) && PhaseOf(s, h) == Some(Posting)
    ensures Core(net, SetPhase(s, h, Waiting))
  {
  }

  lemma RemoveKeeps(net: Net, s: State, h: HandlerId)
    requires Core(net, s) && Enabled(net, s, Remove(h))
    ensures Core(net, Apply(net, s, Remove(h)))
  {
  }

  lemma GoodResultFromForward(net: Net, m: Gossip, req: Request, sigs: seq<GuardianSignature>)
    requires Backing(net, net.digest(m.response), sigs) && |sigs| == Quorum(net) && net.parse(m.response) == Some(req)
    ensures GoodResult(net, req, Written(net, m, sigs))
  {
    ClientSignaturesValid(net, net.digest(m.response), sigs);
    assert forall g | g in sigs :: Genuine(net, net.digest(m.response), g);
    if net.remarshal(m.response).Some? {
      assert Certified(net, req, m.response, Written(net, m, sigs));
    }
  }

  lemma HandleKeeps(net: Net, s: State)
    requires Inv(net, s) && Enabled(net, s, Handle)
    ensures Inv(net, Apply(net, s, Handle))
  {
    var m, h := s.turn.m, s.turn.h;
    var req := s.handlers[h].req;
    ProcessKeeps(net, s.responses, m, req);
    var (responses', e) := Process(net, s.responses, m, req);
    var s' := s.(responses := responses', turn := Idle);
    assert Core(net, s');
    if e.Forward? {
      GoodResultFromForward(net, m, req, e.signatures);
    }
    if s.handlers[h].phase == Waiting {
      if e.Forward? {
        AnswerKeeps(net, s', h, Written(net, m, e.signatures));
      } else if e.QuorumNotMet? {
        AnswerKeeps(net, s', h, Unmet);
      }
    }
  }

  /** Every step keeps the invariant. */
  lemma StepKeeps(net: Net, s: State, step: Step)
    requires Inv(net, s) && Enabled(net, s, step)
    ensures Inv(net, Apply(net, s, step))
  {
    match step
    case Arrive(h, req) => ArriveKeeps(net, s, h, req);
    case Add(h) => if s.handlers[h].req.signature in s.pending { DuplicateKeeps(net, s, h);
      } else { RegisterKeeps(net, s, h); }
    case Publish(h, ok) => if ok { PostedKeeps(net, s, h); } else { AnswerKeeps(net, s, h, PublishFailed); }
    case Timeout(h) => AnswerKeeps(net, s, h, TimedOut);
    case Remove(h) => RemoveKeeps(net, s, h);
    case Get(m) =>
    case Handle => HandleKeeps(net, s);
  }

  /** A run is a sequence of steps, each enabled where it is taken. */
  ghost predicate IsRun(net: Net, s: State, steps: seq<Step>)
    decreases |steps|
  {
    steps == [] || (Enabled(net, s, steps[0]) && IsRun(net, Apply(net, s, steps[0]), steps[1..]))
  }

  ghost function After(net: Net, s: State, steps: seq<Step>): State
    requires IsRun(net, s, steps)
    decreases |steps|
  {
    if steps == [] then s else After(net, Apply(net, s, steps[0]), steps[1..])
  }

  lemma {:induction false} RunKeeps(net: Net, s: State, steps: seq<Step>)
    requires Inv(net, s) && IsRun(net, s, steps)
    ensures Inv(net, After(net, s, steps))
    decreases |steps|
  {
    if steps != [] {
      StepKeeps(net, s, steps[0]);
      RunKeeps(net, Apply(net, s, steps[0]), steps[1..]);
    }
  }

  // ---------------------------------------------------------------- main results

  /** In every state a run reaches, looking a signature up finds the handler with that signature
      that is between its registration and its removal, and nothing if there is none. */
  lemma LookupOnEveryRun(net: Net, steps: seq<Step>, sig: seq<byte>, h: HandlerId)
    requires IsRun(net, Init(), steps)
    ensures var s := After(net, Init(), steps);
      Lookup(s.pending, sig) == Some(h) <==>
        h in s.handlers && InFlight(s.handlers[h].phase) && s.handlers[h].req.signature == sig
  {
    RunKeeps(net, Init(), steps);
  }

  /** In every state a run reaches, a signature is pending exactly when one handler is
      between its registration and its removal, and never for two. */
  lemma PendingOnEveryRun(net: Net, steps: seq<Step>, sig: seq<byte>)
    requires IsRun(net, Init(), steps)
    ensures var s := After(net, Init(), steps);
      && (sig in s.pending <==> exists h ::
         h in s.handlers && InFlight(s.handlers[h].phase) && s.handlers[h].req.signature == sig)
      && (forall h, k | h in s.handlers && k in s.handlers && InFlight(s.handlers[h].phase)
         && InFlight(s.handlers[k].phase)
            && s.handlers[h].req.signature == s.handlers[k].req.signature :: h == k)
  {
    RunKeeps(net, Init(), steps);
  }

  /** A handler that unregisters takes away its own entry and no other. */
  lemma RemovesOwnEntry(net: Net, steps: seq<Step>, h: HandlerId)
    requires IsRun(net, Init(), steps) && Enabled(net, After(net, Init(), steps), Remove(h))
    ensures var s := After(net, Init(), steps);
      var sig := s.handlers[h].req.signature;
      && sig in s.pending && s.pending[sig] == h
      && Apply(net, s, Remove(h)).pending == s.pending - {sig}
  {
    RunKeeps(net, Init(), steps);
  }

  /** No client is answered twice, and a handler that has finished has answered. */
  lemma RepliesOnEveryRun(net: Net, steps: seq<Step>, i: nat, j: nat)
    requires IsRun(net, Init(), steps) && i < j < |After(net, Init(), steps).replies|
    ensures After(net, Init(), steps).replies[i].0 != After(net, Init(), steps).replies[j].0
  {
    RunKeeps(net, Init(), steps);
    assert OtherHandler(After(net, Init(), steps).replies[i], After(net, Init(), steps).replies[j]);
  }

  lemma FinishedHasReplied(net: Net, steps: seq<Step>, h: HandlerId)
    requires IsRun(net, Init(), steps) && h in After(net, Init(), steps).handlers
    requires After(net, Init(), steps).handlers[h].phase.Finished?
    ensures (h, After(net, Init(), steps).handlers[h].phase.reply) in After(net, Init(), steps).replies
  {
    RunKeeps(net, Init(), steps);
    assert Replied(After(net, Init(), steps).handlers[h].phase, After(net, Init(), steps).handlers[h].phase.reply);
  }

  /** Every response written to a client, on every run, is what a gossiped answer to that
      client's request decodes to, with exactly a quorum of signatures that verify over the
      digest of the gossiped bytes. */
  lemma ResultsOnEveryRun(net: Net, steps: seq<Step>, h: HandlerId, response: seq<byte>, signatures: seq<Signature>)
    returns (gossiped: seq<byte>)
    requires IsRun(net, Init(), steps) && (h, Result(response, signatures)) in After(net, Init(), steps).replies
    ensures var s := After(net, Init(), steps);
      && h in s.handlers
      && net.parse(gossiped) == Some(s.handlers[h].req) && net.remarshal(gossiped) == Some(response)
      && |signatures| == CalculateQuorum(|net.keys|)
      && (|net.keys| <= 256 ==> ValidSignatures(net.c, net.digest(gossiped), signatures, net.keys))
  {
    RunKeeps(net, Init(), steps);
    var s := After(net, Init(), steps);
    assert GoodResult(net, s.handlers[h].req, Result(response, signatures));
    gossiped :| Certified(net, s.handlers[h].req, gossiped, Result(response, signatures));
  }

  /** So the client can check the response it was given if decoding and encoding again does not
      change response bytes. */
  lemma ResultsVerify(net: Net, steps: seq<Step>, h: HandlerId, response: seq<byte>, signatures: seq<Signature>)
    requires IsRun(net, Init(), steps) && (h, Result(response, signatures)) in After(net, Init(), steps).replies
    requires |net.keys| <= 256 && forall b :: net.remarshal(b).Some? ==> net.remarshal(b) == Some(b)
    ensures h in After(net, Init(), steps).handlers
    ensures net.parse(response) == Some(After(net, Init(), steps).handlers[h].req)
    ensures ValidSignatures(net.c, net.digest(response), signatures, net.keys)
  {
    var gossiped := ResultsOnEveryRun(net, steps, h, response, signatures);
  }

  /** A request is never left open once all guardian positions have been counted or, if no key is
      listed twice, once all guardians have answered. */
  lemma OpenOnEveryRun(net: Net, steps: seq<Step>, sig: seq<byte>)
    requires IsRun(net, Init(), steps) && sig in After(net, Init(), steps).responses
    ensures var b := After(net, Init(), steps).responses[sig];
      && Total(b, b.Keys) < |net.keys|
      && (Distinct(net.keys) ==> exists i :: i in Seats(net.keys) && i !in Responders(b, b.Keys))
  {
    RunKeeps(net, Init(), steps);
    OpenMeansOutstanding(net, After(net, Init(), steps).responses[sig]);
  }

  // ---------------------------------------------------------------- giving up

  /** The responses the listener took from the network. */
  function Heard(steps: seq<Step>): set<Gossip> { set x | x in steps && x.Get? :: x.m }

  /** The signature g in the bucket of digest d for the request sig came with a message of ms. */
  ghost predicate Sent(net: Net, ms: set<Gossip>, sig: seq<byte>, d: Digest, g: GuardianSignature) {
    exists m | m in ms ::
      && net.parse(m.response).Some? && net.parse(m.response).value.signature == sig
      && net.digest(m.response) == d && SignerOf(net, m) == g.index
  }

  ghost predicate AllSent(net: Net, ms: set<Gossip>, sig: seq<byte>, b: Buckets) {
    forall d, g | d in b && g in b[d] :: Sent(net, ms, sig, d, g)
  }

  ghost predicate Sourced(net: Net, ms: set<Gossip>, s: State) {
    && (forall sig | sig in s.responses :: AllSent(net, ms, sig, s.responses[sig]))
    && (s.turn.Holding? ==> s.turn.m in ms)
  }

  /** No guardian answers one request in two ways. */
  ghost predicate OneAnswer(net: Net, ms: set<Gossip>) {
    forall m, n | m in ms && n in ms && SignerOf(net, m) == SignerOf(net, n) != -1
      && net.parse(m.response).Some? && net.parse(n.response).Some?
      && net.parse(m.response).value.signature == net.parse(n.response).value.signature ::
        net.digest(m.response) == net.digest(n.response)
  }

  lemma OneAnswerBuckets(net: Net, ms: set<Gossip>, sig: seq<byte>, b: Buckets)
    requires OneAnswer(net, ms) && AllSent(net, ms, sig, b)
    ensures OneAnswerEach(b)
  {
    hide SignerOf;
    forall d, e, g, h | d in b && e in b && d != e && g in b[d] && h in b[e]
      ensures g.index != h.index
    {
      assert Sent(net, ms, sig, d, g) && Sent(net, ms, sig, e, h);
    }
  }

  lemma GrownSent(net: Net, ms: set<Gossip>, responses: map<seq<byte>, Buckets>, m: Gossip, req: Request)
    requires SignerOf(net, m) != -1 && net.parse(m.response) == Some(req) && m in ms
    requires forall sig | sig in responses :: AllSent(net, ms, sig, responses[sig])
    ensures AllSent(net, ms, req.signature, Grown(net, responses, m, req))
  {
    hide SignerOf;
    var b, d := Grown(net, responses, m, req), net.digest(m.response);
    forall e, g | e in b && g in b[e]
      ensures Sent(net, ms, req.signature, e, g)
    {
      if e == d && g !in BucketOf(Held(responses, req), d) {
        assert g.index == SignerOf(net, m);
      } else {
        assert Held(responses, req) == responses[req.signature];
      }
    }
  }

  lemma MoreSent(net: Net, ms: set<Gossip>, ns: set<Gossip>, s: State)
    requires Sourced(net, ms, s) && ms <= ns
    ensures Sourced(net, ns, s)
  {
    forall sig, d, g | sig in s.responses && d in s.responses[sig] && g in s.responses[sig][d]
      ensures Sent(net, ns, sig, d, g)
    {
      assert Sent(net, ms, sig, d, g);
    }
  }

  lemma StepSourced(net: Net, ms: set<Gossip>, s: State, step: Step)
    requires Sourced(net, ms, s) && Enabled(net, s, step) && (step.Get? ==> step.m in ms)
    ensures Sourced(net, ms, Apply(net, s, step))
  {
    hide AllSent, SignerOf, Hopeless, Grown;
    if step.Handle? {
      var m, req := s.turn.m, s.handlers[s.turn.h].req;
      if net.parse(m.response) == Some(req) && SignerOf(net, m) != -1 {
        GrownSent(net, ms, s.responses, m, req);
      }
    }
  }

  /** A run is a shorter run and a last step. */
  lemma {:induction false} LastStep(net: Net, s: State, steps: seq<Step>)
    requires IsRun(net, s, steps) && steps != []
    ensures var n := |steps| - 1;
      && IsRun(net, s, steps[..n]) && Enabled(net, After(net, s, steps[..n]), steps[n])
      && After(net, s, steps) == Apply(net, After(net, s, steps[..n]), steps[n])
    decreases |steps|
  {
    hide Enabled, Apply;
    var n := |steps| - 1;
    if n > 0 {
      var rest := steps[1..];
      LastStep(net, Apply(net, s, steps[0]), rest);
      assert steps[..n][1..] == rest[..n - 1];
    }
  }

  lemma {:induction false} RunSourced(net: Net, steps: seq<Step>)
    requires IsRun(net, Init(), steps)
    ensures Sourced(net, Heard(steps), After(net, Init(), steps))
  {
    if steps != [] {
      var n := |steps| - 1;
      LastStep(net, Init(), steps);
      RunSourced(net, steps[..n]);
      hide IsRun, After, Apply, Sourced;
      MoreSent(net, Heard(steps[..n]), Heard(steps), After(net, Init(), steps[..n]));
      StepSourced(net, Heard(steps), After(net, Init(), steps[..n]), steps[n]);
    }
  }

  /** The listener is about to tell handler h that no quorum is possible. */
  ghost predicate GivesUp(net: Net, s: State, h: HandlerId) {
    && s.turn.Holding? && s.turn.h == h && h in s.handlers
    && Process(net, s.responses, s.turn.m, s.handlers[h].req).1 == QuorumNotMet
  }

  /** Whatever guardians that have not answered yet may say, no digest reaches quorum. */
  ghost predicate Impossible(net: Net, s: State)
    requires s.turn.Holding? && s.turn.h in s.handlers && SignerOf(net, s.turn.m) != -1
  {
    !Possible(Grown(net, s.responses, s.turn.m, s.handlers[s.turn.h].req), net.keys, Quorum(net))
  }

  /** On a run on which no guardian answers in two ways, the listener forwards exactly at quorum
      and gives up only when no quorum is possible any more, and exactly then if no key is listed
      twice. In general that is when too few different keys are left. */
  lemma VerdictOnEveryRun(net: Net, steps: seq<Step>)
    requires IsRun(net, Init(), steps) && OneAnswer(net, Heard(steps))
      && Enabled(net, After(net, Init(), steps), Handle)
    requires var s := After(net, Init(), steps);
      !Process(net, s.responses, s.turn.m, s.handlers[s.turn.h].req).1.Ignored?
    ensures var s := After(net, Init(), steps);
      var m, req := s.turn.m, s.handlers[s.turn.h].req;
      var e := Process(net, s.responses, m, req).1;
      && (e.Forward? <==> |Grown(net, s.responses, m, req)[net.digest(m.response)]| == Quorum(net))
      && (e.QuorumNotMet? ==> Impossible(net, s))
      && (Distinct(net.keys) ==> (e.QuorumNotMet? <==> Impossible(net, s)))
      && (Impossible(net, s) <==> Hopeless(Grown(net, s.responses, m, req), |KeySet(net.keys)|, Quorum(net)))
  {
    var s := After(net, Init(), steps);
    RunKeeps(net, Init(), steps);
    RunSourced(net, steps);
    hide After, IsRun;
    var m, req := s.turn.m, s.handlers[s.turn.h].req;
    GrownSent(net, Heard(steps), s.responses, m, req);
    OneAnswerBuckets(net, Heard(steps), req.signature, Grown(net, s.responses, m, req));
    VerdictExact(net, s.responses, m, req);
  }

  /** A client is told that quorum is not met only when, at some moment of the run, its handler
      was waiting and quorum had just become impossible. */
  lemma {:induction false} UnmetOnEveryRun(net: Net, steps: seq<Step>, h: HandlerId) returns (k: nat)
    requires IsRun(net, Init(), steps) && OneAnswer(net, Heard(steps))
    requires (h, Unmet) in After(net, Init(), steps).replies
    ensures k < |steps| && steps[k].Handle? && IsRun(net, Init(), steps[..k])
    ensures var s := After(net, Init(), steps[..k]);
      GivesUp(net, s, h) && s.handlers[h].phase == Waiting && Impossible(net, s)
  {
    var n := |steps| - 1;
    LastStep(net, Init(), steps);
    var s := After(net, Init(), steps[..n]);
    assert OneAnswer(net, Heard(steps[..n]));
    if (h, Unmet) in s.replies {
      k := UnmetOnEveryRun(net, steps[..n], h);
      assert steps[..n][..k] == steps[..k];
    } else {
      k := n;
      NewUnmet(net, s, steps[n], h);
      hide After, IsRun;
      VerdictOnEveryRun(net, steps[..n]);
    }
  }

  lemma NewUnmet(net: Net, s: State, step: Step, h: HandlerId)
    requires Enabled(net, s, step) && (h, Unmet) !in s.replies && (h, Unmet) in Apply(net, s, step).replies
    ensures step.Handle? && GivesUp(net, s, h) && s.handlers[h].phase == Waiting
  {
    hide Process, ForClient;
  }

  // ---------------------------------------------------------------- requests that are still open

  lemma RunOneAnswerEach(net: Net, steps: seq<Step>, sig: seq<byte>)
    requires IsRun(net, Init(), steps) && OneAnswer(net, Heard(steps)) && sig in After(net, Init(), steps).responses
    ensures var b := After(net, Init(), steps).responses[sig]; Open(net, b) && OneAnswerEach(b) && Sound(b, net.keys)
  {
    hide IsRun, After, OneAnswerEach, Open, Sound;
    RunKeeps(net, Init(), steps);
    RunSourced(net, steps);
    var b := After(net, Init(), steps).responses[sig];
    OneAnswerBuckets(net, Heard(steps), sig, b);
    OpenIsSound(net, b);
  }

  /** A request that is still open on such a run can still reach quorum, if no key is listed twice;
      in general exactly if enough different keys are left. */
  lemma OpenIsPossibleOnEveryRun(net: Net, steps: seq<Step>, sig: seq<byte>)
    requires IsRun(net, Init(), steps) && OneAnswer(net, Heard(steps)) && sig in After(net, Init(), steps).responses
    ensures var b := After(net, Init(), steps).responses[sig];
      && (Possible(b, net.keys, Quorum(net)) <==> !Hopeless(b, |KeySet(net.keys)|, Quorum(net)))
      && (Distinct(net.keys) ==> Possible(b, net.keys, Quorum(net)))
  {
    RunOneAnswerEach(net, steps, sig);
    OpenCanComplete(net, After(net, Init(), steps).responses[sig]);
  }

  /** The listener takes the messages one by one. */
  lemma {:induction false} DeliverySteps(net: Net, s: State, h: HandlerId, ms: seq<Gossip>) returns (more: seq<Step>)
    requires s.turn.Idle? && PhaseOf(s, h) == Some(Waiting)
    requires Lookup(s.pending, s.handlers[h].req.signature) == Some(h)
    requires EndsInForward(net, s.responses, ms, s.handlers[h].req)
    requires forall m | m in ms :: net.parse(m.response) == Some(s.handlers[h].req)
    ensures IsRun(net, s, more) && h in After(net, s, more).handlers
    ensures var p := After(net, s, more).handlers[h].phase;
      p.Answered? && exists m, sigs :: m in ms && p.reply == Written(net, m, sigs)
    decreases |ms|
  {
    hide Written, Process;
    var m, req := ms[0], s.handlers[h].req;
    var s1, s2 := DeliveryStep(net, s, h, m);
    var (next, e) := Process(net, s.responses, m, req);
    hide Enabled, Apply;
    if |ms| == 1 {
      more := [Get(m), Handle];
      assert more[1..] == [Handle] && more[1..][1..] == [];
      assert IsRun(net, s2, []);
    } else {
      var rest := DeliverySteps(net, s2, h, ms[1..]);
      more := [Get(m), Handle] + rest;
      assert more[1..] == [Handle] + rest && more[1..][1..] == rest;
    }
    assert IsRun(net, s1, more[1..]);
    assert After(net, s, more) == After(net, s1, more[1..]) == After(net, s2, more[1..][1..]);
  }

  lemma DeliveryStep(net: Net, s: State, h: HandlerId, m: Gossip) returns (s1: State, s2: State)
    requires s.turn.Idle? && PhaseOf(s, h) == Some(Waiting)
    requires Lookup(s.pending, s.handlers[h].req.signature) == Some(h)
    requires net.parse(m.response) == Some(s.handlers[h].req)
    ensures Enabled(net, s, Get(m)) && Apply(net, s, Get(m)) == s1
    ensures Enabled(net, s1, Handle) && Apply(net, s1, Handle) == s2
    ensures var (next, e) := Process(net, s.responses, m, s.handlers[h].req);
      && (e.Forward? ==> h in s2.handlers && s2.handlers[h].phase == Answered(Written(net, m, e.signatures)))
      && (e.Waits? || e.Ignored? ==> s2 == s.(responses := next))
  {
    hide Process, Written;
    s1 := Apply(net, s, Get(m));
    assert s1 == s.(turn := Holding(m, h));
    s2 := Apply(net, s1, Handle);
  }

  /** And possible means that it can happen: as long as the handler waits, if the guardians that have
      not answered can give the answers given so far, the run can go on so that the client gets a
      result, or the response cannot be encoded. */
  lemma OpenCanCompleteOnEveryRun(net: Net, steps: seq<Step>, h: HandlerId, say: (Digest, nat) -> Gossip)
    returns (more: seq<Step>)
    requires IsRun(net, Init(), steps) && OneAnswer(net, Heard(steps))
    requires var s := After(net, Init(), steps);
      && s.turn.Idle? && PhaseOf(s, h) == Some(Waiting) && s.handlers[h].req.signature in s.responses
      && var b := s.responses[s.handlers[h].req.signature];
         && Possible(b, net.keys, Quorum(net))
         && forall d, i | d in b && i in Seats(net.keys) - Responders(b, b.Keys) ::
              Says(net, say(d, i), s.handlers[h].req, d, i)
    ensures var s := After(net, Init(), steps);
      && IsRun(net, s, more) && h in After(net, s, more).handlers
      && var p := After(net, s, more).handlers[h].phase;
         p.Answered? && (p.reply.Result? || p.reply.MarshalFailed?)
  {
    var s := After(net, Init(), steps);
    var req := s.handlers[h].req;
    RunKeeps(net, Init(), steps);
    RunOneAnswerEach(net, steps, req.signature);
    var b := s.responses[req.signature];
    assert Lookup(s.pending, req.signature) == Some(h);
    assert Held(s.responses, req) == b && forall d | d in b :: |b[d]| < Quorum(net);
    hide IsRun, After, Inv, OneAnswer, Open, Sound, Possible, Says, Seats;
    var ms := CompletingMessages(net, s.responses, req, say);
    more := DeliverySteps(net, s, h, ms);
  }

  lemma CompletingMessages(net: Net, responses: map<seq<byte>, Buckets>, req: Request, say: (Digest, nat) -> Gossip)
    returns (ms: seq<Gossip>)
    requires var b := Held(responses, req);
      && Sound(b, net.keys) && Possible(b, net.keys, Quorum(net)) && (forall d | d in b :: |b[d]| < Quorum(net))
      && forall d, i | d in b && i in Seats(net.keys) - Responders(b, b.Keys) :: Says(net, say(d, i), req, d, i)
    ensures EndsInForward(net, responses, ms, req) && forall m | m in ms :: net.parse(m.response) == Some(req)
  {
    hide Sound, Possible, Says, Seats, Responders;
    var b := Held(responses, req);
    var d := CompletableDigest(b, net.keys, Quorum(net));
    var left := Seats(net.keys) - Responders(b, b.Keys);
    ms := CompletionRun(net, responses, req, d, left, (i: nat) => say(d, i));
    forall m | m in ms
      ensures net.parse(m.response) == Some(req)
    {
      var i :| i in left && m == say(d, i);
      SaysParses(net, m, req, d, i);
    }
  }

  lemma SaysParses(net: Net, m: Gossip, req: Request, d: Digest, i: nat)
    requires Says(net, m, req, d, i)
    ensures net.parse(m.response) == Some(req)
  {
  }

  // ---------------------------------------------------------------- progress

  function Rank(p: Phase): nat {
    match p
    case Fresh => 4
    case Posting => 3
    case Waiting => 2
    case Answered(_) => 1
    case Finished(_) => 0
  }

  function OwnStep(h: HandlerId, p: Phase): Step {
    match p
    case Fresh => Add(h)
    case Posting => Publish(h, true)
    case Waiting => Timeout(h)
    case _ => Remove(h)
  }

  /** No handler is ever stuck: it has a step of its own that brings it closer to its end. */
  lemma NeverStuck(net: Net, s: State, h: HandlerId)
    requires h in s.handlers && !s.handlers[h].phase.Finished?
    ensures var step := OwnStep(h, s.handlers[h].phase);
      Enabled(net, s, step) && Rank(Apply(net, s, step).handlers[h].phase) < Rank(s.handlers[h].phase)
  {
  }

  /** No step, by anyone, sends a handler back. */
  lemma NeverBack(net: Net, s: State, h: HandlerId, step: Step)
    requires h in s.handlers && Enabled(net, s, step)
    ensures h in Apply(net, s, step).handlers && Rank(Apply(net, s,
      step).handlers[h].phase) <= Rank(s.handlers[h].phase)
  {
    hide Process;
    if step.Handle? {
      var e := Process(net, s.responses, s.turn.m, s.handlers[s.turn.h].req).1;
      assert e.Forward? || e.QuorumNotMet? || Apply(net, s, step).handlers == s.handlers;
    }
  }
}
