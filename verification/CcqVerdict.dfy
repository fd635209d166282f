/** When the listener of the query server gives up: what a request that is still open can still
    become, and for which guardian lists the early-failure test finds out. */
module CcqVerdict {
  import opened Binary
  import opened Vaa
  import opened Guardians
  import opened Sorting
  import opened Equivocation
  import opened Resign
  import opened Ccq

  // ---------------------------------------------------------------- who has answered

  ghost function Indices(sigs: seq<GuardianSignature>): set<nat> { set g | g in sigs :: g.index }

  lemma IndicesGrow(sigs: seq<GuardianSignature>, g: GuardianSignature)
    ensures Indices(sigs + [g]) == Indices(sigs) + {g.index}
    ensures g.index in Indices(sigs) <==> exists h :: h in sigs && h.index == g.index
  {
  }

  lemma {:induction false} IndicesCount(sigs: seq<GuardianSignature>)
    ensures |Indices(sigs)| <= |sigs|
    ensures Pairwise(sigs, OtherGuardian) ==> |Indices(sigs)| == |sigs|
  {
    if sigs != [] {
      var init, g := sigs[..|sigs| - 1], sigs[|sigs| - 1];
      IndicesCount(init);
      assert sigs == init + [g];
      IndicesGrow(init, g);
      hide Indices;
      if Pairwise(sigs, OtherGuardian) {
        assert Pairwise(init, OtherGuardian);
        assert forall h | h in init :: OtherGuardian(h, g);
      }
    }
  }

  /** The guardians with a signature in some bucket of ks. */
  ghost function Responders(b: Buckets, ks: set<Digest>): set<nat>
    requires ks <= b.Keys
  {
    set d, g | d in ks && g in b[d] :: g.index
  }

  /** No guardian backs two different answers. */
  ghost predicate OneAnswerEach(b: Buckets) {
    forall d, e, g, h | d in b && e in b && d != e && g in b[d] && h in b[e] :: g.index != h.index
  }

  lemma RespondersSplit(b: Buckets, ks: set<Digest>, d: Digest)
    requires ks <= b.Keys && d in ks
    ensures Responders(b, ks) == Responders(b, ks - {d}) + Indices(b[d])
    ensures OneAnswerEach(b) ==> Responders(b, ks - {d}) !! Indices(b[d])
  {
  }

  lemma {:induction false} RespondersCount(b: Buckets, ks: set<Digest>)
    requires ks <= b.Keys
    ensures |Responders(b, ks)| <= Total(b, ks)
    ensures OneAnswerEach(b) && (forall d | d in b :: Pairwise(b[d], OtherGuardian)) ==>
      |Responders(b, ks)| == Total(b, ks)
  {
    if ks != {} {
      var d :| d in ks;
      TotalSplit(b, ks, d);
      RespondersCount(b, ks - {d});
      IndicesCount(b[d]);
      RespondersSplit(b, ks, d);
    }
  }

  // ---------------------------------------------------------------- who can answer

  /** The positions at which a signer can be found: of a key that is listed more than once, the
      first. */
  ghost function Seats(keys: seq<EthAddress>): set<nat> {
    set i | 0 <= i < |keys| && IndexOf(keys, keys[i]) == i
  }

  predicate FirstOfItsKey(keys: seq<EthAddress>, i: nat)
    requires i < |keys|
  {
    forall j | 0 <= j < i :: keys[j] != keys[i]
  }

  lemma SeatIsFirst(keys: seq<EthAddress>, i: nat)
    requires i < |keys|
    ensures i in Seats(keys) <==> FirstOfItsKey(keys, i)
  {
  }

  lemma SeatsGrow(keys: seq<EthAddress>, k: EthAddress)
    ensures Seats(keys + [k]) == Seats(keys) + if k in keys then {} else {|keys|}
  {
    var more := keys + [k];
    forall i: nat | i < |more|
      ensures i in Seats(more) <==> i in Seats(keys) || (i == |keys| && k !in keys)
    {
      SeatIsFirst(more, i);
      if i < |keys| {
        SeatIsFirst(keys, i);
        assert more[i] == keys[i] && forall j | 0 <= j < i :: more[j] == keys[j];
      } else {
        assert forall j | 0 <= j < |keys| :: more[j] == keys[j];
      }
    }
  }

  ghost function KeySet(keys: seq<EthAddress>): set<EthAddress> { set k | k in keys }

  /** There are as many seats as different keys, and as many as positions exactly if no key is
      listed twice. */
  lemma {:induction false} SeatsCount(keys: seq<EthAddress>)
    ensures |Seats(keys)| == |KeySet(keys)| <= |keys|
    ensures |Seats(keys)| == |keys| <==> Distinct(keys)
  {
    hide Seats, Distinct, KeySet;
    if keys == [] {
      NoSeats();
    } else {
      var init, k := keys[..|keys| - 1], keys[|keys| - 1];
      assert keys == init + [k];
      SeatsCount(init);
      SeatsGrow(init, k);
      KeySetGrows(init, k);
      DistinctGrows(init, k);
      NoSeatBeyond(init);
    }
  }

  lemma NoSeats()
    ensures Seats([]) == {} && KeySet([]) == {} && Distinct([])
  {
  }

  lemma NoSeatBeyond(keys: seq<EthAddress>)
    ensures |keys| !in Seats(keys)
  {
  }

  lemma KeySetGrows(keys: seq<EthAddress>, k: EthAddress)
    ensures KeySet(keys + [k]) == KeySet(keys) + {k} && (k in KeySet(keys) <==> k in keys)
  {
  }

  lemma DistinctGrows(keys: seq<EthAddress>, k: EthAddress)
    ensures Distinct(keys + [k]) <==> Distinct(keys) && k !in keys
  {
    var more := keys + [k];
    assert forall i | 0 <= i < |keys| :: more[i] == keys[i];
    if Distinct(more) {
      forall i | 0 <= i < |keys|
        ensures keys[i] != k
      {
        assert Different(more[i], more[|keys|]);
      }
      assert forall i, j | 0 <= i < j < |keys| :: Different(more[i], more[j]);
    }
  }

  /** Every signature is filed under a seat. */
  ghost predicate Seated(b: Buckets, keys: seq<EthAddress>) {
    forall d, g | d in b && g in b[d] :: g.index in Seats(keys)
  }

  lemma BackingIsSeated(net: Net, b: Buckets)
    requires forall d | d in b :: Backing(net, d, b[d])
    ensures Seated(b, net.keys)
  {
    forall d, g | d in b && g in b[d]
      ensures g.index in Seats(net.keys)
    {
      assert Genuine(net, d, g);
    }
  }

  // ---------------------------------------------------------------- completions

  /** First answers from the guardians in the seats `extra` would bring digest d to quorum. */
  ghost predicate Completes(b: Buckets, keys: seq<EthAddress>, q: nat, d: Digest, extra: set<nat>) {
    extra <= Seats(keys) - Responders(b, b.Keys) && |BucketOf(b, d)| + |extra| >= q
  }

  ghost predicate Possible(b: Buckets, keys: seq<EthAddress>, q: nat) {
    exists d, extra :: Completes(b, keys, q, d, extra)
  }

  /** All guardians that have not answered at all. */
  lemma Outstanding(b: Buckets, keys: seq<EthAddress>)
    requires Seated(b, keys)
    ensures |Seats(keys) - Responders(b, b.Keys)| == |Seats(keys)| - |Responders(b, b.Keys)|
  {
    var all, done := Seats(keys), Responders(b, b.Keys);
    assert done <= all;
    hide Seats;
    assert all == (all - done) + done;
  }

  /** If quorum is impossible the test says so, provided that it counts different keys. This holds
      even when guardians answer twice. */
  lemma HopelessIfImpossible(b: Buckets, keys: seq<EthAddress>, q: nat)
    requires Seated(b, keys) && !Possible(b, keys, q)
    ensures Hopeless(b, |Seats(keys)|, q)
  {
    hide Total, Responders, Seats;
    Outstanding(b, keys);
    RespondersCount(b, b.Keys);
    forall d | d in b
      ensures |b[d]| + (|Seats(keys)| - Total(b, b.Keys)) < q
    {
      assert !Completes(b, keys, q, d, Seats(keys) - Responders(b, b.Keys));
    }
  }

  /** Nonempty buckets of signatures by seated guardians, none of whom backs two answers. */
  ghost predicate Sound(b: Buckets, keys: seq<EthAddress>) {
    b != map[] && OneAnswerEach(b) && Seated(b, keys) && forall d | d in b ::
      b[d] != [] && Pairwise(b[d], OtherGuardian)
  }

  /** If no guardian backs two answers, quorum is possible exactly if the test, counting different
      keys, does not fail. */
  lemma PossibleExactly(b: Buckets, keys: seq<EthAddress>, q: nat)
    requires Sound(b, keys)
    ensures Possible(b, keys, q) <==> !Hopeless(b, |Seats(keys)|, q)
  {
    hide Total, Responders, Seats, OneAnswerEach;
    Outstanding(b, keys);
    RespondersCount(b, b.Keys);
    if Hopeless(b, |Seats(keys)|, q) {
      var e :| e in b;
      forall d, extra | extra <= Seats(keys) - Responders(b, b.Keys)
        ensures |BucketOf(b, d)| + |extra| < q
      {
        SubsetSize(extra, Seats(keys) - Responders(b, b.Keys));
        assert |b[e]| + (|Seats(keys)| - Total(b, b.Keys)) < q;
      }
    } else {
      var d :| d in b && |b[d]| + (|Seats(keys)| - Total(b, b.Keys)) >= q;
      assert Completes(b, keys, q, d, Seats(keys) - Responders(b, b.Keys));
    }
  }

  /** If quorum is possible, it is so for an answer that has been given, with all guardians left. */
  lemma CompletableDigest(b: Buckets, keys: seq<EthAddress>, q: nat) returns (d: Digest)
    requires Sound(b, keys) && Possible(b, keys, q)
    ensures d in b && Completes(b, keys, q, d, Seats(keys) - Responders(b, b.Keys))
  {
    hide Total, Responders, Seats, OneAnswerEach;
    PossibleExactly(b, keys, q);
    Outstanding(b, keys);
    RespondersCount(b, b.Keys);
    d :| d in b && |b[d]| + (|Seats(keys)| - Total(b, b.Keys)) >= q;
  }

  /** The test as it is counts positions, which are never fewer. So it fails only if quorum is
      impossible, whatever the list; and exactly then if no key is listed twice. */
  lemma HopelessExactly(b: Buckets, keys: seq<EthAddress>, q: nat)
    requires Sound(b, keys)
    ensures Hopeless(b, |keys|, q) ==> !Possible(b, keys, q)
    ensures Distinct(keys) ==> (Hopeless(b, |keys|, q) <==> !Possible(b, keys, q))
  {
    PossibleExactly(b, keys, q);
    SeatsCount(keys);
    hide Total, Seats, Sound, Possible, Distinct;
  }

  // ---------------------------------------------------------------- lists with a repeated key

  /** One signature for each position of a set. */
  lemma {:induction false} SignedAtAll(s: set<nat>) returns (sigs: seq<GuardianSignature>)
    ensures |sigs| == |s| && Indices(sigs) == s && Pairwise(sigs, OtherGuardian)
  {
    if s == {} {
      sigs := [];
    } else {
      var i :| i in s;
      var rest := SignedAtAll(s - {i});
      var g := GuardianSignature(i, Zeros(65));
      IndicesGrow(rest, g);
      assert forall h | h in rest :: h.index in Indices(rest);
      assert forall h | h in rest :: OtherGuardian(h, g);
      sigs := rest + [g];
    }
  }

  lemma {:induction false} SubsetOfSize(s: set<nat>, k: nat) returns (t: set<nat>)
    requires k <= |s|
    ensures t <= s && |t| == k
  {
    if k == 0 {
      t := {};
    } else {
      var i :| i in s;
      t := SubsetOfSize(s - {i}, k - 1);
      t := t + {i};
    }
  }

  /** Answers of all guardians, none of which is at quorum. */
  lemma AllAnswered(keys: seq<EthAddress>) returns (b: Buckets)
    requires !Distinct(keys)
    ensures Sound(b, keys) && (forall d | d in b :: |b[d]| < CalculateQuorum(|keys|))
    ensures Responders(b, b.Keys) == Seats(keys)
    ensures !Hopeless(b, |keys|, CalculateQuorum(|keys|))
  {
    hide Seats, Distinct, Responders, Total, CalculateQuorum, OneAnswerEach;
    SeatsCount(keys);
    RepeatedKeyLength(keys);
    QuorumOfMany(|keys|);
    var q, all := CalculateQuorum(|keys|), Seats(keys);
    if |all| < q {
      b := SplitAnswers(all, {});
    } else {
      var front := SubsetOfSize(all, q - 1);
      b := SplitAnswers(front, all - front);
      assert front + (all - front) == all;
      assert |all| == |front| + |all - front|;
    }
    AllSeated(b, keys);
    StillHopeful(b, |keys|, q);
  }

  lemma StillHopeful(b: Buckets, n: nat, q: nat)
    requires exists d :: d in b && |b[d]| + (n - Total(b, b.Keys)) >= q
    ensures !Hopeless(b, n, q)
  {
    hide Total;
  }

  lemma QuorumOfMany(n: nat)
    requires n >= 2
    ensures 2 <= CalculateQuorum(n) <= n <= 2 * (CalculateQuorum(n) - 1)
  {
  }

  /** Buckets for one or two answers. */
  lemma SplitAnswers(front: set<nat>, rest: set<nat>) returns (b: Buckets)
    requires front !! rest && front != {}
    ensures b != map[] && OneAnswerEach(b) && forall d | d in b :: b[d] != [] && Pairwise(b[d], OtherGuardian)
    ensures Responders(b, b.Keys) == front + rest && Total(b, b.Keys) == |front| + |rest|
    ensures forall d | d in b :: |b[d]| == |front| || |b[d]| == |rest|
    ensures exists d :: d in b && |b[d]| == |front|
  {
    hide Responders, Total, OneAnswerEach, Indices;
    var xs := SignedAtAll(front);
    var ys := SignedAtAll(rest);
    var one, two: Digest := Zeros(32), Zeros(31) + [1];
    assert one[31] != two[31];
    if rest == {} {
      b := map[one := xs];
      LoneBucket(b, one);
    } else {
      b := map[one := xs, two := ys];
      TwoBuckets(b, one, two);
    }
    assert one in b;
  }

  lemma RepeatedKeyLength(keys: seq<EthAddress>)
    requires !Distinct(keys)
    ensures |keys| >= 2 && |Seats(keys)| >= 1
  {
    SeatIsFirst(keys, 0);
    assert 0 in Seats(keys);
  }

  lemma LoneBucket(b: Buckets, d: Digest)
    requires b.Keys == {d}
    ensures Total(b, b.Keys) == |b[d]| && Responders(b, b.Keys) == Indices(b[d]) && OneAnswerEach(b)
  {
    TotalSplit(b, {d}, d);
    assert {d} - {d} == {};
  }

  lemma TwoBuckets(b: Buckets, one: Digest, two: Digest)
    requires one != two && b.Keys == {one, two}
    ensures Total(b, b.Keys) == |b[one]| + |b[two]|
    ensures Responders(b, b.Keys) == Indices(b[one]) + Indices(b[two])
    ensures Indices(b[one]) !! Indices(b[two]) ==> OneAnswerEach(b)
  {
    TotalSplit(b, {one, two}, one);
    assert {one, two} - {one} == {two};
    TotalSplit(b, {two}, two);
    assert {two} - {two} == {};
    hide Total;
    if Indices(b[one]) !! Indices(b[two]) {
      forall d, e, g, h | d in b && e in b && d != e && g in b[d] && h in b[e]
        ensures g.index != h.index
      {
        assert g.index in Indices(b[d]) && h.index in Indices(b[e]);
      }
    }
  }

  lemma AllSeated(b: Buckets, keys: seq<EthAddress>)
    requires Responders(b, b.Keys) <= Seats(keys)
    ensures Seated(b, keys)
  {
    hide Seats;
    forall d, g | d in b && g in b[d]
      ensures g.index in Seats(keys)
    {
      assert g.index in Responders(b, b.Keys);
    }
  }

  /** Once all guardians have answered and none of the answers is at quorum, quorum is impossible. */
  lemma NoneLeft(b: Buckets, keys: seq<EthAddress>, q: nat)
    requires Responders(b, b.Keys) == Seats(keys) && q > 0 && forall d | d in b :: |b[d]| < q
    ensures !Possible(b, keys, q)
  {
    hide Responders, Seats;
    forall d, extra | extra <= Seats(keys) - Responders(b, b.Keys)
      ensures |BucketOf(b, d)| + |extra| < q
    {
      assert extra == {};
    }
  }

  /** The listener gives up exactly when quorum has become impossible, for all answers that can be
      gathered below quorum, if and only if no key is listed twice. */
  lemma ExactForDistinctKeys(keys: seq<EthAddress>)
    ensures Distinct(keys) <==> forall b | Sound(b, keys) && forall d | d in b :: |b[d]| < CalculateQuorum(|keys|) ::
      Hopeless(b, |keys|, CalculateQuorum(|keys|)) <==> !Possible(b, keys, CalculateQuorum(|keys|))
  {
    var q := CalculateQuorum(|keys|);
    if Distinct(keys) {
      forall b | Sound(b, keys)
        ensures Hopeless(b, |keys|, q) <==> !Possible(b, keys, q)
      {
        HopelessExactly(b, keys, q);
      }
    } else {
      var b := AllAnswered(keys);
      NoneLeft(b, keys, q);
    }
  }

  // ---------------------------------------------------------------- the verdict of a turn

  lemma GrownIsSound(net: Net, responses: map<seq<byte>, Buckets>, m: Gossip, req: Request)
    requires Gathering(net, responses) && !Process(net, responses, m, req).1.Ignored?
    requires OneAnswerEach(Grown(net, responses, m, req))
    ensures Sound(Grown(net, responses, m, req), net.keys)
  {
    SignerIsGenuine(net, m);
    hide SignerOf, Genuine, Hopeless, OneAnswerEach, Seats;
    var d := net.digest(m.response);
    var was, b := Held(responses, req), Grown(net, responses, m, req);
    BackingGrows(net, d, BucketOf(was, d), GuardianSignature(SignerOf(net, m), m.signature));
    assert forall e | e in b :: Backing(net, e, b[e]);
    BackingIsSeated(net, b);
  }

  /** The verdict on a response that is not ignored. It is forwarded when its bucket is at quorum.
      It is failed only when no completion can bring any digest to quorum, and with distinct keys
      exactly then. In general quorum is impossible exactly when the largest bucket and the
      different keys that have not answered are together too few. */
  lemma VerdictExact(net: Net, responses: map<seq<byte>, Buckets>, m: Gossip, req: Request)
    requires Gathering(net, responses) && !Process(net, responses, m, req).1.Ignored?
    requires OneAnswerEach(Grown(net, responses, m, req))
    ensures var e, b := Process(net, responses, m, req).1, Grown(net, responses, m, req);
      && (e.Forward? <==> |b[net.digest(m.response)]| == Quorum(net))
      && (e.QuorumNotMet? ==> !Possible(b, net.keys, Quorum(net)))
      && (Distinct(net.keys) ==> (e.QuorumNotMet? <==> !Possible(b, net.keys, Quorum(net))))
      && (Possible(b, net.keys, Quorum(net)) <==> !Hopeless(b, |KeySet(net.keys)|, Quorum(net)))
  {
    GrownIsSound(net, responses, m, req);
    var d, q := net.digest(m.response), Quorum(net);
    var b := Grown(net, responses, m, req);
    HopelessExactly(b, net.keys, q);
    PossibleExactly(b, net.keys, q);
    SeatsCount(net.keys);
    BucketBacks(net, Held(responses, req), d);
    if |b[d]| == q {
      assert Completes(b, net.keys, q, d, {});
    }
    hide SignerOf, Hopeless, OneAnswerEach, Seats, Sound, Completes, Distinct;
  }

  // ---------------------------------------------------------------- requests that are still open

  lemma OpenIsSound(net: Net, b: Buckets)
    requires Open(net, b) && OneAnswerEach(b)
    ensures Sound(b, net.keys)
  {
    hide Genuine, Hopeless, OneAnswerEach, Seats;
    BackingIsSeated(net, b);
  }

  /** A request that is still open can be completed by guardians that have not answered, if no key
      is listed twice; in general exactly if enough different keys are left. */
  lemma OpenCanComplete(net: Net, b: Buckets)
    requires Open(net, b) && OneAnswerEach(b)
    ensures Possible(b, net.keys, Quorum(net)) <==> !Hopeless(b, |KeySet(net.keys)|, Quorum(net))
    ensures Distinct(net.keys) ==> Possible(b, net.keys, Quorum(net))
  {
    OpenIsSound(net, b);
    PossibleExactly(b, net.keys, Quorum(net));
    HopelessExactly(b, net.keys, Quorum(net));
    SeatsCount(net.keys);
  }

  /** A request that is still open has not been counted for all positions, and if no key is listed
      twice, some guardian has not answered. */
  lemma OpenMeansOutstanding(net: Net, b: Buckets)
    requires Open(net, b)
    ensures Total(b, b.Keys) < |net.keys|
    ensures Distinct(net.keys) ==> exists i :: i in Seats(net.keys) && i !in Responders(b, b.Keys)
  {
    var d :| d in b && |b[d]| + (|net.keys| - Total(b, b.Keys)) >= Quorum(net);
    hide Total, Seats;
    RespondersCount(b, b.Keys);
    SeatsCount(net.keys);
    if Distinct(net.keys) && Seats(net.keys) <= Responders(b, b.Keys) {
      SubsetSize(Seats(net.keys), Responders(b, b.Keys));
    }
  }

  // ---------------------------------------------------------------- turns to come

  /** All but the last of these messages leave the request open, and the last one is forwarded. */
  ghost predicate EndsInForward(net: Net, responses: map<seq<byte>, Buckets>, ms: seq<Gossip>, req: Request)
    decreases |ms|
  {
    ms != [] &&
    var (next, e) := Process(net, responses, ms[0], req);
    if |ms| == 1 then e.Forward? else (e.Waits? || e.Ignored?) && EndsInForward(net, next, ms[1..], req)
  }

  /** The message answers req, and no guardian has answered it in another way. */
  ghost predicate OneWay(net: Net, b: Buckets, m: Gossip, req: Request) {
    net.parse(m.response) == Some(req) && SignerOf(net, m) != -1 ==>
      forall e, g | e in b && g in b[e] && g.index == SignerOf(net, m) :: e == net.digest(m.response)
  }

  /** And neither does any of the messages to come. */
  ghost predicate Fair(net: Net, responses: map<seq<byte>, Buckets>, ms: seq<Gossip>, req: Request)
    decreases |ms|
  {
    ms != [] ==>
      && OneWay(net, Held(responses, req), ms[0], req)
      && Fair(net, Process(net, responses, ms[0], req).0, ms[1..], req)
  }

  lemma SignerIsSeated(net: Net, m: Gossip)
    requires SignerOf(net, m) != -1
    ensures SignerOf(net, m) in Seats(net.keys)
  {
  }

  /** Buckets with one more signature. */
  function Plus(b: Buckets, d: Digest, g: GuardianSignature): Buckets { b[d := BucketOf(b, d) + [g]] }

  function SignatureOf(net: Net, m: Gossip): GuardianSignature
    requires SignerOf(net, m) != -1
  {
    GuardianSignature(SignerOf(net, m), m.signature)
  }

  lemma GrownIsPlus(net: Net, responses: map<seq<byte>, Buckets>, m: Gossip, req: Request)
    requires SignerOf(net, m) != -1
    ensures Grown(net, responses, m, req) == Plus(Held(responses, req), net.digest(m.response), SignatureOf(net, m))
    ensures net.digest(m.response) in Grown(net, responses, m, req)
  {
  }

  /** What is added for a guardian that has not answered before. */
  lemma PlusAdds(b: Buckets, d: Digest, g: GuardianSignature)
    ensures var c := Plus(b, d, g);
      && c.Keys == b.Keys + {d} && Responders(c, c.Keys) == Responders(b, b.Keys) + {g.index}
      && forall e :: |BucketOf(c, e)| == |BucketOf(b, e)| + if e == d then 1 else 0
  {
    var c := Plus(b, d, g);
    assert c[d] == BucketOf(b, d) + [g];
    forall i | i in Responders(b, b.Keys)
      ensures i in Responders(c, c.Keys)
    {
      var e, h :| e in b && h in b[e] && h.index == i;
      assert e in c && h in c[e];
    }
    assert g in c[d];
  }

  lemma PlusSound(b: Buckets, d: Digest, g: GuardianSignature, keys: seq<EthAddress>)
    requires g.index in Seats(keys) && g.index !in Responders(b, b.Keys) && (b == map[] || Sound(b, keys))
    ensures Sound(Plus(b, d, g), keys)
  {
    hide Seats, Responders, OneAnswerEach;
    forall e: Digest, h: GuardianSignature | e in b && h in b[e]
      ensures h.index != g.index
    {
      IsResponder(b, e, h);
    }
    PlusOneAnswerEach(b, d, g);
    PlusSeated(b, d, g, keys);
    assert forall h | h in BucketOf(b, d) :: OtherGuardian(h, g);
    assert Plus(b, d, g)[d] == BucketOf(b, d) + [g];
    hide Seated;
  }

  lemma IsResponder(b: Buckets, e: Digest, h: GuardianSignature)
    requires e in b && h in b[e]
    ensures h.index in Responders(b, b.Keys)
  {
  }

  lemma PlusSeated(b: Buckets, d: Digest, g: GuardianSignature, keys: seq<EthAddress>)
    requires g.index in Seats(keys) && Seated(b, keys)
    ensures Seated(Plus(b, d, g), keys)
  {
    hide Seats;
    assert Plus(b, d, g)[d] == BucketOf(b, d) + [g];
  }

  lemma PlusOneAnswerEach(b: Buckets, d: Digest, g: GuardianSignature)
    requires OneAnswerEach(b) && forall e: Digest, h: GuardianSignature | e in b && h in b[e] :: h.index != g.index
    ensures OneAnswerEach(Plus(b, d, g))
  {
    var c := Plus(b, d, g);
    assert c[d] == BucketOf(b, d) + [g];
    assert forall e: Digest | e in b && e != d :: c[e] == b[e];
    forall e: Digest, f: Digest, x: GuardianSignature, y: GuardianSignature |
      e in c && f in c && e != f && x in c[e] && y in c[f]
      ensures x.index != y.index
    {
      if e == d {
        assert y in b[f] && (x == g || x in b[d]);
      } else if f == d {
        assert x in b[e] && (y == g || y in b[d]);
      }
    }
  }

  /** A first answer makes nothing possible that was not possible before. */
  lemma PlusImpossible(b: Buckets, d: Digest, g: GuardianSignature, keys: seq<EthAddress>, q: nat)
    requires g.index in Seats(keys) && g.index !in Responders(b, b.Keys) && !Possible(b, keys, q)
    ensures !Possible(Plus(b, d, g), keys, q)
  {
    PlusAdds(b, d, g);
    hide Seats, Responders, Plus;
    var c := Plus(b, d, g);
    forall e, extra
      ensures !Completes(c, keys, q, e, extra)
    {
      assert !Completes(b, keys, q, e, if e == d then extra + {g.index} else extra);
    }
  }

  lemma AnsweredIsHeld(net: Net, b: Buckets, m: Gossip, req: Request)
    requires OneWay(net, b, m, req) && net.parse(m.response) == Some(req) && SignerOf(net, m) != -1
    requires SignerOf(net, m) in Responders(b, b.Keys)
    ensures Holds(BucketOf(b, net.digest(m.response)), SignerOf(net, m))
  {
    hide SignerOf;
    var e, g :| e in b && g in b[e] && g.index == SignerOf(net, m);
  }

  lemma NotYetAnswered(net: Net, responses: map<seq<byte>, Buckets>, m: Gossip, req: Request)
    requires OneWay(net, Held(responses, req), m, req) && !Process(net, responses, m, req).1.Ignored?
    ensures var b := Held(responses, req); SignerOf(net, m) !in Responders(b, b.Keys)
  {
    hide SignerOf, Hopeless, Grown, Holds, OneWay;
    var b := Held(responses, req);
    if SignerOf(net, m) in Responders(b, b.Keys) {
      AnsweredIsHeld(net, b, m, req);
    }
  }

  lemma TurnKeepsImpossible(net: Net, responses: map<seq<byte>, Buckets>, m: Gossip, req: Request)
    requires !Possible(Held(responses, req), net.keys, Quorum(net)) && OneWay(net, Held(responses, req), m, req)
    ensures var (next, e) := Process(net, responses, m, req);
      !e.Forward? && (e.Waits? || e.Ignored? ==> !Possible(Held(next, req), net.keys, Quorum(net)))
  {
    hide SignerOf, Seats, Grown, Responders, Hopeless, OneWay, Possible, Holds, Plus;
    var (next, e) := Process(net, responses, m, req);
    if !e.Ignored? {
      NotYetAnswered(net, responses, m, req);
      SignerIsSeated(net, m);
      GrownIsPlus(net, responses, m, req);
      var c := Grown(net, responses, m, req);
      PlusImpossible(Held(responses, req), net.digest(m.response), SignatureOf(net, m), net.keys, Quorum(net));
      AtQuorumIsPossible(c, net.keys, Quorum(net), net.digest(m.response));
      assert Held(responses[req.signature := c], req) == c;
      assert e.Waits? ==> next == responses[req.signature := c];
    }
  }

  lemma AtQuorumIsPossible(b: Buckets, keys: seq<EthAddress>, q: nat, d: Digest)
    ensures |BucketOf(b, d)| >= q ==> Possible(b, keys, q)
  {
    if |BucketOf(b, d)| >= q {
      assert Completes(b, keys, q, d, {});
    }
  }

  /** Once quorum is impossible, no messages to come are forwarded, unless a guardian answers in two
      ways or the request is given up and gathered anew. */
  lemma {:induction false} NoForwardIfImpossible(net: Net, responses: map<seq<byte>, Buckets>, ms: seq<Gossip>,
        req: Request)
    requires !Possible(Held(responses, req), net.keys, Quorum(net)) && Fair(net, responses, ms, req)
    ensures !EndsInForward(net, responses, ms, req)
    decreases |ms|
  {
    hide Possible, OneWay, Process;
    if ms != [] {
      TurnKeepsImpossible(net, responses, ms[0], req);
      var (next, e) := Process(net, responses, ms[0], req);
      if e.Waits? || e.Ignored? {
        NoForwardIfImpossible(net, next, ms[1..], req);
      }
    }
  }

  /** The message is the answer d of the guardian in seat i to req. */
  ghost predicate Says(net: Net, m: Gossip, req: Request, d: Digest, i: nat) {
    net.parse(m.response) == Some(req) && net.digest(m.response) == d && SignerOf(net, m) == i
  }

  /** One more of the answers that complete a quorum. */
  lemma PlusCompletes(b: Buckets, d: Digest, g: GuardianSignature, keys: seq<EthAddress>, q: nat, extra: set<nat>)
    requires (b == map[] || Sound(b, keys)) && Completes(b, keys, q, d, extra) && g.index in extra
    ensures var c := Plus(b, d, g);
      Sound(c, keys) && Completes(c, keys, q, d, extra - {g.index}) && !Hopeless(c, |keys|, q)
  {
    PlusAdds(b, d, g);
    PlusSound(b, d, g, keys);
    hide Seats, Responders, OneAnswerEach, Plus, Total;
    var c := Plus(b, d, g);
    RespondersCount(c, c.Keys);
    Outstanding(c, keys);
    SeatsCount(keys);
    var left := Seats(keys) - Responders(c, c.Keys);
    assert extra - {g.index} <= left;
    SubsetSize(extra - {g.index}, left);
    assert |extra - {g.index}| == |extra| - 1;
    assert |c[d]| == |BucketOf(c, d)|;
    assert |c[d]| + (|keys| - Total(c, c.Keys)) >= q;
  }

  /** A completion cannot use a guardian that has answered. */
  lemma OutstandingSays(net: Net, b: Buckets, req: Request, d: Digest, extra: set<nat>, i: nat, m: Gossip)
    requires Completes(b, net.keys, Quorum(net), d, extra) && i in extra && Says(net, m, req, d, i)
    ensures OneWay(net, b, m, req) && !Holds(BucketOf(b, d), i)
  {
    hide SignerOf, Seats;
    forall e: Digest, g | e in b && g in b[e]
      ensures g.index != i
    {
      assert g.index in Responders(b, b.Keys);
    }
  }

  lemma CompletionTurn(net: Net, responses: map<seq<byte>, Buckets>, req: Request, d: Digest, extra: set<nat>, i: nat,
        m: Gossip)
    requires Held(responses, req) == map[] || Sound(Held(responses, req), net.keys)
    requires Completes(Held(responses, req), net.keys, Quorum(net), d, extra) && i in extra && Says(net, m, req, d, i)
    ensures OneWay(net, Held(responses, req), m, req)
    ensures var (next, e) := Process(net, responses, m, req);
      && (e.Forward? || (e.Waits? && Sound(Held(next, req), net.keys)
            && Completes(Held(next, req), net.keys, Quorum(net), d, extra - {i})
            && |BucketOf(Held(next, req), d)| < Quorum(net)))
  {
    OutstandingSays(net, Held(responses, req), req, d, extra, i, m);
    GrownIsPlus(net, responses, m, req);
    PlusCompletes(Held(responses, req), d, SignatureOf(net, m), net.keys, Quorum(net), extra);
    hide SignerOf, Seats, Grown, Plus, Sound, Completes, Hopeless, Holds;
  }

  lemma LastTurn(net: Net, responses: map<seq<byte>, Buckets>, m: Gossip, req: Request)
    requires Process(net, responses, m, req).1.Forward? && OneWay(net, Held(responses, req), m, req)
    ensures EndsInForward(net, responses, [m], req) && Fair(net, responses, [m], req)
  {
    hide Process, OneWay;
    assert [m][1..] == [];
  }

  lemma NextTurn(net: Net, responses: map<seq<byte>, Buckets>, m: Gossip, rest: seq<Gossip>, req: Request)
    requires Process(net, responses, m, req).1.Waits? && OneWay(net, Held(responses, req), m, req)
    requires var next := Process(net, responses, m, req).0;
      EndsInForward(net, next, rest, req) && Fair(net, next, rest, req)
    ensures EndsInForward(net, responses, [m] + rest, req) && Fair(net, responses, [m] + rest, req)
  {
    hide Process, OneWay;
    assert ([m] + rest)[1..] == rest;
  }

  lemma CompletionNeedsSomeone(b: Buckets, keys: seq<EthAddress>, q: nat, d: Digest, extra: set<nat>)
    requires Completes(b, keys, q, d, extra) && |BucketOf(b, d)| < q
    ensures extra != {}
  {
  }

  /** A completion is a run: if the guardians of a completion give that answer, the messages are taken
      one by one and the last one needed is forwarded. */
  lemma {:induction false} CompletionRun(net: Net, responses: map<seq<byte>, Buckets>, req: Request, d: Digest,
        extra: set<nat>, say: nat -> Gossip)
    returns (ms: seq<Gossip>)
    requires Held(responses, req) == map[] || Sound(Held(responses, req), net.keys)
    requires Completes(Held(responses, req), net.keys, Quorum(net), d, extra)
    requires |BucketOf(Held(responses, req), d)| < Quorum(net)
    requires forall i | i in extra :: Says(net, say(i), req, d, i)
    ensures EndsInForward(net, responses, ms, req) && Fair(net, responses, ms, req)
    ensures forall m | m in ms :: exists i :: i in extra && m == say(i)
    decreases |extra|
  {
    CompletionNeedsSomeone(Held(responses, req), net.keys, Quorum(net), d, extra);
    hide Sound, Completes, Says, OneWay, Process, BucketOf, Held, Quorum, Fair, EndsInForward;
    var i :| i in extra;
    CompletionTurn(net, responses, req, d, extra, i, say(i));
    var (next, e) := Process(net, responses, say(i), req);
    if e.Forward? {
      ms := [say(i)];
      LastTurn(net, responses, say(i), req);
    } else {
      var rest := CompletionRun(net, next, req, d, extra - {i}, say);
      ms := [say(i)] + rest;
      NextTurn(net, responses, say(i), rest, req);
      forall m | m in ms
        ensures exists j :: j in extra && m == say(j)
      {
        if m in rest {
          var j :| j in extra - {i} && m == say(j);
        }
      }
    }
  }

  // ---------------------------------------------------------------- where the verdict fails

  /** A guardian that backs two answers is counted twice, and the listener then gives up
      although the others could still complete a quorum: with three guardians, the first
      answer of one of them is kept and its second, different answer ends the request. */
  lemma DoubleAnswerGivesUpEarly(net: Net, responses: map<seq<byte>, Buckets>, m1: Gossip, m2: Gossip, req: Request)
    requires |net.keys| == 3 && Distinct(net.keys) && req.signature !in responses
    requires net.parse(m1.response) == Some(req) && net.parse(m2.response) == Some(req)
    requires SignerOf(net, m1) == SignerOf(net, m2) != -1 && net.digest(m1.response) != net.digest(m2.response)
    ensures var (between, e1) := Process(net, responses, m1, req);
      && e1 == Waits && Process(net, between, m2, req).1 == QuorumNotMet
      && var b := Grown(net, between, m2, req);
         Completes(b, net.keys, Quorum(net), net.digest(m1.response), Seats(net.keys) - {SignerOf(net, m1)})
  {
    SignerIsSeated(net, m1);
    SeatsCount(net.keys);
    hide SignerOf, Completes, Hopeless, Total, Seats, Distinct;
    var one, two := net.digest(m1.response), net.digest(m2.response);
    FirstOfItsDigest(net, responses, m1, req);
    var b := Grown(net, responses, m1, req);
    assert b.Keys == {one};
    OneAnswerWaits(b, one);
    var between := responses[req.signature := b];
    assert Held(between, req) == b;
    FirstOfItsDigest(net, between, m2, req);
    var c := Grown(net, between, m2, req);
    assert c.Keys == {one, two};
    TwoAnswersHopeless(c, one, two);
    OthersComplete(c, net.keys, one, two, SignerOf(net, m1));
    hide Grown, Held;
  }

  lemma FirstOfItsDigest(net: Net, responses: map<seq<byte>, Buckets>, m: Gossip, req: Request)
    requires SignerOf(net, m) != -1 && net.digest(m.response) !in Held(responses, req)
    ensures Grown(net, responses, m, req) ==
      Held(responses, req)[net.digest(m.response) := [GuardianSignature(SignerOf(net, m), m.signature)]]
  {
    var none: seq<GuardianSignature> := [];
    var g := GuardianSignature(SignerOf(net, m), m.signature);
    assert none + [g] == [g];
  }

  lemma OneAnswerWaits(b: Buckets, d: Digest)
    requires b.Keys == {d} && |b[d]| == 1
    ensures !Hopeless(b, 3, CalculateQuorum(3))
  {
    TotalSplit(b, {d}, d);
    assert {d} - {d} == {};
  }

  lemma TwoAnswersHopeless(b: Buckets, one: Digest, two: Digest)
    requires one != two && b.Keys == {one, two} && |b[one]| == 1 && |b[two]| == 1
    ensures Hopeless(b, 3, CalculateQuorum(3))
  {
    TotalSplit(b, {one, two}, one);
    assert {one, two} - {one} == {two};
    TotalSplit(b, {two}, two);
    assert {two} - {two} == {};
    assert Total(b, b.Keys) == 2;
    hide Total;
  }

  lemma OthersComplete(b: Buckets, keys: seq<EthAddress>, one: Digest, two: Digest, i: nat)
    requires b.Keys == {one, two} && |b[one]| == 1 && |b[two]| == 1 && b[one][0].index == b[two][0].index == i
    requires i in Seats(keys) && |Seats(keys)| == 3
    ensures Completes(b, keys, CalculateQuorum(3), one, Seats(keys) - {i})
  {
    assert Responders(b, b.Keys) <= {i};
    var all := Seats(keys);
    hide Seats, Responders;
    assert all == (all - {i}) + {i};
    assert |all - {i}| == 2;
  }

  /** With a key listed twice, as in [a, a, b], the listener keeps waiting although both guardians
      have answered and agree: the second seat of a is never filled. No message is forwarded any
      more, and the answer they gave is ignored. */
  lemma RepeatedKeyKeepsWaiting(net: Net, responses: map<seq<byte>, Buckets>, m1: Gossip, m2: Gossip, req: Request,
        a: EthAddress, b: EthAddress)
    requires net.keys == [a, a, b] && a != b && req.signature !in responses
    requires net.parse(m1.response) == Some(req) && net.parse(m2.response) == Some(req)
    requires net.digest(m1.response) == net.digest(m2.response)
    requires Ecrecover(net.c, net.digest(m1.response), m1.signature) == Some(a)
    requires Ecrecover(net.c, net.digest(m2.response), m2.signature) == Some(b)
    ensures var (between, e1) := Process(net, responses, m1, req);
      var (after, e2) := Process(net, between, m2, req);
      && e1 == Waits && e2 == Waits
      && !Possible(Held(after, req), net.keys, Quorum(net))
      && (forall m: Gossip | net.digest(m.response) == net.digest(m1.response) ::
         Process(net, after, m, req).1 == Ignored)
      && (forall ms | Fair(net, after, ms, req) :: !EndsInForward(net, after, ms, req))
  {
    hide Process, Fair, EndsInForward, Possible, Grown;
    var after := TwoTurns(net, responses, m1, m2, req, a, b);
    var d := net.digest(m1.response);
    var y := Held(after, req);
    SeatsOfThree(a, b);
    LoneBucket(y, d);
    IndicesOfTwo(y[d]);
    NoneLeft(y, net.keys, Quorum(net));
    forall m: Gossip | net.digest(m.response) == d
      ensures Process(net, after, m, req).1 == Ignored
    {
      AnsweredIgnored(net, after, m, req, a, b);
    }
    forall ms | Fair(net, after, ms, req)
      ensures !EndsInForward(net, after, ms, req)
    {
      NoForwardIfImpossible(net, after, ms, req);
    }
  }

  lemma AnsweredIgnored(net: Net, responses: map<seq<byte>, Buckets>, m: Gossip, req: Request, a: EthAddress,
        b: EthAddress)
    requires net.keys == [a, a, b] && a != b
    requires var y, d := Held(responses, req), net.digest(m.response);
      d in y && |y[d]| == 2 && y[d][0].index == 0 && y[d][1].index == 2
    ensures Process(net, responses, m, req).1 == Ignored
  {
    var sigs := Held(responses, req)[net.digest(m.response)];
    assert sigs[0] in sigs && sigs[1] in sigs;
    assert SignerOf(net, m) != 1 by { assert net.keys[0] == net.keys[1]; }
  }

  lemma IndicesOfTwo(sigs: seq<GuardianSignature>)
    requires |sigs| == 2
    ensures Indices(sigs) == {sigs[0].index, sigs[1].index}
  {
    assert sigs[0] in sigs && sigs[1] in sigs;
  }

  /** The two turns that leave the request open. */
  lemma TwoTurns(net: Net, responses: map<seq<byte>, Buckets>, m1: Gossip, m2: Gossip, req: Request, a: EthAddress,
        b: EthAddress)
    returns (after: map<seq<byte>, Buckets>)
    requires net.keys == [a, a, b] && a != b && req.signature !in responses
    requires net.parse(m1.response) == Some(req) && net.parse(m2.response) == Some(req)
    requires net.digest(m1.response) == net.digest(m2.response)
    requires Ecrecover(net.c, net.digest(m1.response), m1.signature) == Some(a)
    requires Ecrecover(net.c, net.digest(m2.response), m2.signature) == Some(b)
    ensures var (between, e1) := Process(net, responses, m1, req);
      e1 == Waits && Process(net, between, m2, req) == (after, Waits)
    ensures var y, d := Held(after, req), net.digest(m1.response);
      y.Keys == {d} && |y[d]| == 2 && y[d][0].index == 0 && y[d][1].index == 2
  {
    SeatsOfThree(a, b);
    assert SignerOf(net, m1) == 0 by { assert net.keys[0] == a; }
    assert SignerOf(net, m2) == 2 by { assert net.keys[2] == b; }
    hide SignerOf, Hopeless;
    var d := net.digest(m1.response);
    FirstOfItsDigest(net, responses, m1, req);
    var x := Grown(net, responses, m1, req);
    assert x.Keys == {d} && |x[d]| == 1;
    OneBucket(x, d);
    var between := responses[req.signature := x];
    assert Process(net, responses, m1, req) == (between, Waits);
    var y := Grown(net, between, m2, req);
    assert y.Keys == {d} && y[d] == x[d] + [GuardianSignature(2, m2.signature)];
    OneBucket(y, d);
    assert forall g | g in x[d] :: g.index == 0;
    after := between[req.signature := y];
    assert Process(net, between, m2, req) == (after, Waits);
  }

  lemma SeatsOfThree(a: EthAddress, b: EthAddress)
    requires a != b
    ensures Seats([a, a, b]) == {0, 2} && CalculateQuorum(3) == 3
  {
    var keys := [a, a, b];
    SeatIsFirst(keys, 0);
    SeatIsFirst(keys, 1);
    SeatIsFirst(keys, 2);
    assert !FirstOfItsKey(keys, 1) by { assert keys[0] == keys[1]; }
  }

  lemma OneBucket(b: Buckets, d: Digest)
    requires b.Keys == {d} && 1 <= |b[d]| <= 2
    ensures !Hopeless(b, 3, CalculateQuorum(3))
  {
    LoneBucket(b, d);
  }
}
