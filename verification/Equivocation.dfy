/** Two thirds plus one: why a guardian set cannot approve two bodies for one message. */
module Equivocation {
  import opened Binary
  import opened Vaa
  import opened Keys
  import opened Resign

  /** The guardian positions lo up to hi. */
  ghost function Range(lo: nat, hi: nat): (r: set<nat>)
    ensures forall i :: i in r <==> lo <= i < hi
    ensures |r| == if lo <= hi then hi - lo else 0
    decreases hi
  {
    if lo >= hi then {} else Range(lo, hi - 1) + {hi - 1}
  }

  lemma SubsetSize<T>(a: set<T>, b: set<T>)
    requires a <= b
    ensures |a| <= |b|
  {
    assert b == a + (b - a);
  }

  /** Any two quorums of n guardians share more than a third of them. */
  lemma QuorumsOverlap(n: nat, a: set<nat>, b: set<nat>)
    requires a <= Range(0, n) && b <= Range(0, n)
    requires |a| >= CalculateQuorum(n) && |b| >= CalculateQuorum(n)
    ensures |a * b| >= 2 * CalculateQuorum(n) - n >= n / 3 + 1
  {
    SubsetSize(a + b, Range(0, n));
  }

  lemma OverlapArithmetic(n: nat)
    ensures 2 * CalculateQuorum(n) - n >= n / 3 + 1
    ensures n % 3 == 1 ==> 2 * CalculateQuorum(n) - n == n / 3 + 1
  {
    var k := n / 3;
    assert n == 3 * k || n == 3 * k + 1 || n == 3 * k + 2;
  }

  lemma RangesMeet(lo: nat, mid: nat, hi: nat)
    requires lo <= mid <= hi
    ensures Range(0, mid) * Range(lo, hi) == Range(lo, mid)
  {
  }

  /** The overlap cannot be improved: some pair of quorums shares no more than that. */
  lemma OverlapIsTight(n: nat) returns (a: set<nat>, b: set<nat>)
    requires n > 0
    ensures a <= Range(0, n) && b <= Range(0, n)
    ensures |a| == CalculateQuorum(n) && |b| == CalculateQuorum(n)
    ensures |a * b| == 2 * CalculateQuorum(n) - n
    ensures n % 3 == 1 ==> |a * b| == n / 3 + 1
  {
    var q := CalculateQuorum(n);
    var m := n - q;
    OverlapArithmetic(n);
    RangesMeet(m, q, n);
    a, b := Range(0, q), Range(m, n);
    assert a <= Range(0, n) && b <= Range(0, n);
    assert |a| == q && |b| == q && |a * b| == q - m;
  }

  ghost function SignerIndices(sigs: seq<Signature>): set<nat> {
    set i | 0 <= i < |sigs| :: sigs[i].index as nat
  }

  lemma {:induction false} SignerCount(sigs: seq<Signature>)
    requires forall i, j | 0 <= i < j < |sigs| :: sigs[i].index < sigs[j].index
    ensures |SignerIndices(sigs)| == |sigs|
  {
    if sigs != [] {
      var init, last := sigs[..|sigs| - 1], sigs[|sigs| - 1];
      SignerCount(init);
      assert forall i | 0 <= i < |init| :: init[i] == sigs[i];
      assert SignerIndices(sigs) == SignerIndices(init) + {last.index as nat};
    }
  }

  /** The signature of v at guardian position i recovers to that guardian's key. */
  ghost predicate SignedAt(c: Crypto, keys: seq<EthAddress>, v: VAA, i: nat) {
    exists k :: 0 <= k < |v.signatures| && v.signatures[k].index == i && i < |keys|
      && Ecrecover(c, SigningDigest(c, v), v.signatures[k].data) == Some(keys[i])
  }

  lemma ValidSigners(c: Crypto, v: VAA, keys: seq<EthAddress>)
    requires ValidSignatures(c, SigningDigest(c, v), v.signatures, keys)
    ensures |SignerIndices(v.signatures)| == |v.signatures|
    ensures forall i | i in SignerIndices(v.signatures) :: i < |keys| && SignedAt(c, keys, v, i)
  {
    SignerCount(v.signatures);
    forall i | i in SignerIndices(v.signatures)
      ensures i < |keys| && SignedAt(c, keys, v, i)
    {
      var k :| 0 <= k < |v.signatures| && v.signatures[k].index == i;
    }
  }

  /** Whatever two VAAs a guardian set accepts, more than a third of the guardians have their
      signatures under both. */
  lemma BothSigned(c: Crypto, keys: seq<EthAddress>, v: VAA, w: VAA) returns (both: set<nat>)
    requires VerdictOn(c, v, Some(keys)) == Accepted && VerdictOn(c, w, Some(keys)) == Accepted
    ensures |both| >= 2 * CalculateQuorum(|keys|) - |keys| >= |keys| / 3 + 1
    ensures forall i | i in both :: i < |keys| && SignedAt(c, keys, v, i) && SignedAt(c, keys, w, i)
  {
    ValidSigners(c, v, keys);
    ValidSigners(c, w, keys);
    QuorumsOverlap(|keys|, SignerIndices(v.signatures), SignerIndices(w.signatures));
    both := SignerIndices(v.signatures) * SignerIndices(w.signatures);
  }

  // ---------------------------------------------------------------- what guardians have signed

  /** The bodies that the guardian at each position has in fact signed. */
  type Issued = (nat, seq<byte>) -> bool

  /** Guardian i has not signed two different bodies under one message id. */
  ghost predicate Consistent(issued: Issued, i: nat) {
    forall v, w :: issued(i, Body(v)) && issued(i, Body(w)) && MessageID(IdOf(v)) == MessageID(IdOf(w)) ==>
      Body(v) == Body(w)
  }

  /** The signatures that v carries were made by their guardians, leaving out some of them. */
  ghost predicate NotForged(issued: Issued, except: set<nat>, v: VAA) {
    forall k | 0 <= k < |v.signatures| && v.signatures[k].index as nat !in except ::
      issued(v.signatures[k].index, Body(v))
  }

  /** As long as fewer guardians contradict themselves than any two quorums share, and the others'
      signatures are not forged, no two accepted VAAs with the same message id differ in anything
      that is signed. */
  lemma NoTwoBodies(c: Crypto, keys: seq<EthAddress>, issued: Issued, equivocators: set<nat>, v: VAA, w: VAA)
    requires |equivocators| < 2 * CalculateQuorum(|keys|) - |keys|
    requires forall i: nat | i < |keys| && i !in equivocators :: Consistent(issued, i)
    requires NotForged(issued, equivocators, v) && NotForged(issued, equivocators, w)
    requires VerdictOn(c, v, Some(keys)) == Accepted && VerdictOn(c, w, Some(keys)) == Accepted
    requires MessageID(IdOf(v)) == MessageID(IdOf(w))
    ensures Body(v) == Body(w)
    ensures v.payload == w.payload && v.nonce == w.nonce && v.consistencyLevel == w.consistencyLevel
  {
    var both := BothSigned(c, keys, v, w);
    if both <= equivocators {
      SubsetSize(both, equivocators);
      assert false;
    }
    var i :| i in both && i !in equivocators;
    assert Consistent(issued, i);
    BodyInjective(v, w);
  }

  /** A third of the guardians, rounded down, is fewer than that. */
  lemma ThirdIsFewer(n: nat, equivocators: set<nat>)
    requires |equivocators| <= n / 3
    ensures |equivocators| < 2 * CalculateQuorum(n) - n
  {
    OverlapArithmetic(n);
  }

  // ---------------------------------------------------------------- the premises and the bound

  /** The addresses of guardians. */
  function AddressesOf(gs: seq<Signer>): (keys: seq<EthAddress>)
    ensures |keys| == |gs| && forall i | 0 <= i < |gs| :: keys[i] == gs[i].address
  {
    seq(|gs|, i requires 0 <= i < |gs| => gs[i].address)
  }

  /** Guardians whose keys all work, each with an address of its own. */
  ghost predicate Working(c: Crypto, gs: seq<Signer>) {
    && 0 < |gs| <= 256 && (forall i | 0 <= i < |gs| :: SignsAsItself(c, gs[i]))
    && (forall i, j | 0 <= i < j < |gs| :: gs[i].address != gs[j].address)
  }

  /** v signed by the guardians from lo up to hi. */
  function SignedBy(c: Crypto, gs: seq<Signer>, lo: nat, hi: nat, v: VAA): VAA
    requires lo <= hi <= |gs| <= 256
  {
    v.(signatures := seq(hi - lo, k requires 0 <= k < hi - lo => Signature(lo +
      k, gs[lo + k].sign(SigningDigest(c, v)))))
  }

  lemma SignedByQuorum(c: Crypto, gs: seq<Signer>, lo: nat, hi: nat, v: VAA)
    requires Working(c, gs) && lo <= hi <= |gs| && hi - lo >= CalculateQuorum(|gs|)
    ensures VerdictOn(c, SignedBy(c, gs, lo, hi, v), Some(AddressesOf(gs))) == Accepted
    ensures Body(SignedBy(c, gs, lo, hi, v)) == Body(v)
  {
    var w := SignedBy(c, gs, lo, hi, v);
    var keys := AddressesOf(gs);
    assert Body(w) == Body(v);
    forall k | 0 <= k < hi - lo
      ensures w.signatures[k].index == lo + k
        && Ecrecover(c, SigningDigest(c, w), w.signatures[k].data) == Some(keys[lo + k])
    {
      var d := SigningDigest(c, v);
      assert SignsAsItself(c, gs[lo + k]);
      assert c.recover(d, gs[lo + k].sign(d)) == Some(keys[lo + k]);
    }
  }

  lemma SignedByNotForged(c: Crypto, gs: seq<Signer>, lo: nat, hi: nat, v: VAA, issued: Issued)
    requires lo <= hi <= |gs| <= 256 && forall i: nat | lo <= i < hi :: issued(i, Body(v))
    ensures NotForged(issued, {}, SignedBy(c, gs, lo, hi, v))
  {
    assert Body(SignedBy(c, gs, lo, hi, v)) == Body(v);
  }

  /** What guardians have signed who have signed one body, and some of them a second one. */
  function IssuedBoth(a: seq<byte>, b: seq<byte>, lo: nat, hi: nat): Issued {
    (i, s) => (s == a && i < hi) || (s == b && lo <= i)
  }

  lemma OneBodyIsConsistent(a: seq<byte>, b: seq<byte>, lo: nat, hi: nat, i: nat)
    requires lo <= hi && (i < lo || hi <= i)
    ensures Consistent(IssuedBoth(a, b, lo, hi), i)
  {
  }

  /** Working guardians can meet all the premises: for every body there is a VAA that they have all
      signed, and nothing else, and that is accepted. */
  lemma PremisesAreMet(c: Crypto, gs: seq<Signer>, v: VAA)
    requires Working(c, gs)
    ensures var issued := IssuedBoth(Body(v), Body(v), 0, |gs|);
      var w := SignedBy(c, gs, 0, |gs|, v);
      && (forall i: nat | i < |gs| :: Consistent(issued, i))
      && NotForged(issued, {}, w) && VerdictOn(c, w, Some(AddressesOf(gs))) == Accepted
  {
    SignedByQuorum(c, gs, 0, |gs|, v);
  }

  /** And the bound is exact: if as many guardians as two quorums must share sign both bodies, and
      everyone else only one, both are accepted, whatever the bodies are. */
  lemma OneMoreEquivocatorSuffices(c: Crypto, gs: seq<Signer>, v: VAA, w: VAA)
    requires Working(c, gs)
    ensures var q := CalculateQuorum(|gs|);
      var lo := |gs| - q;
      var issued := IssuedBoth(Body(v), Body(w), lo, q);
      var v', w' := SignedBy(c, gs, 0, q, v), SignedBy(c, gs, lo, |gs|, w);
      && |Range(lo, q)| == 2 * q - |gs|
      && (forall i: nat | i < |gs| && i !in Range(lo, q) :: Consistent(issued, i))
      && NotForged(issued, {}, v') && NotForged(issued, {}, w')
      && VerdictOn(c, v', Some(AddressesOf(gs))) == Accepted && Body(v') == Body(v)
      && VerdictOn(c, w', Some(AddressesOf(gs))) == Accepted && Body(w') == Body(w)
  {
    hide Working, Body, SignedBy, VerdictOn, NotForged, Consistent, CalculateQuorum, AddressesOf, IssuedBoth, Range;
    WorkingSize(c, gs);
    var q := CalculateQuorum(|gs|);
    OverlapArithmetic(|gs|);
    OthersConsistent(Body(v), Body(w), |gs| - q, q);
    BothSignedFairly(c, gs, |gs| - q, q, v, w);
  }

  lemma WorkingSize(c: Crypto, gs: seq<Signer>)
    requires Working(c, gs)
    ensures 0 < |gs| <= 256
  {
  }

  lemma OthersConsistent(a: seq<byte>, b: seq<byte>, lo: nat, hi: nat)
    requires lo <= hi
    ensures forall i: nat | i !in Range(lo, hi) :: Consistent(IssuedBoth(a, b, lo, hi), i)
  {
    hide Consistent, IssuedBoth, Range;
    forall i: nat | i !in Range(lo, hi)
      ensures Consistent(IssuedBoth(a, b, lo, hi), i)
    {
      OneBodyIsConsistent(a, b, lo, hi, i);
    }
  }

  lemma BothSignedFairly(c: Crypto, gs: seq<Signer>, lo: nat, hi: nat, v: VAA, w: VAA)
    requires Working(c, gs) && lo <= |gs| <= 256 && hi <= |gs|
    requires hi >= CalculateQuorum(|gs|) && |gs| - lo >= CalculateQuorum(|gs|)
    ensures var issued := IssuedBoth(Body(v), Body(w), lo, hi);
      var v', w' := SignedBy(c, gs, 0, hi, v), SignedBy(c, gs, lo, |gs|, w);
      && NotForged(issued, {}, v') && NotForged(issued, {}, w')
      && VerdictOn(c, v', Some(AddressesOf(gs))) == Accepted && Body(v') == Body(v)
      && VerdictOn(c, w', Some(AddressesOf(gs))) == Accepted && Body(w') == Body(w)
  {
    hide Working, Body, SignedBy, VerdictOn, NotForged, CalculateQuorum, AddressesOf, IssuedBoth;
    var issued := IssuedBoth(Body(v), Body(w), lo, hi);
    IssuedToBoth(Body(v), Body(w), lo, hi);
    SignedFairly(c, gs, 0, hi, v, issued);
    SignedFairly(c, gs, lo, |gs|, w, issued);
  }

  lemma IssuedToBoth(a: seq<byte>, b: seq<byte>, lo: nat, hi: nat)
    ensures forall i: nat | i < hi :: IssuedBoth(a, b, lo, hi)(i, a)
    ensures forall i: nat | lo <= i :: IssuedBoth(a, b, lo, hi)(i, b)
  {
  }

  /** A VAA signed by a quorum of working guardians who have issued its body. */
  lemma SignedFairly(c: Crypto, gs: seq<Signer>, lo: nat, hi: nat, v: VAA, issued: Issued)
    requires Working(c, gs) && lo <= hi <= |gs| && hi - lo >= CalculateQuorum(|gs|)
    requires forall i: nat | lo <= i < hi :: issued(i, Body(v))
    ensures var w := SignedBy(c, gs, lo, hi, v);
      NotForged(issued, {}, w) && VerdictOn(c, w, Some(AddressesOf(gs))) == Accepted && Body(w) == Body(v)
  {
    SignedByQuorum(c, gs, lo, hi, v);
    SignedByNotForged(c, gs, lo, hi, v, issued);
  }
}
