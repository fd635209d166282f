/** Moving an approved VAA to a new guardian set: SignExistingVAA of the admin service. */
module Resign {
  import opened Binary
  import opened Vaa
  import opened Sorting
  import opened Guardians

  // ---------------------------------------------------------------- duplicate detection

  /** bytes.Compare(a, b) <= 0. */
  predicate AddressLeq(a: seq<byte>, b: seq<byte>) {
    a == [] || (b != [] && (a[0] < b[0] || (a[0] == b[0] && AddressLeq(a[1..], b[1..]))))
  }

  lemma AddressLeqTotal(a: seq<byte>, b: seq<byte>)
    ensures AddressLeq(a, b) || AddressLeq(b, a)
    ensures AddressLeq(a, b) && AddressLeq(b, a) ==> a == b
  {
    if a != [] && b != [] && a[0] == b[0] {
      AddressLeqTotal(a[1..], b[1..]);
      assert a == [a[0]] + a[1..] && b == [b[0]] + b[1..];
    }
  }

  lemma AddressLeqTransitive(a: seq<byte>, b: seq<byte>, c: seq<byte>)
    requires AddressLeq(a, b) && AddressLeq(b, c)
    ensures AddressLeq(a, c)
  {
  }

  predicate Different(a: EthAddress, b: EthAddress) { a != b }

  ghost predicate Distinct(s: seq<EthAddress>) { Pairwise(s, Different) }

  function AddressOrder(): (EthAddress, EthAddress) -> bool { (a, b) => AddressLeq(a, b) }

  /** slices.Compact: one element for each run of equal ones. */
  function Compact(s: seq<EthAddress>): (r: seq<EthAddress>)
    ensures |r| <= |s|
  {
    if |s| <= 1 then s
    else if s[0] == s[1] then Compact(s[1..])
    else [s[0]] + Compact(s[1..])
  }

  /** On a sorted list compacting keeps the length exactly when nothing repeats. */
  lemma {:induction false} CompactDetectsDuplicates(s: seq<EthAddress>)
    requires Sorted(s, AddressOrder())
    ensures |Compact(s)| == |s| <==> Distinct(s)
  {
    if |s| > 1 {
      var t := s[1..];
      CompactDetectsDuplicates(t);
      if s[0] == s[1] {
        assert !Different(s[0], s[1]);
      } else {
        AddressLeqTotal(s[0], s[1]);
        assert forall j | 1 <= j < |s| :: s[j] == t[j - 1];
        forall j | 0 < j < |s|
          ensures Different(s[0], s[j])
        {
          assert j > 1 ==> AddressOrder()(s[1], s[j]);
        }
        if Distinct(s) {
          forall i, j | 0 <= i < j < |t|
            ensures Different(t[i], t[j])
          {
            assert Different(s[i + 1], s[j + 1]);
          }
        }
      }
    }
  }

  lemma AddressOrderTotal()
    ensures TotalPreorder(AddressOrder())
  {
    forall a: EthAddress, b: EthAddress
      ensures AddressLeq(a, b) || AddressLeq(b, a)
    {
      AddressLeqTotal(a, b);
    }
    forall a: EthAddress, b: EthAddress, c: EthAddress | AddressLeq(a, b) && AddressLeq(b, c)
      ensures AddressLeq(a, c)
    {
      AddressLeqTransitive(a, b, c);
    }
  }

  /** The sort-and-compact test finds a repeated guardian wherever it stands. */
  lemma SortedCompactDetectsDuplicates(s: seq<EthAddress>)
    ensures |Compact(Sort(s, AddressOrder()))| == |s| <==> Distinct(s)
  {
    var r := Sort(s, AddressOrder());
    AddressOrderTotal();
    SortSorted(s, AddressOrder());
    CompactDetectsDuplicates(r);
    if Distinct(s) {
      SortPairwise(s, AddressOrder(), Different);
    }
    if Distinct(r) {
      DistinctSameMultiset(r, s);
    }
  }

  lemma {:induction false} DistinctCount(s: seq<EthAddress>)
    ensures Distinct(s) <==> forall x :: multiset(s)[x] <= 1
  {
    if s != [] {
      var t, x := s[..|s| - 1], s[|s| - 1];
      DistinctCount(t);
      assert s == t + [x];
      assert x in t <==> multiset(t)[x] >= 1;
      if Distinct(s) {
        assert forall i | 0 <= i < |t| :: Different(s[i], x);
      } else if forall y :: multiset(s)[y] <= 1 {
        assert multiset(s)[x] == multiset(t)[x] + 1;
        assert forall y :: multiset(t)[y] <= multiset(s)[y];
      }
    }
  }

  lemma DistinctSameMultiset(r: seq<EthAddress>, s: seq<EthAddress>)
    requires Distinct(r) && multiset(r) == multiset(s)
    ensures Distinct(s)
  {
    DistinctCount(r);
    DistinctCount(s);
  }

  // ---------------------------------------------------------------- the service call

  datatype Refusal =
    | Undecodable | IndexNotHigher | AlreadyOnOldSet | NotVerified(v: Verdict)
    | TooManyGuardians | DuplicateGuardians | NotOnNewSet | QuorumOutOfReach

  /** A set that is not in the cache is a null pointer, and using it is a panic. */
  datatype Outcome = Refused(why: Refusal) | Panicked | Resigned(bytes: seq<byte>)

  /** The local guardian: its address and its signing key as a function of the digest. */
  datatype Signer = Signer(address: EthAddress, sign: Digest -> SignatureData)

  /** A signature made with the local key recovers to the local address. */
  ghost predicate SignsAsItself(c: Crypto, me: Signer) {
    forall d :: c.recover(d, me.sign(d)) == Some(me.address)
  }

  /** The signatures of the old set that stay, at their positions in the new set. */
  function Remap(sigs: seq<Signature>, oldGS: seq<EthAddress>, newGS: seq<EthAddress>): (r: seq<Signature>)
    requires |newGS| <= 255 && forall i | 0 <= i < |sigs| :: sigs[i].index < |oldGS|
    ensures |r| <= |sigs|
  {
    if sigs == [] then []
    else
      var last := sigs[|sigs| - 1];
      var rest := Remap(sigs[..|sigs| - 1], oldGS, newGS);
      var i := IndexOf(newGS, oldGS[last.index]);
      if i == -1 then rest else rest + [Signature(i, last.data)]
  }

  predicate SameSigner(oldGS: seq<EthAddress>, newGS: seq<EthAddress>, s: Signature, t: Signature) {
    s.index < |oldGS| && t.index < |newGS| && oldGS[s.index] == newGS[t.index] && s.data == t.data
  }

  predicate OtherIndex(s: Signature, t: Signature) { s.index != t.index }

  predicate IndexLeq(s: Signature, t: Signature) { s.index <= t.index }

  ghost predicate OneKeyEach(sigs: seq<Signature>, oldGS: seq<EthAddress>) {
    && (forall i | 0 <= i < |sigs| :: sigs[i].index < |oldGS|)
    && (forall i, j | 0 <= i < j < |sigs| :: oldGS[sigs[i].index] != oldGS[sigs[j].index])
  }

  /** t carries the signature of an old signer to its place on the new set. */
  ghost predicate Carried(sigs: seq<Signature>, oldGS: seq<EthAddress>, newGS: seq<EthAddress>, t: Signature) {
    exists k :: 0 <= k < |sigs| && SameSigner(oldGS, newGS, sigs[k], t)
  }

  lemma UniquePosition(s: seq<EthAddress>, i: nat, j: nat)
    requires Distinct(s) && i < |s| && j < |s| && s[i] == s[j]
    ensures i == j
  {
    assert i < j ==> Different(s[i], s[j]);
    assert j < i ==> Different(s[j], s[i]);
  }

  /** Remapping keeps exactly the signatures of guardians on both sets. */
  lemma {:induction false} RemapElement(sigs: seq<Signature>, oldGS: seq<EthAddress>, newGS: seq<EthAddress>,
        t: Signature)
    requires |newGS| <= 255 && Distinct(newGS) && forall i | 0 <= i < |sigs| :: sigs[i].index < |oldGS|
    ensures t in Remap(sigs, oldGS, newGS) <==> Carried(sigs, oldGS, newGS, t)
  {
    if sigs != [] {
      var n := |sigs| - 1;
      var init, i := sigs[..n], IndexOf(newGS, oldGS[sigs[n].index]);
      RemapElement(init, oldGS, newGS, t);
      assert forall k | 0 <= k < n :: init[k] == sigs[k];
      if SameSigner(oldGS, newGS, sigs[n], t) {
        UniquePosition(newGS, i, t.index);
      }
      assert i != -1 ==> SameSigner(oldGS, newGS, sigs[n], Signature(i, sigs[n].data));
      assert Carried(sigs, oldGS, newGS, t) <==> Carried(init, oldGS, newGS, t) || SameSigner(oldGS, newGS, sigs[n], t);
    }
  }

  lemma {:induction false} RemapOneIndexEach(sigs: seq<Signature>, oldGS: seq<EthAddress>, newGS: seq<EthAddress>)
    requires |newGS| <= 255 && Distinct(newGS) && OneKeyEach(sigs, oldGS)
    ensures Pairwise(Remap(sigs, oldGS, newGS), OtherIndex)
  {
    if sigs != [] {
      var n := |sigs| - 1;
      var init, i := sigs[..n], IndexOf(newGS, oldGS[sigs[n].index]);
      var rest := Remap(init, oldGS, newGS);
      RemapOneIndexEach(init, oldGS, newGS);
      forall t | t in rest
        ensures t.index != i
      {
        RemapElement(init, oldGS, newGS, t);
        var k :| 0 <= k < n && SameSigner(oldGS, newGS, init[k], t);
        assert oldGS[sigs[k].index] != oldGS[sigs[n].index];
      }
    }
  }

  /** The old signatures whose guardians are also on the new set. */
  ghost function Survivors(sigs: seq<Signature>, oldGS: seq<EthAddress>, newGS: seq<EthAddress>): set<nat> {
    set k: nat | k < |sigs| && Survives(oldGS, newGS, sigs[k])
  }

  predicate Survives(oldGS: seq<EthAddress>, newGS: seq<EthAddress>, sig: Signature) {
    sig.index < |oldGS| && oldGS[sig.index] in newGS
  }

  lemma SurvivorsStep(sigs: seq<Signature>, oldGS: seq<EthAddress>, newGS: seq<EthAddress>)
    requires sigs != []
    ensures var n := |sigs| - 1;
      |Survivors(sigs, oldGS, newGS)| == |Survivors(sigs[..n], oldGS, newGS)| +
        (if Survives(oldGS, newGS, sigs[n]) then 1 else 0)
  {
    hide Survives;
    var n := |sigs| - 1;
    var init := sigs[..n];
    var before, after := Survivors(init, oldGS, newGS), Survivors(sigs, oldGS, newGS);
    forall k: nat
      ensures k in after <==> k in before || (k == n && Survives(oldGS, newGS, sigs[n]))
    {
      assert k < n ==> init[k] == sigs[k];
    }
    assert after == before + if Survives(oldGS, newGS, sigs[n]) then {n} else {};
  }

  lemma {:induction false} RemapCount(sigs: seq<Signature>, oldGS: seq<EthAddress>, newGS: seq<EthAddress>)
    requires |newGS| <= 255 && forall i | 0 <= i < |sigs| :: sigs[i].index < |oldGS|
    ensures |Remap(sigs, oldGS, newGS)| == |Survivors(sigs, oldGS, newGS)|
  {
    if sigs == [] {
      assert Survivors(sigs, oldGS, newGS) == {};
    } else {
      var n := |sigs| - 1;
      var init := sigs[..n];
      RemapCount(init, oldGS, newGS);
      SurvivorsStep(sigs, oldGS, newGS);
    }
  }

  /** Signatures at different positions of a list of distinct keys verify once sorted. */
  lemma SortedSignaturesValid(c: Crypto, d: Digest, all: seq<Signature>, keys: seq<EthAddress>)
    requires Pairwise(all, OtherIndex) && Distinct(keys)
    requires forall t | t in all :: t.index < |keys| && Ecrecover(c, d, t.data) == Some(keys[t.index])
    ensures ValidSignatures(c, d, Sort(all, IndexLeq), keys)
  {
    hide Ecrecover, Sort;
    var r := Sort(all, IndexLeq);
    SortPairwise(all, IndexLeq, OtherIndex);
    SortSorted(all, IndexLeq);
    SameElements(r, all);
    assert forall i | 0 <= i < |r| :: r[i] in all;
    forall i, j | 0 <= i < j < |r|
      ensures r[i].index < r[j].index && keys[r[i].index] != keys[r[j].index]
    {
      assert IndexLeq(r[i], r[j]) && OtherIndex(r[i], r[j]);
      assert Different(keys[r[i].index], keys[r[j].index]);
    }
  }

  /** The remapped signatures with the local one appended. */
  function Joined(me: Signer, d: Digest, sigs: seq<Signature>, oldGS: seq<EthAddress>,
        newGS: seq<EthAddress>): (r: seq<Signature>)
    requires |newGS| <= 255 && me.address in newGS && forall i | 0 <= i < |sigs| :: sigs[i].index < |oldGS|
  {
    Remap(sigs, oldGS, newGS) + [Signature(IndexOf(newGS, me.address), me.sign(d))]
  }

  /** The remapped signatures and the local one form a valid set for the new guardians. */
  lemma JoinedValid(c: Crypto, me: Signer, d: Digest, sigs: seq<Signature>, oldGS: seq<EthAddress>,
        newGS: seq<EthAddress>)
    requires ValidSignatures(c, d, sigs, oldGS) && SignsAsItself(c, me)
    requires |newGS| <= 255 && Distinct(newGS) && me.address !in oldGS && me.address in newGS
    ensures ValidSignatures(c, d, Sort(Joined(me, d, sigs, oldGS, newGS), IndexLeq), newGS)
  {
    var kept, mine := Remap(sigs, oldGS, newGS), Signature(IndexOf(newGS, me.address), me.sign(d));
    forall t | t in kept
      ensures t.index < |newGS| && Ecrecover(c, d, t.data) == Some(newGS[t.index]) && OtherIndex(t, mine)
    {
      RemapElement(sigs, oldGS, newGS, t);
      var k :| 0 <= k < |sigs| && SameSigner(oldGS, newGS, sigs[k], t);
      assert newGS[t.index] in oldGS;
    }
    RemapOneIndexEach(sigs, oldGS, newGS);
    assert Ecrecover(c, d, mine.data) == Some(newGS[mine.index]);
    SortedSignaturesValid(c, d, kept + [mine], newGS);
  }

  // ---------------------------------------------------------------- main result

  /** The request names a cached old set that accepts the VAA and does not hold the local guardian. */
  ghost predicate Movable(c: Crypto, me: Signer, gsCache: map<uint32, seq<EthAddress>>, v: VAA, newIndex: uint32) {
    && newIndex > v.guardianSetIndex
    && v.guardianSetIndex in gsCache
    && me.address !in gsCache[v.guardianSetIndex]
    && VerdictOn(c, v, Some(gsCache[v.guardianSetIndex])) == Accepted
  }

  /** The new set is well formed, holds the local guardian and reaches quorum with its help. */
  ghost predicate Reachable(me: Signer, oldGS: seq<EthAddress>, sigs: seq<Signature>, newGS: seq<EthAddress>) {
    && |newGS| <= 255 && Distinct(newGS)
    && me.address in newGS
    && |Survivors(sigs, oldGS, newGS)| + 1 >= CalculateQuorum(|newGS|)
  }

  /** w is v moved to the new set: same body, and exactly the surviving signatures at their
      new positions plus the local one. */
  ghost predicate MovedTo(c: Crypto, me: Signer, oldGS: seq<EthAddress>, v: VAA, newIndex: uint32,
        newGS: seq<EthAddress>, w: VAA) {
    && w == v.(guardianSetIndex := newIndex, signatures := w.signatures)
    && forall t :: t in w.signatures <==> Carried(v.signatures, oldGS, newGS, t) || LocalSignature(c, me, v, newGS, t)
  }

  predicate LocalSignature(c: Crypto, me: Signer, v: VAA, newGS: seq<EthAddress>, t: Signature) {
    t.index < |newGS| && newGS[t.index] == me.address && t.data == me.sign(SigningDigest(c, v))
  }

  /** The answer decodes to the moved VAA, under the same digest, and the new set accepts it. */
  ghost predicate GoodAnswer(c: Crypto, me: Signer, oldGS: seq<EthAddress>, v: VAA, newIndex: uint32,
        newGS: seq<EthAddress>, answer: seq<byte>) {
    && Decode(answer).Some?
    && var w := Decode(answer).value;
    && SigningDigest(c, w) == SigningDigest(c, v)
    && MovedTo(c, me, oldGS, v, newIndex, newGS, w)
    && VerdictOn(c, w, Some(newGS)) == Accepted
  }

  function Addresses(hexToAddress: string -> EthAddress, addrs: seq<string>): (r: seq<EthAddress>) {
    seq(|addrs|, i requires 0 <= i < |addrs| => hexToAddress(addrs[i]))
  }

  function Moved(c: Crypto, me: Signer, v: VAA, oldGS: seq<EthAddress>, newIndex: uint32, newGS: seq<EthAddress>): VAA
    requires |newGS| <= 255 && me.address in newGS && forall i | 0 <= i < |v.signatures| ::
      v.signatures[i].index < |oldGS|
  {
    v.(guardianSetIndex := newIndex, signatures := Sort(Joined(me, SigningDigest(c, v), v.signatures, oldGS, newGS),
      IndexLeq))
  }

  lemma MovedSignatures(c: Crypto, me: Signer, v: VAA, oldGS: seq<EthAddress>, newIndex: uint32, newGS: seq<EthAddress>)
    requires |newGS| <= 255 && Distinct(newGS) && me.address in newGS
    requires forall i | 0 <= i < |v.signatures| :: v.signatures[i].index < |oldGS|
    ensures MovedTo(c, me, oldGS, v, newIndex, newGS, Moved(c, me, v, oldGS, newIndex, newGS))
  {
    var w := Moved(c, me, v, oldGS, newIndex, newGS);
    var all := Joined(me, SigningDigest(c, v), v.signatures, oldGS, newGS);
    SameElements(w.signatures, all);
    forall t: Signature
      ensures t in all <==> Carried(v.signatures, oldGS, newGS, t) || LocalSignature(c, me, v, newGS, t)
    {
      RemapElement(v.signatures, oldGS, newGS, t);
      if LocalSignature(c, me, v, newGS, t) {
        UniquePosition(newGS, t.index, IndexOf(newGS, me.address));
      }
    }
  }

  lemma MovedIsGood(c: Crypto, me: Signer, oldGS: seq<EthAddress>, v: VAA, newIndex: uint32, newGS: seq<EthAddress>)
    requires Transportable(v) && VerdictOn(c, v, Some(oldGS)) == Accepted && me.address !in oldGS
    requires Reachable(me, oldGS, v.signatures, newGS) && SignsAsItself(c, me)
    ensures GoodAnswer(c, me, oldGS, v, newIndex, newGS, Encode(Moved(c, me, v, oldGS, newIndex, newGS)))
  {
    var d := SigningDigest(c, v);
    var w := Moved(c, me, v, oldGS, newIndex, newGS);
    assert Body(w) == Body(v);
    JoinedValid(c, me, d, v.signatures, oldGS, newGS);
    TooManySignatures(c, d, w.signatures, newGS);
    DecodeOfEncode(w);
    RemapCount(v.signatures, oldGS, newGS);
    MovedSignatures(c, me, v, oldGS, newIndex, newGS);
  }

  method RemapSignatures(sigs: seq<Signature>, oldGS: seq<EthAddress>, newGS: seq<EthAddress>)
    returns (r: seq<Signature>)
    requires |newGS| <= 255 && forall i | 0 <= i < |sigs| :: sigs[i].index < |oldGS|
    ensures r == Remap(sigs, oldGS, newGS)
  {
    r := [];
    for k := 0 to |sigs|
      invariant r == Remap(sigs[..k], oldGS, newGS)
    {
      assert sigs[..k + 1][..k] == sigs[..k];
      var i := IndexOf(newGS, oldGS[sigs[k].index]);
      if i == -1 { continue; }
      r := r + [Signature(i, sigs[k].data)];
    }
    assert sigs[..|sigs|] == sigs;
  }

  /** Reads the new guardian list and checks its size, its members and the local guardian's place. */
  method LoadNewSet(me: Signer, hexToAddress: string -> EthAddress, addrs: seq<string>)
    returns (newGS: seq<EthAddress>, refusal: Option<Refusal>)
    ensures refusal.None? <==>
      |addrs| <= 255 && Distinct(Addresses(hexToAddress, addrs)) && me.address in Addresses(hexToAddress, addrs)
    ensures refusal.None? ==> newGS == Addresses(hexToAddress, addrs)
    ensures refusal == Some(TooManyGuardians) <==> |addrs| > 255
    ensures refusal == Some(DuplicateGuardians) <==> |addrs| <= 255 && !Distinct(Addresses(hexToAddress, addrs))
    ensures refusal.Some? ==> refusal.value in {TooManyGuardians, DuplicateGuardians, NotOnNewSet}
  {
    newGS := [];
    if |addrs| > 255 { return newGS, Some(TooManyGuardians); }
    for i := 0 to |addrs|
      invariant |newGS| == i && forall k | 0 <= k < i :: newGS[k] == hexToAddress(addrs[k])
    {
      newGS := newGS + [hexToAddress(addrs[i])];
    }
    assert newGS == Addresses(hexToAddress, addrs);
    SortedCompactDetectsDuplicates(newGS);
    if |Compact(Sort(newGS, AddressOrder()))| != |newGS| { return newGS, Some(DuplicateGuardians); }
    if IndexOf(newGS, me.address) == -1 { return newGS, Some(NotOnNewSet); }
    return newGS, None;
  }

  /** Copies the surviving signatures, and if the local one completes a quorum adds it, sorts and encodes. */
  method MoveSignatures(c: Crypto, me: Signer, v: VAA, oldGS: seq<EthAddress>, newIndex: uint32, newGS: seq<EthAddress>)
    returns (bytes: Option<seq<byte>>)
    requires |newGS| <= 255 && me.address in newGS && forall i | 0 <= i < |v.signatures| ::
      v.signatures[i].index < |oldGS|
    ensures bytes == if |Survivors(v.signatures, oldGS, newGS)| + 1 < CalculateQuorum(|newGS|) then None
                     else Some(Encode(Moved(c, me, v, oldGS, newIndex, newGS)))
  {
    var sigs := RemapSignatures(v.signatures, oldGS, newGS);
    RemapCount(v.signatures, oldGS, newGS);
    if CalculateQuorum(|newGS|) > |sigs| + 1 { return None; }
    sigs := sigs + [Signature(IndexOf(newGS, me.address), me.sign(SigningDigest(c, v)))];
    var b := Marshal(v.(guardianSetIndex := newIndex, signatures := Sort(sigs, IndexLeq)));
    return Some(b);
  }

  /** Why the service refuses a decoded request: the first of its tests that fails, in this order. */
  ghost predicate RefusedFor(c: Crypto, me: Signer, gsCache: map<uint32, seq<EthAddress>>, v: VAA, newIndex: uint32,
        newGS: seq<EthAddress>, why: Refusal) {
    var index := v.guardianSetIndex;
    match why
    case Undecodable => false
    case IndexNotHigher => newIndex <= index
    case AlreadyOnOldSet => newIndex > index && index in gsCache && me.address in gsCache[index]
    case NotVerified(verdict) =>
      && newIndex > index && index in gsCache && me.address !in gsCache[index]
      && verdict == VerdictOn(c, v, Some(gsCache[index])) != Accepted
    case TooManyGuardians => Movable(c, me, gsCache, v, newIndex) && |newGS| > 255
    case DuplicateGuardians => Movable(c, me, gsCache, v, newIndex) && |newGS| <= 255 && !Distinct(newGS)
    case NotOnNewSet =>
      Movable(c, me, gsCache, v, newIndex) && |newGS| <= 255 && Distinct(newGS) && me.address !in newGS
    case QuorumOutOfReach =>
      && Movable(c, me, gsCache, v, newIndex) && |newGS| <= 255 && Distinct(newGS) && me.address in newGS
      && |Survivors(v.signatures, gsCache[index], newGS)| + 1 < CalculateQuorum(|newGS|)
  }

  /** The request decoded: signed exactly when it is movable and the new set is reachable. */
  method SignDecodedVAA(c: Crypto, me: Signer, gsCache: map<uint32, seq<EthAddress>>,
        hexToAddress: string -> EthAddress,
                        v: VAA, newIndex: uint32, newAddrs: seq<string>)
    returns (r: Outcome)
    requires Transportable(v)
    ensures r.Resigned? <==> Movable(c, me, gsCache, v, newIndex) &&
                             Reachable(me, gsCache[v.guardianSetIndex], v.signatures, Addresses(hexToAddress, newAddrs))
    ensures r.Panicked? <==> newIndex > v.guardianSetIndex && v.guardianSetIndex !in gsCache
    ensures forall why :: r == Refused(why) <==>
      RefusedFor(c, me, gsCache, v, newIndex, Addresses(hexToAddress, newAddrs), why)
    ensures r.Resigned? && SignsAsItself(c, me) ==>
              GoodAnswer(c, me, gsCache[v.guardianSetIndex], v, newIndex, Addresses(hexToAddress, newAddrs), r.bytes)
  {
    if newIndex <= v.guardianSetIndex { return Refused(IndexNotHigher); }
    if v.guardianSetIndex !in gsCache { return Panicked; }
    var oldGS := gsCache[v.guardianSetIndex];
    if IndexOf(oldGS, me.address) != -1 { return Refused(AlreadyOnOldSet); }
    var verdict := Verify(c, v, Some(oldGS));
    if verdict != Accepted { return Refused(NotVerified(verdict)); }
    var newGS, refusal := LoadNewSet(me, hexToAddress, newAddrs);
    if refusal.Some? { return Refused(refusal.value); }
    var bytes := MoveSignatures(c, me, v, oldGS, newIndex, newGS);
    if bytes.None? { return Refused(QuorumOutOfReach); }
    if SignsAsItself(c, me) {
      MovedIsGood(c, me, oldGS, v, newIndex, newGS);
    }
    return Resigned(bytes.value);
  }

  /** The service signs exactly the requests that decode, name a movable VAA and a reachable
      new set; whenever its key signs as itself the answer is the moved VAA, accepted by that set.
      It panics exactly on a VAA of an earlier set that is not in the cache. */
  method SignExistingVAA(c: Crypto, me: Signer, gsCache: map<uint32, seq<EthAddress>>,
        hexToAddress: string -> EthAddress,
                         request: seq<byte>, newIndex: uint32, newAddrs: seq<string>)
    returns (r: Outcome)
    ensures r.Resigned? <==>
              && Decode(request).Some?
              && var v := Decode(request).value;
              && Movable(c, me, gsCache, v, newIndex)
              && Reachable(me, gsCache[v.guardianSetIndex], v.signatures, Addresses(hexToAddress, newAddrs))
    ensures r.Panicked? <==>
              && Decode(request).Some?
              && var v := Decode(request).value; newIndex > v.guardianSetIndex && v.guardianSetIndex !in gsCache
    ensures forall why :: r == Refused(why) <==>
              if Decode(request).None? then why == Undecodable
              else RefusedFor(c, me, gsCache, Decode(request).value, newIndex, Addresses(hexToAddress, newAddrs), why)
    ensures r.Resigned? && SignsAsItself(c, me) ==>
              var v := Decode(request).value;
              GoodAnswer(c, me, gsCache[v.guardianSetIndex], v, newIndex, Addresses(hexToAddress, newAddrs), r.bytes)
  {
    var decoded := Unmarshal(request);
    if decoded.None? { return Refused(Undecodable); }
    DecodedIsTransportable(request);
    r := SignDecodedVAA(c, me, gsCache, hexToAddress, decoded.value, newIndex, newAddrs);
  }
}
