/** The store of signed VAAs: node/pkg/db/db.go and node/pkg/db/purge_vaas.go. */
module SignedStore {
  import opened Binary
  import opened Vaa
  import opened Keys
  import opened Scans

  type Store = map<Text, seq<byte>>

  const MAX_UINT64 := 0xFFFF_FFFF_FFFF_FFFF

  /** Every key of a signed VAA belongs to the VAA stored under it. */
  ghost predicate WellKeyed(store: Store) {
    forall k | k in store && SIGNED <= k :: Decode(store[k]).Some? && k == KeyOf(IdOf(Decode(store[k]).value))
  }

  /** A VAA that can be read back from its bytes with the same id. */
  predicate Storable(v: VAA) { v.version == SUPPORTED_VERSION && |v.signatures| <= 255 }

  lemma StoredReadsBack(v: VAA)
    requires Storable(v)
    ensures Decode(Encode(v)).Some? && IdOf(Decode(Encode(v)).value) == IdOf(v)
  {
    DecodeTruncatesTime(v);
  }

  lemma StoreKeepsKeys(store: Store, v: VAA)
    requires WellKeyed(store) && Storable(v)
    ensures WellKeyed(store[KeyOf(IdOf(v)) := Encode(v)])
  {
    hide Decode, Encode, KeyOf;
    StoredReadsBack(v);
  }

  /** In a well-keyed store the keys under a prefix of signed VAAs are those of their VAAs. */
  lemma PrefixIsSigned(e: VAAID, k: Text)
    requires EmitterPrefix(e) <= k
    ensures SIGNED <= k
  {
    var p := EmitterPrefix(e);
    assert SIGNED == p[..|SIGNED|];
    assert p == k[..|p|];
  }

  // ---------------------------------------------------------------- what a scan finds

  predicate PrefixReadable(store: Store, prefix: Text) {
    forall k | k in store && prefix <= k :: Decode(store[k]).Some?
  }

  ghost predicate IsFound(store: Store, prefix: Text, q: uint64) {
    exists k :: k in store && prefix <= k && Decode(store[k]).Some? && Decode(store[k]).value.sequence == q
  }

  // ---------------------------------------------------------------- counting up in 64 bits

  /** The loop variable after n turns; it wraps around. */
  function LoopVar(first: uint64, n: nat): uint64 {
    if n == 0 then first else
    var i := LoopVar(first, n - 1);
    if i == MAX_UINT64 then 0 else i + 1
  }

  /** The guard holds after every number of turns. */
  ghost predicate NeverEnds(first: uint64, last: uint64) { forall n: nat :: LoopVar(first, n) <= last }

  lemma {:induction false} LoopVarCounts(first: uint64, n: nat)
    requires first + n <= MAX_UINT64
    ensures LoopVar(first, n) == first + n
  {
    if n > 0 { LoopVarCounts(first, n - 1); }
  }

  /** A loop that counts up to last has no end exactly if last is the largest number there is. */
  lemma NeverEndsExactly(first: uint64, last: uint64)
    ensures NeverEnds(first, last) <==> last == MAX_UINT64
  {
    var n := MAX_UINT64 - first;
    LoopVarCounts(first, n);
    assert NeverEnds(first, last) ==> LoopVar(first, n) <= last;
  }

  datatype Gaps = Unreadable | Diverges | Gaps(missing: seq<uint64>, first: uint64, last: uint64)

  /** What the scan answers about a set of sequence numbers. */
  ghost predicate Answers(r: Gaps, found: set<uint64>) {
    if MAX_UINT64 in found then r.Diverges? && NeverEnds(0, MAX_UINT64)
    else
      && r.Gaps? && r.first == 0 && !NeverEnds(r.first, r.last)
      && (forall q | q in found :: q <= r.last) && (r.last in found || r.last == 0)
      && (forall i, j | 0 <= i < j < |r.missing| :: r.missing[i] < r.missing[j])
      && (forall q: uint64 :: q in r.missing <==> r.first <= q <= r.last && q !in found)
  }

  /** The smallest and the largest of the numbers found, if `first` is true to begin with; with
      false the smallest stays 0. */
  method MinMax(found: set<uint64>, begin: bool) returns (firstSeq: uint64, lastSeq: uint64)
    ensures !begin || found == {} ==> firstSeq == 0
    ensures begin && found != {} ==> firstSeq in found && forall q | q in found :: firstSeq <= q
    ensures forall q | q in found :: q <= lastSeq
    ensures lastSeq in found || lastSeq == 0
  {
    firstSeq, lastSeq := 0, 0;
    var first := begin;
    var todo := found;
    while todo != {}
      invariant todo <= found && (first ==> todo == found && begin)
      invariant !begin || todo == found ==> firstSeq == 0
      invariant begin && !first ==> firstSeq in found && forall q | q in found :: q in todo || firstSeq <= q
      invariant forall q | q in found :: q in todo || q <= lastSeq
      invariant lastSeq in found || lastSeq == 0
      invariant todo == found ==> first == begin
    {
      var k :| k in todo;
      if first {
        firstSeq := k;
        first := false;
      }
      if k < firstSeq { firstSeq := k; }
      if k > lastSeq { lastSeq := k; }
      todo := todo - {k};
    }
  }

  /** Counts up from the first number to the last. The loop variable cannot pass 2^64 - 1, so with
      that as the last number the loop has no end. */
  method Missing(found: set<uint64>, firstSeq: uint64, lastSeq: uint64) returns (missing: seq<uint64>)
    requires lastSeq < MAX_UINT64
    ensures forall i, j | 0 <= i < j < |missing| :: missing[i] < missing[j]
    ensures forall q: uint64 :: q in missing <==> firstSeq <= q <= lastSeq && q !in found
  {
    missing := [];
    var i: uint64 := firstSeq;
    while i <= lastSeq
      invariant firstSeq <= i && (i <= lastSeq + 1 || i == firstSeq)
      invariant forall a, b | 0 <= a < b < |missing| :: missing[a] < missing[b]
      invariant forall q: uint64 :: q in missing <==> firstSeq <= q < i && q <= lastSeq && q !in found
      decreases lastSeq + 1 - i
    {
      if i !in found {
        assert forall a | 0 <= a < |missing| :: missing[a] in missing;
        assert forall q: uint64 :: q in missing + [i] <==> q in missing || q == i;
        missing := missing + [i];
      }
      i := i + 1;
    }
  }

  method ScanSequences(store: Store, prefix: Text, order: seq<Text>) returns (r: Option<set<uint64>>)
    requires Enumerates(order, store)
    ensures r.Some? <==> PrefixReadable(store, prefix)
    ensures r.Some? ==> forall q: uint64 :: q in r.value <==> IsFound(store, prefix, q)
  {
    hide Decode;
    var seqs: set<uint64> := {};
    for i := 0 to |order|
      invariant forall j | 0 <= j < i && prefix <= order[j] :: Decode(store[order[j]]).Some?
      invariant forall j | 0 <= j < i && prefix <= order[j] :: Decode(store[order[j]]).value.sequence in seqs
      invariant forall q | q in seqs :: IsFound(store, prefix, q)
    {
      var key := order[i];
      if prefix <= key {
        var v := Unmarshal(store[key]);
        if v.None? { return None; }
        seqs := seqs + {v.value.sequence};
      }
    }
    r := Some(seqs);
  }

  // ---------------------------------------------------------------- purging

  /** The keys under the prefix whose VAA is before oldest. */
  function Old(store: Store, prefix: Text, oldest: int): Text -> Option<Text> {
    k => if k in store && prefix <= k && Decode(store[k]).Some?
      && Decode(store[k]).value.timestamp < oldest then Some(k) else None
  }

  function Young(store: Store, prefix: Text, oldest: int): Text -> Option<Text> {
    k => if k in store && prefix <= k && Decode(store[k]).Some?
      && Decode(store[k]).value.timestamp >= oldest then Some(k) else None
  }

  ghost function OldKeys(store: Store, prefix: Text, oldest: int): set<Text> {
    set k | k in store && prefix <= k && Decode(store[k]).Some? && Decode(store[k]).value.timestamp < oldest
  }

  ghost function YoungKeys(store: Store, prefix: Text, oldest: int): set<Text> {
    set k | k in store && prefix <= k && Decode(store[k]).Some? && Decode(store[k]).value.timestamp >= oldest
  }

  lemma CountsAreSizes(store: Store, prefix: Text, oldest: int, order: seq<Text>)
    requires Enumerates(order, store)
    ensures |FilterMap(order, Old(store, prefix, oldest))| == |OldKeys(store, prefix, oldest)|
    ensures |FilterMap(order, Young(store, prefix, oldest))| == |YoungKeys(store, prefix, oldest)|
  {
    hide Decode;
    OnePerKey(order, Old(store, prefix, oldest));
    OnePerKey(order, Young(store, prefix, oldest));
    assert PickedKeys(order, Old(store, prefix, oldest)) == OldKeys(store, prefix, oldest);
    assert PickedKeys(order, Young(store, prefix, oldest)) == YoungKeys(store, prefix, oldest);
  }

  lemma OldAreStored(store: Store, prefix: Text, oldest: int)
    ensures forall k | k in OldKeys(store, prefix, oldest) :: k in store
  {
    hide Decode;
  }

  lemma NothingCounted(store: Store, prefix: Text, oldest: int, order: seq<Text>)
    ensures |FilterMap(order[..0], Old(store, prefix, oldest))| == 0
      && |FilterMap(order[..0], Young(store, prefix, oldest))| == 0
  {
  }

  /** One more key: it is counted as deleted, as kept, or not at all. */
  lemma PurgeStep(store: Store, prefix: Text, oldest: int, order: seq<Text>, i: nat)
    requires i < |order| && order[i] in store
    ensures order[i] in OldKeys(store, prefix, oldest) <==>
      prefix <= order[i] && Decode(store[order[i]]).Some? && Decode(store[order[i]]).value.timestamp < oldest
    ensures order[i] in YoungKeys(store, prefix, oldest) <==>
      prefix <= order[i] && Decode(store[order[i]]).Some? && Decode(store[order[i]]).value.timestamp >= oldest
    ensures |FilterMap(order[..i + 1], Old(store, prefix, oldest))| ==
      |FilterMap(order[..i], Old(store, prefix, oldest))| +
        (if order[i] in OldKeys(store, prefix, oldest) then 1 else 0)
    ensures |FilterMap(order[..i + 1], Young(store, prefix, oldest))| ==
      |FilterMap(order[..i], Young(store, prefix, oldest))| +
        (if order[i] in YoungKeys(store, prefix, oldest) then 1 else 0)
  {
    hide Decode;
    FilterMapStep(order, Old(store, prefix, oldest), i);
    FilterMapStep(order, Young(store, prefix, oldest), i);
  }

  class VaaStore {
    var store: Store

    /** An existing VAA with the same id is replaced. An unsigned VAA is a panic. */
    method StoreSignedVAA(v: VAA)
      requires v.signatures != []
      modifies this
      ensures store == old(store)[KeyOf(IdOf(v)) := Encode(v)]
      ensures old(WellKeyed(store)) && Storable(v) ==> WellKeyed(store)
    {
      hide Encode, Decode, KeyOf;
      if WellKeyed(store) && Storable(v) { StoreKeepsKeys(store, v); }
      var b := Marshal(v);
      store := store[KeyOf(IdOf(v)) := b];
    }

    /** The sequence numbers missing between the first and the last of an emitter. */
    method FindEmitterSequenceGap(e: VAAID, order: seq<Text>) returns (r: Gaps)
      requires Enumerates(order, store)
      ensures r.Unreadable? <==> !PrefixReadable(store, EmitterPrefix(e))
      ensures !r.Unreadable? ==> exists found: set<uint64> ::
        (forall q: uint64 :: q in found <==> IsFound(store, EmitterPrefix(e), q)) && Answers(r, found)
    {
      hide Decode, EmitterPrefix;
      var found := ScanSequences(store, EmitterPrefix(e), order);
      if found.None? { return Unreadable; }
      var first, last := MinMax(found.value, false);
      NeverEndsExactly(first, last);
      if last == MAX_UINT64 {
        assert MAX_UINT64 in found.value;
        r := Diverges;
      } else {
        var missing := Missing(found.value, first, last);
        r := Gaps(missing, first, last);
      }
      assert Answers(r, found.value);
    }

    /** Deletes the VAAs under the prefix that are before oldest, or only counts them. A VAA that
        cannot be read stops the purge; what was deleted until then stays deleted. */
    method PurgeVaas(e: VAAID, oldest: int, logOnly: bool, order: seq<Text>) returns (r: Option<(nat, nat)>)
      requires Enumerates(order, store)
      modifies this
      ensures r.Some? <==> e.sequence == 0 && PrefixReadable(old(store), EmitterPrefix(e))
      ensures r.Some? ==>
        r.value == (|OldKeys(old(store), EmitterPrefix(e), oldest)|, |YoungKeys(old(store), EmitterPrefix(e), oldest)|)
      ensures logOnly || e.sequence != 0 ==> store == old(store)
      ensures r.Some? && !logOnly ==> store == old(store) - OldKeys(old(store), EmitterPrefix(e), oldest)
      ensures exists gone :: gone <= OldKeys(old(store), EmitterPrefix(e), oldest) && store == old(store) - gone
    {
      hide Decode, EmitterPrefix, Old, Young, FilterMap, OldKeys, YoungKeys;
      ghost var none: set<Text> := {};
      assert store == store - none;
      if e.sequence != 0 { return None; }
      var prefix, snapshot := EmitterPrefix(e), store;
      var numDeleted, numKept := 0, 0;
      NothingCounted(snapshot, prefix, oldest, order);
      ghost var gone: set<Text> := {};
      for i := 0 to |order|
        invariant forall j | 0 <= j < i && prefix <= order[j] :: Decode(snapshot[order[j]]).Some?
        invariant numDeleted == |FilterMap(order[..i], Old(snapshot, prefix, oldest))|
        invariant numKept == |FilterMap(order[..i], Young(snapshot, prefix, oldest))|
        invariant gone <= OldKeys(snapshot, prefix, oldest) && (logOnly ==> gone == {})
        invariant !logOnly ==> forall j | 0 <= j < i && order[j] in OldKeys(snapshot, prefix, oldest) ::
          order[j] in gone
        invariant store == snapshot - gone
      {
        var key := order[i];
        PurgeStep(snapshot, prefix, oldest, order, i);
        if prefix <= key {
          var v := Unmarshal(snapshot[key]);
          if v.None? { return None; }
          if v.value.timestamp < oldest {
            numDeleted := numDeleted + 1;
            if !logOnly {
              store := store - {key};
              gone := gone + {key};
            }
          } else {
            numKept := numKept + 1;
          }
        }
      }
      assert order[..|order|] == order;
      OldAreStored(snapshot, prefix, oldest);
      assert !logOnly ==> gone == OldKeys(snapshot, prefix, oldest);
      CountsAreSizes(snapshot, prefix, oldest, order);
      r := Some((numDeleted, numKept));
    }
  }

  // ---------------------------------------------------------------- what a prefix stands for

  /** The ids that the prefix of e reaches: those of its emitter, or without an address those of
      every chain whose number starts with the same digits. */
  ghost predicate Covers(e: VAAID, id: VAAID) {
    if e.emitterAddress == NULL_ADDRESS then StartsWith(id.emitterChain, e.emitterChain)
    else e.emitterChain == id.emitterChain && e.emitterAddress == id.emitterAddress
  }

  lemma PrefixCovers(e: VAAID, id: VAAID)
    ensures EmitterPrefix(e) <= KeyOf(id) <==> Covers(e, id)
  {
    hide StartsWith, KeyOf;
    if e.emitterAddress == NULL_ADDRESS {
      NullPrefixExact(e.emitterChain, id);
      assert EmitterPrefix(e) == EmitterPrefix(VAAID(e.emitterChain, NULL_ADDRESS, 0));
    } else {
      EmitterPrefixExact(e, id);
    }
  }

  ghost predicate CoveredKey(e: VAAID, k: Text) { exists id :: Covers(e, id) && k == KeyOf(id) }

  /** A VAA with this sequence number that e covers is stored. */
  ghost predicate CoveredSequence(store: Store, e: VAAID, q: uint64) {
    exists id :: Covers(e, id) && id.sequence == q && KeyOf(id) in store
  }

  function IdFor(e: VAAID, q: uint64): VAAID { VAAID(e.emitterChain, e.emitterAddress, q) }

  /** With an address there is one such VAA. */
  lemma OneEmitter(store: Store, e: VAAID, q: uint64)
    requires e.emitterAddress != NULL_ADDRESS
    ensures CoveredSequence(store, e, q) <==> KeyOf(IdFor(e, q)) in store
  {
    hide KeyOf;
    assert Covers(e, IdFor(e, q));
    forall id | Covers(e, id) && id.sequence == q
      ensures id == IdFor(e, q)
    {
    }
  }

  /** In a well-keyed store a key is under the prefix exactly when it is the key of a VAA that the
      prefix covers. */
  lemma KeyUnderPrefix(store: Store, e: VAAID, k: Text)
    requires WellKeyed(store) && k in store
    ensures EmitterPrefix(e) <= k <==> CoveredKey(e, k)
    ensures EmitterPrefix(e) <= k ==>
      Decode(store[k]).Some? && var id := IdOf(Decode(store[k]).value); Covers(e, id) && k == KeyOf(id)
  {
    hide Decode, EmitterPrefix, KeyOf, Covers;
    if EmitterPrefix(e) <= k {
      PrefixIsSigned(e, k);
      PrefixCovers(e, IdOf(Decode(store[k]).value));
    }
    forall id | Covers(e, id) && k == KeyOf(id)
      ensures EmitterPrefix(e) <= k
    {
      PrefixCovers(e, id);
    }
  }

  lemma FoundIsStored(store: Store, e: VAAID, q: uint64)
    requires WellKeyed(store)
    ensures IsFound(store, EmitterPrefix(e), q) <==> CoveredSequence(store, e, q)
  {
    hide Decode, EmitterPrefix, KeyOf, Covers;
    var p := EmitterPrefix(e);
    if IsFound(store, p, q) {
      var k :| k in store && p <= k && Decode(store[k]).Some? && Decode(store[k]).value.sequence == q;
      KeyUnderPrefix(store, e, k);
    }
    forall id | Covers(e, id) && id.sequence == q && KeyOf(id) in store
      ensures IsFound(store, p, q)
    {
      PrefixCovers(e, id);
      KeyUnderPrefix(store, e, KeyOf(id));
      KeyInjective(id, IdOf(Decode(store[KeyOf(id)]).value));
    }
  }

  // ---------------------------------------------------------------- main results

  /** In a store built by storing signed VAAs, the scan ends exactly when no covered VAA with
      sequence 2^64 - 1 is stored. It then returns, in ascending order, exactly the numbers up to
      the largest stored one that are not stored. */
  lemma GapsExact(store: Store, e: VAAID, r: Gaps, found: set<uint64>)
    requires WellKeyed(store)
    requires (forall q: uint64 :: q in found <==> IsFound(store, EmitterPrefix(e), q)) && Answers(r, found)
    ensures r.Diverges? <==> CoveredSequence(store, e, MAX_UINT64)
    ensures r.Gaps? ==>
      && (forall q: uint64 | CoveredSequence(store, e, q) :: q <= r.last)
      && (CoveredSequence(store, e, r.last) || r.last == 0)
      && (forall i, j | 0 <= i < j < |r.missing| :: r.missing[i] < r.missing[j])
      && (forall q: uint64 :: q in r.missing <==> r.first <= q <= r.last && !CoveredSequence(store, e, q))
  {
    hide IsFound, KeyOf, EmitterPrefix, CoveredSequence;
    forall q: uint64
      ensures q in found <==> CoveredSequence(store, e, q)
    {
      FoundIsStored(store, e, q);
    }
  }

  /** The first number that is reported is the smallest one found exactly when 0 is found. */
  lemma FirstIsSmallest(r: Gaps, found: set<uint64>)
    requires Answers(r, found) && r.Gaps? && found != {}
    ensures (r.first in found && forall q | q in found :: r.first <= q) <==> 0 in found
  {
  }

  /** For a store that holds one VAA, not number 0, the first number reported is not stored, and
      all numbers below the VAA's are reported missing. */
  lemma LoneVaaFirst(v: VAA, r: Gaps, found: set<uint64>)
    requires Storable(v) && 0 < v.sequence < MAX_UINT64 && v.emitterAddress != NULL_ADDRESS
    requires var store := map[KeyOf(IdOf(v)) := Encode(v)];
      (forall q: uint64 :: q in found <==> IsFound(store, EmitterPrefix(IdOf(v)), q)) && Answers(r, found)
    ensures r.Gaps? && r.first == 0 && r.first !in found && r.last == v.sequence
    ensures forall q: uint64 :: q in r.missing <==> q < v.sequence
  {
    var store: Store := map[KeyOf(IdOf(v)) := Encode(v)];
    var e := IdOf(v);
    var none: Store := map[];
    assert none[KeyOf(e) := Encode(v)] == store;
    StoreKeepsKeys(none, v);
    hide IsFound, KeyOf, EmitterPrefix, Encode, NeverEnds, WellKeyed;
    forall q: uint64
      ensures q in found <==> q == v.sequence
    {
      FoundIsStored(store, e, q);
      OneEmitter(store, e, q);
      if KeyOf(IdFor(e, q)) in store { KeyInjective(IdFor(e, q), e); }
    }
    assert v.sequence in found && found == {v.sequence};
  }

  ghost function CoveredKeys(store: Store, e: VAAID): set<Text> { set k | k in store && CoveredKey(e, k) }

  /** The purge removes exactly the covered VAAs that are before oldest, and the two counts add up
      to the number of covered VAAs. */
  lemma PurgeExact(store: Store, e: VAAID, oldest: int)
    requires WellKeyed(store)
    ensures PrefixReadable(store, EmitterPrefix(e))
    ensures forall k | k in CoveredKeys(store, e) :: Decode(store[k]).Some?
    ensures OldKeys(store, EmitterPrefix(e), oldest) == set k | k in CoveredKeys(store, e)
      && Decode(store[k]).value.timestamp < oldest
    ensures |OldKeys(store, EmitterPrefix(e), oldest)| + |YoungKeys(store, EmitterPrefix(e), oldest)| ==
      |CoveredKeys(store, e)|
    ensures WellKeyed(store - OldKeys(store, EmitterPrefix(e), oldest))
  {
    hide Decode, EmitterPrefix, KeyOf, CoveredKey;
    var p := EmitterPrefix(e);
    forall k | k in store
      ensures p <= k <==> k in CoveredKeys(store, e)
      ensures p <= k ==> Decode(store[k]).Some?
    {
      KeyUnderPrefix(store, e, k);
    }
    var a, b := OldKeys(store, p, oldest), YoungKeys(store, p, oldest);
    assert a + b == CoveredKeys(store, e);
    assert a !! b;
  }

  /** A purge of chain 1 without an address also deletes the old VAAs of chain 10. */
  lemma PurgeReachesChainTen(v: VAA, oldest: int)
    requires Storable(v) && v.emitterChain == 10 && FromUnix(FromBE(BE(Unix(v.timestamp), 4))) < oldest
    ensures KeyOf(IdOf(v)) in
      OldKeys(map[KeyOf(IdOf(v)) := Encode(v)], EmitterPrefix(VAAID(1, NULL_ADDRESS, 0)), oldest)
  {
    var e := VAAID(1, NULL_ADDRESS, 0);
    DecodeTruncatesTime(v);
    assert DropDigits(10, 1) == 1;
    PrefixCovers(e, IdOf(v));
  }
}
