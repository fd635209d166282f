/** Verifiable action approvals: the wire format of sdk/vaa/structs.go and its checks. */
module Vaa {
  import opened Binary

  const NANOS := 1_000_000_000
  const SUPPORTED_VERSION: byte := 1
  const MIN_VAA_LENGTH := 57
  const MIN_BODY_LENGTH := 51
  const SIGNATURE_LENGTH := 66

  type Address = s: seq<byte> | |s| == 32 witness Zeros(32)
  type EthAddress = s: seq<byte> | |s| == 20 witness Zeros(20)
  type SignatureData = s: seq<byte> | |s| == 65 witness Zeros(65)
  type Digest = s: seq<byte> | |s| == 32 witness Zeros(32)

  datatype Signature = Signature(index: byte, data: SignatureData)

  /** The struct of the Go SDK. A timestamp is a count of nanoseconds since the epoch. */
  datatype VAA = VAA(
    version: byte,
    guardianSetIndex: uint32,
    signatures: seq<Signature>,
    timestamp: int,
    nonce: uint32,
    sequence: uint64,
    consistencyLevel: byte,
    emitterChain: uint16,
    emitterAddress: Address,
    payload: seq<byte>)

  /** The foreign cryptography: the double Keccak hash and public key recovery. */
  datatype Crypto = Crypto(hash: seq<byte> -> Digest, recover: (Digest, seq<byte>) -> Option<EthAddress>)

  /** Whole seconds since the epoch, rounded down. */
  function Unix(timestamp: int): int { timestamp / NANOS }

  /** time.Unix(seconds, 0). */
  function FromUnix(seconds: int): int { seconds * NANOS }

  // ---------------------------------------------------------------- wire format

  function Body(v: VAA): (s: seq<byte>)
    ensures |s| == MIN_BODY_LENGTH + |v.payload|
  {
    BE(Unix(v.timestamp), 4) + (BE(v.nonce, 4) + (BE(v.emitterChain, 2) + (v.emitterAddress +
    (BE(v.sequence, 8) + ([v.consistencyLevel] + v.payload)))))
  }

  function SignatureBytes(sigs: seq<Signature>): (s: seq<byte>)
    ensures |s| == SIGNATURE_LENGTH * |sigs|
  {
    if sigs == [] then [] else [sigs[0].index] + (sigs[0].data + SignatureBytes(sigs[1..]))
  }

  /** The bytes of a VAA; the signature count keeps only its low-order byte. */
  function Encode(v: VAA): (s: seq<byte>)
    ensures |s| == MIN_VAA_LENGTH + SIGNATURE_LENGTH * |v.signatures| + |v.payload|
  {
    [v.version] + (BE(v.guardianSetIndex, 4) + ([|v.signatures| % 256] + (SignatureBytes(v.signatures) + Body(v))))
  }

  lemma {:induction false} SignatureBytesSnoc(sigs: seq<Signature>, sig: Signature)
    ensures SignatureBytes(sigs + [sig]) == SignatureBytes(sigs) + ([sig.index] + sig.data)
  {
    if sigs != [] {
      SignatureBytesSnoc(sigs[1..], sig);
      assert (sigs + [sig])[1..] == sigs[1..] + [sig];
    }
  }

  /** Reads the body fields of v from s, as far as s reaches. */
  function ReadBody(s: seq<byte>, v: VAA): Option<VAA> {
    if |s| < MIN_BODY_LENGTH then None else
    Widths();
    var r1 := s[4..];
    var r2 := r1[4..];
    var r3 := r2[2..];
    var r4 := r3[32..];
    var r5 := r4[8..];
    Some(v.(timestamp := FromUnix(FromBE(s[..4])), nonce := FromBE(r1[..4]), emitterChain := FromBE(r2[..2]),
            emitterAddress := r3[..32], sequence := FromBE(r4[..8]), consistencyLevel := r5[0], payload := r5[1..]))
  }

  /** Reads n signatures off the front of s and returns them with what is left. */
  function ReadSignatures(s: seq<byte>, n: nat): (r: Option<(seq<Signature>, seq<byte>)>)
    ensures r.Some? <==> SIGNATURE_LENGTH * n <= |s|
    ensures r.Some? ==> |r.value.0| == n && s == SignatureBytes(r.value.0) + r.value.1
  {
    if n == 0 then Some(([], s))
    else if |s| < SIGNATURE_LENGTH then None
    else
      var sig := Signature(s[0], s[1..66]);
      match ReadSignatures(s[66..], n - 1)
      case None => None
      case Some((sigs, rest)) =>
        assert s == [s[0]] + (s[1..66] + s[66..]);
        assert ([sig] + sigs)[1..] == sigs;
        Some(([sig] + sigs, rest))
  }

  function EmptyVAA(): VAA {
    VAA(0, 0, [], 0, 0, 0, 0, 0, Zeros(32), [])
  }

  /** What the decoder returns on data; None is every one of its error returns. */
  function Decode(data: seq<byte>): Option<VAA> {
    if |data| < MIN_VAA_LENGTH || data[0] != SUPPORTED_VERSION then None else
    Widths();
    match ReadSignatures(data[6..], data[5])
    case None => None
    case Some((sigs, rest)) =>
      ReadBody(rest, EmptyVAA().(version := data[0], guardianSetIndex := FromBE(data[1..5]), signatures := sigs))
  }

  // ---------------------------------------------------------------- codec laws

  lemma FirstSignature(sig: Signature, tail: seq<byte>, rest: seq<byte>)
    ensures var s := [sig.index] + (sig.data + tail) + rest;
      |s| >= SIGNATURE_LENGTH && s[0] == sig.index && s[1..66] == sig.data && s[66..] == tail + rest
  {
  }

  lemma {:induction false} ReadSignaturesOfBytes(sigs: seq<Signature>, rest: seq<byte>)
    ensures ReadSignatures(SignatureBytes(sigs) + rest, |sigs|) == Some((sigs, rest))
  {
    if sigs == [] {
      assert SignatureBytes(sigs) + rest == rest;
    } else {
      var tail := SignatureBytes(sigs[1..]);
      FirstSignature(sigs[0], tail, rest);
      ReadSignaturesOfBytes(sigs[1..], rest);
      assert [sigs[0]] + sigs[1..] == sigs;
    }
  }

  /** The decoded body differs from the encoded one only in its timestamp. */
  lemma ReadBodyOfBody(v: VAA, w: VAA)
    ensures ReadBody(Body(w), v) ==
            Some(w.(version := v.version, guardianSetIndex := v.guardianSetIndex, signatures := v.signatures,
                    timestamp := FromUnix(FromBE(BE(Unix(w.timestamp), 4)))))
  {
    Widths();
    var s5 := [w.consistencyLevel] + w.payload;
    var s4 := BE(w.sequence, 8) + s5;
    var s3 := w.emitterAddress + s4;
    var s2 := BE(w.emitterChain, 2) + s3;
    var s1 := BE(w.nonce, 4) + s2;
    CutAppend(BE(Unix(w.timestamp), 4), s1);
    CutAppend(BE(w.nonce, 4), s2);
    CutAppend(BE(w.emitterChain, 2), s3);
    CutAppend(w.emitterAddress, s4);
    CutAppend(BE(w.sequence, 8), s5);
    FromBEOfBE(w.nonce, 4);
    FromBEOfBE(w.emitterChain, 2);
    FromBEOfBE(w.sequence, 8);
  }

  lemma BodyOfReadBody(s: seq<byte>, v: VAA)
    requires |s| >= MIN_BODY_LENGTH
    ensures ReadBody(s, v).Some? && Body(ReadBody(s, v).value) == s
  {
    Widths();
    var r1 := s[4..];
    var r2 := r1[4..];
    var r3 := r2[2..];
    var r4 := r3[32..];
    var r5 := r4[8..];
    BEOfFromBE(s[..4]);
    BEOfFromBE(r1[..4]);
    BEOfFromBE(r2[..2]);
    BEOfFromBE(r4[..8]);
    assert r5 == [r5[0]] + r5[1..];
    assert r4 == r4[..8] + r5;
    assert r3 == r3[..32] + r4;
    assert r2 == r2[..2] + r3;
    assert r1 == r1[..4] + r2;
    assert s == s[..4] + r1;
  }

  /** The decoder accepts exactly the version 1 inputs that are long enough for the
      number of signatures they announce. */
  lemma DecodeAccepts(data: seq<byte>)
    ensures Decode(data).Some? <==>
            |data| >= 6 && data[0] == SUPPORTED_VERSION && |data| >= MIN_VAA_LENGTH + SIGNATURE_LENGTH * data[5]
  {
    if |data| >= MIN_VAA_LENGTH && data[0] == SUPPORTED_VERSION {
      var r := ReadSignatures(data[6..], data[5]);
      if r.Some? {
        assert |data[6..]| == SIGNATURE_LENGTH * data[5] + |r.value.1|;
      }
    }
  }

  lemma EncodeAssembles(v: VAA, data: seq<byte>)
    requires |data| >= 6 && data[0] == v.version && data[1..5] == BE(v.guardianSetIndex, 4)
    requires data[5] == |v.signatures| % 256 && data[6..] == SignatureBytes(v.signatures) + Body(v)
    ensures Encode(v) == data
  {
    assert data[1..] == data[1..5] + ([data[5]] + data[6..]);
    assert data == [data[0]] + data[1..];
  }

  /** Decoding loses nothing: the format has one encoding per VAA. */
  lemma EncodeOfDecode(data: seq<byte>)
    requires Decode(data).Some?
    ensures Encode(Decode(data).value) == data
  {
    Widths();
    var (sigs, rest) := ReadSignatures(data[6..], data[5]).value;
    BodyOfReadBody(rest, EmptyVAA().(version := data[0], guardianSetIndex := FromBE(data[1..5]), signatures := sigs));
    BEOfFromBE(data[1..5]);
    EncodeAssembles(Decode(data).value, data);
  }

  /** The VAAs the wire format can carry unchanged. */
  predicate Transportable(v: VAA) {
    && v.version == SUPPORTED_VERSION
    && |v.signatures| <= 255
    && v.timestamp % NANOS == 0
    && 0 <= Unix(v.timestamp) < 0x1_0000_0000
  }

  lemma DecodeTruncatesTime(v: VAA)
    requires v.version == SUPPORTED_VERSION && |v.signatures| <= 255
    ensures Decode(Encode(v)) == Some(v.(timestamp := FromUnix(FromBE(BE(Unix(v.timestamp), 4)))))
  {
    Widths();
    var s3 := SignatureBytes(v.signatures) + Body(v);
    var s2 := [|v.signatures| % 256] + s3;
    var s1 := BE(v.guardianSetIndex, 4) + s2;
    var data := Encode(v);
    CutAppend([v.version], s1);
    CutAppend(BE(v.guardianSetIndex, 4), s2);
    assert data[1..5] == BE(v.guardianSetIndex, 4);
    assert data[5] == |v.signatures|;
    assert data[6..] == s3;
    FromBEOfBE(v.guardianSetIndex, 4);
    ReadSignaturesOfBytes(v.signatures, Body(v));
    ReadBodyOfBody(EmptyVAA().(version := v.version, guardianSetIndex := v.guardianSetIndex,
      signatures := v.signatures), v);
  }

  lemma DecodedIsTransportable(data: seq<byte>)
    requires Decode(data).Some?
    ensures Transportable(Decode(data).value)
  {
    Widths();
  }

  /** A round trip returns the same VAA exactly for the transportable ones. */
  lemma DecodeOfEncode(v: VAA)
    ensures Decode(Encode(v)) == Some(v) <==> Transportable(v)
  {
    Widths();
    if Transportable(v) {
      DecodeTruncatesTime(v);
      FromBEOfBE(Unix(v.timestamp), 4);
    } else if Decode(Encode(v)) == Some(v) {
      DecodedIsTransportable(Encode(v));
    }
  }

  /** Two VAAs with the same signed body agree on every field under the signature. */
  lemma BodyInjective(v: VAA, w: VAA)
    requires Body(v) == Body(w)
    ensures v.nonce == w.nonce && v.emitterChain == w.emitterChain && v.emitterAddress == w.emitterAddress
    ensures v.sequence == w.sequence && v.consistencyLevel == w.consistencyLevel && v.payload == w.payload
    ensures BE(Unix(v.timestamp), 4) == BE(Unix(w.timestamp), 4)
  {
    ReadBodyOfBody(v, v);
    ReadBodyOfBody(v, w);
    BEOfFromBE(BE(Unix(v.timestamp), 4));
    BEOfFromBE(BE(Unix(w.timestamp), 4));
  }

  // ---------------------------------------------------------------- the codec as it runs

  method SerializeBody(v: VAA) returns (buf: seq<byte>)
    ensures buf == Body(v)
  {
    buf := [];
    buf := buf + BE(Unix(v.timestamp), 4);
    buf := buf + BE(v.nonce, 4);
    buf := buf + BE(v.emitterChain, 2);
    buf := buf + v.emitterAddress;
    buf := buf + BE(v.sequence, 8);
    buf := buf + [v.consistencyLevel];
    buf := buf + v.payload;
  }

  method Marshal(v: VAA) returns (buf: seq<byte>)
    ensures buf == Encode(v)
  {
    buf := [v.version];
    buf := buf + BE(v.guardianSetIndex, 4);
    buf := buf + [|v.signatures| % 256];
    ghost var head := buf;
    for i := 0 to |v.signatures|
      invariant buf == head + SignatureBytes(v.signatures[..i])
    {
      var sig := v.signatures[i];
      SignatureBytesSnoc(v.signatures[..i], sig);
      assert v.signatures[..i + 1] == v.signatures[..i] + [sig];
      buf := buf + [sig.index];
      buf := buf + sig.data;
    }
    assert v.signatures[..|v.signatures|] == v.signatures;
    var body := SerializeBody(v);
    buf := buf + body;
  }

  method UnmarshalBody(data: seq<byte>, v0: VAA) returns (r: Option<VAA>)
    ensures r == ReadBody(data, v0)
  {
    Widths();
    var reader, v := data, v0;
    if |reader| < 4 { return None; }
    v, reader := v.(timestamp := FromUnix(FromBE(reader[..4]))), reader[4..];
    if |reader| < 4 { return None; }
    v, reader := v.(nonce := FromBE(reader[..4])), reader[4..];
    if |reader| < 2 { return None; }
    v, reader := v.(emitterChain := FromBE(reader[..2])), reader[2..];
    if |reader| < 32 { return None; }
    v, reader := v.(emitterAddress := reader[..32]), reader[32..];
    if |reader| < 8 { return None; }
    v, reader := v.(sequence := FromBE(reader[..8])), reader[8..];
    if |reader| < 1 { return None; }
    v, reader := v.(consistencyLevel := reader[0]), reader[1..];
    return Some(v.(payload := reader));
  }

  method UnmarshalSignatures(data: seq<byte>, count: nat) returns (r: Option<(seq<Signature>, seq<byte>)>)
    ensures r == ReadSignatures(data, count)
  {
    var reader, sigs: seq<Signature> := data, [];
    for i := 0 to count
      invariant |sigs| == i && data == SignatureBytes(sigs) + reader
    {
      if |reader| < 1 { return None; }
      var index := reader[0];
      if |reader[1..]| < 65 { return None; }
      var sig := Signature(index, reader[1..66]);
      SignatureBytesSnoc(sigs, sig);
      assert reader == [index] + (sig.data + reader[66..]);
      sigs := sigs + [sig];
      reader := reader[66..];
    }
    ReadSignaturesOfBytes(sigs, reader);
    return Some((sigs, reader));
  }

  method Unmarshal(data: seq<byte>) returns (r: Option<VAA>)
    ensures r == Decode(data)
  {
    Widths();
    if |data| < MIN_VAA_LENGTH { return None; }
    if data[0] != SUPPORTED_VERSION { return None; }
    var gsIndex := FromBE(data[1..5]);
    var signatures := UnmarshalSignatures(data[6..], data[5]);
    if signatures.None? { return None; }
    var (sigs, reader) := signatures.value;
    r := UnmarshalBody(reader, EmptyVAA().(version := data[0], guardianSetIndex := gsIndex, signatures := sigs));
  }

  // ---------------------------------------------------------------- signature checks

  /** Key recovery rejects a signature that is not 65 bytes long. */
  function Ecrecover(c: Crypto, d: Digest, sig: seq<byte>): Option<EthAddress> {
    if |sig| != 65 then None else c.recover(d, sig)
  }

  function SigningDigest(c: Crypto, v: VAA): Digest { c.hash(Body(v)) }

  /** Indices ascend, each signature recovers to the key at its index, and no key signs twice. */
  ghost predicate ValidSignatures(c: Crypto, d: Digest, sigs: seq<Signature>, keys: seq<EthAddress>) {
    ValidUpTo(c, d, sigs, keys, |sigs|)
  }

  ghost predicate ValidUpTo(c: Crypto, d: Digest, sigs: seq<Signature>, keys: seq<EthAddress>, n: nat)
    requires n <= |sigs|
  {
    && (forall i | 0 <= i < n :: sigs[i].index < |keys| && Ecrecover(c, d, sigs[i].data) == Some(keys[sigs[i].index]))
    && (forall i, j | 0 <= i < j < n :: sigs[i].index < sigs[j].index && keys[sigs[i].index] != keys[sigs[j].index])
  }

  method VerifySignatures(c: Crypto, d: Digest, sigs: seq<Signature>, keys: seq<EthAddress>) returns (ok: bool)
    ensures ok <==> ValidSignatures(c, d, sigs, keys)
  {
    if |keys| < |sigs| {
      TooManySignatures(c, d, sigs, keys);
      return false;
    }
    var last: int := -1;
    var signers: seq<EthAddress> := [];
    for n := 0 to |sigs|
      invariant ValidUpTo(c, d, sigs, keys, n)
      invariant |signers| == n && forall i | 0 <= i < n :: signers[i] == keys[sigs[i].index]
      invariant last == if n == 0 then -1 else sigs[n - 1].index
    {
      var sig := sigs[n];
      if sig.index >= |keys| { return false; }
      if sig.index <= last { return false; }
      last := sig.index;
      var addr := keys[sig.index];
      if Ecrecover(c, d, sig.data) != Some(addr) { return false; }
      for k := 0 to |signers|
        invariant forall i | 0 <= i < k :: signers[i] != addr
      {
        if signers[k] == addr { return false; }
      }
      signers := signers + [addr];
    }
    return true;
  }

  /** Ascending indices below n leave room for at most n signatures. */
  lemma {:induction false} AscendingIndices(sigs: seq<Signature>, n: nat)
    requires forall i, j | 0 <= i < j < |sigs| :: sigs[i].index < sigs[j].index
    requires forall i | 0 <= i < |sigs| :: sigs[i].index < n
    ensures |sigs| <= n
  {
    if sigs != [] {
      var last := sigs[|sigs| - 1].index;
      AscendingIndices(sigs[..|sigs| - 1], last);
    }
  }

  lemma TooManySignatures(c: Crypto, d: Digest, sigs: seq<Signature>, keys: seq<EthAddress>)
    ensures ValidSignatures(c, d, sigs, keys) ==> |sigs| <= |keys|
  {
    if ValidSignatures(c, d, sigs, keys) {
      AscendingIndices(sigs, |keys|);
    }
  }

  // ---------------------------------------------------------------- quorum

  /** More than two thirds of the guardians. */
  function CalculateQuorum(n: nat): (q: nat)
    ensures 3 * q > 2 * n && 3 * (q - 1) <= 2 * n
    ensures n > 0 ==> q <= n
  {
    n * 2 / 3 + 1
  }

  datatype Verdict = Accepted | NoAddresses | NotSigned | NoQuorum | BadSignatures

  /** The checks of Verify in the order the code makes them; a nil key list is None. */
  ghost function VerdictOn(c: Crypto, v: VAA, addresses: Option<seq<EthAddress>>): Verdict {
    if addresses.None? then NoAddresses
    else if v.signatures == [] then NotSigned
    else if |v.signatures| < CalculateQuorum(|addresses.value|) then NoQuorum
    else if !ValidSignatures(c, SigningDigest(c, v), v.signatures, addresses.value) then BadSignatures
    else Accepted
  }

  method Verify(c: Crypto, v: VAA, addresses: Option<seq<EthAddress>>) returns (r: Verdict)
    ensures r == VerdictOn(c, v, addresses)
    ensures r == NoAddresses <==> addresses == None
    ensures r == NotSigned <==> addresses.Some? && |v.signatures| == 0
    ensures r == NoQuorum <==>
      addresses.Some? && 0 < |v.signatures| && 3 * |v.signatures| <= 2 * |addresses.value|
    ensures r == Accepted <==>
      && addresses.Some? && 0 < |v.signatures| && 3 * |v.signatures| > 2 * |addresses.value|
      && ValidSignatures(c, c.hash(Body(v)), v.signatures, addresses.value)
  {
    if addresses.None? { return NoAddresses; }
    if |v.signatures| == 0 { return NotSigned; }
    var quorum := CalculateQuorum(|addresses.value|);
    if |v.signatures| < quorum { return NoQuorum; }
    var ok := VerifySignatures(c, SigningDigest(c, v), v.signatures, addresses.value);
    return if ok then Accepted else BadSignatures;
  }

  // ---------------------------------------------------------------- token transfers

  datatype TransferHdr = TransferHdr(
    kind: byte, amount: nat, originAddress: Address, originChain: uint16, targetAddress: Address, targetChain: uint16)

  predicate IsTransfer(payload: seq<byte>) { |payload| > 0 && (payload[0] == 1 || payload[0] == 3) }

  function DecodeTransferHdr(payload: seq<byte>): Option<TransferHdr> {
    if !IsTransfer(payload) || |payload| < 101 then None else
    Widths();
    Some(TransferHdr(payload[0], FromBE(payload[1..33]), payload[33..65], FromBE(payload[65..67]),
                     payload[67..99], FromBE(payload[99..101])))
  }
}
