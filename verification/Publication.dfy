/** Observed messages and their stored form: node/pkg/common/chainlock.go. */
module Publication {
  import opened Binary
  import opened Vaa
  import opened Keys

  type Hash = Address

  datatype Message = Message(
    txHash: Hash,
    timestamp: int,
    nonce: uint32,
    sequence: uint64,
    consistencyLevel: byte,
    emitterChain: uint16,
    emitterAddress: Address,
    payload: seq<byte>,
    isReobservation: bool,
    unreliable: bool)

  const HEAD_LENGTH := 83
  const MIN_LENGTH := 88
  const OLD_MIN_LENGTH := 83

  function IdOfMessage(m: Message): VAAID { VAAID(m.emitterChain, m.emitterAddress, m.sequence) }

  function MessageIDString(m: Message): Text { MessageID(IdOfMessage(m)) }

  function CreateVAA(m: Message, gsIndex: uint32): VAA {
    VAA(SUPPORTED_VERSION, gsIndex, [], m.timestamp, m.nonce, m.sequence, m.consistencyLevel, m.emitterChain,
      m.emitterAddress, m.payload)
  }

  function CreateDigest(c: Crypto, m: Message): Text { Hex(SigningDigest(c, CreateVAA(m, 0))) }

  // ---------------------------------------------------------------- stored form

  /** The fields common to both formats, followed by rest. */
  function Head(m: Message, rest: seq<byte>): (s: seq<byte>)
    ensures |s| == HEAD_LENGTH + |rest|
  {
    m.txHash + (BE(Unix(m.timestamp), 4) + (BE(m.nonce, 4) + (BE(m.sequence, 8) +
    ([m.consistencyLevel] + (BE(m.emitterChain, 2) + (m.emitterAddress + rest))))))
  }

  function EncodeMessage(m: Message): (s: seq<byte>)
    ensures |s| == HEAD_LENGTH + 1 + |m.payload|
  {
    Head(m, [if m.isReobservation then 1 else 0] + m.payload)
  }

  /** Reads the common fields; what is left becomes the payload. */
  function ReadHead(s: seq<byte>): Message
    requires |s| >= HEAD_LENGTH
  {
    Widths();
    var r1 := s[32..];
    var r2 := r1[4..];
    var r3 := r2[4..];
    var r4 := r3[8..];
    var r5 := r4[1..];
    var r6 := r5[2..];
    Message(s[..32], FromUnix(FromBE(r1[..4])), FromBE(r2[..4]), FromBE(r3[..8]), r4[0], FromBE(r5[..2]), r6[..32],
      r6[32..], false, false)
  }

  /** The format before the reobservation flag was added. An empty payload is an error. */
  function DecodeOldMessage(data: seq<byte>): Option<Message> {
    if |data| <= OLD_MIN_LENGTH then None else Some(ReadHead(data))
  }

  /** The header takes 84 bytes, but 88 are demanded. */
  function DecodeMessage(data: seq<byte>): Option<Message> {
    if |data| < MIN_LENGTH then None else
    var m := ReadHead(data);
    Some(m.(isReobservation := m.payload[0] != 0, payload := m.payload[1..]))
  }

  /** A timestamp as it comes back from the store: whole seconds, modulo 2^32. */
  function StoredTime(t: int): int { FromUnix(FromBE(BE(Unix(t), 4))) }

  lemma StoredTimeKept(t: int)
    ensures BE(Unix(StoredTime(t)), 4) == BE(Unix(t), 4)
    ensures StoredTime(StoredTime(t)) == StoredTime(t)
    ensures StoredTime(t) == t <==> t % NANOS == 0 && 0 <= Unix(t) < 0x1_0000_0000
  {
    Widths();
    var b := BE(Unix(t), 4);
    BEOfFromBE(b);
    assert Unix(StoredTime(t)) == FromBE(b);
    if t % NANOS == 0 && 0 <= Unix(t) < 0x1_0000_0000 {
      FromBEOfBE(Unix(t), 4);
    }
  }

  lemma ReadHeadOfHead(m: Message, rest: seq<byte>)
    ensures ReadHead(Head(m, rest)) ==
      m.(timestamp := StoredTime(m.timestamp), payload := rest, isReobservation := false, unreliable := false)
  {
    Widths();
    var s6 := m.emitterAddress + rest;
    var s5 := BE(m.emitterChain, 2) + s6;
    var s4 := [m.consistencyLevel] + s5;
    var s3 := BE(m.sequence, 8) + s4;
    var s2 := BE(m.nonce, 4) + s3;
    var s1 := BE(Unix(m.timestamp), 4) + s2;
    CutAppend(m.txHash, s1);
    CutAppend(BE(Unix(m.timestamp), 4), s2);
    CutAppend(BE(m.nonce, 4), s3);
    CutAppend(BE(m.sequence, 8), s4);
    CutAppend([m.consistencyLevel], s5);
    CutAppend(BE(m.emitterChain, 2), s6);
    CutAppend(m.emitterAddress, rest);
    FromBEOfBE(m.nonce, 4);
    FromBEOfBE(m.sequence, 8);
    FromBEOfBE(m.emitterChain, 2);
  }

  lemma HeadOfReadHead(s: seq<byte>)
    requires |s| >= HEAD_LENGTH
    ensures Head(ReadHead(s), ReadHead(s).payload) == s
  {
    var r1 := s[32..];
    var r2 := r1[4..];
    var r3 := r2[4..];
    var r4 := r3[8..];
    var r5 := r4[1..];
    var r6 := r5[2..];
    BEOfFromBE(r1[..4]);
    BEOfFromBE(r2[..4]);
    BEOfFromBE(r3[..8]);
    BEOfFromBE(r5[..2]);
    assert Unix(FromUnix(FromBE(r1[..4]))) == FromBE(r1[..4]);
    assert r6 == r6[..32] + r6[32..];
    assert r5 == r5[..2] + r6;
    assert r4 == [r4[0]] + r5;
    assert r3 == r3[..8] + r4;
    assert r2 == r2[..4] + r3;
    assert r1 == r1[..4] + r2;
    assert s == s[..32] + r1;
  }

  /** What a stored message looks like after reloading. */
  function Reloaded(m: Message): Message { m.(timestamp := StoredTime(m.timestamp), unreliable := false) }

  /** A stored message can be read back exactly when its payload has at least four bytes. */
  lemma DecodeOfEncodeMessage(m: Message)
    ensures DecodeMessage(EncodeMessage(m)) == if |m.payload| >= 4 then Some(Reloaded(m)) else None
  {
    ReadHeadOfHead(m, [if m.isReobservation then 1 else 0] + m.payload);
    CutAppend([if m.isReobservation then 1 else 0], m.payload);
  }

  /** And on the bytes the decoder accepts, encoding gives them back exactly when the flag byte
      is 0 or 1. */
  lemma EncodeOfDecodeMessage(data: seq<byte>)
    ensures DecodeMessage(data).Some? <==> |data| >= MIN_LENGTH
    ensures DecodeMessage(data).Some? ==> (EncodeMessage(DecodeMessage(data).value) == data <==> data[83] <= 1)
  {
    if |data| >= MIN_LENGTH {
      var h := ReadHead(data);
      var m := DecodeMessage(data).value;
      HeadOfReadHead(data);
      assert h.payload[0] == data[83];
      if data[83] <= 1 {
        assert h.payload == [if m.isReobservation then 1 else 0] + m.payload;
      } else {
        ReadHeadOfHead(m, [1] + m.payload);
        assert ReadHead(EncodeMessage(m)).payload[0] == 1;
      }
    }
  }

  /** Reloading keeps the message id and, for any guardian set index, the signed body and so
      the digest. */
  lemma ReloadKeeps(c: Crypto, m: Message, gsIndex: uint32, other: uint32)
    ensures MessageIDString(Reloaded(m)) == MessageIDString(m)
    ensures Body(CreateVAA(Reloaded(m), gsIndex)) == Body(CreateVAA(m, other))
    ensures SigningDigest(c, CreateVAA(Reloaded(m), gsIndex)) == SigningDigest(c, CreateVAA(m, other))
    ensures CreateDigest(c, Reloaded(m)) == CreateDigest(c, m)
  {
    StoredTimeKept(m.timestamp);
    assert Body(CreateVAA(Reloaded(m), gsIndex)) == Body(CreateVAA(m, other));
    assert Body(CreateVAA(Reloaded(m), 0)) == Body(CreateVAA(m, 0));
  }

  /** Everything either decoder returns is stored without loss, unless the payload is too short. */
  lemma OldMessageMigrates(data: seq<byte>)
    requires DecodeOldMessage(data).Some?
    ensures var m := DecodeOldMessage(data).value;
      DecodeMessage(EncodeMessage(m)) == if |data| >= HEAD_LENGTH + 4 then Some(m) else None
  {
    var m := DecodeOldMessage(data).value;
    DecodeOfEncodeMessage(m);
    HeadOfReadHead(data);
    ReadHeadOfHead(m, m.payload);
  }

  // ---------------------------------------------------------------- the codec as it runs

  method MarshalMessage(m: Message) returns (buf: seq<byte>)
    ensures buf == EncodeMessage(m)
  {
    buf := m.txHash;
    buf := buf + BE(Unix(m.timestamp), 4);
    buf := buf + BE(m.nonce, 4);
    buf := buf + BE(m.sequence, 8);
    buf := buf + [m.consistencyLevel];
    buf := buf + BE(m.emitterChain, 2);
    buf := buf + m.emitterAddress;
    buf := buf + [if m.isReobservation then 1 else 0];
    buf := buf + m.payload;
  }

  method UnmarshalHead(data: seq<byte>) returns (r: Option<Message>)
    ensures r == if |data| < HEAD_LENGTH then None else Some(ReadHead(data))
  {
    Widths();
    var reader := data;
    var m := Message(Zeros(32), 0, 0, 0, 0, 0, Zeros(32), [], false, false);
    if |reader| < 32 { return None; }
    m, reader := m.(txHash := reader[..32]), reader[32..];
    if |reader| < 4 { return None; }
    m, reader := m.(timestamp := FromUnix(FromBE(reader[..4]))), reader[4..];
    if |reader| < 4 { return None; }
    m, reader := m.(nonce := FromBE(reader[..4])), reader[4..];
    if |reader| < 8 { return None; }
    m, reader := m.(sequence := FromBE(reader[..8])), reader[8..];
    if |reader| < 1 { return None; }
    m, reader := m.(consistencyLevel := reader[0]), reader[1..];
    if |reader| < 2 { return None; }
    m, reader := m.(emitterChain := FromBE(reader[..2])), reader[2..];
    if |reader| < 32 { return None; }
    m, reader := m.(emitterAddress := reader[..32]), reader[32..];
    return Some(m.(payload := reader));
  }

  method UnmarshalOldMessage(data: seq<byte>) returns (r: Option<Message>)
    ensures r == DecodeOldMessage(data)
  {
    if |data| < OLD_MIN_LENGTH { return None; }
    var m := UnmarshalHead(data);
    if m.None? || |m.value.payload| == 0 { return None; }
    return m;
  }

  method UnmarshalMessage(data: seq<byte>) returns (r: Option<Message>)
    ensures r == DecodeMessage(data)
  {
    if |data| < MIN_LENGTH { return None; }
    var m := UnmarshalHead(data);
    if m.None? || |m.value.payload| == 0 { return None; }
    var reader := m.value.payload;
    if |reader[1..]| == 0 { return None; }
    return Some(m.value.(isReobservation := reader[0] != 0, payload := reader[1..]));
  }
}
