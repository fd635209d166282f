/** The governor's stored transfers, completed and pending, in their old and new formats, and
    the keys they are stored under: node/pkg/db/governor.go. */
module Transfers {
  import opened Binary
  import opened Vaa
  import opened Keys
  import opened Publication

  datatype Transfer = Transfer(
    timestamp: int,
    value: uint64,
    originChain: uint16,
    originAddress: Address,
    emitterChain: uint16,
    emitterAddress: Address,
    msgID: Text,
    hash: Text,
    targetAddress: Address,
    targetChain: uint16)

  datatype PendingTransfer = PendingTransfer(releaseTime: int, msg: Message)

  const FIXED_LENGTH := 80

  // ---------------------------------------------------------------- completed transfers

  /** The fields before the two texts, followed by rest. */
  function FixedFields(t: Transfer, rest: seq<byte>): (s: seq<byte>)
    ensures |s| == FIXED_LENGTH + |rest|
  {
    BE(Unix(t.timestamp), 4) + (BE(t.value, 8) + (BE(t.originChain, 2) + (t.originAddress +
    (BE(t.emitterChain, 2) + (t.emitterAddress + rest)))))
  }

  /** A text behind its 16-bit length, followed by rest. A longer text has its length cut. */
  function TextField(t: Text, rest: seq<byte>): seq<byte> { BE(|t|, 2) + (t + rest) }

  function Target(t: Transfer): seq<byte> { BE(t.targetChain, 2) + t.targetAddress }

  function EncodeTransfer(t: Transfer): seq<byte> {
    FixedFields(t, TextField(t.msgID, TextField(t.hash, Target(t))))
  }

  function EmptyTransfer(): Transfer {
    Transfer(0, 0, 0, Zeros(32), 0, Zeros(32), [], [], Zeros(32), 0)
  }

  function ReadFixed(s: seq<byte>): (Transfer, seq<byte>)
    requires |s| >= FIXED_LENGTH
  {
    Widths();
    var r1 := s[4..];
    var r2 := r1[8..];
    var r3 := r2[2..];
    var r4 := r3[32..];
    var r5 := r4[2..];
    (EmptyTransfer().(timestamp := FromUnix(FromBE(s[..4])), value := FromBE(r1[..8]), originChain := FromBE(r2[..2]),
                      originAddress := r3[..32], emitterChain := FromBE(r4[..2]), emitterAddress := r5[..32]), r5[32..])
  }

  /** A text must be there in full. */
  function ReadText(s: seq<byte>): (r: Option<(Text, seq<byte>)>)
    ensures r.Some? ==> |r.value.0| < 0x1_0000
  {
    Widths();
    if |s| < 2 then None else
    var n := FromBE(s[..2]);
    var rest := s[2..];
    if |rest| < n then None else Some((rest[..n], rest[n..]))
  }

  /** The old reader takes what is left of a text that is cut short, but not nothing. */
  function ReadOldText(s: seq<byte>): (r: Option<(Text, seq<byte>)>)
    ensures r.Some? ==> |r.value.0| < 0x1_0000
  {
    Widths();
    if |s| < 2 then None else
    var n := FromBE(s[..2]);
    var rest := s[2..];
    if n == 0 then Some(([], rest))
    else if |rest| == 0 then None
    else
      var k := if n <= |rest| then n else |rest|;
      Some((rest[..k], rest[k..]))
  }

  function ReadTarget(t: Transfer, s: seq<byte>): Option<Transfer> {
    if |s| < 34 then None else Widths(); Some(t.(targetChain := FromBE(s[..2]), targetAddress := s[2..][..32]))
  }

  /** Bytes behind the last field are ignored. */
  function DecodeTransfer(data: seq<byte>): Option<Transfer> {
    if |data| < FIXED_LENGTH then None else
    var (t, r) := ReadFixed(data);
    match ReadText(r)
    case None => None
    case Some((msgID, r1)) =>
      match ReadText(r1)
      case None => None
      case Some((hash, r2)) =>
        ReadTarget(t.(msgID := msgID, hash := hash), r2)
  }

  /** The old format has no target. */
  function DecodeOldTransfer(data: seq<byte>): Option<Transfer> {
    if |data| < FIXED_LENGTH then None else
    var (t, r) := ReadFixed(data);
    match ReadOldText(r)
    case None => None
    case Some((msgID, r1)) =>
      match ReadOldText(r1)
      case None => None
      case Some((hash, _)) => Some(t.(msgID := msgID, hash := hash))
  }

  lemma ReadFixedOfFields(t: Transfer, rest: seq<byte>)
    ensures ReadFixed(FixedFields(t, rest)) ==
      (t.(timestamp := StoredTime(t.timestamp), msgID := [], hash := [], targetChain := 0, targetAddress := Zeros(32)),
        rest)
  {
    Widths();
    var s5 := t.emitterAddress + rest;
    var s4 := BE(t.emitterChain, 2) + s5;
    var s3 := t.originAddress + s4;
    var s2 := BE(t.originChain, 2) + s3;
    var s1 := BE(t.value, 8) + s2;
    CutAppend(BE(Unix(t.timestamp), 4), s1);
    CutAppend(BE(t.value, 8), s2);
    CutAppend(BE(t.originChain, 2), s3);
    CutAppend(t.originAddress, s4);
    CutAppend(BE(t.emitterChain, 2), s5);
    CutAppend(t.emitterAddress, rest);
    FromBEOfBE(t.value, 8);
    FromBEOfBE(t.originChain, 2);
    FromBEOfBE(t.emitterChain, 2);
  }

  lemma FieldsOfReadFixed(s: seq<byte>)
    requires |s| >= FIXED_LENGTH
    ensures FixedFields(ReadFixed(s).0, ReadFixed(s).1) == s
  {
    var r1 := s[4..];
    var r2 := r1[8..];
    var r3 := r2[2..];
    var r4 := r3[32..];
    var r5 := r4[2..];
    BEOfFromBE(s[..4]);
    BEOfFromBE(r1[..8]);
    BEOfFromBE(r2[..2]);
    BEOfFromBE(r4[..2]);
    assert Unix(FromUnix(FromBE(s[..4]))) == FromBE(s[..4]);
    assert r5 == r5[..32] + r5[32..];
    assert r4 == r4[..2] + r5;
    assert r3 == r3[..32] + r4;
    assert r2 == r2[..2] + r3;
    assert r1 == r1[..8] + r2;
    assert s == s[..4] + r1;
  }

  lemma ReadTextOfField(t: Text, rest: seq<byte>)
    requires |t| < 0x1_0000
    ensures ReadText(TextField(t, rest)) == Some((t, rest))
  {
    Widths();
    FromBEOfBE(|t|, 2);
    CutAppend(BE(|t|, 2), t + rest);
    CutAppend(t, rest);
  }

  lemma FieldOfReadText(s: seq<byte>)
    requires ReadText(s).Some?
    ensures TextField(ReadText(s).value.0, ReadText(s).value.1) == s
  {
    BEOfFromBE(s[..2]);
    var n := FromBE(s[..2]);
    assert s == s[..2] + (s[2..][..n] + s[2..][n..]);
  }

  lemma ReadTargetOfTarget(t: Transfer, u: Transfer)
    ensures ReadTarget(u, Target(t)) == Some(u.(targetChain := t.targetChain, targetAddress := t.targetAddress))
  {
    Widths();
    CutAppend(BE(t.targetChain, 2), t.targetAddress);
    assert t.targetAddress[..32] == t.targetAddress;
    FromBEOfBE(t.targetChain, 2);
  }

  lemma TransferReadsBack(t: Transfer)
    requires |t.msgID| < 0x1_0000 && |t.hash| < 0x1_0000
    ensures DecodeTransfer(EncodeTransfer(t)) == Some(t.(timestamp := StoredTime(t.timestamp)))
  {
    var r2 := Target(t);
    var r1 := TextField(t.hash, r2);
    ReadFixedOfFields(t, TextField(t.msgID, r1));
    ReadTextOfField(t.msgID, r1);
    ReadTextOfField(t.hash, r2);
    ReadTargetOfTarget(t, ReadFixed(EncodeTransfer(t)).0.(msgID := t.msgID, hash := t.hash));
  }

  predicate WholeSeconds(time: int) { time % NANOS == 0 && 0 <= Unix(time) < 0x1_0000_0000 }

  /** The transfers that the store keeps as they are. */
  predicate StorableTransfer(t: Transfer) {
    |t.msgID| < 0x1_0000 && |t.hash| < 0x1_0000 && WholeSeconds(t.timestamp)
  }

  lemma DecodedTransferIsStorable(data: seq<byte>)
    ensures DecodeTransfer(data).Some? ==> StorableTransfer(DecodeTransfer(data).value)
    ensures DecodeOldTransfer(data).Some? ==> StorableTransfer(DecodeOldTransfer(data).value)
  {
    if |data| >= FIXED_LENGTH {
      Widths();
      assert WholeSeconds(ReadFixed(data).0.timestamp);
    }
  }

  /** A transfer survives the store exactly when both texts are under 65536 bytes and its
      timestamp is a whole number of seconds that fits 32 bits. */
  lemma DecodeOfEncodeTransfer(t: Transfer)
    ensures DecodeTransfer(EncodeTransfer(t)) == Some(t) <==> StorableTransfer(t)
  {
    if StorableTransfer(t) {
      TransferReadsBack(t);
      StoredTimeKept(t.timestamp);
    }
    DecodedTransferIsStorable(EncodeTransfer(t));
  }

  /** The encoding of a decoded transfer is the part of the data that was read. */
  lemma EncodeOfDecodeTransfer(data: seq<byte>)
    requires DecodeTransfer(data).Some?
    ensures EncodeTransfer(DecodeTransfer(data).value) <= data
  {
    var t := DecodeTransfer(data).value;
    FieldsOfReadFixed(data);
    var r := ReadFixed(data).1;
    var r1 := ReadText(r).value.1;
    var r2 := ReadText(r1).value.1;
    FieldOfReadText(r);
    FieldOfReadText(r1);
    TargetOfReadTarget(ReadFixed(data).0.(msgID := t.msgID, hash := t.hash), r2);
    FieldsAppend(t, r2[34..]);
    assert data == FixedFields(t, TextField(t.msgID, TextField(t.hash, r2)));
  }

  lemma TargetOfReadTarget(u: Transfer, s: seq<byte>)
    requires ReadTarget(u, s).Some?
    ensures Target(ReadTarget(u, s).value) + s[34..] == s
  {
    BEOfFromBE(s[..2]);
    assert s == s[..2] + s[2..][..32] + s[34..];
  }

  lemma FieldsAppend(t: Transfer, more: seq<byte>)
    ensures FixedFields(t, TextField(t.msgID, TextField(t.hash, Target(t) + more))) == EncodeTransfer(t) + more
  {
    var r2 := Target(t);
    var r1 := TextField(t.hash, r2);
    assert TextField(t.hash, r2 + more) == r1 + more;
    assert TextField(t.msgID, r1 + more) == TextField(t.msgID, r1) + more;
  }

  /** What the old reader returns is kept by the new format, with an empty target. */
  lemma OldTransferMigrates(data: seq<byte>)
    requires DecodeOldTransfer(data).Some?
    ensures DecodeTransfer(EncodeTransfer(DecodeOldTransfer(data).value)) == DecodeOldTransfer(data)
  {
    DecodedTransferIsStorable(data);
    DecodeOfEncodeTransfer(DecodeOldTransfer(data).value);
  }

  // ---------------------------------------------------------------- pending transfers

  function EncodePending(p: PendingTransfer): seq<byte> { BE(Unix(p.releaseTime), 4) + EncodeMessage(p.msg) }

  function DecodePending(data: seq<byte>, isOld: bool): Option<PendingTransfer> {
    if |data| <= 4 then None else
    match if isOld then DecodeOldMessage(data[4..]) else DecodeMessage(data[4..])
    case None => None
    case Some(m) => Some(PendingTransfer(FromUnix(FromBE(data[..4])), m))
  }

  function ReloadedPending(p: PendingTransfer): PendingTransfer {
    PendingTransfer(StoredTime(p.releaseTime), Reloaded(p.msg))
  }

  lemma DecodeOfEncodePending(p: PendingTransfer)
    ensures DecodePending(EncodePending(p), false) == if |p.msg.payload| >= 4 then Some(ReloadedPending(p)) else None
  {
    CutAppend(BE(Unix(p.releaseTime), 4), EncodeMessage(p.msg));
    DecodeOfEncodeMessage(p.msg);
  }

  lemma StoredSeconds(s: seq<byte>)
    requires |s| == 4
    ensures StoredTime(FromUnix(FromBE(s))) == FromUnix(FromBE(s))
  {
    BEOfFromBE(s);
    assert Unix(FromUnix(FromBE(s))) == FromBE(s);
  }

  lemma OldPendingMigrates(data: seq<byte>)
    requires DecodePending(data, true).Some?
    ensures var p := DecodePending(data, true).value;
      DecodePending(EncodePending(p), false) == if |p.msg.payload| >= 4 then Some(p) else None
  {
    var p := DecodePending(data, true).value;
    DecodeOfEncodePending(p);
    OldMessageMigrates(data[4..]);
    DecodeOfEncodeMessage(p.msg);
    StoredSeconds(data[..4]);
  }

  // ---------------------------------------------------------------- keys

  const OLD_TRANSFER: Text := Ascii("GOV:XFER2:")
  const TRANSFER: Text := Ascii("GOV:XFER3:")
  const OLD_PENDING: Text := Ascii("GOV:PENDING2:")
  const PENDING: Text := Ascii("GOV:PENDING3:")

  predicate HasTag(key: Text, tag: Text) { |key| >= |tag| + MIN_ID_LENGTH && key[..|tag|] == tag }

  datatype Kind = PendingKind | OldPendingKind | TransferKind | OldTransferKind | OtherKind

  function KindOf(key: Text): Kind {
    if HasTag(key, PENDING) then PendingKind
    else if HasTag(key, OLD_PENDING) then OldPendingKind
    else if HasTag(key, TRANSFER) then TransferKind
    else if HasTag(key, OLD_TRANSFER) then OldTransferKind
    else OtherKind
  }

  lemma TagsDiffer()
    ensures |PENDING| == 13 && PENDING[4] == 80 && PENDING[11] == 51
    ensures |OLD_PENDING| == 13 && OLD_PENDING[4] == 80 && OLD_PENDING[11] == 50
    ensures |TRANSFER| == 10 && TRANSFER[4] == 88 && TRANSFER[8] == 51
    ensures |OLD_TRANSFER| == 10 && OLD_TRANSFER[4] == 88 && OLD_TRANSFER[8] == 50
  {
  }

  /** A key carries at most one of the four tags, so the order of the tests does not matter. */
  lemma KindsAreDisjoint(key: Text)
    ensures HasTag(key, PENDING) <==> KindOf(key) == PendingKind
    ensures HasTag(key, OLD_PENDING) <==> KindOf(key) == OldPendingKind
    ensures HasTag(key, TRANSFER) <==> KindOf(key) == TransferKind
    ensures HasTag(key, OLD_TRANSFER) <==> KindOf(key) == OldTransferKind
  {
    TagsDiffer();
    assert |key| >= 13 ==>
      key[..13][4] == key[4] && key[..13][11] == key[11] && key[..10][4] == key[4] && key[..10][8] == key[8];
  }

  lemma TagOfKey(tag: Text, id: Text)
    ensures HasTag(tag + id, tag) <==> |id| >= MIN_ID_LENGTH
  {
    CutAppend(tag, id);
  }

  /** The key of every pending message is a pending key and of no other kind; the key of a
      transfer is a transfer key when its message id is long enough to be one. */
  lemma KindOfKeys(m: Message, t: Transfer)
    ensures KindOf(PENDING + MessageIDString(m)) == PendingKind
    ensures KindOf(OLD_PENDING + MessageIDString(m)) == OldPendingKind
    ensures KindOf(TRANSFER + t.msgID) == TransferKind <==> |t.msgID| >= MIN_ID_LENGTH
    ensures KindOf(OLD_TRANSFER + t.msgID) == OldTransferKind <==> |t.msgID| >= MIN_ID_LENGTH
  {
    TagOfKey(PENDING, MessageIDString(m));
    TagOfKey(OLD_PENDING, MessageIDString(m));
    TagOfKey(TRANSFER, t.msgID);
    TagOfKey(OLD_TRANSFER, t.msgID);
    KindsAreDisjoint(PENDING + MessageIDString(m));
    KindsAreDisjoint(OLD_PENDING + MessageIDString(m));
    KindsAreDisjoint(TRANSFER + t.msgID);
    KindsAreDisjoint(OLD_TRANSFER + t.msgID);
  }

  // ---------------------------------------------------------------- the codec as it runs

  method MarshalTransfer(t: Transfer) returns (buf: seq<byte>)
    ensures buf == EncodeTransfer(t)
  {
    buf := BE(Unix(t.timestamp), 4);
    buf := buf + BE(t.value, 8);
    buf := buf + BE(t.originChain, 2);
    buf := buf + t.originAddress;
    buf := buf + BE(t.emitterChain, 2);
    buf := buf + t.emitterAddress;
    var texts := BE(|t.msgID|, 2);
    if |t.msgID| > 0 { texts := texts + t.msgID; }
    texts := texts + BE(|t.hash|, 2);
    if |t.hash| > 0 { texts := texts + t.hash; }
    texts := texts + BE(t.targetChain, 2);
    texts := texts + t.targetAddress;
    assert texts == TextField(t.msgID, TextField(t.hash, Target(t)));
    buf := buf + texts;
    assert buf == FixedFields(t, texts);
  }

  method UnmarshalFixed(data: seq<byte>) returns (r: Option<(Transfer, seq<byte>)>)
    ensures r == if |data| < FIXED_LENGTH then None else Some(ReadFixed(data))
  {
    Widths();
    var reader, t := data, EmptyTransfer();
    if |reader| < 4 { return None; }
    t, reader := t.(timestamp := FromUnix(FromBE(reader[..4]))), reader[4..];
    if |reader| < 8 { return None; }
    t, reader := t.(value := FromBE(reader[..8])), reader[8..];
    if |reader| < 2 { return None; }
    t, reader := t.(originChain := FromBE(reader[..2])), reader[2..];
    if |reader| < 32 { return None; }
    t, reader := t.(originAddress := reader[..32]), reader[32..];
    if |reader| < 2 { return None; }
    t, reader := t.(emitterChain := FromBE(reader[..2])), reader[2..];
    if |reader| < 32 { return None; }
    t, reader := t.(emitterAddress := reader[..32]), reader[32..];
    return Some((t, reader));
  }

  method UnmarshalTarget(t: Transfer, data: seq<byte>) returns (r: Option<Transfer>)
    ensures r == ReadTarget(t, data)
  {
    Widths();
    var reader := data;
    if |reader| < 2 { return None; }
    var targetChain := FromBE(reader[..2]);
    reader := reader[2..];
    if |reader| < 32 { return None; }
    return Some(t.(targetChain := targetChain, targetAddress := reader[..32]));
  }

  method UnmarshalTransfer(data: seq<byte>) returns (r: Option<Transfer>)
    ensures r == DecodeTransfer(data)
  {
    var fixed := UnmarshalFixed(data);
    if fixed.None? { return None; }
    var (t, reader) := fixed.value;
    var msgID := ReadText(reader);
    if msgID.None? { return None; }
    t, reader := t.(msgID := msgID.value.0), msgID.value.1;
    var hash := ReadText(reader);
    if hash.None? { return None; }
    t, reader := t.(hash := hash.value.0), hash.value.1;
    r := UnmarshalTarget(t, reader);
  }

  method UnmarshalOldTransfer(data: seq<byte>) returns (r: Option<Transfer>)
    ensures r == DecodeOldTransfer(data)
  {
    var fixed := UnmarshalFixed(data);
    if fixed.None? { return None; }
    var (t, reader) := fixed.value;
    var msgID := ReadOldText(reader);
    if msgID.None? { return None; }
    t, reader := t.(msgID := msgID.value.0), msgID.value.1;
    var hash := ReadOldText(reader);
    if hash.None? { return None; }
    return Some(t.(hash := hash.value.0));
  }

  method MarshalPending(p: PendingTransfer) returns (buf: seq<byte>)
    ensures buf == EncodePending(p)
  {
    buf := BE(Unix(p.releaseTime), 4);
    var b := MarshalMessage(p.msg);
    buf := buf + b;
  }

  method UnmarshalPending(data: seq<byte>, isOld: bool) returns (r: Option<PendingTransfer>)
    ensures r == DecodePending(data, isOld)
  {
    var reader := data;
    if |reader| < 4 { return None; }
    var releaseTime := FromUnix(FromBE(reader[..4]));
    reader := reader[4..];
    if |reader| == 0 { return None; }
    var msg;
    if isOld {
      msg := UnmarshalOldMessage(reader);
    } else {
      msg := UnmarshalMessage(reader);
    }
    if msg.None? { return None; }
    return Some(PendingTransfer(releaseTime, msg.value));
  }
}
