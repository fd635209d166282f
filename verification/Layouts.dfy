/** Where the fields of each byte format stand, and what the signed bytes of a message determine. */
module Layouts {
  import opened Binary
  import opened Vaa
  import opened Keys
  import opened Publication
  import opened Transfers

  // ---------------------------------------------------------------- numbers

  /** In a big-endian number the first byte weighs most. */
  lemma {:induction false} FirstByteWeighsMost(s: seq<byte>)
    requires s != []
    ensures FromBE(s) == s[0] * Pow256(|s| - 1) + FromBE(s[1..])
  {
    var n := |s| - 1;
    if n > 0 {
      var front := s[..n];
      FirstByteWeighsMost(front);
      assert front[1..] == s[1..][..n - 1];
      assert FromBE(s[1..]) == 256 * FromBE(front[1..]) + s[n];
      Scale(s[0], Pow256(n - 1), FromBE(front[1..]));
    } else {
      assert s[1..] == [] && s[..0] == [];
    }
  }

  lemma Scale(a: int, p: int, r: int)
    ensures 256 * (a * p + r) == a * (256 * p) + 256 * r
  {
  }

  lemma LastByte(n: int, w: nat)
    requires w > 0
    ensures FromBE(BE(n, w)) == 256 * FromBE(BE(n / 256, w - 1)) + n % 256
  {
    assert BE(n, w)[..w - 1] == BE(n / 256, w - 1);
  }

  lemma Remainder(n: int, m: int, k: int, r: int)
    requires m == 0x1_0000 || m == 0x1_0000_0000
    requires n == m * k + r && 0 <= r < m
    ensures n % m == r
  {
    var d := n / m;
    assert n == m * d + n % m && 0 <= n % m < m;
    assert k < d ==> m * d >= m * k + m;
    assert k > d ==> m * k >= m * d + m;
  }

  /** A number written in two or four bytes and read back is cut down modulo 2 to the power 16 or 32. */
  lemma TwoBytesWrap(n: int)
    ensures FromBE(BE(n, 2)) == n % 0x1_0000
  {
    hide BE, FromBE;
    var n1 := n / 256;
    var n2 := n1 / 256;
    LastByte(n, 2);
    LastByte(n1, 1);
    NoBytes(n2);
    Remainder(n, 0x1_0000, n2, FromBE(BE(n, 2)));
  }

  lemma FourBytesWrap(n: int)
    ensures FromBE(BE(n, 4)) == n % 0x1_0000_0000
  {
    hide BE, FromBE;
    var n1 := n / 256;
    var n2 := n1 / 256;
    var n3 := n2 / 256;
    var n4 := n3 / 256;
    LastByte(n, 4);
    LastByte(n1, 3);
    LastByte(n2, 2);
    LastByte(n3, 1);
    NoBytes(n4);
    Remainder(n, 0x1_0000_0000, n4, FromBE(BE(n, 4)));
  }

  lemma NoBytes(n: int)
    ensures FromBE(BE(n, 0)) == 0
  {
  }

  /** Whole seconds since the epoch as four bytes hold them. */
  function Seconds(t: int): uint32 { (t / 1_000_000_000) % 0x1_0000_0000 }

  lemma NumbersRead(t: int, chain: uint16, small: uint32, large: uint64)
    ensures FromBE(BE(Unix(t), 4)) == Seconds(t)
    ensures FromBE(BE(chain, 2)) == chain && FromBE(BE(small, 4)) == small && FromBE(BE(large, 8)) == large
  {
    Widths();
    FourBytesWrap(Unix(t));
    FromBEOfBE(chain, 2);
    FromBEOfBE(small, 4);
    FromBEOfBE(large, 8);
  }

  // ---------------------------------------------------------------- signed bodies

  /** The signed body, byte by byte. */
  lemma BodyLayout(v: VAA)
    ensures var b := Body(v);
      && |b| == 51 + |v.payload|
      && FromBE(b[0..4]) == Seconds(v.timestamp) && FromBE(b[4..8]) == v.nonce
      && FromBE(b[8..10]) == v.emitterChain && b[10..42] == v.emitterAddress
      && FromBE(b[42..50]) == v.sequence && b[50] == v.consistencyLevel && b[51..] == v.payload
  {
    hide BE, FromBE;
    var b := Body(v);
    NumbersRead(v.timestamp, v.emitterChain, v.nonce, v.sequence);
    assert b[0..4] == BE(Unix(v.timestamp), 4) && b[4..8] == BE(v.nonce, 4) && b[8..10] == BE(v.emitterChain, 2);
    assert b[42..50] == BE(v.sequence, 8);
  }

  /** The VAA of a message has its fields, the supported version and no signatures, so that the bytes
      of the message are where the format of a body wants them. */
  lemma MessageBodyLayout(m: Message, gsIndex: uint32)
    ensures var b := Body(CreateVAA(m, gsIndex));
      && |b| == 51 + |m.payload|
      && FromBE(b[0..4]) == Seconds(m.timestamp) && FromBE(b[4..8]) == m.nonce
      && FromBE(b[8..10]) == m.emitterChain && b[10..42] == m.emitterAddress
      && FromBE(b[42..50]) == m.sequence && b[50] == m.consistencyLevel && b[51..] == m.payload
    ensures Encode(CreateVAA(m, gsIndex)) == [1] + BE(gsIndex, 4) + [0] + Body(CreateVAA(m, gsIndex))
  {
    hide BE, FromBE, Body;
    BodyLayout(CreateVAA(m, gsIndex));
  }

  /** Two messages agree on all that is signed. */
  ghost predicate SameSigned(m: Message, n: Message) {
    && Seconds(m.timestamp) == Seconds(n.timestamp) && m.nonce == n.nonce && m.sequence == n.sequence
    && m.consistencyLevel == n.consistencyLevel && m.emitterChain == n.emitterChain
    && m.emitterAddress == n.emitterAddress && m.payload == n.payload
  }

  lemma SameSeconds(t: int, u: int)
    requires Seconds(t) == Seconds(u)
    ensures BE(Unix(t), 4) == BE(Unix(u), 4)
  {
    hide BE, FromBE;
    FourBytesWrap(Unix(t));
    FourBytesWrap(Unix(u));
    BEOfFromBE(BE(Unix(t), 4));
    BEOfFromBE(BE(Unix(u), 4));
  }

  /** The signed bodies of two messages are the same exactly if the messages agree on nonce, sequence,
      consistency level, emitter and payload and on the seconds modulo 2 to the power 32, whatever
      the guardian sets; and so are their digests, if the hash tells the two bodies apart. */
  lemma SignedExactly(c: Crypto, m: Message, n: Message, gsIndex: uint32, other: uint32)
    ensures Body(CreateVAA(m, gsIndex)) == Body(CreateVAA(n, other)) <==> SameSigned(m, n)
    ensures SameSigned(m, n) ==> CreateDigest(c, m) == CreateDigest(c, n)
    ensures var a, b := Body(CreateVAA(m, gsIndex)), Body(CreateVAA(n, other));
      (c.hash(a) == c.hash(b) ==> a == b) ==> (CreateDigest(c, m) == CreateDigest(c, n) <==> SameSigned(m, n))
  {
    hide BE, FromBE;
    MessageBodyLayout(m, gsIndex);
    MessageBodyLayout(n, other);
    if SameSigned(m, n) {
      SameSeconds(m.timestamp, n.timestamp);
    }
    assert Body(CreateVAA(m, gsIndex)) == Body(CreateVAA(m, 0));
    assert Body(CreateVAA(n, other)) == Body(CreateVAA(n, 0));
    hide Body, SameSigned;
    if CreateDigest(c, m) == CreateDigest(c, n) {
      HexInjective(SigningDigest(c, CreateVAA(m, 0)), SigningDigest(c, CreateVAA(n, 0)));
    }
  }

  /** A message is named by its emitter and its sequence number, like its VAA. */
  lemma MessageNamed(m: Message, gsIndex: uint32)
    ensures MessageIDString(m) ==
      Dec(m.emitterChain) + Ascii("/") + Hex(m.emitterAddress) + Ascii("/") + Dec(m.sequence)
    ensures MessageIDString(m) == MessageID(IdOf(CreateVAA(m, gsIndex)))
    ensures VaaIDFromString(MessageIDString(m)) == Some(VAAID(m.emitterChain, m.emitterAddress, m.sequence))
  {
    hide Dec, Hex, VaaIDFromString;
    assert Ascii("/") == [SLASH];
    VaaIDFromMessageID(VAAID(m.emitterChain, m.emitterAddress, m.sequence));
    Reassociate(Dec(m.emitterChain) + [SLASH], Hex(m.emitterAddress) + [SLASH], Dec(m.sequence));
    Reassociate(Dec(m.emitterChain) + [SLASH], Hex(m.emitterAddress), [SLASH]);
  }

  // ---------------------------------------------------------------- VAAs

  lemma {:induction false} SignatureAt(sigs: seq<Signature>, k: nat)
    requires k < |sigs|
    ensures SignatureBytes(sigs)[66 * k..66 * k + 66] == [sigs[k].index] + sigs[k].data
  {
    var s := SignatureBytes(sigs);
    if k == 0 {
      assert s[0..66] == [sigs[0].index] + sigs[0].data;
    } else {
      var rest := SignatureBytes(sigs[1..]);
      SignatureAt(sigs[1..], k - 1);
      assert s == ([sigs[0].index] + sigs[0].data) + rest;
      assert s[66 * k..66 * k + 66] == rest[66 * (k - 1)..66 * (k - 1) + 66];
    }
  }

  /** A VAA, byte by byte; signature k takes 66 bytes from number 6 + 66k on. */
  lemma VaaLayout(v: VAA, k: nat)
    requires k < |v.signatures|
    ensures var s, n := Encode(v), |v.signatures|;
      && s[0] == v.version && FromBE(s[1..5]) == v.guardianSetIndex && s[5] == n % 256
      && |s| == 57 + 66 * n + |v.payload| && s[6 + 66 * n..] == Body(v)
      && s[6 + 66 * k] == v.signatures[k].index && s[7 + 66 * k..72 + 66 * k] == v.signatures[k].data
  {
    hide BE, FromBE, Body, SignatureBytes;
    var s, sigs := Encode(v), SignatureBytes(v.signatures);
    NumbersRead(0, 0, v.guardianSetIndex, 0);
    assert s[1..5] == BE(v.guardianSetIndex, 4);
    assert s[6..] == sigs + Body(v);
    CutAppend(sigs, Body(v));
    assert s[6 + |sigs|..] == s[6..][|sigs|..];
    SignatureAt(v.signatures, k);
    var one := [v.signatures[k].index] + v.signatures[k].data;
    assert s[6 + 66 * k..72 + 66 * k] == sigs[66 * k..66 * k + 66] == one;
    assert s[6 + 66 * k] == one[0] && s[7 + 66 * k..72 + 66 * k] == one[1..];
  }

  // ---------------------------------------------------------------- what the stores hold

  /** A stored message, byte by byte. */
  lemma MessageLayout(m: Message)
    ensures var s := EncodeMessage(m);
      && |s| == 84 + |m.payload| && s[0..32] == m.txHash && FromBE(s[32..36]) == Seconds(m.timestamp)
      && FromBE(s[36..40]) == m.nonce && FromBE(s[40..48]) == m.sequence && s[48] == m.consistencyLevel
      && FromBE(s[49..51]) == m.emitterChain && s[51..83] == m.emitterAddress
      && s[83] == (if m.isReobservation then 1 else 0) && s[84..] == m.payload
  {
    hide BE, FromBE;
    var s := EncodeMessage(m);
    NumbersRead(m.timestamp, m.emitterChain, m.nonce, m.sequence);
    assert s[32..36] == BE(Unix(m.timestamp), 4) && s[36..40] == BE(m.nonce, 4) && s[40..48] == BE(m.sequence, 8);
    assert s[49..51] == BE(m.emitterChain, 2);
  }

  /** A stored pending transfer is its release time and its message. */
  lemma PendingLayout(p: PendingTransfer)
    ensures var s := EncodePending(p);
      |s| >= 4 && FromBE(s[0..4]) == Seconds(p.releaseTime) && s[4..] == EncodeMessage(p.msg)
  {
    hide BE, FromBE, EncodeMessage;
    NumbersRead(p.releaseTime, 0, 0, 0);
    CutAppend(BE(Unix(p.releaseTime), 4), EncodeMessage(p.msg));
    assert EncodePending(p)[0..4] == BE(Unix(p.releaseTime), 4);
  }

  /** A stored transfer, byte by byte; its message id and its hash have i and h bytes. */
  lemma TransferLayout(t: Transfer)
    ensures var s, i, h := EncodeTransfer(t), |t.msgID|, |t.hash|;
      && |s| == 118 + i + h
      && FromBE(s[0..4]) == Seconds(t.timestamp) && FromBE(s[4..12]) == t.value
      && FromBE(s[12..14]) == t.originChain && s[14..46] == t.originAddress
      && FromBE(s[46..48]) == t.emitterChain && s[48..80] == t.emitterAddress
      && FromBE(s[80..82]) == i % 0x1_0000 && s[82..82 + i] == t.msgID
      && FromBE(s[82 + i..84 + i]) == h % 0x1_0000 && s[84 + i..84 + i + h] == t.hash
      && FromBE(s[84 + i + h..86 + i + h]) == t.targetChain && s[86 + i + h..] == t.targetAddress
  {
    hide BE, FromBE;
    var s, i, h := EncodeTransfer(t), |t.msgID|, |t.hash|;
    NumbersRead(t.timestamp, t.originChain, 0, t.value);
    NumbersRead(0, t.emitterChain, 0, 0);
    NumbersRead(0, t.targetChain, 0, 0);
    TwoBytesWrap(i);
    TwoBytesWrap(h);
    var texts := TextField(t.msgID, TextField(t.hash, Target(t)));
    FixedLayout(t, texts);
    TextsLayout(t);
    assert s[82 + i..84 + i] == texts[2 + i..4 + i] && s[84 + i..84 + i + h] == texts[4 + i..4 + i + h];
    assert s[84 + i + h..86 + i + h] == texts[4 + i + h..6 + i + h] && s[86 + i + h..] == texts[6 + i + h..];
    assert s[80..82] == texts[0..2] && s[82..82 + i] == texts[2..2 + i];
  }

  lemma FixedLayout(t: Transfer, rest: seq<byte>)
    ensures var s := FixedFields(t, rest);
      && s[0..4] == BE(Unix(t.timestamp), 4) && s[4..12] == BE(t.value, 8)
      && s[12..14] == BE(t.originChain, 2) && s[14..46] == t.originAddress
      && s[46..48] == BE(t.emitterChain, 2) && s[48..80] == t.emitterAddress && s[80..] == rest
  {
    hide BE;
  }

  lemma TextsLayout(t: Transfer)
    ensures var s, i, h := TextField(t.msgID, TextField(t.hash, Target(t))), |t.msgID|, |t.hash|;
      && |s| == 38 + i + h
      && s[0..2] == BE(i, 2) && s[2..2 + i] == t.msgID && s[2 + i..4 + i] == BE(h, 2)
      && s[4 + i..4 + i + h] == t.hash && s[4 + i + h..6 + i + h] == BE(t.targetChain, 2)
      && s[6 + i + h..] == t.targetAddress
  {
    hide BE;
  }

  // ---------------------------------------------------------------- what is read back

  /** The fields that both formats of a message share, as they are read. */
  ghost predicate HeadRead(m: Message, data: seq<byte>)
    requires |data| >= 83
  {
    && m.txHash == data[0..32] && m.timestamp == FromBE(data[32..36]) * 1_000_000_000
    && m.nonce == FromBE(data[36..40]) && m.sequence == FromBE(data[40..48]) && m.consistencyLevel == data[48]
    && m.emitterChain == FromBE(data[49..51]) && m.emitterAddress == data[51..83] && !m.unreliable
  }

  lemma HeadReads(data: seq<byte>)
    requires |data| >= 83
    ensures HeadRead(ReadHead(data), data)
    ensures ReadHead(data).payload == data[83..] && !ReadHead(data).isReobservation
  {
    hide FromBE;
    var r := data[32..];
    assert r[..4] == data[32..36] && r[4..][..4] == data[36..40] && r[4..][4..][..8] == data[40..48];
    var r4 := r[4..][4..][8..];
    assert r4 == data[48..] && r4[1..] == data[49..];
    assert data[49..][..2] == data[49..51] && data[49..][2..] == data[51..] && data[51..][..32] == data[51..83];
  }

  /** A stored message is read from 88 bytes on, in the old format, which has no flag, from 84 on. */
  lemma MessageReads(data: seq<byte>)
    ensures DecodeMessage(data).Some? <==> |data| >= 88
    ensures DecodeMessage(data).Some? ==>
      && HeadRead(DecodeMessage(data).value, data)
      && DecodeMessage(data).value.isReobservation == (data[83] != 0) && DecodeMessage(data).value.payload == data[84..]
    ensures DecodeOldMessage(data).Some? <==> |data| >= 84
    ensures DecodeOldMessage(data).Some? ==>
      && HeadRead(DecodeOldMessage(data).value, data)
      && !DecodeOldMessage(data).value.isReobservation && DecodeOldMessage(data).value.payload == data[83..]
  {
    hide FromBE, ReadHead;
    if |data| >= 83 {
      HeadReads(data);
    }
  }

  /** A stored pending transfer is its release time in seconds and a message of the same format. */
  lemma PendingReads(data: seq<byte>, isOld: bool, p: PendingTransfer)
    ensures DecodePending(data, isOld) == Some(p) <==>
      && |data| > 4 && p.releaseTime == FromBE(data[0..4]) * 1_000_000_000
      && (if isOld then DecodeOldMessage(data[4..]) else DecodeMessage(data[4..])) == Some(p.msg)
  {
    hide FromBE, DecodeMessage, DecodeOldMessage;
    assert |data| > 4 ==> data[..4] == data[0..4];
  }

  /** The fields before the texts of a transfer, as they are read. */
  ghost predicate FixedRead(t: Transfer, data: seq<byte>)
    requires |data| >= 80
  {
    && t.timestamp == FromBE(data[0..4]) * 1_000_000_000 && t.value == FromBE(data[4..12])
    && t.originChain == FromBE(data[12..14]) && t.originAddress == data[14..46]
    && t.emitterChain == FromBE(data[46..48]) && t.emitterAddress == data[48..80]
  }

  lemma FixedReads(data: seq<byte>)
    requires |data| >= 80
    ensures FixedRead(ReadFixed(data).0, data) && ReadFixed(data).1 == data[80..]
    ensures ReadFixed(data).0.targetChain == 0 && ReadFixed(data).0.targetAddress == Zeros(32)
  {
    hide FromBE;
    assert data[..4] == data[0..4] && data[4..][..8] == data[4..12] && data[4..][8..] == data[12..];
    assert data[12..][..2] == data[12..14] && data[12..][2..] == data[14..] && data[14..][..32] == data[14..46];
    assert data[14..][32..] == data[46..] && data[46..][..2] == data[46..48] && data[46..][2..] == data[48..];
    assert data[48..][..32] == data[48..80] && data[48..][32..] == data[80..];
  }

  /** Behind byte n of data stand a length and that many bytes, all of them. */
  ghost predicate FullText(data: seq<byte>, n: nat, t: Text) {
    n + 2 + |t| <= |data| && FromBE(data[n..n + 2]) == |t| && data[n + 2..n + 2 + |t|] == t
  }

  lemma FullTextReads(data: seq<byte>, n: nat, t: Text, rest: seq<byte>)
    requires n <= |data|
    ensures ReadText(data[n..]) == Some((t, rest)) <==> FullText(data, n, t) && rest == data[n + 2 + |t|..]
  {
    hide FromBE;
    if n + 2 <= |data| {
      var s := data[n..];
      assert s[..2] == data[n..n + 2] && s[2..] == data[n + 2..];
      var k := FromBE(s[..2]);
      if n + 2 + k <= |data| {
        assert s[2..][..k] == data[n + 2..n + 2 + k] && s[2..][k..] == data[n + 2 + k..];
      }
    }
  }

  /** A stored transfer is read exactly if both texts and the target are there in full. */
  lemma TransferReads(data: seq<byte>, t: Transfer)
    ensures DecodeTransfer(data) == Some(t) <==>
      && |data| >= 80 && FixedRead(t, data)
      && FullText(data, 80, t.msgID) && FullText(data, 82 + |t.msgID|, t.hash)
      && var n := 84 + |t.msgID| + |t.hash|;
      |data| >= n + 34 && t.targetChain == FromBE(data[n..n + 2]) && t.targetAddress == data[n + 2..n + 34]
  {
    hide FromBE, ReadFixed, ReadText, FullText;
    if |data| >= 80 {
      FixedReads(data);
      var (u, r) := ReadFixed(data);
      if FullText(data, 80, t.msgID) {
        FullTextFits(data, 80, t.msgID);
        FullTextReads(data, 80, t.msgID, data[82 + |t.msgID|..]);
        TargetReads(data, t, u);
      } else {
        NoFullText(data, 80, t.msgID);
      }
    }
  }

  lemma FullTextFits(data: seq<byte>, n: nat, t: Text)
    requires FullText(data, n, t)
    ensures n + 2 + |t| <= |data|
  {
  }

  lemma NoFullText(data: seq<byte>, n: nat, t: Text)
    requires n <= |data| && !FullText(data, n, t)
    ensures ReadText(data[n..]).Some? ==> ReadText(data[n..]).value.0 != t
  {
    hide FullText, ReadText;
    if ReadText(data[n..]).Some? && ReadText(data[n..]).value.0 == t {
      FullTextReads(data, n, t, ReadText(data[n..]).value.1);
    }
  }

  lemma TargetReads(data: seq<byte>, t: Transfer, u: Transfer)
    requires 82 + |t.msgID| <= |data|
    ensures var n := 82 + |t.msgID|;
      (match ReadText(data[n..])
       case None => false
       case Some((hash, r2)) => ReadTarget(u.(msgID := t.msgID, hash := hash), r2) == Some(t)) <==>
      && FullText(data, n, t.hash)
      && var k := n + 2 + |t.hash|;
      && |data| >= k + 34
      && t == u.(msgID := t.msgID, hash := t.hash, targetChain := t.targetChain, targetAddress := t.targetAddress)
      && t.targetChain == FromBE(data[k..k + 2]) && t.targetAddress == data[k + 2..k + 34]
  {
    hide FromBE, ReadText, FullText;
    var n := 82 + |t.msgID|;
    if FullText(data, n, t.hash) {
      FullTextFits(data, n, t.hash);
      var k := n + 2 + |t.hash|;
      FullTextReads(data, n, t.hash, data[k..]);
      if |data| >= k + 34 {
        assert data[k..][..2] == data[k..k + 2] && data[k..][2..][..32] == data[k + 2..k + 34];
      }
    } else {
      NoFullText(data, n, t.hash);
    }
  }

  /** Behind byte n of data stand a length and that many bytes or, if there are fewer, those that are
      left, but not none. */
  ghost predicate CutText(data: seq<byte>, n: nat, t: Text) {
    && n + 2 + |t| <= |data|
    && var k, left := FromBE(data[n..n + 2]), |data| - n - 2;
    && |t| == (if k <= left then k else left) && (k == 0 || left > 0)
    && data[n + 2..n + 2 + |t|] == t
  }

  lemma CutTextReads(data: seq<byte>, n: nat, t: Text, rest: seq<byte>)
    requires n <= |data|
    ensures ReadOldText(data[n..]) == Some((t, rest)) <==> CutText(data, n, t) && rest == data[n + 2 + |t|..]
  {
    hide FromBE;
    if n + 2 <= |data| {
      var s := data[n..];
      assert s[..2] == data[n..n + 2] && s[2..] == data[n + 2..];
      var k := FromBE(s[..2]);
      var l := if k <= |s| - 2 then k else |s| - 2;
      assert s[2..][..l] == data[n + 2..n + 2 + l] && s[2..][l..] == data[n + 2 + l..];
    }
  }

  /** A transfer of the old format is read exactly if there is a length for each text and something of
      each text that is not empty; it has no target. */
  lemma OldTransferReads(data: seq<byte>, t: Transfer)
    ensures DecodeOldTransfer(data) == Some(t) <==>
      && |data| >= 80 && FixedRead(t, data) && t.targetChain == 0 && t.targetAddress == Zeros(32)
      && CutText(data, 80, t.msgID) && CutText(data, 82 + |t.msgID|, t.hash)
  {
    hide FromBE, ReadFixed, ReadOldText, CutText;
    if |data| >= 80 {
      FixedReads(data);
      var (u, r) := ReadFixed(data);
      if CutText(data, 80, t.msgID) {
        var n := 82 + |t.msgID|;
        CutTextFits(data, 80, t.msgID);
        CutTextReads(data, 80, t.msgID, data[n..]);
        if CutText(data, n, t.hash) {
          CutTextFits(data, n, t.hash);
          CutTextReads(data, n, t.hash, data[n + 2 + |t.hash|..]);
        } else {
          NoCutText(data, n, t.hash);
        }
      } else {
        NoCutText(data, 80, t.msgID);
      }
    }
  }

  lemma CutTextFits(data: seq<byte>, n: nat, t: Text)
    requires CutText(data, n, t)
    ensures n + 2 + |t| <= |data|
  {
    hide FromBE;
  }

  lemma NoCutText(data: seq<byte>, n: nat, t: Text)
    requires n <= |data| && !CutText(data, n, t)
    ensures ReadOldText(data[n..]).Some? ==> ReadOldText(data[n..]).value.0 != t
  {
    hide CutText, ReadOldText;
    if ReadOldText(data[n..]).Some? && ReadOldText(data[n..]).value.0 == t {
      CutTextReads(data, n, t, ReadOldText(data[n..]).value.1);
    }
  }
}
