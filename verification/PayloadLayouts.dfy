/** The payloads of clients/js/src/vaa.ts byte by byte, with the module names spelt out: what the
    serialisers write, and so what parse reads. */
module PayloadLayouts {
  import opened Binary
  import opened Vaa
  import opened JsPayload
  import Utf8

  /** "Core", "TokenBridge", "NFTBridge" and "WormholeRelayer", padded to 32 bytes. */
  function PaddedName(m: Module): (s: seq<byte>)
    ensures |s| == 32
  {
    match m
    case Core => Zeros(28) + [0x43, 0x6f, 0x72, 0x65]
    case TokenBridge => Zeros(21) + [0x54, 0x6f, 0x6b, 0x65, 0x6e, 0x42, 0x72, 0x69, 0x64, 0x67, 0x65]
    case NFTBridge => Zeros(23) + [0x4e, 0x46, 0x54, 0x42, 0x72, 0x69, 0x64, 0x67, 0x65]
    case WormholeRelayer => Zeros(17) + [0x57, 0x6f, 0x72, 0x6d, 0x68, 0x6f, 0x6c, 0x65, 0x52, 0x65, 0x6c, 0x61, 0x79,
      0x65, 0x72]
  }

  predicate Governs(s: seq<byte>, m: Module, action: byte) { |s| >= 33 && s[..32] == PaddedName(m) && s[32] == action }

  /** A text in UTF-8, filled up with zeros to 32 bytes. */
  predicate TextIn(s: seq<byte>, t: Utf8.JsString) {
    FitsField(t) && s == Utf8.Encode(t) + Zeros(32 - |Utf8.Encode(t)|)
  }

  /** The bytes of payload p, by the places of its fields. */
  ghost predicate LaidOut(p: Payload, s: seq<byte>) {
    match p
    case GuardianSetUpgrade(chain, newIndex, keys) =>
      && Governs(s, Core, 2) && |s| == 40 + 20 * |keys|
      && FromBE(s[33..35]) == chain && FromBE(s[35..39]) == newIndex && s[39] == |keys|
      && forall k | 0 <= k < |keys| :: s[40 + 20 * k..60 + 20 * k] == keys[k]
    case ContractUpgrade(m, chain, address) =>
      && Governs(s, m, if m == Core then 1 else 2) && |s| == 67
      && FromBE(s[33..35]) == chain && s[35..67] == address
    case RegisterChain(m, chain, emitterChain, emitterAddress) =>
      && Governs(s, m, 1) && |s| == 69
      && FromBE(s[33..35]) == chain && FromBE(s[35..37]) == emitterChain && s[37..69] == emitterAddress
    case RecoverChainId(m, evmChainId, newChainId) =>
      && Governs(s, m, if m == Core then 5 else 3) && |s| == 67
      && FromBE(s[33..65]) == evmChainId && FromBE(s[65..67]) == newChainId
    case SetDefaultDeliveryProvider(chain, provider) =>
      && Governs(s, WormholeRelayer, 3) && |s| == 67
      && FromBE(s[33..35]) == chain && s[35..67] == provider
    case TokenTransfer(amount, tokenAddress, tokenChain, toAddress, chain, fee) =>
      && |s| == 133 && s[0] == 1
      && FromBE(s[1..33]) == amount && s[33..65] == tokenAddress && FromBE(s[65..67]) == tokenChain
      && s[67..99] == toAddress && FromBE(s[99..101]) == chain && FromBE(s[101..133]) == fee
    case TransferWithPayload(amount, tokenAddress, tokenChain, toAddress, chain, fromAddress, payload) =>
      && |s| == 133 + |payload| && s[0] == 3
      && FromBE(s[1..33]) == amount && s[33..65] == tokenAddress && FromBE(s[65..67]) == tokenChain
      && s[67..99] == toAddress && FromBE(s[99..101]) == chain && s[101..133] == fromAddress && s[133..] == payload
    case AttestMeta(tokenAddress, tokenChain, decimals, symbol, name) =>
      && |s| == 100 && s[0] == 2
      && s[1..33] == tokenAddress && FromBE(s[33..35]) == tokenChain && s[35] == decimals
      && TextIn(s[36..68], symbol) && TextIn(s[68..100], name)
    case NFTTransfer(tokenAddress, tokenChain, symbol, name, tokenId, uri, toAddress, chain) =>
      var n := 132 + |Utf8.Encode(uri)|;
      && |s| == n + 34 && s[0] == 1
      && s[1..33] == tokenAddress && FromBE(s[33..35]) == tokenChain && TextIn(s[35..67], symbol)
      && TextIn(s[67..99], name) && FromBE(s[99..131]) == tokenId
      && s[131] == Utf8.Units(uri) && s[132..n] == Utf8.Encode(uri)
      && s[n..n + 32] == toAddress && FromBE(s[n + 32..n + 34]) == chain
  }

  lemma TagIsPadded(m: Module)
    ensures Tag(m) == PaddedName(m)
  {
    var n := Name(m);
    assert forall i | 0 <= i < 32 - |n| :: Tag(m)[i] == 0;
    assert forall i | 0 <= i < |n| :: Tag(m)[32 - |n| + i] == n[i];
    NameSpelt(m);
  }

  lemma NameSpelt(m: Module)
    ensures Name(m) == match m
      case Core => [0x43, 0x6f, 0x72, 0x65]
      case TokenBridge => [0x54, 0x6f, 0x6b, 0x65, 0x6e, 0x42, 0x72, 0x69, 0x64, 0x67, 0x65]
      case NFTBridge => [0x4e, 0x46, 0x54, 0x42, 0x72, 0x69, 0x64, 0x67, 0x65]
      case WormholeRelayer =>
        [0x57, 0x6f, 0x72, 0x6d, 0x68, 0x6f, 0x6c, 0x65, 0x52, 0x65, 0x6c, 0x61, 0x79, 0x65, 0x72]
  {
  }

  // ---------------------------------------------------------------- written as laid out

  lemma HeaderGoverns(m: Module, action: byte, rest: seq<byte>)
    ensures Governs(Header(m, action) + rest, m, action) && (Header(m, action) + rest)[33..] == rest
  {
    hide Tag, PaddedName;
    TagIsPadded(m);
    var s := Header(m, action) + rest;
    assert s[..32] == Tag(m);
  }

  lemma Read16(n: uint16)
    ensures FromBE(BE(n, 2)) == n
  {
    Widths();
    FromBEOfBE(n, 2);
  }

  lemma {:induction false} KeyAt(keys: seq<EthAddress>, k: nat)
    requires k < |keys|
    ensures Concat(keys)[20 * k..20 * k + 20] == keys[k]
  {
    if k > 0 {
      var rest := Concat(keys[1..]);
      KeyAt(keys[1..], k - 1);
      assert Concat(keys)[20 * k..20 * k + 20] == rest[20 * (k - 1)..20 * (k - 1) + 20];
    }
  }

  lemma GuardianSetWritten(p: Payload)
    requires WellFormed(p) && p.GuardianSetUpgrade?
    ensures LaidOut(p, Serialise(p))
  {
    hide BE, FromBE, PaddedName, Header, Concat;
    Widths();
    Read16(p.chain);
    FromBEOfBE(p.newIndex, 4);
    var keys := Concat(p.keys);
    var rest := BE(p.chain, 2) + (BE(p.newIndex, 4) + ([|p.keys|] + keys));
    HeaderGoverns(Core, 2, rest);
    var s := Serialise(p);
    assert s[33..35] == rest[..2] == BE(p.chain, 2) && s[35..39] == rest[2..6] == BE(p.newIndex, 4);
    assert s[39] == rest[6] && s[40..] == rest[7..] == keys;
    forall k | 0 <= k < |p.keys|
      ensures s[40 + 20 * k..60 + 20 * k] == p.keys[k]
    {
      KeyAt(p.keys, k);
      assert s[40 + 20 * k..60 + 20 * k] == keys[20 * k..20 * k + 20];
    }
  }

  lemma GovernanceWritten(p: Payload)
    requires WellFormed(p)
    requires p.ContractUpgrade? || p.RegisterChain? || p.RecoverChainId? || p.SetDefaultDeliveryProvider?
    ensures LaidOut(p, Serialise(p))
  {
    hide BE, FromBE, PaddedName, Header;
    var s := Serialise(p);
    match p
    case ContractUpgrade(m, chain, address) =>
      Read16(chain);
      HeaderGoverns(m, UpgradeAction(m), BE(chain, 2) + address);
      assert s[33..35] == s[33..][..2] == BE(chain, 2) && s[35..67] == s[33..][2..];
    case RegisterChain(m, chain, emitterChain, emitterAddress) =>
      Read16(chain);
      Read16(emitterChain);
      HeaderGoverns(m, 1, BE(chain, 2) + (BE(emitterChain, 2) + emitterAddress));
      assert s[33..35] == s[33..][..2] == BE(chain, 2) && s[35..37] == s[33..][2..4] == BE(emitterChain, 2);
      assert s[37..69] == s[33..][4..];
    case RecoverChainId(m, evmChainId, newChainId) =>
      FromBEOfBE(evmChainId, 32);
      Read16(newChainId);
      HeaderGoverns(m, RecoverAction(m), BE(evmChainId, 32) + BE(newChainId, 2));
      assert s[33..65] == s[33..][..32] == BE(evmChainId, 32) && s[65..67] == s[33..][32..] == BE(newChainId, 2);
    case SetDefaultDeliveryProvider(chain, provider) =>
      Read16(chain);
      HeaderGoverns(WormholeRelayer, 3, BE(chain, 2) + provider);
      assert s[33..35] == s[33..][..2] == BE(chain, 2) && s[35..67] == s[33..][2..];
  }

  lemma TransferWritten(p: Payload)
    requires p.TokenTransfer? || p.TransferWithPayload?
    ensures LaidOut(p, Serialise(p))
  {
    hide BE, FromBE;
    var s := Serialise(p);
    FromBEOfBE(p.amount, 32);
    Read16(p.tokenChain);
    Read16(p.chain);
    assert s[1..33] == BE(p.amount, 32) && s[65..67] == BE(p.tokenChain, 2) && s[99..101] == BE(p.chain, 2);
    if p.TokenTransfer? {
      FromBEOfBE(p.fee, 32);
      assert s[101..133] == BE(p.fee, 32);
    }
  }

  lemma AttestMetaWritten(p: Payload)
    requires WellFormed(p) && p.AttestMeta?
    ensures LaidOut(p, Serialise(p))
  {
    hide BE, FromBE;
    var s := Serialise(p);
    Read16(p.tokenChain);
    assert s[33..35] == BE(p.tokenChain, 2);
    assert s[36..68] == TextField(p.symbol) && s[68..100] == TextField(p.name);
  }

  lemma NFTTransferWritten(p: Payload)
    requires WellFormed(p) && p.NFTTransfer?
    ensures LaidOut(p, Serialise(p))
  {
    hide BE, FromBE, TextField, Utf8.Encode, Utf8.Units;
    var s, uri := Serialise(p), Utf8.Encode(p.uri);
    var n := 132 + |uri|;
    Read16(p.tokenChain);
    Read16(p.chain);
    FromBEOfBE(p.tokenId, 32);
    TextWritten(p.symbol);
    TextWritten(p.name);
    var front := [1] + p.tokenAddress + BE(p.tokenChain, 2) + TextField(p.symbol) + TextField(p.name) +
      BE(p.tokenId, 32) + [Utf8.Units(p.uri)];
    var back := uri + (p.toAddress + BE(p.chain, 2));
    assert s == front + back;
    assert front[1..33] == p.tokenAddress && front[33..35] == BE(p.tokenChain, 2);
    assert front[99..131] == BE(p.tokenId, 32);
    assert front[35..67] == TextField(p.symbol) && front[67..99] == TextField(p.name);
    hide Serialise;
    assert s[132..n] == uri && s[n..n + 32] == p.toAddress && s[n + 32..n + 34] == BE(p.chain, 2);
    FrontAt(front, back, 1, 33);
    FrontAt(front, back, 33, 35);
    FrontAt(front, back, 35, 67);
    FrontAt(front, back, 67, 99);
    FrontAt(front, back, 99, 131);
  }

  lemma FrontAt(front: seq<byte>, back: seq<byte>, i: nat, j: nat)
    requires i <= j <= |front|
    ensures (front + back)[i..j] == front[i..j]
  {
  }

  lemma TextWritten(t: Utf8.JsString)
    requires FitsField(t)
    ensures TextIn(TextField(t), t)
  {
  }

  // ---------------------------------------------------------------- and in no other way

  lemma SameNumber(a: seq<byte>, b: seq<byte>)
    requires |a| == |b| && FromBE(a) == FromBE(b)
    ensures a == b
  {
    BEOfFromBE(a);
    BEOfFromBE(b);
  }

  lemma SamePieces(s: seq<byte>, t: seq<byte>, i: nat, j: nat)
    requires i <= j <= |s| == |t| && s[..i] == t[..i] && FromBE(s[i..j]) == FromBE(t[i..j])
    ensures s[..j] == t[..j]
  {
    SameNumber(s[i..j], t[i..j]);
    assert s[..j] == s[..i] + s[i..j] && t[..j] == t[..i] + t[i..j];
  }

  lemma SameParts(s: seq<byte>, t: seq<byte>, i: nat, j: nat)
    requires i <= j <= |s| == |t| && s[..i] == t[..i] && s[i..j] == t[i..j]
    ensures s[..j] == t[..j]
  {
    assert s[..j] == s[..i] + s[i..j] && t[..j] == t[..i] + t[i..j];
  }

  lemma SameHeader(s: seq<byte>, t: seq<byte>, m: Module, action: byte)
    requires Governs(s, m, action) && Governs(t, m, action)
    ensures s[..33] == t[..33]
  {
    hide PaddedName;
    assert s[..33] == s[..32] + [s[32]] && t[..33] == t[..32] + [t[32]];
  }

  lemma {:induction false} SameKeys(keys: seq<EthAddress>, s: seq<byte>, t: seq<byte>, n: nat)
    requires n <= |keys| && |s| == |t| == 40 + 20 * |keys| && s[..40] == t[..40]
    requires forall k | 0 <= k < n :: s[40 + 20 * k..60 + 20 * k] == t[40 + 20 * k..60 + 20 * k]
    ensures s[..40 + 20 * n] == t[..40 + 20 * n]
  {
    if n > 0 {
      SameKeys(keys, s, t, n - 1);
      var k := n - 1;
      assert s[40 + 20 * k..60 + 20 * k] == t[40 + 20 * k..60 + 20 * k];
      SameParts(s, t, 40 + 20 * k, 60 + 20 * k);
    }
  }

  lemma OneGovernance(p: Payload, s: seq<byte>, t: seq<byte>)
    requires LaidOut(p, s) && LaidOut(p, t)
    requires p.ContractUpgrade? || p.RegisterChain? || p.RecoverChainId? || p.SetDefaultDeliveryProvider?
    ensures s == t
  {
    hide FromBE, PaddedName, Governs;
    match p
    case ContractUpgrade(m, chain, address) =>
      SameHeader(s, t, m, if m == Core then 1 else 2);
      SamePieces(s, t, 33, 35);
      SameParts(s, t, 35, 67);
    case RegisterChain(m, chain, emitterChain, emitterAddress) =>
      SameHeader(s, t, m, 1);
      SamePieces(s, t, 33, 35);
      SamePieces(s, t, 35, 37);
      SameParts(s, t, 37, 69);
    case RecoverChainId(m, evmChainId, newChainId) =>
      SameHeader(s, t, m, if m == Core then 5 else 3);
      SamePieces(s, t, 33, 65);
      SamePieces(s, t, 65, 67);
    case SetDefaultDeliveryProvider(chain, provider) =>
      SameHeader(s, t, WormholeRelayer, 3);
      SamePieces(s, t, 33, 35);
      SameParts(s, t, 35, 67);
  }

  lemma OneGuardianSet(p: Payload, s: seq<byte>, t: seq<byte>)
    requires LaidOut(p, s) && LaidOut(p, t) && p.GuardianSetUpgrade?
    ensures s == t
  {
    hide FromBE, PaddedName, Governs;
    SameHeader(s, t, Core, 2);
    SamePieces(s, t, 33, 35);
    SamePieces(s, t, 35, 39);
    SameByte(s, t, 39);
    forall k | 0 <= k < |p.keys|
      ensures s[40 + 20 * k..60 + 20 * k] == t[40 + 20 * k..60 + 20 * k]
    {
      assert s[40 + 20 * k..60 + 20 * k] == p.keys[k];
    }
    SameKeys(p.keys, s, t, |p.keys|);
  }

  lemma OneAttestMeta(p: Payload, s: seq<byte>, t: seq<byte>)
    requires LaidOut(p, s) && LaidOut(p, t) && p.AttestMeta?
    ensures s == t
  {
    hide FromBE, Utf8.Encode;
    SameByte(s, t, 0);
    SameParts(s, t, 1, 33);
    SamePieces(s, t, 33, 35);
    SameByte(s, t, 35);
    SameParts(s, t, 36, 68);
    SameParts(s, t, 68, 100);
  }

  lemma OneNFTTransfer(p: Payload, s: seq<byte>, t: seq<byte>)
    requires LaidOut(p, s) && LaidOut(p, t) && p.NFTTransfer?
    ensures s == t
  {
    hide FromBE, Utf8.Encode, Utf8.Units;
    var n := 132 + |Utf8.Encode(p.uri)|;
    SameByte(s, t, 0);
    SameParts(s, t, 1, 33);
    SamePieces(s, t, 33, 35);
    SameParts(s, t, 35, 67);
    SameParts(s, t, 67, 99);
    SamePieces(s, t, 99, 131);
    SameByte(s, t, 131);
    SameParts(s, t, 132, n);
    SameParts(s, t, n, n + 32);
    SamePieces(s, t, n + 32, n + 34);
  }

  lemma SameByte(s: seq<byte>, t: seq<byte>, i: nat)
    requires i < |s| == |t| && s[..i] == t[..i] && s[i] == t[i]
    ensures s[..i + 1] == t[..i + 1]
  {
  }

  lemma OneLayout(p: Payload, s: seq<byte>, t: seq<byte>)
    requires LaidOut(p, s) && LaidOut(p, t)
    ensures s == t
  {
    match p
    case GuardianSetUpgrade(_, _, _) => OneGuardianSet(p, s, t);
    case TokenTransfer(_, _, _, _, _, _) =>
      SameTransfer(s, t);
      SamePieces(s, t, 101, 133);
    case TransferWithPayload(_, _, _, _, _, _, payload) =>
      SameTransfer(s, t);
      SameParts(s, t, 101, 133);
      SameParts(s, t, 133, |s|);
    case AttestMeta(_, _, _, _, _) => OneAttestMeta(p, s, t);
    case NFTTransfer(_, _, _, _, _, _, _, _) => OneNFTTransfer(p, s, t);
    case _ => OneGovernance(p, s, t);
  }

  lemma SameTransfer(s: seq<byte>, t: seq<byte>)
    requires |s| == |t| >= 101 && s[0] == t[0] && FromBE(s[1..33]) == FromBE(t[1..33]) && s[33..65] == t[33..65]
    requires FromBE(s[65..67]) == FromBE(t[65..67]) && s[67..99] == t[67..99]
    requires FromBE(s[99..101]) == FromBE(t[99..101])
    ensures s[..101] == t[..101]
  {
    hide FromBE;
    SameByte(s, t, 0);
    SamePieces(s, t, 1, 33);
    SameParts(s, t, 33, 65);
    SamePieces(s, t, 65, 67);
    SameParts(s, t, 67, 99);
    SamePieces(s, t, 99, 101);
  }

  /** A payload is written exactly as it is laid out, and bytes that are laid out as a payload are
      read as that payload, with its texts padded to their fields, unless a URI is not ASCII. */
  lemma WrittenAsLaidOut(p: Payload, s: seq<byte>)
    requires WellFormed(p)
    ensures s == Serialise(p) <==> LaidOut(p, s)
    ensures LaidOut(p, s) ==> Parse(s) == if AsciiUri(p) then Matched(Canonical(p)) else NoMatch
  {
    assert LaidOut(p, Serialise(p)) by {
      match p
      case GuardianSetUpgrade(_, _, _) => GuardianSetWritten(p);
      case TokenTransfer(_, _, _, _, _, _) => TransferWritten(p);
      case TransferWithPayload(_, _, _, _, _, _, _) => TransferWritten(p);
      case AttestMeta(_, _, _, _, _) => AttestMetaWritten(p);
      case NFTTransfer(_, _, _, _, _, _, _, _) => NFTTransferWritten(p);
      case _ => GovernanceWritten(p);
    }
    hide LaidOut, Serialise, Parse;
    ParseOfSerialise(p);
    if LaidOut(p, s) {
      OneLayout(p, s, Serialise(p));
    }
  }
}
