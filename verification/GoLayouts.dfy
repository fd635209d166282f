/** The governance bodies of sdk/vaa/payloads.go byte by byte, for any module name. */
module GoLayouts {
  import opened Binary
  import opened Vaa
  import opened Keys
  import opened JsPayload
  import opened PayloadLayouts
  import opened GoPayload

  const CORE := [0x43, 0x6f, 0x72, 0x65]

  /** The name is padded with zeros in front and followed by the action. */
  ghost predicate NamedBy(s: seq<byte>, name: Text, action: byte) {
    |name| <= 32 && |s| >= 33 && s[..32] == Zeros(32 - |name|) + name && s[32] == action
  }

  ghost predicate GoLaidOut(body: Body, s: seq<byte>) {
    match body
    case CoreUpgrade(chain, contract) =>
      Governs(s, Core, 1) && |s| == 67 && FromBE(s[33..35]) == chain && s[35..67] == contract
    case GuardianSetUpdate(keys, newIndex) =>
      && Governs(s, Core, 2) && |s| == 40 + 20 * |keys|
      && FromBE(s[33..35]) == 0 && FromBE(s[35..39]) == newIndex && s[39] == |keys| % 256
      && forall k | 0 <= k < |keys| :: s[40 + 20 * k..60 + 20 * k] == keys[k]
    case BridgeRegister(moduleName, emitterChain, emitterAddress) =>
      && NamedBy(s, moduleName, 1) && |s| == 69
      && FromBE(s[33..35]) == 0 && FromBE(s[35..37]) == emitterChain && s[37..69] == emitterAddress
    case BridgeUpgrade(moduleName, target, contract) =>
      NamedBy(s, moduleName, 2) && |s| == 67 && FromBE(s[33..35]) == target && s[35..67] == contract
    case Recover(moduleName, evmChainId, newChainId) =>
      && NamedBy(s, moduleName, if moduleName == CORE then 5 else 3) && |s| == 67
      && FromBE(s[33..65]) == evmChainId && FromBE(s[65..67]) == newChainId
    case SetDefaultProvider(chain, provider) =>
      Governs(s, WormholeRelayer, 3) && |s| == 67 && FromBE(s[33..35]) == chain && s[35..67] == provider
  }

  /** The name of a body fits into its field. */
  ghost predicate NameFits(body: Body) {
    match body
    case BridgeRegister(moduleName, _, _) => |moduleName| <= 32
    case BridgeUpgrade(moduleName, _, _) => |moduleName| <= 32
    case Recover(moduleName, _, _) => |moduleName| <= 32
    case _ => true
  }

  lemma TagNames(m: Module, action: byte, rest: seq<byte>)
    ensures var s := Tag(m) + [action] + rest; Governs(s, m, action) && s[33..] == rest
  {
    HeaderGoverns(m, action, rest);
  }

  lemma PaddedNames(name: Text, action: byte, rest: seq<byte>)
    requires |name| <= 32
    ensures var s := LeftPad(name) + [action] + rest; NamedBy(s, name, action) && s[33..] == rest
  {
    var s := LeftPad(name) + [action] + rest;
    assert s[..32] == LeftPad(name);
  }

  lemma RestReads(s: seq<byte>, chain: uint16, rest: seq<byte>)
    requires |s| >= 33 && s[33..] == BE(chain, 2) + rest
    ensures |s| == 35 + |rest| && FromBE(s[33..35]) == chain && s[35..] == rest
  {
    hide BE, FromBE;
    Read16(chain);
    assert s[33..35] == s[33..][..2] && s[35..] == s[33..][2..];
  }

  lemma GuardianSetReads(keys: seq<EthAddress>, newIndex: uint32)
    ensures GoLaidOut(GuardianSetUpdate(keys, newIndex), Bytes(GuardianSetUpdate(keys, newIndex)).value)
  {
    hide BE, FromBE, Tag, PaddedName, Concat;
    var rest := BE(newIndex, 4) + ([|keys| % 256] + Concat(keys));
    var s := Bytes(GuardianSetUpdate(keys, newIndex)).value;
    TagNames(Core, 2, BE(0, 2) + rest);
    RestReads(s, 0, rest);
    Widths();
    FromBEOfBE(newIndex, 4);
    assert s[35..39] == rest[..4] == BE(newIndex, 4) && s[39] == rest[4] && s[40..] == rest[5..] == Concat(keys);
    forall k | 0 <= k < |keys|
      ensures s[40 + 20 * k..60 + 20 * k] == keys[k]
    {
      KeyAt(keys, k);
      assert s[40 + 20 * k..60 + 20 * k] == s[40..][20 * k..20 * k + 20];
    }
  }

  lemma RecoverReads(moduleName: Text, evmChainId: uint256, newChainId: uint16)
    requires |moduleName| <= 32
    ensures GoLaidOut(Recover(moduleName, evmChainId, newChainId),
      Bytes(Recover(moduleName, evmChainId, newChainId)).value)
  {
    hide BE, FromBE;
    NameSpelt(Core);
    var s := Bytes(Recover(moduleName, evmChainId, newChainId)).value;
    PaddedNames(moduleName, if moduleName == Name(Core) then 5 else 3, BE(evmChainId, 32) + BE(newChainId, 2));
    FromBEOfBE(evmChainId, 32);
    Read16(newChainId);
    assert s[33..65] == s[33..][..32] == BE(evmChainId, 32) && s[65..67] == s[33..][32..] == BE(newChainId, 2);
  }

  /** A body is serialised exactly if its name fits, and then as it is laid out; the others panic. */
  lemma SerialisedAsLaidOut(body: Body)
    ensures Bytes(body).Some? <==> NameFits(body)
    ensures Bytes(body).Some? ==> GoLaidOut(body, Bytes(body).value)
  {
    hide BE, FromBE, Tag, LeftPad, PaddedName;
    match body
    case CoreUpgrade(chain, contract) =>
      TagNames(Core, 1, BE(chain, 2) + contract);
      RestReads(Bytes(body).value, chain, contract);
    case GuardianSetUpdate(keys, newIndex) => GuardianSetReads(keys, newIndex);
    case BridgeRegister(moduleName, emitterChain, emitterAddress) =>
      if |moduleName| <= 32 {
        var s := Bytes(body).value;
        PaddedNames(moduleName, 1, BE(0, 2) + (BE(emitterChain, 2) + emitterAddress));
        RestReads(s, 0, BE(emitterChain, 2) + emitterAddress);
        Read16(emitterChain);
        assert s[35..37] == s[35..][..2] == BE(emitterChain, 2) && s[37..69] == s[35..][2..];
      }
    case BridgeUpgrade(moduleName, target, contract) =>
      if |moduleName| <= 32 {
        PaddedNames(moduleName, 2, BE(target, 2) + contract);
        RestReads(Bytes(body).value, target, contract);
      }
    case Recover(moduleName, evmChainId, newChainId) =>
      if |moduleName| <= 32 {
        RecoverReads(moduleName, evmChainId, newChainId);
      }
    case SetDefaultProvider(chain, provider) =>
      TagPads(WormholeRelayer);
      TagNames(WormholeRelayer, 3, BE(chain, 2) + provider);
      RestReads(Bytes(body).value, chain, provider);
  }
}
