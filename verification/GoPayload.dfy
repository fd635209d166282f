/** The governance bodies of sdk/vaa/payloads.go, and what clients/js/src/vaa.ts makes of them. */
module GoPayload {
  import opened Binary
  import opened Vaa
  import opened Keys
  import opened JsPayload

  /** A module name is any Go string, so the bodies carry text and not one of four names. */
  datatype Body =
    | CoreUpgrade(chain: uint16, contract: Address)
    | GuardianSetUpdate(keys: seq<EthAddress>, newIndex: uint32)
    | BridgeRegister(moduleName: Text, emitterChain: uint16, emitterAddress: Address)
    | BridgeUpgrade(moduleName: Text, target: uint16, contract: Address)
    | Recover(moduleName: Text, evmChainId: uint256, newChainId: uint16)
    | SetDefaultProvider(chain: uint16, provider: Address)

  // ---------------------------------------------------------------- serialising

  /** The bytes of a bridge governance message; None is the panic on a name over 32 bytes. */
  function BridgeBytes(moduleName: Text, action: byte, chain: uint16, payload: seq<byte>): Option<seq<byte>> {
    if |moduleName| > 32 then None else Some(LeftPad(moduleName) + [action] + (BE(chain, 2) + payload))
  }

  function RecoverBytes(moduleName: Text, evmChainId: uint256, newChainId: uint16): Option<seq<byte>> {
    if |moduleName| > 32 then None
    else Some(LeftPad(moduleName) + [if moduleName == Name(Core) then 5 else 3] +
      (BE(evmChainId, 32) + BE(newChainId, 2)))
  }

  function Bytes(body: Body): Option<seq<byte>> {
    match body
    case CoreUpgrade(chain, contract) => Some(Tag(Core) + [1] + (BE(chain, 2) + contract))
    case GuardianSetUpdate(keys, newIndex) =>
      Some(Tag(Core) + [2] + (BE(0, 2) + (BE(newIndex, 4) + ([|keys| % 256] + Concat(keys)))))
    case BridgeRegister(moduleName, emitterChain, emitterAddress) =>
      BridgeBytes(moduleName, 1, 0, BE(emitterChain, 2) + emitterAddress)
    case BridgeUpgrade(moduleName, target, contract) => BridgeBytes(moduleName, 2, target, contract)
    case Recover(moduleName, evmChainId, newChainId) => RecoverBytes(moduleName, evmChainId, newChainId)
    case SetDefaultProvider(chain, provider) => BridgeBytes(Tag(WormholeRelayer), 3, chain, provider)
  }

  /** Writes zero bytes one at a time and then the payload; None is the panic. */
  method LeftPadBytes(payload: Text, length: int) returns (r: Option<seq<byte>>)
    ensures r.None? <==> length < |payload|
    ensures r.Some? ==> r.value == Zeros(length - |payload|) + payload
  {
    if length < 0 { return None; }
    if |payload| > length { return None; }
    var buf: seq<byte> := [];
    var i := 0;
    while i < length - |payload|
      invariant 0 <= i <= length - |payload|
      invariant buf == Zeros(i)
    {
      buf := buf + [0];
      i := i + 1;
    }
    r := Some(buf + payload);
  }

  method SerializeBridge(moduleName: Text, action: byte, chain: uint16, payload: seq<byte>)
    returns (r: Option<seq<byte>>)
    ensures r == BridgeBytes(moduleName, action, chain, payload)
  {
    var padded := LeftPadBytes(moduleName, 32);
    if padded.None? { return None; }
    var buf := padded.value + [action];
    buf := buf + BE(chain, 2);
    buf := buf + payload;
    Reassociate(LeftPad(moduleName) + [action], BE(chain, 2), payload);
    r := Some(buf);
  }

  method SerializeRecover(moduleName: Text, evmChainId: uint256, newChainId: uint16) returns (r: Option<seq<byte>>)
    ensures r == RecoverBytes(moduleName, evmChainId, newChainId)
  {
    var padded := LeftPadBytes(moduleName, 32);
    if padded.None? { return None; }
    var action: byte := 3;
    if moduleName == Name(Core) { action := 5; }
    var buf := padded.value + [action];
    buf := buf + BE(evmChainId, 32);
    buf := buf + BE(newChainId, 2);
    Reassociate(LeftPad(moduleName) + [action], BE(evmChainId, 32), BE(newChainId, 2));
    r := Some(buf);
  }

  lemma {:induction false} ConcatSnoc(keys: seq<EthAddress>, k: EthAddress)
    ensures Concat(keys + [k]) == Concat(keys) + k
  {
    if keys == [] {
      assert Concat([k]) == k + Concat([]);
    } else {
      ConcatSnoc(keys[1..], k);
      assert (keys + [k])[1..] == keys[1..] + [k];
    }
  }

  lemma Assemble(a: seq<byte>, b: seq<byte>, c: seq<byte>, d: seq<byte>, e: seq<byte>)
    ensures a + b + c + d + e == a + (b + (c + (d + e)))
  {
    Reassociate(a + b + c, d, e);
    Reassociate(a + b, c, d + e);
    Reassociate(a, b, c + (d + e));
  }

  method SerializeGuardianSet(keys: seq<EthAddress>, newIndex: uint32) returns (r: seq<byte>)
    ensures Some(r) == Bytes(GuardianSetUpdate(keys, newIndex))
  {
    var buf := Tag(Core) + [2];
    buf := buf + BE(0, 2);
    buf := buf + BE(newIndex, 4);
    buf := buf + [|keys| % 256];
    ghost var front := buf;
    for i := 0 to |keys|
      invariant buf == front + Concat(keys[..i])
    {
      buf := buf + keys[i];
      ConcatSnoc(keys[..i], keys[i]);
      assert keys[..i] + [keys[i]] == keys[..i + 1];
    }
    assert keys[..|keys|] == keys;
    Assemble(Tag(Core) + [2], BE(0, 2), BE(newIndex, 4), [|keys| % 256], Concat(keys));
    r := buf;
  }

  method Serialize(body: Body) returns (r: Option<seq<byte>>)
    ensures r == Bytes(body)
  {
    match body
    case CoreUpgrade(chain, contract) =>
      var buf := Tag(Core) + [1];
      buf := buf + BE(chain, 2);
      buf := buf + contract;
      Reassociate(Tag(Core) + [1], BE(chain, 2), contract);
      r := Some(buf);
    case GuardianSetUpdate(keys, newIndex) =>
      var buf := SerializeGuardianSet(keys, newIndex);
      r := Some(buf);
    case BridgeRegister(moduleName, emitterChain, emitterAddress) =>
      r := SerializeBridge(moduleName, 1, 0, BE(emitterChain, 2) + emitterAddress);
    case BridgeUpgrade(moduleName, target, contract) => r := SerializeBridge(moduleName, 2, target, contract);
    case Recover(moduleName, evmChainId, newChainId) => r := SerializeRecover(moduleName, evmChainId, newChainId);
    case SetDefaultProvider(chain, provider) => r := SerializeBridge(Tag(WormholeRelayer), 3, chain, provider);
  }

  // ---------------------------------------------------------------- agreement with the TypeScript parser

  /** p is the same message as body: the same variant, module and fields. */
  predicate SameMessage(body: Body, p: Payload) {
    match body
    case CoreUpgrade(chain, contract) => p == ContractUpgrade(Core, chain, contract)
    case GuardianSetUpdate(keys, newIndex) => p == GuardianSetUpgrade(0, newIndex, keys)
    case BridgeRegister(name, emitterChain, emitterAddress) =>
      p.RegisterChain? && Names(name, p.m) && p == RegisterChain(p.m, 0, emitterChain, emitterAddress)
    case BridgeUpgrade(name, target, contract) =>
      p.ContractUpgrade? && Names(name, p.m) && p == ContractUpgrade(p.m, target, contract)
    case Recover(name, evmChainId, newChainId) =>
      p.RecoverChainId? && Names(name, p.m) && p == RecoverChainId(p.m, evmChainId, newChainId)
    case SetDefaultProvider(chain, provider) => p == SetDefaultDeliveryProvider(chain, provider)
  }

  predicate Names(name: Text, m: Module) { |name| <= 32 && LeftPad(name) == Tag(m) }

  predicate NamesPortal(name: Text) {
    Names(name, TokenBridge) || Names(name, NFTBridge) || Names(name, WormholeRelayer)
  }

  /** The bodies that the TypeScript client knows. */
  predicate Supported(body: Body) {
    match body
    case CoreUpgrade(_, _) => true
    case GuardianSetUpdate(keys, _) => |keys| <= 255
    case BridgeRegister(name, _, _) => NamesPortal(name)
    case BridgeUpgrade(name, _, _) => NamesPortal(name)
    case Recover(name, _, _) => name == Name(Core) || Names(name, TokenBridge) || Names(name, NFTBridge)
    case SetDefaultProvider(_, _) => true
  }

  function Portal(name: Text): (m: Module)
    requires NamesPortal(name)
    ensures m != Core && Names(name, m)
  {
    if Names(name, TokenBridge) then TokenBridge else if Names(name, NFTBridge) then NFTBridge else WormholeRelayer
  }

  function RecoverModule(name: Text): (m: Module)
    requires name == Name(Core) || Names(name, TokenBridge) || Names(name, NFTBridge)
    ensures m != WormholeRelayer && Names(name, m)
    ensures m == Core <==> name == Name(Core)
  {
    if name == Name(Core) then Core else if Names(name, TokenBridge) then TokenBridge else NFTBridge
  }

  function AsJs(body: Body): (p: Payload)
    requires Supported(body)
    ensures WellFormed(p) && SameMessage(body, p)
  {
    match body
    case CoreUpgrade(chain, contract) => ContractUpgrade(Core, chain, contract)
    case GuardianSetUpdate(keys, newIndex) => GuardianSetUpgrade(0, newIndex, keys)
    case BridgeRegister(name, emitterChain, emitterAddress) =>
      RegisterChain(Portal(name), 0, emitterChain, emitterAddress)
    case BridgeUpgrade(name, target, contract) => ContractUpgrade(Portal(name), target, contract)
    case Recover(name, evmChainId, newChainId) => RecoverChainId(RecoverModule(name), evmChainId, newChainId)
    case SetDefaultProvider(chain, provider) => SetDefaultDeliveryProvider(chain, provider)
  }

  lemma TagPads(m: Module)
    ensures LeftPad(Tag(m)) == Tag(m)
  {
  }

  /** Both programs write a supported body in the same way. */
  lemma SameBytes(body: Body)
    requires Supported(body)
    ensures Bytes(body) == Some(Serialise(AsJs(body)))
  {
    TagPads(WormholeRelayer);
  }

  /** A message with these bytes is supported, whatever parser took it. */
  lemma OnlySupported(body: Body, p: Payload)
    requires WellFormed(p) && SameMessage(body, p) && Bytes(body) == Some(Serialise(p))
    ensures Supported(body)
  {
    if body.BridgeUpgrade? {
      assert Serialise(p)[32] == UpgradeAction(p.m);
      assert Bytes(body).value[32] == 2;
    }
    if body.Recover? {
      assert Serialise(p)[32] == RecoverAction(p.m);
      assert Bytes(body).value[32] == if body.moduleName == Name(Core) then 5 else 3;
    }
  }

  /** The client reads a body the node serialised as the same message exactly when it is one of
      the supported bodies. */
  lemma ReadAsSent(body: Body)
    requires Bytes(body).Some?
    ensures (Parse(Bytes(body).value).Matched? && SameMessage(body, Parse(Bytes(body).value).value)) <==>
      Supported(body)
  {
    var b := Bytes(body).value;
    if Supported(body) {
      SameBytes(body);
      ParseOfSerialise(AsJs(body));
    }
    if Parse(b).Matched? && SameMessage(body, Parse(b).value) {
      SerialiseOfParse(b, Parse(b).value);
      OnlySupported(body, Parse(b).value);
    }
  }

  lemma RelayerRecoveryUnsupported(evmChainId: uint256, newChainId: uint16)
    ensures !Supported(Recover(Name(WormholeRelayer), evmChainId, newChainId))
  {
    TagInjective(WormholeRelayer, TokenBridge);
    TagInjective(WormholeRelayer, NFTBridge);
  }

  /** A chain-id recovery for the relayer has the length and header of another message, and is
      read as that one: its 34 bytes are taken for a chain and a provider address. */
  lemma RelayerRecoveryMisread(evmChainId: uint256, newChainId: uint16)
    ensures var body := Recover(Name(WormholeRelayer), evmChainId, newChainId);
      && Bytes(body).Some? && Parse(Bytes(body).value).Matched?
      && var p := Parse(Bytes(body).value).value;
         p.SetDefaultDeliveryProvider? && BE(p.chain, 2) + p.provider == BE(evmChainId, 32) + BE(newChainId, 2)
  {
    var s := BE(evmChainId, 32) + BE(newChainId, 2);
    var p := ReadSetDefault(s).value;
    SetDefaultWrites(s, p);
    GovernanceParses(15, s, p);
    assert Bytes(Recover(Name(WormholeRelayer), evmChainId, newChainId)) == Some(Header(WormholeRelayer, 3) + s);
  }

  lemma HeaderAt(t: byte, amount: uint256, tokenAddress: Address, tokenChain: uint16, toAddress: Address,
        chain: uint16, rest: seq<byte>)
    requires t == 1 || t == 3
    ensures DecodeTransferHdr([t] + TransferHead(amount, tokenAddress, tokenChain, toAddress, chain, rest)) ==
      Some(TransferHdr(t, amount, tokenAddress, tokenChain, toAddress, chain))
  {
    TransferFields(amount, tokenAddress, tokenChain, toAddress, chain, rest);
    HeaderOffsets(t, TransferHead(amount, tokenAddress, tokenChain, toAddress, chain, rest));
  }

  lemma HeaderOffsets(t: byte, s: seq<byte>)
    requires |s| >= 100
    ensures var b := [t] + s;
      && b[1..33] == s[..32] && b[33..65] == s[32..64] && b[65..67] == s[64..66] && b[67..99] == s[66..98]
         && b[99..101] == s[98..100]
  {
  }

  /** The header decoder of the node reads the transfers that the client writes. */
  lemma HeaderOfTransfer(p: Payload)
    requires p.TokenTransfer? || p.TransferWithPayload?
    ensures DecodeTransferHdr(Serialise(p)) ==
      Some(TransferHdr(if p.TokenTransfer? then 1 else 3, p.amount, p.tokenAddress, p.tokenChain, p.toAddress, p.chain))
  {
    if p.TokenTransfer? {
      HeaderAt(1, p.amount, p.tokenAddress, p.tokenChain, p.toAddress, p.chain, BE(p.fee, 32));
    } else {
      HeaderAt(3, p.amount, p.tokenAddress, p.tokenChain, p.toAddress, p.chain, p.fromAddress + p.payload);
    }
  }

  // ---------------------------------------------------------------- a guardian set update from the admin socket

  const MAX_GUARDIANS := 19
  const ZERO_ADDRESS: EthAddress := Zeros(20)

  /** The keys a guardian set update may name: hex addresses, all different, none of them zero. */
  predicate AcceptableKeys(parsed: seq<Option<EthAddress>>) {
    && 0 < |parsed| <= 19
    && (forall i | 0 <= i < |parsed| :: parsed[i].Some? && parsed[i].value != ZERO_ADDRESS)
    && (forall i, j | 0 <= i < j < |parsed| :: parsed[i] != parsed[j])
  }

  /** `parsed` holds what each pubkey reads as, None where it is not a hex address. The inner
      loop also meets the slots that are still zero, so the zero address is refused. */
  method GuardianKeys(parsed: seq<Option<EthAddress>>) returns (r: Option<seq<EthAddress>>)
    ensures r.Some? <==> AcceptableKeys(parsed)
    ensures r.Some? ==> |r.value| == |parsed| && forall i | 0 <= i < |parsed| :: parsed[i] == Some(r.value[i])
  {
    if |parsed| == 0 || |parsed| > MAX_GUARDIANS { return None; }
    var addrs := new EthAddress[|parsed|](_ => ZERO_ADDRESS);
    for i := 0 to |parsed|
      invariant forall j | 0 <= j < i :: parsed[j] == Some(addrs[j]) && addrs[j] != ZERO_ADDRESS
      invariant forall j | i <= j < |parsed| :: addrs[j] == ZERO_ADDRESS
      invariant forall j, k | 0 <= j < k < i :: parsed[j] != parsed[k]
    {
      if parsed[i].None? { return None; }
      var ethAddr := parsed[i].value;
      for j := 0 to |parsed|
        invariant forall k | 0 <= k < j :: addrs[k] != ethAddr
      {
        if addrs[j] == ethAddr {
          assert j < i ==> parsed[j] == parsed[i];
          return None;
        }
      }
      assert addrs[i] != ethAddr;
      addrs[i] := ethAddr;
    }
    r := Some(addrs[..]);
  }

  const GOVERNANCE_EMITTER: Address := Zeros(31) + [4]
  const CHAIN_SOLANA: uint16 := 1

  function GovernanceVAA(timestamp: int, nonce: uint32, sequence: uint64, setIndex: uint32, payload: seq<byte>): VAA {
    VAA(1, setIndex, [], timestamp, nonce, sequence, 32, CHAIN_SOLANA, GOVERNANCE_EMITTER, payload)
  }

  /** A guardian set update is turned into a VAA exactly for acceptable keys, and the client
      reads its payload as an update of the whole network to those keys at the next index. */
  method GuardianSetUpdateToVAA(parsed: seq<Option<EthAddress>>, timestamp: int, setIndex: uint32, nonce: uint32,
        sequence: uint64)
    returns (r: Option<VAA>)
    ensures r.Some? <==> AcceptableKeys(parsed)
    ensures r.Some? ==>
      && r.value.version == 1 && r.value.guardianSetIndex == setIndex && r.value.signatures == []
      && r.value.timestamp == timestamp && r.value.nonce == nonce && r.value.sequence == sequence
      && r.value.consistencyLevel == 32 && r.value.emitterChain == 1
      && r.value.emitterAddress[31] == 4 && (forall i | 0 <= i < 31 :: r.value.emitterAddress[i] == 0)
      && Parse(r.value.payload).Matched?
      && var p := Parse(r.value.payload).value;
         && p.GuardianSetUpgrade? && p.chain == 0 && p.newIndex == (setIndex + 1) % 0x1_0000_0000
         && |p.keys| == |parsed| && forall i | 0 <= i < |parsed| :: parsed[i] == Some(p.keys[i])
  {
    var keys := GuardianKeys(parsed);
    if keys.None? { return None; }
    var body := GuardianSetUpdate(keys.value, (setIndex + 1) % 0x1_0000_0000);
    var payload := SerializeGuardianSet(body.keys, body.newIndex);
    ReadAsSent(body);
    r := Some(GovernanceVAA(timestamp, nonce, sequence, setIndex, payload));
  }
}
