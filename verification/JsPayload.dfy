/** The payload formats of clients/js/src/vaa.ts: sixteen parsers tried in order, and the
    serialisers that belong to them. Strings are JavaScript strings, written as UTF-8. */
module JsPayload {
  import opened Binary
  import opened Vaa
  import opened Keys
  import Utf8

  datatype Module = Core | TokenBridge | NFTBridge | WormholeRelayer

  function Name(m: Module): (t: Text)
    ensures 4 <= |t| <= 15
  {
    match m
    case Core => Ascii("Core")
    case TokenBridge => Ascii("TokenBridge")
    case NFTBridge => Ascii("NFTBridge")
    case WormholeRelayer => Ascii("WormholeRelayer")
  }

  function LeftPad(t: Text): (s: seq<byte>)
    requires |t| <= 32
    ensures |s| == 32
  {
    Zeros(32 - |t|) + t
  }

  /** The module name left-padded to 32 bytes. */
  function Tag(m: Module): (s: seq<byte>)
    ensures |s| == 32
  {
    LeftPad(Name(m))
  }

  function RightPad(t: Text): (s: seq<byte>)
    requires |t| <= 32
    ensures |s| == 32
  {
    t + Zeros(32 - |t|)
  }

  lemma {:induction false} ZeroFits(w: nat)
    ensures Fits(0, w)
  {
    if w > 0 { ZeroFits(w - 1); }
  }

  type uint256 = n: nat | Fits(n, 32) witness (ZeroFits(32); 0)

  datatype Payload =
    | GuardianSetUpgrade(chain: uint16, newIndex: uint32, keys: seq<EthAddress>)
    | ContractUpgrade(m: Module, chain: uint16, address: Address)
    | RegisterChain(m: Module, chain: uint16, emitterChain: uint16, emitterAddress: Address)
    | TokenTransfer(amount: uint256, tokenAddress: Address, tokenChain: uint16, toAddress: Address, chain: uint16,
      fee: uint256)
    | TransferWithPayload(amount: uint256, tokenAddress: Address, tokenChain: uint16, toAddress: Address, chain: uint16,
                          fromAddress: Address, payload: seq<byte>)
    | AttestMeta(tokenAddress: Address, tokenChain: uint16, decimals: byte, symbol: Utf8.JsString,
                 name: Utf8.JsString)
    | NFTTransfer(tokenAddress: Address, tokenChain: uint16, symbol: Utf8.JsString, name: Utf8.JsString,
                  tokenId: uint256, uri: Utf8.JsString, toAddress: Address, chain: uint16)
    | RecoverChainId(m: Module, evmChainId: uint256, newChainId: uint16)
    | SetDefaultDeliveryProvider(chain: uint16, provider: Address)

  /** A string that encodeStringRight pads to 32 bytes; the ABI encoder refuses longer ones. */
  predicate FitsField(t: Utf8.JsString) { |Utf8.Encode(t)| <= 32 }

  /** The values the TypeScript types and the ABI encoder admit. The length byte of a URI is
      its length in UTF-16 units. */
  predicate WellFormed(p: Payload) {
    match p
    case GuardianSetUpgrade(_, _, keys) => |keys| <= 255
    case RegisterChain(m, _, _, _) => m != Core
    case AttestMeta(_, _, _, symbol, name) => FitsField(symbol) && FitsField(name)
    case NFTTransfer(_, _, symbol, name, _, uri, _, _) =>
      FitsField(symbol) && FitsField(name) && Utf8.Units(uri) <= 255
    case RecoverChainId(m, _, _) => m != WormholeRelayer
    case _ => true
  }

  // ---------------------------------------------------------------- serialisers

  function Concat(keys: seq<EthAddress>): (s: seq<byte>)
    ensures |s| == 20 * |keys|
  {
    if keys == [] then [] else keys[0] + Concat(keys[1..])
  }

  function Header(m: Module, action: byte): (s: seq<byte>)
    ensures |s| == 33
  {
    Tag(m) + [action]
  }

  function UpgradeAction(m: Module): byte { if m == Core then 1 else 2 }

  function RecoverAction(m: Module): byte { if m == Core then 5 else 3 }

  function TransferHead(amount: uint256, tokenAddress: Address, tokenChain: uint16, toAddress: Address, chain: uint16,
        rest: seq<byte>): seq<byte> {
    BE(amount, 32) + (tokenAddress + (BE(tokenChain, 2) + (toAddress + (BE(chain, 2) + rest))))
  }

  function TransferBytes(p: Payload): (s: seq<byte>)
    requires p.TokenTransfer?
  {
    TransferHead(p.amount, p.tokenAddress, p.tokenChain, p.toAddress, p.chain, BE(p.fee, 32))
  }

  function TransferWithPayloadBytes(p: Payload): (s: seq<byte>)
    requires p.TransferWithPayload?
  {
    TransferHead(p.amount, p.tokenAddress, p.tokenChain, p.toAddress, p.chain, p.fromAddress + p.payload)
  }

  function TextField(t: Utf8.JsString): (s: seq<byte>)
    requires FitsField(t)
    ensures |s| == 32
  {
    RightPad(Utf8.Encode(t))
  }

  function AttestMetaBytes(p: Payload): (s: seq<byte>)
    requires p.AttestMeta? && WellFormed(p)
  {
    p.tokenAddress + (BE(p.tokenChain, 2) + ([p.decimals] + (TextField(p.symbol) + TextField(p.name))))
  }

  function NFTTransferBytes(p: Payload): (s: seq<byte>)
    requires p.NFTTransfer? && WellFormed(p)
  {
    p.tokenAddress + (BE(p.tokenChain, 2) + (TextField(p.symbol) + (TextField(p.name) + (BE(p.tokenId, 32) +
    ([Utf8.Units(p.uri)] + (Utf8.Encode(p.uri) + (p.toAddress + BE(p.chain, 2))))))))
  }

  function Serialise(p: Payload): (s: seq<byte>)
    requires WellFormed(p)
  {
    match p
    case GuardianSetUpgrade(chain, newIndex, keys) =>
      Header(Core, 2) + (BE(chain, 2) + (BE(newIndex, 4) + ([|keys|] + Concat(keys))))
    case ContractUpgrade(m, chain, address) => Header(m, UpgradeAction(m)) + (BE(chain, 2) + address)
    case RegisterChain(m, chain, emitterChain, emitterAddress) =>
      Header(m, 1) + (BE(chain, 2) + (BE(emitterChain, 2) + emitterAddress))
    case TokenTransfer(_, _, _, _, _, _) => [1] + TransferBytes(p)
    case TransferWithPayload(_, _, _, _, _, _, _) => [3] + TransferWithPayloadBytes(p)
    case AttestMeta(_, _, _, _, _) => [2] + AttestMetaBytes(p)
    case NFTTransfer(_, _, _, _, _, _, _, _) => [1] + NFTTransferBytes(p)
    case RecoverChainId(m, evmChainId, newChainId) => Header(m, RecoverAction(m)) +
      (BE(evmChainId, 32) + BE(newChainId, 2))
    case SetDefaultDeliveryProvider(chain, provider) => Header(WormholeRelayer, 3) + (BE(chain, 2) + provider)
  }

  // ---------------------------------------------------------------- field readers

  /** A parser matches, fails an assertion (and the next one is tried), or reads past the end
      of the buffer (and the whole parse is abandoned). */
  datatype Try<+T> = Matched(value: T) | NoMatch | Overrun

  function TryHeader(b: seq<byte>, m: Module, action: byte): Try<seq<byte>> {
    if |b| < 32 || b[..32] != Tag(m) then NoMatch
    else if |b| == 32 then Overrun
    else if b[32] != action then NoMatch
    else Matched(b[33..])
  }

  function TryType(b: seq<byte>, t: byte): Try<seq<byte>> {
    if |b| == 0 then Overrun else if b[0] != t then NoMatch else Matched(b[1..])
  }

  function ReadKeys(s: seq<byte>): (keys: seq<EthAddress>)
    requires |s| % 20 == 0
    ensures Concat(keys) == s && 20 * |keys| == |s|
  {
    if s == [] then []
    else
      assert s == s[..20] + s[20..];
      var rest := ReadKeys(s[20..]);
      assert ([s[..20]] + rest)[1..] == rest;
      [s[..20]] + rest
  }

  /** The position of the first element that is not zero, or 0 if there is none. */
  function FirstNonZero(s: seq<int>): (i: nat)
    ensures i <= |s|
  {
    if s == [] || s[0] != 0 then 0
    else
      var i := FirstNonZero(s[1..]);
      if i > 0 || (|s| > 1 && s[1] != 0) then i + 1 else 0
  }

  /** The text formatter of the NFT parser skips leading zero bytes. */
  function Unpadded(s: seq<byte>): (t: seq<byte>)
    ensures |t| <= |s|
  {
    s[FirstNonZero(s)..]
  }

  // Each reader takes the bytes after the header or type byte. `Overrun` when the fields do
  // not fit, `NoMatch` when something is left over.

  function ReadGuardianSet(s: seq<byte>): Try<Payload> {
    if |s| < 7 || |s| < 7 + 20 * (s[6] as int) then Overrun
    else if |s| > 7 + 20 * (s[6] as int) then NoMatch
    else
      Widths();
      Matched(GuardianSetUpgrade(FromBE(s[..2]), FromBE(s[2..6]), ReadKeys(s[7..])))
  }

  function ReadUpgrade(s: seq<byte>, m: Module): Try<Payload> {
    if |s| < 34 then Overrun else if |s| > 34 then NoMatch
    else Widths(); Matched(ContractUpgrade(m, FromBE(s[..2]), s[2..]))
  }

  function ReadSetDefault(s: seq<byte>): Try<Payload> {
    if |s| < 34 then Overrun else if |s| > 34 then NoMatch
    else Widths(); Matched(SetDefaultDeliveryProvider(FromBE(s[..2]), s[2..]))
  }

  function ReadRegister(s: seq<byte>, m: Module): Try<Payload> {
    if |s| < 36 then Overrun else if |s| > 36 then NoMatch
    else Widths(); Matched(RegisterChain(m, FromBE(s[..2]), FromBE(s[2..4]), s[4..]))
  }

  function ReadRecover(s: seq<byte>, m: Module): Try<Payload> {
    if |s| < 34 then Overrun else if |s| > 34 then NoMatch
    else Widths(); Matched(RecoverChainId(m, FromBE(s[..32]), FromBE(s[32..])))
  }

  function ReadTransfer(s: seq<byte>): Try<Payload> {
    if |s| < 132 then Overrun else if |s| > 132 then NoMatch
    else
      Widths();
      Matched(TokenTransfer(FromBE(s[..32]), s[32..64], FromBE(s[64..66]), s[66..98], FromBE(s[98..100]),
        FromBE(s[100..])))
  }

  function ReadTransferWithPayload(s: seq<byte>): Try<Payload> {
    if |s| < 132 then Overrun
    else
      Widths();
      Matched(TransferWithPayload(FromBE(s[..32]), s[32..64], FromBE(s[64..66]), s[66..98], FromBE(s[98..100]),
        s[100..132], s[132..]))
  }

  function ReadAttestMeta(s: seq<byte>): Try<Payload> {
    if |s| < 99 then Overrun else if |s| > 99 then NoMatch
    else Widths(); Matched(AttestMeta(s[..32], FromBE(s[32..34]), s[34], Utf8.Decode(s[35..67]), Utf8.Decode(s[67..])))
  }

  function ReadNFTTransfer(s: seq<byte>): Try<Payload> {
    if |s| < 131 || |s| < 165 + (s[130] as int) then Overrun
    else if |s| > 165 + (s[130] as int) then NoMatch
    else
      Widths();
      var u := 131 + (s[130] as int);
      Matched(NFTTransfer(s[..32], FromBE(s[32..34]), Utf8.Decode(Unpadded(s[34..66])),
        Utf8.Decode(Unpadded(s[66..98])), FromBE(s[98..130]), Utf8.Decode(s[131..u]), s[u..u + 32],
          FromBE(s[u + 32..])))
  }

  // ---------------------------------------------------------------- the ordered choice

  datatype Shape = GuardianSetShape | UpgradeShape | RegisterShape | RecoverShape | SetDefaultShape
                 | TransferShape | TransferPayloadShape | AttestShape | NFTShape

  /** One parser of the choice: its fields, and the header or type byte it asserts first. */
  datatype Parser = Governance(shape: Shape, m: Module, action: byte) | Typed(shape: Shape, kind: byte)

  const CHOICES := 16

  /** The parsers in the order parse tries them. */
  function Choice(k: nat): Parser
    requires k < CHOICES
  {
    match k
    case 0 => Governance(GuardianSetShape, Core, 2)
    case 1 => Governance(UpgradeShape, Core, 1)
    case 2 => Governance(UpgradeShape, TokenBridge, 2)
    case 3 => Governance(UpgradeShape, NFTBridge, 2)
    case 4 => Governance(UpgradeShape, WormholeRelayer, 2)
    case 5 => Governance(RegisterShape, TokenBridge, 1)
    case 6 => Governance(RegisterShape, NFTBridge, 1)
    case 7 => Governance(RegisterShape, WormholeRelayer, 1)
    case 8 => Typed(TransferShape, 1)
    case 9 => Typed(TransferPayloadShape, 3)
    case 10 => Typed(AttestShape, 2)
    case 11 => Typed(NFTShape, 1)
    case 12 => Governance(RecoverShape, Core, 5)
    case 13 => Governance(RecoverShape, TokenBridge, 3)
    case 14 => Governance(RecoverShape, NFTBridge, 3)
    case _ => Governance(SetDefaultShape, WormholeRelayer, 3)
  }

  function ReadShape(shape: Shape, m: Module, s: seq<byte>): Try<Payload> {
    match shape
    case GuardianSetShape => ReadGuardianSet(s)
    case UpgradeShape => ReadUpgrade(s, m)
    case RegisterShape => ReadRegister(s, m)
    case RecoverShape => ReadRecover(s, m)
    case SetDefaultShape => ReadSetDefault(s)
    case TransferShape => ReadTransfer(s)
    case TransferPayloadShape => ReadTransferWithPayload(s)
    case AttestShape => ReadAttestMeta(s)
    case NFTShape => ReadNFTTransfer(s)
  }

  function Run(parser: Parser, b: seq<byte>): Try<Payload> {
    var front := if parser.Governance? then TryHeader(b, parser.m, parser.action) else TryType(b, parser.kind);
    match front
    case NoMatch => NoMatch
    case Overrun => Overrun
    case Matched(s) => ReadShape(parser.shape, if parser.Governance? then parser.m else Core, s)
  }

  /** P.or along a list: a later result counts only if the earlier parsers fail an assertion. */
  function FirstMatch(rs: seq<Try<Payload>>): Try<Payload> {
    if rs == [] then NoMatch else if rs[0].NoMatch? then FirstMatch(rs[1..]) else rs[0]
  }

  function Results(b: seq<byte>): (rs: seq<Try<Payload>>)
    ensures |rs| == CHOICES && forall k | 0 <= k < CHOICES :: rs[k] == Run(Choice(k), b)
  {
    seq(CHOICES, k requires 0 <= k < CHOICES => Run(Choice(k), b))
  }

  function Parse(b: seq<byte>): Try<Payload> { FirstMatch(Results(b)) }

  /** If every parser refuses, so does parse. */
  lemma {:induction false} NothingMatches(rs: seq<Try<Payload>>)
    requires forall i | 0 <= i < |rs| :: rs[i].NoMatch?
    ensures FirstMatch(rs).NoMatch?
  {
    if rs != [] {
      NothingMatches(rs[1..]);
    }
  }

  /** If all results before number k are refusals and number k is not, it is the result. */
  lemma {:induction false} FirstToMatch(rs: seq<Try<Payload>>, k: nat)
    requires k < |rs| && (forall i | 0 <= i < k :: rs[i].NoMatch?) && !rs[k].NoMatch?
    ensures FirstMatch(rs) == rs[k]
  {
    if k > 0 {
      FirstToMatch(rs[1..], k - 1);
    }
  }

  // ---------------------------------------------------------------- headers tell the parsers apart

  lemma NameStarts(m: Module)
    ensures |Name(m)| == match m case Core => 4 case TokenBridge => 11 case NFTBridge => 9 case WormholeRelayer => 15
    ensures Name(m)[0] != 0
  {
  }

  /** The names differ in length and start with a letter, so the padded names differ. */
  lemma TagInjective(m: Module, n: Module)
    requires m != n
    ensures Tag(m) != Tag(n)
  {
    NameStarts(m);
    NameStarts(n);
    hide Name;
    var i, j := 32 - |Name(m)|, 32 - |Name(n)|;
    assert Tag(m)[i] == Name(m)[0] && Tag(n)[j] == Name(n)[0];
    assert i < j ==> Tag(n)[i] == 0;
    assert j < i ==> Tag(m)[j] == 0;
  }

  lemma TagStartsWithZero(m: Module)
    ensures Tag(m)[0] == 0
  {
  }

  /** A governance header is read back, and refused for any other module or action. */
  lemma HeaderReads(m: Module, action: byte, rest: seq<byte>, n: Module, other: byte)
    ensures TryHeader(Header(m, action) + rest, n, other) == if m == n
      && action == other then Matched(rest) else NoMatch
  {
    var b := Header(m, action) + rest;
    assert b[..32] == Tag(m) && b[32] == action && b[33..] == rest;
    if m != n {
      TagInjective(m, n);
    }
  }

  /** Governance headers start with a zero byte, so no typed parser takes them. */
  lemma HeaderIsNoType(m: Module, action: byte, rest: seq<byte>, t: byte)
    requires t != 0
    ensures TryType(Header(m, action) + rest, t) == NoMatch
  {
    TagStartsWithZero(m);
    assert (Header(m, action) + rest)[0] == Tag(m)[0];
  }

  /** And a typed payload has no module header. */
  lemma TypeIsNoHeader(b: seq<byte>, m: Module, action: byte)
    requires |b| >= 32 && b[0] != 0
    ensures TryHeader(b, m, action) == NoMatch
  {
    TagStartsWithZero(m);
    assert b[..32][0] == b[0];
  }

  // ---------------------------------------------------------------- reading the fields back

  lemma {:induction false} ReadKeysOfConcat(keys: seq<EthAddress>)
    ensures ReadKeys(Concat(keys)) == keys
  {
    if keys != [] {
      ReadKeysOfConcat(keys[1..]);
      assert Concat(keys)[..20] == keys[0] && Concat(keys)[20..] == Concat(keys[1..]);
      assert keys == [keys[0]] + keys[1..];
    }
  }

  lemma GuardianSetReads(chain: uint16, newIndex: uint32, keys: seq<EthAddress>)
    requires |keys| <= 255
    ensures ReadGuardianSet(BE(chain, 2) + (BE(newIndex, 4) + ([|keys|] + Concat(keys)))) ==
      Matched(GuardianSetUpgrade(chain, newIndex, keys))
  {
    Widths();
    var r2 := [|keys|] + Concat(keys);
    var r1 := BE(newIndex, 4) + r2;
    var s := BE(chain, 2) + r1;
    assert s[..2] == BE(chain, 2) && s[2..6] == BE(newIndex, 4) && s[6] == |keys| && s[7..] == Concat(keys);
    FromBEOfBE(chain, 2);
    FromBEOfBE(newIndex, 4);
    ReadKeysOfConcat(keys);
  }

  lemma UpgradeReads(m: Module, chain: uint16, address: Address)
    ensures ReadUpgrade(BE(chain, 2) + address, m) == Matched(ContractUpgrade(m, chain, address))
    ensures ReadSetDefault(BE(chain, 2) + address) == Matched(SetDefaultDeliveryProvider(chain, address))
  {
    Widths();
    CutAppend(BE(chain, 2), address);
    FromBEOfBE(chain, 2);
  }

  lemma RegisterReads(m: Module, chain: uint16, emitterChain: uint16, address: Address)
    ensures ReadRegister(BE(chain, 2) + (BE(emitterChain, 2) + address), m) ==
      Matched(RegisterChain(m, chain, emitterChain, address))
  {
    Widths();
    var s := BE(chain, 2) + (BE(emitterChain, 2) + address);
    assert s[..2] == BE(chain, 2) && s[2..4] == BE(emitterChain, 2) && s[4..] == address;
    FromBEOfBE(chain, 2);
    FromBEOfBE(emitterChain, 2);
  }

  lemma RecoverReads(m: Module, evm: uint256, chain: uint16)
    ensures ReadRecover(BE(evm, 32) + BE(chain, 2), m) == Matched(RecoverChainId(m, evm, chain))
  {
    Widths();
    CutAppend(BE(evm, 32), BE(chain, 2));
    FromBEOfBE(evm, 32);
    FromBEOfBE(chain, 2);
  }

  /** The five fields that both kinds of token transfer start with. */
  lemma TransferFields(amount: uint256, tokenAddress: Address, tokenChain: uint16, toAddress: Address, chain: uint16,
        rest: seq<byte>)
    ensures var s := TransferHead(amount, tokenAddress, tokenChain, toAddress, chain, rest);
      && |s| == 100 + |rest|
      && FromBE(s[..32]) == amount && s[32..64] == tokenAddress && FromBE(s[64..66]) == tokenChain
      && s[66..98] == toAddress && FromBE(s[98..100]) == chain && s[100..] == rest
  {
    Widths();
    var r4 := BE(chain, 2) + rest;
    var r3 := toAddress + r4;
    var r2 := BE(tokenChain, 2) + r3;
    var r1 := tokenAddress + r2;
    var s := BE(amount, 32) + r1;
    CutAppend(BE(amount, 32), r1);
    assert s[32..64] == r1[..32] && s[64..] == r2;
    assert s[64..66] == r2[..2] && s[66..] == r3;
    assert s[66..98] == r3[..32] && s[98..] == r4;
    assert s[98..100] == r4[..2] && s[100..] == rest;
    FromBEOfBE(amount, 32);
    FromBEOfBE(tokenChain, 2);
    FromBEOfBE(chain, 2);
  }

  lemma TransferReads(p: Payload)
    requires p.TokenTransfer?
    ensures |TransferBytes(p)| == 132 && ReadTransfer(TransferBytes(p)) == Matched(p)
  {
    TransferFields(p.amount, p.tokenAddress, p.tokenChain, p.toAddress, p.chain, BE(p.fee, 32));
    FromBEOfBE(p.fee, 32);
  }

  lemma TransferWithPayloadReads(p: Payload)
    requires p.TransferWithPayload?
    ensures |TransferWithPayloadBytes(p)| >= 132 && ReadTransferWithPayload(TransferWithPayloadBytes(p)) == Matched(p)
  {
    var rest := p.fromAddress + p.payload;
    var s := TransferWithPayloadBytes(p);
    TransferFields(p.amount, p.tokenAddress, p.tokenChain, p.toAddress, p.chain, rest);
    CutAppend(p.fromAddress, p.payload);
    assert s[100..132] == s[100..][..32] && s[132..] == s[100..][32..];
  }

  // ---------------------------------------------------------------- text fields

  function Nuls(n: nat): Utf8.JsString { seq(n, _ => 0) }

  /** A string filled up with NUL characters to 32 bytes. */
  function Padded(t: Utf8.JsString): Utf8.JsString
    requires FitsField(t)
  {
    t + Nuls(32 - |Utf8.Encode(t)|)
  }

  /** A string without its leading NUL characters, unless it has no others. */
  function Stripped(t: Utf8.JsString): Utf8.JsString { t[FirstNonZero(t)..] }

  lemma {:induction false} EncodeNuls(n: nat)
    ensures Utf8.Encode(Nuls(n)) == Zeros(n)
  {
    if n > 0 {
      assert Nuls(n)[1..] == Nuls(n - 1);
      EncodeNuls(n - 1);
      assert Zeros(n) == [0] + Zeros(n - 1);
    }
  }

  lemma {:induction false} EncodeAppend(t: Utf8.JsString, u: Utf8.JsString)
    ensures Utf8.Encode(t + u) == Utf8.Encode(t) + Utf8.Encode(u)
  {
    hide Utf8.EncodeOne;
    if t == [] {
      assert t + u == u;
    } else {
      EncodeAppend(t[1..], u);
      assert (t + u)[1..] == t[1..] + u;
    }
  }

  /** Padding in bytes is padding with NUL characters. */
  lemma TextFieldIsPadded(t: Utf8.JsString)
    requires FitsField(t)
    ensures TextField(t) == Utf8.Encode(Padded(t)) && Utf8.Decode(TextField(t)) == Padded(t)
  {
    var n := 32 - |Utf8.Encode(t)|;
    EncodeAppend(t, Nuls(n));
    EncodeNuls(n);
    Utf8.DecodeOfEncode(Padded(t));
  }

  /** Only the NUL character is written as a zero byte. */
  lemma EncodedStart(c: Utf8.Scalar)
    ensures c == 0 ==> Utf8.EncodeOne(c) == [0]
    ensures c != 0 ==> Utf8.EncodeOne(c)[0] != 0
  {
  }

  /** Skipping leading zero bytes is skipping leading NUL characters. */
  lemma {:induction false} StrippedBytes(t: Utf8.JsString)
    ensures FirstNonZero(Utf8.Encode(t)) == FirstNonZero(t)
    ensures Unpadded(Utf8.Encode(t)) == Utf8.Encode(Stripped(t))
  {
    if t != [] {
      EncodedStart(t[0]);
      hide Utf8.EncodeOne;
      var e := Utf8.Encode(t);
      if t[0] == 0 {
        StrippedBytes(t[1..]);
        assert e[1..] == Utf8.Encode(t[1..]);
        if |t| > 1 { EncodedStart(t[1]); }
        var k := FirstNonZero(t);
        if k > 0 {
          assert e[k..] == e[1..][k - 1..] && t[k..] == t[1..][k - 1..];
          assert k > 1 || t[1..][0..] == t[1..];
        }
      }
    }
  }

  lemma AttestFields(token: Address, chain: seq<byte>, decimals: byte, symbol: seq<byte>, name: seq<byte>)
    requires |chain| == 2 && |symbol| == 32 && |name| == 32
    ensures var s := token + (chain + ([decimals] + (symbol + name)));
      |s| == 99 && s[..32] == token && s[32..34] == chain && s[34] == decimals && s[35..67] == symbol && s[67..] == name
  {
    var s := token + (chain + ([decimals] + (symbol + name)));
    assert s == ((token + chain) + [decimals]) + (symbol + name);
  }

  lemma AttestBytesAt(p: Payload)
    requires p.AttestMeta? && WellFormed(p)
    ensures var s := AttestMetaBytes(p);
      && |s| == 99 && s[..32] == p.tokenAddress && s[32..34] == BE(p.tokenChain, 2) && s[34] == p.decimals
      && s[35..67] == TextField(p.symbol) && s[67..] == TextField(p.name)
  {
    AttestFields(p.tokenAddress, BE(p.tokenChain, 2), p.decimals, TextField(p.symbol), TextField(p.name));
  }

  lemma AttestRead(s: seq<byte>, token: Address, chain: uint16, decimals: byte, symbol: seq<byte>, name: seq<byte>)
    requires |s| == 99 && s[..32] == token && s[32..34] == BE(chain, 2) && s[34] == decimals
    requires s[35..67] == symbol && s[67..] == name
    ensures ReadAttestMeta(s) == Matched(AttestMeta(token, chain, decimals, Utf8.Decode(symbol), Utf8.Decode(name)))
  {
    FromBEOfBE(chain, 2);
    hide Utf8.Decode, FromBE, BE;
  }

  lemma AttestMetaReads(p: Payload)
    requires p.AttestMeta? && WellFormed(p)
    ensures |AttestMetaBytes(p)| == 99 && ReadAttestMeta(AttestMetaBytes(p)) == Matched(Canonical(p))
  {
    hide AttestMetaBytes, TextField, Padded, Utf8.Decode, ReadAttestMeta, BE;
    AttestBytesAt(p);
    TextFieldIsPadded(p.symbol);
    TextFieldIsPadded(p.name);
    AttestRead(AttestMetaBytes(p), p.tokenAddress, p.tokenChain, p.decimals, TextField(p.symbol), TextField(p.name));
  }

  /** The fields of an NFT transfer at their offsets, whatever its length byte. */
  lemma NFTFields(token: Address, tokenChain: seq<byte>, symbol: seq<byte>, name: seq<byte>, id: seq<byte>, n: byte,
        uri: seq<byte>, to_: Address, chain: seq<byte>)
    requires |tokenChain| == 2 && |symbol| == 32 && |name| == 32 && |id| == 32 && |chain| == 2
    ensures var s := token + (tokenChain + (symbol + (name + (id + ([n] + (uri + (to_ + chain)))))));
      && |s| == 165 + |uri| && s[..32] == token && s[32..34] == tokenChain && s[34..66] == symbol && s[66..98] == name
      && s[98..130] == id && s[130] == n && s[131..131 + |uri|] == uri
      && s[131 + |uri|..163 + |uri|] == to_ && s[163 + |uri|..] == chain
  {
    var r7 := to_ + chain;
    var r6 := uri + r7;
    var r5 := [n] + r6;
    var r4 := id + r5;
    var r3 := name + r4;
    var r2 := symbol + r3;
    var r1 := tokenChain + r2;
    var s := token + r1;
    assert s[32..34] == r1[..2] && s[34..] == r2;
    assert s[34..66] == r2[..32] && s[66..] == r3;
    assert s[66..98] == r3[..32] && s[98..] == r4;
    assert s[98..130] == r4[..32] && s[130..] == r5;
    assert s[131..] == r6;
    var u := 131 + |uri|;
    assert s[131..u] == r6[..|uri|] && s[u..] == r7;
    assert s[u..u + 32] == r7[..32] && s[u + 32..] == chain;
  }

  lemma NFTBytesAt(p: Payload)
    requires p.NFTTransfer? && WellFormed(p)
    ensures var s, e := NFTTransferBytes(p), Utf8.Encode(p.uri);
      && |s| == 165 + |e| && s[..32] == p.tokenAddress && s[32..34] == BE(p.tokenChain, 2)
      && s[34..66] == TextField(p.symbol) && s[66..98] == TextField(p.name) && s[98..130] == BE(p.tokenId, 32)
      && s[130] == Utf8.Units(p.uri) && s[131..131 + |e|] == e
      && s[131 + |e|..163 + |e|] == p.toAddress && s[163 + |e|..] == BE(p.chain, 2)
  {
    NFTFields(p.tokenAddress, BE(p.tokenChain, 2), TextField(p.symbol), TextField(p.name), BE(p.tokenId, 32),
      Utf8.Units(p.uri), Utf8.Encode(p.uri), p.toAddress, BE(p.chain, 2));
  }

  /** A URI that is all ASCII: as many characters as bytes. */
  predicate AsciiUri(p: Payload) {
    p.NFTTransfer? ==> Utf8.AllAscii(Utf8.Encode(p.uri))
  }

  lemma StrippedField(t: Utf8.JsString)
    requires FitsField(t)
    ensures Utf8.Decode(Unpadded(TextField(t))) == Stripped(Padded(t))
  {
    TextFieldIsPadded(t);
    StrippedBytes(Padded(t));
    Utf8.DecodeOfEncode(Stripped(Padded(t)));
  }

  /** The length byte counts characters, so the URI is found only if it is all ASCII;
      otherwise bytes are left over. */
  lemma NFTTransferReads(p: Payload)
    requires p.NFTTransfer? && WellFormed(p)
    ensures |NFTTransferBytes(p)| >= 165
    ensures ReadNFTTransfer(NFTTransferBytes(p)) == if AsciiUri(p) then Matched(Canonical(p)) else NoMatch
  {
    hide NFTTransferBytes, TextField, Stripped, Padded, Unpadded, Utf8.Decode, Utf8.Encode, Utf8.Units, Utf8.AllAscii,
      FromBE, BE, Utf8.Valid;
    var s := NFTTransferBytes(p);
    NFTBytesAt(p);
    Utf8.UnitsAtMost(p.uri);
    Utf8.UnitsAreBytes(p.uri);
    Utf8.DecodeOfEncode(p.uri);
    StrippedField(p.symbol);
    StrippedField(p.name);
    Widths();
    FromBEOfBE(p.tokenChain, 2);
    FromBEOfBE(p.tokenId, 32);
    FromBEOfBE(p.chain, 2);
  }

  // ---------------------------------------------------------------- main results

  /** What the parser makes of a serialised payload: the same value, with strings padded to
      their fields and, in NFT transfers, stripped of leading NUL characters. */
  function Canonical(p: Payload): (c: Payload)
    requires WellFormed(p)
  {
    match p
    case AttestMeta(token, chain, decimals, symbol, name) =>
      AttestMeta(token, chain, decimals, Padded(symbol), Padded(name))
    case NFTTransfer(token, tokenChain, symbol, name, id, uri, to_, chain) =>
      NFTTransfer(token, tokenChain, Stripped(Padded(symbol)), Stripped(Padded(name)), id, uri, to_, chain)
    case _ => p
  }

  /** The number of the parser meant for p. */
  function Position(p: Payload): (k: nat)
    requires WellFormed(p)
    ensures k < CHOICES
  {
    match p
    case GuardianSetUpgrade(_, _, _) => 0
    case ContractUpgrade(m, _, _) =>
      (match m case Core => 1 case TokenBridge => 2 case NFTBridge => 3 case WormholeRelayer => 4)
    case RegisterChain(m, _, _, _) => (match m case TokenBridge => 5 case NFTBridge => 6 case _ => 7)
    case TokenTransfer(_, _, _, _, _, _) => 8
    case TransferWithPayload(_, _, _, _, _, _, _) => 9
    case AttestMeta(_, _, _, _, _) => 10
    case NFTTransfer(_, _, _, _, _, _, _, _) => 11
    case RecoverChainId(m, _, _) => (match m case Core => 12 case TokenBridge => 13 case _ => 14)
    case SetDefaultDeliveryProvider(_, _) => 15
  }

  /** No two governance parsers ask for the same header. */
  lemma GovernanceChoicesDiffer(j: nat, k: nat)
    requires j < k < CHOICES && Choice(j).Governance? && Choice(k).Governance?
    ensures Choice(j).m != Choice(k).m || Choice(j).action != Choice(k).action
  {
  }

  /** The first parser that does not refuse decides. */
  lemma ParseAt(k: nat, b: seq<byte>, p: Payload)
    requires k < CHOICES && (forall j | 0 <= j < k :: Run(Choice(j), b) == NoMatch) && Run(Choice(k), b) == Matched(p)
    ensures Parse(b) == Matched(p)
  {
    FirstToMatch(Results(b), k);
  }

  lemma OtherHeaderRefused(j: nat, k: nat, rest: seq<byte>)
    requires j < k < CHOICES && Choice(k).Governance?
    ensures Run(Choice(j), Header(Choice(k).m, Choice(k).action) + rest) == NoMatch
  {
    var m, action := Choice(k).m, Choice(k).action;
    if Choice(j).Governance? {
      GovernanceChoicesDiffer(j, k);
      HeaderReads(m, action, rest, Choice(j).m, Choice(j).action);
    } else {
      HeaderIsNoType(m, action, rest, Choice(j).kind);
    }
  }

  lemma GovernanceParses(k: nat, rest: seq<byte>, p: Payload)
    requires k < CHOICES && Choice(k).Governance?
    requires ReadShape(Choice(k).shape, Choice(k).m, rest) == Matched(p)
    ensures var b := Header(Choice(k).m, Choice(k).action) + rest;
      (forall j | 0 <= j < k :: Run(Choice(j), b) == NoMatch) && Parse(b) == Matched(p)
  {
    var m, action := Choice(k).m, Choice(k).action;
    var b := Header(m, action) + rest;
    forall j | 0 <= j < k
      ensures Run(Choice(j), b) == NoMatch
    {
      OtherHeaderRefused(j, k, rest);
    }
    HeaderReads(m, action, rest, m, action);
    ParseAt(k, b, p);
  }

  /** A typed payload is refused by every governance parser, and by every typed parser before
      its own: the type bytes differ, and where both are 1 the token transfer parser finds
      bytes left over behind its 133. */
  lemma TypedRefused(j: nat, k: nat, b: seq<byte>)
    requires j < k && 8 <= k <= 11 && |b| >= 100 && b[0] == Choice(k).kind
    requires k == 11 ==> |b| > 133
    ensures Run(Choice(j), b) == NoMatch
  {
    if j < 8 {
      TypeIsNoHeader(b, Choice(j).m, Choice(j).action);
    }
  }

  lemma TypedParses(k: nat, s: seq<byte>, p: Payload)
    requires 8 <= k <= 11 && |s| >= 99 && ReadShape(Choice(k).shape, Core, s) == Matched(p)
    requires k == 11 ==> |s| > 132
    ensures var b := [Choice(k).kind] + s;
      (forall j | 0 <= j < k :: Run(Choice(j), b) == NoMatch) && Parse(b) == Matched(p)
  {
    var b := [Choice(k).kind] + s;
    forall j | 0 <= j < k
      ensures Run(Choice(j), b) == NoMatch
    {
      TypedRefused(j, k, b);
    }
    assert b[1..] == s;
    ParseAt(k, b, p);
  }

  /** If the typed parser meant for some bytes finds bytes left over, so do all the others. */
  lemma TypedFails(s: seq<byte>)
    requires |s| > 132 && ReadNFTTransfer(s) == NoMatch
    ensures (forall j | 0 <= j < CHOICES :: Run(Choice(j), [1] + s) == NoMatch) && Parse([1] + s) == NoMatch
  {
    hide ReadNFTTransfer;
    var b := [1] + s;
    forall j | 0 <= j < CHOICES
      ensures Run(Choice(j), b) == NoMatch
    {
      if j < 11 {
        TypedRefused(j, 11, b);
      } else if j == 11 {
        assert b[1..] == s;
      } else {
        TypeIsNoHeader(b, Choice(j).m, Choice(j).action);
      }
    }
    NothingMatches(Results(b));
  }

  ghost predicate ParsesAtItsPlace(p: Payload)
    requires WellFormed(p)
  {
    && (forall j | 0 <= j < Position(p) :: Run(Choice(j), Serialise(p)) == NoMatch)
    && Parse(Serialise(p)) == if AsciiUri(p) then Matched(Canonical(p)) else NoMatch
  }

  lemma GuardianSetParses(p: Payload)
    requires p.GuardianSetUpgrade? && WellFormed(p)
    ensures ParsesAtItsPlace(p)
  {
    GuardianSetReads(p.chain, p.newIndex, p.keys);
    GovernanceParses(0, BE(p.chain, 2) + (BE(p.newIndex, 4) + ([|p.keys|] + Concat(p.keys))), p);
  }

  lemma UpgradeParses(p: Payload)
    requires p.ContractUpgrade?
    ensures ParsesAtItsPlace(p)
  {
    UpgradeReads(p.m, p.chain, p.address);
    GovernanceParses(Position(p), BE(p.chain, 2) + p.address, p);
  }

  lemma RegisterParses(p: Payload)
    requires p.RegisterChain? && WellFormed(p)
    ensures ParsesAtItsPlace(p)
  {
    RegisterReads(p.m, p.chain, p.emitterChain, p.emitterAddress);
    GovernanceParses(Position(p), BE(p.chain, 2) + (BE(p.emitterChain, 2) + p.emitterAddress), p);
  }

  lemma RecoverParses(p: Payload)
    requires p.RecoverChainId? && WellFormed(p)
    ensures ParsesAtItsPlace(p)
  {
    RecoverReads(p.m, p.evmChainId, p.newChainId);
    GovernanceParses(Position(p), BE(p.evmChainId, 32) + BE(p.newChainId, 2), p);
  }

  lemma SetDefaultParses(p: Payload)
    requires p.SetDefaultDeliveryProvider?
    ensures ParsesAtItsPlace(p)
  {
    UpgradeReads(WormholeRelayer, p.chain, p.provider);
    GovernanceParses(15, BE(p.chain, 2) + p.provider, p);
  }

  lemma TransferParses(p: Payload)
    requires p.TokenTransfer?
    ensures ParsesAtItsPlace(p)
  {
    TransferReads(p);
    TypedParses(Position(p), TransferBytes(p), Canonical(p));
  }

  lemma TransferWithPayloadParses(p: Payload)
    requires p.TransferWithPayload?
    ensures ParsesAtItsPlace(p)
  {
    TransferWithPayloadReads(p);
    TypedParses(Position(p), TransferWithPayloadBytes(p), Canonical(p));
  }

  lemma AttestMetaParses(p: Payload)
    requires p.AttestMeta? && WellFormed(p)
    ensures ParsesAtItsPlace(p)
  {
    AttestMetaReads(p);
    TypedParses(Position(p), AttestMetaBytes(p), Canonical(p));
  }

  lemma NFTTransferParses(p: Payload)
    requires p.NFTTransfer? && WellFormed(p)
    ensures ParsesAtItsPlace(p)
  {
    hide ReadNFTTransfer, NFTTransferBytes, Canonical, AsciiUri;
    NFTTransferReads(p);
    if AsciiUri(p) {
      TypedParses(Position(p), NFTTransferBytes(p), Canonical(p));
    } else {
      TypedFails(NFTTransferBytes(p));
    }
  }

  /** Every serialised payload is refused by all parsers before its own and read back there,
      except that an NFT transfer whose URI is not ASCII is refused by all parsers. */
  lemma ParseOfSerialise(p: Payload)
    requires WellFormed(p)
    ensures forall j | 0 <= j < Position(p) :: Run(Choice(j), Serialise(p)) == NoMatch
    ensures Parse(Serialise(p)) == if AsciiUri(p) then Matched(Canonical(p)) else NoMatch
  {
    assert ParsesAtItsPlace(p) by {
      match p
      case GuardianSetUpgrade(_, _, _) => GuardianSetParses(p);
      case ContractUpgrade(_, _, _) => UpgradeParses(p);
      case RegisterChain(_, _, _, _) => RegisterParses(p);
      case RecoverChainId(_, _, _) => RecoverParses(p);
      case SetDefaultDeliveryProvider(_, _) => SetDefaultParses(p);
      case TokenTransfer(_, _, _, _, _, _) => TransferParses(p);
      case TransferWithPayload(_, _, _, _, _, _, _) => TransferWithPayloadParses(p);
      case AttestMeta(_, _, _, _, _) => AttestMetaParses(p);
      case NFTTransfer(_, _, _, _, _, _, _, _) => NFTTransferParses(p);
    }
  }

  // ---------------------------------------------------------------- re-serialising what was parsed

  /** A text whose leading element is not zero, or that is all zero. */
  predicate Steady(f: seq<int>) {
    f == [] || f[0] != 0 || forall i | 0 <= i < |f| :: f[i] == 0
  }

  lemma {:induction false} FirstNonZeroIs(s: seq<int>)
    ensures forall k | 0 <= k < FirstNonZero(s) :: s[k] == 0
    ensures FirstNonZero(s) > 0 ==> FirstNonZero(s) < |s| && s[FirstNonZero(s)] != 0
    ensures FirstNonZero(s) == 0 <==> Steady(s)
  {
    if s != [] && s[0] == 0 {
      var t := s[1..];
      FirstNonZeroIs(t);
      if FirstNonZero(t) == 0 && t != [] && t[0] == 0 {
        assert forall i | 0 < i < |s| :: s[i] == t[i - 1];
      }
    }
  }

  /** Reading a field and padding it again loses nothing exactly if it is valid UTF-8. */
  lemma PadOfDecoded(f: seq<byte>)
    requires |f| == 32
    ensures var t := Utf8.Decode(f); FitsField(t) && TextField(t) == f <==> Utf8.Valid(f)
  {
    Utf8.DecodeKeepsLength(f);
    Utf8.EncodeOfDecode(f);
  }

  /** Where leading zero bytes are skipped, the field must be steady as well. */
  lemma PadOfUnpadded(f: seq<byte>)
    requires |f| == 32
    ensures var t := Utf8.Decode(Unpadded(f)); FitsField(t) && TextField(t) == f <==> Steady(f) && Utf8.Valid(f)
  {
    FirstNonZeroIs(f);
    var u := Unpadded(f);
    if FirstNonZero(f) > 0 {
      Utf8.EncodeStarts(u);
      hide Utf8.Decode, Utf8.Encode, Utf8.Valid;
      var t := Utf8.Decode(u);
      assert FitsField(t) ==> TextField(t)[0] == Utf8.Encode(t)[0] != f[0];
    } else {
      assert u == f;
      PadOfDecoded(f);
    }
  }

  lemma GuardianSetWrites(s: seq<byte>, p: Payload)
    requires ReadGuardianSet(s) == Matched(p)
    ensures p.GuardianSetUpgrade? && |p.keys| <= 255
    ensures BE(p.chain, 2) + (BE(p.newIndex, 4) + ([|p.keys|] + Concat(p.keys))) == s
  {
    BEOfFromBE(s[..2]);
    BEOfFromBE(s[2..6]);
    assert s == s[..2] + (s[2..6] + ([s[6]] + s[7..]));
  }

  lemma UpgradeWrites(s: seq<byte>, m: Module, p: Payload)
    requires ReadUpgrade(s, m) == Matched(p)
    ensures p.ContractUpgrade? && p.m == m && BE(p.chain, 2) + p.address == s
  {
    BEOfFromBE(s[..2]);
  }

  lemma SetDefaultWrites(s: seq<byte>, p: Payload)
    requires ReadSetDefault(s) == Matched(p)
    ensures p.SetDefaultDeliveryProvider? && BE(p.chain, 2) + p.provider == s
  {
    BEOfFromBE(s[..2]);
  }

  lemma RegisterWrites(s: seq<byte>, m: Module, p: Payload)
    requires ReadRegister(s, m) == Matched(p)
    ensures p.RegisterChain? && p.m == m && BE(p.chain, 2) + (BE(p.emitterChain, 2) + p.emitterAddress) == s
  {
    BEOfFromBE(s[..2]);
    BEOfFromBE(s[2..4]);
    assert s == s[..2] + (s[2..4] + s[4..]);
  }

  lemma RecoverWrites(s: seq<byte>, m: Module, p: Payload)
    requires ReadRecover(s, m) == Matched(p)
    ensures p.RecoverChainId? && p.m == m && BE(p.evmChainId, 32) + BE(p.newChainId, 2) == s
  {
    BEOfFromBE(s[..32]);
    BEOfFromBE(s[32..]);
  }

  lemma HeadWrites(s: seq<byte>, amount: uint256, tokenChain: uint16, chain: uint16)
    requires |s| >= 100 && FromBE(s[..32]) == amount && FromBE(s[64..66]) == tokenChain && FromBE(s[98..100]) == chain
    ensures TransferHead(amount, s[32..64], tokenChain, s[66..98], chain, s[100..]) == s
  {
    BEOfFromBE(s[..32]);
    BEOfFromBE(s[64..66]);
    BEOfFromBE(s[98..100]);
    assert s[98..] == s[98..100] + s[100..];
    assert s[66..] == s[66..98] + s[98..];
    assert s[64..] == s[64..66] + s[66..];
    assert s[32..] == s[32..64] + s[64..];
    assert s == s[..32] + s[32..];
  }

  lemma TransferWrites(s: seq<byte>, p: Payload)
    requires ReadTransfer(s) == Matched(p)
    ensures p.TokenTransfer? && TransferBytes(p) == s
  {
    HeadWrites(s, p.amount, p.tokenChain, p.chain);
    BEOfFromBE(s[100..]);
  }

  lemma TransferWithPayloadWrites(s: seq<byte>, p: Payload)
    requires ReadTransferWithPayload(s) == Matched(p)
    ensures p.TransferWithPayload? && TransferWithPayloadBytes(p) == s
  {
    HeadWrites(s, p.amount, p.tokenChain, p.chain);
    assert s[100..] == s[100..132] + s[132..];
  }

  lemma AttestMetaWrites(s: seq<byte>, p: Payload)
    requires ReadAttestMeta(s) == Matched(p)
    ensures p.AttestMeta? && |s| == 99
    ensures WellFormed(p) && AttestMetaBytes(p) == s <==> Utf8.Valid(s[35..67]) && Utf8.Valid(s[67..])
  {
    BEOfFromBE(s[32..34]);
    PadOfDecoded(s[35..67]);
    PadOfDecoded(s[67..]);
    hide TextField, FitsField, Utf8.Valid, Utf8.Decode, FromBE, BE;
    if WellFormed(p) {
      SameTexts(s, TextField(p.symbol), TextField(p.name));
    }
  }

  lemma SameTexts(s: seq<byte>, f: seq<byte>, g: seq<byte>)
    requires |s| == 99 && |f| == 32 && |g| == 32
    ensures s[..32] + (s[32..34] + ([s[34]] + (f + g))) == s <==> f == s[35..67] && g == s[67..]
  {
    AttestFields(s[..32], s[32..34], s[34], f, g);
    assert s == s[..32] + (s[32..34] + ([s[34]] + (s[35..67] + s[67..])));
  }

  /** The bytes of an NFT transfer around its three strings. */
  lemma NFTFrame(s: seq<byte>, p: Payload)
    requires ReadNFTTransfer(s) == Matched(p) && WellFormed(p)
    ensures p.NFTTransfer? && |s| >= 131 && |s| == 165 + (s[130] as int)
    ensures NFTTransferBytes(p) == s[..34] + (TextField(p.symbol) + (TextField(p.name) + (s[98..130] +
      ([Utf8.Units(p.uri)] + (Utf8.Encode(p.uri) + s[131 + (s[130] as int)..])))))
  {
    var u := 131 + (s[130] as int);
    BEOfFromBE(s[32..34]);
    BEOfFromBE(s[98..130]);
    BEOfFromBE(s[u + 32..]);
    assert s[u..] == s[u..u + 32] + s[u + 32..];
    assert s[..34] == s[..32] + s[32..34];
    hide TextField, Utf8.Units, Utf8.Encode, Utf8.Decode, FromBE, BE, Unpadded;
    Reassociate(s[..32], s[32..34], TextField(p.symbol) + (TextField(p.name) + (s[98..130] +
      ([Utf8.Units(p.uri)] + (Utf8.Encode(p.uri) + s[u..])))));
  }

  lemma SameFields(s: seq<byte>, f: seq<byte>, g: seq<byte>, n: byte, e: seq<byte>)
    requires |s| >= 131 && |s| == 165 + (s[130] as int) && |f| == 32 && |g| == 32
    ensures s[..34] + (f + (g + (s[98..130] + ([n] + (e + s[131 + (s[130] as int)..]))))) == s <==>
      f == s[34..66] && g == s[66..98] && n == s[130] && e == s[131..131 + (s[130] as int)]
  {
    var u := 131 + (s[130] as int);
    var w := s[..34] + (f + (g + (s[98..130] + ([n] + (e + s[u..])))));
    assert w[34..66] == f && w[66..98] == g && w[130] == n && w[131..131 + |e|] == e && |w| == 131 + |e| + (|s| - u);
    assert s == s[..34] + (s[34..66] + (s[66..98] + (s[98..130] + ([s[130]] + (s[131..u] + s[u..])))));
  }

  /** A URI is written as it was read exactly if it is all ASCII. */
  lemma UriWrites(raw: seq<byte>)
    ensures var t := Utf8.Decode(raw);
      Utf8.Units(t) <= |raw| && (Utf8.Encode(t) == raw && Utf8.Units(t) == |raw| <==> Utf8.AllAscii(raw))
  {
    var t := Utf8.Decode(raw);
    Utf8.DecodedUnits(raw);
    Utf8.UnitsAreBytes(t);
    if Utf8.AllAscii(raw) {
      Utf8.AsciiIsValid(raw);
      Utf8.EncodeOfDecode(raw);
    }
  }

  lemma NFTTransferWrites(s: seq<byte>, p: Payload)
    requires ReadNFTTransfer(s) == Matched(p)
    ensures p.NFTTransfer? && |s| >= 131 && |s| == 165 + (s[130] as int)
    ensures WellFormed(p) && NFTTransferBytes(p) == s <==>
      && Steady(s[34..66]) && Utf8.Valid(s[34..66]) && Steady(s[66..98]) && Utf8.Valid(s[66..98])
      && Utf8.AllAscii(s[131..131 + (s[130] as int)])
  {
    PadOfUnpadded(s[34..66]);
    PadOfUnpadded(s[66..98]);
    UriWrites(s[131..131 + (s[130] as int)]);
    hide NFTTransferBytes, Steady, TextField, Utf8.Valid, Utf8.Encode, Utf8.Decode, Utf8.Units, FitsField, Unpadded,
      Utf8.AllAscii, FromBE;
    if WellFormed(p) {
      NFTFrame(s, p);
      SameFields(s, TextField(p.symbol), TextField(p.name), Utf8.Units(p.uri), Utf8.Encode(p.uri));
    }
  }

  /** The strings of b, which was read as p, survive being read and written again: they are
      valid UTF-8, those of an NFT transfer do not start with a zero byte unless they have no
      other, and its URI is ASCII. */
  predicate SteadyText(b: seq<byte>, p: Payload) {
    match p
    case AttestMeta(_, _, _, _, _) => |b| == 100 && Utf8.Valid(b[36..68]) && Utf8.Valid(b[68..])
    case NFTTransfer(_, _, _, _, _, _, _, _) =>
      && |b| >= 132 && |b| == 166 + (b[131] as int)
      && Steady(b[35..67]) && Utf8.Valid(b[35..67]) && Steady(b[67..99]) && Utf8.Valid(b[67..99])
      && Utf8.AllAscii(b[132..132 + (b[131] as int)])
    case _ => true
  }

  /** The header or type byte that belongs to a parser's fields. */
  predicate FrontFits(c: Parser) {
    match c
    case Governance(shape, m, action) =>
      (match shape
       case GuardianSetShape => m == Core && action == 2
       case UpgradeShape => action == UpgradeAction(m)
       case RegisterShape => m != Core && action == 1
       case RecoverShape => m != WormholeRelayer && action == RecoverAction(m)
       case SetDefaultShape => m == WormholeRelayer && action == 3
       case _ => false)
    case Typed(shape, kind) =>
      (match shape
       case TransferShape => kind == 1
       case TransferPayloadShape => kind == 3
       case AttestShape => kind == 2
       case NFTShape => kind == 1
       case _ => false)
  }

  lemma ChoiceFits(k: nat)
    requires k < CHOICES
    ensures FrontFits(Choice(k))
  {
  }

  /** A parser that matches has found its header or type byte and then its fields. */
  lemma RunMatches(c: Parser, b: seq<byte>, p: Payload)
    requires Run(c, b) == Matched(p)
    ensures c.Governance? ==>
      |b| >= 33 && b == Header(c.m, c.action) + b[33..] && ReadShape(c.shape, c.m, b[33..]) == Matched(p)
    ensures c.Typed? ==> |b| >= 1 && b == [c.kind] + b[1..] && ReadShape(c.shape, Core, b[1..]) == Matched(p)
  {
  }

  lemma GovernanceWrites(c: Parser, s: seq<byte>, p: Payload)
    requires c.Governance? && FrontFits(c) && ReadShape(c.shape, c.m, s) == Matched(p)
    ensures WellFormed(p) && !p.NFTTransfer? && !p.AttestMeta? && Serialise(p) == Header(c.m, c.action) + s
  {
    match c.shape
    case GuardianSetShape => GuardianSetWrites(s, p);
    case UpgradeShape => UpgradeWrites(s, c.m, p);
    case RegisterShape => RegisterWrites(s, c.m, p);
    case RecoverShape => RecoverWrites(s, c.m, p);
    case SetDefaultShape => SetDefaultWrites(s, p);
  }

  lemma NFTWrites(b: seq<byte>, s: seq<byte>, p: Payload)
    requires b == [1] + s && ReadNFTTransfer(s) == Matched(p)
    ensures WellFormed(p) && Serialise(p) == b <==> SteadyText(b, p)
  {
    NFTTransferWrites(s, p);
    hide ReadNFTTransfer, NFTTransferBytes, WellFormed, Steady, Utf8.Valid, Utf8.AllAscii;
    assert b[35..67] == s[34..66] && b[67..99] == s[66..98];
    assert b[132..132 + (b[131] as int)] == s[131..131 + (s[130] as int)];
    assert b[1..] == s;
    assert WellFormed(p) ==> ([1] + NFTTransferBytes(p))[1..] == NFTTransferBytes(p);
  }

  lemma AttestWrites(b: seq<byte>, s: seq<byte>, p: Payload)
    requires b == [2] + s && ReadAttestMeta(s) == Matched(p)
    ensures WellFormed(p) && Serialise(p) == b <==> SteadyText(b, p)
  {
    AttestMetaWrites(s, p);
    hide ReadAttestMeta, AttestMetaBytes, WellFormed, Utf8.Valid;
    assert b[36..68] == s[35..67] && b[68..] == s[67..];
    assert b[1..] == s;
    assert WellFormed(p) ==> ([2] + AttestMetaBytes(p))[1..] == AttestMetaBytes(p);
  }

  lemma TypedWrites(c: Parser, s: seq<byte>, p: Payload)
    requires c.Typed? && FrontFits(c) && ReadShape(c.shape, Core, s) == Matched(p)
    ensures WellFormed(p) && Serialise(p) == [c.kind] + s <==> SteadyText([c.kind] + s, p)
  {
    match c.shape
    case TransferShape => TransferWrites(s, p);
    case TransferPayloadShape => TransferWithPayloadWrites(s, p);
    case AttestShape => AttestWrites([c.kind] + s, s, p);
    case NFTShape => NFTWrites([c.kind] + s, s, p);
  }

  lemma {:induction false} SomeMatch(rs: seq<Try<Payload>>) returns (k: nat)
    requires FirstMatch(rs).Matched?
    ensures k < |rs| && rs[k] == FirstMatch(rs)
  {
    if rs[0].NoMatch? {
      var i := SomeMatch(rs[1..]);
      k := i + 1;
    } else {
      k := 0;
    }
  }

  /** Whatever bytes parse as p, p serialises to them again, exactly if its text is steady. */
  lemma SerialiseOfParse(b: seq<byte>, p: Payload)
    requires Parse(b) == Matched(p)
    ensures WellFormed(p) && Serialise(p) == b <==> SteadyText(b, p)
  {
    var k := SomeMatch(Results(b));
    var c := Choice(k);
    ChoiceFits(k);
    RunMatches(c, b, p);
    if c.Governance? {
      GovernanceWrites(c, b[33..], p);
    } else {
      TypedWrites(c, b[1..], p);
    }
  }

  // ---------------------------------------------------------------- both ways, from a payload

  predicate IsAscii(t: Utf8.JsString) { forall i | 0 <= i < |t| :: t[i] < 128 }

  lemma {:induction false} AsciiEncodes(t: Utf8.JsString)
    ensures Utf8.AllAscii(Utf8.Encode(t)) <==> IsAscii(t)
  {
    if t != [] {
      AsciiEncodes(t[1..]);
      Utf8.EncodedAscii(t[0]);
      hide Utf8.EncodeOne;
      var e, rest := Utf8.EncodeOne(t[0]), Utf8.Encode(t[1..]);
      assert Utf8.Encode(t)[..|e|] == e && Utf8.Encode(t)[|e|..] == rest;
      Utf8.AllAsciiAppend(e, rest);
      assert t == [t[0]] + t[1..];
    }
  }

  lemma SteadyField(t: Utf8.JsString)
    requires FitsField(t)
    ensures Utf8.Valid(TextField(t)) && (Steady(TextField(t)) <==> Steady(t))
  {
    var u := Padded(t);
    TextFieldIsPadded(t);
    Utf8.DecodeOfEncode(u);
    StrippedBytes(u);
    FirstNonZeroIs(TextField(t));
    FirstNonZeroIs(u);
    assert t != [] ==> u[0] == t[0];
    assert forall i | 0 <= i < |t| :: t[i] == u[i];
  }

  /** What a caller can see of a payload before serialising it: the URI of an NFT transfer is
      ASCII, and its symbol and name do not start with NUL unless they are all NUL. */
  predicate SteadyStrings(p: Payload) {
    p.NFTTransfer? ==> IsAscii(p.uri) && Steady(p.symbol) && Steady(p.name)
  }

  /** Serialising, parsing and serialising again gives the same bytes exactly then. */
  lemma SerialiseParseSerialise(p: Payload)
    requires WellFormed(p)
    ensures var r := Parse(Serialise(p));
      r.Matched? && WellFormed(r.value) && Serialise(r.value) == Serialise(p) <==> SteadyStrings(p)
  {
    ParseOfSerialise(p);
    if p.NFTTransfer? {
      AsciiEncodes(p.uri);
    }
    if AsciiUri(p) {
      SerialiseOfParse(Serialise(p), Canonical(p));
      SteadyTextOf(p);
    }
  }

  lemma SteadyTextOf(p: Payload)
    requires WellFormed(p) && AsciiUri(p)
    ensures SteadyText(Serialise(p), Canonical(p)) <==> SteadyStrings(p)
  {
    if p.NFTTransfer? {
      NFTTextAt(p);
      SteadyField(p.symbol);
      SteadyField(p.name);
      AsciiEncodes(p.uri);
      Utf8.UnitsAreBytes(p.uri);
    } else if p.AttestMeta? {
      AttestTextAt(p);
      SteadyField(p.symbol);
      SteadyField(p.name);
    }
  }

  lemma NFTTextAt(p: Payload)
    requires p.NFTTransfer? && WellFormed(p)
    ensures var b, e := Serialise(p), Utf8.Encode(p.uri);
      && |b| == 166 + |e| && b[35..67] == TextField(p.symbol) && b[67..99] == TextField(p.name)
      && b[131] == Utf8.Units(p.uri) && b[132..132 + |e|] == e
  {
    NFTBytesAt(p);
    hide NFTTransferBytes, TextField, Utf8.Encode, Utf8.Units, BE, WellFormed;
    var s := NFTTransferBytes(p);
    Shifted(1, s, 34, 66);
    Shifted(1, s, 66, 98);
    Shifted(1, s, 131, 131 + |Utf8.Encode(p.uri)|);
  }

  lemma Shifted(t: byte, s: seq<byte>, i: nat, j: nat)
    requires i <= j <= |s|
    ensures ([t] + s)[i + 1..j + 1] == s[i..j]
  {
  }

  lemma AttestTextAt(p: Payload)
    requires p.AttestMeta? && WellFormed(p)
    ensures var b := Serialise(p); |b| == 100 && b[36..68] == TextField(p.symbol) && b[68..] == TextField(p.name)
  {
    hide AttestMetaBytes, TextField, WellFormed, BE;
    AttestBytesAt(p);
    Shifted(2, AttestMetaBytes(p), 35, 67);
    Shifted(2, AttestMetaBytes(p), 67, 99);
  }

  // ---------------------------------------------------------------- where text does not survive

  function Nft(symbol: Utf8.JsString, id: uint256, uri: Utf8.JsString): Payload {
    NFTTransfer(Zeros(32), 0, symbol, [], id, uri, Zeros(32), 0)
  }

  /** The symbol "\0A" loses its first character. */
  lemma LeadingZeroLost(id: uint256)
    ensures var p := Nft([0, 65], id, []);
      && WellFormed(p) && Parse(Serialise(p)).Matched?
      && Parse(Serialise(p)).value.NFTTransfer? && Parse(Serialise(p)).value.symbol == [65] + Nuls(30)
  {
    var p := Nft([0, 65], id, []);
    assert Utf8.Encode([0, 65]) == [0, 65];
    ParseOfSerialise(p);
    assert Padded(p.symbol) == [0] + ([65] + Nuls(30));
    StripOne([65] + Nuls(30));
  }

  lemma StripOne(t: Utf8.JsString)
    requires t != [] && t[0] != 0
    ensures Stripped([0] + t) == t
  {
    var s: seq<int> := [0] + t;
    assert s[1..] == t && s[1] != 0;
    assert FirstNonZero(s[1..]) == 0;
  }

  /** An NFT transfer whose URI is the one character U+00E9, two bytes in UTF-8, is not read back. */
  lemma AccentedUriRefused(id: uint256)
    ensures var p := Nft([], id, [0xE9]); WellFormed(p) && Parse(Serialise(p)) == NoMatch
  {
    var p := Nft([], id, [0xE9]);
    assert Utf8.Encode([0xE9]) == [0xC3, 0xA9];
    assert Utf8.Encode(p.uri)[0] == 0xC3;
    ParseOfSerialise(p);
  }

  /** An attestation whose symbol starts with byte FF, which is no UTF-8, is not written as it was read. */
  lemma InvalidSymbolReplaced()
    ensures var b := [2] + (Zeros(35) + ([0xFF] + Zeros(63)));
      && Parse(b).Matched? && !(WellFormed(Parse(b).value) && Serialise(Parse(b).value) == b)
  {
    var s := Zeros(35) + ([0xFF] + Zeros(63));
    var b := [2] + s;
    var p := ReadAttestMeta(s).value;
    TypedParses(10, s, p);
    assert b[36..68][0] == 0xFF;
    assert !Utf8.Valid(b[36..68]);
    SerialiseOfParse(b, p);
  }
}
