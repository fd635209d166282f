/** What parse of clients/js/src/vaa.ts makes of any bytes at all: which payload it reads from them,
    when it reads past their end, and so when it leaves them alone. */
module PayloadChoice {
  import opened Binary
  import opened Vaa
  import opened JsPayload
  import opened PayloadLayouts
  import Utf8

  ghost predicate NamedModule(b: seq<byte>, m: Module) { |b| >= 32 && b[..32] == PaddedName(m) }

  // ---------------------------------------------------------------- what the bytes say

  /** A text read from a field of an NFT transfer: leading zeros are dropped, unless there is nothing
      else. */
  ghost predicate TextFrom(t: Utf8.JsString, s: seq<byte>) {
    if forall j | 0 <= j < |s| :: s[j] == 0 then t == Utf8.Decode(s)
    else exists k :: LeadingZeros(s, k) && t == Utf8.Decode(s[k..])
  }

  ghost predicate LeadingZeros(s: seq<byte>, k: int) {
    0 <= k < |s| && s[k] != 0 && forall j | 0 <= j < k :: s[j] == 0
  }

  /** The bytes are those of payload p, with its texts decoded. */
  ghost predicate ReadFrom(p: Payload, s: seq<byte>) {
    match p
    case RegisterChain(m, _, _, _) => m != Core && LaidOut(p, s)
    case RecoverChainId(m, _, _) => m != WormholeRelayer && LaidOut(p, s)
    case AttestMeta(tokenAddress, tokenChain, decimals, symbol, name) =>
      && |s| == 100 && s[0] == 2
      && s[1..33] == tokenAddress && FromBE(s[33..35]) == tokenChain && s[35] == decimals
      && symbol == Utf8.Decode(s[36..68]) && name == Utf8.Decode(s[68..100])
    case NFTTransfer(tokenAddress, tokenChain, symbol, name, tokenId, uri, toAddress, chain) =>
      && |s| >= 132 && s[0] == 1
      && var n := 132 + s[131] as int;
      && |s| == n + 34
      && s[1..33] == tokenAddress && FromBE(s[33..35]) == tokenChain && TextFrom(symbol, s[35..67])
      && TextFrom(name, s[67..99]) && FromBE(s[99..131]) == tokenId
      && uri == Utf8.Decode(s[132..n]) && s[n..n + 32] == toAddress && FromBE(s[n + 32..n + 34]) == chain
    case _ => LaidOut(p, s)
  }

  /** The bytes after the module name m end before the fields do that the action asks for. */
  ghost predicate ShortGovernance(b: seq<byte>, m: Module)
    requires |b| >= 33
  {
    var a := b[32];
    || (m == Core && a == 2 && (|b| < 40 || |b| < 40 + 20 * b[39] as int))
    || (m == Core && (a == 1 || a == 5) && |b| < 67)
    || (m != Core && (a == 2 || a == 3) && |b| < 67)
    || (m != Core && a == 1 && |b| < 69)
  }

  /** The bytes end before the fields do. */
  ghost predicate Overruns(b: seq<byte>) {
    || b == []
    || (b[0] == 1 && (|b| < 133 || 133 < |b| < 166 + if |b| > 131 then b[131] as int else 0))
    || (b[0] == 2 && |b| < 100)
    || (b[0] == 3 && |b| < 133)
    || exists m :: NamedModule(b, m) && (|b| == 32 || ShortGovernance(b, m))
  }

  // ---------------------------------------------------------------- the sixteen parsers

  /** The number of the parser for an action of a module. */
  function Place(m: Module, a: byte): Option<nat> {
    match m
    case Core => if a == 2 then Some(0) else if a == 1 then Some(1) else if a == 5 then Some(12) else None
    case TokenBridge => if a == 2 then Some(2) else if a == 1 then Some(5) else if a == 3 then Some(13) else None
    case NFTBridge => if a == 2 then Some(3) else if a == 1 then Some(6) else if a == 3 then Some(14) else None
    case WormholeRelayer => if a == 2 then Some(4) else if a == 1 then Some(7) else if a == 3 then Some(15) else None
  }

  lemma PlaceExact(m: Module, a: byte, k: nat)
    requires k < CHOICES
    ensures Place(m, a) == Some(k) <==> Choice(k).Governance? && Choice(k).m == m && Choice(k).action == a
  {
  }

  lemma {:induction false} OnlyOne(rs: seq<Try<Payload>>, k: nat)
    requires k < |rs| && forall i | 0 <= i < |rs| && i != k :: rs[i].NoMatch?
    ensures FirstMatch(rs) == rs[k]
  {
    if rs[k].NoMatch? {
      NothingMatches(rs);
    } else {
      FirstToMatch(rs, k);
    }
  }

  lemma NotTyped(b: seq<byte>, m: Module)
    requires NamedModule(b, m)
    ensures b[0] == 0
  {
    assert b[0] == b[..32][0];
  }

  lemma RunGovernance(b: seq<byte>, m: Module, k: nat)
    requires NamedModule(b, m) && |b| > 32 && k < CHOICES
    ensures Run(Choice(k), b) ==
      if Place(m, b[32]) == Some(k) then ReadShape(Choice(k).shape, m, b[33..]) else NoMatch
  {
    hide PaddedName, Tag, ReadShape, Choice, Place;
    PlaceExact(m, b[32], k);
    TagIsPadded(m);
    NotTyped(b, m);
    KindIsNotZero(k);
    if Choice(k).Governance? && Choice(k).m != m {
      TagInjective(m, Choice(k).m);
    }
  }

  lemma KindIsNotZero(k: nat)
    requires k < CHOICES
    ensures Choice(k).Typed? ==> Choice(k).kind != 0
  {
  }

  lemma GovernanceParsed(b: seq<byte>, m: Module)
    requires NamedModule(b, m) && |b| > 32
    ensures Parse(b) == match Place(m, b[32])
      case None => NoMatch
      case Some(k) => if k < CHOICES then ReadShape(Choice(k).shape, m, b[33..]) else NoMatch
  {
    hide Run, ReadShape, NamedModule;
    forall k | 0 <= k < CHOICES
      ensures Run(Choice(k), b) ==
        if Place(m, b[32]) == Some(k) then ReadShape(Choice(k).shape, m, b[33..]) else NoMatch
    {
      RunGovernance(b, m, k);
    }
    match Place(m, b[32])
    case None => NothingMatches(Results(b));
    case Some(k) => OnlyOne(Results(b), k);
  }

  lemma NameAlone(b: seq<byte>, m: Module)
    requires NamedModule(b, m) && |b| == 32
    ensures Parse(b) == Overrun
  {
    hide PaddedName, Tag, ReadShape;
    TagIsPadded(m);
    var k := match m case Core => 0 case TokenBridge => 2 case NFTBridge => 3 case WormholeRelayer => 4;
    forall j | 0 <= j < k
      ensures Run(Choice(j), b) == NoMatch
    {
      TagInjective(m, Choice(j).m);
    }
    FirstToMatch(Results(b), k);
  }

  lemma Unnamed(b: seq<byte>, k: nat)
    requires (forall m :: !NamedModule(b, m)) && k < CHOICES && Choice(k).Governance?
    ensures Run(Choice(k), b) == NoMatch
  {
    hide PaddedName, Tag, ReadShape, Choice;
    TagIsPadded(Choice(k).m);
    assert !NamedModule(b, Choice(k).m);
  }

  lemma NothingParsed()
    ensures Parse([]) == Overrun
  {
    hide PaddedName, ReadShape;
    forall j | 0 <= j < 8
      ensures Run(Choice(j), []) == NoMatch
    {
      Unnamed([], j);
    }
    FirstToMatch(Results([]), 8);
  }

  lemma TypedParsed(b: seq<byte>)
    requires (forall m :: !NamedModule(b, m)) && b != []
    ensures Parse(b) ==
      if b[0] == 1 then (if ReadTransfer(b[1..]).NoMatch? then ReadNFTTransfer(b[1..]) else ReadTransfer(b[1..]))
      else if b[0] == 2 then ReadAttestMeta(b[1..])
      else if b[0] == 3 then ReadTransferWithPayload(b[1..])
      else NoMatch
  {
    hide ReadTransfer, ReadNFTTransfer, ReadAttestMeta, ReadTransferWithPayload, NamedModule, Results, TryHeader;
    forall k | 0 <= k < CHOICES && Choice(k).Governance?
      ensures Run(Choice(k), b) == NoMatch
    {
      Unnamed(b, k);
    }
    var rs := Results(b);
    assert forall k | 0 <= k < 8 || 12 <= k < 16 :: Choice(k).Governance? && rs[k].NoMatch?;
    assert rs[8] == (if b[0] == 1 then ReadTransfer(b[1..]) else NoMatch);
    assert rs[9] == (if b[0] == 3 then ReadTransferWithPayload(b[1..]) else NoMatch);
    assert rs[10] == (if b[0] == 2 then ReadAttestMeta(b[1..]) else NoMatch);
    assert rs[11] == (if b[0] == 1 then ReadNFTTransfer(b[1..]) else NoMatch);
    hide Choice, Run;
    if b[0] == 1 && !rs[8].NoMatch? {
      FirstToMatch(rs, 8);
    } else {
      OnlyOne(rs, if b[0] == 1 then 11 else if b[0] == 2 then 10 else 9);
    }
  }

  // ---------------------------------------------------------------- the fields of each shape

  lemma UpgradeReads(b: seq<byte>, m: Module, p: Payload)
    requires Governs(b, m, if m == Core then 1 else 2)
    ensures ReadUpgrade(b[33..], m) == Matched(p) <==> p.ContractUpgrade? && p.m == m && LaidOut(p, b)
    ensures ReadUpgrade(b[33..], m) == Overrun <==> |b| < 67
  {
    hide FromBE, PaddedName;
    if |b| == 67 {
      assert b[33..][..2] == b[33..35] && b[33..][2..] == b[35..67];
    }
  }

  lemma SetDefaultReads(b: seq<byte>, p: Payload)
    requires Governs(b, WormholeRelayer, 3)
    ensures ReadSetDefault(b[33..]) == Matched(p) <==> p.SetDefaultDeliveryProvider? && LaidOut(p, b)
    ensures ReadSetDefault(b[33..]) == Overrun <==> |b| < 67
  {
    hide FromBE, PaddedName;
    if |b| == 67 {
      assert b[33..][..2] == b[33..35] && b[33..][2..] == b[35..67];
    }
  }

  lemma RegisterReads(b: seq<byte>, m: Module, p: Payload)
    requires Governs(b, m, 1)
    ensures ReadRegister(b[33..], m) == Matched(p) <==> p.RegisterChain? && p.m == m && LaidOut(p, b)
    ensures ReadRegister(b[33..], m) == Overrun <==> |b| < 69
  {
    hide FromBE, PaddedName;
    if |b| == 69 {
      assert b[33..][..2] == b[33..35] && b[33..][2..4] == b[35..37] && b[33..][4..] == b[37..69];
    }
  }

  lemma RecoverReads(b: seq<byte>, m: Module, p: Payload)
    requires Governs(b, m, if m == Core then 5 else 3)
    ensures ReadRecover(b[33..], m) == Matched(p) <==> p.RecoverChainId? && p.m == m && LaidOut(p, b)
    ensures ReadRecover(b[33..], m) == Overrun <==> |b| < 67
  {
    hide FromBE, PaddedName;
    if |b| == 67 {
      assert b[33..][..32] == b[33..65] && b[33..][32..] == b[65..67];
    }
  }

  lemma {:induction false} SameKeyList(keys: seq<EthAddress>, more: seq<EthAddress>, s: seq<byte>)
    requires |keys| == |more| && |s| == 20 * |keys| && Concat(more) == s
    ensures keys == more <==> forall k | 0 <= k < |keys| :: s[20 * k..20 * k + 20] == keys[k]
  {
    forall k | 0 <= k < |keys|
      ensures s[20 * k..20 * k + 20] == more[k]
    {
      KeyAt(more, k);
    }
  }

  lemma GuardianSetReads(b: seq<byte>, p: Payload)
    requires Governs(b, Core, 2)
    ensures ReadGuardianSet(b[33..]) == Matched(p) <==> p.GuardianSetUpgrade? && LaidOut(p, b)
    ensures ReadGuardianSet(b[33..]) == Overrun <==> |b| < 40 || |b| < 40 + 20 * b[39] as int
  {
    hide FromBE, PaddedName, Concat, ReadKeys;
    var s := b[33..];
    if |b| >= 40 && |b| == 40 + 20 * b[39] as int {
      assert s[..2] == b[33..35] && s[2..6] == b[35..39] && s[6] == b[39];
      var keys := ReadKeys(s[7..]);
      if p.GuardianSetUpgrade? && |p.keys| == |keys| {
        SameKeyList(p.keys, keys, s[7..]);
        forall k | 0 <= k < |keys|
          ensures s[7..][20 * k..20 * k + 20] == b[40 + 20 * k..60 + 20 * k]
        {
        }
      }
    }
  }

  lemma TransferReads(b: seq<byte>, p: Payload)
    requires b != [] && b[0] == 1
    ensures ReadTransfer(b[1..]) == Matched(p) <==> p.TokenTransfer? && LaidOut(p, b)
    ensures ReadTransfer(b[1..]) == Overrun <==> |b| < 133
    ensures ReadTransfer(b[1..]) == NoMatch <==> |b| > 133
  {
    hide FromBE;
    var s := b[1..];
    if |b| == 133 {
      assert s[..32] == b[1..33] && s[32..64] == b[33..65] && s[64..66] == b[65..67] && s[66..98] == b[67..99];
      assert s[98..100] == b[99..101] && s[100..] == b[101..133];
    }
  }

  lemma TransferWithPayloadReads(b: seq<byte>, p: Payload)
    requires b != [] && b[0] == 3
    ensures ReadTransferWithPayload(b[1..]) == Matched(p) <==> p.TransferWithPayload? && LaidOut(p, b)
    ensures ReadTransferWithPayload(b[1..]) == Overrun <==> |b| < 133
  {
    hide FromBE;
    var s := b[1..];
    if |b| >= 133 {
      assert s[..32] == b[1..33] && s[32..64] == b[33..65] && s[64..66] == b[65..67] && s[66..98] == b[67..99];
      assert s[98..100] == b[99..101] && s[100..132] == b[101..133] && s[132..] == b[133..];
    }
  }

  lemma AttestMetaReads(b: seq<byte>, p: Payload)
    requires b != [] && b[0] == 2
    ensures ReadAttestMeta(b[1..]) == Matched(p) <==> p.AttestMeta? && ReadFrom(p, b)
    ensures ReadAttestMeta(b[1..]) == Overrun <==> |b| < 100
  {
    hide FromBE, Utf8.Decode;
    var s := b[1..];
    if |b| == 100 {
      assert s[..32] == b[1..33] && s[32..34] == b[33..35] && s[34] == b[35] && s[35..67] == b[36..68];
      assert s[67..] == b[68..100];
    }
  }

  lemma {:induction false} FirstNonZeroIs(s: seq<int>)
    ensures if forall j | 0 <= j < |s| :: s[j] == 0 then FirstNonZero(s) == 0
      else 0 <= FirstNonZero(s) < |s| && s[FirstNonZero(s)] != 0 && forall j | 0 <= j < FirstNonZero(s) :: s[j] == 0
  {
    if s != [] && s[0] == 0 {
      FirstNonZeroIs(s[1..]);
      assert forall j | 0 < j < |s| :: s[j] == s[1..][j - 1];
    }
  }

  lemma UnpaddedReads(s: seq<byte>, t: Utf8.JsString)
    ensures t == Utf8.Decode(Unpadded(s)) <==> TextFrom(t, s)
  {
    hide Utf8.Decode;
    FirstNonZeroIs(s);
    if exists j :: 0 <= j < |s| && s[j] != 0 {
      var k := FirstNonZero(s);
      assert LeadingZeros(s, k);
      assert forall l | LeadingZeros(s, l) :: l == k;
    }
  }

  lemma NFTTransferReads(b: seq<byte>, p: Payload)
    requires |b| > 133 && b[0] == 1
    ensures ReadNFTTransfer(b[1..]) == Matched(p) <==> p.NFTTransfer? && ReadFrom(p, b)
    ensures ReadNFTTransfer(b[1..]) == Overrun <==> |b| < 166 + b[131] as int
  {
    hide FromBE, Utf8.Decode, Unpadded, TextFrom;
    var s := b[1..];
    assert s[130] == b[131];
    var n := 132 + b[131] as int;
    if |b| == n + 34 {
      assert s[..32] == b[1..33] && s[32..34] == b[33..35] && s[34..66] == b[35..67] && s[66..98] == b[67..99];
      assert s[98..130] == b[99..131] && s[131..n - 1] == b[132..n] && s[n - 1..n + 31] == b[n..n + 32];
      assert s[n + 31..] == b[n + 32..n + 34];
      if p.NFTTransfer? {
        UnpaddedReads(b[35..67], p.symbol);
        UnpaddedReads(b[67..99], p.name);
      }
    }
  }

  // ---------------------------------------------------------------- all bytes

  /** The module and action of a governance payload. */
  function HeadOf(p: Payload): Option<(Module, byte)> {
    match p
    case GuardianSetUpgrade(_, _, _) => Some((Core, 2))
    case ContractUpgrade(m, _, _) => Some((m, if m == Core then 1 else 2))
    case RegisterChain(m, _, _, _) => Some((m, 1))
    case RecoverChainId(m, _, _) => Some((m, if m == Core then 5 else 3))
    case SetDefaultDeliveryProvider(_, _) => Some((WormholeRelayer, 3))
    case _ => None
  }

  lemma ReadFromHead(p: Payload, b: seq<byte>)
    requires ReadFrom(p, b)
    ensures HeadOf(p).Some? ==> Governs(b, HeadOf(p).value.0, HeadOf(p).value.1)
  {
    hide FromBE, PaddedName, Utf8.Decode, Utf8.Encode, TextFrom;
  }

  lemma ReadFromType(p: Payload, b: seq<byte>)
    requires ReadFrom(p, b) && HeadOf(p) == None
    ensures b != []
    ensures p.TokenTransfer? ==> b[0] == 1 && |b| == 133
    ensures p.NFTTransfer? ==> b[0] == 1 && |b| > 133
    ensures p.AttestMeta? ==> b[0] == 2
    ensures p.TransferWithPayload? ==> b[0] == 3
  {
    hide FromBE, Utf8.Decode, TextFrom;
  }

  lemma OneName(b: seq<byte>, m: Module, n: Module)
    requires NamedModule(b, m) && NamedModule(b, n)
    ensures m == n
  {
    hide PaddedName, Tag;
    TagIsPadded(m);
    TagIsPadded(n);
    if m != n {
      TagInjective(m, n);
    }
  }

  lemma GovernanceExact(b: seq<byte>, m: Module, p: Payload)
    requires NamedModule(b, m) && |b| > 32
    ensures Parse(b) == Matched(p) <==> HeadOf(p) == Some((m, b[32])) && ReadFrom(p, b)
    ensures Parse(b) == Overrun <==> ShortGovernance(b, m)
  {
    hide Parse, LaidOut, PaddedName, ReadUpgrade, ReadRegister, ReadRecover, ReadSetDefault, ReadGuardianSet,
      ReadTransfer, ReadTransferWithPayload, ReadAttestMeta, ReadNFTTransfer;
    GovernanceParsed(b, m);
    match Place(m, b[32])
    case None =>
    case Some(k) =>
      match Choice(k).shape
      case GuardianSetShape => GuardianSetReads(b, p);
      case UpgradeShape => UpgradeReads(b, m, p);
      case RegisterShape => RegisterReads(b, m, p);
      case RecoverShape => RecoverReads(b, m, p);
      case SetDefaultShape => SetDefaultReads(b, p);
  }

  lemma TypedExact(b: seq<byte>, p: Payload)
    requires (forall m :: !NamedModule(b, m)) && b != []
    ensures Parse(b) == Matched(p) <==> HeadOf(p) == None && ReadFrom(p, b)
    ensures Parse(b) == Overrun <==> Overruns(b)
  {
    hide Parse, LaidOut, NamedModule, ReadTransfer, ReadTransferWithPayload, ReadAttestMeta, ReadNFTTransfer;
    TypedParsed(b);
    if ReadFrom(p, b) && HeadOf(p) == None {
      ReadFromType(p, b);
    }
    if b[0] == 1 {
      TransferReads(b, p);
      if |b| > 133 {
        NFTTransferReads(b, p);
      }
    } else if b[0] == 2 {
      AttestMetaReads(b, p);
    } else if b[0] == 3 {
      TransferWithPayloadReads(b, p);
    }
  }

  lemma NamedOverrun(b: seq<byte>, m: Module)
    requires NamedModule(b, m)
    ensures Overruns(b) <==> |b| == 32 || ShortGovernance(b, m)
  {
    hide NamedModule, ShortGovernance;
    NotTyped(b, m);
    assert b != [] by { assert |b| >= 32 by { NameFits(b, m); } }
    forall n | NamedModule(b, n)
      ensures n == m
    {
      OneName(b, m, n);
    }
  }

  lemma NameFits(b: seq<byte>, m: Module)
    requires NamedModule(b, m)
    ensures |b| >= 32
  {
  }

  /** What parse makes of any bytes: it reads payload p from them exactly if they are the bytes of p,
      and it reads past their end exactly if they begin like a payload that it knows and stop too
      soon. From all others it reads no payload. */
  lemma ParsedExactly(b: seq<byte>, p: Payload)
    ensures Parse(b) == Matched(p) <==> ReadFrom(p, b)
    ensures Parse(b) == Overrun <==> Overruns(b)
  {
    hide Parse, LaidOut, ReadFrom, PaddedName, Overruns, ShortGovernance, NamedModule;
    if ReadFrom(p, b) {
      if HeadOf(p).Some? {
        ReadFromHead(p, b);
        GovernsNames(b, HeadOf(p).value.0, HeadOf(p).value.1);
      } else {
        ReadFromType(p, b);
      }
    }
    if m :| NamedModule(b, m) {
      NameFits(b, m);
      NotTyped(b, m);
      NamedOverrun(b, m);
      if |b| == 32 {
        NameAlone(b, m);
      } else {
        GovernanceExact(b, m, p);
        if ReadFrom(p, b) && HeadOf(p).Some? {
          OneName(b, m, HeadOf(p).value.0);
        }
      }
    } else if b == [] {
      NothingParsed();
      EmptyOverruns();
    } else {
      TypedExact(b, p);
    }
  }

  lemma EmptyOverruns()
    ensures Overruns([])
  {
  }

  lemma GovernsNames(b: seq<byte>, m: Module, action: byte)
    requires Governs(b, m, action)
    ensures NamedModule(b, m) && |b| > 32 && b[32] == action
  {
  }
}
