/** The textual message ids and store keys of node/pkg/db/db.go. */
module Keys {
  import opened Binary
  import opened Vaa

  const SLASH: byte := 47

  type Text = seq<byte>

  function Ascii(s: string): (t: Text)
    requires forall i | 0 <= i < |s| :: s[i] < 128 as char
    ensures |t| == |s| && forall i | 0 <= i < |s| :: t[i] == s[i] as int
  {
    seq(|s|, i requires 0 <= i < |s| => s[i] as int)
  }

  predicate NoSlash(s: Text) { SLASH !in s }

  // ---------------------------------------------------------------- decimal and hexadecimal

  predicate IsDigit(b: byte) { 48 <= b < 58 }

  /** The decimal digits of n, without leading zeros. */
  function Dec(n: nat): (s: Text)
    ensures |s| >= 1 && forall i | 0 <= i < |s| :: IsDigit(s[i])
  {
    if n < 10 then [48 + n] else Dec(n / 10) + [48 + n % 10]
  }

  function Digits(s: Text): Option<nat> {
    if s == [] then Some(0)
    else if !IsDigit(s[|s| - 1]) then None
    else match Digits(s[..|s| - 1])
      case None => None
      case Some(n) => Some(10 * n + (s[|s| - 1] - 48))
  }

  /** strconv.ParseUint in base 10 for values below limit. */
  function ParseUint(s: Text, limit: nat): (r: Option<nat>)
    ensures r.Some? ==> r.value < limit
  {
    if s == [] then None
    else match Digits(s)
      case None => None
      case Some(n) => if n < limit then Some(n) else None
  }

  lemma {:induction false} DigitsOfDec(n: nat)
    ensures Digits(Dec(n)) == Some(n)
  {
    if n >= 10 {
      DigitsOfDec(n / 10);
      assert Dec(n)[..|Dec(n)| - 1] == Dec(n / 10);
    } else {
      assert Dec(n)[..0] == [];
    }
  }

  lemma ParseUintOfDec(n: nat, limit: nat)
    ensures ParseUint(Dec(n), limit) == if n < limit then Some(n) else None
  {
    DigitsOfDec(n);
  }

  function HexDigit(d: nat): (b: byte)
    requires d < 16
    ensures 48 <= b < 58 || 97 <= b < 103
  {
    if d < 10 then 48 + d else 87 + d
  }

  /** Both letter cases are accepted. */
  function HexValue(b: byte): (d: Option<nat>)
    ensures d.Some? ==> d.value < 16
  {
    if 48 <= b < 58 then Some(b - 48)
    else if 97 <= b < 103 then Some(b - 87)
    else if 65 <= b < 71 then Some(b - 55)
    else None
  }

  function Hex(s: seq<byte>): (t: Text)
    ensures |t| == 2 * |s| && forall i | 0 <= i < |t| :: 48 <= t[i] < 58 || 97 <= t[i] < 103
  {
    if s == [] then [] else [HexDigit(s[0] / 16), HexDigit(s[0] % 16)] + Hex(s[1..])
  }

  function FromHex(t: Text): Option<seq<byte>> {
    if t == [] then Some([])
    else if |t| == 1 then None
    else match (HexValue(t[0]), HexValue(t[1]), FromHex(t[2..]))
      case (Some(hi), Some(lo), Some(rest)) => Some([16 * hi + lo] + rest)
      case _ => None
  }

  lemma {:induction false} FromHexOfHex(s: seq<byte>)
    ensures FromHex(Hex(s)) == Some(s)
  {
    if s != [] {
      FromHexOfHex(s[1..]);
      assert Hex(s)[2..] == Hex(s[1..]);
      assert HexValue(Hex(s)[0]) == Some(s[0] / 16) && HexValue(Hex(s)[1]) == Some(s[0] % 16);
      assert s == [s[0]] + s[1..];
    }
  }

  lemma HexInjective(a: seq<byte>, b: seq<byte>)
    requires Hex(a) == Hex(b)
    ensures a == b
  {
    FromHexOfHex(a);
    FromHexOfHex(b);
  }

  function TrimHexPrefix(t: Text): Text {
    if |t| >= 2 && t[0] == 48 && t[1] == 120 then t[2..] else t
  }

  function StringToAddress(t: Text): Option<Address> {
    if |t| < 2 then None
    else match FromHex(TrimHexPrefix(t))
      case None => None
      case Some(b) => if |b| > 32 then None else Some(Zeros(32 - |b|) + b)
  }

  // ---------------------------------------------------------------- splitting at slashes

  function Split(s: Text): (parts: seq<Text>)
    ensures |parts| >= 1
  {
    if s == [] then [[]]
    else
      var rest := Split(s[1..]);
      if s[0] == SLASH then [[]] + rest else [[s[0]] + rest[0]] + rest[1..]
  }

  lemma {:induction false} SplitAtSlash(a: Text, b: Text)
    requires NoSlash(a)
    ensures Split(a + [SLASH] + b) == [a] + Split(b)
  {
    var s := a + [SLASH] + b;
    if a == [] {
      assert s[1..] == b;
    } else {
      SplitAtSlash(a[1..], b);
      assert s[1..] == a[1..] + [SLASH] + b;
      assert [a[0]] + a[1..] == a;
      assert ([a[1..]] + Split(b))[1..] == Split(b);
    }
  }

  lemma {:induction false} SplitWhole(a: Text)
    requires NoSlash(a)
    ensures Split(a) == [a]
  {
    if a != [] {
      SplitWhole(a[1..]);
      assert [a[0]] + a[1..] == a;
    }
  }

  /** The text before the first slash is determined by any prefix that reaches past it. */
  lemma FirstSlash(a: Text, x: Text, b: Text, y: Text)
    requires NoSlash(a) && NoSlash(b)
    requires a + [SLASH] + x <= b + [SLASH] + y
    ensures a == b && x <= y
  {
    var s, t := a + [SLASH] + x, b + [SLASH] + y;
    var z := t[|s|..];
    assert t == a + [SLASH] + (x + z);
    SplitAtSlash(a, x + z);
    SplitAtSlash(b, y);
    assert Split(t)[0] == a && Split(t)[0] == b;
    assert y == t[|b| + 1..] == x + z;
  }

  // ---------------------------------------------------------------- message ids

  datatype VAAID = VAAID(emitterChain: uint16, emitterAddress: Address, sequence: uint64)

  const NULL_ADDRESS: Address := Zeros(32)
  const MIN_ID_LENGTH := 68

  function IdOf(v: VAA): VAAID { VAAID(v.emitterChain, v.emitterAddress, v.sequence) }

  /** chain/address/sequence. */
  function MessageID(id: VAAID): (t: Text)
    ensures |t| >= MIN_ID_LENGTH
  {
    Dec(id.emitterChain) + [SLASH] + (Hex(id.emitterAddress) + [SLASH] + Dec(id.sequence))
  }

  function VaaIDFromString(s: Text): Option<VAAID> {
    var parts := Split(s);
    if |parts| != 3 then None
    else match (ParseUint(parts[0], 0x1_0000), StringToAddress(parts[1]), ParseUint(parts[2], 0x1_0000_0000_0000_0000))
      case (Some(chain), Some(address), Some(sequence)) => Some(VAAID(chain, address, sequence))
      case _ => None
  }

  /** Parsing a printed message id gives the id back, for every id. */
  lemma VaaIDFromMessageID(id: VAAID)
    ensures VaaIDFromString(MessageID(id)) == Some(id)
  {
    var c, a, q := Dec(id.emitterChain), Hex(id.emitterAddress), Dec(id.sequence);
    SplitAtSlash(c, a + [SLASH] + q);
    SplitAtSlash(a, q);
    SplitWhole(q);
    assert Split(MessageID(id)) == [c, a, q];
    ParseUintOfDec(id.emitterChain, 0x1_0000);
    ParseUintOfDec(id.sequence, 0x1_0000_0000_0000_0000);
    FromHexOfHex(id.emitterAddress);
    assert Zeros(0) + id.emitterAddress == id.emitterAddress;
  }

  lemma MessageIDInjective(a: VAAID, b: VAAID)
    requires MessageID(a) == MessageID(b)
    ensures a == b
  {
    VaaIDFromMessageID(a);
    VaaIDFromMessageID(b);
  }

  // ---------------------------------------------------------------- store keys

  const SIGNED: Text := Ascii("signed/")

  function KeyOf(id: VAAID): Text { SIGNED + MessageID(id) }

  /** The scan prefix for an emitter; a null address drops the address part. */
  function EmitterPrefix(id: VAAID): Text {
    if id.emitterAddress == NULL_ADDRESS then SIGNED + Dec(id.emitterChain)
    else SIGNED + (Dec(id.emitterChain) + [SLASH] + Hex(id.emitterAddress))
  }

  lemma PrefixDrop(p: Text, a: Text, b: Text)
    ensures p + a <= p + b <==> a <= b
  {
    if p + a <= p + b {
      assert a == (p + a)[|p|..] && b == (p + b)[|p|..];
      assert (p + a) == (p + b)[..|p + a|];
      assert a == b[..|a|];
    }
  }

  lemma KeyInjective(a: VAAID, b: VAAID)
    requires KeyOf(a) == KeyOf(b)
    ensures a == b
  {
    assert MessageID(a) == KeyOf(a)[|SIGNED|..] && MessageID(b) == KeyOf(b)[|SIGNED|..];
    MessageIDInjective(a, b);
  }

  /** For a non-null address the prefix stands for exactly that emitter. */
  lemma EmitterPrefixExact(e: VAAID, id: VAAID)
    requires e.emitterAddress != NULL_ADDRESS
    ensures EmitterPrefix(e) <= KeyOf(id) <==>
      e.emitterChain == id.emitterChain && e.emitterAddress == id.emitterAddress
  {
    var c, a := Dec(e.emitterChain), Hex(e.emitterAddress);
    var c', a', q' := Dec(id.emitterChain), Hex(id.emitterAddress), [SLASH] + Dec(id.sequence);
    assert a' + [SLASH] + Dec(id.sequence) == a' + q';
    PrefixDrop(SIGNED, c + [SLASH] + a, MessageID(id));
    if EmitterPrefix(e) <= KeyOf(id) {
      FirstSlash(c, a, c', a' + q');
      DigitsOfDec(e.emitterChain);
      DigitsOfDec(id.emitterChain);
      assert a == (a' + q')[..64] == a';
      HexInjective(e.emitterAddress, id.emitterAddress);
    }
    if e.emitterChain == id.emitterChain && e.emitterAddress == id.emitterAddress {
      assert MessageID(id) == (c + [SLASH] + a) + q';
    }
  }

  /** n without its last k digits, always keeping the first. */
  function DropDigits(n: nat, k: nat): nat {
    if k == 0 || n < 10 then n else DropDigits(n / 10, k - 1)
  }

  /** The number n, in decimal, starts with the digits of m. */
  ghost predicate StartsWith(n: nat, m: nat) { exists k: nat :: DropDigits(n, k) == m }

  lemma {:induction false} DroppedIsPrefix(n: nat, k: nat)
    ensures Dec(DropDigits(n, k)) <= Dec(n)
  {
    if k > 0 && n >= 10 {
      DroppedIsPrefix(n / 10, k - 1);
      var p := Dec(DropDigits(n, k));
      assert p == Dec(n / 10)[..|p|] == Dec(n)[..|p|];
    }
  }

  lemma {:induction false} PrefixIsDropped(m: nat, n: nat) returns (k: nat)
    requires Dec(m) <= Dec(n)
    ensures DropDigits(n, k) == m
  {
    if |Dec(m)| == |Dec(n)| {
      assert Dec(m) == Dec(n);
      DigitsOfDec(m);
      DigitsOfDec(n);
      k := 0;
    } else {
      assert Dec(m) == Dec(n)[..|Dec(m)|] == Dec(n / 10)[..|Dec(m)|];
      k := PrefixIsDropped(m, n / 10);
      k := k + 1;
    }
  }

  lemma DecPrefix(m: nat, n: nat)
    ensures Dec(m) <= Dec(n) <==> StartsWith(n, m)
  {
    if Dec(m) <= Dec(n) {
      var k := PrefixIsDropped(m, n);
    }
    forall k: nat | DropDigits(n, k) == m
      ensures Dec(m) <= Dec(n)
    {
      DroppedIsPrefix(n, k);
    }
  }

  /** The null-address prefix also reaches every chain whose number starts with the same
      digits: chain 1 covers 10 to 19, 100 and so on. */
  lemma NullPrefixExact(chain: uint16, id: VAAID)
    ensures EmitterPrefix(VAAID(chain, NULL_ADDRESS, 0)) <= KeyOf(id) <==> StartsWith(id.emitterChain, chain)
  {
    var c, c' := Dec(chain), Dec(id.emitterChain);
    PrefixDrop(SIGNED, c, MessageID(id));
    DecPrefix(chain, id.emitterChain);
    var m := MessageID(id);
    assert m[|c'|] == SLASH;
    assert |c| <= |c'| ==> m[..|c|] == c'[..|c|];
  }

  /** So the chain 1 scan is not a scan of chain 1. */
  lemma NullPrefixCounterexample(id: VAAID)
    requires id.emitterChain == 10
    ensures EmitterPrefix(VAAID(1, NULL_ADDRESS, 0)) <= KeyOf(id)
  {
    NullPrefixExact(1, id);
    assert DropDigits(10, 1) == 1;
  }
}
