/** JavaScript strings and their UTF-8 bytes, as clients/js/src/vaa.ts converts them with Buffer.from
    and Buffer.toString. Decoding replaces what is malformed, as the Encoding Standard of the WHATWG
    says: the longest prefix of a valid sequence becomes one U+FFFD. */
module Utf8 {
  import opened Binary

  /** A Unicode scalar value: a code point that is not a surrogate. */
  type Scalar = c: int | 0 <= c < 0x11_0000 && !(0xD800 <= c < 0xE000) witness 0

  /** A well-formed string, that is one without unpaired surrogates. */
  type JsString = seq<Scalar>

  const REPLACEMENT: Scalar := 0xFFFD

  function EncodeOne(c: Scalar): (s: seq<byte>)
    ensures 1 <= |s| <= 4
    ensures |s| == 1 <==> c < 128
  {
    if c < 0x80 then [c]
    else if c < 0x800 then [0xC0 + c / 64, 0x80 + c % 64]
    else if c < 0x1_0000 then [0xE0 + c / 4096, 0x80 + c / 64 % 64, 0x80 + c % 64]
    else [0xF0 + c / 262144, 0x80 + c / 4096 % 64, 0x80 + c / 64 % 64, 0x80 + c % 64]
  }

  function Encode(t: JsString): seq<byte> {
    if t == [] then [] else EncodeOne(t[0]) + Encode(t[1..])
  }

  /** The length that JavaScript reports: the number of 16-bit units. */
  function Units(t: JsString): nat {
    if t == [] then 0 else (if t[0] < 0x1_0000 then 1 else 2) + Units(t[1..])
  }

  // ---------------------------------------------------------------- decoding

  predicate IsTail(b: byte) { 0x80 <= b < 0xC0 }

  /** The bytes that may follow a leading byte of three- and four-byte sequences. */
  predicate IsSecond(lead: byte, b: byte) {
    && (if lead == 0xE0 then 0xA0 else if lead == 0xF0 then 0x90 else 0x80) <= b
    && b < (if lead == 0xED then 0xA0 else if lead == 0xF4 then 0x90 else 0xC0)
  }

  function Join2(a: int, b: int): int { (a - 0xC0) * 64 + (b - 0x80) }

  function Join3(a: int, b: int, c: int): int { (a - 0xE0) * 4096 + (b - 0x80) * 64 + (c - 0x80) }

  function Join4(a: int, b: int, c: int, d: int): int {
    (a - 0xF0) * 262144 + (b - 0x80) * 4096 + (c - 0x80) * 64 + (d - 0x80)
  }

  /** The first scalar value of s and how many bytes it takes; None stands for a replaced prefix. */
  function First(s: seq<byte>): (r: (nat, Option<Scalar>))
    requires s != []
    ensures 1 <= r.0 <= |s| && (r.1.None? ==> r.0 <= 3)
  {
    var b := s[0];
    if b < 0x80 then (1, Some(b))
    else if b < 0xC2 || b >= 0xF5 || |s| < 2 || !(if b < 0xE0 then IsTail(s[1]) else IsSecond(b, s[1])) then (1, None)
    else if b < 0xE0 then (2, Some(Join2(b, s[1])))
    else if |s| < 3 || !IsTail(s[2]) then (2, None)
    else if b < 0xF0 then (3, Some(Join3(b, s[1], s[2])))
    else if |s| < 4 || !IsTail(s[3]) then (3, None)
    else (4, Some(Join4(b, s[1], s[2], s[3])))
  }

  function Decode(s: seq<byte>): JsString
    decreases |s|
  {
    if s == [] then []
    else
      var (n, c) := First(s);
      [if c.Some? then c.value else REPLACEMENT] + Decode(s[n..])
  }

  /** Bytes without anything to replace. */
  predicate Valid(s: seq<byte>)
    decreases |s|
  {
    s == [] || (First(s).1.Some? && Valid(s[First(s).0..]))
  }

  predicate AllAscii(s: seq<byte>) { forall i | 0 <= i < |s| :: s[i] < 128 }

  // ---------------------------------------------------------------- one scalar value

  lemma Split2(a: byte, b: byte)
    requires 0xC2 <= a < 0xE0 && IsTail(b)
    ensures var c := Join2(a, b); 0x80 <= c < 0x800 && EncodeOne(c) == [a, b]
  {
  }

  lemma Split3(a: byte, b: byte, c: byte)
    requires 0xE0 <= a < 0xF0 && IsSecond(a, b) && IsTail(c)
    ensures var x := Join3(a, b, c); 0x800 <= x < 0x1_0000 && !(0xD800 <= x < 0xE000) && EncodeOne(x) == [a, b, c]
  {
    var x := Join3(a, b, c);
    assert x / 64 == ((a as int) - 0xE0) * 64 + ((b as int) - 0x80);
  }

  lemma Split4(a: byte, b: byte, c: byte, d: byte)
    requires 0xF0 <= a < 0xF5 && IsSecond(a, b) && IsTail(c) && IsTail(d)
    ensures var x := Join4(a, b, c, d); 0x1_0000 <= x < 0x11_0000 && EncodeOne(x) == [a, b, c, d]
  {
    Range4(a, b, c, d);
    var x := Join4(a, b, c, d);
    assert x / 262144 == a as int - 0xF0 && x / 4096 % 64 == b as int - 0x80 && x / 64 % 64 == c as int - 0x80
      && x % 64 == d as int - 0x80 by { Digits(a as int - 0xF0, b as int - 0x80, c as int - 0x80, d as int - 0x80); }
    hide Join4;
  }

  lemma Range4(a: byte, b: byte, c: byte, d: byte)
    requires 0xF0 <= a < 0xF5 && IsSecond(a, b) && IsTail(c) && IsTail(d)
    ensures 0x1_0000 <= Join4(a, b, c, d) < 0x11_0000
  {
  }

  lemma Digits(p: int, q: int, r: int, t: int)
    requires 0 <= q < 64 && 0 <= r < 64 && 0 <= t < 64
    ensures var x := p * 262144 + q * 4096 + r * 64 + t;
      x % 64 == t && x / 64 % 64 == r && x / 4096 % 64 == q && x / 262144 == p
  {
    var x := p * 262144 + q * 4096 + r * 64 + t;
    assert x / 64 == 4096 * p + 64 * q + r && x % 64 == t by { Digit(4096 * p + 64 * q + r, t); }
    assert x / 4096 == 64 * p + q by { HighDigits(64 * p + q, 64 * r + t); }
    assert x / 262144 == p by { HighestDigit(p, 4096 * q + 64 * r + t); }
    Digit(64 * p + q, r);
    Digit(p, q);
  }

  lemma HighDigits(high: int, low: int)
    requires 0 <= low < 4096
    ensures (4096 * high + low) / 4096 == high
  {
  }

  lemma HighestDigit(high: int, low: int)
    requires 0 <= low < 262144
    ensures (262144 * high + low) / 262144 == high
  {
  }

  lemma Digit(high: int, low: int)
    requires 0 <= low < 64
    ensures (64 * high + low) / 64 == high && (64 * high + low) % 64 == low
  {
  }

  /** The first scalar value takes up its own encoding. */
  lemma FirstIsEncoded(s: seq<byte>)
    requires s != [] && First(s).1.Some?
    ensures EncodeOne(First(s).1.value) == s[..First(s).0]
  {
    hide Join2, Join3, Join4;
    if s[0] >= 0xF0 {
      Split4(s[0], s[1], s[2], s[3]);
    } else if s[0] >= 0xE0 {
      Split3(s[0], s[1], s[2]);
    } else if s[0] >= 0x80 {
      Split2(s[0], s[1]);
    }
  }

  lemma Encoded2(c: Scalar)
    requires 0x80 <= c < 0x800
    ensures var e := EncodeOne(c); |e| == 2 && 0xC2 <= e[0] < 0xE0 && IsTail(e[1]) && Join2(e[0], e[1]) == c
  {
  }

  lemma Encoded3(c: Scalar)
    requires 0x800 <= c < 0x1_0000
    ensures var e := EncodeOne(c);
      |e| == 3 && 0xE0 <= e[0] < 0xF0 && IsSecond(e[0], e[1]) && IsTail(e[2]) && Join3(e[0], e[1], e[2]) == c
  {
    assert c / 64 == c / 4096 * 64 + c / 64 % 64;
  }

  lemma Encoded4(c: Scalar)
    requires 0x1_0000 <= c
    ensures var e := EncodeOne(c);
      && |e| == 4 && 0xF0 <= e[0] < 0xF5 && IsSecond(e[0], e[1]) && IsTail(e[2]) && IsTail(e[3])
      && Join4(e[0], e[1], e[2], e[3]) == c
  {
    assert c / 4096 == c / 262144 * 64 + c / 4096 % 64;
    assert c / 64 == c / 4096 * 64 + c / 64 % 64;
  }

  /** And an encoding is read as its scalar value, whatever follows. */
  lemma FirstOfEncoded(c: Scalar, rest: seq<byte>)
    ensures First(EncodeOne(c) + rest) == (|EncodeOne(c)|, Some(c))
  {
    if c >= 0x1_0000 {
      Encoded4(c);
    } else if c >= 0x800 {
      Encoded3(c);
    } else if c >= 0x80 {
      Encoded2(c);
    }
    var e := EncodeOne(c);
    hide Join2, Join3, Join4;
    assert forall i | 0 <= i < |e| :: (e + rest)[i] == e[i];
    assert c < 0x80 ==> e == [c];
  }

  /** The first n bytes of s are the beginning of the bytes of a scalar value, but not all of them. */
  ghost predicate Begins(s: seq<byte>, n: nat) {
    n <= |s| && exists c: Scalar :: n < |EncodeOne(c)| && EncodeOne(c)[..n] == s[..n]
  }

  /** The first n bytes of s and the one after them are the beginning of the bytes of c. */
  ghost predicate GoesOn(s: seq<byte>, n: nat, c: Scalar) {
    n < |s| && n < |EncodeOne(c)| && EncodeOne(c)[..n + 1] == s[..n + 1]
  }

  /** What is replaced is a byte that begins nothing, or the longest beginning there is: with the next
      byte it would not begin any scalar value. */
  lemma ReplacesLongest(s: seq<byte>)
    requires s != [] && First(s).1 == None
    ensures var n := First(s).0; (n == 1 || Begins(s, n)) && forall c: Scalar :: !GoesOn(s, n, c)
  {
    hide EncodeOne, Join3, Join4;
    var n := First(s).0;
    if n == 2 && s[0] < 0xF0 {
      Split3(s[0], s[1], 0x80);
      assert EncodeOne(Join3(s[0], s[1], 0x80))[..2] == s[..2];
    } else if n == 2 {
      Split4(s[0], s[1], 0x80, 0x80);
      assert EncodeOne(Join4(s[0], s[1], 0x80, 0x80))[..2] == s[..2];
    } else if n == 3 {
      Split4(s[0], s[1], s[2], 0x80);
      assert EncodeOne(Join4(s[0], s[1], s[2], 0x80))[..3] == s[..3];
    }
    forall c: Scalar
      ensures !GoesOn(s, n, c)
    {
      NotLonger(s, c);
    }
  }

  lemma NotLonger(s: seq<byte>, c: Scalar)
    requires s != [] && First(s).1 == None
    ensures !GoesOn(s, First(s).0, c)
  {
    hide EncodeOne, Join2, Join3, Join4;
    var n, e := First(s).0, EncodeOne(c);
    FirstOfEncoded(c, []);
    assert e + [] == e;
    if GoesOn(s, n, c) {
      assert forall i | 0 <= i <= n :: e[i] == e[..n + 1][i] == s[i];
    }
  }

  // ---------------------------------------------------------------- whole strings

  lemma {:induction false} DecodeOfEncode(t: JsString)
    ensures Decode(Encode(t)) == t && Valid(Encode(t))
  {
    hide First, EncodeOne;
    if t != [] {
      var rest := Encode(t[1..]);
      FirstOfEncoded(t[0], rest);
      DecodeOfEncode(t[1..]);
      assert Encode(t)[|EncodeOne(t[0])|..] == rest;
      assert t == [t[0]] + t[1..];
    }
  }

  lemma ReplacementBytes()
    ensures EncodeOne(REPLACEMENT) == [0xEF, 0xBF, 0xBD]
  {
  }

  /** Decoding never makes a text shorter in bytes. */
  lemma {:induction false} DecodeKeepsLength(s: seq<byte>)
    ensures |Encode(Decode(s))| >= |s|
    decreases |s|
  {
    hide First, EncodeOne;
    if s != [] {
      var (n, c) := First(s);
      DecodeKeepsLength(s[n..]);
      ReplacementBytes();
      if c.Some? { FirstIsEncoded(s); }
      EncodeCons(if c.Some? then c.value else REPLACEMENT, Decode(s[n..]));
    }
  }

  lemma EncodeCons(c: Scalar, t: JsString)
    ensures Encode([c] + t) == EncodeOne(c) + Encode(t)
  {
    assert ([c] + t)[1..] == t;
  }

  /** Encoding again gives the bytes back exactly if there was nothing to replace. */
  lemma {:induction false} EncodeOfDecode(s: seq<byte>)
    ensures Encode(Decode(s)) == s <==> Valid(s)
    decreases |s|
  {
    hide First, EncodeOne;
    if s != [] {
      var (n, c) := First(s);
      var t := Decode(s[n..]);
      EncodeOfDecode(s[n..]);
      if c.Some? {
        FirstIsEncoded(s);
        EncodeCons(c.value, t);
        assert s == s[..n] + s[n..];
        assert (s[..n] + Encode(t))[n..] == Encode(t);
      } else {
        EncodeCons(REPLACEMENT, t);
        ReplacementBytes();
        if Encode(Decode(s)) == s {
          FirstOfEncoded(REPLACEMENT, Encode(t));
        }
      }
    }
  }

  // ---------------------------------------------------------------- units and ASCII

  lemma {:induction false} UnitsAtMost(t: JsString)
    ensures Units(t) <= |Encode(t)|
  {
    if t != [] { UnitsAtMost(t[1..]); }
  }

  lemma EncodedAscii(c: Scalar)
    ensures AllAscii(EncodeOne(c)) <==> c < 128
  {
    assert EncodeOne(c)[0] < 128 <==> c < 128;
  }

  lemma AllAsciiAppend(a: seq<byte>, b: seq<byte>)
    ensures AllAscii(a + b) <==> AllAscii(a) && AllAscii(b)
  {
    assert forall i | 0 <= i < |a| :: (a + b)[i] == a[i];
    assert forall i | 0 <= i < |b| :: (a + b)[|a| + i] == b[i];
  }

  /** A string is as many units as bytes long exactly if it is ASCII. */
  lemma {:induction false} UnitsAreBytes(t: JsString)
    ensures Units(t) == |Encode(t)| <==> AllAscii(Encode(t))
  {
    if t != [] {
      var e, rest := EncodeOne(t[0]), Encode(t[1..]);
      UnitsAreBytes(t[1..]);
      UnitsAtMost(t[1..]);
      if AllAscii(Encode(t)) {
        assert forall i | 0 <= i < |rest| :: rest[i] == Encode(t)[|e| + i];
        assert Encode(t)[0] == e[0];
      }
    }
  }

  lemma {:induction false} DecodedUnits(s: seq<byte>)
    ensures Units(Decode(s)) <= |s|
    decreases |s|
  {
    hide EncodeOne;
    if s != [] {
      var (n, c) := First(s);
      DecodedUnits(s[n..]);
      var d := if c.Some? then c.value else REPLACEMENT;
      assert ([d] + Decode(s[n..]))[1..] == Decode(s[n..]);
    }
  }

  lemma {:induction false} AsciiIsValid(s: seq<byte>)
    requires AllAscii(s)
    ensures Valid(s)
  {
    if s != [] {
      AsciiIsValid(s[1..]);
    }
  }

  /** ASCII text in front of or behind valid text keeps it valid. */
  lemma {:induction false} ValidAppend(a: seq<byte>, b: seq<byte>)
    requires Valid(a) && Valid(b)
    ensures Valid(a + b)
    decreases |a|
  {
    hide EncodeOne;
    if a == [] {
      assert a + b == b;
    } else {
      var (n, c) := First(a);
      FirstIsEncoded(a);
      assert a + b == EncodeOne(c.value) + (a[n..] + b);
      FirstOfEncoded(c.value, a[n..] + b);
      ValidAppend(a[n..], b);
      assert (a + b)[n..] == a[n..] + b;
    }
  }

  /** The first byte of an encoding is zero exactly for the zero character. */
  lemma EncodeStarts(s: seq<byte>)
    requires s != [] && s[0] != 0
    ensures Encode(Decode(s)) != [] && Encode(Decode(s))[0] != 0
  {
    var (n, c) := First(s);
    EncodeCons(if c.Some? then c.value else REPLACEMENT, Decode(s[n..]));
    if c.Some? { FirstIsEncoded(s); }
  }
}
