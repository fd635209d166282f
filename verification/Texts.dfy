/** Numbers and bytes as text: how decimal and hexadecimal digits are written and read. */
module Texts {
  import opened Binary
  import opened Vaa
  import opened Keys

  const HEX_DIGITS := Ascii("0123456789abcdef")

  /** Two lower-case digits for each byte, the higher one first. */
  lemma {:induction false} HexSpelt(s: seq<byte>, i: nat)
    requires i < |s|
    ensures |Hex(s)| == 2 * |s| && Hex(s)[2 * i] == HEX_DIGITS[s[i] / 16] && Hex(s)[2 * i + 1] == HEX_DIGITS[s[i] % 16]
  {
    DigitSpelt(s[i] / 16);
    DigitSpelt(s[i] % 16);
    hide HexDigit, Ascii;
    if i > 0 {
      HexSpelt(s[1..], i - 1);
    }
  }

  lemma DigitSpelt(d: nat)
    requires d < 16
    ensures HexDigit(d) == HEX_DIGITS[d]
  {
  }

  function Pow10(k: nat): (p: nat)
    ensures p > 0
  {
    if k == 0 then 1 else 10 * Pow10(k - 1)
  }

  lemma DivDiv(n: nat, p: nat)
    requires p > 0
    ensures n / (10 * p) == (n / 10) / p
  {
    var q, r := (n / 10) / p, (n / 10) % p;
    assert n / 10 == q * p + r;
    var rest := 10 * r + n % 10;
    assert n == q * (10 * p) + rest && 0 <= rest < 10 * p;
    Quotient(n, 10 * p, q, rest);
  }

  lemma Quotient(n: int, m: int, q: int, r: int)
    requires m > 0 && n == q * m + r && 0 <= r < m
    ensures n / m == q
  {
    var d := n / m;
    assert n == d * m + n % m;
    assert (q - d) * m == n % m - r;
    assert q - d >= 1 ==> (q - d) * m >= m;
    assert q - d <= -1 ==> (q - d) * m <= -m;
  }

  /** Digit k from the right is the one that stands for the k-th power of ten. */
  lemma {:induction false} DecSpelt(n: nat, k: nat)
    requires k < |Dec(n)|
    ensures Dec(n)[|Dec(n)| - 1 - k] == HEX_DIGITS[n / Pow10(k) % 10]
    decreases k
  {
    if k > 0 {
      DecSpelt(n / 10, k - 1);
      DivDiv(n, Pow10(k - 1));
    }
    DigitSpelt(n / Pow10(k) % 10);
  }

  /** And there are as many digits as it takes. */
  lemma {:induction false} DecLength(n: nat)
    ensures n < Pow10(|Dec(n)|) && (|Dec(n)| == 1 || Pow10(|Dec(n)| - 1) <= n)
  {
    if n >= 10 {
      DecLength(n / 10);
      assert |Dec(n)| == |Dec(n / 10)| + 1;
    }
  }

  const UPPER_DIGITS := Ascii("0123456789ABCDEF")

  ghost predicate StandsFor(c: byte, d: nat)
    requires d < 16
  {
    c == HEX_DIGITS[d] || c == UPPER_DIGITS[d]
  }

  lemma ValueReads(c: byte, d: nat)
    requires d < 16
    ensures HexValue(c) == Some(d) <==> StandsFor(c, d)
  {
  }

  ghost predicate Spells(t: Text, s: seq<byte>) {
    && |t| == 2 * |s|
    && forall i | 0 <= i < |s| :: StandsFor(t[2 * i], s[i] / 16) && StandsFor(t[2 * i + 1], s[i] % 16)
  }

  lemma SpellsStep(t: Text, s: seq<byte>)
    requires |t| >= 2 && s != []
    ensures Spells(t, s) <==>
      Spells(t[2..], s[1..]) && StandsFor(t[0], s[0] / 16) && StandsFor(t[1], s[0] % 16)
  {
    hide StandsFor;
    if Spells(t, s) {
      assert StandsFor(t[2 * 0], s[0] / 16) && StandsFor(t[2 * 0 + 1], s[0] % 16);
      forall i | 0 <= i < |s| - 1
        ensures StandsFor(t[2..][2 * i], s[1..][i] / 16) && StandsFor(t[2..][2 * i + 1], s[1..][i] % 16)
      {
        assert s[i + 1] == s[1..][i] && t[2 * (i + 1)] == t[2..][2 * i] && t[2 * (i + 1) + 1] == t[2..][2 * i + 1];
      }
    }
    if Spells(t[2..], s[1..]) && StandsFor(t[0], s[0] / 16) && StandsFor(t[1], s[0] % 16) {
      forall i | 0 <= i < |s|
        ensures StandsFor(t[2 * i], s[i] / 16) && StandsFor(t[2 * i + 1], s[i] % 16)
      {
        if i > 0 {
          assert s[i] == s[1..][i - 1] && t[2 * i] == t[2..][2 * (i - 1)] && t[2 * i + 1] == t[2..][2 * (i - 1) + 1];
        }
      }
    }
  }

  lemma FromHexStep(t: Text, s: seq<byte>)
    requires |t| >= 2 && s != []
    ensures FromHex(t) == Some(s) <==>
      && HexValue(t[0]) == Some(s[0] / 16) && HexValue(t[1]) == Some(s[0] % 16) && FromHex(t[2..]) == Some(s[1..])
  {
    hide HexValue;
    assert s == [s[0]] + s[1..];
  }

  /** Hexadecimal text is read digit by digit, in either case. */
  lemma {:induction false} FromHexReads(t: Text, s: seq<byte>)
    ensures FromHex(t) == Some(s) <==> Spells(t, s)
  {
    hide HexValue, StandsFor;
    if |t| >= 2 && s != [] {
      hide FromHex, Spells;
      FromHexStep(t, s);
      SpellsStep(t, s);
      FromHexReads(t[2..], s[1..]);
      ValueReads(t[0], s[0] / 16);
      ValueReads(t[1], s[0] % 16);
    }
  }

  /** An address may leave out its leading zeros and may have "0x" in front. */
  lemma AddressReads(t: Text, a: Address)
    ensures StringToAddress(t) == Some(a) <==>
      && |t| >= 2
      && var digits := if t[..2] == Ascii("0x") then t[2..] else t;
      exists n :: 0 <= n <= 32 && (forall i | 0 <= i < n :: a[i] == 0) && FromHex(digits) == Some(a[n..])
  {
    hide FromHex;
    if |t| >= 2 {
      var digits := if t[..2] == Ascii("0x") then t[2..] else t;
      assert t[..2] == Ascii("0x") <==> t[0] == 48 && t[1] == 120;
      assert digits == TrimHexPrefix(t);
      var b := FromHex(digits);
      if StringToAddress(t) == Some(a) {
        var n := 32 - |b.value|;
        assert a[n..] == b.value;
        assert forall i | 0 <= i < n :: a[i] == 0;
      }
      if n :| 0 <= n <= 32 && (forall i | 0 <= i < n :: a[i] == 0) && FromHex(digits) == Some(a[n..]) {
        assert Zeros(n) + a[n..] == a;
      }
    }
  }

  // ---------------------------------------------------------------- numbers and ids as they are read

  /** A text has a value exactly if it is made of digits, and the first digit weighs most. */
  lemma {:induction false} DigitsRead(t: Text)
    ensures Digits(t).Some? <==> forall i | 0 <= i < |t| :: 48 <= t[i] < 58
    ensures Digits(t).Some? && t != [] ==>
      && Digits(t[1..]).Some?
      && Digits(t).value == (t[0] - 48) * Pow10(|t| - 1) + Digits(t[1..]).value
  {
    if t != [] {
      var n := |t| - 1;
      var front := t[..n];
      DigitsRead(front);
      if Digits(t).Some? && n > 0 {
        assert front[1..] == t[1..][..n - 1] && t[1..][n - 1] == t[n];
        Tens(t[0] - 48, Pow10(n - 1), Digits(front[1..]).value);
      }
    }
  }

  lemma Tens(a: int, p: int, r: int)
    ensures 10 * (a * p + r) == a * (10 * p) + 10 * r
  {
  }

  function Join(parts: seq<Text>): Text
    requires parts != []
  {
    if |parts| == 1 then parts[0] else parts[0] + [SLASH] + Join(parts[1..])
  }

  /** Splitting takes a text apart at its slashes. */
  lemma {:induction false} SplitJoins(s: Text)
    ensures Join(Split(s)) == s && forall i | 0 <= i < |Split(s)| :: NoSlash(Split(s)[i])
  {
    if s != [] {
      SplitJoins(s[1..]);
      var rest := Split(s[1..]);
      if s[0] == SLASH {
        assert ([[]] + rest)[1..] == rest;
      } else {
        assert ([[s[0]] + rest[0]] + rest[1..])[1..] == rest[1..];
        if |rest| > 1 {
          assert [s[0]] + rest[0] + [SLASH] + Join(rest[1..]) == [s[0]] + (rest[0] + [SLASH] + Join(rest[1..]));
        }
      }
    }
  }

  /** A text names an id: three parts between slashes, of which the outer ones are numbers in range and
      the middle one is an address. */
  ghost predicate NamesId(s: Text, a: Text, b: Text, c: Text, id: VAAID) {
    && NoSlash(a) && NoSlash(b) && NoSlash(c) && s == a + [SLASH] + (b + [SLASH] + c)
    && a != [] && Digits(a) == Some(id.emitterChain) && StringToAddress(b) == Some(id.emitterAddress)
    && c != [] && Digits(c) == Some(id.sequence)
  }

  lemma JoinThree(a: Text, b: Text, c: Text)
    ensures Join([a, b, c]) == a + [SLASH] + (b + [SLASH] + c)
  {
    assert [a, b, c][1..] == [b, c] && [b, c][1..] == [c];
    assert Join([c]) == c && Join([b, c]) == b + [SLASH] + Join([c]);
    assert Join([a, b, c]) == a + [SLASH] + Join([b, c]);
  }

  lemma IdReads(s: Text, id: VAAID)
    ensures VaaIDFromString(s) == Some(id) <==> exists a, b, c :: NamesId(s, a, b, c, id)
  {
    hide Digits, StringToAddress, Split, NoSlash;
    SplitJoins(s);
    var parts := Split(s);
    if |parts| == 3 {
      var a, b, c := parts[0], parts[1], parts[2];
      JoinThree(a, b, c);
      assert parts == [a, b, c];
      assert s == a + [SLASH] + (b + [SLASH] + c);
      assert VaaIDFromString(s) == Some(id) <==> NamesId(s, a, b, c, id);
    }
    forall a, b, c | NamesId(s, a, b, c, id)
      ensures parts == [a, b, c]
    {
      SplitAtSlash(a, b + [SLASH] + c);
      SplitAtSlash(b, c);
      SplitWhole(c);
    }
  }
}
