/** Byte strings, big-endian integers and the machine integer types shared by every codec. */
module Binary {

  type byte = x: int | 0 <= x < 256
  type uint16 = x: int | 0 <= x < 0x1_0000
  type uint32 = x: int | 0 <= x < 0x1_0000_0000
  type uint64 = x: int | 0 <= x < 0x1_0000_0000_0000_0000

  datatype Option<+T> = None | Some(value: T)

  /** 256 to the power w. */
  function Pow256(w: nat): (p: nat)
    ensures p > 0
  {
    if w == 0 then 1 else 256 * Pow256(w - 1)
  }

  /** The w low-order bytes of n, most significant first. A negative or oversized n is
      cut down in two's complement, as a Go conversion to an unsigned type does. */
  function BE(n: int, w: nat): (s: seq<byte>)
    ensures |s| == w
    decreases w, n
  {
    if w == 0 then [] else BE(n / 256, w - 1) + [n % 256]
  }

  /** n needs no more than w bytes. */
  predicate Fits(n: nat, w: nat)
    decreases w, n
  {
    if w == 0 then n == 0 else Fits(n / 256, w - 1)
  }

  /** The number a big-endian byte string stands for. */
  function FromBE(s: seq<byte>): (n: nat)
    ensures Fits(n, |s|)
  {
    if s == [] then 0 else 256 * FromBE(s[..|s| - 1]) + s[|s| - 1]
  }

  lemma {:induction false} FromBEOfBE(n: nat, w: nat)
    requires Fits(n, w)
    ensures FromBE(BE(n, w)) == n
  {
    if w > 0 {
      FromBEOfBE(n / 256, w - 1);
      assert BE(n, w)[..w - 1] == BE(n / 256, w - 1);
    }
  }

  lemma LowByte(n: int, b: byte)
    ensures (256 * n + b) / 256 == n && (256 * n + b) % 256 == b
  {
  }

  lemma {:induction false} BEOfFromBE(s: seq<byte>)
    ensures BE(FromBE(s), |s|) == s
  {
    if s != [] {
      var front, last := s[..|s| - 1], s[|s| - 1];
      var n, f := FromBE(s), FromBE(front);
      assert n == 256 * f + last && BE(n, |s|) == BE(n / 256, |s| - 1) + [n % 256];
      BEOfFromBE(front);
      hide BE, FromBE;
      LowByte(f, last);
      assert s == front + [last];
    }
  }

  lemma {:induction false} FitsBound(n: nat, w: nat)
    ensures Fits(n, w) <==> n < Pow256(w)
  {
    if w > 0 {
      FitsBound(n / 256, w - 1);
    }
  }

  /** The machine integers are the numbers of one, two, four and eight bytes. */
  lemma Widths()
    ensures forall n: nat :: Fits(n, 1) <==> n < 0x100
    ensures forall n: nat :: Fits(n, 2) <==> n < 0x1_0000
    ensures forall n: nat :: Fits(n, 4) <==> n < 0x1_0000_0000
    ensures forall n: nat :: Fits(n, 8) <==> n < 0x1_0000_0000_0000_0000
  {
    forall n: nat
      ensures Fits(n, 1) <==> n < 0x100
      ensures Fits(n, 2) <==> n < 0x1_0000
      ensures Fits(n, 4) <==> n < 0x1_0000_0000
      ensures Fits(n, 8) <==> n < 0x1_0000_0000_0000_0000
    {
      FitsBound(n, 1);
      FitsBound(n, 2);
      FitsBound(n, 4);
      FitsBound(n, 8);
    }
  }

  function Zeros(n: nat): (s: seq<byte>)
    ensures |s| == n && forall i :: 0 <= i < n ==> s[i] == 0
  {
    seq(n, _ => 0)
  }

  /** A reader that takes |a| bytes off the front of a + b gets a and is left with b. */
  lemma CutAppend(a: seq<byte>, b: seq<byte>)
    ensures (a + b)[..|a|] == a && (a + b)[|a|..] == b
  {
  }

  lemma Reassociate(a: seq<byte>, b: seq<byte>, c: seq<byte>)
    ensures (a + b) + c == a + (b + c)
  {
  }
}
