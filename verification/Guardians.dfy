/** Guardian key lists and the first-match search of node/pkg/common/guardianset.go. */
module Guardians {
  import opened Binary
  import opened Vaa

  /** The first position of x in s, or -1. */
  function IndexOf(s: seq<EthAddress>, x: EthAddress): (i: int)
    ensures -1 <= i < |s|
    ensures i >= 0 ==> s[i] == x && forall j | 0 <= j < i :: s[j] != x
    ensures i == -1 <==> x !in s
  {
    if s == [] then -1
    else if s[0] == x then 0
    else
      assert s == [s[0]] + s[1..];
      var i := IndexOf(s[1..], x);
      if i == -1 then -1 else i + 1
  }

  method KeyIndex(keys: seq<EthAddress>, addr: EthAddress) returns (i: int, found: bool)
    ensures i == IndexOf(keys, addr) && found == (addr in keys)
  {
    for n := 0 to |keys|
      invariant addr !in keys[..n]
    {
      if keys[n] == addr { return n, true; }
    }
    return -1, false;
  }
}
