/** Lists of hashes kept per chain, and the set of hashes they stand for. An empty hash stands
    for an entry that cannot be told apart from others. */
module Listings {
  import opened Binary
  import opened Keys

  type Lists = map<uint16, seq<Text>>

  predicate ListedAt(l: Lists, c: uint16, i: int, h: Text) { h != [] && c in l && 0 <= i < |l[c]| && l[c][i] == h }

  /** Each hash of the set is in exactly one place, and there are no others. */
  ghost predicate ListsExactly(l: Lists, s: set<Text>) {
    && (forall c, i, h | ListedAt(l, c, i, h) :: h in s)
    && (forall h | h in s :: exists c, i :: ListedAt(l, c, i, h))
    && (forall c, i, d, j, h | ListedAt(l, c, i, h) && ListedAt(l, d, j, h) :: c == d && i == j)
  }

  function Append(l: Lists, c: uint16, h: Text): Lists
    requires c in l
  {
    l[c := l[c] + [h]]
  }

  function RemoveAt(l: Lists, c: uint16, i: nat): Lists
    requires c in l && i < |l[c]|
  {
    l[c := l[c][..i] + l[c][i + 1..]]
  }

  function RemoveFirst(l: Lists, c: uint16, n: nat): Lists
    requires c in l && n <= |l[c]|
  {
    l[c := l[c][n..]]
  }

  lemma AppendAt(l: Lists, c: uint16, h: Text, d: uint16, j: int, g: Text)
    requires c in l
    ensures ListedAt(Append(l, c, h), d, j, g) <==> ListedAt(l, d, j, g) || (d == c && j == |l[c]| && g == h && h != [])
  {
  }

  lemma AppendKeeps(l: Lists, s: set<Text>, c: uint16, h: Text)
    requires ListsExactly(l, s) && c in l && h !in s
    ensures ListsExactly(Append(l, c, h), if h == [] then s else s + {h})
  {
    var l' := Append(l, c, h);
    forall d, j, g
      ensures ListedAt(l', d, j, g) <==> ListedAt(l, d, j, g) || (d == c && j == |l[c]| && g == h && h != [])
    {
      AppendAt(l, c, h, d, j, g);
    }
    hide ListedAt, Append;
    forall g | g in s || (g == h && h != [])
      ensures exists d, j :: ListedAt(l', d, j, g)
    {
      if g in s {
        var d, j :| ListedAt(l, d, j, g);
        assert ListedAt(l', d, j, g);
      } else {
        assert ListedAt(l', c, |l[c]|, g);
      }
    }
  }

  /** The place in l of what is at place j after removing place i. */
  function Before(i: int, j: int): int { if j < i then j else j + 1 }

  lemma RemoveAtAt(l: Lists, c: uint16, i: nat, d: uint16, j: int, g: Text)
    requires c in l && i < |l[c]|
    ensures ListedAt(RemoveAt(l, c, i), d, j, g) <==> ListedAt(l, d, if d == c then Before(i, j) else j, g)
  {
  }

  lemma RemoveAtKeeps(l: Lists, s: set<Text>, c: uint16, i: nat)
    requires ListsExactly(l, s) && c in l && i < |l[c]|
    ensures ListsExactly(RemoveAt(l, c, i), s - {l[c][i]})
  {
    var l' := RemoveAt(l, c, i);
    var h := l[c][i];
    assert h != [] ==> ListedAt(l, c, i, h);
    forall d, j, g
      ensures ListedAt(l', d, j, g) <==> ListedAt(l, d, if d == c then Before(i, j) else j, g)
    {
      RemoveAtAt(l, c, i, d, j, g);
    }
    assert forall d, j, g | ListedAt(l', d, j, g) :: g != [];
    hide ListedAt, RemoveAt;
    forall g | g in s - {h}
      ensures exists d, j :: ListedAt(l', d, j, g)
    {
      var d, j :| ListedAt(l, d, j, g);
      assert ListedAt(l', d, if d == c && j > i then j - 1 else j, g);
    }
  }

  lemma RemoveFirstAt(l: Lists, c: uint16, n: nat, d: uint16, j: int, g: Text)
    requires c in l && n <= |l[c]|
    ensures ListedAt(RemoveFirst(l, c, n), d, j, g) <==>
      (d == c ==> j >= 0) && ListedAt(l, d, if d == c then j + n else j, g)
  {
  }

  lemma RemoveFirstKeeps(l: Lists, s: set<Text>, c: uint16, n: nat)
    requires ListsExactly(l, s) && c in l && n <= |l[c]|
    ensures ListsExactly(RemoveFirst(l, c, n), s - set h | h in l[c][..n])
  {
    var l' := RemoveFirst(l, c, n);
    var gone := set h | h in l[c][..n];
    forall g | g in gone && g != []
      ensures exists i :: i < n && ListedAt(l, c, i, g)
    {
      var i :| 0 <= i < n && l[c][..n][i] == g;
      assert ListedAt(l, c, i, g);
    }
    forall d, j, g
      ensures ListedAt(l', d, j, g) <==> (d == c ==> j >= 0) && ListedAt(l, d, if d == c then j + n else j, g)
    {
      RemoveFirstAt(l, c, n, d, j, g);
    }
    forall i, g | ListedAt(l, c, i, g) && i < n
      ensures g in gone
    {
      assert l[c][..n][i] == g;
    }
    assert forall d, j, g | ListedAt(l', d, j, g) :: g != [];
    hide ListedAt, RemoveFirst;
    forall g | g in s - gone
      ensures exists d, j :: ListedAt(l', d, j, g)
    {
      var d, j :| ListedAt(l, d, j, g);
      assert ListedAt(l', d, if d == c then j - n else j, g);
    }
  }
}
