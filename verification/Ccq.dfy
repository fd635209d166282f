/** The cross-chain query server: gossiped guardian responses are gathered per request until
    one answer has a quorum or none can reach it. */
module Ccq {
  import opened Binary
  import opened Vaa
  import opened Guardians
  import opened Sorting

  datatype Request = Request(bytes: seq<byte>, signature: seq<byte>)

  /** A signed response as it arrives from the network. */
  datatype Gossip = Gossip(response: seq<byte>, signature: seq<byte>)

  datatype GuardianSignature = GuardianSignature(index: nat, data: SignatureData)

  /** What the listener knows: the guardian keys, the cryptography, how response bytes decode to
      the request they answer and to their digest, and what the decoded response is written as. */
  datatype Net = Net(
    c: Crypto,
    keys: seq<EthAddress>,
    parse: seq<byte> -> Option<Request>,
    digest: seq<byte> -> Digest,
    remarshal: seq<byte> -> Option<seq<byte>>)

  type Buckets = map<Digest, seq<GuardianSignature>>

  datatype Effect = Ignored | Waits | Forward(signatures: seq<GuardianSignature>) | QuorumNotMet

  function Quorum(net: Net): nat { CalculateQuorum(|net.keys|) }

  // ---------------------------------------------------------------- counting

  /** Signatures held in the buckets of ks. */
  ghost function Total(b: Buckets, ks: set<Digest>): nat
    requires ks <= b.Keys
  {
    if ks == {} then 0 else var d :| d in ks; |b[d]| + Total(b, ks - {d})
  }

  lemma {:induction false} TotalSplit(b: Buckets, ks: set<Digest>, d: Digest)
    requires ks <= b.Keys && d in ks
    ensures Total(b, ks) == |b[d]| + Total(b, ks - {d})
  {
    var e :| e in ks && Total(b, ks) == |b[e]| + Total(b, ks - {e});
    if d != e {
      TotalSplit(b, ks - {e}, d);
      TotalSplit(b, ks - {d}, e);
      assert ks - {e} - {d} == ks - {d} - {e};
    }
  }

  /** The early-failure test: even all outstanding answers would leave every bucket short. */
  ghost predicate Hopeless(b: Buckets, n: nat, q: nat) {
    forall d | d in b :: |b[d]| + (n - Total(b, b.Keys)) < q
  }

  function BucketOf(b: Buckets, d: Digest): seq<GuardianSignature> { if d in b then b[d] else [] }

  predicate Holds(sigs: seq<GuardianSignature>, index: nat) { exists g | g in sigs :: g.index == index }

  /** The signer of a gossiped response: its guardian position, or -1. */
  function SignerOf(net: Net, m: Gossip): (i: int)
    ensures -1 <= i < |net.keys|
  {
    match Ecrecover(net.c, net.digest(m.response), m.signature)
    case None => -1
    case Some(addr) => IndexOf(net.keys, addr)
  }

  /** What is gathered so far for a request. */
  function Held(responses: map<seq<byte>, Buckets>, req: Request): Buckets {
    if req.signature in responses then responses[req.signature] else map[]
  }

  /** And with the signature of m added. */
  function Grown(net: Net, responses: map<seq<byte>, Buckets>, m: Gossip, req: Request): Buckets
    requires SignerOf(net, m) != -1
  {
    var b, d := Held(responses, req), net.digest(m.response);
    b[d := BucketOf(b, d) + [GuardianSignature(SignerOf(net, m), m.signature)]]
  }

  /** One turn of the listener on message m for the pending request req. */
  ghost function Process(net: Net, responses: map<seq<byte>, Buckets>, m: Gossip, req: Request): (map<seq<byte>,
        Buckets>, Effect) {
    var i, d := SignerOf(net, m), net.digest(m.response);
    if net.parse(m.response) != Some(req) || i == -1 then (responses, Ignored)
    else
      if Holds(BucketOf(Held(responses, req), d), i) then (responses, Ignored)
      else
        var b := Grown(net, responses, m, req);
        if |b[d]| >= Quorum(net) then (responses - {req.signature}, Forward(b[d]))
        else if Hopeless(b, |net.keys|, Quorum(net)) then (responses - {req.signature}, QuorumNotMet)
        else (responses[req.signature := b], Waits)
  }

  class Listener {
    const net: Net
    var responses: map<seq<byte>, Buckets>

    constructor (net: Net)
      ensures this.net == net && responses == map[]
    {
      this.net := net;
      responses := map[];
    }

    method Handle(m: Gossip, req: Request) returns (e: Effect)
      modifies this
      ensures (responses, e) == Process(net, old(responses), m, req)
    {
      if net.parse(m.response) != Some(req) { return Ignored; }
      var d := net.digest(m.response);
      var addr := Ecrecover(net.c, d, m.signature);
      if addr.None? { return Ignored; }
      var i, hasIndex := KeyIndex(net.keys, addr.value);
      if !hasIndex { return Ignored; }

      var b: Buckets := if req.signature in responses then responses[req.signature] else map[];
      var found := false;
      for k := 0 to |BucketOf(b, d)|
        invariant !found && forall j | 0 <= j < k :: BucketOf(b, d)[j].index != i
      {
        if BucketOf(b, d)[k].index == i {
          found := true;
          break;
        }
      }
      if found { return Ignored; }
      var sigs := BucketOf(b, d) + [GuardianSignature(i, m.signature)];
      b := b[d := sigs];
      var quorum := Quorum(net);
      if |sigs| >= quorum {
        responses := responses - {req.signature};
        return Forward(sigs);
      }
      assert d in b;
      var hopeless := CannotReachQuorum(b, |net.keys|, quorum);
      if hopeless {
        responses := responses - {req.signature};
        return QuorumNotMet;
      }
      responses := responses[req.signature := b];
      return Waits;
    }
  }

  method CannotReachQuorum(b: Buckets, n: nat, q: nat) returns (r: bool)
    requires b != map[]
    ensures r <==> Hopeless(b, n, q)
  {
    var total, most := 0, 0;
    var todo := b.Keys;
    while todo != {}
      invariant todo <= b.Keys
      invariant total + Total(b, todo) == Total(b, b.Keys)
      invariant forall d | d in b.Keys - todo :: |b[d]| <= most
      invariant most == 0 || exists d | d in b :: |b[d]| == most
    {
      var d :| d in todo;
      TotalSplit(b, todo, d);
      total := total + |b[d]|;
      if |b[d]| > most { most := |b[d]|; }
      todo := todo - {d};
    }
    assert forall d | d in b :: |b[d]| <= most;
    if most == 0 {
      var d :| d in b;
      assert |b[d]| == most;
    }
    r := most + (n - total) < q;
  }

  // ---------------------------------------------------------------- what a bucket holds

  predicate OtherGuardian(a: GuardianSignature, b: GuardianSignature) { a.index != b.index }

  /** The signature is by the guardian it is filed under, at that key's first position. */
  predicate Genuine(net: Net, d: Digest, g: GuardianSignature) {
    && g.index < |net.keys|
    && Ecrecover(net.c, d, g.data) == Some(net.keys[g.index])
    && IndexOf(net.keys, net.keys[g.index]) == g.index
  }

  /** Genuine signatures over one digest by different guardians. */
  ghost predicate Backing(net: Net, d: Digest, sigs: seq<GuardianSignature>) {
    (forall g | g in sigs :: Genuine(net, d, g)) && Pairwise(sigs, OtherGuardian)
  }

  /** A request that is still open has buckets below quorum, and quorum is still possible. */
  ghost predicate Open(net: Net, b: Buckets) {
    && b != map[]
    && (forall d | d in b :: Backing(net, d, b[d]) && 1 <= |b[d]| < Quorum(net))
    && !Hopeless(b, |net.keys|, Quorum(net))
  }

  ghost predicate Gathering(net: Net, responses: map<seq<byte>, Buckets>) {
    forall r | r in responses :: Open(net, responses[r])
  }

  /** One more genuine signature by a guardian not yet in the bucket. */
  lemma BackingGrows(net: Net, d: Digest, sigs: seq<GuardianSignature>, g: GuardianSignature)
    requires Backing(net, d, sigs) && Genuine(net, d, g) && !Holds(sigs, g.index)
    ensures Backing(net, d, sigs + [g])
  {
    assert forall h | h in sigs :: OtherGuardian(h, g);
  }

  lemma OpenGrows(net: Net, b: Buckets, d: Digest, sigs: seq<GuardianSignature>)
    requires b == map[] || Open(net, b)
    requires Backing(net, d, sigs) && 1 <= |sigs| < Quorum(net) && !Hopeless(b[d := sigs], |net.keys|, Quorum(net))
    ensures Open(net, b[d := sigs])
  {
  }

  lemma BucketBacks(net: Net, b: Buckets, d: Digest)
    requires b == map[] || Open(net, b)
    ensures Backing(net, d, BucketOf(b, d)) && (|BucketOf(b, d)| < Quorum(net) || BucketOf(b, d) == [])
  {
  }

  lemma SignerIsGenuine(net: Net, m: Gossip)
    requires SignerOf(net, m) != -1
    ensures |m.signature| == 65
    ensures Genuine(net, net.digest(m.response), GuardianSignature(SignerOf(net, m), m.signature))
  {
  }

  /** Every turn keeps the buckets in order, and forwards exactly a quorum of signatures by
      different guardians over the digest of the response it just received. */
  lemma ProcessKeeps(net: Net, responses: map<seq<byte>, Buckets>, m: Gossip, req: Request)
    requires Gathering(net, responses)
    ensures var (responses', e) := Process(net, responses, m, req);
      && Gathering(net, responses')
      && (e.Forward? ==> |e.signatures| == Quorum(net) && Backing(net, net.digest(m.response), e.signatures)
                         && net.parse(m.response) == Some(req))
      && (e.Forward? || e.QuorumNotMet? ==> req.signature !in responses')
  {
    hide SignerOf, Holds, Open, Backing, Hopeless, BucketOf;
    var i, d := SignerOf(net, m), net.digest(m.response);
    var b := Held(responses, req);
    if net.parse(m.response) == Some(req) && i != -1 && !Holds(BucketOf(b, d), i) {
      SignerIsGenuine(net, m);
      BucketBacks(net, b, d);
      var sigs := BucketOf(b, d) + [GuardianSignature(i, m.signature)];
      BackingGrows(net, d, BucketOf(b, d), GuardianSignature(i, m.signature));
      if |sigs| < Quorum(net) && !Hopeless(b[d := sigs], |net.keys|, Quorum(net)) {
        OpenGrows(net, b, d, sigs);
      }
    }
  }

  // ---------------------------------------------------------------- what the client gets

  predicate IndexLeq(a: GuardianSignature, b: GuardianSignature) { a.index <= b.index }

  function AsSignature(g: GuardianSignature): Signature { Signature(g.index % 256, g.data) }

  function AsSignatures(sigs: seq<GuardianSignature>): seq<Signature> {
    seq(|sigs|, i requires 0 <= i < |sigs| => AsSignature(sigs[i]))
  }

  /** The handler sorts by guardian index and writes each index as one byte. */
  function ForClient(sigs: seq<GuardianSignature>): seq<Signature> { AsSignatures(Sort(sigs, IndexLeq)) }

  lemma SortedStrictly(sigs: seq<GuardianSignature>)
    requires Pairwise(sigs, OtherGuardian)
    ensures var r := Sort(sigs, IndexLeq);
      && (forall i, j | 0 <= i < j < |r| :: r[i].index < r[j].index)
      && (forall g :: g in r <==> g in sigs)
  {
    var r := Sort(sigs, IndexLeq);
    SortSorted(sigs, IndexLeq);
    SortPairwise(sigs, IndexLeq, OtherGuardian);
    SameElements(r, sigs);
    forall i, j | 0 <= i < j < |r|
      ensures r[i].index < r[j].index
    {
      assert IndexLeq(r[i], r[j]) && OtherGuardian(r[i], r[j]);
    }
  }

  /** A truncated index points at another key, since a guardian stands at its first position. */
  lemma TruncatedIndexFails(net: Net, d: Digest, g: GuardianSignature)
    requires Genuine(net, d, g)
    ensures AsSignature(g).index == g.index <==> g.index < 256
    ensures AsSignature(g).index < |net.keys|
    ensures Ecrecover(net.c, d, g.data) == Some(net.keys[AsSignature(g).index]) <==> g.index < 256
  {
  }

  /** Ascending genuine signatures, written with one-byte indices. */
  lemma ByteIndicesValid(net: Net, d: Digest, r: seq<GuardianSignature>)
    requires forall i | 0 <= i < |r| :: Genuine(net, d, r[i])
    requires forall i, j | 0 <= i < j < |r| :: r[i].index < r[j].index
    ensures ValidSignatures(net.c, d, AsSignatures(r), net.keys) <==> forall i | 0 <= i < |r| :: r[i].index < 256
  {
    var w := AsSignatures(r);
    forall i | 0 <= i < |r|
      ensures w[i].index < |net.keys|
      ensures Ecrecover(net.c, d, w[i].data) == Some(net.keys[w[i].index]) <==> r[i].index < 256
      ensures r[i].index < 256 ==> w[i].index == r[i].index
    {
      TruncatedIndexFails(net, d, r[i]);
    }
    if forall i | 0 <= i < |r| :: r[i].index < 256 {
      forall i, j | 0 <= i < j < |w|
        ensures w[i].index < w[j].index && net.keys[w[i].index] != net.keys[w[j].index]
      {
        assert Genuine(net, d, r[i]) && Genuine(net, d, r[j]) && r[i].index < r[j].index;
      }
    } else {
      var i :| 0 <= i < |r| && r[i].index >= 256;
      assert Ecrecover(net.c, d, w[i].data) != Some(net.keys[w[i].index]);
    }
  }

  /** What the client gets verifies against the guardian keys exactly when no guardian index
      overflows its byte; repeated keys do no harm because of the first-match search. */
  lemma ClientSignaturesValid(net: Net, d: Digest, sigs: seq<GuardianSignature>)
    requires Backing(net, d, sigs)
    ensures |ForClient(sigs)| == |sigs|
    ensures ValidSignatures(net.c, d, ForClient(sigs), net.keys) <==> forall g | g in sigs :: g.index < 256
  {
    var r := Sort(sigs, IndexLeq);
    SortedStrictly(sigs);
    assert forall i | 0 <= i < |r| :: r[i] in sigs;
    ByteIndicesValid(net, d, r);
  }
}
