/** Who may ask which query: node/cmd/ccq/permissions.go and node/cmd/ccq/utils.go. */
module Permissions {
  import opened Binary
  import opened Vaa
  import opened Keys

  const COLON: byte := 58

  datatype EthCall = EthCall(chain: int, contractAddress: Text, call: Text)
  datatype SolCall = SolCall(chain: int, account: Text)

  /** One entry of the configuration; if several calls are set, the first one counts. */
  datatype AllowedCall = AllowedCall(
    ethCall: Option<EthCall>,
    ethCallByTimestamp: Option<EthCall>,
    ethCallWithFinality: Option<EthCall>,
    solAccount: Option<SolCall>,
    solPda: Option<SolCall>)

  datatype User = User(userName: Text, apiKey: Text, allowUnsigned: bool, logResponses: bool,
    allowedCalls: seq<AllowedCall>)

  /** Foreign functions: lower case, and base58 of 32-byte keys. */
  datatype Library = Library(lower: Text -> Text, encode58: Address -> Text, decode58: Text -> Option<Address>)

  /** Base58 is one to one between 32-byte keys and the texts it accepts. */
  ghost predicate OneToOne(lib: Library) {
    && (forall k: Address :: lib.decode58(lib.encode58(k)) == Some(k))
    && (forall s: Text :: lib.decode58(s).Some? ==> lib.encode58(lib.decode58(s).value) == s)
  }

  // ---------------------------------------------------------------- call keys

  datatype Kind = EthCallKind | ByTimestampKind | WithFinalityKind | AccountKind | PdaKind

  function Tag(kind: Kind): Text {
    match kind
    case EthCallKind => Ascii("ethCall")
    case ByTimestampKind => Ascii("ethCallByTimestamp")
    case WithFinalityKind => Ascii("ethCallWithFinality")
    case AccountKind => Ascii("solAccount")
    case PdaKind => Ascii("solPDA")
  }

  function DecInt(n: int): (t: Text)
    ensures COLON !in t
  {
    if n < 0 then [45] + Dec(-n) else Dec(n)
  }

  /** What an entry of the configuration grants. */
  datatype Grant = EthGrant(kind: Kind, chain: int, address: Address, call: seq<byte>) | SolGrant(kind: Kind,
    chain: int, account: Address)

  function Joined(kind: Kind, chain: int, rest: Text): Text { Tag(kind) + [COLON] + (DecInt(chain) + [COLON] + rest) }

  function KeyText(lib: Library, g: Grant): Text {
    match g
    case EthGrant(kind, chain, address, call) => Joined(kind, chain, Hex(address) + [COLON] + Hex(call))
    case SolGrant(kind, chain, account) => Joined(kind, chain, lib.encode58(account))
  }

  function EthGrantOf(kind: Kind, c: EthCall): Option<Grant> {
    match (StringToAddress(c.contractAddress), FromHex(TrimHexPrefix(c.call)))
    case (Some(address), Some(call)) => if |call| == 4 then Some(EthGrant(kind, c.chain, address, call)) else None
    case _ => None
  }

  predicate HasHexPrefix(t: Text) { |t| >= 2 && t[0] == 48 && t[1] == 120 }

  function SolGrantOf(lib: Library, kind: Kind, c: SolCall): Option<Grant> {
    if HasHexPrefix(c.account) then
      match FromHex(c.account[2..])
      case None => None
      case Some(b) => if |b| == 32 then Some(SolGrant(kind, c.chain, b)) else None
    else match lib.decode58(c.account)
      case None => None
      case Some(k) => Some(SolGrant(kind, c.chain, k))
  }

  function GrantOf(lib: Library, ac: AllowedCall): Option<Grant> {
    if ac.ethCall.Some? then EthGrantOf(EthCallKind, ac.ethCall.value)
    else if ac.ethCallByTimestamp.Some? then EthGrantOf(ByTimestampKind, ac.ethCallByTimestamp.value)
    else if ac.ethCallWithFinality.Some? then EthGrantOf(WithFinalityKind, ac.ethCallWithFinality.value)
    else if ac.solAccount.Some? then SolGrantOf(lib, AccountKind, ac.solAccount.value)
    else if ac.solPda.Some? then SolGrantOf(lib, PdaKind, ac.solPda.value)
    else None
  }

  /** The account of a key as the parser writes it: base58 is taken as it stands. */
  function AccountText(lib: Library, account: Text): Option<Text> {
    if HasHexPrefix(account) then
      match FromHex(account[2..])
      case None => None
      case Some(b) => if |b| == 32 then Some(lib.encode58(b)) else None
    else if lib.decode58(account).None? then None
    else Some(account)
  }

  /** The key stored for an entry, None if it is invalid. */
  function KeyOfCall(lib: Library, ac: AllowedCall): Option<Text> {
    if ac.ethCall.Some? || ac.ethCallByTimestamp.Some? || ac.ethCallWithFinality.Some? then
      match GrantOf(lib, ac) case None => None case Some(g) => Some(KeyText(lib, g))
    else if ac.solAccount.Some? then
      match AccountText(lib, ac.solAccount.value.account)
      case None => None
      case Some(t) => Some(Joined(AccountKind, ac.solAccount.value.chain, t))
    else if ac.solPda.Some? then
      match AccountText(lib, ac.solPda.value.account)
      case None => None
      case Some(t) => Some(Joined(PdaKind, ac.solPda.value.chain, t))
    else None
  }

  /** The stored key is the key of what is granted. */
  lemma KeyOfGrant(lib: Library, ac: AllowedCall)
    requires OneToOne(lib)
    ensures KeyOfCall(lib, ac) == match GrantOf(lib, ac) case None => None case Some(g) => Some(KeyText(lib, g))
  {
  }

  method SolAccount(lib: Library, account: Text) returns (r: Option<Text>)
    ensures r == AccountText(lib, account)
  {
    if HasHexPrefix(account) {
      var buf := FromHex(account[2..]);
      if buf.None? || |buf.value| != 32 { return None; }
      return Some(lib.encode58(buf.value));
    }
    var key := lib.decode58(account);
    if key.None? { return None; }
    return Some(account);
  }

  method CallKey(lib: Library, ac: AllowedCall) returns (r: Option<Text>)
    ensures r == KeyOfCall(lib, ac)
  {
    var kind, eth;
    if ac.ethCall.Some? {
      kind, eth := EthCallKind, ac.ethCall.value;
    } else if ac.ethCallByTimestamp.Some? {
      kind, eth := ByTimestampKind, ac.ethCallByTimestamp.value;
    } else if ac.ethCallWithFinality.Some? {
      kind, eth := WithFinalityKind, ac.ethCallWithFinality.value;
    } else if ac.solAccount.Some? {
      var t := SolAccount(lib, ac.solAccount.value.account);
      return if t.None? then None else Some(Joined(AccountKind, ac.solAccount.value.chain, t.value));
    } else if ac.solPda.Some? {
      var t := SolAccount(lib, ac.solPda.value.account);
      return if t.None? then None else Some(Joined(PdaKind, ac.solPda.value.chain, t.value));
    } else {
      return None;
    }
    var address := StringToAddress(eth.contractAddress);
    if address.None? { return None; }
    var call := FromHex(TrimHexPrefix(eth.call));
    if call.None? || |call.value| != 4 { return None; }
    return Some(Joined(kind, eth.chain, Hex(address.value) + [COLON] + Hex(call.value)));
  }

  /** The text before the first colon is determined. */
  lemma FirstColon(a: Text, x: Text, b: Text, y: Text)
    requires COLON !in a && COLON !in b && a + [COLON] + x == b + [COLON] + y
    ensures a == b && x == y
  {
    var s := a + [COLON] + x;
    assert s[|a|] == COLON && s[|b|] == COLON;
    assert forall i | 0 <= i < |a| :: s[i] in a;
    assert forall i | 0 <= i < |b| :: s[i] in b;
    assert a == s[..|a|] && b == s[..|b|];
    assert x == s[|a| + 1..] && y == s[|b| + 1..];
  }

  lemma TagHasNoColon(k: Kind)
    ensures COLON !in Tag(k)
  {
  }

  lemma TagInjective(a: Kind, b: Kind)
    requires Tag(a) == Tag(b)
    ensures a == b
  {
    assert |Tag(a)| == |Tag(b)|;
  }

  lemma DecIntInjective(a: int, b: int)
    requires DecInt(a) == DecInt(b)
    ensures a == b
  {
    hide Dec, Digits;
    assert IsDigit(DecInt(a)[0]) <==> a >= 0;
    assert IsDigit(DecInt(b)[0]) <==> b >= 0;
    if a < 0 {
      assert Dec(-a) == DecInt(a)[1..] && Dec(-b) == DecInt(b)[1..];
      DigitsOfDec(-a);
      DigitsOfDec(-b);
    } else {
      DigitsOfDec(a);
      DigitsOfDec(b);
    }
  }

  lemma JoinedInjective(k: Kind, c: int, x: Text, l: Kind, d: int, y: Text)
    requires Joined(k, c, x) == Joined(l, d, y)
    ensures k == l && c == d && x == y
  {
    TagHasNoColon(k);
    TagHasNoColon(l);
    FirstColon(Tag(k), DecInt(c) + [COLON] + x, Tag(l), DecInt(d) + [COLON] + y);
    TagInjective(k, l);
    FirstColon(DecInt(c), x, DecInt(d), y);
    DecIntInjective(c, d);
  }

  predicate IsSol(k: Kind) { k == AccountKind || k == PdaKind }

  predicate Sensible(g: Grant) { IsSol(g.kind) <==> g.SolGrant? }

  lemma GrantsAreSensible(lib: Library, ac: AllowedCall)
    requires GrantOf(lib, ac).Some?
    ensures Sensible(GrantOf(lib, ac).value)
  {
  }

  /** Different grants have different keys, within one kind of call and across kinds. */
  lemma KeyTextInjective(lib: Library, g: Grant, h: Grant)
    requires OneToOne(lib) && Sensible(g) && Sensible(h) && KeyText(lib, g) == KeyText(lib, h)
    ensures g == h
  {
    var x := if g.EthGrant? then Hex(g.address) + [COLON] + Hex(g.call) else lib.encode58(g.account);
    var y := if h.EthGrant? then Hex(h.address) + [COLON] + Hex(h.call) else lib.encode58(h.account);
    JoinedInjective(g.kind, g.chain, x, h.kind, h.chain, y);
    if g.EthGrant? {
      FirstColon(Hex(g.address), Hex(g.call), Hex(h.address), Hex(h.call));
      HexInjective(g.address, h.address);
      HexInjective(g.call, h.call);
    } else {
      assert lib.decode58(x) == Some(g.account) && lib.decode58(y) == Some(h.account);
    }
  }

  // ---------------------------------------------------------------- parsing the configuration

  datatype Entry = Entry(userName: Text, apiKey: Text, allowUnsigned: bool, logResponses: bool, allowedCalls: set<Text>)

  function KeysOf(lib: Library, calls: seq<AllowedCall>): set<Text> {
    set ac | ac in calls && KeyOfCall(lib, ac).Some? :: KeyOfCall(lib, ac).value
  }

  function EntryOf(lib: Library, u: User): Entry {
    Entry(u.userName, lib.lower(u.apiKey), u.allowUnsigned, u.logResponses, KeysOf(lib, u.allowedCalls))
  }

  /** Every call is valid and none is granted twice. */
  ghost predicate GoodCalls(lib: Library, calls: seq<AllowedCall>) {
    && (forall i | 0 <= i < |calls| :: KeyOfCall(lib, calls[i]).Some?)
    && (forall i, j | 0 <= i < j < |calls| :: KeyOfCall(lib, calls[i]) != KeyOfCall(lib, calls[j]))
  }

  /** The first n users are valid: calls, names and keys. */
  ghost predicate GoodUpTo(lib: Library, users: seq<User>, n: nat)
    requires n <= |users|
  {
    && (forall i | 0 <= i < n :: GoodCalls(lib, users[i].allowedCalls))
    && (forall i, j | 0 <= i < j < n :: users[i].userName != users[j].userName)
    && (forall i, j | 0 <= i < j < n :: lib.lower(users[i].apiKey) != lib.lower(users[j].apiKey))
  }

  ghost predicate GoodConfig(lib: Library, users: seq<User>) { GoodUpTo(lib, users, |users|) }

  ghost predicate NewName(users: seq<User>, i: nat)
    requires i < |users|
  {
    forall j | 0 <= j < i :: users[j].userName != users[i].userName
  }

  ghost predicate NewKey(lib: Library, users: seq<User>, i: nat)
    requires i < |users|
  {
    forall j | 0 <= j < i :: lib.lower(users[j].apiKey) != lib.lower(users[i].apiKey)
  }

  lemma GoodStep(lib: Library, users: seq<User>, i: nat)
    requires i < |users| && GoodUpTo(lib, users, i)
    ensures GoodUpTo(lib, users, i + 1) <==>
      GoodCalls(lib, users[i].allowedCalls) && NewName(users, i) && NewKey(lib, users, i)
    ensures GoodConfig(lib, users) ==> GoodUpTo(lib, users, i + 1)
  {
    hide GoodCalls;
  }

  method AllowedCalls(lib: Library, calls: seq<AllowedCall>) returns (r: Option<set<Text>>)
    ensures r.Some? <==> GoodCalls(lib, calls)
    ensures r.Some? ==> r.value == KeysOf(lib, calls)
  {
    hide KeyOfCall;
    var allowed: set<Text> := {};
    for i := 0 to |calls|
      invariant GoodCalls(lib, calls[..i])
      invariant forall j | 0 <= j < i :: KeyOfCall(lib, calls[j]).value in allowed
      invariant forall k | k in allowed :: exists j :: 0 <= j < i && KeyOfCall(lib, calls[j]) == Some(k)
    {
      var key := CallKey(lib, calls[i]);
      if key.None? { return None; }
      if key.value in allowed { return None; }
      allowed := allowed + {key.value};
    }
    assert calls[..|calls|] == calls;
    r := Some(allowed);
  }

  ghost predicate NameBefore(users: seq<User>, n: nat, m: Text)
    requires n <= |users|
  {
    exists j :: 0 <= j < n && users[j].userName == m
  }

  ghost predicate KeyBefore(lib: Library, users: seq<User>, n: nat, k: Text)
    requires n <= |users|
  {
    exists j :: 0 <= j < n && lib.lower(users[j].apiKey) == k
  }

  ghost predicate EntryAt(lib: Library, ret: map<Text, Entry>, u: User) {
    lib.lower(u.apiKey) in ret && ret[lib.lower(u.apiKey)] == EntryOf(lib, u)
  }

  /** The names and entries of the first n users. */
  ghost predicate Registered(lib: Library, users: seq<User>, n: nat, names: set<Text>, ret: map<Text, Entry>)
    requires n <= |users|
  {
    && (forall m: Text :: m in names <==> NameBefore(users, n, m))
    && (forall k: Text :: k in ret <==> KeyBefore(lib, users, n, k))
    && (forall j | 0 <= j < n :: EntryAt(lib, ret, users[j]))
  }

  lemma NoUsers(lib: Library, users: seq<User>)
    ensures GoodUpTo(lib, users, 0) && Registered(lib, users, 0, {}, map[])
  {
  }

  lemma BeforeStep(lib: Library, users: seq<User>, i: nat, x: Text)
    requires i < |users|
    ensures NameBefore(users, i + 1, x) <==> NameBefore(users, i, x) || x == users[i].userName
    ensures KeyBefore(lib, users, i + 1, x) <==> KeyBefore(lib, users, i, x) || x == lib.lower(users[i].apiKey)
  {
  }

  lemma RegisteredKnows(lib: Library, users: seq<User>, i: nat, names: set<Text>, ret: map<Text, Entry>)
    requires i < |users| && Registered(lib, users, i, names, ret)
    ensures users[i].userName !in names <==> NewName(users, i)
    ensures lib.lower(users[i].apiKey) !in ret <==> NewKey(lib, users, i)
  {
    hide EntryAt;
  }

  lemma RegisteredStep(lib: Library, users: seq<User>, i: nat, names: set<Text>, ret: map<Text, Entry>)
    requires i < |users| && Registered(lib, users, i, names, ret) && NewKey(lib, users, i)
    ensures Registered(lib, users, i + 1, names + {users[i].userName},
      ret[lib.lower(users[i].apiKey) := EntryOf(lib, users[i])])
  {
    hide EntryOf, NameBefore, KeyBefore;
    var names', ret' := names + {users[i].userName}, ret[lib.lower(users[i].apiKey) := EntryOf(lib, users[i])];
    forall m: Text
      ensures m in names' <==> NameBefore(users, i + 1, m)
    {
      BeforeStep(lib, users, i, m);
    }
    forall k: Text
      ensures k in ret' <==> KeyBefore(lib, users, i + 1, k)
    {
      BeforeStep(lib, users, i, k);
    }
    forall j | 0 <= j < i + 1
      ensures EntryAt(lib, ret', users[j])
    {
      assert j < i ==> EntryAt(lib, ret, users[j]) && lib.lower(users[j].apiKey) != lib.lower(users[i].apiKey);
    }
  }

  lemma RegisteredAll(lib: Library, users: seq<User>, names: set<Text>, ret: map<Text, Entry>)
    requires Registered(lib, users, |users|, names, ret)
    ensures forall i | 0 <= i < |users| ::
      lib.lower(users[i].apiKey) in ret && ret[lib.lower(users[i].apiKey)] == EntryOf(lib, users[i])
    ensures forall k | k in ret :: exists i :: 0 <= i < |users| && k == lib.lower(users[i].apiKey)
  {
    hide EntryOf;
    forall i | 0 <= i < |users|
      ensures lib.lower(users[i].apiKey) in ret && ret[lib.lower(users[i].apiKey)] == EntryOf(lib, users[i])
    {
      assert EntryAt(lib, ret, users[i]);
    }
  }

  /** The permissions are parsed exactly for configurations without invalid or repeated calls, user
      names or keys; each user then has one entry, under the lower-case key, with all calls granted. */
  method ParseConfig(lib: Library, users: seq<User>) returns (r: Option<map<Text, Entry>>)
    ensures r.Some? <==> GoodConfig(lib, users)
    ensures r.Some? ==>
      && (forall i | 0 <= i < |users| ::
         lib.lower(users[i].apiKey) in r.value && r.value[lib.lower(users[i].apiKey)] == EntryOf(lib, users[i]))
      && (forall k | k in r.value :: exists i :: 0 <= i < |users| && k == lib.lower(users[i].apiKey))
    ensures r.Some? ==> forall i | 0 <= i < |users| ::
      var e := r.value[lib.lower(users[i].apiKey)];
      && e.userName == users[i].userName && e.apiKey == lib.lower(users[i].apiKey)
      && e.allowUnsigned == users[i].allowUnsigned && e.logResponses == users[i].logResponses
  {
    hide GoodCalls, KeysOf, GoodUpTo, NewName, NewKey, Registered;
    NoUsers(lib, users);
    var ret: map<Text, Entry> := map[];
    var userNames: set<Text> := {};
    for i := 0 to |users|
      invariant GoodUpTo(lib, users, i) && Registered(lib, users, i, userNames, ret)
    {
      var user := users[i];
      GoodStep(lib, users, i);
      RegisteredKnows(lib, users, i, userNames, ret);
      if user.userName in userNames { return None; }
      var apiKey := lib.lower(user.apiKey);
      if apiKey in ret { return None; }
      var allowed := AllowedCalls(lib, user.allowedCalls);
      if allowed.None? { return None; }
      RegisteredStep(lib, users, i, userNames, ret);
      userNames := userNames + {user.userName};
      ret := ret[apiKey := Entry(user.userName, apiKey, user.allowUnsigned, user.logResponses, allowed.value)];
    }
    RegisteredAll(lib, users, userNames, ret);
    r := Some(ret);
  }

  // ---------------------------------------------------------------- validating a request

  datatype Query = AccountQuery(chain: uint16, accounts: seq<Address>) | PdaQuery(chain: uint16,
    accounts: seq<Address>) | OtherQuery

  /** Foreign functions: the request format, its own checks, and the node's signature of a request,
      which may fail or not be configured. */
  datatype Requests = Requests(parse: seq<byte> -> Option<seq<Query>>, sane: seq<Query> -> bool,
    sign: Option<seq<byte> -> Option<seq<byte>>>)

  datatype Status = Ok | BadRequest | Forbidden | InternalError

  function KindOfQuery(q: Query): Kind { if q.AccountQuery? then AccountKind else PdaKind }

  function QueryKey(lib: Library, q: Query, account: Address): Text
    requires !q.OtherQuery?
  {
    KeyText(lib, SolGrant(KindOfQuery(q), q.chain, account))
  }

  predicate QueryAllowed(lib: Library, e: Entry, q: Query) {
    !q.OtherQuery? && forall a | a in q.accounts :: QueryKey(lib, q, a) in e.allowedCalls
  }

  /** The first query that is not allowed decides: of an unsupported type, or not authorised. */
  function QueriesStatus(lib: Library, e: Entry, qs: seq<Query>): Status {
    if qs == [] then Ok
    else if qs[0].OtherQuery? then BadRequest
    else if !QueryAllowed(lib, e, qs[0]) then Forbidden
    else QueriesStatus(lib, e, qs[1..])
  }

  method ValidateQuery(lib: Library, e: Entry, q: Query) returns (ok: bool)
    requires !q.OtherQuery?
    ensures ok <==> QueryAllowed(lib, e, q)
  {
    hide KeyText;
    for i := 0 to |q.accounts|
      invariant forall j | 0 <= j < i :: QueryKey(lib, q, q.accounts[j]) in e.allowedCalls
    {
      if QueryKey(lib, q, q.accounts[i]) !in e.allowedCalls { return false; }
    }
    return true;
  }

  function StatusOf(lib: Library, rs: Requests, perms: map<Text, Entry>, apiKey: Text, signature: seq<byte>,
        body: seq<byte>): Status {
    if apiKey !in perms then Forbidden
    else if signature == [] && !(perms[apiKey].allowUnsigned && rs.sign.Some?) then BadRequest
    else if signature == [] && rs.sign.value(body).None? then InternalError
    else match rs.parse(body)
      case None => BadRequest
      case Some(qs) => if !rs.sane(qs) then BadRequest else QueriesStatus(lib, perms[apiKey], qs)
  }

  method ValidateQueries(lib: Library, e: Entry, qs: seq<Query>) returns (status: Status)
    ensures status == QueriesStatus(lib, e, qs)
  {
    hide QueryAllowed;
    assert qs[0..] == qs;
    for i := 0 to |qs|
      invariant QueriesStatus(lib, e, qs) == QueriesStatus(lib, e, qs[i..])
    {
      assert qs[i..][1..] == qs[i + 1..];
      if qs[i].OtherQuery? { return BadRequest; }
      var ok := ValidateQuery(lib, e, qs[i]);
      if !ok { return Forbidden; }
    }
    return Ok;
  }

  /** Also returns the signature, which is the node's own if the client gave none. */
  method ValidateRequest(lib: Library, rs: Requests, perms: map<Text, Entry>, apiKey: Text, signature: seq<byte>,
        body: seq<byte>)
    returns (status: Status, signed: seq<byte>)
    ensures status == StatusOf(lib, rs, perms, apiKey, signature, body)
    ensures status == Ok ==> signed == if signature != [] then signature else rs.sign.value(body).value
  {
    signed := signature;
    if apiKey !in perms { return Forbidden, signed; }
    if signed == [] {
      if !perms[apiKey].allowUnsigned || rs.sign.None? { return BadRequest, signed; }
      var own := rs.sign.value(body);
      if own.None? { return InternalError, signed; }
      signed := own.value;
    }
    var qs := rs.parse(body);
    if qs.None? { return BadRequest, signed; }
    if !rs.sane(qs.value) { return BadRequest, signed; }
    status := ValidateQueries(lib, perms[apiKey], qs.value);
  }

  // ---------------------------------------------------------------- granted and allowed are the same

  /** The configuration grants this user this kind of access to the account on the chain. */
  ghost predicate Granted(lib: Library, u: User, kind: Kind, chain: int, account: Address) {
    exists ac :: ac in u.allowedCalls && GrantOf(lib, ac) == Some(SolGrant(kind, chain, account))
  }

  lemma KeyGranted(lib: Library, u: User, kind: Kind, chain: int, account: Address)
    requires OneToOne(lib) && IsSol(kind)
    ensures KeyText(lib, SolGrant(kind, chain, account)) in KeysOf(lib, u.allowedCalls) <==>
      Granted(lib, u, kind, chain, account)
  {
    hide KeyText, GrantOf, KeyOfCall, OneToOne;
    var g := SolGrant(kind, chain, account);
    var key := KeyText(lib, g);
    if key in KeysOf(lib, u.allowedCalls) {
      var ac :| ac in u.allowedCalls && KeyOfCall(lib, ac) == Some(key);
      KeyOfGrant(lib, ac);
      GrantsAreSensible(lib, ac);
      KeyTextInjective(lib, GrantOf(lib, ac).value, g);
    }
    if Granted(lib, u, kind, chain, account) {
      var ac :| ac in u.allowedCalls && GrantOf(lib, ac) == Some(g);
      KeyOfGrant(lib, ac);
      assert KeyOfCall(lib, ac) == Some(key);
    }
  }

  /** The text names the account: in hexadecimal behind "0x", and otherwise in base58. */
  ghost predicate ReadsAs(lib: Library, text: Text, account: Address) {
    if |text| >= 2 && text[..2] == Ascii("0x") then FromHex(text[2..]) == Some(account)
    else lib.decode58(text) == Some(account)
  }

  ghost predicate NoEthCall(ac: AllowedCall) {
    ac.ethCall == None && ac.ethCallByTimestamp == None && ac.ethCallWithFinality == None
  }

  /** The entry of the configuration allows account queries about that account. */
  ghost predicate AllowsAccount(lib: Library, ac: AllowedCall, chain: int, account: Address) {
    && NoEthCall(ac) && ac.solAccount.Some?
    && ac.solAccount.value.chain == chain && ReadsAs(lib, ac.solAccount.value.account, account)
  }

  /** The entry of the configuration allows queries about the addresses derived from that program. */
  ghost predicate AllowsPda(lib: Library, ac: AllowedCall, chain: int, program: Address) {
    && NoEthCall(ac) && ac.solAccount == None && ac.solPda.Some?
    && ac.solPda.value.chain == chain && ReadsAs(lib, ac.solPda.value.account, program)
  }

  /** The user may ask the query: an entry of the right kind allows each account it names. */
  ghost predicate MayAsk(lib: Library, u: User, q: Query) {
    match q
    case AccountQuery(chain, accounts) =>
      forall a | a in accounts :: exists ac :: ac in u.allowedCalls && AllowsAccount(lib, ac, chain, a)
    case PdaQuery(chain, programs) =>
      forall a | a in programs :: exists ac :: ac in u.allowedCalls && AllowsPda(lib, ac, chain, a)
    case OtherQuery => false
  }

  lemma GrantReads(lib: Library, ac: AllowedCall, chain: int, account: Address)
    ensures GrantOf(lib, ac) == Some(SolGrant(AccountKind, chain, account)) <==> AllowsAccount(lib, ac, chain, account)
    ensures GrantOf(lib, ac) == Some(SolGrant(PdaKind, chain, account)) <==> AllowsPda(lib, ac, chain, account)
  {
    forall text: Text
      ensures |text| >= 2 && text[..2] == Ascii("0x") <==> HasHexPrefix(text)
    {
      HexPrefixReads(text);
    }
    hide FromHex, Ascii, StringToAddress, HasHexPrefix;
  }

  lemma HexPrefixReads(text: Text)
    ensures |text| >= 2 && text[..2] == Ascii("0x") <==> HasHexPrefix(text)
  {
  }

  // Which calls a configuration may list, by the fields of its entries. An entry stands for the
  // first of its calls that is set.

  ghost predicate ValidEthCall(c: EthCall) {
    && StringToAddress(c.contractAddress).Some?
    && FromHex(TrimHexPrefix(c.call)).Some? && |FromHex(TrimHexPrefix(c.call)).value| == 4
  }

  ghost predicate ValidSolCall(lib: Library, c: SolCall) { exists account :: ReadsAs(lib, c.account, account) }

  ghost predicate ValidCall(lib: Library, ac: AllowedCall) {
    if ac.ethCall.Some? then ValidEthCall(ac.ethCall.value)
    else if ac.ethCallByTimestamp.Some? then ValidEthCall(ac.ethCallByTimestamp.value)
    else if ac.ethCallWithFinality.Some? then ValidEthCall(ac.ethCallWithFinality.value)
    else if ac.solAccount.Some? then ValidSolCall(lib, ac.solAccount.value)
    else ac.solPda.Some? && ValidSolCall(lib, ac.solPda.value)
  }

  ghost predicate SameEthCall(a: Option<EthCall>, b: Option<EthCall>) {
    && a.Some? && b.Some? && a.value.chain == b.value.chain
    && StringToAddress(a.value.contractAddress) == StringToAddress(b.value.contractAddress)
    && FromHex(TrimHexPrefix(a.value.call)) == FromHex(TrimHexPrefix(b.value.call))
  }

  ghost predicate SameSolCall(lib: Library, a: Option<SolCall>, b: Option<SolCall>) {
    && a.Some? && b.Some? && a.value.chain == b.value.chain
    && exists account :: ReadsAs(lib, a.value.account, account) && ReadsAs(lib, b.value.account, account)
  }

  /** Two entries stand for the same call: one of the same kind, on the same chain, with the same bytes. */
  ghost predicate SameCall(lib: Library, a: AllowedCall, b: AllowedCall) {
    if a.ethCall.Some? || b.ethCall.Some? then SameEthCall(a.ethCall, b.ethCall)
    else if a.ethCallByTimestamp.Some? || b.ethCallByTimestamp.Some? then
      SameEthCall(a.ethCallByTimestamp, b.ethCallByTimestamp)
    else if a.ethCallWithFinality.Some? || b.ethCallWithFinality.Some? then
      SameEthCall(a.ethCallWithFinality, b.ethCallWithFinality)
    else if a.solAccount.Some? || b.solAccount.Some? then SameSolCall(lib, a.solAccount, b.solAccount)
    else SameSolCall(lib, a.solPda, b.solPda)
  }

  lemma SolGrantReads(lib: Library, kind: Kind, c: SolCall, account: Address)
    ensures SolGrantOf(lib, kind, c) == Some(SolGrant(kind, c.chain, account)) <==> ReadsAs(lib, c.account, account)
    ensures SolGrantOf(lib, kind, c).Some? ==>
      SolGrantOf(lib, kind, c) == Some(SolGrant(kind, c.chain, SolGrantOf(lib, kind, c).value.account))
  {
    HexPrefixReads(c.account);
    hide FromHex, Ascii, HasHexPrefix;
  }

  lemma ValidSol(lib: Library, kind: Kind, c: SolCall)
    ensures SolGrantOf(lib, kind, c).Some? <==> ValidSolCall(lib, c)
    ensures SolGrantOf(lib, kind, c).Some? ==>
      SolGrantOf(lib, kind, c).value.SolGrant? && ReadsAs(lib, c.account, SolGrantOf(lib, kind, c).value.account)
  {
    hide ReadsAs, SolGrantOf;
    forall account
      ensures SolGrantOf(lib, kind, c) == Some(SolGrant(kind, c.chain, account)) <==> ReadsAs(lib, c.account, account)
    {
      SolGrantReads(lib, kind, c, account);
    }
    SolGrantReads(lib, kind, c, Zeros(32));
    if SolGrantOf(lib, kind, c).Some? {
      SolGrantReads(lib, kind, c, SolGrantOf(lib, kind, c).value.account);
    }
  }

  lemma SameSol(lib: Library, kind: Kind, c: SolCall, d: SolCall)
    requires SolGrantOf(lib, kind, c).Some? && SolGrantOf(lib, kind, d).Some?
    ensures SolGrantOf(lib, kind, c) == SolGrantOf(lib, kind, d) <==> SameSolCall(lib, Some(c), Some(d))
  {
    hide ReadsAs, SolGrantOf;
    ValidSol(lib, kind, c);
    ValidSol(lib, kind, d);
    forall account
      ensures SolGrantOf(lib, kind, c) == Some(SolGrant(kind, c.chain, account)) <==> ReadsAs(lib, c.account, account)
      ensures SolGrantOf(lib, kind, d) == Some(SolGrant(kind, d.chain, account)) <==> ReadsAs(lib, d.account, account)
    {
      SolGrantReads(lib, kind, c, account);
      SolGrantReads(lib, kind, d, account);
    }
    SolGrantReads(lib, kind, c, Zeros(32));
    SolGrantReads(lib, kind, d, Zeros(32));
  }

  lemma ValidExactly(lib: Library, ac: AllowedCall)
    ensures GrantOf(lib, ac).Some? <==> ValidCall(lib, ac)
  {
    hide FromHex, StringToAddress, TrimHexPrefix, SolGrantOf, ValidSolCall;
    if ac.solAccount.Some? {
      ValidSol(lib, AccountKind, ac.solAccount.value);
    }
    if ac.solPda.Some? {
      ValidSol(lib, PdaKind, ac.solPda.value);
    }
  }

  lemma SolKinds(lib: Library, kind: Kind, c: SolCall)
    ensures SolGrantOf(lib, kind, c).Some? ==>
      SolGrantOf(lib, kind, c).value.kind == kind && SolGrantOf(lib, kind, c).value.SolGrant?
  {
    hide FromHex;
  }

  lemma SameGrant(lib: Library, a: AllowedCall, b: AllowedCall)
    requires GrantOf(lib, a).Some? && GrantOf(lib, b).Some?
    ensures GrantOf(lib, a) == GrantOf(lib, b) <==> SameCall(lib, a, b)
  {
    hide FromHex, StringToAddress, TrimHexPrefix, SolGrantOf, SameSolCall;
    forall kind, c
      ensures SolGrantOf(lib, kind, c).Some? ==>
        SolGrantOf(lib, kind, c).value.kind == kind && SolGrantOf(lib, kind, c).value.SolGrant?
    {
      SolKinds(lib, kind, c);
    }
    if NoEthCall(a) && NoEthCall(b) {
      if a.solAccount.Some? && b.solAccount.Some? {
        SameSol(lib, AccountKind, a.solAccount.value, b.solAccount.value);
      } else if a.solAccount == None && b.solAccount == None {
        SameSol(lib, PdaKind, a.solPda.value, b.solPda.value);
      } else {
        assert !SameSolCall(lib, a.solAccount, b.solAccount) by { NotSame(lib, a.solAccount, b.solAccount); }
      }
    }
  }

  lemma NotSame(lib: Library, a: Option<SolCall>, b: Option<SolCall>)
    requires a == None || b == None
    ensures !SameSolCall(lib, a, b)
  {
  }

  lemma SameKey(lib: Library, a: AllowedCall, b: AllowedCall)
    requires OneToOne(lib) && GrantOf(lib, a).Some? && GrantOf(lib, b).Some?
    ensures KeyOfCall(lib, a) == KeyOfCall(lib, b) <==> SameCall(lib, a, b)
  {
    hide GrantOf, KeyOfCall, KeyText, SameCall, OneToOne, Sensible;
    KeyOfGrant(lib, a);
    KeyOfGrant(lib, b);
    GrantsAreSensible(lib, a);
    GrantsAreSensible(lib, b);
    SameGrant(lib, a, b);
    if KeyOfCall(lib, a) == KeyOfCall(lib, b) {
      KeyTextInjective(lib, GrantOf(lib, a).value, GrantOf(lib, b).value);
    }
  }

  /** A list of calls is accepted exactly if each entry is valid and no two stand for the same call. */
  lemma GoodCallsExactly(lib: Library, calls: seq<AllowedCall>)
    requires OneToOne(lib)
    ensures GoodCalls(lib, calls) <==>
      && (forall i | 0 <= i < |calls| :: ValidCall(lib, calls[i]))
      && (forall i, j | 0 <= i < j < |calls| :: !SameCall(lib, calls[i], calls[j]))
  {
    hide GrantOf, KeyOfCall, SameCall, ValidCall, OneToOne, KeyText;
    forall i | 0 <= i < |calls|
      ensures KeyOfCall(lib, calls[i]).Some? <==> ValidCall(lib, calls[i])
    {
      ValidExactly(lib, calls[i]);
      KeyOfGrant(lib, calls[i]);
    }
    forall i, j | 0 <= i < j < |calls| && ValidCall(lib, calls[i]) && ValidCall(lib, calls[j])
      ensures KeyOfCall(lib, calls[i]) == KeyOfCall(lib, calls[j]) <==> SameCall(lib, calls[i], calls[j])
    {
      ValidExactly(lib, calls[i]);
      ValidExactly(lib, calls[j]);
      SameKey(lib, calls[i], calls[j]);
    }
  }

  lemma GrantedReads(lib: Library, u: User, chain: int, account: Address)
    ensures Granted(lib, u, AccountKind, chain, account) <==> exists ac ::
      ac in u.allowedCalls && AllowsAccount(lib, ac, chain, account)
    ensures Granted(lib, u, PdaKind, chain, account) <==> exists ac ::
      ac in u.allowedCalls && AllowsPda(lib, ac, chain, account)
  {
    hide GrantOf, AllowsAccount, AllowsPda;
    forall ac
      ensures GrantOf(lib, ac) == Some(SolGrant(AccountKind, chain, account)) <==>
        AllowsAccount(lib, ac, chain, account)
      ensures GrantOf(lib, ac) == Some(SolGrant(PdaKind, chain, account)) <==> AllowsPda(lib, ac, chain, account)
    {
      GrantReads(lib, ac, chain, account);
    }
  }

  lemma QueryGranted(lib: Library, u: User, q: Query)
    requires OneToOne(lib)
    ensures QueryAllowed(lib, EntryOf(lib, u), q) <==> MayAsk(lib, u, q)
  {
    hide KeyText, KeysOf, Granted, OneToOne, AllowsAccount, AllowsPda;
    if !q.OtherQuery? {
      forall a: Address
        ensures QueryKey(lib, q, a) in EntryOf(lib, u).allowedCalls <==> Granted(lib, u, KindOfQuery(q), q.chain, a)
      {
        KeyGranted(lib, u, KindOfQuery(q), q.chain, a);
      }
      forall a: Address
        ensures Granted(lib, u, AccountKind, q.chain, a) <==> exists ac ::
          ac in u.allowedCalls && AllowsAccount(lib, ac, q.chain, a)
        ensures Granted(lib, u, PdaKind, q.chain, a) <==> exists ac ::
          ac in u.allowedCalls && AllowsPda(lib, ac, q.chain, a)
      {
        GrantedReads(lib, u, q.chain, a);
      }
    }
  }

  /** Query i is the first one that the user may not ask. */
  ghost predicate FirstRefused(lib: Library, u: User, qs: seq<Query>, i: int) {
    0 <= i < |qs| && !MayAsk(lib, u, qs[i]) && forall j | 0 <= j < i :: MayAsk(lib, u, qs[j])
  }

  lemma {:induction false} QueriesGranted(lib: Library, u: User, qs: seq<Query>)
    requires OneToOne(lib)
    ensures var s := QueriesStatus(lib, EntryOf(lib, u), qs);
      && (s == Ok <==> forall q | q in qs :: MayAsk(lib, u, q))
      && (s == Forbidden <==> exists i :: FirstRefused(lib, u, qs, i) && !qs[i].OtherQuery?)
      && s != InternalError
  {
    hide QueryAllowed, MayAsk, EntryOf, OneToOne;
    if qs != [] {
      var rest := qs[1..];
      QueriesGranted(lib, u, rest);
      QueryGranted(lib, u, qs[0]);
      OthersRefused(lib, u, qs[0]);
      assert forall q :: q in qs <==> q == qs[0] || q in rest;
      if MayAsk(lib, u, qs[0]) {
        assert forall i :: FirstRefused(lib, u, rest, i) ==> FirstRefused(lib, u, qs, i + 1);
        assert forall i :: FirstRefused(lib, u, qs, i) ==> i > 0 && FirstRefused(lib, u, rest, i - 1);
      } else {
        assert FirstRefused(lib, u, qs, 0);
        assert forall i :: FirstRefused(lib, u, qs, i) ==> i == 0;
      }
    }
  }

  lemma OthersRefused(lib: Library, u: User, q: Query)
    ensures q.OtherQuery? ==> !MayAsk(lib, u, q)
  {
  }

  /** The request carries a signature, or the user may leave it out and the node can sign. */
  predicate Signable(rs: Requests, u: User, signature: seq<byte>, body: seq<byte>) {
    signature != [] || (u.allowUnsigned && rs.sign.Some? && rs.sign.value(body).Some?)
  }

  predicate WellFormedRequest(rs: Requests, body: seq<byte>) { rs.parse(body).Some? && rs.sane(rs.parse(body).value) }

  /** With the permissions of a valid configuration, a request is accepted exactly when it is
      signed or the node may sign it, is well-formed, and the user who owns the API key may ask all
      its queries. It is forbidden exactly when the first query that the user may not ask is of a
      kind that can be allowed, and an internal error exactly when the node may sign and cannot;
      whatever else is wrong makes it a bad request. */
  lemma AcceptsExactlyGranted(lib: Library, rs: Requests, users: seq<User>, perms: map<Text, Entry>, i: nat,
        signature: seq<byte>, body: seq<byte>)
    requires OneToOne(lib) && i < |users|
    requires forall j | 0 <= j < |users| ::
      lib.lower(users[j].apiKey) in perms && perms[lib.lower(users[j].apiKey)] == EntryOf(lib, users[j])
    ensures var status := StatusOf(lib, rs, perms, lib.lower(users[i].apiKey), signature, body);
      && (status == Ok <==>
           && Signable(rs, users[i], signature, body) && WellFormedRequest(rs, body)
           && forall q | q in rs.parse(body).value :: MayAsk(lib, users[i], q))
      && (status == Forbidden <==>
           && Signable(rs, users[i], signature, body) && WellFormedRequest(rs, body)
           && var qs := rs.parse(body).value;
              exists k :: FirstRefused(lib, users[i], qs, k) && !qs[k].OtherQuery?)
      && (status == InternalError <==>
           signature == [] && users[i].allowUnsigned && rs.sign.Some? && rs.sign.value(body).None?)
  {
    assert EntryOf(lib, users[i]).allowUnsigned == users[i].allowUnsigned;
    hide EntryOf, MayAsk, QueriesStatus, OneToOne, FirstRefused;
    if rs.parse(body).Some? {
      QueriesGranted(lib, users[i], rs.parse(body).value);
    }
  }

  /** A key that is no user's key gets nothing. */
  lemma StrangersRefused(lib: Library, rs: Requests, users: seq<User>, perms: map<Text, Entry>, apiKey: Text,
        signature: seq<byte>, body: seq<byte>)
    requires forall k | k in perms :: exists i :: 0 <= i < |users| && k == lib.lower(users[i].apiKey)
    requires forall i | 0 <= i < |users| :: apiKey != lib.lower(users[i].apiKey)
    ensures StatusOf(lib, rs, perms, apiKey, signature, body) == Forbidden
  {
    assert apiKey !in perms;
  }
}
