/**
 * What `fetchEnvReusingSecrets` returns and does, told by the vars asked for, the secrets held and
 * the credentials of the branch: which halves are kept, where every value comes from, which
 * leftovers are revoked, and every call in order.
 */
module ReuseOutcomes {
  import opened Wrappers
  import opened Text
  import opened Credentials
  import opened BranchEnv
  import opened BranchValues
  import opened BranchCalls
  import opened ReuseSecrets

  // ---------------------------------------------------------------------------
  // What is asked for
  // ---------------------------------------------------------------------------

  /** The policy of the branch provides the var. */
  predicate PolicyHas(p: Policy, key: EnvKey) { if key == FunctionHostSuffix then p.functions > 0 else Enabled(p, key) }

  /** The run resolves the var: one of the policy's, or one of the branch's own that is asked for by name. */
  predicate Chosen(q: Request, key: EnvKey) {
    match q.selection
    case None => PolicyHas(q.policy, key)
    case Some(keys) => key in keys && (PolicyHas(q.policy, key) || key == BranchName || key == BranchId || key == FunctionHostSuffix)
  }

  predicate ChoosesStorage(q: Request) { q.policy.buckets > 0 && (Chosen(q, AccessKeyId) || Chosen(q, SecretAccessKey)) }

  predicate ChoosesGateway(q: Request) { q.policy.aiGateway && Chosen(q, GatewayToken) }

  lemma {:induction false} SelectedIs(q: Request, key: EnvKey)
    ensures Selected(q, key) <==> Chosen(q, key)
  {
    hide PolicyKeys;
    InPolicy(q.policy, key);
  }

  lemma {:induction false} SelectedAre(q: Request)
    ensures forall key :: Selected(q, key) <==> Chosen(q, key)
    ensures StorageSelected(q) <==> ChoosesStorage(q)
    ensures GatewaySelected(q) <==> ChoosesGateway(q)
  {
    hide Selected, Chosen;
    forall key ensures Selected(q, key) <==> Chosen(q, key) { SelectedIs(q, key); }
  }

  // ---------------------------------------------------------------------------
  // What is held
  // ---------------------------------------------------------------------------

  /** The value held for a var; empty where there is none. */
  function Held(q: Request, key: EnvKey): string { if key in q.source then q.source[key] else "" }

  /** A gateway token: its prefix, the short id of its credential, and something behind the next underscore. */
  ghost predicate TokenOf(token: string, short: string) {
    exists rest ::
      && token == "nt_live_" + short + "_" + rest && short != "" && '_' !in short
      && rest != "" && forall k :: 0 <= k < |rest| ==> !IsLineTerminator(rest[k])
  }

  lemma {:induction false} SegmentIs(token: string, i: nat, e: nat)
    requires i <= e <= |token| && (forall k :: i <= k < e ==> token[k] != '_') && (e < |token| ==> token[e] == '_')
    ensures SegmentEnd(token, i) == e
  {
  }

  lemma {:induction false} TokenParts(short: string, rest: string)
    ensures var token := "nt_live_" + short + "_" + rest;
            && TOKEN_PREFIX <= token && token[8..8 + |short|] == short && token[8 + |short|] == '_'
            && |token| == 9 + |short| + |rest| && token[9 + |short|..] == rest
  {
    var token := "nt_live_" + short + "_" + rest;
    assert token == "nt_live_" + (short + "_" + rest);
  }

  lemma {:induction false} TokenIs(token: string, short: string)
    ensures GatewayTokenIdShort(token) == Some(short) <==> TokenOf(token, short)
  {
    hide GatewayTokenIdShort;
    if exists rest :: token == "nt_live_" + short + "_" + rest && short != "" && '_' !in short
                      && rest != "" && forall k :: 0 <= k < |rest| ==> !IsLineTerminator(rest[k]) {
      var rest :| token == "nt_live_" + short + "_" + rest && short != "" && '_' !in short
        && rest != "" && forall k :: 0 <= k < |rest| ==> !IsLineTerminator(rest[k]);
      TokenIsRead(short, rest);
    }
    if GatewayTokenIdShort(token) == Some(short) { var rest := ReadIsToken(token, short); }
  }

  lemma {:induction false} TokenIsRead(short: string, rest: string)
    requires short != "" && '_' !in short && rest != "" && forall k :: 0 <= k < |rest| ==> !IsLineTerminator(rest[k])
    ensures GatewayTokenIdShort("nt_live_" + short + "_" + rest) == Some(short)
  {
    hide IsLineTerminator;
    var token := "nt_live_" + short + "_" + rest;
    TokenParts(short, rest);
    forall k | 8 <= k < 8 + |short| ensures token[k] != '_' { assert token[8..8 + |short|][k - 8] == token[k]; }
    SegmentIs(token, 8, 8 + |short|);
    forall k | 8 + |short| < k < |token| ensures !IsLineTerminator(token[k]) { assert token[9 + |short|..][k - 9 - |short|] == token[k]; }
    assert !IsLineTerminator('_') by { Underscore(); }
  }

  lemma {:induction false} Underscore()
    ensures !IsLineTerminator('_')
  {
  }

  lemma {:induction false} ReadIsToken(token: string, short: string) returns (rest: string)
    requires GatewayTokenIdShort(token) == Some(short)
    ensures token == "nt_live_" + short + "_" + rest && short != "" && '_' !in short
    ensures rest != "" && forall k :: 0 <= k < |rest| ==> !IsLineTerminator(rest[k])
  {
    hide IsLineTerminator;
    var e := SegmentEnd(token, 8);
    rest := token[e + 1..];
    FourParts(token, 8, e);
    assert token[e..e + 1] == "_";
    assert forall k :: 0 <= k < |short| ==> short[k] == token[8 + k];
  }

  lemma {:induction false} FourParts(t: string, a: nat, b: nat)
    requires a <= b < |t|
    ensures t == t[..a] + t[a..b] + t[b..b + 1] + t[b + 1..]
  {
  }

  /** `c` is the first live credential with that token id. */
  ghost predicate FirstWithId(listed: seq<Credential>, id: string, now: int, c: Credential) {
    exists i :: 0 <= i < |listed| && listed[i] == c && LiveAt(c, now) && c.tokenId == id
                && forall j :: 0 <= j < i ==> !(LiveAt(listed[j], now) && listed[j].tokenId == id)
  }

  /** `c` is the first live credential with that short id. */
  ghost predicate FirstWithShort(listed: seq<Credential>, short: string, now: int, c: Credential) {
    exists i :: 0 <= i < |listed| && listed[i] == c && LiveAt(c, now) && c.shortId == short
                && forall j :: 0 <= j < i ==> !(LiveAt(listed[j], now) && listed[j].shortId == short)
  }

  /** The live credential that the held storage id names. */
  ghost predicate StorageHolder(listed: seq<Credential>, q: Request, c: Credential) {
    Held(q, AccessKeyId) != "" && FirstWithId(listed, Held(q, AccessKeyId), q.now, c)
  }

  /** The live credential that the held gateway token names. */
  ghost predicate GatewayHolder(listed: seq<Credential>, q: Request, c: Credential) {
    exists short :: TokenOf(Held(q, GatewayToken), short) && FirstWithShort(listed, short, q.now, c)
  }

  lemma {:induction false} HolderIs(listed: seq<Credential>, q: Request, c: Credential)
    ensures NamedStorage(listed, q.source, q.now) == Some(c) <==> StorageHolder(listed, q, c)
    ensures NamedGateway(listed, q.source, q.now) == Some(c) <==> GatewayHolder(listed, q, c)
  {
    hide Find, GatewayTokenIdShort, TokenOf, IsLive, LiveAt;
    assert Persisted(q.source, AccessKeyId) == Held(q, AccessKeyId) && Persisted(q.source, GatewayToken) == Held(q, GatewayToken);
    HolderById(listed, Held(q, AccessKeyId), q.now, c);
    forall short ensures GatewayTokenIdShort(Held(q, GatewayToken)) == Some(short) <==> TokenOf(Held(q, GatewayToken), short) {
      TokenIs(Held(q, GatewayToken), short);
    }
    forall short
      ensures Find(listed, (x: Credential) => IsLive(x, q.now) && x.shortId == short) == Some(c) <==> FirstWithShort(listed, short, q.now, c)
    {
      HolderByShort(listed, short, q.now, c);
    }
  }

  lemma {:induction false} HolderById(listed: seq<Credential>, id: string, now: int, c: Credential)
    ensures Find(listed, (x: Credential) => IsLive(x, now) && x.tokenId == id) == Some(c) <==> FirstWithId(listed, id, now, c)
  {
    hide Find;
    var f := (x: Credential) => IsLive(x, now) && x.tokenId == id;
    forall x ensures f(x) <==> LiveAt(x, now) && x.tokenId == id {}
    FirstIs(listed, f, c);
  }

  lemma {:induction false} HolderByShort(listed: seq<Credential>, short: string, now: int, c: Credential)
    ensures Find(listed, (x: Credential) => IsLive(x, now) && x.shortId == short) == Some(c) <==> FirstWithShort(listed, short, now, c)
  {
    hide Find;
    var f := (x: Credential) => IsLive(x, now) && x.shortId == short;
    forall x ensures f(x) <==> LiveAt(x, now) && x.shortId == short {}
    FirstIs(listed, f, c);
  }

  /** A search gives the first element that passes, and no other. */
  lemma {:induction false} FirstIs<T>(s: seq<T>, f: T -> bool, c: T)
    ensures Find(s, f) == Some(c) <==> exists i :: 0 <= i < |s| && s[i] == c && f(c) && forall j :: 0 <= j < i ==> !f(s[j])
  {
    hide Find;
    if exists i :: 0 <= i < |s| && s[i] == c && f(c) && forall j :: 0 <= j < i ==> !f(s[j]) {
      var i :| 0 <= i < |s| && s[i] == c && f(c) && forall j :: 0 <= j < i ==> !f(s[j]);
      assert s[i] in s;
      var k := FindFirst(s, f);
      assert k == i;
    }
    if Find(s, f) == Some(c) { var k := FindFirst(s, f); }
  }

  // ---------------------------------------------------------------------------
  // What is kept
  // ---------------------------------------------------------------------------

  /** A holder may be kept: it is the live default of that name, or there is none and it has the scopes. */
  ghost predicate MayKeep(listed: seq<Credential>, name: string, now: int, scopes: set<Scope>, c: Credential) {
    if NoneLive(listed, name, now) then scopes <= c.scopes
    else exists d :: FirstLive(listed, name, now, d) && c.tokenId == d.tokenId
  }

  /** Both storage secrets are held, and their credential may be kept. */
  ghost predicate StorageKept(listed: seq<Credential>, q: Request) {
    && Held(q, AccessKeyId) != "" && Held(q, SecretAccessKey) != ""
    && exists c :: StorageHolder(listed, q, c) && MayKeep(listed, STORAGE_NAME, q.now, {StorageRead, StorageWrite}, c)
  }

  /** The gateway token is held, and its credential may be kept. */
  ghost predicate GatewayKept(listed: seq<Credential>, q: Request) {
    exists c :: GatewayHolder(listed, q, c) && MayKeep(listed, GATEWAY_NAME, q.now, {GatewayInvoke}, c)
  }

  lemma {:induction false} MayKeepIs(listed: seq<Credential>, name: string, now: int, scopes: set<Scope>, c: Credential)
    ensures HalfReusable(Some(c), DefaultOf(listed, name, now), scopes) <==> MayKeep(listed, name, now, scopes, c)
  {
    hide DefaultOf, FirstLive, NoneLive;
    DefaultIs(listed, name, now);
    FirstOrNone(listed, name, now);
    if DefaultOf(listed, name, now).Some? {
      var d := DefaultOf(listed, name, now).value;
      forall e | FirstLive(listed, name, now, e) ensures e == d { OneFirst(listed, name, now, d, e); }
    }
  }

  lemma {:induction false} OneFirst(listed: seq<Credential>, name: string, now: int, d: Credential, e: Credential)
    requires FirstLive(listed, name, now, d) && FirstLive(listed, name, now, e)
    ensures d == e
  {
    hide LiveNamed;
    var i :| 0 <= i < |listed| && listed[i] == d && LiveNamed(d, name, now) && forall k :: 0 <= k < i ==> !LiveNamed(listed[k], name, now);
    var j :| 0 <= j < |listed| && listed[j] == e && LiveNamed(e, name, now) && forall k :: 0 <= k < j ==> !LiveNamed(listed[k], name, now);
    assert i == j;
  }

  lemma {:induction false} KeptIs(listed: seq<Credential>, q: Request)
    ensures KeepStorage(listed, q) <==> !ChoosesStorage(q) || StorageKept(listed, q)
    ensures KeepGateway(listed, q) <==> !ChoosesGateway(q) || GatewayKept(listed, q)
  {
    hide DefaultOf, HalfReusable, MayKeep, NamedStorage, NamedGateway, StorageHolder, GatewayHolder, ChoosesStorage, ChoosesGateway,
      StorageSelected, GatewaySelected;
    SelectedAre(q);
    NamesAre("");
    var s, g := NamedStorage(listed, q.source, q.now), NamedGateway(listed, q.source, q.now);
    forall c ensures s == Some(c) <==> StorageHolder(listed, q, c) { HolderIs(listed, q, c); }
    forall c ensures g == Some(c) <==> GatewayHolder(listed, q, c) { HolderIs(listed, q, c); }
    if s.Some? { MayKeepIs(listed, STORAGE_NAME, q.now, {StorageRead, StorageWrite}, s.value); }
    if g.Some? {
      MayKeepIs(listed, GATEWAY_NAME, q.now, {GatewayInvoke}, g.value);
      TokenHeld(listed, q);
    }
    NobodyReusable(DefaultOf(listed, STORAGE_DEFAULT, q.now), STORAGE_SCOPES);
    NobodyReusable(DefaultOf(listed, GATEWAY_DEFAULT, q.now), GATEWAY_SCOPES);
  }

  lemma {:induction false} NobodyReusable(default_: Option<Credential>, scopes: set<Scope>)
    ensures !HalfReusable(None, default_, scopes)
  {
  }

  lemma {:induction false} TokenHeld(listed: seq<Credential>, q: Request)
    requires NamedGateway(listed, q.source, q.now).Some?
    ensures Persisted(q.source, GatewayToken) != ""
  {
    hide Find;
  }

  /** A revoked or expired credential keeps no half and is no default. */
  lemma {:induction false} DeadIsPassed(listed: seq<Credential>, q: Request, c: Credential)
    requires c.revoked || (c.expiry.At? && c.expiry.time <= q.now)
    ensures !StorageHolder(listed, q, c) && !GatewayHolder(listed, q, c)
    ensures forall name :: !FirstLive(listed, name, q.now, c)
  {
    hide TokenOf;
  }

  // ---------------------------------------------------------------------------
  // What a run returns
  // ---------------------------------------------------------------------------

  /** The secrets the run resolves. */
  function ChosenSecrets(q: Request): set<EnvKey> {
    (if q.policy.buckets > 0 then (set key | key in {AccessKeyId, SecretAccessKey} && Chosen(q, key)) else {})
    + (if ChoosesGateway(q) then {GatewayToken} else {})
  }

  /** The secrets it keeps. */
  ghost function KeptSecrets(listed: seq<Credential>, q: Request): set<EnvKey> {
    (if ChoosesStorage(q) && StorageKept(listed, q) then (set key | key in {AccessKeyId, SecretAccessKey} && Chosen(q, key)) else {})
    + (if ChoosesGateway(q) && GatewayKept(listed, q) then {GatewayToken} else {})
  }

  ghost predicate Replaces(listed: seq<Credential>, q: Request) {
    (ChoosesStorage(q) && !StorageKept(listed, q)) || (ChoosesGateway(q) && !GatewayKept(listed, q))
  }

  lemma {:induction false} SecretsAre(listed: seq<Credential>, q: Request)
    ensures SecretKeys(q) == ChosenSecrets(q) && KeptKeys(listed, q) == KeptSecrets(listed, q)
    ensures IssuesAnew(listed, q) <==> Replaces(listed, q)
  {
    hide KeepStorage, KeepGateway, StorageKept, GatewayKept, Selected, Chosen, StorageSelected, GatewaySelected;
    SelectedAre(q);
    KeptIs(listed, q);
  }

  /** The credentials are listed: a secret of a half this run is in charge of is held. */
  predicate ListsFor(q: Request) {
    || ((q.selection.None? || ChoosesStorage(q)) && Held(q, AccessKeyId) != "")
    || ((q.selection.None? || ChoosesGateway(q)) && Held(q, GatewayToken) != "")
  }

  lemma {:induction false} ListsAre(q: Request)
    ensures NeedsList(q) <==> ListsFor(q)
  {
    hide Selected, Chosen, ChoosesStorage, ChoosesGateway, StorageSelected, GatewaySelected;
    SelectedAre(q);
  }

  /** A credential this tool has minted for the branch. */
  predicate Stamped(c: Credential, branchName: string) { c.principal == "user" && c.name == Some("neon-env " + branchName) }

  /** A leftover of the storage half: it is replaced, and its holder is this tool's. */
  ghost predicate StorageLeftover(listed: seq<Credential>, q: Request, branchName: string, c: Credential) {
    ChoosesStorage(q) && !StorageKept(listed, q) && StorageHolder(listed, q, c) && Stamped(c, branchName)
  }

  ghost predicate GatewayLeftover(listed: seq<Credential>, q: Request, branchName: string, c: Credential) {
    ChoosesGateway(q) && !GatewayKept(listed, q) && GatewayHolder(listed, q, c) && Stamped(c, branchName)
  }

  /** The ids of the leftovers, each once, the storage one first. */
  ghost predicate LeftoverIds(listed: seq<Credential>, q: Request, branchName: string, ids: seq<string>) {
    && (forall id :: id in ids <==> exists c: Credential ::
          c.tokenId == id && (StorageLeftover(listed, q, branchName, c) || GatewayLeftover(listed, q, branchName, c)))
    && (forall i, j :: 0 <= i < j < |ids| ==> ids[i] != ids[j])
    && (|ids| > 1 ==> exists c :: StorageLeftover(listed, q, branchName, c) && ids[0] == c.tokenId)
  }

  lemma {:induction false} OursAre(listed: seq<Credential>, q: Request, branchName: string)
    ensures LeftoverIds(listed, q, branchName, Ours(listed, q, branchName))
  {
    hide KeepStorage, KeepGateway, StorageKept, GatewayKept, Selected, Chosen, StorageSelected, GatewaySelected, NamedStorage, NamedGateway,
      StorageHolder, GatewayHolder, CredentialName, ChoosesStorage, ChoosesGateway;
    SelectedAre(q);
    KeptIs(listed, q);
    NamesAre(branchName);
    var s, g := NamedStorage(listed, q.source, q.now), NamedGateway(listed, q.source, q.now);
    forall c ensures s == Some(c) <==> StorageHolder(listed, q, c) { HolderIs(listed, q, c); }
    forall c ensures g == Some(c) <==> GatewayHolder(listed, q, c) { HolderIs(listed, q, c); }
  }

  /** The vars the run resolves: the chosen ones, and the function host suffix where every call has it. */
  predicate Resolves(q: Request, key: EnvKey) { Chosen(q, key) || (q.selection.None? && key == FunctionHostSuffix && q.mode == Always) }

  lemma {:induction false} AskedAre(listed: seq<Credential>, q: Request, key: EnvKey)
    ensures var o := FetchOptions(q, KeptSecrets(listed, q));
            Asked(o, key) && Provided(q.policy, o, key) <==> Resolves(q, key) && key !in KeptSecrets(listed, q)
  {
    hide StorageKept, GatewayKept, Selected;
    SelectedIs(q, key);
  }

  /** Where a returned value comes from: held, for a kept secret; else fetched, or held where the fetched one is empty. */
  ghost predicate ComesFrom(b: Branch, q: Request, kept: set<EnvKey>, key: EnvKey, value: string) {
    if key in kept then key in q.source && value == q.source[key]
    else exists fetched :: OnBranch(b, q.policy, FetchOptions(q, kept), key, fetched) && value == if fetched == "" then Held(q, key) else fetched
  }

  lemma {:induction false} VarsAre(w: World, b: Branch, listed: seq<Credential>, q: Request, found: map<EnvKey, string>)
    requires var o := FetchOptions(q, KeptSecrets(listed, q)); Fetch(w, b, q.policy, o, q.now).result == Success(found)
    ensures var vars := WithKept(PreferPersisted(found, q.source), q.source, KeptSecrets(listed, q));
            && (forall key :: key in vars <==> Resolves(q, key))
            && forall key :: key in vars ==> ComesFrom(b, q, KeptSecrets(listed, q), key, vars[key])
  {
    hide Fetch, KeptSecrets, Resolves, OnBranch, FetchOptions, Asked, Provided;
    var kept := KeptSecrets(listed, q);
    var o := FetchOptions(q, kept);
    FetchedKeys(w, b, q.policy, o, q.now);
    FetchedValues(w, b, q.policy, o, q.now);
    var vars := WithKept(PreferPersisted(found, q.source), q.source, kept);
    KeptAreHeld(listed, q);
    forall key ensures key in vars <==> Resolves(q, key) { AskedAre(listed, q, key); }
    forall key | key in vars ensures ComesFrom(b, q, kept, key, vars[key]) {
      if key !in kept { assert key in found && OnBranch(b, q.policy, o, key, found[key]); }
    }
  }

  lemma {:induction false} KeptAreHeld(listed: seq<Credential>, q: Request)
    ensures forall key :: key in KeptSecrets(listed, q) ==> key in q.source && Resolves(q, key)
  {
    hide Chosen, MayKeep, FirstWithShort, StorageHolder, TokenOf;
    if GatewayKept(listed, q) { TokenIsHeld(listed, q); }
  }

  lemma {:induction false} TokenIsHeld(listed: seq<Credential>, q: Request)
    requires GatewayKept(listed, q)
    ensures GatewayToken in q.source
  {
    hide MayKeep, FirstWithShort, NoneLive, FirstLive;
    var c :| GatewayHolder(listed, q, c) && MayKeep(listed, GATEWAY_NAME, q.now, {GatewayInvoke}, c);
    var short :| TokenOf(Held(q, GatewayToken), short) && FirstWithShort(listed, short, q.now, c);
    assert Held(q, GatewayToken) != "";
  }

  /** Everything a run returns, from the credentials it has listed. */
  ghost predicate Returns(listed: seq<Credential>, b: Branch, q: Request, out: Outcome) {
    && out.keys == ChosenSecrets(q)
    && (out.issued <==> Replaces(listed, q))
    && out.reissued == (if out.issued then ChosenSecrets(q) - KeptSecrets(listed, q) else {})
    && (if !out.issued then out.revoked == [] && out.superseded == []
        else if q.revokeSuperseded then out.superseded == [] && LeftoverIds(listed, q, b.name, out.revoked)
        else out.revoked == [] && LeftoverIds(listed, q, b.name, out.superseded))
    && (forall key :: key in out.vars <==> Resolves(q, key))
    && forall key :: key in out.vars ==> ComesFrom(b, q, KeptSecrets(listed, q), key, out.vars[key])
  }

  /** What a run has listed: the credentials of the branch where it needs them, nothing elsewhere. */
  function Listed(w: World, q: Request): seq<Credential> { if ChosenSecrets(q) != {} && ListsFor(q) then w.credentials else [] }

  lemma {:induction false} NothingChosen(q: Request, listed: seq<Credential>)
    requires ChosenSecrets(q) == {}
    ensures KeptSecrets(listed, q) == {} && !Replaces(listed, q)
  {
    hide StorageKept, GatewayKept, Chosen;
    assert Chosen(q, AccessKeyId) && q.policy.buckets > 0 ==> AccessKeyId in ChosenSecrets(q);
    assert Chosen(q, SecretAccessKey) && q.policy.buckets > 0 ==> SecretAccessKey in ChosenSecrets(q);
    assert ChoosesGateway(q) ==> GatewayToken in ChosenSecrets(q);
  }

  lemma {:induction false} WithNothing(vars: map<EnvKey, string>, source: map<EnvKey, string>)
    ensures WithKept(vars, source, {}) == vars
  {
  }

  /** What every successful run returns: kept secrets as they are held, all else from the branch, and the leftovers it replaced. */
  lemma {:induction false} ReuseReturns(w: World, b: Branch, q: Request)
    requires Reuse(w, b, q).result.Success?
    ensures Returns(Listed(w, q), b, q, Reuse(w, b, q).result.value)
  {
    hide Fetch, SecretKeys, ChosenSecrets, KeptSecrets, KeptKeys, IssuesAnew, Replaces, Ours, FetchOptions, WithKept, PreferPersisted,
      RevokeAll, LeftoverIds, Resolves, ComesFrom, NeedsList, ListsFor;
    var listed := Listed(w, q);
    SecretsAre(listed, q);
    ListsAre(q);
    OursAre(listed, q, b.name);
    if ChosenSecrets(q) == {} {
      NothingChosen(q, listed);
      var found := Fetch(w, b, q.policy, FetchOptions(q, {}), q.now).result.value;
      VarsAre(w, b, listed, q, found);
      WithNothing(PreferPersisted(found, q.source), q.source);
      assert ChosenSecrets(q) - {} == {};
    } else {
      var listing := Listing(w, q);
      var found := Fetch(listing.world, b, q.policy, FetchOptions(q, KeptSecrets(listed, q)), q.now).result.value;
      VarsAre(listing.world, b, listed, q, found);
    }
  }

  // ---------------------------------------------------------------------------
  // What a run does
  // ---------------------------------------------------------------------------

  function Revokes(ids: seq<string>): seq<Call> { seq(|ids|, i requires 0 <= i < |ids| => Revoke(ids[i])) }

  lemma {:induction false} RevokeAllTakes(w: World, ids: seq<string>)
    requires RevokeAll(w, ids).result.Success?
    ensures RevokeAll(w, ids).world.trace == w.trace + Revokes(ids)
    decreases |ids|
  {
    if ids == [] {
      assert w.trace + Revokes(ids) == w.trace;
    } else {
      var one := RevokeOf(w, ids[0]);
      RevokeAllTakes(one.world, ids[1..]);
      assert Revokes(ids) == [Revoke(ids[0])] + Revokes(ids[1..]);
      assert w.trace + [Revoke(ids[0])] + Revokes(ids[1..]) == w.trace + ([Revoke(ids[0])] + Revokes(ids[1..]));
    }
  }

  /** The calls of a successful run: a listing where it is needed, the fetch, and a revoke for each leftover it is to revoke. */
  lemma {:induction false} ReuseTakes(w: World, b: Branch, q: Request) returns (calls: seq<Call>)
    requires Reuse(w, b, q).result.Success?
    ensures var o := FetchOptions(q, KeptSecrets(Listed(w, q), q));
            && CredentialCalls(w.credentials, b, q.policy, o, q.now, calls)
            && Reuse(w, b, q).world.trace
               == w.trace + (if ChosenSecrets(q) != {} && ListsFor(q) then [ListCredentials] else [])
                  + (PlannedReads(q.policy, o) + calls) + Revokes(Reuse(w, b, q).result.value.revoked)
  {
    hide Fetch, SecretKeys, ChosenSecrets, KeptSecrets, KeptKeys, IssuesAnew, Replaces, Ours, FetchOptions, WithKept, PreferPersisted,
      RevokeAll, NeedsList, ListsFor, CredentialCalls, PlannedReads, Revokes;
    var listed := Listed(w, q);
    SecretsAre(listed, q);
    ListsAre(q);
    var o := FetchOptions(q, KeptSecrets(listed, q));
    NoRevokes();
    if ChosenSecrets(q) == {} {
      NothingChosen(q, listed);
      calls := FetchTakes(w, b, q.policy, o, q.now);
      assert w.trace + [] == w.trace;
    } else {
      var listing := Listing(w, q);
      calls := FetchTakes(listing.world, b, q.policy, o, q.now);
      var fetched := Fetch(listing.world, b, q.policy, o, q.now);
      assert listing.world.trace == w.trace + if ListsFor(q) then [ListCredentials] else [];
      if IssuesAnew(listed, q) && q.revokeSuperseded { RevokeAllTakes(fetched.world, Ours(listed, q, b.name)); }
    }
  }

  lemma {:induction false} NoRevokes()
    ensures Revokes([]) == [] && forall a: seq<Call> :: a + [] == a
  {
  }
}
