/**
 * internals/env-core/src/reuse-secrets.ts: a branch's env resolved while keeping the secrets the
 * caller already holds, and what a run may do to the branch's credentials.
 */
module ReuseSecrets {
  import opened Wrappers
  import opened Text
  import opened Credentials
  import opened BranchEnv

  /** A call of `fetchEnvReusingSecrets`; `source` is the env that holds what was persisted. */
  datatype Request = Request(
    policy: Policy,
    selection: Option<set<EnvKey>>,
    source: map<EnvKey, string>,
    revokeSuperseded: bool,
    mode: SuffixMode,
    roleName: Option<string>,
    databaseName: Option<string>,
    now: int)

  datatype Outcome = Outcome(
    vars: map<EnvKey, string>, issued: bool, keys: set<EnvKey>, reissued: set<EnvKey>, revoked: seq<string>, superseded: seq<string>)

  // ---------------------------------------------------------------------------
  // What is selected
  // ---------------------------------------------------------------------------

  /** A key this call resolves: of the policy, or a branch key the selection names outright. */
  predicate Selected(q: Request, key: EnvKey) {
    match q.selection
    case None => key in PolicyKeys(q.policy)
    case Some(keys) => key in keys && (key in PolicyKeys(q.policy) || key in {BranchName, BranchId, FunctionHostSuffix})
  }

  predicate StorageSelected(q: Request) {
    q.policy.buckets > 0 && (Selected(q, AccessKeyId) || Selected(q, SecretAccessKey))
  }

  predicate GatewaySelected(q: Request) { q.policy.aiGateway && Selected(q, GatewayToken) }

  /** The selected keys among those the halves' secrets surface under. */
  function HalfKeys(q: Request, storage: bool, aiGateway: bool): set<EnvKey> {
    (if storage && Selected(q, AccessKeyId) then {AccessKeyId} else {})
    + (if storage && Selected(q, SecretAccessKey) then {SecretAccessKey} else {})
    + (if aiGateway && Selected(q, GatewayToken) then {GatewayToken} else {})
  }

  function SecretKeys(q: Request): set<EnvKey> { HalfKeys(q, StorageSelected(q), GatewaySelected(q)) }

  predicate StorageManaged(q: Request) { q.selection.None? || StorageSelected(q) }

  predicate GatewayManaged(q: Request) { q.selection.None? || GatewaySelected(q) }

  // ---------------------------------------------------------------------------
  // What is persisted
  // ---------------------------------------------------------------------------

  function Persisted(source: map<EnvKey, string>, key: EnvKey): string { if key in source then source[key] else "" }

  function SegmentEnd(s: string, i: nat): (e: nat)
    requires i <= |s|
    ensures i <= e <= |s|
    ensures e < |s| ==> s[e] == '_'
    ensures forall k :: i <= k < e ==> s[k] != '_'
    decreases |s| - i
  {
    if i == |s| || s[i] == '_' then i else SegmentEnd(s, i + 1)
  }

  const TOKEN_PREFIX := "nt_live_"

  /** The credential id in a gateway token: `/^nt_live_([^_]+)_.+$/`. */
  function GatewayTokenIdShort(token: string): Option<string> {
    if !(TOKEN_PREFIX <= token) then None
    else
      var e := SegmentEnd(token, |TOKEN_PREFIX|);
      if e == |TOKEN_PREFIX| || e + 1 >= |token| then None
      else if exists k :: e < k < |token| && IsLineTerminator(token[k]) then None
      else Some(token[|TOKEN_PREFIX|..e])
  }

  // ---------------------------------------------------------------------------
  // What is kept
  // ---------------------------------------------------------------------------

  function NamedStorage(listed: seq<Credential>, source: map<EnvKey, string>, now: int): Option<Credential> {
    var id := Persisted(source, AccessKeyId);
    if id == "" then None else Find(listed, (c: Credential) => IsLive(c, now) && c.tokenId == id)
  }

  function NamedGateway(listed: seq<Credential>, source: map<EnvKey, string>, now: int): Option<Credential> {
    match GatewayTokenIdShort(Persisted(source, GatewayToken))
    case None => None
    case Some(short) => Find(listed, (c: Credential) => IsLive(c, now) && c.shortId == short)
  }

  /** `halfReusable`: the default where there is one, else any named credential with the scopes. */
  predicate HalfReusable(named: Option<Credential>, default_: Option<Credential>, scopes: set<Scope>) {
    named.Some? && (if default_.Some? then named.value.tokenId == default_.value.tokenId else scopes <= named.value.scopes)
  }

  predicate KeepStorage(listed: seq<Credential>, q: Request) {
    || !StorageSelected(q)
    || (&& Persisted(q.source, AccessKeyId) != "" && Persisted(q.source, SecretAccessKey) != ""
        && HalfReusable(NamedStorage(listed, q.source, q.now), DefaultOf(listed, STORAGE_DEFAULT, q.now), STORAGE_SCOPES))
  }

  predicate KeepGateway(listed: seq<Credential>, q: Request) {
    || !GatewaySelected(q)
    || (&& Persisted(q.source, GatewayToken) != ""
        && HalfReusable(NamedGateway(listed, q.source, q.now), DefaultOf(listed, GATEWAY_DEFAULT, q.now), GATEWAY_SCOPES))
  }

  function KeptKeys(listed: seq<Credential>, q: Request): set<EnvKey> {
    HalfKeys(q, StorageSelected(q) && KeepStorage(listed, q), GatewaySelected(q) && KeepGateway(listed, q))
  }

  predicate IssuesAnew(listed: seq<Credential>, q: Request) { !KeepStorage(listed, q) || !KeepGateway(listed, q) }

  /** A credential this tool minted for the branch. */
  predicate IsOurs(c: Credential, branchName: string) { c.principal == "user" && c.name == Some(CredentialName(branchName)) }

  function AddOurs(ids: seq<string>, superseded: bool, named: Option<Credential>, branchName: string): seq<string> {
    if superseded && named.Some? && IsOurs(named.value, branchName) && named.value.tokenId !in ids
    then ids + [named.value.tokenId] else ids
  }

  /** The minted leftovers that the replaced halves named. */
  function Ours(listed: seq<Credential>, q: Request, branchName: string): seq<string> {
    AddOurs(
      AddOurs([], StorageManaged(q) && !KeepStorage(listed, q), NamedStorage(listed, q.source, q.now), branchName),
      GatewayManaged(q) && !KeepGateway(listed, q), NamedGateway(listed, q.source, q.now), branchName)
  }

  // ---------------------------------------------------------------------------
  // A run
  // ---------------------------------------------------------------------------

  function FetchOptions(q: Request, kept: set<EnvKey>): Options {
    Options(
      match q.selection case None => None case Some(keys) => Some(set key | key in keys && Selected(q, key) && key !in kept),
      if q.selection.None? then kept else {},
      q.mode, q.roleName, q.databaseName)
  }

  function PreferPersisted(vars: map<EnvKey, string>, source: map<EnvKey, string>): map<EnvKey, string> {
    map key | key in vars :: if vars[key] == "" then Persisted(source, key) else vars[key]
  }

  function WithKept(vars: map<EnvKey, string>, source: map<EnvKey, string>, kept: set<EnvKey>): map<EnvKey, string> {
    vars + map key | key in kept && key in source :: source[key]
  }

  predicate NeedsList(q: Request) {
    || (StorageManaged(q) && Persisted(q.source, AccessKeyId) != "")
    || (GatewayManaged(q) && Persisted(q.source, GatewayToken) != "")
  }

  function Listing(w: World, q: Request): Reply<seq<Credential>> {
    if NeedsList(q) then List(w) else Reply(w, Success([]))
  }

  function RevokeAll(w: World, ids: seq<string>): Reply<bool>
    decreases |ids|
  {
    if ids == [] then Reply(w, Success(true))
    else
      var one := RevokeOf(w, ids[0]);
      if one.result.Failure? then one else RevokeAll(one.world, ids[1..])
  }

  /** `fetchEnvReusingSecrets`. */
  function Reuse(w: World, b: Branch, q: Request): Reply<Outcome> {
    if SecretKeys(q) == {} then
      var fetched := Fetch(w, b, q.policy, FetchOptions(q, {}), q.now);
      match fetched.result
      case Failure(error) => Reply(fetched.world, Failure(error))
      case Success(vars) => Reply(fetched.world, Success(Outcome(PreferPersisted(vars, q.source), false, {}, {}, [], [])))
    else
      var listing := Listing(w, q);
      match listing.result
      case Failure(error) => Reply(listing.world, Failure(error))
      case Success(listed) => ReuseListed(listing.world, listed, b, q)
  }

  function ReuseListed(w: World, listed: seq<Credential>, b: Branch, q: Request): Reply<Outcome> {
    var kept := KeptKeys(listed, q);
    var fetched := Fetch(w, b, q.policy, FetchOptions(q, kept), q.now);
    match fetched.result
    case Failure(error) => Reply(fetched.world, Failure(error))
    case Success(found) =>
      var vars := WithKept(PreferPersisted(found, q.source), q.source, kept);
      if !IssuesAnew(listed, q) then Reply(fetched.world, Success(Outcome(vars, false, SecretKeys(q), {}, [], [])))
      else Supersede(fetched.world, Ours(listed, q, b.name), vars, kept, q)
  }

  function Supersede(w: World, ours: seq<string>, vars: map<EnvKey, string>, kept: set<EnvKey>, q: Request): Reply<Outcome> {
    var outcome := Outcome(vars, true, SecretKeys(q), SecretKeys(q) - kept,
                           if q.revokeSuperseded then ours else [], if q.revokeSuperseded then [] else ours);
    if !q.revokeSuperseded then Reply(w, Success(outcome))
    else
      var done := RevokeAll(w, ours);
      if done.result.Failure? then Reply(done.world, Failure(done.result.error)) else Reply(done.world, Success(outcome))
  }
}
