/**
 * What a fetch of `fetchEnvKeysState` returns, told by the branch: every var that is no credential
 * secret has one value, and the reads it takes are those of the vars asked for.
 */
module BranchValues {
  import opened Wrappers
  import opened Credentials
  import opened BranchEnv

  // ---------------------------------------------------------------------------
  // The vars
  // ---------------------------------------------------------------------------

  /** The call asks for the var. */
  predicate Asked(o: Options, key: EnvKey) { key !in o.omit && (o.keys == None || key in o.keys.value) }

  /** The policy, or an outright request for the function host suffix, provides the var. */
  predicate Provided(p: Policy, o: Options, key: EnvKey) {
    match key
    case DatabaseUrl | DatabaseUrlUnpooled | BranchName | BranchId => true
    case FunctionHostSuffix => o.keys != None || o.mode == Always || p.functions > 0
    case AuthBaseUrl | AuthJwksUrl => p.auth
    case DataApiUrl => p.dataApi
    case RealtimeUrl | RealtimeSecret => p.realtime
    case AccessKeyId | SecretAccessKey | StorageEndpoint | StorageRegion => p.buckets > 0
    case GatewayToken | GatewayBaseUrl => p.aiGateway
  }

  lemma {:induction false} DueIs(p: Policy, o: Options, key: EnvKey)
    ensures Due(p, o, key) <==> Asked(o, key) && Provided(p, o, key)
  {
    hide PolicyKeys;
    InPolicy(p, key);
  }

  /** A fetch returns exactly the vars asked for that the policy provides. */
  lemma {:induction false} FetchedKeys(w: World, b: Branch, p: Policy, o: Options, now: int)
    requires Fetch(w, b, p, o, now).result.Success?
    ensures forall key :: key in Fetch(w, b, p, o, now).result.value <==> Asked(o, key) && Provided(p, o, key)
  {
    hide Fetch, Due, Asked, Provided;
    PlanAgrees(w, b, p, o, now);
    forall key ensures Due(p, o, key) <==> Asked(o, key) && Provided(p, o, key) { DueIs(p, o, key); }
  }

  // ---------------------------------------------------------------------------
  // Roles and databases
  // ---------------------------------------------------------------------------

  predicate IsManaged(role: string) { role == "authenticator" || role == "anonymous" || role == "authenticated" }

  /** The role at `i` is the only one that is not managed. */
  ghost predicate OnlyOwn(roles: seq<string>, i: nat) {
    i < |roles| && !IsManaged(roles[i]) && forall j :: 0 <= j < |roles| && j != i ==> IsManaged(roles[j])
  }

  /** The role a connection uses: the one asked for, the sole one, the default owner, or the only one that is not managed. */
  ghost predicate RoleIs(roles: seq<string>, requested: Option<string>, role: string) {
    match requested
    case Some(name) => name in roles && role == name
    case None =>
      if |roles| == 1 then role == roles[0]
      else if "neondb_owner" in roles then role == "neondb_owner"
      else exists i: nat :: OnlyOwn(roles, i) && role == roles[i]
  }

  /** The database a connection uses: the one asked for, the default one, or the sole one. */
  ghost predicate DatabaseIs(databases: seq<string>, requested: Option<string>, database: string) {
    match requested
    case Some(name) => name in databases && database == name
    case None => if "neondb" in databases then database == "neondb" else |databases| == 1 && database == databases[0]
  }

  lemma {:induction false} ManagedIs(role: string)
    ensures role in MANAGED_ROLES <==> IsManaged(role)
  {
  }

  lemma {:induction false} NoneOwn(roles: seq<string>)
    ensures AppRoles(roles) == [] <==> forall j :: 0 <= j < |roles| ==> IsManaged(roles[j])
    decreases |roles|
  {
    hide IsManaged, MANAGED_ROLES;
    if roles != [] {
      ManagedIs(roles[0]);
      NoneOwn(roles[1..]);
      assert forall j :: 1 <= j < |roles| ==> roles[j] == roles[1..][j - 1];
    }
  }

  lemma {:induction false} OneOwn(roles: seq<string>) returns (i: nat)
    requires |AppRoles(roles)| == 1
    ensures OnlyOwn(roles, i) && AppRoles(roles) == [roles[i]]
    decreases |roles|
  {
    hide IsManaged, MANAGED_ROLES;
    ManagedIs(roles[0]);
    var rest := roles[1..];
    assert forall j :: 1 <= j < |roles| ==> roles[j] == rest[j - 1];
    if IsManaged(roles[0]) {
      var k := OneOwn(rest);
      i := k + 1;
    } else {
      i := 0;
      NoneOwn(rest);
    }
  }

  lemma {:induction false} OwnIsOne(roles: seq<string>, i: nat)
    requires OnlyOwn(roles, i)
    ensures AppRoles(roles) == [roles[i]]
    decreases i
  {
    hide IsManaged, MANAGED_ROLES;
    ManagedIs(roles[0]);
    var rest := roles[1..];
    assert forall j :: 1 <= j < |roles| ==> roles[j] == rest[j - 1];
    if i > 0 { OwnIsOne(rest, i - 1); } else { NoneOwn(rest); }
  }

  lemma {:induction false} RolePicked(roles: seq<string>, requested: Option<string>, role: string)
    ensures PickRole(roles, requested) == Success(role) <==> RoleIs(roles, requested, role)
  {
    hide AppRoles, OnlyOwn;
    if requested.None? && |roles| > 1 && OWNER !in roles {
      if |AppRoles(roles)| == 1 { var i := OneOwn(roles); }
      forall i: nat | OnlyOwn(roles, i) ensures i < |roles| && AppRoles(roles) == [roles[i]] {
        OwnIsOne(roles, i);
        OwnRange(roles, i);
      }
    } else {
      forall i: nat | OnlyOwn(roles, i) ensures i < |roles| { OwnRange(roles, i); }
    }
  }

  lemma {:induction false} OwnRange(roles: seq<string>, i: nat)
    requires OnlyOwn(roles, i)
    ensures i < |roles|
  {
  }

  lemma {:induction false} DatabasePicked(databases: seq<string>, requested: Option<string>, database: string)
    ensures PickDatabase(databases, requested) == Success(database) <==> DatabaseIs(databases, requested, database)
  {
  }

  // ---------------------------------------------------------------------------
  // Values
  // ---------------------------------------------------------------------------

  /** The connection URI of the branch, for the role and database the call settles on. */
  ghost predicate UriOn(b: Branch, o: Options, pooled: bool, uri: string) {
    exists role, database ::
      && RoleIs(b.roles, o.roleName, role) && DatabaseIs(b.databases, o.databaseName, database)
      && (role, database, pooled) in b.uris && uri == b.uris[(role, database, pooled)]
  }

  /** What stands behind the first dot of `host`; nothing where there is no dot. */
  ghost predicate Domain(host: string, domain: string) {
    || (domain == "" && '.' !in host)
    || exists k :: FirstDot(host, k) && domain == host[k + 1..]
  }

  ghost predicate FirstDot(host: string, k: int) { 0 <= k < |host| && host[k] == '.' && forall j :: 0 <= j < k ==> host[j] != '.' }

  lemma {:induction false} DomainIs(host: string, domain: string)
    ensures DropLabel(host) == domain <==> Domain(host, domain)
  {
    hide DropLabel;
    if '.' in host {
      var k := DotOf(host);
      forall i | FirstDot(host, i) ensures i == k {}
    } else {
      NoDot(host);
    }
  }

  lemma {:induction false} NoDot(host: string)
    requires '.' !in host
    ensures DropLabel(host) == ""
    decreases |host|
  {
    if host != "" { NoDot(host[1..]); }
  }

  lemma {:induction false} DotOf(host: string) returns (k: int)
    requires '.' in host
    ensures FirstDot(host, k) && DropLabel(host) == host[k + 1..]
    decreases |host|
  {
    if host[0] == '.' {
      k := 0;
    } else {
      var i := DotOf(host[1..]);
      k := i + 1;
      assert forall j :: 1 <= j < |host| ==> host[j] == host[1..][j - 1];
      assert host[1..][i + 1..] == host[k + 1..];
    }
  }

  /** The compute a host is taken from: the first writable one of the branch, or its first one if none is writable. */
  ghost predicate ComputeAt(b: Branch, i: nat) {
    && i < |b.computes| && b.computes[i].branchId == b.id
    && (|| (b.computes[i].readWrite && forall j :: 0 <= j < i ==> !(b.computes[j].branchId == b.id && b.computes[j].readWrite))
        || (&& (forall j :: 0 <= j < |b.computes| ==> !(b.computes[j].branchId == b.id && b.computes[j].readWrite))
            && forall j :: 0 <= j < i ==> b.computes[j].branchId != b.id))
  }

  ghost predicate ComputeOn(b: Branch, host: string) { host != "" && exists i: nat :: ComputeAt(b, i) && host == b.computes[i].host }

  predicate AsksDirect(p: Policy, o: Options) { Asked(o, DatabaseUrlUnpooled) || (p.aiGateway && Asked(o, GatewayBaseUrl)) }

  ghost predicate UriHost(b: Branch, o: Options, pooled: bool, host: string) {
    exists uri :: UriOn(b, o, pooled, uri) && uri in b.hosts && host == b.hosts[uri]
  }

  /** Where functions are reached: the host of a URI that is fetched anyway, the direct one first, or of the branch's compute. */
  ghost predicate HostOn(b: Branch, p: Policy, o: Options, host: string) {
    if AsksDirect(p, o) then UriHost(b, o, false, host)
    else if Asked(o, DatabaseUrl) then UriHost(b, o, true, host)
    else ComputeOn(b, host)
  }

  ghost predicate SuffixOn(b: Branch, p: Policy, o: Options, suffix: string) {
    exists host, domain :: HostOn(b, p, o, host) && Domain(host, domain) && domain != "" && suffix == ".compute." + domain
  }

  ghost predicate GatewayOn(b: Branch, o: Options, url: string) {
    exists uri, domain ::
      && UriOn(b, o, false, uri) && Domain(if uri in b.hosts then b.hosts[uri] else "", domain)
      && url == "https://" + b.id + "-api.ai." + domain
  }

  ghost predicate DataApiOn(b: Branch, o: Options, url: string) {
    exists database :: DatabaseIs(b.databases, o.databaseName, database) && database in b.dataApis && url == b.dataApis[database]
  }

  /** An optional text, empty where it is absent. */
  ghost predicate Text(value: Option<string>, text: string) { text == if value == None then "" else value.value }

  /** The value a var has on the branch; the secrets of credentials are not the branch's. */
  ghost predicate OnBranch(b: Branch, p: Policy, o: Options, key: EnvKey, value: string) {
    match key
    case DatabaseUrl => UriOn(b, o, true, value)
    case DatabaseUrlUnpooled => UriOn(b, o, false, value)
    case BranchName => value == b.name
    case BranchId => value == b.id
    case FunctionHostSuffix => SuffixOn(b, p, o, value)
    case AuthBaseUrl => b.auth != None && Text(b.auth.value.baseUrl, value)
    case AuthJwksUrl => b.auth != None && Text(b.auth.value.jwksUrl, value)
    case DataApiUrl => DataApiOn(b, o, value)
    case RealtimeUrl => b.realtime != None && b.realtime.value.url == Some(value)
    case RealtimeSecret => b.realtime != None && value == b.realtime.value.secret
    case StorageEndpoint => b.storage != None && value == b.storage.value.endpoint
    case StorageRegion => b.storage != None && value == b.storage.value.region
    case GatewayBaseUrl => GatewayOn(b, o, value)
    case AccessKeyId | SecretAccessKey => b.storage != None
    case GatewayToken => true
  }

  // ---------------------------------------------------------------------------
  // What is read
  // ---------------------------------------------------------------------------

  ghost predicate TargetOn(b: Branch, o: Options, target: Target) {
    && (target.role.Some? ==> RoleIs(b.roles, o.roleName, target.role.value))
    && (target.database.Some? ==> DatabaseIs(b.databases, o.databaseName, target.database.value))
  }

  lemma {:induction false} TargetRead(w: World, b: Branch, p: Policy, o: Options)
    requires ReadTarget(w, b, p, o).result.Success?
    ensures TargetOn(b, o, ReadTarget(w, b, p, o).result.value)
  {
    hide PickRole, PickDatabase, RoleIs, DatabaseIs, NeedsTarget, NeedsDatabase;
    var target := ReadTarget(w, b, p, o).result.value;
    if target.role.Some? { RolePicked(b.roles, o.roleName, target.role.value); }
    if target.database.Some? { DatabasePicked(b.databases, o.databaseName, target.database.value); }
  }

  lemma {:induction false} UriRead(w: World, b: Branch, o: Options, target: Target, pooled: bool)
    requires TargetOn(b, o, target) && target.role.Some? && target.database.Some?
    requires StartUri(w, b, target, true, pooled).outcome.Some? && StartUri(w, b, target, true, pooled).outcome.value.Success?
    ensures var uri := StartUri(w, b, target, true, pooled).outcome.value.value; uri.Some? && UriOn(b, o, pooled, uri.value)
  {
    hide RoleIs, DatabaseIs;
  }

  /** What the four reads after the target give. */
  ghost predicate ServicesOn(b: Branch, p: Policy, o: Options, r: Services) {
    && (r.pooled.Some? ==> UriOn(b, o, true, r.pooled.value))
    && (r.unpooled.Some? ==> UriOn(b, o, false, r.unpooled.value))
    && (r.auth.Some? ==> r.auth == b.auth)
    && (r.dataApi.Some? ==> DataApiOn(b, o, r.dataApi.value))
  }

  lemma {:induction false} DataApiRead(w: World, b: Branch, o: Options, target: Target)
    requires TargetOn(b, o, target) && target.database.Some?
    requires StartDataApi(w, b, target, true).outcome.Some? && StartDataApi(w, b, target, true).outcome.value.Success?
    ensures var url := StartDataApi(w, b, target, true).outcome.value.value; url.Some? ==> DataApiOn(b, o, url.value)
  {
    hide DatabaseIs;
  }

  lemma {:induction false} ServicesRead(w: World, b: Branch, p: Policy, o: Options, target: Target)
    requires (NeedsDatabase(p, o) <==> target.database.Some?) && (NeedsTarget(p, o) <==> target.role.Some?) && TargetOn(b, o, target)
    requires ReadServices(w, b, p, o, target).result.Success?
    ensures ServicesOn(b, p, o, ReadServices(w, b, p, o, target).result.value)
  {
    hide StartUri, StartDataApi, UriOn, DataApiOn, TargetOn, Wants;
    var pooled := StartUri(w, b, target, Wants(o, DatabaseUrl), true);
    var unpooled := StartUri(pooled.world, b, target, NeedsUnpooled(p, o), false);
    var auth := Start(unpooled.world, WantsAuth(p, o), Resource.NeonAuth, b.auth);
    var dataApi := StartDataApi(auth.world, b, target, WantsDataApi(p, o));
    if Wants(o, DatabaseUrl) { UriRead(w, b, o, target, true); }
    if NeedsUnpooled(p, o) { UriRead(pooled.world, b, o, target, false); }
    if WantsDataApi(p, o) { DataApiRead(auth.world, b, o, target); }
  }

  /** A search gives the first element that passes. */
  lemma {:induction false} FindFirst<T>(s: seq<T>, f: T -> bool) returns (i: nat)
    requires Find(s, f).Some?
    ensures i < |s| && Find(s, f) == Some(s[i]) && f(s[i]) && forall j :: 0 <= j < i ==> !f(s[j])
    decreases |s|
  {
    i := 0;
    if !f(s[0]) {
      var k := FindFirst(s[1..], f);
      i := k + 1;
      forall j | 0 <= j < i ensures !f(s[j]) { assert j > 0 ==> s[1..][j - 1] == s[j]; }
    }
  }

  lemma {:induction false} ComputeRead(b: Branch, host: string)
    requires ComputeHost(b.computes, b.id) == Success(host)
    ensures ComputeOn(b, host)
  {
    hide Find;
    var any := (c: Compute) => c.branchId == b.id;
    var writable := (c: Compute) => c.branchId == b.id && c.readWrite;
    var i: nat;
    if Find(b.computes, writable).Some? {
      i := FindFirst(b.computes, writable);
      assert forall j :: 0 <= j < i ==> !writable(b.computes[j]);
    } else {
      i := FindFirst(b.computes, any);
      forall j | 0 <= j < |b.computes| ensures !(b.computes[j].branchId == b.id && b.computes[j].readWrite) {
        assert !writable(b.computes[j]);
      }
      assert forall j :: 0 <= j < i ==> !any(b.computes[j]);
    }
    assert ComputeAt(b, i) && host == b.computes[i].host;
  }

  lemma {:induction false} HostRead(b: Branch, p: Policy, o: Options, services: Services, computes: Option<Result<seq<Compute>, Failure>>)
    requires ServicesOn(b, p, o, services) && SuffixHost(b, services, computes).Success?
    requires (Wants(o, DatabaseUrl) <==> services.pooled.Some?) && (NeedsUnpooled(p, o) <==> services.unpooled.Some?)
    requires computes.Some? && computes.value.Success? ==> computes.value.value == b.computes
    ensures HostOn(b, p, o, SuffixHost(b, services, computes).value)
  {
    hide ComputeHost, ComputeOn, UriOn, DataApiOn;
    var host := SuffixHost(b, services, computes).value;
    assert NeedsUnpooled(p, o) <==> AsksDirect(p, o);
    if services.unpooled.None? && services.pooled.None? { ComputeRead(b, host); }
  }

  lemma {:induction false} SuffixRead(b: Branch, p: Policy, o: Options, services: Services, computes: Option<Result<seq<Compute>, Failure>>)
    requires NeedsEndpoints(p, o) ==> computes.Some?
    requires NeedsTarget(p, o) ==> services.pooled.Some? || services.unpooled.Some?
    requires computes.Some? && computes.value.Failure? ==> !computes.value.error.Missing?
    requires ServicesOn(b, p, o, services)
    requires (Wants(o, DatabaseUrl) <==> services.pooled.Some?) && (NeedsUnpooled(p, o) <==> services.unpooled.Some?)
    requires computes.Some? && computes.value.Success? ==> computes.value.value == b.computes
    ensures var r := SuffixOf(b, p, o, services, computes); r.Success? && r.value.Some? ==> SuffixOn(b, p, o, r.value.value)
  {
    hide SuffixHost, HostOn, Domain, DropLabel, NeedsUnpooled, Wants;
    var r := SuffixOf(b, p, o, services, computes);
    if r.Success? && r.value.Some? {
      var host := SuffixHost(b, services, computes).value;
      HostRead(b, p, o, services, computes);
      DomainIs(host, DropLabel(host));
    }
  }

  /** What a whole reading holds. */
  ghost predicate ReadingOn(b: Branch, p: Policy, o: Options, r: Reading) {
    && ServicesOn(b, p, o, r.services)
    && (r.suffix.Some? ==> SuffixOn(b, p, o, r.suffix.value))
    && (r.realtimeUrl.Some? ==> b.realtime.Some? && r.realtimeUrl == b.realtime.value.url)
    && (r.realtimeSecret.Some? ==> b.realtime.Some? && r.realtimeSecret.value == b.realtime.value.secret)
    && (r.storage.Some? ==> r.storage == b.storage)
  }

  lemma {:induction false} RestRead(w: World, b: Branch, p: Policy, o: Options, early: Early, services: Services)
    requires early.storage.Some? <==> WantsStorage(p, o)
    requires early.computes.Some? <==> NeedsEndpoints(p, o)
    requires early.storage.Some? && early.storage.value.Failure? ==> !early.storage.value.error.Missing?
    requires early.computes.Some? && early.computes.value.Failure? ==> !early.computes.value.error.Missing?
    requires (Wants(o, DatabaseUrl) <==> services.pooled.Some?) && (NeedsUnpooled(p, o) <==> services.unpooled.Some?)
    requires ServicesOn(b, p, o, services)
    requires early.storage.Some? && early.storage.value.Success? ==> early.storage.value.value == b.storage
    requires early.computes.Some? && early.computes.value.Success? ==> early.computes.value.value == b.computes
    requires ReadRest(w, b, p, o, early, services).result.Success?
    ensures ReadingOn(b, p, o, ReadRest(w, b, p, o, early, services).result.value)
  {
    hide SuffixOf, SuffixOn, ServicesOn, Wants, NeedsUnpooled, WantsAuth, WantsDataApi, WantsStorage;
    SuffixRead(b, p, o, services, early.computes);
  }

  lemma {:induction false} BranchRead(w: World, b: Branch, p: Policy, o: Options)
    requires ReadBranch(w, b, p, o).result.Success?
    ensures ReadingOn(b, p, o, ReadBranch(w, b, p, o).result.value)
  {
    hide ReadTarget, ReadServices, ReadRest, ServicesOn, TargetOn, ReadingOn, Wants, NeedsUnpooled, WantsStorage, NeedsEndpoints, NeedsTarget,
      NeedsDatabase;
    var early := StartEarly(w, b, p, o);
    var target := ReadTarget(early.world, b, p, o);
    TargetRead(early.world, b, p, o);
    var services := ReadServices(target.world, b, p, o, target.result.value);
    ServicesRead(target.world, b, p, o, target.result.value);
    RestRead(services.world, b, p, o, early, services.result.value);
  }

  lemma {:induction false} GatewayIs(b: Branch, o: Options, uri: string)
    requires UriOn(b, o, false, uri)
    ensures GatewayOn(b, o, GatewayUrl(b, uri))
  {
    hide UriOn, Domain, DropLabel;
    var host := if uri in b.hosts then b.hosts[uri] else "";
    DomainIs(host, DropLabel(host));
  }

  lemma {:induction false} AssembledOn(b: Branch, p: Policy, o: Options, r: Reading, secrets: Option<Secrets>, key: EnvKey)
    requires Complete(p, o, r) && ReadingOn(b, p, o, r) && Assemble(b, p, o, r, secrets).Success?
    ensures var v := ValueOf(Assemble(b, p, o, r, secrets).value, key); v.Some? ==> OnBranch(b, p, o, key, v.value)
  {
    hide GatewayUrl, UriOn, SuffixOn, DataApiOn, GatewayOn, Wants;
    if key == GatewayBaseUrl && r.services.unpooled.Some? { GatewayIs(b, o, r.services.unpooled.value); }
  }

  /**
   * Every var a fetch returns has the value the branch gives it: the URIs, the identity of the
   * branch, the hosts, the service URLs, and what the Realtime and storage settings hold.
   */
  lemma {:induction false} FetchedValues(w: World, b: Branch, p: Policy, o: Options, now: int)
    requires Fetch(w, b, p, o, now).result.Success?
    ensures forall key :: key in Fetch(w, b, p, o, now).result.value ==> OnBranch(b, p, o, key, Fetch(w, b, p, o, now).result.value[key])
  {
    hide ReadBranch, Resolve, Assemble, ToEntries, ValueOf, OnBranch, Complete, ReadingOn;
    var vars := Fetch(w, b, p, o, now).result.value;
    var reading := ReadBranch(w, b, p, o);
    BranchRead(w, b, p, o);
    var secrets: Option<Secrets> :=
      if WantsCredential(p, o) then Some(Resolve(reading.world, SecretScopes(p, o), b.name, now).result.value) else None;
    var env := Assemble(b, p, o, reading.result.value, secrets).value;
    forall key | key in vars ensures OnBranch(b, p, o, key, vars[key]) {
      EntriesHave(env, key);
      AssembledOn(b, p, o, reading.result.value, secrets, key);
    }
  }
}
