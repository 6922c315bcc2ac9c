/**
 * `fetchEnvKeysState` of internals/env-core/src/env.ts: which reads a key selection depends on,
 * the reads, and the env vars built from them.
 */
module BranchEnv {
  import opened Wrappers
  import opened Credentials

  datatype EnvKey =
    | DatabaseUrl | DatabaseUrlUnpooled
    | BranchName | BranchId | FunctionHostSuffix
    | AuthBaseUrl | AuthJwksUrl | DataApiUrl
    | RealtimeUrl | RealtimeSecret
    | AccessKeyId | SecretAccessKey | StorageEndpoint | StorageRegion
    | GatewayToken | GatewayBaseUrl

  /** What a branch policy enables. */
  datatype Policy = Policy(auth: bool, dataApi: bool, realtime: bool, functions: nat, buckets: nat, aiGateway: bool)

  datatype SuffixMode = Declared | Always

  datatype AuthSnapshot = AuthSnapshot(baseUrl: Option<string>, jwksUrl: Option<string>)

  datatype StorageSnapshot = StorageSnapshot(endpoint: string, region: string)

  datatype RealtimeSnapshot = RealtimeSnapshot(url: Option<string>, secret: string)

  datatype Compute = Compute(branchId: string, readWrite: bool, host: string)

  /** A branch as the management API reports it; `hosts` is what URL parsing finds in a URI. */
  datatype Branch = Branch(
    id: string,
    name: string,
    roles: seq<string>,
    databases: seq<string>,
    uris: map<(string, string, bool), string>,
    hosts: map<string, string>,
    computes: seq<Compute>,
    auth: Option<AuthSnapshot>,
    dataApis: map<string, string>,
    realtime: Option<RealtimeSnapshot>,
    storage: Option<StorageSnapshot>)

  /** What a call asks for. */
  datatype Options = Options(
    keys: Option<set<EnvKey>>,
    omit: set<EnvKey>,
    mode: SuffixMode,
    roleName: Option<string>,
    databaseName: Option<string>)

  predicate Wants(o: Options, key: EnvKey) {
    key !in o.omit && (o.keys.None? || key in o.keys.value)
  }

  // ---------------------------------------------------------------------------
  // The plan
  // ---------------------------------------------------------------------------

  predicate WantsSuffix(p: Policy, o: Options) {
    Wants(o, FunctionHostSuffix) && (o.keys.Some? || o.mode == Always || p.functions > 0)
  }

  predicate WantsAuth(p: Policy, o: Options) { p.auth && (Wants(o, AuthBaseUrl) || Wants(o, AuthJwksUrl)) }

  predicate WantsDataApi(p: Policy, o: Options) { p.dataApi && Wants(o, DataApiUrl) }

  predicate WantsRealtime(p: Policy, o: Options) { p.realtime && (Wants(o, RealtimeUrl) || Wants(o, RealtimeSecret)) }

  predicate WantsStorageCredential(p: Policy, o: Options) {
    p.buckets > 0 && (Wants(o, AccessKeyId) || Wants(o, SecretAccessKey))
  }

  predicate WantsStorage(p: Policy, o: Options) {
    p.buckets > 0 && (Wants(o, AccessKeyId) || Wants(o, SecretAccessKey) || Wants(o, StorageEndpoint) || Wants(o, StorageRegion))
  }

  predicate WantsGatewayCredential(p: Policy, o: Options) { p.aiGateway && Wants(o, GatewayToken) }

  predicate NeedsUnpooled(p: Policy, o: Options) {
    Wants(o, DatabaseUrlUnpooled) || (p.aiGateway && Wants(o, GatewayBaseUrl))
  }

  predicate NeedsTarget(p: Policy, o: Options) { Wants(o, DatabaseUrl) || NeedsUnpooled(p, o) }

  predicate NeedsDatabase(p: Policy, o: Options) { NeedsTarget(p, o) || WantsDataApi(p, o) }

  predicate NeedsEndpoints(p: Policy, o: Options) { WantsSuffix(p, o) && !NeedsTarget(p, o) }

  // ---------------------------------------------------------------------------
  // Reads
  // ---------------------------------------------------------------------------

  /** Only reads happened between two worlds. */
  ghost predicate OnlyReads(w: World, w2: World) {
    && w.trace <= w2.trace && w2 == w.(trace := w2.trace)
    && forall i :: |w.trace| <= i < |w2.trace| ==> w2.trace[i].Read?
  }

  lemma {:induction false} ReadsTrans(w: World, w1: World, w2: World)
    requires OnlyReads(w, w1) && OnlyReads(w1, w2)
    ensures OnlyReads(w, w2)
  {
    forall i | |w.trace| <= i < |w2.trace| ensures w2.trace[i].Read? {
      if i < |w1.trace| { assert w2.trace[i] == w1.trace[i]; }
    }
  }

  /** A read that is started when wanted, and the world after it. */
  function Start<T>(w: World, wanted: bool, resource: Resource, value: T): (r: Started<T>)
    ensures OnlyReads(w, r.world) && (r.outcome.Some? <==> wanted)
    ensures r.outcome.Some? && r.outcome.value.Failure? ==> !r.outcome.value.error.Missing?
  {
    if !wanted then Started(w, None)
    else
      Started(Called(w, Read(resource)),
              Some(if Down(w) then Failure(Unavailable(Read(resource))) else Success(value)))
  }

  /** The value of an awaited read, or what stands for a read that was not started. */
  function Await<T>(outcome: Option<Result<T, Failure>>, otherwise: T): (r: Result<T, Failure>)
    ensures r.Failure? ==> outcome.Some? && outcome.value == r
    ensures r.Success? ==> r.value == (if outcome.Some? && outcome.value.Success? then outcome.value.value else otherwise)
  {
    match outcome case None => Success(otherwise) case Some(result) => result
  }

  /** `requiredValue`. */
  function Required<T>(value: Option<T>, resource: Resource): Result<T, Failure> {
    match value case None => Failure(Missing(resource)) case Some(v) => Success(v)
  }

  const OWNER := "neondb_owner"
  const DATABASE := "neondb"
  const MANAGED_ROLES: set<string> := {"authenticator", "anonymous", "authenticated"}

  function AppRoles(roles: seq<string>): seq<string> {
    if roles == [] then [] else (if roles[0] in MANAGED_ROLES then [] else [roles[0]]) + AppRoles(roles[1..])
  }

  function DefaultRole(roles: seq<string>): Option<string> {
    if |roles| == 1 then Some(roles[0])
    else if OWNER in roles then Some(OWNER)
    else if |AppRoles(roles)| == 1 then Some(AppRoles(roles)[0]) else None
  }

  function PickRole(roles: seq<string>, requested: Option<string>): (r: Result<string, Failure>)
    ensures r.Failure? ==> !r.error.Missing?
  {
    match requested
    case Some(name) => if name in roles then Success(name) else Failure(NotFound(Roles))
    case None =>
      if roles == [] then Failure(NotFound(Roles))
      else match DefaultRole(roles) case Some(name) => Success(name) case None => Failure(Ambiguous(Roles))
  }

  function PickDatabase(databases: seq<string>, requested: Option<string>): (r: Result<string, Failure>)
    ensures r.Failure? ==> !r.error.Missing?
  {
    match requested
    case Some(name) => if name in databases then Success(name) else Failure(NotFound(Databases))
    case None =>
      if databases == [] then Failure(NotFound(Databases))
      else if DATABASE in databases then Success(DATABASE)
      else if |databases| == 1 then Success(databases[0])
      else Failure(Ambiguous(Databases))
  }

  datatype Target = Target(role: Option<string>, database: Option<string>)

  /** The role and database that connection URIs and the Data API need. */
  function PickTarget(p: Policy, o: Options, roles: seq<string>, databases: seq<string>): (r: Result<Target, Failure>)
    ensures r.Failure? ==> !r.error.Missing?
    ensures r.Success? ==> (NeedsDatabase(p, o) <==> r.value.database.Some?) && (NeedsTarget(p, o) <==> r.value.role.Some?)
  {
    var database :- PickedDatabase(NeedsDatabase(p, o), databases, o.databaseName);
    if !NeedsTarget(p, o) then Success(Target(None, database))
    else
      var role :- PickRole(roles, o.roleName);
      TargetOf(role, database)
  }

  function PickedDatabase(needed: bool, databases: seq<string>, requested: Option<string>): (r: Result<Option<string>, Failure>)
    ensures r.Failure? ==> !r.error.Missing?
    ensures r.Success? ==> (needed <==> r.value.Some?)
  {
    if !needed then Success(None)
    else
      var name :- PickDatabase(databases, requested);
      Success(Some(name))
  }

  function TargetOf(role: string, database: Option<string>): Result<Target, Failure> {
    var name :- Required(database, Databases);
    Success(Target(Some(role), Some(name)))
  }

  /** The reads no other read depends on: started first, awaited where they are used. */
  datatype Early = Early(
    world: World,
    storage: Option<Result<Option<StorageSnapshot>, Failure>>,
    computes: Option<Result<seq<Compute>, Failure>>)

  function StartEarly(w: World, b: Branch, p: Policy, o: Options): (r: Early)
    ensures OnlyReads(w, r.world)
    ensures r.storage.Some? <==> WantsStorage(p, o)
    ensures r.computes.Some? <==> NeedsEndpoints(p, o)
    ensures r.storage.Some? && r.storage.value.Failure? ==> !r.storage.value.error.Missing?
    ensures r.computes.Some? && r.computes.value.Failure? ==> !r.computes.value.error.Missing?
  {
    var storage := Start(w, WantsStorage(p, o), Storage, b.storage);
    var computes := Start(storage.world, NeedsEndpoints(p, o), Endpoints, b.computes);
    ReadsTrans(w, storage.world, computes.world);
    Early(computes.world, storage.outcome, computes.outcome)
  }

  function ReadTarget(w: World, b: Branch, p: Policy, o: Options): (r: Reply<Target>)
    ensures OnlyReads(w, r.world)
    ensures r.result.Failure? ==> !r.result.error.Missing?
    ensures r.result.Success? ==> (NeedsDatabase(p, o) <==> r.result.value.database.Some?)
                                  && (NeedsTarget(p, o) <==> r.result.value.role.Some?)
  {
    var roles := Start(w, NeedsTarget(p, o), Roles, b.roles);
    var databases := Start(roles.world, NeedsDatabase(p, o), Databases, b.databases);
    ReadsTrans(w, roles.world, databases.world);
    var awaited := Await(roles.outcome, []);
    if awaited.Failure? then Reply(databases.world, Failure(awaited.error))
    else
      var listed := Await(databases.outcome, []);
      if listed.Failure? then Reply(databases.world, Failure(listed.error))
      else Reply(databases.world, PickTarget(p, o, awaited.value, listed.value))
  }

  /** `getConnectionUri`, started when wanted. */
  function StartUri(w: World, b: Branch, target: Target, wanted: bool, pooled: bool): (r: Started<Option<string>>)
    ensures OnlyReads(w, r.world)
    ensures r.outcome.Some? <==> wanted
    ensures wanted && target.role.Some? && target.database.Some? && r.outcome.value.Failure? ==> !r.outcome.value.error.Missing?
    ensures wanted && r.outcome.value.Success? ==> r.outcome.value.value.Some?
  {
    if !wanted then Started(w, None)
    else
      match (Required(target.role, Roles), Required(target.database, Databases))
      case (Success(role), Success(database)) =>
        var key := (role, database, pooled);
        if key in b.uris then Start(w, true, ConnectionUri(pooled), Some(b.uris[key]))
        else Started(Called(w, Read(ConnectionUri(pooled))), Some(Failure(Unavailable(Read(ConnectionUri(pooled))))))
      case (Failure(error), _) => Started(w, Some(Failure(error)))
      case (Success(_), Failure(error)) => Started(w, Some(Failure(error)))
  }

  function Lookup<K, V>(m: map<K, V>, key: K): Option<V> { if key in m then Some(m[key]) else None }

  /** What the four reads after the target gave. */
  datatype Services = Services(
    pooled: Option<string>, unpooled: Option<string>, auth: Option<AuthSnapshot>, dataApi: Option<string>)

  function StartDataApi(w: World, b: Branch, target: Target, wanted: bool): (r: Started<Option<string>>)
    ensures OnlyReads(w, r.world) && (r.outcome.Some? <==> wanted)
    ensures wanted && target.database.Some? && r.outcome.value.Failure? ==> !r.outcome.value.error.Missing?
  {
    if !wanted then Started(w, None)
    else
      match Required(target.database, Databases)
      case Failure(error) => Started(w, Some(Failure(error)))
      case Success(database) => Start(w, true, Resource.DataApi, Lookup(b.dataApis, database))
  }

  function ReadServices(w: World, b: Branch, p: Policy, o: Options, target: Target): (r: Reply<Services>)
    requires (NeedsDatabase(p, o) <==> target.database.Some?) && (NeedsTarget(p, o) <==> target.role.Some?)
    ensures OnlyReads(w, r.world)
    ensures r.result.Failure? ==> !r.result.error.Missing?
    ensures r.result.Success? ==>
              && (Wants(o, DatabaseUrl) <==> r.result.value.pooled.Some?)
              && (NeedsUnpooled(p, o) <==> r.result.value.unpooled.Some?)
  {
    var pooled := StartUri(w, b, target, Wants(o, DatabaseUrl), true);
    var unpooled := StartUri(pooled.world, b, target, NeedsUnpooled(p, o), false);
    ReadsTrans(w, pooled.world, unpooled.world);
    var auth := Start(unpooled.world, WantsAuth(p, o), Resource.NeonAuth, b.auth);
    ReadsTrans(w, unpooled.world, auth.world);
    var dataApi := StartDataApi(auth.world, b, target, WantsDataApi(p, o));
    ReadsTrans(w, auth.world, dataApi.world);
    Reply(dataApi.world, AllOf(pooled.outcome, unpooled.outcome, auth.outcome, dataApi.outcome))
  }

  /** `Promise.all`: every value, or the first failure. */
  function AllOf(pooled: Option<Result<Option<string>, Failure>>, unpooled: Option<Result<Option<string>, Failure>>,
                 auth: Option<Result<Option<AuthSnapshot>, Failure>>, dataApi: Option<Result<Option<string>, Failure>>):
    Result<Services, Failure>
  {
    var a :- Await(pooled, None);
    var b :- Await(unpooled, None);
    var c :- Await(auth, None);
    var d :- Await(dataApi, None);
    Success(Services(a, b, c, d))
  }

  // ---------------------------------------------------------------------------
  // Hosts
  // ---------------------------------------------------------------------------

  /** `host.split(".").slice(1).join(".")`: the host without its endpoint label. */
  function DropLabel(host: string): string {
    if host == "" then "" else if host[0] == '.' then host[1..] else DropLabel(host[1..])
  }

  function ComputeHost(computes: seq<Compute>, branchId: string): (r: Result<string, Failure>)
    ensures r.Failure? ==> !r.error.Missing?
  {
    var first := Find(computes, (c: Compute) => c.branchId == branchId);
    var writable := Find(computes, (c: Compute) => c.branchId == branchId && c.readWrite);
    var chosen := if writable.Some? then writable else first;
    if chosen.None? || chosen.value.host == "" then Failure(NotFound(Endpoints)) else Success(chosen.value.host)
  }

  function FunctionSuffix(host: string): (r: Result<string, Failure>)
    ensures r.Failure? ==> !r.error.Missing?
  {
    if DropLabel(host) == "" then Failure(BadHost) else Success(".compute." + DropLabel(host))
  }

  /** The host of a fetched connection URI, or of the branch's compute when none is fetched. */
  function SuffixHost(b: Branch, services: Services, computes: Option<Result<seq<Compute>, Failure>>): Result<string, Failure> {
    var uri := if services.unpooled.Some? then services.unpooled else services.pooled;
    match uri
    case Some(u) => if u in b.hosts then Success(b.hosts[u]) else Failure(BadHost)
    case None =>
      var read :- Required(computes, Endpoints);
      var listed :- read;
      ComputeHost(listed, b.id)
  }

  function SuffixOf(b: Branch, p: Policy, o: Options, services: Services, computes: Option<Result<seq<Compute>, Failure>>):
    (r: Result<Option<string>, Failure>)
    requires NeedsEndpoints(p, o) ==> computes.Some?
    requires NeedsTarget(p, o) ==> services.pooled.Some? || services.unpooled.Some?
    requires computes.Some? && computes.value.Failure? ==> !computes.value.error.Missing?
    ensures r.Failure? ==> !r.error.Missing?
    ensures r.Success? ==> (r.value.Some? <==> WantsSuffix(p, o))
  {
    if !WantsSuffix(p, o) then Success(None)
    else
      var host :- SuffixHost(b, services, computes);
      var suffix :- FunctionSuffix(host);
      Success(Some(suffix))
  }

  function GatewayUrl(b: Branch, uri: string): string {
    "https://" + b.id + "-api.ai." + DropLabel(if uri in b.hosts then b.hosts[uri] else "")
  }

  // ---------------------------------------------------------------------------
  // Everything but the credential
  // ---------------------------------------------------------------------------

  datatype Reading = Reading(
    services: Services, suffix: Option<string>, realtimeUrl: Option<string>, realtimeSecret: Option<string>,
    storage: Option<StorageSnapshot>)

  /** `resolveRealtimeEnv`, once the service is no longer pending. */
  function RealtimeOf(o: Options, snapshot: Option<RealtimeSnapshot>): (r: Result<(Option<string>, Option<string>), Failure>)
    ensures r.Failure? ==> !r.error.Missing?
    ensures r.Success? ==> (r.value.0.Some? <==> Wants(o, RealtimeUrl)) && (r.value.1.Some? <==> Wants(o, RealtimeSecret))
  {
    match snapshot
    case None => Failure(NotFound(Resource.Realtime))
    case Some(found) =>
      if Wants(o, RealtimeUrl) && found.url.None? then Failure(NotFound(Resource.Realtime))
      else
        Success((if Wants(o, RealtimeUrl) then found.url else None,
                 if Wants(o, RealtimeSecret) then Some(found.secret) else None))
  }

  function ReadRealtime(w: World, b: Branch, p: Policy, o: Options): (r: Reply<(Option<string>, Option<string>)>)
    ensures OnlyReads(w, r.world)
    ensures r.result.Failure? ==> !r.result.error.Missing?
    ensures r.result.Success? && WantsRealtime(p, o) ==>
              (r.result.value.0.Some? <==> Wants(o, RealtimeUrl)) && (r.result.value.1.Some? <==> Wants(o, RealtimeSecret))
    ensures r.result.Success? && !WantsRealtime(p, o) ==> r.result.value == (None, None)
  {
    var read := Start(w, WantsRealtime(p, o), Resource.Realtime, b.realtime);
    match read.outcome
    case None => Reply(read.world, Success((None, None)))
    case Some(Failure(error)) => Reply(read.world, Failure(error))
    case Some(Success(snapshot)) => Reply(read.world, RealtimeOf(o, snapshot))
  }

  /** The storage read awaited: it must have been started, and the branch must have storage. */
  function AwaitStorage(read: Option<Result<Option<StorageSnapshot>, Failure>>): (r: Result<Option<StorageSnapshot>, Failure>)
    ensures r.Failure? && r.error.Missing? ==> read.None? || (read.value.Failure? && read.value.error.Missing?)
    ensures r.Success? ==> r.value.Some?
  {
    var started :- Required(read, Storage);
    var storage :- started;
    if storage.None? then Failure(NotFound(Storage)) else Success(storage)
  }

  function StorageOf(p: Policy, o: Options, read: Option<Result<Option<StorageSnapshot>, Failure>>): (r: Result<Option<StorageSnapshot>, Failure>)
    requires read.Some? <==> WantsStorage(p, o)
    requires read.Some? && read.value.Failure? ==> !read.value.error.Missing?
    ensures r.Failure? ==> !r.error.Missing?
    ensures r.Success? ==> (r.value.Some? <==> WantsStorage(p, o))
  {
    if !WantsStorage(p, o) then Success(None) else AwaitStorage(read)
  }

  /** The reads after the target is known. */
  function ReadRest(w: World, b: Branch, p: Policy, o: Options, early: Early, services: Services): (r: Reply<Reading>)
    requires early.storage.Some? <==> WantsStorage(p, o)
    requires early.computes.Some? <==> NeedsEndpoints(p, o)
    requires early.storage.Some? && early.storage.value.Failure? ==> !early.storage.value.error.Missing?
    requires early.computes.Some? && early.computes.value.Failure? ==> !early.computes.value.error.Missing?
    requires (Wants(o, DatabaseUrl) <==> services.pooled.Some?) && (NeedsUnpooled(p, o) <==> services.unpooled.Some?)
    ensures OnlyReads(w, r.world)
    ensures r.result.Failure? ==> !r.result.error.Missing?
    ensures r.result.Success? ==> r.result.value.services == services && Complete(p, o, r.result.value)
  {
    hide Wants, NeedsUnpooled;
    var suffix := SuffixOf(b, p, o, services, early.computes);
    if suffix.Failure? then Reply(w, Failure(suffix.error))
    else if WantsAuth(p, o) && services.auth.None? then Reply(w, Failure(NotFound(Resource.NeonAuth)))
    else if WantsDataApi(p, o) && services.dataApi.None? then Reply(w, Failure(NotFound(Resource.DataApi)))
    else
      var realtime := ReadRealtime(w, b, p, o);
      if realtime.result.Failure? then Reply(realtime.world, Failure(realtime.result.error))
      else
        var storage := StorageOf(p, o, early.storage);
        if storage.Failure? then Reply(realtime.world, Failure(storage.error))
        else
          Reply(realtime.world,
                Success(Reading(services, suffix.value, realtime.result.value.0, realtime.result.value.1, storage.value)))
  }

  /** Everything the selected keys depend on was read. */
  ghost predicate Complete(p: Policy, o: Options, r: Reading) {
    && (Wants(o, DatabaseUrl) <==> r.services.pooled.Some?)
    && (NeedsUnpooled(p, o) <==> r.services.unpooled.Some?)
    && (WantsAuth(p, o) ==> r.services.auth.Some?)
    && (WantsDataApi(p, o) ==> r.services.dataApi.Some?)
    && (r.suffix.Some? <==> WantsSuffix(p, o))
    && (r.realtimeUrl.Some? <==> p.realtime && Wants(o, RealtimeUrl))
    && (r.realtimeSecret.Some? <==> p.realtime && Wants(o, RealtimeSecret))
    && (r.storage.Some? <==> WantsStorage(p, o))
  }

  function ReadBranch(w: World, b: Branch, p: Policy, o: Options): (r: Reply<Reading>)
    ensures OnlyReads(w, r.world)
    ensures r.result.Failure? ==> !r.result.error.Missing?
    ensures r.result.Success? ==> Complete(p, o, r.result.value)
  {
    var early := StartEarly(w, b, p, o);
    var target := ReadTarget(early.world, b, p, o);
    ReadsTrans(w, early.world, target.world);
    if target.result.Failure? then Reply(target.world, Failure(target.result.error))
    else
      var services := ReadServices(target.world, b, p, o, target.result.value);
      ReadsTrans(w, target.world, services.world);
      if services.result.Failure? then Reply(services.world, Failure(services.result.error))
      else
        var rest := ReadRest(services.world, b, p, o, early, services.result.value);
        ReadsTrans(w, services.world, rest.world);
        rest
  }

  // ---------------------------------------------------------------------------
  // The env
  // ---------------------------------------------------------------------------

  /** `ResolvedNeonEnv`: a value for each var that was resolved. */
  datatype Env = Env(
    databaseUrl: Option<string>, databaseUrlUnpooled: Option<string>,
    branchName: Option<string>, branchId: Option<string>, functionHostSuffix: Option<string>,
    authBaseUrl: Option<string>, authJwksUrl: Option<string>, dataApiUrl: Option<string>,
    realtimeUrl: Option<string>, realtimeSecret: Option<string>,
    accessKeyId: Option<string>, secretAccessKey: Option<string>, endpoint: Option<string>, region: Option<string>,
    gatewayToken: Option<string>, gatewayBaseUrl: Option<string>)

  function Put(vars: map<EnvKey, string>, key: EnvKey, value: Option<string>): map<EnvKey, string> {
    match value case None => vars case Some(v) => vars[key := v]
  }

  function ValueOf(env: Env, key: EnvKey): Option<string> {
    match key
    case DatabaseUrl => env.databaseUrl
    case DatabaseUrlUnpooled => env.databaseUrlUnpooled
    case BranchName => env.branchName
    case BranchId => env.branchId
    case FunctionHostSuffix => env.functionHostSuffix
    case AuthBaseUrl => env.authBaseUrl
    case AuthJwksUrl => env.authJwksUrl
    case DataApiUrl => env.dataApiUrl
    case RealtimeUrl => env.realtimeUrl
    case RealtimeSecret => env.realtimeSecret
    case AccessKeyId => env.accessKeyId
    case SecretAccessKey => env.secretAccessKey
    case StorageEndpoint => env.endpoint
    case StorageRegion => env.region
    case GatewayToken => env.gatewayToken
    case GatewayBaseUrl => env.gatewayBaseUrl
  }

  const EMIT_ORDER: seq<EnvKey> :=
    [DatabaseUrl, DatabaseUrlUnpooled, BranchName, BranchId, FunctionHostSuffix, AuthBaseUrl, AuthJwksUrl, DataApiUrl,
     RealtimeUrl, RealtimeSecret, AccessKeyId, SecretAccessKey, StorageEndpoint, StorageRegion, GatewayToken, GatewayBaseUrl]

  function PutAll(vars: map<EnvKey, string>, env: Env, keys: seq<EnvKey>): map<EnvKey, string>
    decreases |keys|
  {
    if keys == [] then vars else PutAll(Put(vars, keys[0], ValueOf(env, keys[0])), env, keys[1..])
  }

  /** The vars of a resolved env. */
  function ToEntries(env: Env): map<EnvKey, string> { PutAll(map[], env, EMIT_ORDER) }

  function OrEmpty(value: Option<string>): string { match value case None => "" case Some(v) => v }

  function If(wanted: bool, value: Option<string>): Option<string> { if wanted then value else None }

  /** The result object, namespace by namespace. */
  function Assemble(b: Branch, p: Policy, o: Options, r: Reading, secrets: Option<Secrets>): Result<Env, Failure>
    requires Complete(p, o, r)
  {
    var token := if p.aiGateway && secrets.Some? then If(Wants(o, GatewayToken), Some(secrets.value.apiToken)) else None;
    var gateway :- (if p.aiGateway && Wants(o, GatewayBaseUrl) then
                      match Required(r.services.unpooled, ConnectionUri(false))
                      case Failure(error) => Failure(error)
                      case Success(uri) => Success(Some(GatewayUrl(b, uri)))
                    else Success(None));
    Success(Env(
      If(Wants(o, DatabaseUrl), r.services.pooled),
      If(Wants(o, DatabaseUrlUnpooled), r.services.unpooled),
      If(Wants(o, BranchName), Some(b.name)),
      If(Wants(o, BranchId), Some(b.id)),
      r.suffix,
      if WantsAuth(p, o) then If(Wants(o, AuthBaseUrl), Some(OrEmpty(r.services.auth.value.baseUrl))) else None,
      if WantsAuth(p, o) then If(Wants(o, AuthJwksUrl), Some(OrEmpty(r.services.auth.value.jwksUrl))) else None,
      if WantsDataApi(p, o) then r.services.dataApi else None,
      r.realtimeUrl,
      r.realtimeSecret,
      if r.storage.Some? && secrets.Some? then If(Wants(o, AccessKeyId), Some(secrets.value.accessKeyId)) else None,
      if r.storage.Some? && secrets.Some? then If(Wants(o, SecretAccessKey), Some(secrets.value.secretAccessKey)) else None,
      if r.storage.Some? then If(Wants(o, StorageEndpoint), Some(r.storage.value.endpoint)) else None,
      if r.storage.Some? then If(Wants(o, StorageRegion), Some(r.storage.value.region)) else None,
      token,
      gateway))
  }

  /** `previewCredentialScopes`. */
  function PreviewScopes(p: Policy, storage: bool, aiGateway: bool): set<Scope> {
    var s, g := p.buckets > 0 && storage, p.aiGateway && aiGateway;
    if !s && !g then {} else DeriveScopes(s, g, p.functions > 0)
  }

  function SecretScopes(p: Policy, o: Options): set<Scope> {
    PreviewScopes(p, WantsStorageCredential(p, o), WantsGatewayCredential(p, o))
  }

  predicate WantsCredential(p: Policy, o: Options) { WantsStorageCredential(p, o) || WantsGatewayCredential(p, o) }

  /** `fetchEnvKeysState`, projected by `toEntries`. */
  function Fetch(w: World, b: Branch, p: Policy, o: Options, now: int): Reply<map<EnvKey, string>> {
    var reading := ReadBranch(w, b, p, o);
    if reading.result.Failure? then Reply(reading.world, Failure(reading.result.error))
    else if !WantsCredential(p, o) then Reply(reading.world, Entries(b, p, o, reading.result.value, None))
    else
      var secrets := Resolve(reading.world, SecretScopes(p, o), b.name, now);
      if secrets.result.Failure? then Reply(secrets.world, Failure(secrets.result.error))
      else Reply(secrets.world, Entries(b, p, o, reading.result.value, Some(secrets.result.value)))
  }

  function Entries(b: Branch, p: Policy, o: Options, r: Reading, secrets: Option<Secrets>): Result<map<EnvKey, string>, Failure>
    requires Complete(p, o, r)
  {
    var env :- Assemble(b, p, o, r, secrets);
    Success(ToEntries(env))
  }

  // ---------------------------------------------------------------------------
  // The plan and its execution agree
  // ---------------------------------------------------------------------------

  function Keys(included: bool, keys: seq<EnvKey>): seq<EnvKey> { if included then keys else [] }

  /** `policyEnvKeys`, in emit order. */
  function PolicyKeys(p: Policy): seq<EnvKey> {
    [DatabaseUrl, DatabaseUrlUnpooled, BranchName, BranchId]
    + Keys(p.functions > 0, [FunctionHostSuffix])
    + Keys(p.auth, [AuthBaseUrl, AuthJwksUrl])
    + Keys(p.dataApi, [DataApiUrl])
    + Keys(p.realtime, [RealtimeUrl, RealtimeSecret])
    + Keys(p.buckets > 0, [AccessKeyId, SecretAccessKey, StorageEndpoint, StorageRegion])
    + Keys(p.aiGateway, [GatewayToken, GatewayBaseUrl])
  }

  /** A key a fetch should return: a wanted key of the policy, or the suffix when asked for outright. */
  predicate Due(p: Policy, o: Options, key: EnvKey) {
    Wants(o, key) && (key in PolicyKeys(p) || (key == FunctionHostSuffix && (o.keys.Some? || o.mode == Always)))
  }

  predicate Enabled(p: Policy, key: EnvKey) {
    match key
    case FunctionHostSuffix => p.functions > 0
    case AuthBaseUrl | AuthJwksUrl => p.auth
    case DataApiUrl => p.dataApi
    case RealtimeUrl | RealtimeSecret => p.realtime
    case AccessKeyId | SecretAccessKey | StorageEndpoint | StorageRegion => p.buckets > 0
    case GatewayToken | GatewayBaseUrl => p.aiGateway
    case _ => true
  }

  lemma {:induction false} JoinedKeys(before: seq<EnvKey>, included: bool, keys: seq<EnvKey>, key: EnvKey)
    ensures key in before + Keys(included, keys) <==> key in before || (included && key in keys)
  {
  }

  lemma {:induction false} EnabledByGroup(p: Policy, key: EnvKey)
    ensures Enabled(p, key) <==>
              || key in [DatabaseUrl, DatabaseUrlUnpooled, BranchName, BranchId]
              || (p.functions > 0 && key in [FunctionHostSuffix])
              || (p.auth && key in [AuthBaseUrl, AuthJwksUrl])
              || (p.dataApi && key in [DataApiUrl])
              || (p.realtime && key in [RealtimeUrl, RealtimeSecret])
              || (p.buckets > 0 && key in [AccessKeyId, SecretAccessKey, StorageEndpoint, StorageRegion])
              || (p.aiGateway && key in [GatewayToken, GatewayBaseUrl])
  {
  }

  lemma {:induction false} InPolicy(p: Policy, key: EnvKey)
    ensures key in PolicyKeys(p) <==> Enabled(p, key)
  {
    hide Keys, Enabled;
    EnabledByGroup(p, key);
    var a := [DatabaseUrl, DatabaseUrlUnpooled, BranchName, BranchId];
    var b := a + Keys(p.functions > 0, [FunctionHostSuffix]);
    var c := b + Keys(p.auth, [AuthBaseUrl, AuthJwksUrl]);
    var d := c + Keys(p.dataApi, [DataApiUrl]);
    var e := d + Keys(p.realtime, [RealtimeUrl, RealtimeSecret]);
    var f := e + Keys(p.buckets > 0, [AccessKeyId, SecretAccessKey, StorageEndpoint, StorageRegion]);
    JoinedKeys(a, p.functions > 0, [FunctionHostSuffix], key);
    JoinedKeys(b, p.auth, [AuthBaseUrl, AuthJwksUrl], key);
    JoinedKeys(c, p.dataApi, [DataApiUrl], key);
    JoinedKeys(d, p.realtime, [RealtimeUrl, RealtimeSecret], key);
    JoinedKeys(e, p.buckets > 0, [AccessKeyId, SecretAccessKey, StorageEndpoint, StorageRegion], key);
    JoinedKeys(f, p.aiGateway, [GatewayToken, GatewayBaseUrl], key);
  }

  lemma {:induction false} PutAllHas(vars: map<EnvKey, string>, env: Env, keys: seq<EnvKey>, key: EnvKey)
    requires key in vars ==> vars[key] == OrEmpty(ValueOf(env, key)) && ValueOf(env, key).Some?
    ensures key in PutAll(vars, env, keys) <==> key in vars || (key in keys && ValueOf(env, key).Some?)
    ensures key in PutAll(vars, env, keys) ==> PutAll(vars, env, keys)[key] == OrEmpty(ValueOf(env, key))
    decreases |keys|
  {
    hide ValueOf;
    if keys != [] {
      PutAllHas(Put(vars, keys[0], ValueOf(env, keys[0])), env, keys[1..], key);
    }
  }

  lemma {:induction false} EntriesHave(env: Env, key: EnvKey)
    ensures key in ToEntries(env) <==> ValueOf(env, key).Some?
    ensures key in ToEntries(env) ==> ToEntries(env)[key] == ValueOf(env, key).value
  {
    hide ValueOf, PutAll;
    PutAllHas(map[], env, EMIT_ORDER, key);
    assert key in EMIT_ORDER by { AllEmitted(key); }
  }

  lemma {:induction false} AllEmitted(key: EnvKey)
    ensures key in EMIT_ORDER
  {
    var i := match key
      case DatabaseUrl => 0 case DatabaseUrlUnpooled => 1 case BranchName => 2 case BranchId => 3
      case FunctionHostSuffix => 4 case AuthBaseUrl => 5 case AuthJwksUrl => 6 case DataApiUrl => 7
      case RealtimeUrl => 8 case RealtimeSecret => 9 case AccessKeyId => 10 case SecretAccessKey => 11
      case StorageEndpoint => 12 case StorageRegion => 13 case GatewayToken => 14 case GatewayBaseUrl => 15;
    assert EMIT_ORDER[i] == key;
  }

  lemma {:induction false} AssembledKey(b: Branch, p: Policy, o: Options, r: Reading, secrets: Option<Secrets>, key: EnvKey)
    requires Complete(p, o, r) && (secrets.Some? <==> WantsCredential(p, o))
    ensures Assemble(b, p, o, r, secrets).Success?
    ensures ValueOf(Assemble(b, p, o, r, secrets).value, key).Some? <==> Due(p, o, key)
  {
    hide PolicyKeys, GatewayUrl;
    InPolicy(p, key);
  }

  /**
   * No read that execution needs is left out of the plan, and a successful fetch returns exactly
   * the keys that are due, for every policy, selection and set of omitted keys.
   */
  lemma {:induction false} PlanAgrees(w: World, b: Branch, p: Policy, o: Options, now: int)
    ensures var r := Fetch(w, b, p, o, now).result;
            && (r.Failure? ==> !r.error.Missing?)
            && (r.Success? ==> forall key :: key in r.value <==> Due(p, o, key))
  {
    hide ReadBranch, Resolve, Entries, Due, Complete, WantsCredential, SecretScopes;
    var reading := ReadBranch(w, b, p, o);
    if reading.result.Success? {
      if WantsCredential(p, o) {
        ResolveNeverMissing(reading.world, SecretScopes(p, o), b.name, now);
        var secrets := Resolve(reading.world, SecretScopes(p, o), b.name, now);
        if secrets.result.Success? { EntriesAgree(b, p, o, reading.result.value, Some(secrets.result.value)); }
      } else {
        EntriesAgree(b, p, o, reading.result.value, None);
      }
    }
  }

  lemma {:induction false} EntriesAgree(b: Branch, p: Policy, o: Options, r: Reading, secrets: Option<Secrets>)
    requires Complete(p, o, r) && (secrets.Some? <==> WantsCredential(p, o))
    ensures Entries(b, p, o, r, secrets).Success?
    ensures forall key :: key in Entries(b, p, o, r, secrets).value <==> Due(p, o, key)
  {
    hide Assemble, ToEntries, ValueOf, Due, Complete, WantsCredential;
    AssembledKey(b, p, o, r, secrets, DatabaseUrl);
    forall key ensures key in Entries(b, p, o, r, secrets).value <==> Due(p, o, key) {
      AssembledKey(b, p, o, r, secrets, key);
      EntriesHave(Assemble(b, p, o, r, secrets).value, key);
    }
  }

  lemma {:induction false} ResolveNeverMissing(w: World, scopes: set<Scope>, branchName: string, now: int)
    ensures var r := Resolve(w, scopes, branchName, now).result; r.Failure? ==> !r.error.Missing?
  {
    hide Find, DefaultOf, DeriveScopes;
  }
}
