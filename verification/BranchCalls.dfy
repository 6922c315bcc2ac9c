/**
 * The calls a fetch of `fetchEnvKeysState` makes, told by the vars asked for, and the credentials
 * its secrets come from: the live platform defaults by their names, and one minted under this
 * tool's name for the halves without one.
 */
module BranchCalls {
  import opened Wrappers
  import opened Credentials
  import opened BranchEnv
  import opened BranchValues
  import opened ReuseDiscipline
  import opened ReuseFixedPoint

  // ---------------------------------------------------------------------------
  // Reads
  // ---------------------------------------------------------------------------

  function When(wanted: bool, resource: Resource): seq<Call> { if wanted then [Read(resource)] else [] }

  predicate AsksStorage(p: Policy, o: Options) {
    p.buckets > 0 && (Asked(o, AccessKeyId) || Asked(o, SecretAccessKey) || Asked(o, StorageEndpoint) || Asked(o, StorageRegion))
  }

  predicate AsksSuffix(p: Policy, o: Options) { Asked(o, FunctionHostSuffix) && Provided(p, o, FunctionHostSuffix) }

  predicate AsksUri(p: Policy, o: Options) { Asked(o, DatabaseUrl) || AsksDirect(p, o) }

  predicate AsksDataApi(p: Policy, o: Options) { p.dataApi && Asked(o, DataApiUrl) }

  /** The reads that need nothing else first: the storage settings, and the computes where no URI gives the host. */
  function EarlyReads(p: Policy, o: Options): seq<Call> {
    When(AsksStorage(p, o), Storage) + When(AsksSuffix(p, o) && !AsksUri(p, o), Endpoints)
  }

  /** Roles and databases, for a URI or the Data API. */
  function TargetReads(p: Policy, o: Options): seq<Call> {
    When(AsksUri(p, o), Roles) + When(AsksUri(p, o) || AsksDataApi(p, o), Databases)
  }

  function ServiceReads(p: Policy, o: Options): seq<Call> {
    When(Asked(o, DatabaseUrl), ConnectionUri(true)) + When(AsksDirect(p, o), ConnectionUri(false))
    + When(p.auth && (Asked(o, AuthBaseUrl) || Asked(o, AuthJwksUrl)), Resource.NeonAuth)
    + When(AsksDataApi(p, o), Resource.DataApi)
  }

  function RealtimeReads(p: Policy, o: Options): seq<Call> {
    When(p.realtime && (Asked(o, RealtimeUrl) || Asked(o, RealtimeSecret)), Resource.Realtime)
  }

  /** Every read a fetch takes: only what a var that is asked for depends on. */
  function PlannedReads(p: Policy, o: Options): seq<Call> {
    EarlyReads(p, o) + TargetReads(p, o) + ServiceReads(p, o) + RealtimeReads(p, o)
  }

  /** From one world to another by these calls, and nothing else changed. */
  ghost predicate Took(w: World, w2: World, calls: seq<Call>) { w2 == w.(trace := w.trace + calls) }

  lemma {:induction false} TookBoth(w: World, w1: World, w2: World, a: seq<Call>, b: seq<Call>)
    requires Took(w, w1, a) && Took(w1, w2, b)
    ensures Took(w, w2, a + b)
  {
    assert w.trace + a + b == w.trace + (a + b);
  }

  lemma {:induction false} StartTakes<T>(w: World, wanted: bool, resource: Resource, value: T)
    ensures Took(w, Start(w, wanted, resource, value).world, When(wanted, resource))
  {
    assert w.trace + [] == w.trace;
  }

  lemma {:induction false} EarlyTakes(w: World, b: Branch, p: Policy, o: Options)
    ensures Took(w, StartEarly(w, b, p, o).world, EarlyReads(p, o))
  {
    hide When, Took, Start;
    var storage := Start(w, WantsStorage(p, o), Storage, b.storage);
    StartTakes(w, AsksStorage(p, o), Storage, b.storage);
    StartTakes(storage.world, AsksSuffix(p, o) && !AsksUri(p, o), Endpoints, b.computes);
    assert WantsStorage(p, o) <==> AsksStorage(p, o);
    assert NeedsEndpoints(p, o) <==> AsksSuffix(p, o) && !AsksUri(p, o);
    TookBoth(w, storage.world, StartEarly(w, b, p, o).world, When(AsksStorage(p, o), Storage),
             When(AsksSuffix(p, o) && !AsksUri(p, o), Endpoints));
  }

  lemma {:induction false} TargetTakes(w: World, b: Branch, p: Policy, o: Options)
    ensures Took(w, ReadTarget(w, b, p, o).world, TargetReads(p, o))
  {
    hide When, Took, Start, PickTarget;
    var roles := Start(w, NeedsTarget(p, o), Roles, b.roles);
    assert NeedsTarget(p, o) <==> AsksUri(p, o);
    assert NeedsDatabase(p, o) <==> AsksUri(p, o) || AsksDataApi(p, o);
    StartTakes(w, AsksUri(p, o), Roles, b.roles);
    StartTakes(roles.world, AsksUri(p, o) || AsksDataApi(p, o), Databases, b.databases);
    TookBoth(w, roles.world, ReadTarget(w, b, p, o).world, When(AsksUri(p, o), Roles), When(AsksUri(p, o) || AsksDataApi(p, o), Databases));
  }

  lemma {:induction false} UriTakes(w: World, b: Branch, target: Target, wanted: bool, pooled: bool)
    requires wanted ==> target.role.Some? && target.database.Some?
    ensures Took(w, StartUri(w, b, target, wanted, pooled).world, When(wanted, ConnectionUri(pooled)))
  {
    if wanted {
      StartTakes(w, true, ConnectionUri(pooled), b.uris);
    } else {
      assert w.trace + [] == w.trace;
    }
  }

  lemma {:induction false} DataApiTakes(w: World, b: Branch, target: Target, wanted: bool)
    requires wanted ==> target.database.Some?
    ensures Took(w, StartDataApi(w, b, target, wanted).world, When(wanted, Resource.DataApi))
  {
    if !wanted { assert w.trace + [] == w.trace; }
  }

  lemma {:induction false} ServicesTake(w: World, b: Branch, p: Policy, o: Options, target: Target)
    requires (NeedsDatabase(p, o) <==> target.database.Some?) && (NeedsTarget(p, o) <==> target.role.Some?)
    ensures Took(w, ReadServices(w, b, p, o, target).world, ServiceReads(p, o))
  {
    hide When, Took, Start, StartUri, StartDataApi;
    var pooled := StartUri(w, b, target, Wants(o, DatabaseUrl), true);
    var unpooled := StartUri(pooled.world, b, target, NeedsUnpooled(p, o), false);
    var auth := Start(unpooled.world, WantsAuth(p, o), Resource.NeonAuth, b.auth);
    var dataApi := StartDataApi(auth.world, b, target, WantsDataApi(p, o));
    UriTakes(w, b, target, Asked(o, DatabaseUrl), true);
    UriTakes(pooled.world, b, target, AsksDirect(p, o), false);
    StartTakes(unpooled.world, WantsAuth(p, o), Resource.NeonAuth, b.auth);
    DataApiTakes(auth.world, b, target, AsksDataApi(p, o));
    var c1, c2 := When(Asked(o, DatabaseUrl), ConnectionUri(true)), When(AsksDirect(p, o), ConnectionUri(false));
    var c3 := When(WantsAuth(p, o), Resource.NeonAuth);
    TookBoth(w, pooled.world, unpooled.world, c1, c2);
    TookBoth(w, unpooled.world, auth.world, c1 + c2, c3);
    TookBoth(w, auth.world, dataApi.world, c1 + c2 + c3, When(AsksDataApi(p, o), Resource.DataApi));
  }

  lemma {:induction false} RealtimeTakes(w: World, b: Branch, p: Policy, o: Options)
    ensures Took(w, ReadRealtime(w, b, p, o).world, RealtimeReads(p, o))
  {
    hide RealtimeOf;
    StartTakes(w, WantsRealtime(p, o), Resource.Realtime, b.realtime);
  }

  /** A reading that succeeds takes the planned reads, in order. */
  lemma {:induction false} BranchTakes(w: World, b: Branch, p: Policy, o: Options)
    requires ReadBranch(w, b, p, o).result.Success?
    ensures Took(w, ReadBranch(w, b, p, o).world, PlannedReads(p, o))
  {
    hide Took, ReadTarget, ReadServices, EarlyReads, TargetReads, ServiceReads, RealtimeReads, Complete, StartEarly, ReadRest;
    var early := StartEarly(w, b, p, o);
    EarlyTakes(w, b, p, o);
    var target := ReadTarget(early.world, b, p, o);
    TargetTakes(early.world, b, p, o);
    var services := ReadServices(target.world, b, p, o, target.result.value);
    ServicesTake(target.world, b, p, o, target.result.value);
    var rest := ReadRest(services.world, b, p, o, early, services.result.value);
    RestTakes(services.world, b, p, o, early, services.result.value);
    TookBoth(w, early.world, target.world, EarlyReads(p, o), TargetReads(p, o));
    TookBoth(w, target.world, services.world, EarlyReads(p, o) + TargetReads(p, o), ServiceReads(p, o));
    TookBoth(w, services.world, rest.world, EarlyReads(p, o) + TargetReads(p, o) + ServiceReads(p, o), RealtimeReads(p, o));
  }

  lemma {:induction false} RestTakes(w: World, b: Branch, p: Policy, o: Options, early: Early, services: Services)
    requires early.storage.Some? <==> WantsStorage(p, o)
    requires early.computes.Some? <==> NeedsEndpoints(p, o)
    requires early.storage.Some? && early.storage.value.Failure? ==> !early.storage.value.error.Missing?
    requires early.computes.Some? && early.computes.value.Failure? ==> !early.computes.value.error.Missing?
    requires (Wants(o, DatabaseUrl) <==> services.pooled.Some?) && (NeedsUnpooled(p, o) <==> services.unpooled.Some?)
    requires ReadRest(w, b, p, o, early, services).result.Success?
    ensures Took(w, ReadRest(w, b, p, o, early, services).world, RealtimeReads(p, o))
  {
    hide Took, RealtimeReads, SuffixOf, ReadRealtime, StorageOf, Complete;
    RealtimeTakes(w, b, p, o);
  }

  // ---------------------------------------------------------------------------
  // Credentials
  // ---------------------------------------------------------------------------

  const STORAGE_NAME := "Default object storage credential"
  const GATEWAY_NAME := "Default AI gateway credential"

  /** Neither revoked nor past its expiry; an expiry that cannot be read does not count. */
  predicate LiveAt(c: Credential, now: int) { !c.revoked && (c.expiry.At? ==> now < c.expiry.time) }

  predicate LiveNamed(c: Credential, name: string, now: int) { c.name == Some(name) && LiveAt(c, now) }

  /** `d` is the first live credential of that name. */
  ghost predicate FirstLive(credentials: seq<Credential>, name: string, now: int, d: Credential) {
    exists i :: 0 <= i < |credentials| && credentials[i] == d && LiveNamed(d, name, now)
                && forall j :: 0 <= j < i ==> !LiveNamed(credentials[j], name, now)
  }

  ghost predicate NoneLive(credentials: seq<Credential>, name: string, now: int) {
    forall i :: 0 <= i < |credentials| ==> !LiveNamed(credentials[i], name, now)
  }

  lemma {:induction false} DefaultIs(credentials: seq<Credential>, name: string, now: int)
    ensures match DefaultOf(credentials, name, now)
            case Some(d) => FirstLive(credentials, name, now, d)
            case None => NoneLive(credentials, name, now)
  {
    hide Find, IsLive;
    forall c | c in credentials ensures DefaultTest(name, now)(c) <==> LiveNamed(c, name, now) { LiveIs(c, now); }
    if DefaultOf(credentials, name, now).Some? {
      var i := FindFirst(credentials, DefaultTest(name, now));
      forall j | 0 <= j < i ensures !LiveNamed(credentials[j], name, now) { LiveIs(credentials[j], now); }
    }
  }

  lemma {:induction false} LiveIs(c: Credential, now: int)
    ensures IsLive(c, now) <==> LiveAt(c, now)
  {
  }

  lemma {:induction false} NamesAre(branchName: string)
    ensures STORAGE_DEFAULT == STORAGE_NAME && GATEWAY_DEFAULT == GATEWAY_NAME && CredentialName(branchName) == "neon-env " + branchName
  {
  }

  /** What a credential minted for the halves without a live default may do. */
  ghost function MintedFor(credentials: seq<Credential>, storage: bool, gateway: bool, functions: bool, now: int): set<Scope> {
    (if storage && NoneLive(credentials, STORAGE_NAME, now) then {StorageRead, StorageWrite} else {})
    + (if gateway && NoneLive(credentials, GATEWAY_NAME, now) then {GatewayInvoke} else {})
    + (if functions then {FunctionsInvoke} else {})
  }

  /** A half's secrets come from the live default of its name, or, where there is none, from the credential just minted. */
  ghost predicate Source(before: seq<Credential>, after: seq<Credential>, name: string, now: int, branchName: string, scopes: set<Scope>,
                         c: Credential) {
    if NoneLive(before, name, now) then
      after == before + [c] && c.name == Some("neon-env " + branchName) && c.principal == "user" && c.scopes == scopes && LiveAt(c, now)
    else exists d :: FirstLive(before, name, now, d) && c in before && c.tokenId == d.tokenId
  }

  predicate AsksStorageSecret(p: Policy, o: Options) { p.buckets > 0 && (Asked(o, AccessKeyId) || Asked(o, SecretAccessKey)) }

  predicate AsksToken(p: Policy, o: Options) { p.aiGateway && Asked(o, GatewayToken) }

  lemma {:induction false} ScopesAre(p: Policy, o: Options, credentials: seq<Credential>, now: int)
    requires AsksStorageSecret(p, o) || AsksToken(p, o)
    ensures WantsCredential(p, o)
    ensures var scopes := SecretScopes(p, o);
            && (StorageRead in scopes || StorageWrite in scopes <==> AsksStorageSecret(p, o))
            && (GatewayInvoke in scopes <==> AsksToken(p, o))
            && (FunctionsInvoke in scopes <==> p.functions > 0)
            && MintScopes(credentials, scopes, now) == MintedFor(credentials, AsksStorageSecret(p, o), AsksToken(p, o), p.functions > 0, now)
  {
    hide DefaultOf, NoneLive, FirstLive;
    DefaultIs(credentials, STORAGE_NAME, now);
    DefaultIs(credentials, GATEWAY_NAME, now);
    FirstOrNone(credentials, STORAGE_NAME, now);
    FirstOrNone(credentials, GATEWAY_NAME, now);
    NamesAre("");
  }

  lemma {:induction false} FirstOrNone(credentials: seq<Credential>, name: string, now: int)
    ensures NoneLive(credentials, name, now) ==> forall d :: !FirstLive(credentials, name, now, d)
  {
  }

  lemma {:induction false} SourceIs(before: seq<Credential>, after: seq<Credential>, name: string, now: int, branchName: string,
                                    scopes: set<Scope>, supply: seq<Issue>, c: Credential)
    requires match DefaultOf(before, name, now)
             case Some(d) => c in before && c.tokenId == d.tokenId
             case None => supply != [] && c == Issued(supply[0], scopes, CredentialName(branchName)) && after == before + [c]
    ensures Source(before, after, name, now, branchName, scopes, c)
  {
    hide DefaultOf, FirstLive, NoneLive;
    DefaultIs(before, name, now);
    FirstOrNone(before, name, now);
    NamesAre(branchName);
  }

  /** The secrets a fetch returns, half by half. */
  lemma {:induction false} FetchedSecrets(w: World, b: Branch, p: Policy, o: Options, now: int)
    returns (forStorage: Credential, forGateway: Credential)
    requires Fetch(w, b, p, o, now).result.Success? && (AsksStorageSecret(p, o) || AsksToken(p, o))
    ensures var r := Fetch(w, b, p, o, now);
            var scopes := MintedFor(w.credentials, AsksStorageSecret(p, o), AsksToken(p, o), p.functions > 0, now);
            && (AsksStorageSecret(p, o) ==>
                  && Source(w.credentials, r.world.credentials, STORAGE_NAME, now, b.name, scopes, forStorage)
                  && (AccessKeyId in r.result.value ==> r.result.value[AccessKeyId] == forStorage.tokenId)
                  && (SecretAccessKey in r.result.value ==> r.result.value[SecretAccessKey] == forStorage.s3Secret))
            && (AsksToken(p, o) ==>
                  && Source(w.credentials, r.world.credentials, GATEWAY_NAME, now, b.name, scopes, forGateway)
                  && GatewayToken in r.result.value && r.result.value[GatewayToken] == forGateway.apiToken)
  {
    hide Fetch, Resolve, SecretScopes, MintScopes, MintedFor, DefaultOf, Entries, ReadBranch, Complete, CredentialName, Source,
      WantsCredential;
    var w1 := FetchShape(w, b, p, o, now);
    ScopesAre(p, o, w.credentials, now);
    NamesAre(b.name);
    var scopes := SecretScopes(p, o);
    forStorage, forGateway := ResolvedSecrets(w1, scopes, b.name, now);
    var resolved := Resolve(w1, scopes, b.name, now);
    SecretEntries(b, p, o, ReadBranch(w, b, p, o).result.value, resolved.result.value);
    var minted := MintScopes(w.credentials, scopes, now);
    if AsksStorageSecret(p, o) {
      SourceIs(w.credentials, resolved.world.credentials, STORAGE_NAME, now, b.name, minted, w.supply, forStorage);
    }
    if AsksToken(p, o) {
      SourceIs(w.credentials, resolved.world.credentials, GATEWAY_NAME, now, b.name, minted, w.supply, forGateway);
    }
  }

  // ---------------------------------------------------------------------------
  // All calls
  // ---------------------------------------------------------------------------

  /** The live default of that name is revealed where its secret is asked for. */
  ghost predicate RevealsFor(credentials: seq<Credential>, name: string, now: int, asked: bool, calls: seq<Call>) {
    if !asked || NoneLive(credentials, name, now) then calls == []
    else exists d :: FirstLive(credentials, name, now, d) && calls == [Reveal(d.tokenId)]
  }

  lemma {:induction false} RevealsAre(credentials: seq<Credential>, name: string, now: int, asked: bool)
    ensures RevealsFor(credentials, name, now, asked, RevealCalls(asked, DefaultOf(credentials, name, now)))
  {
    hide DefaultOf, FirstLive, NoneLive;
    DefaultIs(credentials, name, now);
    FirstOrNone(credentials, name, now);
  }

  /** A successful resolve lists, reveals and mints. */
  lemma {:induction false} ResolveTakes(w: World, scopes: set<Scope>, branchName: string, now: int)
    requires Resolve(w, scopes, branchName, now).result.Success?
    ensures var mints := || ((StorageRead in scopes || StorageWrite in scopes) && DefaultOf(w.credentials, STORAGE_DEFAULT, now).None?)
                         || (GatewayInvoke in scopes && DefaultOf(w.credentials, GATEWAY_DEFAULT, now).None?);
            Resolve(w, scopes, branchName, now).world.trace
            == w.trace + ([ListCredentials] + DefaultReveals(w.credentials, scopes, now)
                          + if mints then [Create(MintScopes(w.credentials, scopes, now), CredentialName(branchName))] else [])
  {
    hide DefaultOf, CredentialName, StartReveal, Mint, DeriveScopes, RevealCalls;
    var storage := StorageRead in scopes || StorageWrite in scopes;
    var gateway := GatewayInvoke in scopes;
    var w1 := Called(w, ListCredentials);
    var storageDefault := DefaultOf(w.credentials, STORAGE_DEFAULT, now);
    var gatewayDefault := DefaultOf(w.credentials, GATEWAY_DEFAULT, now);
    var s := StartReveal(w1, storage, storageDefault);
    StartRevealFacts(w1, storage, storageDefault);
    var g := StartReveal(s.world, gateway, gatewayDefault);
    StartRevealFacts(s.world, gateway, gatewayDefault);
    MintFacts(g.world, storage && storageDefault.None?, gateway && gatewayDefault.None?, FunctionsInvoke in scopes, branchName,
              Disclosed(s.outcome, g.outcome));
    assert g.world.trace == w.trace + ([ListCredentials] + DefaultReveals(w.credentials, scopes, now));
  }

  /** The calls a credential takes: none, or a listing, the reveals, and a mint for the halves without a live default. */
  ghost predicate CredentialCalls(credentials: seq<Credential>, b: Branch, p: Policy, o: Options, now: int, calls: seq<Call>) {
    if !AsksStorageSecret(p, o) && !AsksToken(p, o) then calls == []
    else exists storage, gateway ::
      && RevealsFor(credentials, STORAGE_NAME, now, AsksStorageSecret(p, o), storage)
      && RevealsFor(credentials, GATEWAY_NAME, now, AsksToken(p, o), gateway)
      && calls == [ListCredentials] + (storage + gateway) + MintCalls(credentials, b, p, o, now)
  }

  ghost function MintCalls(credentials: seq<Credential>, b: Branch, p: Policy, o: Options, now: int): seq<Call> {
    if || (AsksStorageSecret(p, o) && NoneLive(credentials, STORAGE_NAME, now))
       || (AsksToken(p, o) && NoneLive(credentials, GATEWAY_NAME, now))
    then [Create(MintedFor(credentials, AsksStorageSecret(p, o), AsksToken(p, o), p.functions > 0, now), "neon-env " + b.name)]
    else []
  }

  /** Everything a successful fetch does: the reads its vars depend on, and the credential calls its secrets need. */
  lemma {:induction false} FetchTakes(w: World, b: Branch, p: Policy, o: Options, now: int) returns (calls: seq<Call>)
    requires Fetch(w, b, p, o, now).result.Success?
    ensures CredentialCalls(w.credentials, b, p, o, now, calls)
    ensures Fetch(w, b, p, o, now).world.trace == w.trace + (PlannedReads(p, o) + calls)
  {
    hide Fetch, Resolve, SecretScopes, MintScopes, MintedFor, DefaultOf, Entries, ReadBranch, CredentialName, PlannedReads, NoneLive,
      RevealCalls, RevealsFor, FirstLive;
    var w1 := FetchShape(w, b, p, o, now);
    BranchTakes(w, b, p, o);
    if AsksStorageSecret(p, o) || AsksToken(p, o) {
      var scopes := SecretScopes(p, o);
      ScopesAre(p, o, w.credentials, now);
      ResolveTakes(w1, scopes, b.name, now);
      NamesAre(b.name);
      RevealsAre(w.credentials, STORAGE_NAME, now, AsksStorageSecret(p, o));
      RevealsAre(w.credentials, GATEWAY_NAME, now, AsksToken(p, o));
      var storage := RevealCalls(AsksStorageSecret(p, o), DefaultOf(w.credentials, STORAGE_NAME, now));
      var gateway := RevealCalls(AsksToken(p, o), DefaultOf(w.credentials, GATEWAY_NAME, now));
      DefaultIs(w.credentials, STORAGE_NAME, now);
      DefaultIs(w.credentials, GATEWAY_NAME, now);
      FirstOrNone(w.credentials, STORAGE_NAME, now);
      FirstOrNone(w.credentials, GATEWAY_NAME, now);
      calls := [ListCredentials] + (storage + gateway) + MintCalls(w.credentials, b, p, o, now);
      assert w.trace + PlannedReads(p, o) + calls == w.trace + (PlannedReads(p, o) + calls);
    } else {
      calls := [];
      NoCredential(p, o);
      assert PlannedReads(p, o) + [] == PlannedReads(p, o);
    }
  }

  lemma {:induction false} NoCredential(p: Policy, o: Options)
    requires !AsksStorageSecret(p, o) && !AsksToken(p, o)
    ensures !WantsCredential(p, o)
  {
  }
}
