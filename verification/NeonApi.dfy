/**
 * The runs of internals/env-core as sequences of calls on one API object, each proved to do what
 * Credentials, BranchEnv and ReuseSecrets define.
 */
module NeonApiRuns {
  import opened Wrappers
  import opened Credentials
  import opened BranchEnv
  import opened ReuseSecrets

  /** The management API: every call changes its world. */
  class NeonApi {
    var world: World

    constructor (world: World)
      ensures this.world == world
    {
      this.world := world;
    }

    method ListCredentials() returns (r: Result<seq<Credential>, Failure>)
      modifies this
      ensures Reply(world, r) == List(old(world))
    {
      r := List(world).result;
      world := List(world).world;
    }

    method RevealCredential(tokenId: string) returns (r: Result<Credential, Failure>)
      modifies this
      ensures Reply(world, r) == RevealOf(old(world), tokenId)
    {
      r := RevealOf(world, tokenId).result;
      world := RevealOf(world, tokenId).world;
    }

    method CreateCredential(scopes: set<Scope>, name: string) returns (r: Result<Credential, Failure>)
      modifies this
      ensures Reply(world, r) == CreateOf(old(world), scopes, name)
    {
      r := CreateOf(world, scopes, name).result;
      world := CreateOf(world, scopes, name).world;
    }

    method RevokeCredential(tokenId: string) returns (r: Result<bool, Failure>)
      modifies this
      ensures Reply(world, r) == RevokeOf(old(world), tokenId)
    {
      r := RevokeOf(world, tokenId).result;
      world := RevokeOf(world, tokenId).world;
    }

    /** A read, started when it is wanted. */
    method Begin<T>(wanted: bool, resource: Resource, value: T) returns (outcome: Option<Result<T, Failure>>)
      modifies this
      ensures Started(world, outcome) == Start(old(world), wanted, resource, value)
    {
      outcome := Start(world, wanted, resource, value).outcome;
      world := Start(world, wanted, resource, value).world;
    }

    /** `getConnectionUri`, started when wanted, once its role and database are known. */
    method BeginUri(b: Branch, target: Target, wanted: bool, pooled: bool) returns (outcome: Option<Result<Option<string>, Failure>>)
      modifies this
      ensures Started(world, outcome) == StartUri(old(world), b, target, wanted, pooled)
    {
      outcome := StartUri(world, b, target, wanted, pooled).outcome;
      world := StartUri(world, b, target, wanted, pooled).world;
    }
  }

  // ---------------------------------------------------------------------------
  // Everything but the credentials
  // ---------------------------------------------------------------------------

  /** The role and database, of the roles and databases listed. */
  method ListTarget(api: NeonApi, b: Branch, p: Policy, o: Options) returns (r: Result<Target, Failure>)
    modifies api
    ensures Reply(api.world, r) == ReadTarget(old(api.world), b, p, o)
  {
    hide Start, PickTarget;
    var roles := api.Begin(NeedsTarget(p, o), Roles, b.roles);
    var databases := api.Begin(NeedsDatabase(p, o), Databases, b.databases);
    var awaited := Await(roles, []);
    if awaited.Failure? { return Failure(awaited.error); }
    var listed := Await(databases, []);
    if listed.Failure? { return Failure(listed.error); }
    return PickTarget(p, o, awaited.value, listed.value);
  }

  /** The `Promise.all` of the two connection URIs, Neon Auth and the Data API. */
  method ListServices(api: NeonApi, b: Branch, p: Policy, o: Options, target: Target) returns (r: Result<Services, Failure>)
    requires (NeedsDatabase(p, o) <==> target.database.Some?) && (NeedsTarget(p, o) <==> target.role.Some?)
    modifies api
    ensures Reply(api.world, r) == ReadServices(old(api.world), b, p, o, target)
  {
    hide Start, StartUri, Wants, NeedsUnpooled, WantsAuth, WantsDataApi, NeedsDatabase, NeedsTarget, Lookup, AllOf;
    var pooled := api.BeginUri(b, target, Wants(o, DatabaseUrl), true);
    var unpooled := api.BeginUri(b, target, NeedsUnpooled(p, o), false);
    var auth := api.Begin(WantsAuth(p, o), Resource.NeonAuth, b.auth);
    var dataApi: Option<Result<Option<string>, Failure>> := None;
    if WantsDataApi(p, o) {
      if target.database.None? {
        dataApi := Some(Failure(Missing(Databases)));
      } else {
        dataApi := api.Begin(true, Resource.DataApi, Lookup(b.dataApis, target.database.value));
      }
    }
    return AllOf(pooled, unpooled, auth, dataApi);
  }

  /** `resolveRealtimeEnv`. */
  method ListRealtime(api: NeonApi, b: Branch, p: Policy, o: Options) returns (r: Result<(Option<string>, Option<string>), Failure>)
    modifies api
    ensures Reply(api.world, r) == ReadRealtime(old(api.world), b, p, o)
  {
    hide Start, RealtimeOf;
    var read := api.Begin(WantsRealtime(p, o), Resource.Realtime, b.realtime);
    match read
    case None => return Success((None, None));
    case Some(Failure(error)) => return Failure(error);
    case Some(Success(snapshot)) => return RealtimeOf(o, snapshot);
  }

  /** The reads of everything but the credentials, one after the other, and what is checked between them. */
  method ReadSelected(api: NeonApi, b: Branch, p: Policy, o: Options) returns (r: Result<Reading, Failure>)
    modifies api
    ensures Reply(api.world, r) == ReadBranch(old(api.world), b, p, o)
  {
    hide Start, StartUri, ReadTarget, ReadServices, ReadRealtime, SuffixOf, StorageOf, Wants, NeedsUnpooled, WantsAuth, WantsDataApi,
      NeedsDatabase, WantsStorage, NeedsEndpoints, WantsRealtime, WantsSuffix, Complete, OnlyReads;
    var storage := api.Begin(WantsStorage(p, o), Storage, b.storage);
    var computes := api.Begin(NeedsEndpoints(p, o), Endpoints, b.computes);
    var target := ListTarget(api, b, p, o);
    if target.Failure? { return Failure(target.error); }
    var services := ListServices(api, b, p, o, target.value);
    if services.Failure? { return Failure(services.error); }
    var suffix := SuffixOf(b, p, o, services.value, computes);
    if suffix.Failure? { return Failure(suffix.error); }
    if WantsAuth(p, o) && services.value.auth.None? { return Failure(NotFound(Resource.NeonAuth)); }
    if WantsDataApi(p, o) && services.value.dataApi.None? { return Failure(NotFound(Resource.DataApi)); }
    var realtime := ListRealtime(api, b, p, o);
    if realtime.Failure? { return Failure(realtime.error); }
    var stored := StorageOf(p, o, storage);
    if stored.Failure? { return Failure(stored.error); }
    return Success(Reading(services.value, suffix.value, realtime.value.0, realtime.value.1, stored.value));
  }

  /** `resolveBranchCredentialSecrets`. */
  method ResolveSecrets(api: NeonApi, scopes: set<Scope>, branchName: string, now: int) returns (r: Result<Secrets, Failure>)
    modifies api
    ensures Reply(api.world, r) == Resolve(old(api.world), scopes, branchName, now)
  {
    hide Find, DefaultOf, DeriveScopes;
    var needsStorage := StorageRead in scopes || StorageWrite in scopes;
    var needsGateway := GatewayInvoke in scopes;
    var live := api.ListCredentials();
    if live.Failure? { return Failure(live.error); }
    var storageDefault := DefaultOf(live.value, STORAGE_DEFAULT, now);
    var gatewayDefault := DefaultOf(live.value, GATEWAY_DEFAULT, now);
    var storageReveal: Option<Result<Credential, Failure>>, gatewayReveal: Option<Result<Credential, Failure>> := None, None;
    if needsStorage && storageDefault.Some? {
      var revealed := api.RevealCredential(storageDefault.value.tokenId);
      storageReveal := Some(revealed);
    }
    if needsGateway && gatewayDefault.Some? {
      var revealed := api.RevealCredential(gatewayDefault.value.tokenId);
      gatewayReveal := Some(revealed);
    }
    var accessKeyId, secretAccessKey, apiToken := "", "", "";
    if storageReveal.Some? {
      if storageReveal.value.Failure? { return Failure(storageReveal.value.error); }
      accessKeyId, secretAccessKey := storageReveal.value.value.tokenId, storageReveal.value.value.s3Secret;
    }
    if gatewayReveal.Some? {
      if gatewayReveal.value.Failure? { return Failure(gatewayReveal.value.error); }
      apiToken := gatewayReveal.value.value.apiToken;
    }
    var missingStorage := needsStorage && storageDefault.None?;
    var missingGateway := needsGateway && gatewayDefault.None?;
    if missingStorage || missingGateway {
      var minted := api.CreateCredential(
        DeriveScopes(missingStorage, missingGateway, FunctionsInvoke in scopes), CredentialName(branchName));
      if minted.Failure? { return Failure(minted.error); }
      if missingStorage { accessKeyId, secretAccessKey := minted.value.tokenId, minted.value.s3Secret; }
      if missingGateway { apiToken := minted.value.apiToken; }
    }
    return Success(Secrets(accessKeyId, secretAccessKey, apiToken));
  }

  /** `fetchEnvKeysState`. */
  method FetchEnvKeys(api: NeonApi, b: Branch, p: Policy, o: Options, now: int) returns (r: Result<map<EnvKey, string>, Failure>)
    modifies api
    ensures Reply(api.world, r) == Fetch(old(api.world), b, p, o, now)
  {
    hide ReadBranch, Resolve, Entries, SecretScopes, Complete, WantsCredential;
    var reading := ReadSelected(api, b, p, o);
    if reading.Failure? { return Failure(reading.error); }
    var secrets: Option<Secrets> := None;
    if WantsCredential(p, o) {
      var resolved := ResolveSecrets(api, SecretScopes(p, o), b.name, now);
      if resolved.Failure? { return Failure(resolved.error); }
      secrets := Some(resolved.value);
    }
    return Entries(b, p, o, reading.value, secrets);
  }

  const SECRET_ORDER: seq<EnvKey> := [AccessKeyId, SecretAccessKey, GatewayToken]

  lemma {:induction false} WithOneMore(vars: map<EnvKey, string>, source: map<EnvKey, string>, done: set<EnvKey>, key: EnvKey)
    ensures WithKept(vars, source, done + {key})
            == if key in source then WithKept(vars, source, done)[key := source[key]] else WithKept(vars, source, done)
  {
  }

  /** `for (const key of keptSecretKeys) … vars[key] = value`. */
  method PutKept(vars: map<EnvKey, string>, source: map<EnvKey, string>, kept: set<EnvKey>) returns (r: map<EnvKey, string>)
    requires forall key :: key in kept ==> key in SECRET_ORDER
    ensures r == WithKept(vars, source, kept)
  {
    hide WithKept;
    r := vars;
    ghost var done: set<EnvKey> := {};
    assert WithKept(vars, source, {}) == vars by { NothingKept(vars, source); }
    for i := 0 to |SECRET_ORDER|
      invariant done <= kept && r == WithKept(vars, source, done)
      invariant forall key :: key in kept ==> key in done || key in SECRET_ORDER[i..]
    {
      var key := SECRET_ORDER[i];
      if key in kept {
        WithOneMore(vars, source, done, key);
        done := done + {key};
        if key in source { r := r[key := source[key]]; }
      }
    }
    assert done == kept;
  }

  lemma {:induction false} NothingKept(vars: map<EnvKey, string>, source: map<EnvKey, string>)
    ensures WithKept(vars, source, {}) == vars
  {
  }

  /** `for (const tokenId of ours) … revokeCredential`. */
  method RevokeEach(api: NeonApi, ids: seq<string>) returns (r: Result<bool, Failure>)
    modifies api
    ensures Reply(api.world, r) == RevokeAll(old(api.world), ids)
  {
    hide RevokeOf;
    assert ids[0..] == ids;
    for i := 0 to |ids|
      invariant RevokeAll(old(api.world), ids) == RevokeAll(api.world, ids[i..])
    {
      assert ids[i..][1..] == ids[i + 1..];
      var one := api.RevokeCredential(ids[i]);
      if one.Failure? { return one; }
    }
    return Success(true);
  }

  /** The leftovers named by the replaced halves, as the growing set of the code. */
  method CollectOurs(listed: seq<Credential>, q: Request, branchName: string) returns (ours: seq<string>)
    ensures ours == Ours(listed, q, branchName)
  {
    hide Find, KeepStorage, KeepGateway;
    ours := [];
    var metas := [
      if StorageManaged(q) && !KeepStorage(listed, q) then NamedStorage(listed, q.source, q.now) else None,
      if GatewayManaged(q) && !KeepGateway(listed, q) then NamedGateway(listed, q.source, q.now) else None];
    for i := 0 to |metas|
      invariant i == 1 ==> ours == AddOurs([], true, metas[0], branchName)
      invariant i == 2 ==> ours == AddOurs(AddOurs([], true, metas[0], branchName), true, metas[1], branchName)
      invariant i == 0 ==> ours == []
    {
      if metas[i].Some? && IsOurs(metas[i].value, branchName) && metas[i].value.tokenId !in ours {
        ours := ours + [metas[i].value.tokenId];
      }
    }
  }

  /** `fetchEnvReusingSecrets`. */
  method FetchEnvReusingSecrets(api: NeonApi, b: Branch, q: Request) returns (r: Result<Outcome, Failure>)
    modifies api
    ensures Reply(api.world, r) == Reuse(old(api.world), b, q)
  {
    hide Fetch, FetchOptions, PreferPersisted, Ours, RevokeAll, KeepStorage, KeepGateway, Selected, WithKept, List, Resolve, ReadBranch, NeedsList;
    var secretKeys := SecretKeys(q);
    if secretKeys == {} {
      var fetched := FetchEnvKeys(api, b, q.policy, FetchOptions(q, {}), q.now);
      if fetched.Failure? { return Failure(fetched.error); }
      return Success(Outcome(PreferPersisted(fetched.value, q.source), false, {}, {}, [], []));
    }
    var listed := [];
    if NeedsList(q) {
      var listing := api.ListCredentials();
      if listing.Failure? { return Failure(listing.error); }
      listed := listing.value;
    }
    var keepStorage, keepGateway := KeepStorage(listed, q), KeepGateway(listed, q);
    var kept := HalfKeys(q, StorageSelected(q) && keepStorage, GatewaySelected(q) && keepGateway);
    var fetched := FetchEnvKeys(api, b, q.policy, FetchOptions(q, kept), q.now);
    if fetched.Failure? { return Failure(fetched.error); }
    var vars := PutKept(PreferPersisted(fetched.value, q.source), q.source, kept);
    if keepStorage && keepGateway { return Success(Outcome(vars, false, secretKeys, {}, [], [])); }
    var ours := CollectOurs(listed, q, b.name);
    if q.revokeSuperseded {
      var done := RevokeEach(api, ours);
      if done.Failure? { return Failure(done.error); }
      return Success(Outcome(vars, true, secretKeys, secretKeys - kept, ours, []));
    }
    return Success(Outcome(vars, true, secretKeys, secretKeys - kept, [], ours));
  }
}
