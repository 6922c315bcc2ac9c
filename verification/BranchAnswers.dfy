/**
 * With every call answered, a fetch succeeds exactly when the branch has a value for every var
 * that is asked for and provided.
 */
module BranchAnswers {
  import opened Wrappers
  import opened Credentials
  import opened BranchEnv
  import opened BranchValues
  import ReuseUnsettled

  /** The branch has a value for the var. */
  ghost predicate HasValue(b: Branch, p: Policy, o: Options, key: EnvKey) { exists value :: OnBranch(b, p, o, key, value) }

  ghost predicate HasAll(b: Branch, p: Policy, o: Options) {
    forall key :: Asked(o, key) && Provided(p, o, key) ==> HasValue(b, p, o, key)
  }

  lemma {:induction false} HasDue(b: Branch, p: Policy, o: Options, key: EnvKey)
    requires HasAll(b, p, o) && Asked(o, key) && Provided(p, o, key)
    ensures HasValue(b, p, o, key)
  {
  }

  /** The role and database exist that the URIs need. */
  lemma {:induction false} TargetExists(b: Branch, p: Policy, o: Options) returns (role: string, database: string)
    requires HasAll(b, p, o)
    ensures NeedsTarget(p, o) ==> RoleIs(b.roles, o.roleName, role)
    ensures NeedsDatabase(p, o) ==> DatabaseIs(b.databases, o.databaseName, database)
    ensures Wants(o, DatabaseUrl) ==> (role, database, true) in b.uris
    ensures NeedsUnpooled(p, o) ==> (role, database, false) in b.uris
    ensures WantsDataApi(p, o) ==> database in b.dataApis
  {
    hide RoleIs, DatabaseIs, SuffixOn, HasAll, Domain;
    role, database := "", "";
    if Wants(o, DatabaseUrl) {
      HasDue(b, p, o, DatabaseUrl);
      role, database := UriTarget(b, o, true);
    }
    if NeedsUnpooled(p, o) {
      var r, d := DirectTarget(b, p, o);
      if Wants(o, DatabaseUrl) { SameTarget(b, o, role, database, r, d); }
      role, database := r, d;
    }
    if WantsDataApi(p, o) {
      HasDue(b, p, o, DataApiUrl);
      var url: string :| OnBranch(b, p, o, DataApiUrl, url);
      var d :| DatabaseIs(b.databases, o.databaseName, d) && d in b.dataApis && url == b.dataApis[d];
      if NeedsTarget(p, o) { SameDatabase(b.databases, o.databaseName, database, d); }
      database := d;
    }
  }

  lemma {:induction false} UriTarget(b: Branch, o: Options, pooled: bool) returns (role: string, database: string)
    requires exists uri :: UriOn(b, o, pooled, uri)
    ensures RoleIs(b.roles, o.roleName, role) && DatabaseIs(b.databases, o.databaseName, database) && (role, database, pooled) in b.uris
  {
    hide RoleIs, DatabaseIs;
    var uri :| UriOn(b, o, pooled, uri);
    role, database :| RoleIs(b.roles, o.roleName, role) && DatabaseIs(b.databases, o.databaseName, database)
      && (role, database, pooled) in b.uris && uri == b.uris[(role, database, pooled)];
  }

  lemma {:induction false} DirectTarget(b: Branch, p: Policy, o: Options) returns (role: string, database: string)
    requires HasAll(b, p, o) && NeedsUnpooled(p, o)
    ensures RoleIs(b.roles, o.roleName, role) && DatabaseIs(b.databases, o.databaseName, database) && (role, database, false) in b.uris
  {
    hide RoleIs, DatabaseIs, HasAll, Domain, UriOn;
    if Wants(o, DatabaseUrlUnpooled) {
      HasDue(b, p, o, DatabaseUrlUnpooled);
    } else {
      HasDue(b, p, o, GatewayBaseUrl);
    }
    role, database := UriTarget(b, o, false);
  }

  lemma {:induction false} SameRole(roles: seq<string>, requested: Option<string>, a: string, c: string)
    requires RoleIs(roles, requested, a) && RoleIs(roles, requested, c)
    ensures a == c
  {
    RolePicked(roles, requested, a);
    RolePicked(roles, requested, c);
  }

  lemma {:induction false} SameDatabase(databases: seq<string>, requested: Option<string>, a: string, c: string)
    requires DatabaseIs(databases, requested, a) && DatabaseIs(databases, requested, c)
    ensures a == c
  {
  }

  lemma {:induction false} SameTarget(b: Branch, o: Options, role: string, database: string, r: string, d: string)
    requires RoleIs(b.roles, o.roleName, role) && DatabaseIs(b.databases, o.databaseName, database)
    requires RoleIs(b.roles, o.roleName, r) && DatabaseIs(b.databases, o.databaseName, d)
    ensures role == r && database == d
  {
    SameRole(b.roles, o.roleName, role, r);
    SameDatabase(b.databases, o.databaseName, database, d);
  }

  lemma {:induction false} TargetAnswered(w: World, b: Branch, p: Policy, o: Options, role: string, database: string)
    requires w.outage == {}
    requires NeedsTarget(p, o) ==> RoleIs(b.roles, o.roleName, role)
    requires NeedsDatabase(p, o) ==> DatabaseIs(b.databases, o.databaseName, database)
    ensures ReadTarget(w, b, p, o).result.Success?
    ensures var target := ReadTarget(w, b, p, o).result.value;
            (NeedsTarget(p, o) ==> target.role == Some(role)) && (NeedsDatabase(p, o) ==> target.database == Some(database))
  {
    hide RoleIs, DatabaseIs, PickRole, PickDatabase, Wants, WantsDataApi, NeedsUnpooled;
    if NeedsTarget(p, o) { RolePicked(b.roles, o.roleName, role); }
    if NeedsDatabase(p, o) { DatabasePicked(b.databases, o.databaseName, database); }
  }

  lemma {:induction false} ServicesAnswered(w: World, b: Branch, p: Policy, o: Options, target: Target, role: string, database: string)
    requires w.outage == {}
    requires (NeedsDatabase(p, o) <==> target.database.Some?) && (NeedsTarget(p, o) <==> target.role.Some?)
    requires (NeedsTarget(p, o) ==> target.role == Some(role)) && (NeedsDatabase(p, o) ==> target.database == Some(database))
    requires Wants(o, DatabaseUrl) ==> (role, database, true) in b.uris
    requires NeedsUnpooled(p, o) ==> (role, database, false) in b.uris
    ensures ReadServices(w, b, p, o, target).result.Success?
    ensures var r := ReadServices(w, b, p, o, target).result.value;
            && (WantsAuth(p, o) ==> r.auth == b.auth)
            && (WantsDataApi(p, o) ==> r.dataApi == Lookup(b.dataApis, database))
  {
    hide Wants, NeedsUnpooled, WantsAuth, WantsDataApi;
  }

  /** The suffix of the branch is found from the services read. */
  lemma {:induction false} SuffixAnswered(b: Branch, p: Policy, o: Options, services: Services, computes: Option<Result<seq<Compute>, Failure>>,
                                          value: string)
    requires computes == if NeedsEndpoints(p, o) then Some(Success(b.computes)) else None
    requires (Wants(o, DatabaseUrl) <==> services.pooled.Some?) && (NeedsUnpooled(p, o) <==> services.unpooled.Some?)
    requires ServicesOn(b, p, o, services) && WantsSuffix(p, o) && SuffixOn(b, p, o, value)
    ensures SuffixOf(b, p, o, services, computes).Success?
  {
    hide UriOn, Domain, DropLabel, DataApiOn, ComputeOn, ComputeHost, Wants, NeedsUnpooled;
    var host, domain :| HostOn(b, p, o, host) && Domain(host, domain) && domain != "" && value == ".compute." + domain;
    DomainIs(host, domain);
    assert NeedsUnpooled(p, o) <==> AsksDirect(p, o) by { DirectIs(p, o); }
    assert Wants(o, DatabaseUrl) <==> Asked(o, DatabaseUrl) by { WantsIs(o, DatabaseUrl); }
    if services.unpooled.Some? {
      OneUri(b, o, false, services.unpooled.value);
    } else if services.pooled.Some? {
      OneUri(b, o, true, services.pooled.value);
    } else {
      ComputeFound(b, host);
    }
  }

  lemma {:induction false} DirectIs(p: Policy, o: Options)
    ensures NeedsUnpooled(p, o) <==> AsksDirect(p, o)
  {
  }

  lemma {:induction false} WantsIs(o: Options, key: EnvKey)
    ensures Wants(o, key) <==> Asked(o, key)
  {
  }

  lemma {:induction false} OneUri(b: Branch, o: Options, pooled: bool, uri: string)
    requires UriOn(b, o, pooled, uri)
    ensures forall other :: UriOn(b, o, pooled, other) ==> other == uri
  {
    hide RoleIs, DatabaseIs;
    var role, database :| RoleIs(b.roles, o.roleName, role) && DatabaseIs(b.databases, o.databaseName, database)
      && (role, database, pooled) in b.uris && uri == b.uris[(role, database, pooled)];
    forall other | UriOn(b, o, pooled, other) ensures other == uri {
      var r, d :| RoleIs(b.roles, o.roleName, r) && DatabaseIs(b.databases, o.databaseName, d)
        && (r, d, pooled) in b.uris && other == b.uris[(r, d, pooled)];
      SameTarget(b, o, role, database, r, d);
    }
  }

  lemma {:induction false} ComputeFound(b: Branch, host: string)
    requires ComputeOn(b, host)
    ensures ComputeHost(b.computes, b.id) == Success(host)
  {
    hide Find;
    var any := (c: Compute) => c.branchId == b.id;
    var writable := (c: Compute) => c.branchId == b.id && c.readWrite;
    var i: nat :| ComputeAt(b, i) && host == b.computes[i].host;
    assert any(b.computes[i]) && b.computes[i] in b.computes;
    if Find(b.computes, writable).Some? {
      var k := FindFirst(b.computes, writable);
      assert writable(b.computes[k]) && forall j :: 0 <= j < k ==> !writable(b.computes[j]);
      assert k == i;
    } else {
      assert !writable(b.computes[i]);
      var k := FindFirst(b.computes, any);
      assert any(b.computes[k]) && forall j :: 0 <= j < k ==> !any(b.computes[j]);
      assert k == i;
    }
  }

  lemma {:induction false} RestAnswered(w: World, b: Branch, p: Policy, o: Options, early: Early, services: Services)
    requires w.outage == {} && HasAll(b, p, o) && ServicesOn(b, p, o, services)
    requires early.storage == if WantsStorage(p, o) then Some(Success(b.storage)) else None
    requires early.computes == if NeedsEndpoints(p, o) then Some(Success(b.computes)) else None
    requires (Wants(o, DatabaseUrl) <==> services.pooled.Some?) && (NeedsUnpooled(p, o) <==> services.unpooled.Some?)
    requires WantsAuth(p, o) ==> services.auth == b.auth
    requires WantsDataApi(p, o) ==> services.dataApi.Some?
    ensures ReadRest(w, b, p, o, early, services).result.Success?
  {
    hide SuffixOf, SuffixOn, ServicesOn, HasAll, Wants, NeedsUnpooled, WantsDataApi, NeedsEndpoints, UriOn, DataApiOn, GatewayOn;
    if WantsSuffix(p, o) {
      SuffixHas(b, p, o);
      var value :| SuffixOn(b, p, o, value);
      SuffixAnswered(b, p, o, services, early.computes, value);
    } else {
      NoSuffix(b, p, o, services, early.computes);
    }
    if WantsAuth(p, o) { AuthHas(b, p, o); }
    if WantsRealtime(p, o) { RealtimeHas(b, p, o); }
    if WantsStorage(p, o) { StorageHas(b, p, o); }
  }

  lemma {:induction false} NoSuffix(b: Branch, p: Policy, o: Options, services: Services, computes: Option<Result<seq<Compute>, Failure>>)
    requires !WantsSuffix(p, o) && (NeedsEndpoints(p, o) ==> computes.Some?)
    requires NeedsTarget(p, o) ==> services.pooled.Some? || services.unpooled.Some?
    requires computes.Some? && computes.value.Failure? ==> !computes.value.error.Missing?
    ensures SuffixOf(b, p, o, services, computes) == Success(None)
  {
  }

  lemma {:induction false} SuffixHas(b: Branch, p: Policy, o: Options)
    requires HasAll(b, p, o) && WantsSuffix(p, o)
    ensures exists value :: SuffixOn(b, p, o, value)
  {
    hide HasAll, SuffixOn;
    HasDue(b, p, o, FunctionHostSuffix);
    var value: string :| OnBranch(b, p, o, FunctionHostSuffix, value);
  }

  lemma {:induction false} AuthHas(b: Branch, p: Policy, o: Options)
    requires HasAll(b, p, o) && WantsAuth(p, o)
    ensures b.auth.Some?
  {
    hide HasAll;
    HasDue(b, p, o, if Wants(o, AuthBaseUrl) then AuthBaseUrl else AuthJwksUrl);
  }

  lemma {:induction false} RealtimeHas(b: Branch, p: Policy, o: Options)
    requires HasAll(b, p, o) && WantsRealtime(p, o)
    ensures b.realtime.Some? && (Wants(o, RealtimeUrl) ==> b.realtime.value.url.Some?)
  {
    hide HasAll;
    if Wants(o, RealtimeUrl) { HasDue(b, p, o, RealtimeUrl); } else { HasDue(b, p, o, RealtimeSecret); }
  }

  lemma {:induction false} StorageHas(b: Branch, p: Policy, o: Options)
    requires HasAll(b, p, o) && WantsStorage(p, o)
    ensures b.storage.Some?
  {
    hide HasAll;
    HasDue(b, p, o, if Wants(o, AccessKeyId) then AccessKeyId else if Wants(o, SecretAccessKey) then SecretAccessKey
                    else if Wants(o, StorageEndpoint) then StorageEndpoint else StorageRegion);
  }

  lemma {:induction false} BranchAnswered(w: World, b: Branch, p: Policy, o: Options)
    requires w.outage == {} && HasAll(b, p, o)
    ensures ReadBranch(w, b, p, o).result.Success?
  {
    hide ReadTarget, ReadServices, ReadRest, HasAll, RoleIs, DatabaseIs, ServicesOn, Wants, NeedsUnpooled, WantsStorage, NeedsEndpoints,
      NeedsTarget, NeedsDatabase, WantsAuth, WantsDataApi, TargetOn;
    var role, database := TargetExists(b, p, o);
    var early := StartEarly(w, b, p, o);
    TargetAnswered(early.world, b, p, o, role, database);
    var target := ReadTarget(early.world, b, p, o);
    TargetRead(early.world, b, p, o);
    ServicesAnswered(target.world, b, p, o, target.result.value, role, database);
    ServicesRead(target.world, b, p, o, target.result.value);
    var services := ReadServices(target.world, b, p, o, target.result.value);
    RestAnswered(services.world, b, p, o, early, services.result.value);
  }

  /**
   * When every call is answered and a credential can be issued, a fetch succeeds exactly when the
   * branch has a value for each var that is asked for and provided.
   */
  lemma {:induction false} FetchSucceedsIff(w: World, b: Branch, p: Policy, o: Options, now: int)
    requires ReuseUnsettled.Answers(w)
    ensures Fetch(w, b, p, o, now).result.Success? <==> HasAll(b, p, o)
  {
    hide ReadBranch, Resolve, Entries, SecretScopes, WantsCredential, Complete, HasAll;
    if HasAll(b, p, o) {
      BranchAnswered(w, b, p, o);
      var reading := ReadBranch(w, b, p, o);
      if WantsCredential(p, o) {
        ReuseUnsettled.ResolveAnswered(reading.world, SecretScopes(p, o), b.name, now);
        EntriesAgree(b, p, o, reading.result.value, Some(Resolve(reading.world, SecretScopes(p, o), b.name, now).result.value));
      } else {
        EntriesAgree(b, p, o, reading.result.value, None);
      }
    }
    if Fetch(w, b, p, o, now).result.Success? { SuccessHasAll(w, b, p, o, now); }
  }

  lemma {:induction false} SuccessHasAll(w: World, b: Branch, p: Policy, o: Options, now: int)
    requires Fetch(w, b, p, o, now).result.Success?
    ensures HasAll(b, p, o)
  {
    hide Fetch, OnBranch, Asked, Provided;
    FetchedKeys(w, b, p, o, now);
    FetchedValues(w, b, p, o, now);
    var vars := Fetch(w, b, p, o, now).result.value;
    forall key | Asked(o, key) && Provided(p, o, key) ensures HasValue(b, p, o, key) {
      assert key in vars && OnBranch(b, p, o, key, vars[key]);
    }
  }
}
