/** What a run of `fetchEnvReusingSecrets` may do to the credentials of a branch. */
module ReuseDiscipline {
  import opened Wrappers
  import opened Credentials
  import opened BranchEnv
  import opened ReuseSecrets

  // ---------------------------------------------------------------------------
  // One fetch
  // ---------------------------------------------------------------------------

  /** A fetch is reads, and then at most one resolve of the secrets it wants. */
  lemma {:induction false} FetchShape(w: World, b: Branch, p: Policy, o: Options, now: int) returns (w1: World)
    ensures var r := Fetch(w, b, p, o, now);
            && OnlyReads(w, w1)
            && (r.world == w1 || (WantsCredential(p, o) && r.world == Resolve(w1, SecretScopes(p, o), b.name, now).world))
            && (r.result.Success? ==>
                  var reading := ReadBranch(w, b, p, o);
                  && reading.world == w1 && reading.result.Success?
                  && (if WantsCredential(p, o) then
                        && Resolve(w1, SecretScopes(p, o), b.name, now).result.Success?
                        && r.world == Resolve(w1, SecretScopes(p, o), b.name, now).world
                        && r.result == Entries(b, p, o, reading.result.value, Some(Resolve(w1, SecretScopes(p, o), b.name, now).result.value))
                      else r.world == w1))
  {
    hide ReadBranch, Resolve, Entries, WantsCredential, SecretScopes;
    w1 := ReadBranch(w, b, p, o).world;
  }

  // ---------------------------------------------------------------------------
  // What the selection asks of the fetch
  // ---------------------------------------------------------------------------

  /** The storage half is resolved anew. */
  predicate NewStorage(credentials: seq<Credential>, q: Request) { StorageSelected(q) && !KeepStorage(credentials, q) }

  predicate NewGateway(credentials: seq<Credential>, q: Request) { GatewaySelected(q) && !KeepGateway(credentials, q) }

  lemma {:induction false} SelectedSecrets(q: Request)
    ensures q.policy.buckets > 0 ==>
              && (Selected(q, AccessKeyId) <==> q.selection.None? || AccessKeyId in q.selection.value)
              && (Selected(q, SecretAccessKey) <==> q.selection.None? || SecretAccessKey in q.selection.value)
    ensures q.policy.aiGateway ==> (Selected(q, GatewayToken) <==> q.selection.None? || GatewayToken in q.selection.value)
  {
    hide PolicyKeys;
    InPolicy(q.policy, AccessKeyId);
    InPolicy(q.policy, SecretAccessKey);
    InPolicy(q.policy, GatewayToken);
  }

  /** The fetch asks for the secrets of exactly the selected halves that are not kept. */
  lemma {:induction false} FetchWants(credentials: seq<Credential>, q: Request)
    ensures var o := FetchOptions(q, KeptKeys(credentials, q));
            && (WantsStorageCredential(q.policy, o) <==> NewStorage(credentials, q))
            && (WantsGatewayCredential(q.policy, o) <==> NewGateway(credentials, q))
            && (NewStorage(credentials, q) ==> (Wants(o, AccessKeyId) <==> Selected(q, AccessKeyId))
                                               && (Wants(o, SecretAccessKey) <==> Selected(q, SecretAccessKey)))
  {
    hide KeepStorage, KeepGateway, PolicyKeys;
    SelectedSecrets(q);
  }

  lemma {:induction false} NothingWanted(q: Request)
    requires SecretKeys(q) == {}
    ensures !StorageSelected(q) && !GatewaySelected(q) && !WantsCredential(q.policy, FetchOptions(q, {}))
  {
    hide PolicyKeys;
    SelectedSecrets(q);
    assert StorageSelected(q) ==> AccessKeyId in SecretKeys(q) || SecretAccessKey in SecretKeys(q);
    assert GatewaySelected(q) ==> GatewayToken in SecretKeys(q);
  }

  // ---------------------------------------------------------------------------
  // No secret, no credential call
  // ---------------------------------------------------------------------------

  /** When no secret of an enabled feature is selected, a run makes reads only. */
  lemma {:induction false} NoSecretNoCall(w: World, b: Branch, q: Request)
    requires SecretKeys(q) == {}
    ensures OnlyReads(w, Reuse(w, b, q).world)
    ensures var r := Reuse(w, b, q); r.result.Success? ==> !r.result.value.issued && r.result.value.revoked == []
  {
    hide Fetch, SecretKeys, WantsCredential, FetchOptions;
    NothingWanted(q);
    var w1 := FetchShape(w, b, q.policy, FetchOptions(q, {}), q.now);
  }

  // ---------------------------------------------------------------------------
  // Call discipline
  // ---------------------------------------------------------------------------

  lemma {:induction false} UnlistedDecides(credentials: seq<Credential>, q: Request, branchName: string)
    requires !NeedsList(q)
    ensures KeepStorage([], q) == KeepStorage(credentials, q) && KeepGateway([], q) == KeepGateway(credentials, q)
    ensures KeptKeys([], q) == KeptKeys(credentials, q) && IssuesAnew([], q) == IssuesAnew(credentials, q)
    ensures Ours([], q, branchName) == Ours(credentials, q, branchName)
  {
    hide Find, HalfKeys, DefaultOf, HalfReusable;
  }

  /** Whether or not it listed, a run decides as if it had read the whole list. */
  lemma {:induction false} ReuseDecides(w: World, b: Branch, q: Request)
    requires SecretKeys(q) != {} && Listing(w, q).result.Success?
    ensures var listed := Listing(w, q).result.value;
            && KeepStorage(listed, q) == KeepStorage(w.credentials, q) && KeepGateway(listed, q) == KeepGateway(w.credentials, q)
            && Ours(listed, q, b.name) == Ours(w.credentials, q, b.name)
            && KeptKeys(listed, q) == KeptKeys(w.credentials, q) && IssuesAnew(listed, q) == IssuesAnew(w.credentials, q)
    ensures Listing(w, q).world.credentials == w.credentials && Listing(w, q).world.supply == w.supply
    ensures var w0 := Listing(w, q).world; Follows(w, w0, if NeedsList(q) then [ListCredentials] else [])
  {
    hide KeepStorage, KeepGateway, Ours, KeptKeys, IssuesAnew;
    if !NeedsList(q) { UnlistedDecides(w.credentials, q, b.name); }
  }

  ghost predicate NotDefaultName(name: Option<string>) { name != Some(STORAGE_DEFAULT) && name != Some(GATEWAY_DEFAULT) }

  lemma {:induction false} OursIsNoDefault(branchName: string)
    ensures NotDefaultName(Some(CredentialName(branchName)))
  {
    assert CredentialName(branchName)[0] == 'n';
  }

  /** A credential a run may revoke: minted by this tool for this branch, and named by a replaced half. */
  ghost predicate Supersedes(credentials: seq<Credential>, q: Request, branchName: string, c: Credential) {
    && c in credentials && IsOurs(c, branchName) && NotDefaultName(c.name) && IsLive(c, q.now)
    && ((StorageManaged(q) && !KeepStorage(credentials, q) && NamedStorage(credentials, q.source, q.now) == Some(c))
        || (GatewayManaged(q) && !KeepGateway(credentials, q) && NamedGateway(credentials, q.source, q.now) == Some(c)))
  }

  lemma {:induction false} OursSupersede(credentials: seq<Credential>, q: Request, branchName: string, id: string) returns (c: Credential)
    requires id in Ours(credentials, q, branchName)
    ensures Supersedes(credentials, q, branchName, c) && c.tokenId == id
  {
    hide KeepStorage, KeepGateway, CredentialName;
    OursIsNoDefault(branchName);
    var s, g := NamedStorage(credentials, q.source, q.now), NamedGateway(credentials, q.source, q.now);
    if StorageManaged(q) && !KeepStorage(credentials, q) && s.Some? && IsOurs(s.value, branchName) && s.value.tokenId == id {
      c := s.value;
    } else {
      c := g.value;
    }
  }

  lemma {:induction false} SupersededIsOurs(credentials: seq<Credential>, q: Request, branchName: string, c: Credential)
    requires Supersedes(credentials, q, branchName, c)
    ensures c.tokenId in Ours(credentials, q, branchName)
  {
    hide KeepStorage, KeepGateway, CredentialName, Find;
  }

  /** The calls of a run before its revokes. */
  ghost predicate Restrained(calls: seq<Call>, credentials: seq<Credential>, q: Request, branchName: string) {
    var scopes := SecretScopes(q.policy, FetchOptions(q, KeptKeys(credentials, q)));
    && Creates(calls) <= 1
    && (forall i :: 0 <= i < |calls| ==> !calls[i].Revoke?)
    && (forall i :: 0 <= i < |calls| && calls[i].Create? ==>
          && calls[i].name == CredentialName(branchName) && calls[i].scopes == MintScopes(credentials, scopes, q.now)
          && (NewStorage(credentials, q) || NewGateway(credentials, q)))
    && (forall i :: 0 <= i < |calls| && calls[i].Reveal? ==> calls[i] in DefaultReveals(credentials, scopes, q.now))
  }

  lemma {:induction false} CreatesJoin(a: seq<Call>, b: seq<Call>)
    ensures Creates(a + b) == Creates(a) + Creates(b)
    decreases |a|
  {
    if a == [] {
      assert a + b == b;
    } else {
      assert (a + b)[1..] == a[1..] + b;
      CreatesJoin(a[1..], b);
    }
  }

  lemma {:induction false} NoCreates(a: seq<Call>)
    requires forall i :: 0 <= i < |a| ==> !a[i].Create?
    ensures Creates(a) == 0
    decreases |a|
  {
    if a != [] { NoCreates(a[1..]); }
  }

  /** Reads, then a resolve: what the calls of a fetch are. */
  lemma {:induction false} FetchRestrained(w: World, b: Branch, q: Request) returns (calls: seq<Call>)
    ensures var r := Fetch(w, b, q.policy, FetchOptions(q, KeptKeys(w.credentials, q)), q.now);
            Follows(w, r.world, calls) && Restrained(calls, w.credentials, q, b.name)
  {
    hide Fetch, Resolve, FetchOptions, MintScopes, SecretScopes, CredentialName, DefaultReveals;
    var o := FetchOptions(q, KeptKeys(w.credentials, q));
    FetchWants(w.credentials, q);
    var w1 := FetchShape(w, b, q.policy, o, q.now);
    var reading := w1.trace[|w.trace|..];
    assert w1.trace == w.trace + reading;
    NoCreates(reading);
    if Fetch(w, b, q.policy, o, q.now).world == w1 {
      calls := reading;
    } else {
      var scopes := SecretScopes(q.policy, o);
      var resolving := ResolveDisciplined(w1, scopes, b.name, q.now);
      calls := reading + resolving;
      ReadsThenResolve(reading, resolving, w.credentials, q, b.name);
    }
  }

  lemma {:induction false} ReadsThenResolve(reading: seq<Call>, resolving: seq<Call>, credentials: seq<Credential>,
                                            q: Request, branchName: string)
    requires forall i :: 0 <= i < |reading| ==> reading[i].Read?
    requires NewStorage(credentials, q) || NewGateway(credentials, q)
    requires var scopes := SecretScopes(q.policy, FetchOptions(q, KeptKeys(credentials, q)));
             || resolving == [ListCredentials] || resolving == [ListCredentials] + DefaultReveals(credentials, scopes, q.now)
             || resolving == [ListCredentials] + DefaultReveals(credentials, scopes, q.now)
                             + [Create(MintScopes(credentials, scopes, q.now), CredentialName(branchName))]
    ensures Restrained(reading + resolving, credentials, q, branchName)
  {
    hide FetchOptions, MintScopes, SecretScopes, CredentialName, DefaultReveals, Creates, NewStorage, NewGateway;
    NoCreates(reading);
    CreatesJoin(reading, resolving);
    ResolveCreates(resolving, credentials, SecretScopes(q.policy, FetchOptions(q, KeptKeys(credentials, q))), branchName, q.now);
  }

  lemma {:induction false} ResolveCreates(calls: seq<Call>, credentials: seq<Credential>, scopes: set<Scope>, branchName: string, now: int)
    requires calls == [ListCredentials] || calls == [ListCredentials] + DefaultReveals(credentials, scopes, now)
             || calls == [ListCredentials] + DefaultReveals(credentials, scopes, now)
                         + [Create(MintScopes(credentials, scopes, now), CredentialName(branchName))]
    ensures Creates(calls) <= 1
    ensures forall i :: 0 <= i < |calls| ==>
              calls[i] == ListCredentials || calls[i] == Create(MintScopes(credentials, scopes, now), CredentialName(branchName))
              || (calls[i].Reveal? && calls[i] in DefaultReveals(credentials, scopes, now))
  {
    hide MintScopes, DefaultOf, CredentialName;
    var revealing := DefaultReveals(credentials, scopes, now);
    var create := Create(MintScopes(credentials, scopes, now), CredentialName(branchName));
    NoCreates([ListCredentials]);
    NoCreates([ListCredentials] + revealing);
    CreatesJoin([ListCredentials] + revealing, [create]);
    assert [create][1..] == [];
    assert Creates([create]) == 1;
  }

  lemma {:induction false} RevokeAllCalls(w: World, ids: seq<string>) returns (calls: seq<Call>)
    ensures Follows(w, RevokeAll(w, ids).world, calls)
    ensures forall i :: 0 <= i < |calls| ==> calls[i].Revoke? && calls[i].tokenId in ids
    decreases |ids|
  {
    if ids == [] {
      calls := [];
    } else {
      var one := RevokeOf(w, ids[0]);
      if one.result.Failure? {
        calls := [Revoke(ids[0])];
      } else {
        var rest := RevokeAllCalls(one.world, ids[1..]);
        calls := [Revoke(ids[0])] + rest;
      }
    }
  }

  /** Every call is a revoke of a leftover that the run replaced. */
  ghost predicate RevokesLeftovers(revokes: seq<Call>, credentials: seq<Credential>, q: Request, branchName: string) {
    forall i :: 0 <= i < |revokes| ==>
      revokes[i].Revoke? && exists c :: Supersedes(credentials, q, branchName, c) && c.tokenId == revokes[i].tokenId
  }

  lemma {:induction false} SupersedeCalls(w: World, credentials: seq<Credential>, q: Request, branchName: string,
                                          vars: map<EnvKey, string>, kept: set<EnvKey>) returns (revokes: seq<Call>)
    ensures Follows(w, Supersede(w, Ours(credentials, q, branchName), vars, kept, q).world, revokes)
    ensures RevokesLeftovers(revokes, credentials, q, branchName) && (revokes != [] ==> q.revokeSuperseded)
  {
    hide Ours, SecretKeys, RevokeAll, KeepStorage, KeepGateway, NamedStorage, NamedGateway;
    revokes := [];
    if q.revokeSuperseded {
      revokes := RevokeAllCalls(w, Ours(credentials, q, branchName));
      forall i | 0 <= i < |revokes|
        ensures revokes[i].Revoke? && exists c :: Supersedes(credentials, q, branchName, c) && c.tokenId == revokes[i].tokenId
      {
        var c := OursSupersede(credentials, q, branchName, revokes[i].tokenId);
      }
      assert forall i :: 0 <= i < |revokes| ==> revokes[i].Revoke? && exists c :: Supersedes(credentials, q, branchName, c) && c.tokenId == revokes[i].tokenId;
    }
  }

  /** After its fetch, a run does nothing more, or revokes. */
  lemma {:induction false} ListedCalls(w: World, b: Branch, q: Request) returns (revokes: seq<Call>)
    ensures var fetched := Fetch(w, b, q.policy, FetchOptions(q, KeptKeys(w.credentials, q)), q.now);
            && Follows(fetched.world, ReuseListed(w, w.credentials, b, q).world, revokes)
            && (revokes != [] ==> fetched.result.Success? && q.revokeSuperseded)
            && (ReuseListed(w, w.credentials, b, q).result.Success? ==> fetched.result.Success?)
    ensures RevokesLeftovers(revokes, w.credentials, q, b.name)
  {
    hide Fetch, FetchOptions, Ours, KeptKeys, SecretKeys, IssuesAnew, RevokesLeftovers, Supersede, WithKept, PreferPersisted;
    revokes := [];
    NoLeftovers(w.credentials, q, b.name);
    var kept := KeptKeys(w.credentials, q);
    var fetched := Fetch(w, b, q.policy, FetchOptions(q, kept), q.now);
    if fetched.result.Success? && IssuesAnew(w.credentials, q) {
      revokes := SupersedeCalls(fetched.world, w.credentials, q, b.name,
                                WithKept(PreferPersisted(fetched.result.value, q.source), q.source, kept), kept);
    }
  }

  lemma {:induction false} NoLeftovers(credentials: seq<Credential>, q: Request, branchName: string)
    ensures RevokesLeftovers([], credentials, q, branchName)
  {
  }

  lemma {:induction false} FollowsOn(w: World, w1: World, w2: World, a: seq<Call>, b: seq<Call>)
    requires Follows(w, w1, a) && Follows(w1, w2, b)
    ensures Follows(w, w2, a + b)
  {
    assert w.trace + a + b == w.trace + (a + b);
  }

  /** A run that could not list ends there. */
  lemma {:induction false} NotListed(w: World, b: Branch, q: Request)
    requires SecretKeys(q) != {} && Listing(w, q).result.Failure?
    ensures Reuse(w, b, q).world == Listing(w, q).world
  {
    hide Fetch, FetchOptions, KeptKeys, SecretKeys, Listing, ReuseListed;
  }

  /** A run that did not list decides as if it had. */
  lemma {:induction false} ListedOrNot(w: World, b: Branch, q: Request)
    requires SecretKeys(q) != {} && Listing(w, q).result.Success?
    ensures var w0 := Listing(w, q).world;
            w0.credentials == w.credentials && Reuse(w, b, q) == ReuseListed(w0, w0.credentials, b, q)
  {
    hide Fetch, FetchOptions, Ours, KeptKeys, SecretKeys, IssuesAnew, Supersede, WithKept, PreferPersisted, KeepStorage, KeepGateway;
    ReuseDecides(w, b, q);
  }

  /**
   * The credential calls of any run: it mints at most once, for halves that are selected, not kept
   * and have no live default; it shows only defaults; its revokes come last, after a fetch that
   * succeeded, and each one is of a leftover this tool minted, named by a half that was replaced.
   */
  lemma {:induction false} CallDiscipline(w: World, b: Branch, q: Request) returns (calls: seq<Call>, revokes: seq<Call>)
    requires SecretKeys(q) != {}
    ensures Follows(w, Reuse(w, b, q).world, calls + revokes)
    ensures Restrained(calls, w.credentials, q, b.name)
    ensures RevokesLeftovers(revokes, w.credentials, q, b.name)
    ensures revokes != [] ==>
              && q.revokeSuperseded && Listing(w, q).result.Success?
              && Fetch(Listing(w, q).world, b, q.policy, FetchOptions(q, KeptKeys(w.credentials, q)), q.now).result.Success?
  {
    hide Fetch, FetchOptions, KeptKeys, SecretKeys, Listing, Restrained, RevokesLeftovers, ReuseListed, Reuse, Follows;
    var head := ListingRestrained(w, b, q);
    if Listing(w, q).result.Failure? {
      calls, revokes := head, [];
      NotListed(w, b, q);
      assert head + [] == head;
      NoLeftovers(w.credentials, q, b.name);
    } else {
      ListedOrNot(w, b, q);
      var w0 := Listing(w, q).world;
      var fetching := FetchRestrained(w0, b, q);
      calls := head + fetching;
      JoinRestrained(head, fetching, w.credentials, q, b.name);
      revokes := ListedCalls(w0, b, q);
      var fetched := Fetch(w0, b, q.policy, FetchOptions(q, KeptKeys(w0.credentials, q)), q.now).world;
      FollowsOn(w, w0, fetched, head, fetching);
      FollowsOn(w, fetched, Reuse(w, b, q).world, calls, revokes);
    }
  }

  lemma {:induction false} ListingRestrained(w: World, b: Branch, q: Request) returns (calls: seq<Call>)
    ensures Follows(w, Listing(w, q).world, calls) && calls == (if NeedsList(q) then [ListCredentials] else [])
    ensures Restrained(calls, w.credentials, q, b.name) && calls + [] == calls
  {
    hide FetchOptions, SecretScopes, MintScopes, DefaultReveals, KeptKeys;
    calls := if NeedsList(q) then [ListCredentials] else [];
    NoCreates(calls);
  }

  lemma {:induction false} JoinRestrained(a: seq<Call>, c: seq<Call>, credentials: seq<Credential>, q: Request, branchName: string)
    requires Restrained(a, credentials, q, branchName) && Restrained(c, credentials, q, branchName)
    requires a == [] || a == [ListCredentials]
    ensures Restrained(a + c, credentials, q, branchName)
  {
    hide FetchOptions, SecretScopes, MintScopes, DefaultReveals, KeptKeys, CredentialName;
    NoCreates(a);
    CreatesJoin(a, c);
  }
}
