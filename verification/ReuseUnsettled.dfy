/**
 * Runs for secrets only, with every call answered: they succeed, and the first one settles or the
 * second mints again. Two first runs that do not settle.
 */
module ReuseUnsettled {
  import opened Wrappers
  import opened Credentials
  import opened BranchEnv
  import opened ReuseSecrets
  import opened ReuseDiscipline
  import opened ReuseFixedPoint
  import opened ReuseSettles

  // ---------------------------------------------------------------------------
  // Runs that succeed
  // ---------------------------------------------------------------------------

  const SECRETS: set<EnvKey> := {AccessKeyId, SecretAccessKey, GatewayToken}

  /** Every call of the service is answered, and it has something left to issue. */
  predicate Answers(w: World) { w.outage == {} && w.supply != [] }

  /** At most one issue was taken from the supply. */
  predicate AfterOneMint(w: World, w2: World) {
    w2.outage == w.outage && (w2.supply == w.supply || (w.supply != [] && w2.supply == w.supply[1..]))
  }

  lemma {:induction false} SecretsNeedStorage(p: Policy, o: Options)
    requires o.keys.Some? && o.keys.value <= SECRETS
    ensures !NeedsDatabase(p, o) && !NeedsTarget(p, o) && !NeedsUnpooled(p, o) && !WantsSuffix(p, o) && !NeedsEndpoints(p, o)
    ensures !Wants(o, DatabaseUrl) && !WantsAuth(p, o) && !WantsDataApi(p, o) && !WantsRealtime(p, o)
  {
  }

  /** For secrets only, the branch is read for its storage at most. */
  lemma {:induction false} ReadAnswered(w: World, b: Branch, p: Policy, o: Options)
    requires w.outage == {} && b.storage.Some? && o.keys.Some? && o.keys.value <= SECRETS
    ensures ReadBranch(w, b, p, o).result.Success?
  {
    hide Wants, NeedsDatabase, NeedsTarget, NeedsUnpooled, WantsSuffix, NeedsEndpoints, WantsAuth, WantsDataApi, WantsRealtime, WantsStorage,
      ReadServices, ReadRest;
    SecretsNeedStorage(p, o);
    var early := StartEarly(w, b, p, o);
    var target := ReadTarget(early.world, b, p, o);
    assert target == Reply(early.world, Success(Target(None, None)));
    ServicesUnread(early.world, b, p, o);
    RestAnswered(early.world, b, p, o, early);
  }

  lemma {:induction false} ServicesUnread(w: World, b: Branch, p: Policy, o: Options)
    requires !NeedsDatabase(p, o) && !NeedsTarget(p, o) && !NeedsUnpooled(p, o)
    requires !Wants(o, DatabaseUrl) && !WantsAuth(p, o) && !WantsDataApi(p, o)
    ensures ReadServices(w, b, p, o, Target(None, None)) == Reply(w, Success(Services(None, None, None, None)))
  {
    hide Wants, NeedsDatabase, NeedsTarget, NeedsUnpooled, WantsAuth, WantsDataApi;
  }

  lemma {:induction false} RestAnswered(w: World, b: Branch, p: Policy, o: Options, early: Early)
    requires !NeedsTarget(p, o) && !NeedsUnpooled(p, o) && !WantsSuffix(p, o) && !NeedsEndpoints(p, o)
    requires !Wants(o, DatabaseUrl) && !WantsAuth(p, o) && !WantsDataApi(p, o) && !WantsRealtime(p, o)
    requires early.computes.None? && early.storage == if WantsStorage(p, o) then Some(Success(b.storage)) else None
    requires b.storage.Some?
    ensures ReadRest(w, b, p, o, early, Services(None, None, None, None)).result.Success?
  {
    hide Wants, NeedsTarget, NeedsUnpooled, WantsSuffix, NeedsEndpoints, WantsAuth, WantsDataApi, WantsRealtime, WantsStorage;
  }

  lemma {:induction false} StartAnswered(w: World, wanted: bool, credential: Option<Credential>)
    requires w.outage == {} && (credential.Some? ==> credential.value in w.credentials)
    ensures var r := StartReveal(w, wanted, credential);
            !Rejected(r.outcome) && r.world.outage == {} && r.world.supply == w.supply && r.world.credentials == w.credentials
  {
    hide Find;
  }

  lemma {:induction false} ResolveAnswered(w: World, scopes: set<Scope>, branchName: string, now: int)
    requires Answers(w)
    ensures var r := Resolve(w, scopes, branchName, now); r.result.Success? && AfterOneMint(w, r.world)
  {
    hide DefaultOf, CredentialName, StartReveal, DeriveScopes;
    var storageDefault, gatewayDefault := DefaultOf(w.credentials, STORAGE_DEFAULT, now), DefaultOf(w.credentials, GATEWAY_DEFAULT, now);
    DefaultIsListed(w.credentials, STORAGE_DEFAULT, now);
    DefaultIsListed(w.credentials, GATEWAY_DEFAULT, now);
    var storage := StorageRead in scopes || StorageWrite in scopes;
    var w1 := Called(w, ListCredentials);
    StartAnswered(w1, storage, storageDefault);
    StartAnswered(StartReveal(w1, storage, storageDefault).world, GatewayInvoke in scopes, gatewayDefault);
  }

  lemma {:induction false} DefaultIsListed(credentials: seq<Credential>, name: string, now: int)
    ensures DefaultOf(credentials, name, now).Some? ==> DefaultOf(credentials, name, now).value in credentials
  {
    hide Find;
  }

  lemma {:induction false} FetchAnswered(w: World, b: Branch, p: Policy, o: Options, now: int)
    requires Answers(w) && b.storage.Some? && o.keys.Some? && o.keys.value <= SECRETS
    ensures var r := Fetch(w, b, p, o, now); r.result.Success? && AfterOneMint(w, r.world)
  {
    hide ReadBranch, Resolve, Entries, SecretScopes, WantsCredential, Complete;
    ReadAnswered(w, b, p, o);
    var reading := ReadBranch(w, b, p, o);
    if WantsCredential(p, o) {
      ResolveAnswered(reading.world, SecretScopes(p, o), b.name, now);
      EntriesAgree(b, p, o, reading.result.value, Some(Resolve(reading.world, SecretScopes(p, o), b.name, now).result.value));
    } else {
      EntriesAgree(b, p, o, reading.result.value, None);
    }
  }

  lemma {:induction false} RevokesAnswered(w: World, ids: seq<string>)
    requires w.outage == {}
    ensures var r := RevokeAll(w, ids); r.result.Success? && r.world.outage == {} && r.world.supply == w.supply
    decreases |ids|
  {
    if ids != [] { RevokesAnswered(RevokeOf(w, ids[0]).world, ids[1..]); }
  }

  /** A run for secrets only succeeds when every call is answered and the branch has storage. */
  lemma {:induction false} RunAnswered(w: World, b: Branch, q: Request)
    requires Answers(w) && b.storage.Some? && q.selection.Some? && q.selection.value <= SECRETS && SecretKeys(q) != {}
    ensures var r := Reuse(w, b, q); r.result.Success? && AfterOneMint(w, r.world)
  {
    hide Fetch, KeptKeys, SecretKeys, WithKept, PreferPersisted, Ours, IssuesAnew, RevokeAll, Selected, NeedsList;
    var listing := Listing(w, q);
    var kept := KeptKeys(listing.result.value, q);
    FetchAnswered(listing.world, b, q.policy, FetchOptions(q, kept), q.now);
    var fetched := Fetch(listing.world, b, q.policy, FetchOptions(q, kept), q.now);
    RevokesAnswered(fetched.world, Ours(listing.result.value, q, b.name));
  }

  // ---------------------------------------------------------------------------
  // Settled or not
  // ---------------------------------------------------------------------------

  /** What the service holds and will issue next has ids, short ids and secrets of its own. */
  ghost predicate IssuesWell(w: World) { w.supply != [] && WellIssued(w.credentials + [Issued(w.supply[0], {}, "")]) }

  lemma {:induction false} EvolvedWellIssued(w: World, branchName: string, minted: Option<Credential>, ids: seq<string>,
                                             after: seq<Credential>)
    requires IssuesWell(w) && IsMint(minted, w, branchName) && Evolved(w.credentials, minted, ids, after)
    ensures WellIssued(after)
  {
    hide CredentialName, GatewayTokenIdShort;
    var all := w.credentials + [Issued(w.supply[0], {}, "")];
    forall i | 0 <= i < |after|
      ensures after[i].tokenId == all[i].tokenId && after[i].shortId == all[i].shortId && WellFormed(after[i])
    {
      assert all[i] in all;
    }
    forall i, j | 0 <= i < j < |after| ensures after[i].tokenId != after[j].tokenId && after[i].shortId != after[j].shortId {
      assert all[i].tokenId != all[j].tokenId && all[i].shortId != all[j].shortId;
    }
  }

  lemma {:induction false} EvolvedLives(w: World, branchName: string, minted: Option<Credential>, ids: seq<string>,
                                        after: seq<Credential>, now: int, now2: int)
    requires IsMint(minted, w, branchName) && Evolved(w.credentials, minted, ids, after)
    requires forall c :: c in w.credentials ==> IsLive(c, now2) == IsLive(c, now)
    ensures forall c :: c in after ==> IsLive(c, now2) == IsLive(c, now)
  {
    hide CredentialName;
    forall i | 0 <= i < |after| ensures IsLive(after[i], now2) == IsLive(after[i], now) {
      if i < |w.credentials| { assert w.credentials[i] in w.credentials; }
    }
  }

  lemma {:induction false} RunEvolves(w: World, b: Branch, q: Request) returns (minted: Option<Credential>)
    requires SecretKeys(q) != {} && Reuse(w, b, q).result.Success?
    ensures Evolved(w.credentials, minted, RevokedIds(w.credentials, q, b.name), Reuse(w, b, q).world.credentials)
    ensures IsMint(minted, w, b.name)
    ensures NewStorage(w.credentials, q) && DefaultOf(w.credentials, STORAGE_DEFAULT, q.now).None? ==> minted.Some?
    ensures NewGateway(w.credentials, q) && DefaultOf(w.credentials, GATEWAY_DEFAULT, q.now).None? ==> minted.Some?
  {
    hide Fetch, FetchOptions, KeptKeys, SecretKeys, WithKept, PreferPersisted, Reuse, Persist, KeepStorage, KeepGateway, Ours,
      DefaultOf, Selected, IsMint, NewStorage, NewGateway, StorageSelected, GatewaySelected, Evolved, RevokeAll, RevokedIds;
    var w0 := RunShape(w, b, q);
    var s, g;
    minted, s, g := FetchLeaves(w0, b, q);
    SameMint(minted, w0, w, b.name);
    EvolvedRevoked(w.credentials, minted, Fetch(w0, b, q.policy, FetchOptions(q, KeptKeys(w.credentials, q)), q.now).world,
                   RevokedIds(w.credentials, q, b.name));
  }

  /** Two runs for secrets only, every call answered: both succeed, and the second issues anew exactly when the first does not settle. */
  lemma {:induction false} ReissuesIff(w: World, b: Branch, q: Request, now2: int)
    requires w.outage == {} && |w.supply| >= 2 && b.storage.Some? && IssuesWell(w)
    requires q.selection.Some? && q.selection.value <= SECRETS && SecretKeys(q) != {}
    requires forall c :: c in w.credentials ==> IsLive(c, now2) == IsLive(c, q.now)
    requires w.supply[0].tokenId != Persisted(q.source, AccessKeyId)
    ensures var r := Reuse(w, b, q);
            && r.result.Success?
            && var r2 := Reuse(r.world, b, Again(q, r.result.value.vars, now2));
               && r2.result.Success?
               && (r2.result.value.issued <==>
                     !(StorageSettles(w.credentials, q, b.name) && GatewaySettles(w.credentials, q, b.name)))
  {
    hide Reuse, WellIssued, SecretKeys, StorageSettles, GatewaySettles, IsLive, Quiet, IsMint, Evolved, RevokedIds, Persist, Persisted;
    RunAnswered(w, b, q);
    var r := Reuse(w, b, q);
    var minted := RunEvolves(w, b, q);
    EvolvedWellIssued(w, b.name, minted, RevokedIds(w.credentials, q, b.name), r.world.credentials);
    EvolvedLives(w, b.name, minted, RevokedIds(w.credentials, q, b.name), r.world.credentials, q.now, now2);
    SameSelection(q, r.result.value.vars, now2);
    RunAnswered(r.world, b, Again(q, r.result.value.vars, now2));
    ReuseIsFixedPoint(w, b, q, r.world, b, now2);
  }

  /** No platform default among them. */
  ghost predicate NoDefaults(credentials: seq<Credential>) { forall c :: c in credentials ==> NotDefaultName(c.name) }

  lemma {:induction false} NoDefaultFound(credentials: seq<Credential>, now: int)
    requires NoDefaults(credentials)
    ensures DefaultOf(credentials, STORAGE_DEFAULT, now).None? && DefaultOf(credentials, GATEWAY_DEFAULT, now).None?
  {
    hide Find;
  }

  /** Without platform defaults, a run that issues anew mints one credential. */
  lemma {:induction false} IssuingMints(w: World, b: Branch, q: Request)
    requires SecretKeys(q) != {} && Reuse(w, b, q).result.Success? && Reuse(w, b, q).result.value.issued && NoDefaults(w.credentials)
    ensures var after := Reuse(w, b, q).world.credentials; |after| == |w.credentials| + 1 && NoDefaults(after)
  {
    hide Reuse, SecretKeys, Selected, RevokedIds, CredentialName, DefaultOf, HalfReusable;
    IssuedIffNew(w, b, q);
    NoDefaultFound(w.credentials, q.now);
    var minted := RunEvolves(w, b, q);
    OursIsNoDefault(b.name);
    var after := Reuse(w, b, q).world.credentials;
    forall i | 0 <= i < |after| ensures NotDefaultName(after[i].name) {
      if i < |w.credentials| { assert w.credentials[i] in w.credentials; }
    }
  }

  /** Where the first of two runs issues anew and does not settle, each of them mints a credential. */
  lemma {:induction false} UnsettledMintsTwice(w: World, b: Branch, q: Request)
    requires w.outage == {} && |w.supply| >= 2 && b.storage.Some? && IssuesWell(w) && NoDefaults(w.credentials)
    requires q.selection.Some? && q.selection.value <= SECRETS && SecretKeys(q) != {}
    requires w.supply[0].tokenId != Persisted(q.source, AccessKeyId) && IssuesAnew(w.credentials, q)
    requires !StorageSettles(w.credentials, q, b.name) || !GatewaySettles(w.credentials, q, b.name)
    ensures MintsTwice(w, b, q)
  {
    hide Reuse, IssuesWell, SecretKeys, StorageSettles, GatewaySettles, Persisted, NoDefaults, IssuesAnew;
    ReissuesIff(w, b, q, q.now);
    IssuedIffNew(w, b, q);
    IssuingMints(w, b, q);
    var r := Reuse(w, b, q);
    SameSelection(q, r.result.value.vars, q.now);
    IssuingMints(r.world, b, Again(q, r.result.value.vars, q.now));
  }

  /** A run and a second one on what it returned both succeed, and each mints a credential. */
  ghost predicate MintsTwice(w: World, b: Branch, q: Request) {
    var r := Reuse(w, b, q);
    && r.result.Success? && |r.world.credentials| == |w.credentials| + 1
    && var r2 := Reuse(r.world, b, Again(q, r.result.value.vars, q.now));
       r2.result.Success? && |r2.world.credentials| == |w.credentials| + 2
  }

  // ---------------------------------------------------------------------------
  // Two runs that do not settle
  // ---------------------------------------------------------------------------

  const MAIN := Branch("br", "main", [], [], map[], map[], [], None, map[], None, Some(StorageSnapshot("host", "region")))

  function TokenOf(short: string): string { TOKEN_PREFIX + short + "_" + "t" }

  /** A storage credential this tool minted for the branch. */
  const LEFTOVER := Credential("A", "a", Some(CredentialName("main")), "user", STORAGE_SCOPES, false, Never, "s", TokenOf("a"))

  const HELD := World([LEFTOVER], [Issue("B", "b", "s", TokenOf("b")), Issue("C", "c", "s", TokenOf("c"))], {}, [])

  lemma {:induction false} HeldIssuesWell()
    ensures IssuesWell(HELD)
  {
    hide GatewayTokenIdShort;
    TokenNames("a", "t");
    TokenNames("b", "t");
  }

  lemma {:induction false} LeftoverIsNoDefault()
    ensures NoDefaults(HELD.credentials)
  {
    OursIsNoDefault("main");
  }

  /** The secret alone, beside a persisted id that names nothing. */
  const LONE := Request(Policy(false, false, false, 0, 1, false), Some({SecretAccessKey}), map[AccessKeyId := "Z"], true, Declared, None, None, 0)

  /** A run for only the secret mints one, and so does the next: the persisted id never names it. */
  lemma {:induction false} LoneKeyReissues()
    ensures MintsTwice(HELD, MAIN, LONE)
  {
    hide IssuesWell, PolicyKeys, SecretKeys, StorageSettles, GatewaySettles, KeepStorage, MintsTwice;
    HeldIssuesWell();
    LoneUnsettled();
    LeftoverIsNoDefault();
    UnsettledMintsTwice(HELD, MAIN, LONE);
  }

  lemma {:induction false} LoneUnsettled()
    ensures SecretKeys(LONE) != {} && !KeepStorage(HELD.credentials, LONE) && !StorageSettles(HELD.credentials, LONE, "main")
  {
    hide PolicyKeys, RevokedIds, DefaultOf, GatewayTokenIdShort;
    SelectedSecrets(LONE);
    assert SecretAccessKey in SecretKeys(LONE);
    assert NamedStorage(HELD.credentials, LONE.source, 0).None? by { assert LEFTOVER.tokenId != "Z"; }
  }

  /** Both halves name one credential, which is good for storage only. */
  const SHARED := Request(
    Policy(false, false, false, 0, 1, true), Some(SECRETS),
    map[AccessKeyId := "A", SecretAccessKey := "s", GatewayToken := TokenOf("a")], true, Declared, None, None, 0)

  /** A run that keeps the storage half revokes its credential with the gateway half it replaces, so the next one mints again. */
  lemma {:induction false} SharedReissues()
    ensures KeepStorage(HELD.credentials, SHARED) && MintsTwice(HELD, MAIN, SHARED)
  {
    hide IssuesWell, PolicyKeys, SecretKeys, StorageSettles, GatewaySettles, KeepStorage, KeepGateway, MintsTwice;
    HeldIssuesWell();
    SharedUnsettled();
    LeftoverIsNoDefault();
    UnsettledMintsTwice(HELD, MAIN, SHARED);
  }

  lemma {:induction false} SharedUnsettled()
    ensures SecretKeys(SHARED) != {} && KeepStorage(HELD.credentials, SHARED) && !KeepGateway(HELD.credentials, SHARED)
    ensures !StorageSettles(HELD.credentials, SHARED, "main")
  {
    hide PolicyKeys, DefaultOf, GatewayTokenIdShort, Ours;
    SelectedSecrets(SHARED);
    LeftoverIsNoDefault();
    NoDefaultFound(HELD.credentials, 0);
    TokenNames("a", "t");
    assert NamedStorage(HELD.credentials, SHARED.source, 0) == Some(LEFTOVER);
    assert NamedGateway(HELD.credentials, SHARED.source, 0) == Some(LEFTOVER);
    assert SecretAccessKey in SecretKeys(SHARED);
    KeptStorageRevoked(HELD.credentials, SHARED, "main");
  }
}
