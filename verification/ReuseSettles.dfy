/**
 * When a second run of `fetchEnvReusingSecrets` on what the first one returned keeps every secret:
 * the exact condition on the first call.
 */
module ReuseSettles {
  import opened Wrappers
  import opened Credentials
  import opened BranchEnv
  import opened ReuseSecrets
  import opened ReuseDiscipline
  import opened ReuseFixedPoint

  // ---------------------------------------------------------------------------
  // The condition
  // ---------------------------------------------------------------------------

  /**
   * After the call the storage half will be kept: a kept half must not lose its credential to the
   * other half's, and when only one of the two storage keys is selected, the persisted other one
   * must go with it.
   */
  predicate StorageSettles(credentials: seq<Credential>, q: Request, branchName: string) {
    var named := NamedStorage(credentials, q.source, q.now);
    var survives := named.Some? && named.value.tokenId !in RevokedIds(credentials, q, branchName);
    if !StorageSelected(q) then true
    else if KeepStorage(credentials, q) then survives
    else if Selected(q, AccessKeyId) then Selected(q, SecretAccessKey) || Persisted(q.source, SecretAccessKey) != ""
    else survives && HalfReusable(named, DefaultOf(credentials, STORAGE_DEFAULT, q.now), STORAGE_SCOPES)
  }

  predicate GatewaySettles(credentials: seq<Credential>, q: Request, branchName: string) {
    var named := NamedGateway(credentials, q.source, q.now);
    GatewaySelected(q) && KeepGateway(credentials, q) ==>
      named.Some? && named.value.tokenId !in RevokedIds(credentials, q, branchName)
  }

  /** The second call: the same selection, on what the first one returned. */
  function Again(q: Request, vars: map<EnvKey, string>, now: int): Request { q.(source := Persist(q, vars), now := now) }

  // ---------------------------------------------------------------------------
  // The credentials after the first call
  // ---------------------------------------------------------------------------

  /** How the credentials changed between the calls. */
  ghost predicate Between(before: seq<Credential>, minted: Option<Credential>, ids: seq<string>, after: seq<Credential>, now: int, now2: int) {
    && Evolved(before, minted, ids, after) && WellIssued(before) && WellIssued(after)
    && (forall c :: c in after ==> IsLive(c, now2) == IsLive(c, now))
    && (minted.Some? ==> minted.value.tokenId !in ids && NotDefaultName(minted.value.name) && IsLive(minted.value, now))
    && (forall c :: c in before && !NotDefaultName(c.name) ==> c.tokenId !in ids)
  }

  lemma {:induction false} EvolvedWell(before: seq<Credential>, minted: Option<Credential>, ids: seq<string>, after: seq<Credential>)
    requires Evolved(before, minted, ids, after) && WellIssued(after)
    ensures WellIssued(before)
  {
    forall i | 0 <= i < |before| ensures WellFormed(before[i]) { assert WellFormed(after[i]); }
    forall i, j | 0 <= i < j < |before| ensures before[i].tokenId != before[j].tokenId && before[i].shortId != before[j].shortId {
      assert after[i].tokenId != after[j].tokenId && after[i].shortId != after[j].shortId;
    }
  }

  /** A credential that was not revoked is still there, as it was. */
  lemma {:induction false} Remains(before: seq<Credential>, minted: Option<Credential>, ids: seq<string>,
                                   after: seq<Credential>, c: Credential)
    requires Evolved(before, minted, ids, after) && (c in before || minted == Some(c)) && c.tokenId !in ids
    ensures c in after
  {
    var all := before + (if minted.Some? then [minted.value] else []);
    var i := if c in before then IndexOf(before, c) else |before|;
    assert all[i] == c && after[i] == c;
  }

  /** A live credential after the call was there before, or is the minted one. */
  lemma {:induction false} WasThere(before: seq<Credential>, minted: Option<Credential>, ids: seq<string>,
                                    after: seq<Credential>, c: Credential)
    requires Evolved(before, minted, ids, after) && c in after && !c.revoked
    ensures c.tokenId !in ids && (c in before || minted == Some(c))
  {
    var i := IndexOf(after, c);
    if i < |before| { assert before[i] in before; }
  }

  lemma {:induction false} NamedStorageIs(credentials: seq<Credential>, source: map<EnvKey, string>, now: int, c: Credential)
    requires WellIssued(credentials) && c in credentials && c.tokenId == Persisted(source, AccessKeyId)
    ensures NamedStorage(credentials, source, now) == if IsLive(c, now) then Some(c) else None
  {
    hide Find;
    var id := Persisted(source, AccessKeyId);
    var found := NamedStorage(credentials, source, now);
    assert WellFormed(c);
    if found.Some? { SameId(credentials, found.value, c); }
  }

  lemma {:induction false} NamedGatewayIs(credentials: seq<Credential>, source: map<EnvKey, string>, now: int, c: Credential)
    requires WellIssued(credentials) && c in credentials && GatewayTokenIdShort(Persisted(source, GatewayToken)) == Some(c.shortId)
    ensures NamedGateway(credentials, source, now) == if IsLive(c, now) then Some(c) else None
  {
    hide Find, GatewayTokenIdShort;
    var found := NamedGateway(credentials, source, now);
    if found.Some? { SameId(credentials, found.value, c); }
  }

  lemma {:induction false} FindSame(a: seq<Credential>, p: Credential -> bool, b: seq<Credential>, p2: Credential -> bool)
    requires |a| <= |b|
    requires forall i :: 0 <= i < |a| ==> (p(a[i]) <==> p2(b[i])) && (p(a[i]) ==> b[i] == a[i])
    requires forall i :: |a| <= i < |b| ==> !p2(b[i])
    ensures Find(a, p) == Find(b, p2)
    decreases |b|
  {
    if a == [] {
      assert forall x :: x in b ==> !p2(x);
    } else if !p(a[0]) {
      FindSame(a[1..], p, b[1..], p2);
    }
  }

  /** The platform defaults are the same before and after. */
  lemma {:induction false} DefaultStays(before: seq<Credential>, minted: Option<Credential>, ids: seq<string>, after: seq<Credential>,
                                        now: int, now2: int, name: string)
    requires Between(before, minted, ids, after, now, now2) && !NotDefaultName(Some(name))
    ensures DefaultOf(after, name, now2) == DefaultOf(before, name, now)
  {
    hide Find, WellIssued;
    var p, p2 := DefaultTest(name, now), DefaultTest(name, now2);
    forall i | 0 <= i < |before| ensures (p(before[i]) <==> p2(after[i])) && (p(before[i]) ==> after[i] == before[i]) {
      assert before[i] in before && after[i] in after;
    }
    FindSame(before, p, after, p2);
  }

  // ---------------------------------------------------------------------------
  // The storage half
  // ---------------------------------------------------------------------------

  /** The half still names a live credential exactly when that was not revoked. */
  lemma {:induction false} StorageStillNamed(before: seq<Credential>, minted: Option<Credential>, ids: seq<string>, after: seq<Credential>,
                                             q: Request, source2: map<EnvKey, string>, now2: int)
    requires Between(before, minted, ids, after, q.now, now2)
    requires Persisted(source2, AccessKeyId) == Persisted(q.source, AccessKeyId)
    requires minted.Some? ==> minted.value.tokenId != Persisted(q.source, AccessKeyId)
    ensures var named := NamedStorage(before, q.source, q.now);
            NamedStorage(after, source2, now2) == if named.Some? && named.value.tokenId !in ids then named else None
  {
    hide Find, WellIssued, Evolved;
    var named, named2 := NamedStorage(before, q.source, q.now), NamedStorage(after, source2, now2);
    if named.Some? && named.value.tokenId !in ids {
      Remains(before, minted, ids, after, named.value);
      NamedStorageIs(after, source2, now2, named.value);
    } else if named2.Some? {
      WasThere(before, minted, ids, after, named2.value);
      NamedStorageIs(before, q.source, q.now, named2.value);
      assert false;
    }
  }

  lemma {:induction false} StorageNewlyNamed(before: seq<Credential>, minted: Option<Credential>, ids: seq<string>, after: seq<Credential>,
                                             q: Request, source2: map<EnvKey, string>, now2: int, s: Credential)
    requires Between(before, minted, ids, after, q.now, now2) && Persisted(source2, AccessKeyId) == s.tokenId
    requires Backs(s, before, DefaultOf(before, STORAGE_DEFAULT, q.now), minted, STORAGE_SCOPES)
    ensures Persisted(source2, AccessKeyId) != "" && s.s3Secret != ""
    ensures HalfReusable(NamedStorage(after, source2, now2), DefaultOf(after, STORAGE_DEFAULT, now2), STORAGE_SCOPES)
  {
    hide Find, WellIssued, Evolved, NamedStorage;
    DefaultStays(before, minted, ids, after, q.now, now2, STORAGE_DEFAULT);
    var d := DefaultOf(before, STORAGE_DEFAULT, q.now);
    if d.Some? { SameId(before, s, d.value); }
    Remains(before, minted, ids, after, s);
    NamedStorageIs(after, source2, now2, s);
    IssuedIsWellFormed(after, s);
  }

  lemma {:induction false} IssuedIsWellFormed(credentials: seq<Credential>, c: Credential)
    requires WellIssued(credentials) && c in credentials
    ensures WellFormed(c)
  {
  }

  lemma {:induction false} StorageKeptIff(before: seq<Credential>, minted: Option<Credential>, after: seq<Credential>,
                                          q: Request, branchName: string, vars: map<EnvKey, string>, now2: int, s: Credential)
    requires Between(before, minted, RevokedIds(before, q, branchName), after, q.now, now2)
    requires minted.Some? ==> minted.value.tokenId != Persisted(q.source, AccessKeyId)
    requires NewStorage(before, q) ==> Backs(s, before, DefaultOf(before, STORAGE_DEFAULT, q.now), minted, STORAGE_SCOPES)
    requires StorageAfter(before, q, Persist(q, vars), s)
    ensures KeepStorage(after, Again(q, vars, now2)) <==> StorageSettles(before, q, branchName)
  {
    hide Find, WellIssued, Evolved, Selected, Persist, NamedStorage, DefaultOf, RevokedIds, Between, Backs;
    var ids, q2 := RevokedIds(before, q, branchName), Again(q, vars, now2);
    SameSelection(q, vars, now2);
    DefaultStays(before, minted, ids, after, q.now, now2, STORAGE_DEFAULT);
    if StorageSelected(q) {
      if !NewStorage(before, q) || !Selected(q, AccessKeyId) {
        StorageStillNamed(before, minted, ids, after, q, q2.source, now2);
        if NewStorage(before, q) { BackerHasSecret(before, minted, ids, after, q.now, now2, s, STORAGE_DEFAULT, STORAGE_SCOPES); }
        NamedHasId(before, q.source, q.now);
      } else {
        StorageNewlyNamed(before, minted, ids, after, q, q2.source, now2, s);
      }
    }
  }

  lemma {:induction false} NamedHasId(credentials: seq<Credential>, source: map<EnvKey, string>, now: int)
    ensures NamedStorage(credentials, source, now).Some? ==> Persisted(source, AccessKeyId) != ""
  {
    hide Find;
  }

  lemma {:induction false} BackerHasSecret(before: seq<Credential>, minted: Option<Credential>, ids: seq<string>, after: seq<Credential>,
                                           now: int, now2: int, c: Credential, name: string, scopes: set<Scope>)
    requires Between(before, minted, ids, after, now, now2) && Backs(c, before, DefaultOf(before, name, now), minted, scopes)
    ensures WellFormed(c)
  {
    hide Find, DefaultOf, Evolved, WellFormed;
    if c in before {
      IssuedIsWellFormed(before, c);
    } else {
      Remains(before, minted, ids, after, c);
      IssuedIsWellFormed(after, c);
    }
  }

  lemma {:induction false} SameSelection(q: Request, vars: map<EnvKey, string>, now2: int)
    ensures var q2 := Again(q, vars, now2);
            && StorageSelected(q2) == StorageSelected(q) && GatewaySelected(q2) == GatewaySelected(q)
            && (forall key :: Selected(q2, key) == Selected(q, key)) && SecretKeys(q2) == SecretKeys(q)
  {
    hide PolicyKeys;
    var q2 := Again(q, vars, now2);
    assert forall key :: Selected(q2, key) == Selected(q, key);
  }

  // ---------------------------------------------------------------------------
  // The gateway half
  // ---------------------------------------------------------------------------

  lemma {:induction false} GatewayKeptIff(before: seq<Credential>, minted: Option<Credential>, after: seq<Credential>,
                                          q: Request, branchName: string, vars: map<EnvKey, string>, now2: int, g: Credential)
    requires Between(before, minted, RevokedIds(before, q, branchName), after, q.now, now2)
    requires NewGateway(before, q) ==> Backs(g, before, DefaultOf(before, GATEWAY_DEFAULT, q.now), minted, GATEWAY_SCOPES)
    requires GatewayAfter(before, q, Persist(q, vars), g)
    ensures KeepGateway(after, Again(q, vars, now2)) <==> GatewaySettles(before, q, branchName)
  {
    hide Find, WellIssued, Evolved, Selected, Persist, NamedGateway, DefaultOf, RevokedIds, Between, Backs, GatewayTokenIdShort;
    var ids, q2 := RevokedIds(before, q, branchName), Again(q, vars, now2);
    SameSelection(q, vars, now2);
    DefaultStays(before, minted, ids, after, q.now, now2, GATEWAY_DEFAULT);
    if GatewaySelected(q) {
      if NewGateway(before, q) {
        GatewayNewlyNamed(before, minted, ids, after, q, q2.source, now2, g);
      } else {
        GatewayStillNamed(before, minted, ids, after, q, q2.source, now2);
      }
    }
  }

  lemma {:induction false} GatewayNewlyNamed(before: seq<Credential>, minted: Option<Credential>, ids: seq<string>, after: seq<Credential>,
                                             q: Request, source2: map<EnvKey, string>, now2: int, g: Credential)
    requires Between(before, minted, ids, after, q.now, now2) && Persisted(source2, GatewayToken) == g.apiToken
    requires Backs(g, before, DefaultOf(before, GATEWAY_DEFAULT, q.now), minted, GATEWAY_SCOPES)
    ensures Persisted(source2, GatewayToken) != ""
    ensures HalfReusable(NamedGateway(after, source2, now2), DefaultOf(after, GATEWAY_DEFAULT, now2), GATEWAY_SCOPES)
  {
    hide Find, WellIssued, Evolved, NamedGateway;
    DefaultStays(before, minted, ids, after, q.now, now2, GATEWAY_DEFAULT);
    var d := DefaultOf(before, GATEWAY_DEFAULT, q.now);
    if d.Some? { SameId(before, g, d.value); }
    Remains(before, minted, ids, after, g);
    IssuedIsWellFormed(after, g);
    NamedGatewayIs(after, source2, now2, g);
  }

  lemma {:induction false} GatewayStillNamed(before: seq<Credential>, minted: Option<Credential>, ids: seq<string>, after: seq<Credential>,
                                             q: Request, source2: map<EnvKey, string>, now2: int)
    requires Between(before, minted, ids, after, q.now, now2) && NamedGateway(before, q.source, q.now).Some?
    requires Persisted(source2, GatewayToken) == Persisted(q.source, GatewayToken)
    ensures var named := NamedGateway(before, q.source, q.now);
            NamedGateway(after, source2, now2) == if named.value.tokenId !in ids then named else None
  {
    hide Find, WellIssued, Evolved, GatewayTokenIdShort;
    var named, named2 := NamedGateway(before, q.source, q.now), NamedGateway(after, source2, now2);
    if named.value.tokenId !in ids {
      Remains(before, minted, ids, after, named.value);
      NamedGatewayIs(after, source2, now2, named.value);
    } else if named2.Some? {
      WasThere(before, minted, ids, after, named2.value);
      if named2.value in before { SameId(before, named2.value, named.value); }
      ShortsDiffer(before, minted, ids, after, named.value);
      assert false;
    }
  }

  /** The minted credential shares its short id with no other. */
  lemma {:induction false} ShortsDiffer(before: seq<Credential>, minted: Option<Credential>, ids: seq<string>,
                                        after: seq<Credential>, c: Credential)
    requires Evolved(before, minted, ids, after) && WellIssued(after) && c in before
    ensures minted.Some? ==> minted.value.shortId != c.shortId && minted.value.tokenId != c.tokenId
  {
    var i := IndexOf(before, c);
    if minted.Some? {
      assert after[|before|].shortId == minted.value.shortId && after[i].shortId == c.shortId;
      assert after[|before|].tokenId == minted.value.tokenId && after[i].tokenId == c.tokenId;
    }
  }

  // ---------------------------------------------------------------------------
  // Two runs
  // ---------------------------------------------------------------------------

  lemma {:induction false} RunBetween(w: World, b: Branch, q: Request, minted: Option<Credential>, after: seq<Credential>, now2: int)
    requires Evolved(w.credentials, minted, RevokedIds(w.credentials, q, b.name), after) && WellIssued(after) && IsMint(minted, w, b.name)
    requires forall c :: c in after ==> IsLive(c, now2) == IsLive(c, q.now)
    ensures Between(w.credentials, minted, RevokedIds(w.credentials, q, b.name), after, q.now, now2)
  {
    hide WellIssued, Evolved, Ours, IssuesAnew, CredentialName, IsLive, Supersedes;
    var ids := RevokedIds(w.credentials, q, b.name);
    EvolvedWell(w.credentials, minted, ids, after);
    forall c | c in w.credentials && !NotDefaultName(c.name) ensures c.tokenId !in ids {
      DefaultsSurvive(w.credentials, q, b.name, c);
    }
    if minted.Some? {
      MintIsNew(w, b.name, minted, q.now);
      if minted.value.tokenId in ids {
        var c := OursSupersede(w.credentials, q, b.name, minted.value.tokenId);
        SupersedesFacts(w.credentials, q, b.name, c);
        ShortsDiffer(w.credentials, minted, ids, after, c);
        assert false;
      }
    }
  }

  lemma {:induction false} MintIsNew(w: World, branchName: string, minted: Option<Credential>, now: int)
    requires IsMint(minted, w, branchName) && minted.Some?
    ensures NotDefaultName(minted.value.name) && IsLive(minted.value, now) && w.supply != [] && minted.value.tokenId == w.supply[0].tokenId
  {
    OursIsNoDefault(branchName);
  }

  /** What the second run decides, from the first call alone. */
  lemma {:induction false} SecondRunKeeps(w: World, b: Branch, q: Request, now2: int)
    requires SecretKeys(q) != {} && Reuse(w, b, q).result.Success?
    requires var after := Reuse(w, b, q).world.credentials;
             WellIssued(after) && forall c :: c in after ==> IsLive(c, now2) == IsLive(c, q.now)
    requires w.supply != [] ==> w.supply[0].tokenId != Persisted(q.source, AccessKeyId)
    ensures var r := Reuse(w, b, q);
            var q2 := Again(q, r.result.value.vars, now2);
            && (KeepStorage(r.world.credentials, q2) <==> StorageSettles(w.credentials, q, b.name))
            && (KeepGateway(r.world.credentials, q2) <==> GatewaySettles(w.credentials, q, b.name))
  {
    hide Reuse, WellIssued, Evolved, SecretKeys, RevokedIds, KeepStorage, KeepGateway, StorageSettles, GatewaySettles, Backs, Between,
      DefaultOf, IsMint, StorageAfter, GatewayAfter, NewStorage, NewGateway, IsLive;
    var minted, s, g := RunLeaves(w, b, q);
    var r := Reuse(w, b, q);
    RunBetween(w, b, q, minted, r.world.credentials, now2);
    if minted.Some? { MintIsNew(w, b.name, minted, q.now); }
    StorageKeptIff(w.credentials, minted, r.world.credentials, q, b.name, r.result.value.vars, now2, s);
    GatewayKeptIff(w.credentials, minted, r.world.credentials, q, b.name, r.result.value.vars, now2, g);
  }

  /** A run that lists and reads, and does nothing else. */
  ghost predicate Quiet(w: World, w2: World) {
    && w.trace <= w2.trace && w2 == w.(trace := w2.trace)
    && forall i :: |w.trace| <= i < |w2.trace| ==> !IsIssuing(w2.trace[i])
  }

  lemma {:induction false} KeepingIsQuiet(w: World, b: Branch, q: Request)
    requires SecretKeys(q) != {} && KeepStorage(w.credentials, q) && KeepGateway(w.credentials, q)
    ensures Quiet(w, Reuse(w, b, q).world)
    ensures Reuse(w, b, q).result.Success? ==> !Reuse(w, b, q).result.value.issued
  {
    hide Fetch, FetchOptions, KeptKeys, SecretKeys, WithKept, PreferPersisted, KeepStorage, KeepGateway, Ours;
    if Listing(w, q).result.Success? {
      ListedOrNot(w, b, q);
      var w0 := Listing(w, q).world;
      FetchWants(w.credentials, q);
      var w1 := FetchShape(w0, b, q.policy, FetchOptions(q, KeptKeys(w.credentials, q)), q.now);
    }
  }

  lemma {:induction false} IssuedIffNew(w: World, b: Branch, q: Request)
    requires SecretKeys(q) != {} && Reuse(w, b, q).result.Success?
    ensures Reuse(w, b, q).result.value.issued <==> IssuesAnew(w.credentials, q)
  {
    hide Reuse, IssuesAnew, SecretKeys, Fetch, WithKept, PreferPersisted, KeptKeys, FetchOptions, RevokedIds, RevokeAll;
    var w0 := RunShape(w, b, q);
  }

  /** A run that keeps its secrets returns the persisted ones. */
  lemma {:induction false} KeepingReturnsSame(w: World, b: Branch, q: Request, key: EnvKey)
    requires KeepStorage(w.credentials, q) && KeepGateway(w.credentials, q) && key in SecretKeys(q)
    requires Reuse(w, b, q).result.Success?
    ensures key in q.source && key in Reuse(w, b, q).result.value.vars && Reuse(w, b, q).result.value.vars[key] == q.source[key]
  {
    hide Reuse, Fetch, FetchOptions, RevokedIds, RevokeAll, Selected, HalfReusable, IssuesAnew, PreferPersisted;
    var w0 := RunShape(w, b, q);
    KeptAreAll(w.credentials, q);
  }

  lemma {:induction false} KeptAreAll(credentials: seq<Credential>, q: Request)
    requires KeepStorage(credentials, q) && KeepGateway(credentials, q)
    ensures KeptKeys(credentials, q) == SecretKeys(q)
    ensures forall key :: key in SecretKeys(q) ==> key in q.source
  {
    hide Selected, HalfReusable;
  }

  /**
   * Running again on what a successful run returned, with any world that holds the same
   * credentials. When the first call settles, the second mints, shows and revokes nothing, however
   * its own calls fail, and returns the same secrets; when it does not, the second issues anew.
   */
  lemma {:induction false} ReuseIsFixedPoint(w: World, b: Branch, q: Request, w2: World, b2: Branch, now2: int)
    requires SecretKeys(q) != {} && Reuse(w, b, q).result.Success?
    requires var after := Reuse(w, b, q).world.credentials;
             w2.credentials == after && WellIssued(after) && forall c :: c in after ==> IsLive(c, now2) == IsLive(c, q.now)
    requires w.supply != [] ==> w.supply[0].tokenId != Persisted(q.source, AccessKeyId)
    ensures var vars := Reuse(w, b, q).result.value.vars;
            var r2 := Reuse(w2, b2, Again(q, vars, now2));
            if StorageSettles(w.credentials, q, b.name) && GatewaySettles(w.credentials, q, b.name) then
              && Quiet(w2, r2.world)
              && (r2.result.Success? ==>
                    && !r2.result.value.issued
                    && forall key :: key in SecretKeys(q) ==> Persisted(r2.result.value.vars, key) == Persisted(Persist(q, vars), key))
            else r2.result.Success? ==> r2.result.value.issued
  {
    hide Reuse, WellIssued, SecretKeys, KeepStorage, KeepGateway, StorageSettles, GatewaySettles, IsLive, Quiet;
    var vars := Reuse(w, b, q).result.value.vars;
    var q2 := Again(q, vars, now2);
    SecondRunKeeps(w, b, q, now2);
    SameSelection(q, vars, now2);
    var r2 := Reuse(w2, b2, q2);
    if KeepStorage(w2.credentials, q2) && KeepGateway(w2.credentials, q2) {
      KeepingIsQuiet(w2, b2, q2);
      if r2.result.Success? {
        forall key | key in SecretKeys(q) ensures Persisted(r2.result.value.vars, key) == Persisted(Persist(q, vars), key) {
          KeepingReturnsSame(w2, b2, q2, key);
        }
      }
    } else if r2.result.Success? {
      IssuedIffNew(w2, b2, q2);
    }
  }

  /** With both storage keys selected or neither, only a credential shared by both halves can unsettle a run. */
  lemma {:induction false} PairSettles(credentials: seq<Credential>, q: Request, branchName: string)
    requires WellIssued(credentials) && (Selected(q, AccessKeyId) <==> Selected(q, SecretAccessKey))
    requires var s, g := NamedStorage(credentials, q.source, q.now), NamedGateway(credentials, q.source, q.now);
             s.Some? && s == g && IsOurs(s.value, branchName) ==>
               (NewStorage(credentials, q) <==> NewGateway(credentials, q)) || !q.revokeSuperseded
    ensures StorageSettles(credentials, q, branchName) && GatewaySettles(credentials, q, branchName)
  {
    hide Find, CredentialName, Selected, DefaultOf, WellIssued, GatewayTokenIdShort, Ours;
    var s, g := NamedStorage(credentials, q.source, q.now), NamedGateway(credentials, q.source, q.now);
    if s.Some? && g.Some? && s.value.tokenId == g.value.tokenId { SameId(credentials, s.value, g.value); }
    if StorageSelected(q) && KeepStorage(credentials, q) { KeptStorageRevoked(credentials, q, branchName); }
    if GatewaySelected(q) && KeepGateway(credentials, q) { KeptGatewayRevoked(credentials, q, branchName); }
  }
}
