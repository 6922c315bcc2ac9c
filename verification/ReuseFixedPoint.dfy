/**
 * Running `fetchEnvReusingSecrets` again on what it returned: when a second run keeps every
 * secret, and when a kept secret's credential is revoked.
 */
module ReuseFixedPoint {
  import opened Wrappers
  import opened Text
  import opened Credentials
  import opened BranchEnv
  import opened ReuseSecrets
  import opened ReuseDiscipline

  // ---------------------------------------------------------------------------
  // What the service promises of the credentials it issues
  // ---------------------------------------------------------------------------

  ghost predicate WellFormed(c: Credential) {
    c.tokenId != "" && c.s3Secret != "" && GatewayTokenIdShort(c.apiToken) == Some(c.shortId)
  }

  /** Ids and short ids name one credential each, and its secrets name it back. */
  ghost predicate WellIssued(credentials: seq<Credential>) {
    && (forall i, j :: 0 <= i < j < |credentials| ==>
          credentials[i].tokenId != credentials[j].tokenId && credentials[i].shortId != credentials[j].shortId)
    && (forall c :: c in credentials ==> WellFormed(c))
  }

  lemma {:induction false} SegmentEndAt(s: string, i: nat, e: nat)
    requires i <= e < |s| && s[e] == '_' && forall k :: i <= k < e ==> s[k] != '_'
    ensures SegmentEnd(s, i) == e
    decreases e - i
  {
    if i < e { SegmentEndAt(s, i + 1, e); }
  }

  /** A token `nt_live_<short>_<secret>` names the credential `short`. */
  lemma {:induction false} TokenNames(short: string, secret: string)
    requires short != "" && '_' !in short && secret != "" && forall c :: c in secret ==> !IsLineTerminator(c)
    ensures GatewayTokenIdShort(TOKEN_PREFIX + short + "_" + secret) == Some(short)
  {
    var token := TOKEN_PREFIX + short + "_" + secret;
    var n, e := |TOKEN_PREFIX|, |TOKEN_PREFIX| + |short|;
    assert token[..n] == TOKEN_PREFIX && token[n..e] == short && token[e] == '_';
    forall k | n <= k < e ensures token[k] != '_' { assert token[k] == short[k - n]; }
    SegmentEndAt(token, n, e);
    forall k | e < k < |token| ensures !IsLineTerminator(token[k]) { assert token[k] == secret[k - e - 1]; }
  }

  lemma {:induction false} SameId(credentials: seq<Credential>, a: Credential, c: Credential)
    requires WellIssued(credentials) && a in credentials && c in credentials
    requires a.tokenId == c.tokenId || a.shortId == c.shortId
    ensures a == c
  {
  }

  // ---------------------------------------------------------------------------
  // Which credentials a run may revoke
  // ---------------------------------------------------------------------------

  /** No credential under the name of a platform default is ever revoked. */
  lemma {:induction false} DefaultsSurvive(credentials: seq<Credential>, q: Request, branchName: string, c: Credential)
    requires WellIssued(credentials) && c in credentials && !NotDefaultName(c.name)
    ensures c.tokenId !in Ours(credentials, q, branchName)
  {
    hide Ours, Supersedes;
    if c.tokenId in Ours(credentials, q, branchName) {
      var o := OursSupersede(credentials, q, branchName, c.tokenId);
      SupersedesFacts(credentials, q, branchName, o);
      SameId(credentials, o, c);
      assert false;
    }
  }

  lemma {:induction false} SupersedesFacts(credentials: seq<Credential>, q: Request, branchName: string, c: Credential)
    requires Supersedes(credentials, q, branchName, c)
    ensures c in credentials && NotDefaultName(c.name) && IsLive(c, q.now) && IsOurs(c, branchName)
  {
  }

  /**
   * The credential behind a kept storage half is revoked exactly when the gateway half was
   * replaced, named the same credential, and this tool minted it.
   */
  lemma {:induction false} KeptStorageRevoked(credentials: seq<Credential>, q: Request, branchName: string)
    requires StorageSelected(q) && KeepStorage(credentials, q)
    ensures var named := NamedStorage(credentials, q.source, q.now);
            && named.Some?
            && (named.value.tokenId in Ours(credentials, q, branchName) <==>
                  var other := NamedGateway(credentials, q.source, q.now);
                  GatewaySelected(q) && !KeepGateway(credentials, q) && other.Some?
                  && other.value.tokenId == named.value.tokenId && IsOurs(other.value, branchName))
  {
    hide CredentialName, Find, DefaultOf, Selected;
  }

  lemma {:induction false} KeptGatewayRevoked(credentials: seq<Credential>, q: Request, branchName: string)
    requires GatewaySelected(q) && KeepGateway(credentials, q)
    ensures var named := NamedGateway(credentials, q.source, q.now);
            && named.Some?
            && (named.value.tokenId in Ours(credentials, q, branchName) <==>
                  var other := NamedStorage(credentials, q.source, q.now);
                  StorageSelected(q) && !KeepStorage(credentials, q) && other.Some?
                  && other.value.tokenId == named.value.tokenId && IsOurs(other.value, branchName))
  {
    hide CredentialName, Find, DefaultOf, Selected;
  }

  // ---------------------------------------------------------------------------
  // What a run leaves behind
  // ---------------------------------------------------------------------------

  /** The credentials after a run: perhaps one minted, and those of `ids` revoked. */
  ghost predicate Evolved(before: seq<Credential>, minted: Option<Credential>, ids: seq<string>, after: seq<Credential>) {
    var all := before + (if minted.Some? then [minted.value] else []);
    && |after| == |all|
    && forall i :: 0 <= i < |all| ==> after[i] == if all[i].tokenId in ids then all[i].(revoked := true) else all[i]
  }

  /** The credential a newly resolved half comes from: the default, or the one minted for it. */
  ghost predicate Backs(c: Credential, credentials: seq<Credential>, default_: Option<Credential>, minted: Option<Credential>, scopes: set<Scope>) {
    match default_
    case Some(d) => c in credentials && c.tokenId == d.tokenId
    case None => minted == Some(c) && scopes <= c.scopes
  }

  ghost predicate IsMint(minted: Option<Credential>, w: World, branchName: string) {
    minted.Some? ==> w.supply != [] && exists scopes :: minted.value == Issued(w.supply[0], scopes, CredentialName(branchName))
  }

  lemma {:induction false} ScopesMeanHalves(credentials: seq<Credential>, q: Request)
    ensures var scopes := SecretScopes(q.policy, FetchOptions(q, KeptKeys(credentials, q)));
            && (StorageRead in scopes || StorageWrite in scopes <==> NewStorage(credentials, q))
            && (GatewayInvoke in scopes <==> NewGateway(credentials, q))
            && (NewStorage(credentials, q) && DefaultOf(credentials, STORAGE_DEFAULT, q.now).None? ==>
                  STORAGE_SCOPES <= MintScopes(credentials, scopes, q.now))
            && (NewGateway(credentials, q) && DefaultOf(credentials, GATEWAY_DEFAULT, q.now).None? ==>
                  GATEWAY_SCOPES <= MintScopes(credentials, scopes, q.now))
  {
    hide FetchOptions, KeptKeys, KeepStorage, KeepGateway, Selected, DefaultOf, WantsStorageCredential, WantsGatewayCredential;
    FetchWants(credentials, q);
  }

  lemma {:induction false} SecretEntries(b: Branch, p: Policy, o: Options, r: Reading, secrets: Secrets)
    requires Complete(p, o, r) && WantsCredential(p, o)
    ensures Entries(b, p, o, r, Some(secrets)).Success?
    ensures var vars := Entries(b, p, o, r, Some(secrets)).value;
            && (WantsStorageCredential(p, o) && Wants(o, AccessKeyId) ==> AccessKeyId in vars && vars[AccessKeyId] == secrets.accessKeyId)
            && (WantsStorageCredential(p, o) && Wants(o, SecretAccessKey) ==> SecretAccessKey in vars && vars[SecretAccessKey] == secrets.secretAccessKey)
            && (WantsGatewayCredential(p, o) ==> GatewayToken in vars && vars[GatewayToken] == secrets.apiToken)
            && (AccessKeyId in vars ==> Wants(o, AccessKeyId)) && (SecretAccessKey in vars ==> Wants(o, SecretAccessKey))
            && (GatewayToken in vars ==> Wants(o, GatewayToken))
  {
    hide ToEntries, PolicyKeys, GatewayUrl;
    var env := Assemble(b, p, o, r, Some(secrets)).value;
    EntriesHave(env, AccessKeyId);
    EntriesHave(env, SecretAccessKey);
    EntriesHave(env, GatewayToken);
  }

  /** A successful fetch: what it minted, and the credentials its secrets come from. */
  lemma {:induction false} FetchLeaves(w: World, b: Branch, q: Request)
    returns (minted: Option<Credential>, forStorage: Credential, forGateway: Credential)
    requires Fetch(w, b, q.policy, FetchOptions(q, KeptKeys(w.credentials, q)), q.now).result.Success?
    ensures var r := Fetch(w, b, q.policy, FetchOptions(q, KeptKeys(w.credentials, q)), q.now);
            && Evolved(w.credentials, minted, [], r.world.credentials) && IsMint(minted, w, b.name)
            && (NewStorage(w.credentials, q) ==>
                  && Backs(forStorage, w.credentials, DefaultOf(w.credentials, STORAGE_DEFAULT, q.now), minted, STORAGE_SCOPES)
                  && (Selected(q, AccessKeyId) ==> Persisted(r.result.value, AccessKeyId) == forStorage.tokenId)
                  && (Selected(q, SecretAccessKey) ==> Persisted(r.result.value, SecretAccessKey) == forStorage.s3Secret))
            && (NewGateway(w.credentials, q) ==>
                  && Backs(forGateway, w.credentials, DefaultOf(w.credentials, GATEWAY_DEFAULT, q.now), minted, GATEWAY_SCOPES)
                  && Persisted(r.result.value, GatewayToken) == forGateway.apiToken)
  {
    hide Fetch, Resolve, FetchOptions, KeptKeys, KeepStorage, KeepGateway, Selected, DefaultOf, SecretScopes, MintScopes,
      Entries, DefaultReveals, CredentialName, NewStorage, NewGateway, Wants, ReadBranch, Complete, IsMint;
    var o := FetchOptions(q, KeptKeys(w.credentials, q));
    var w1 := FetchShape(w, b, q.policy, o, q.now);
    FetchWants(w.credentials, q);
    ScopesMeanHalves(w.credentials, q);
    minted := None;
    if WantsCredential(q.policy, o) {
      var scopes := SecretScopes(q.policy, o);
      var calls := ResolveDisciplined(w1, scopes, b.name, q.now);
      forStorage, forGateway := ResolvedSecrets(w1, scopes, b.name, q.now);
      var resolved := Resolve(w1, scopes, b.name, q.now);
      SecretEntries(b, q.policy, o, ReadBranch(w, b, q.policy, o).result.value, resolved.result.value);
      if resolved.world.credentials != w.credentials {
        minted := Some(Issued(w.supply[0], MintScopes(w.credentials, scopes, q.now), CredentialName(b.name)));
        IsMintIntro(minted.value, w, MintScopes(w.credentials, scopes, q.now), b.name);
      }
      LastOfAppend(w.credentials, resolved.world.credentials);
      StorageBacked(q.policy, o, w.credentials, q);
    } else {
      forStorage, forGateway := Anybody(), Anybody();
    }
    IsMintNone(w, b.name);
  }

  function Anybody(): Credential { Credential("", "", None, "", {}, false, Never, "", "") }

  lemma {:induction false} IsMintIntro(c: Credential, w: World, scopes: set<Scope>, branchName: string)
    requires w.supply != [] && c == Issued(w.supply[0], scopes, CredentialName(branchName))
    ensures IsMint(Some(c), w, branchName)
  {
  }

  lemma {:induction false} IsMintNone(w: World, branchName: string)
    ensures IsMint(None, w, branchName)
  {
  }

  lemma {:induction false} LastOfAppend(a: seq<Credential>, after: seq<Credential>)
    ensures forall x, y :: after == a + [x] && after == a + [y] ==> x == y
    ensures forall x :: after == a + [x] ==> after != a
  {
    forall x, y | after == a + [x] && after == a + [y] ensures x == y {
      assert after[|a|] == x && after[|a|] == y;
    }
    forall x | after == a + [x] ensures after != a { assert |after| == |a| + 1; }
  }

  lemma {:induction false} StorageBacked(p: Policy, o: Options, credentials: seq<Credential>, q: Request)
    ensures NewStorage(credentials, q) ==> StorageSelected(q)
    ensures NewGateway(credentials, q) ==> Selected(q, GatewayToken)
  {
    hide KeepStorage, KeepGateway, Selected;
  }

  // ---------------------------------------------------------------------------
  // A whole run
  // ---------------------------------------------------------------------------

  /** What a run revokes. */
  function RevokedIds(credentials: seq<Credential>, q: Request, branchName: string): seq<string> {
    if q.revokeSuperseded && IssuesAnew(credentials, q) then Ours(credentials, q, branchName) else []
  }

  lemma {:induction false} RevokeAllEffect(w: World, ids: seq<string>)
    requires RevokeAll(w, ids).result.Success?
    ensures var after := RevokeAll(w, ids).world.credentials;
            && |after| == |w.credentials|
            && forall i :: 0 <= i < |after| ==>
                 after[i] == if w.credentials[i].tokenId in ids then w.credentials[i].(revoked := true) else w.credentials[i]
    decreases |ids|
  {
    if ids != [] {
      RevokeAllEffect(RevokeOf(w, ids[0]).world, ids[1..]);
    }
  }

  lemma {:induction false} EvolvedRevoked(before: seq<Credential>, minted: Option<Credential>, w: World, ids: seq<string>)
    requires Evolved(before, minted, [], w.credentials) && RevokeAll(w, ids).result.Success?
    ensures Evolved(before, minted, ids, RevokeAll(w, ids).world.credentials)
  {
    hide RevokeAll;
    RevokeAllEffect(w, ids);
  }

  /** A successful run, in terms of its fetch. */
  lemma {:induction false} RunShape(w: World, b: Branch, q: Request) returns (w0: World)
    requires SecretKeys(q) != {} && Reuse(w, b, q).result.Success?
    ensures w0.credentials == w.credentials && w0.supply == w.supply
    ensures var kept := KeptKeys(w.credentials, q);
            var fetched := Fetch(w0, b, q.policy, FetchOptions(q, kept), q.now);
            var ids := RevokedIds(w.credentials, q, b.name);
            var r := Reuse(w, b, q);
            && fetched.result.Success?
            && r.result.value.vars == WithKept(PreferPersisted(fetched.result.value, q.source), q.source, kept)
            && r.result.value.issued == IssuesAnew(w.credentials, q)
            && RevokeAll(fetched.world, ids).result.Success? && r.world == RevokeAll(fetched.world, ids).world
  {
    hide Fetch, FetchOptions, Ours, KeptKeys, SecretKeys, IssuesAnew, WithKept, PreferPersisted;
    w0 := Listing(w, q).world;
    ReuseDecides(w, b, q);
    ListedOrNot(w, b, q);
  }

  /** The env after the caller persisted what a run returned. */
  function Persist(q: Request, vars: map<EnvKey, string>): map<EnvKey, string> { q.source + vars }

  lemma {:induction false} FoundAreSelected(w: World, b: Branch, q: Request, kept: set<EnvKey>, key: EnvKey)
    requires kept == KeptKeys(w.credentials, q) && Fetch(w, b, q.policy, FetchOptions(q, kept), q.now).result.Success?
    requires key in Fetch(w, b, q.policy, FetchOptions(q, kept), q.now).result.value
    ensures key !in kept && (q.selection.Some? ==> Selected(q, key))
  {
    hide Fetch, PolicyKeys, KeptKeys, Selected;
    PlanAgrees(w, b, q.policy, FetchOptions(q, kept), q.now);
  }

  /** A secret after a run: the fetched one where its half was resolved anew, else the persisted one. */
  lemma {:induction false} PersistedAfter(q: Request, found: map<EnvKey, string>, kept: set<EnvKey>, key: EnvKey)
    requires key in found ==> key !in kept
    ensures Persisted(Persist(q, WithKept(PreferPersisted(found, q.source), q.source, kept)), key)
            == if Persisted(found, key) != "" then Persisted(found, key) else Persisted(q.source, key)
  {
    var preferred := PreferPersisted(found, q.source);
    var vars := WithKept(preferred, q.source, kept);
    assert key in vars <==> key in preferred || (key in kept && key in q.source);
  }

  /** Nothing but the secrets of new halves is found under the keys of the halves. */
  lemma {:induction false} NotFoundUnless(w: World, b: Branch, q: Request, kept: set<EnvKey>)
    requires kept == KeptKeys(w.credentials, q) && Fetch(w, b, q.policy, FetchOptions(q, kept), q.now).result.Success?
    ensures var found := Fetch(w, b, q.policy, FetchOptions(q, kept), q.now).result.value;
            && (StorageSelected(q) && AccessKeyId in found ==> NewStorage(w.credentials, q) && Selected(q, AccessKeyId))
            && (StorageSelected(q) && SecretAccessKey in found ==> NewStorage(w.credentials, q) && Selected(q, SecretAccessKey))
            && (GatewaySelected(q) && GatewayToken in found ==> NewGateway(w.credentials, q))
            && (forall key :: key in found ==> key !in kept)
  {
    hide Fetch, PolicyKeys, FetchOptions, KeepStorage, KeepGateway;
    SelectedSecrets(q);
    var found := Fetch(w, b, q.policy, FetchOptions(q, kept), q.now).result.value;
    forall key | key in found ensures key !in kept && (q.selection.Some? ==> Selected(q, key)) {
      FoundAreSelected(w, b, q, kept, key);
    }
  }

  /** What a half persists after a run, in terms of the credential behind a new half. */
  ghost predicate StorageAfter(credentials: seq<Credential>, q: Request, source2: map<EnvKey, string>, c: Credential) {
    StorageSelected(q) ==>
      && Persisted(source2, AccessKeyId)
         == (if NewStorage(credentials, q) && Selected(q, AccessKeyId) then c.tokenId else Persisted(q.source, AccessKeyId))
      && Persisted(source2, SecretAccessKey)
         == (if NewStorage(credentials, q) && Selected(q, SecretAccessKey) then c.s3Secret else Persisted(q.source, SecretAccessKey))
  }

  ghost predicate GatewayAfter(credentials: seq<Credential>, q: Request, source2: map<EnvKey, string>, c: Credential) {
    GatewaySelected(q) ==>
      Persisted(source2, GatewayToken) == if NewGateway(credentials, q) then c.apiToken else Persisted(q.source, GatewayToken)
  }

  /** A successful run: how the credentials changed, and what the caller now holds. */
  lemma {:induction false} RunLeaves(w: World, b: Branch, q: Request)
    returns (minted: Option<Credential>, s: Credential, g: Credential)
    requires SecretKeys(q) != {} && Reuse(w, b, q).result.Success?
    requires WellIssued(Reuse(w, b, q).world.credentials)
    ensures var r := Reuse(w, b, q);
            var source2 := Persist(q, r.result.value.vars);
            && Evolved(w.credentials, minted, RevokedIds(w.credentials, q, b.name), r.world.credentials) && IsMint(minted, w, b.name)
            && (NewStorage(w.credentials, q) ==>
                  Backs(s, w.credentials, DefaultOf(w.credentials, STORAGE_DEFAULT, q.now), minted, STORAGE_SCOPES))
            && (NewGateway(w.credentials, q) ==>
                  Backs(g, w.credentials, DefaultOf(w.credentials, GATEWAY_DEFAULT, q.now), minted, GATEWAY_SCOPES))
            && StorageAfter(w.credentials, q, source2, s) && GatewayAfter(w.credentials, q, source2, g)
  {
    hide Fetch, FetchOptions, KeptKeys, SecretKeys, WithKept, PreferPersisted, Reuse, Persist, KeepStorage, KeepGateway, Ours,
      DefaultOf, Selected, IsMint, NewStorage, NewGateway, StorageSelected, GatewaySelected, WellIssued, Evolved, RevokeAll, RevokedIds;
    var w0 := RunShape(w, b, q);
    var kept := KeptKeys(w.credentials, q);
    var ids := RevokedIds(w.credentials, q, b.name);
    var fetched := Fetch(w0, b, q.policy, FetchOptions(q, kept), q.now);
    minted, s, g := FetchLeaves(w0, b, q);
    SameMint(minted, w0, w, b.name);
    EvolvedRevoked(w.credentials, minted, fetched.world, ids);
    NotFoundUnless(w0, b, q, kept);
    var found := fetched.result.value;
    PersistedAfter(q, found, kept, AccessKeyId);
    PersistedAfter(q, found, kept, SecretAccessKey);
    PersistedAfter(q, found, kept, GatewayToken);
    if NewStorage(w.credentials, q) {
      BackerIsWellFormed(w.credentials, minted, ids, Reuse(w, b, q).world.credentials, s,
                         DefaultOf(w.credentials, STORAGE_DEFAULT, q.now), STORAGE_SCOPES);
    }
    if NewGateway(w.credentials, q) {
      BackerIsWellFormed(w.credentials, minted, ids, Reuse(w, b, q).world.credentials, g,
                         DefaultOf(w.credentials, GATEWAY_DEFAULT, q.now), GATEWAY_SCOPES);
    }
  }

  lemma {:induction false} SameMint(minted: Option<Credential>, w0: World, w: World, branchName: string)
    requires IsMint(minted, w0, branchName) && w0.supply == w.supply
    ensures IsMint(minted, w, branchName)
  {
  }

  /** The credential behind a new half is one of those the service holds after the run. */
  lemma {:induction false} BackerIsWellFormed(before: seq<Credential>, minted: Option<Credential>, ids: seq<string>, after: seq<Credential>,
                                              c: Credential, default_: Option<Credential>, scopes: set<Scope>)
    requires Evolved(before, minted, ids, after) && WellIssued(after) && Backs(c, before, default_, minted, scopes)
    ensures c.tokenId != "" && c.s3Secret != "" && c.apiToken != "" && WellFormed(c)
  {
    var i := if default_.Some? then IndexOf(before, c) else |before|;
    assert after[i] in after;
  }

  function IndexOf(s: seq<Credential>, c: Credential): (i: nat)
    requires c in s
    ensures i < |s| && s[i] == c
  {
    if s[0] == c then 0 else 1 + IndexOf(s[1..], c)
  }
}
