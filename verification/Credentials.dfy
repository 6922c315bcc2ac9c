/**
 * The branch credentials of internals/env-core/src/env.ts: the credentials endpoints as steps on
 * a world, and `resolveBranchCredentialSecrets`.
 */
module Credentials {
  import opened Wrappers

  datatype Scope = StorageRead | StorageWrite | GatewayInvoke | FunctionsInvoke

  datatype Expiry = Never | Unreadable | At(time: int)

  /** A credential as the service holds it; the list reports all of it but the two secrets. */
  datatype Credential = Credential(
    tokenId: string,
    shortId: string,
    name: Option<string>,
    principal: string,
    scopes: set<Scope>,
    revoked: bool,
    expiry: Expiry,
    s3Secret: string,
    apiToken: string)

  /** What the service will issue next. */
  datatype Issue = Issue(tokenId: string, shortId: string, s3Secret: string, apiToken: string)

  datatype Resource = Roles | Databases | ConnectionUri(pooled: bool) | NeonAuth | DataApi | Realtime | Storage | Endpoints

  datatype Call =
    | Read(resource: Resource)
    | ListCredentials
    | Reveal(tokenId: string)
    | Create(scopes: set<Scope>, name: string)
    | Revoke(tokenId: string)

  /** The service, what it will issue, which of its calls fail (by number), and the calls so far. */
  datatype World = World(credentials: seq<Credential>, supply: seq<Issue>, outage: set<nat>, trace: seq<Call>)

  datatype Failure =
    | Unavailable(call: Call)
    | NotFound(resource: Resource)
    | Ambiguous(resource: Resource)
    | BadHost
    | Missing(resource: Resource)

  datatype Reply<T> = Reply(world: World, result: Result<T, Failure>)

  // ---------------------------------------------------------------------------
  // Calls
  // ---------------------------------------------------------------------------

  function Called(w: World, call: Call): World { w.(trace := w.trace + [call]) }

  predicate Down(w: World) { |w.trace| in w.outage }

  function List(w: World): Reply<seq<Credential>> {
    Reply(Called(w, ListCredentials), if Down(w) then Failure(Unavailable(ListCredentials)) else Success(w.credentials))
  }

  function Find<T>(s: seq<T>, p: T -> bool): (r: Option<T>)
    ensures r.Some? ==> r.value in s && p(r.value)
    ensures r.None? ==> forall x :: x in s ==> !p(x)
  {
    if s == [] then None else if p(s[0]) then Some(s[0]) else Find(s[1..], p)
  }

  function RevealOf(w: World, tokenId: string): Reply<Credential> {
    var call := Reveal(tokenId);
    Reply(Called(w, call),
          if Down(w) then Failure(Unavailable(call))
          else
            match Find(w.credentials, (c: Credential) => c.tokenId == tokenId)
            case None => Failure(Unavailable(call))
            case Some(c) => Success(c))
  }

  function Issued(issue: Issue, scopes: set<Scope>, name: string): Credential {
    Credential(issue.tokenId, issue.shortId, Some(name), "user", scopes, false, Never, issue.s3Secret, issue.apiToken)
  }

  function CreateOf(w: World, scopes: set<Scope>, name: string): Reply<Credential> {
    var call := Create(scopes, name);
    if Down(w) || w.supply == [] then Reply(Called(w, call), Failure(Unavailable(call)))
    else
      var c := Issued(w.supply[0], scopes, name);
      Reply(Called(w, call).(credentials := w.credentials + [c], supply := w.supply[1..]), Success(c))
  }

  function Revoked(credentials: seq<Credential>, tokenId: string): (r: seq<Credential>)
    ensures |r| == |credentials|
    ensures forall i :: 0 <= i < |r| ==>
              r[i] == if credentials[i].tokenId == tokenId then credentials[i].(revoked := true) else credentials[i]
  {
    seq(|credentials|, i requires 0 <= i < |credentials| =>
      if credentials[i].tokenId == tokenId then credentials[i].(revoked := true) else credentials[i])
  }

  function RevokeOf(w: World, tokenId: string): Reply<bool> {
    var call := Revoke(tokenId);
    if Down(w) then Reply(Called(w, call), Failure(Unavailable(call)))
    else Reply(Called(w, call).(credentials := Revoked(w.credentials, tokenId)), Success(true))
  }

  // ---------------------------------------------------------------------------
  // Which credentials back what
  // ---------------------------------------------------------------------------

  const STORAGE_DEFAULT := "Default object storage credential"
  const GATEWAY_DEFAULT := "Default AI gateway credential"

  /** The name this tool stamps on what it mints. */
  function CredentialName(branchName: string): string { "neon-env " + branchName }

  predicate IsLive(c: Credential, now: int) {
    !c.revoked && match c.expiry case Never => true case Unreadable => true case At(time) => time > now
  }

  predicate IsDefault(c: Credential, name: string, now: int) { c.name == Some(name) && IsLive(c, now) }

  function DefaultTest(name: string, now: int): Credential -> bool { (c: Credential) => IsDefault(c, name, now) }

  function DefaultOf(credentials: seq<Credential>, name: string, now: int): Option<Credential> {
    Find(credentials, DefaultTest(name, now))
  }

  const STORAGE_SCOPES: set<Scope> := {StorageRead, StorageWrite}
  const GATEWAY_SCOPES: set<Scope> := {GatewayInvoke}

  function DeriveScopes(storage: bool, aiGateway: bool, functions: bool): set<Scope> {
    (if storage then STORAGE_SCOPES else {}) + (if aiGateway then GATEWAY_SCOPES else {})
    + (if functions then {FunctionsInvoke} else {})
  }

  // ---------------------------------------------------------------------------
  // Resolving secrets
  // ---------------------------------------------------------------------------

  datatype Secrets = Secrets(accessKeyId: string, secretAccessKey: string, apiToken: string)

  /** A read that is started only when wanted; its failure is seen when it is awaited. */
  datatype Started<T> = Started(world: World, outcome: Option<Result<T, Failure>>)

  function StartReveal(w: World, wanted: bool, credential: Option<Credential>): Started<Credential> {
    if wanted && credential.Some? then
      var r := RevealOf(w, credential.value.tokenId);
      Started(r.world, Some(r.result))
    else Started(w, None)
  }

  predicate Rejected<T>(outcome: Option<Result<T, Failure>>) { outcome.Some? && outcome.value.Failure? }

  /** The secrets the reveals gave; empty where there was none. */
  function Disclosed(storage: Option<Result<Credential, Failure>>, gateway: Option<Result<Credential, Failure>>): Secrets
    requires !Rejected(storage) && !Rejected(gateway)
  {
    Secrets(
      if storage.Some? then storage.value.value.tokenId else "",
      if storage.Some? then storage.value.value.s3Secret else "",
      if gateway.Some? then gateway.value.value.apiToken else "")
  }

  /** The halves of `scopes` with no live default are minted, as one credential. */
  function Mint(w: World, storage: bool, aiGateway: bool, functions: bool, branchName: string, so: Secrets): Reply<Secrets> {
    if !storage && !aiGateway then Reply(w, Success(so))
    else
      var minted := CreateOf(w, DeriveScopes(storage, aiGateway, functions), CredentialName(branchName));
      match minted.result
      case Failure(error) => Reply(minted.world, Failure(error))
      case Success(c) =>
        Reply(minted.world, Success(Secrets(
          if storage then c.tokenId else so.accessKeyId,
          if storage then c.s3Secret else so.secretAccessKey,
          if aiGateway then c.apiToken else so.apiToken)))
  }

  /** The defaults are revealed; whatever half has no default is minted. */
  function Resolve(w: World, scopes: set<Scope>, branchName: string, now: int): Reply<Secrets> {
    var storage := StorageRead in scopes || StorageWrite in scopes;
    var gateway := GatewayInvoke in scopes;
    var listing := List(w);
    if listing.result.Failure? then Reply(listing.world, Failure(listing.result.error))
    else
      var storageDefault := DefaultOf(listing.result.value, STORAGE_DEFAULT, now);
      var gatewayDefault := DefaultOf(listing.result.value, GATEWAY_DEFAULT, now);
      var forStorage := StartReveal(listing.world, storage, storageDefault);
      var forGateway := StartReveal(forStorage.world, gateway, gatewayDefault);
      if Rejected(forStorage.outcome) then Reply(forGateway.world, Failure(forStorage.outcome.value.error))
      else if Rejected(forGateway.outcome) then Reply(forGateway.world, Failure(forGateway.outcome.value.error))
      else
        Mint(forGateway.world, storage && storageDefault.None?, gateway && gatewayDefault.None?,
             FunctionsInvoke in scopes, branchName, Disclosed(forStorage.outcome, forGateway.outcome))
  }

  // ---------------------------------------------------------------------------
  // What resolving does
  // ---------------------------------------------------------------------------

  predicate IsIssuing(call: Call) { call.Reveal? || call.Create? || call.Revoke? }

  function Creates(trace: seq<Call>): nat {
    if trace == [] then 0 else (if trace[0].Create? then 1 else 0) + Creates(trace[1..])
  }

  ghost predicate Follows(w: World, w2: World, calls: seq<Call>) { w2.trace == w.trace + calls && w2.outage == w.outage }

  function RevealCalls(wanted: bool, credential: Option<Credential>): seq<Call> {
    if wanted && credential.Some? then [Reveal(credential.value.tokenId)] else []
  }

  lemma {:induction false} StartRevealFacts(w: World, wanted: bool, credential: Option<Credential>)
    ensures var r := StartReveal(w, wanted, credential);
            Follows(w, r.world, RevealCalls(wanted, credential)) && r.world.credentials == w.credentials && r.world.supply == w.supply
  {
    hide Find;
  }

  lemma {:induction false} MintFacts(w: World, storage: bool, aiGateway: bool, functions: bool, branchName: string, so: Secrets)
    ensures var r := Mint(w, storage, aiGateway, functions, branchName, so);
            if storage || aiGateway then
              var scopes := DeriveScopes(storage, aiGateway, functions);
              && Follows(w, r.world, [Create(scopes, CredentialName(branchName))])
              && (r.result.Failure? ==> r.world.credentials == w.credentials)
              && (r.result.Success? ==>
                    w.supply != [] && r.world.credentials == w.credentials + [Issued(w.supply[0], scopes, CredentialName(branchName))])
            else r == Reply(w, Success(so))
  {
    hide DeriveScopes, CredentialName;
  }

  /** What a minted credential is for: the halves asked for that have no live default. */
  function MintScopes(credentials: seq<Credential>, scopes: set<Scope>, now: int): set<Scope> {
    DeriveScopes(
      (StorageRead in scopes || StorageWrite in scopes) && DefaultOf(credentials, STORAGE_DEFAULT, now).None?,
      GatewayInvoke in scopes && DefaultOf(credentials, GATEWAY_DEFAULT, now).None?,
      FunctionsInvoke in scopes)
  }

  /** The defaults of the halves asked for, as the calls that reveal them. */
  function DefaultReveals(credentials: seq<Credential>, scopes: set<Scope>, now: int): seq<Call> {
    RevealCalls(StorageRead in scopes || StorageWrite in scopes, DefaultOf(credentials, STORAGE_DEFAULT, now))
    + RevealCalls(GatewayInvoke in scopes, DefaultOf(credentials, GATEWAY_DEFAULT, now))
  }

  /**
   * Resolving lists, reveals the live defaults of the halves asked for, and mints at most one
   * credential, which covers exactly the halves that have none. It never revokes.
   */
  lemma {:induction false} ResolveDisciplined(w: World, scopes: set<Scope>, branchName: string, now: int) returns (calls: seq<Call>)
    ensures var r := Resolve(w, scopes, branchName, now);
            && Follows(w, r.world, calls)
            && (calls == [ListCredentials] || calls == [ListCredentials] + DefaultReveals(w.credentials, scopes, now)
                || calls == [ListCredentials] + DefaultReveals(w.credentials, scopes, now)
                            + [Create(MintScopes(w.credentials, scopes, now), CredentialName(branchName))])
            && (r.result.Success? && MintScopes(w.credentials, scopes, now) !! (STORAGE_SCOPES + GATEWAY_SCOPES) ==>
                  calls == [ListCredentials] + DefaultReveals(w.credentials, scopes, now))
            && (r.world.credentials == w.credentials
                || (r.result.Success? && w.supply != [] && r.world.credentials ==
                      w.credentials + [Issued(w.supply[0], MintScopes(w.credentials, scopes, now), CredentialName(branchName))]))
  {
    hide DefaultOf, CredentialName, StartReveal, Mint;
    var storage := StorageRead in scopes || StorageWrite in scopes;
    var gateway := GatewayInvoke in scopes;
    var w1 := Called(w, ListCredentials);
    if Down(w) {
      calls := [ListCredentials];
    } else {
      var storageDefault := DefaultOf(w.credentials, STORAGE_DEFAULT, now);
      var gatewayDefault := DefaultOf(w.credentials, GATEWAY_DEFAULT, now);
      var forStorage := StartReveal(w1, storage, storageDefault);
      StartRevealFacts(w1, storage, storageDefault);
      var forGateway := StartReveal(forStorage.world, gateway, gatewayDefault);
      StartRevealFacts(forStorage.world, gateway, gatewayDefault);
      calls := [ListCredentials] + DefaultReveals(w.credentials, scopes, now);
      assert forGateway.world.trace == w.trace + calls;
      if !Rejected(forStorage.outcome) && !Rejected(forGateway.outcome) {
        var a, b := storage && storageDefault.None?, gateway && gatewayDefault.None?;
        MintFacts(forGateway.world, a, b, FunctionsInvoke in scopes, branchName, Disclosed(forStorage.outcome, forGateway.outcome));
        if a || b { calls := calls + [Create(MintScopes(w.credentials, scopes, now), CredentialName(branchName))]; }
      }
    }
  }

  /** The secrets of a half are those of one credential `c`. */
  predicate StorageSecretsOf(secrets: Secrets, c: Credential) {
    secrets.accessKeyId == c.tokenId && secrets.secretAccessKey == c.s3Secret
  }

  lemma {:induction false} RevealedFacts(w: World, wanted: bool, credential: Option<Credential>)
    ensures var r := StartReveal(w, wanted, credential);
            if wanted && credential.Some? then
              && r.outcome.Some?
              && (r.outcome.value.Success? ==>
                    r.outcome.value.value in w.credentials && r.outcome.value.value.tokenId == credential.value.tokenId)
            else r.outcome.None?
  {
  }

  /** The secrets resolved: the default's where there is one, the minted credential's elsewhere. */
  lemma {:induction false} ResolvedSecrets(w: World, scopes: set<Scope>, branchName: string, now: int)
    returns (forStorage: Credential, forGateway: Credential)
    requires Resolve(w, scopes, branchName, now).result.Success?
    ensures var r := Resolve(w, scopes, branchName, now);
            var minted := MintScopes(w.credentials, scopes, now);
            && (StorageRead in scopes || StorageWrite in scopes ==>
                  && StorageSecretsOf(r.result.value, forStorage)
                  && (match DefaultOf(w.credentials, STORAGE_DEFAULT, now)
                      case Some(d) => forStorage in w.credentials && forStorage.tokenId == d.tokenId
                      case None => w.supply != [] && forStorage == Issued(w.supply[0], minted, CredentialName(branchName))
                                   && r.world.credentials == w.credentials + [forStorage]))
            && (GatewayInvoke in scopes ==>
                  && r.result.value.apiToken == forGateway.apiToken
                  && (match DefaultOf(w.credentials, GATEWAY_DEFAULT, now)
                      case Some(d) => forGateway in w.credentials && forGateway.tokenId == d.tokenId
                      case None => w.supply != [] && forGateway == Issued(w.supply[0], minted, CredentialName(branchName))
                                   && r.world.credentials == w.credentials + [forGateway]))
  {
    hide DefaultOf, CredentialName, StartReveal, DeriveScopes;
    var storage := StorageRead in scopes || StorageWrite in scopes;
    var gateway := GatewayInvoke in scopes;
    var w1 := Called(w, ListCredentials);
    var storageDefault := DefaultOf(w.credentials, STORAGE_DEFAULT, now);
    var gatewayDefault := DefaultOf(w.credentials, GATEWAY_DEFAULT, now);
    var s := StartReveal(w1, storage, storageDefault);
    StartRevealFacts(w1, storage, storageDefault);
    RevealedFacts(w1, storage, storageDefault);
    var g := StartReveal(s.world, gateway, gatewayDefault);
    StartRevealFacts(s.world, gateway, gatewayDefault);
    RevealedFacts(s.world, gateway, gatewayDefault);
    var a, b := storage && storageDefault.None?, gateway && gatewayDefault.None?;
    MintFacts(g.world, a, b, FunctionsInvoke in scopes, branchName, Disclosed(s.outcome, g.outcome));
    if a || b {
      var m := Issued(g.world.supply[0], MintScopes(w.credentials, scopes, now), CredentialName(branchName));
      forStorage := if a then m else if storage then s.outcome.value.value else m;
      forGateway := if b then m else if gateway then g.outcome.value.value else m;
    } else {
      forStorage := if storage then s.outcome.value.value else Issued(Issue("", "", "", ""), {}, "");
      forGateway := if gateway then g.outcome.value.value else Issued(Issue("", "", "", ""), {}, "");
    }
  }
}
