/** The authorizer in place: one hot-swappable ruleset, and the answer to a connection attempt. */
module Callout {
  import opened Wrappers
  import opened Regex
  import opened RegexSyntax
  import opened Identity
  import opened Policy
  import opened Verifier

  /** Seconds since the epoch, as a JWT carries them. */
  function Unix(t: int): (seconds: int)
    ensures seconds * 1_000_000_000 <= t < (seconds + 1) * 1_000_000_000
  {
    t / 1_000_000_000
  }

  /** The earlier of the token's own expiry and the policy's cap, when it sets one. */
  function CappedExpiry(tokenExpiry: int, maxExpiry: int, now: int): (exp: int)
    ensures exp <= tokenExpiry && (maxExpiry > 0 ==> exp <= now + maxExpiry)
    ensures exp == tokenExpiry || (maxExpiry > 0 && exp == now + maxExpiry)
  {
    if maxExpiry > 0 && now + maxExpiry < tokenExpiry then now + maxExpiry else tokenExpiry
  }

  /** The claims of an issued user JWT; `audience` is the NATS account, `expires` in seconds. */
  datatype UserClaims = UserClaims(subject: string, name: string, audience: string, limits: Limits, expires: int)

  function UserClaimsFor(nkey: string, id: Identity, d: Decision, now: int): UserClaims {
    UserClaims(nkey, id.subject, d.account, d.limits, Unix(CappedExpiry(id.expiry, d.maxExpiry, now)))
  }

  datatype Denied = AuthorizationDenied

  /** Verifier and policy are replaced together. */
  datatype Ruleset = Ruleset(verifier: Verifier, policy: Policy)

  datatype Settings = Settings(issuers: seq<IssuerOption>, audiences: seq<string>, signingAlgs: seq<string>,
                               rules: seq<Rule>)

  /** A configuration in service: as decoded, and the verifier and compiled rules built from it. */
  datatype Loaded = Loaded(settings: Settings, verifier: Verifier, rules: seq<Rule>)

  // ----- building what is put in service -----

  /** A reload up to the swap: `decoded` is what reading, decoding and checking the other fields brought
      (None: it failed); None is any failure. */
  function Build(decoded: Option<Settings>, e: Engine, discovers: string -> bool): Option<Loaded> {
    if decoded.None? || !AllAcceptable(decoded.value.rules, e) then None
    else
      var c := decoded.value;
      match Built(c.issuers, c.audiences, c.signingAlgs, discovers)
      case Err(_) => None
      case Ok(v) => Some(Loaded(c, v, CompiledAll(c.rules, e)))
  }

  /** What a configuration must meet to be put in service. */
  ghost predicate LoadsAndBuilds(c: Settings, e: Engine, discovers: string -> bool) {
    && AllAcceptable(c.rules, e)
    && c.issuers != [] && c.audiences != [] && c.signingAlgs != []
    && DistinctUrls(c.issuers) && Discovered(c.issuers, discovers)
  }

  /** The tables and the rules in service say what one and the same configuration says. */
  ghost predicate InService(e: Engine, l: Loaded) {
    && BuiltFrom(l.verifier, l.settings.issuers, l.settings.audiences)
    && CompiledFrom(l.rules, l.settings.rules, e)
  }

  lemma BuildMeans(decoded: Option<Settings>, e: Engine, discovers: string -> bool)
    ensures Build(decoded, e, discovers).Some? <==> decoded.Some? && LoadsAndBuilds(decoded.value, e, discovers)
    ensures Build(decoded, e, discovers).Some? ==>
              && InService(e, Build(decoded, e, discovers).value)
              && Build(decoded, e, discovers).value.settings == decoded.value
  {
    if decoded.Some? {
      BuiltMeans(decoded.value.issuers, decoded.value.audiences, decoded.value.signingAlgs, discovers);
    }
  }

  // ----- answering a connection attempt -----

  /** Why a connection is refused; the client is only told that it is. */
  datatype Why = NoToken | NotVerified(error: VerifyError) | NoRule | NotSigned

  /** What one request meets on its way: the library's verification, the map orders, the CEL results,
      the clock when the expiry is capped, and whether signing succeeds. */
  datatype Surroundings = Surroundings(oidc: Oidc, walk: Walk, cel: CelResults, now: int, encodes: bool)

  /** The answer of one verifier and its policy's rules to one request. */
  ghost function Answer(v: Verifier, rules: seq<Rule>, rawToken: string, nkey: string, reader: Reader,
                        env: Surroundings)
    : Result<UserClaims, Why>
    requires FitsVerification(env.walk, v, rawToken, reader, env.oidc)
  {
    if rawToken == "" then Err(NoToken)
    else
      match VerifyIn(v, rawToken, reader, env.oidc, env.walk)
      case Err(error) => Err(NotVerified(error))
      case Ok(id) =>
        match Decide(rules, id, env.cel)
        case None => Err(NoRule)
        case Some(d) => if env.encodes then Ok(UserClaimsFor(nkey, id, d, env.now)) else Err(NotSigned)
  }

  class Authorizer {
    var state: Ruleset

    constructor (v: Verifier, policy: Policy)
      ensures state == Ruleset(v, policy)
    {
      state := Ruleset(v, policy);
    }

    method Reload(v: Verifier, policy: Policy)
      modifies this
      ensures state == Ruleset(v, policy)
    {
      state := Ruleset(v, policy);
    }

    /** One request against the ruleset found at its start: the outcome is the answer of that ruleset,
        whatever the map orders turn out to be. */
    method Authorize(rawToken: string, nkey: string, reader: Reader, oidc: Oidc, cel: CelResults, now: int,
                     encodes: bool)
      returns (jwt: Result<UserClaims, Denied>)
      ensures !state.policy.validated ==> jwt.Err?
      ensures state.policy.validated ==> exists walk ::
                && FitsVerification(walk, state.verifier, rawToken, reader, oidc)
                && var answer := Answer(state.verifier, state.policy.rules, rawToken, nkey, reader,
                                        Surroundings(oidc, walk, cel, now, encodes));
                   (answer.Ok? <==> jwt.Ok?) && (answer.Ok? ==> jwt.value == answer.value)
    {
      var st := state;
      if rawToken == "" {
        ghost var walk := SomeWalkFitsVerification(st.verifier, rawToken, reader, oidc);
        return Err(AuthorizationDenied);
      }
      var id := Verify(st.verifier, rawToken, reader, oidc);
      if id.Err? {
        return Err(AuthorizationDenied);
      }
      var decision := st.policy.Evaluate(id.value, cel);
      if decision.Err? {
        return Err(AuthorizationDenied);
      }
      var uc := UserClaims(nkey, id.value.subject, "", decision.value.limits, 0);
      uc := uc.(audience := decision.value.account);
      uc := uc.(expires := Unix(CappedExpiry(id.value.expiry, decision.value.maxExpiry, now)));
      if !encodes {
        return Err(AuthorizationDenied);
      }
      return Ok(uc);
    }

    /** A reload puts in service what was built, or leaves everything as it was. */
    method ReloadConfig(decoded: Option<Settings>, e: Engine, discovers: string -> bool) returns (ok: bool)
      modifies this
      ensures ok <==> Build(decoded, e, discovers).Some?
      ensures !ok ==> state == old(state)
      ensures ok ==> && fresh(state.policy) && state.policy.validated
                     && state.verifier == Build(decoded, e, discovers).value.verifier
                     && state.policy.rules == Build(decoded, e, discovers).value.rules
    {
      if decoded.None? {
        return false;
      }
      var policy := new Policy(decoded.value.rules);
      var invalid := policy.Validate(e);
      if invalid.Some? {
        return false;
      }
      var v := New(decoded.value.issuers, decoded.value.audiences, decoded.value.signingAlgs, discovers);
      if v.Err? {
        return false;
      }
      assert policy.rules == CompiledAll(decoded.value.rules, e);
      Reload(v.value, policy);
      return true;
    }
  }
}
