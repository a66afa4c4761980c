/** Token verification against a fixed set of trusted issuers: the tables, and the checks around the
    OIDC library's own. */
module Verifier {
  import opened Wrappers
  import opened Text
  import opened Json
  import opened Identity

  datatype IssuerOption = IssuerOption(url: string, requireClaims: Claims)

  /** Trusted issuers with the claims each is bound to, and the accepted audiences. */
  datatype Verifier = Verifier(issuers: map<string, Claims>, audiences: set<string>)

  /** What the OIDC library hands back for a token it verified. */
  datatype IdToken = IdToken(issuer: string, subject: string, audience: seq<string>, expiry: int, payload: Option<Json>)

  /** Library decoding of a token's payload: unpadded base64url, then the "iss" claim ("" when absent). */
  datatype Reader = Reader(base64: string -> Option<string>, issuerClaim: string -> Option<string>)

  /** Verification of one raw token by the verifier set up for an issuer; None is any failure. */
  type Oidc = string -> Option<IdToken>

  datatype NewError =
    | NoIssuers
    | NoAudiences
    | NoSigningAlgs
    | DuplicateIssuer(url: string)
    | DiscoveryFailed(url: string)

  datatype VerifyError =
    | EmptyToken
    | MalformedToken
    | UntrustedIssuer
    | VerificationFailed
    | AudienceNotAllowed
    | UnreadableClaims
    | ClaimMismatch(key: string)

  // ----- building the tables -----

  predicate DistinctUrls(issuers: seq<IssuerOption>) {
    forall i, j :: 0 <= i < j < |issuers| ==> issuers[i].url != issuers[j].url
  }

  /** The tables say what the options say, no more and no less. */
  ghost predicate BuiltFrom(v: Verifier, issuers: seq<IssuerOption>, audiences: seq<string>) {
    && (forall a :: a in v.audiences <==> a in audiences)
    && (forall u :: u in v.issuers ==> exists i :: 0 <= i < |issuers| && issuers[i].url == u)
    && (forall i :: 0 <= i < |issuers| ==>
          issuers[i].url in v.issuers && v.issuers[issuers[i].url] == issuers[i].requireClaims)
  }

  /** The issuer table grown by the remaining options; `discovers` says for which issuers discovery
      yields a key-set location. */
  function Extended(table: map<string, Claims>, issuers: seq<IssuerOption>, discovers: string -> bool)
    : Result<map<string, Claims>, NewError>
    decreases |issuers|
  {
    if issuers == [] then Ok(table)
    else if issuers[0].url in table then Err(DuplicateIssuer(issuers[0].url))
    else if !discovers(issuers[0].url) then Err(DiscoveryFailed(issuers[0].url))
    else Extended(table[issuers[0].url := issuers[0].requireClaims], issuers[1..], discovers)
  }

  function Built(issuers: seq<IssuerOption>, audiences: seq<string>, signingAlgs: seq<string>,
                 discovers: string -> bool)
    : Result<Verifier, NewError>
  {
    if issuers == [] then Err(NoIssuers)
    else if audiences == [] then Err(NoAudiences)
    else if signingAlgs == [] then Err(NoSigningAlgs)
    else
      match Extended(map[], issuers, discovers)
      case Err(e) => Err(e)
      case Ok(table) => Ok(Verifier(table, set a | a in audiences))
  }

  predicate Fresh(table: map<string, Claims>, issuers: seq<IssuerOption>) {
    forall i :: 0 <= i < |issuers| ==> issuers[i].url !in table
  }

  predicate Discovered(issuers: seq<IssuerOption>, discovers: string -> bool) {
    forall i :: 0 <= i < |issuers| ==> discovers(issuers[i].url)
  }

  /** The grown table is the old one and one entry for each option. */
  ghost predicate Grown(table: map<string, Claims>, issuers: seq<IssuerOption>, after: map<string, Claims>) {
    && (forall u :: u in table ==> u in after && after[u] == table[u])
    && (forall u :: u in after ==> u in table || exists i :: 0 <= i < |issuers| && issuers[i].url == u)
    && (forall i :: 0 <= i < |issuers| ==>
          issuers[i].url in after && after[issuers[i].url] == issuers[i].requireClaims)
  }

  lemma {:induction false} ExtendedMeans(table: map<string, Claims>, issuers: seq<IssuerOption>,
                                         discovers: string -> bool)
    ensures Extended(table, issuers, discovers).Ok? <==>
            DistinctUrls(issuers) && Discovered(issuers, discovers) && Fresh(table, issuers)
    ensures Extended(table, issuers, discovers).Ok? ==> Grown(table, issuers, Extended(table, issuers, discovers).value)
    decreases |issuers|
  {
    if issuers != [] && issuers[0].url !in table && discovers(issuers[0].url) {
      var first, rest := issuers[0], issuers[1..];
      var more := table[first.url := first.requireClaims];
      ExtendedMeans(more, rest, discovers);
      assert issuers == [first] + rest;
      if DistinctUrls(rest) && Fresh(more, rest) {
        assert Fresh(table, issuers) && DistinctUrls(issuers);
      }
      if Extended(more, rest, discovers).Ok? {
        GrownInTurn(table, issuers, Extended(more, rest, discovers).value);
      }
    }
  }

  lemma GrownInTurn(table: map<string, Claims>, issuers: seq<IssuerOption>, after: map<string, Claims>)
    requires issuers != [] && Fresh(table, issuers)
    requires Grown(table[issuers[0].url := issuers[0].requireClaims], issuers[1..], after)
    ensures Grown(table, issuers, after)
  {
    forall i | 0 <= i < |issuers|
      ensures issuers[i].url in after && after[issuers[i].url] == issuers[i].requireClaims
    {
      assert i > 0 ==> issuers[i] == issuers[1..][i - 1];
    }
    forall u | u in after && u !in table && u != issuers[0].url
      ensures exists i :: 0 <= i < |issuers| && issuers[i].url == u
    {
      var k :| 0 <= k < |issuers[1..]| && issuers[1..][k].url == u;
      assert issuers[k + 1].url == u;
    }
  }

  /** Why the table cannot be built. */
  ghost predicate Unbuildable(table: map<string, Claims>, issuers: seq<IssuerOption>, discovers: string -> bool,
                              e: NewError)
  {
    match e
    case DuplicateIssuer(u) =>
      exists i :: 0 <= i < |issuers| && issuers[i].url == u && (u in table || Twice(issuers, i))
    case DiscoveryFailed(u) => !discovers(u) && exists i :: 0 <= i < |issuers| && issuers[i].url == u
    case _ => false
  }

  /** An option before this one names the same issuer. */
  predicate Twice(issuers: seq<IssuerOption>, i: nat)
    requires i < |issuers|
  {
    exists k :: 0 <= k < i && issuers[k].url == issuers[i].url
  }

  lemma {:induction false} ExtendedErrors(table: map<string, Claims>, issuers: seq<IssuerOption>,
                                          discovers: string -> bool)
    ensures Extended(table, issuers, discovers).Err? ==>
              Unbuildable(table, issuers, discovers, Extended(table, issuers, discovers).error)
    decreases |issuers|
  {
    var r := Extended(table, issuers, discovers);
    if r.Err? && issuers[0].url !in table && discovers(issuers[0].url) {
      var rest := issuers[1..];
      ExtendedErrors(table[issuers[0].url := issuers[0].requireClaims], rest, discovers);
      var u := r.error.url;
      var i :| 0 <= i < |rest| && rest[i].url == u
               && (r.error.DuplicateIssuer? ==> u in table || u == issuers[0].url || Twice(rest, i));
      assert issuers[i + 1].url == u;
      if Twice(rest, i) {
        var k :| 0 <= k < i && rest[k].url == rest[i].url;
        assert issuers[k + 1].url == u;
      }
    }
  }

  /** The verifier is built exactly from options that are complete, distinct and discoverable, and its tables
      say what they say. */
  lemma BuiltMeans(issuers: seq<IssuerOption>, audiences: seq<string>, signingAlgs: seq<string>,
                   discovers: string -> bool)
    ensures var r := Built(issuers, audiences, signingAlgs, discovers);
            && (r.Ok? <==> && issuers != [] && audiences != [] && signingAlgs != []
                           && DistinctUrls(issuers) && Discovered(issuers, discovers))
            && (r.Ok? ==> BuiltFrom(r.value, issuers, audiences))
  {
    ExtendedMeans(map[], issuers, discovers);
  }

  method New(issuers: seq<IssuerOption>, audiences: seq<string>, signingAlgs: seq<string>, discovers: string -> bool)
    returns (r: Result<Verifier, NewError>)
    ensures r == Built(issuers, audiences, signingAlgs, discovers)
    ensures r.Ok? ==> BuiltFrom(r.value, issuers, audiences)
    ensures r.Err? ==>
              match r.error
              case NoIssuers => issuers == []
              case NoAudiences => issuers != [] && audiences == []
              case NoSigningAlgs => issuers != [] && audiences != [] && signingAlgs == []
              case _ => Unbuildable(map[], issuers, discovers, r.error)
  {
    if |issuers| == 0 {
      return Err(NoIssuers);
    }
    if |audiences| == 0 {
      return Err(NoAudiences);
    }
    if |signingAlgs| == 0 {
      return Err(NoSigningAlgs);
    }
    var allowed: set<string> := {};
    for i := 0 to |audiences|
      invariant forall a :: a in allowed <==> a in audiences[..i]
    {
      allowed := allowed + {audiences[i]};
    }
    assert audiences[..|audiences|] == audiences;
    assert allowed == set a | a in audiences;
    BuiltMeans(issuers, audiences, signingAlgs, discovers);
    ExtendedErrors(map[], issuers, discovers);
    var table: map<string, Claims> := map[];
    for i := 0 to |issuers|
      invariant Extended(map[], issuers, discovers) == Extended(table, issuers[i..], discovers)
    {
      var url := issuers[i].url;
      if url in table {
        return Err(DuplicateIssuer(url));
      }
      if !discovers(url) {
        return Err(DiscoveryFailed(url));
      }
      table := table[url := issuers[i].requireClaims];
      assert issuers[i..][1..] == issuers[i + 1..];
    }
    r := Ok(Verifier(table, allowed));
  }

  // ----- verification -----

  /** The issuer an unverified token names; it only selects a verifier. */
  function UnverifiedIssuer(reader: Reader, rawToken: string): Option<string> {
    var parts := Split(rawToken, '.');
    if |parts| != 3 then None
    else
      var payload := reader.base64(parts[1]);
      if payload.None? then None
      else
        var issuer := reader.issuerClaim(payload.value);
        if issuer == Some("") then None else issuer
  }

  predicate AudienceAllowed(v: Verifier, audience: seq<string>) {
    exists a :: a in audience && a in v.audiences
  }

  /** The members of a token's payload; None when it is not an object. */
  function PayloadMembers(payload: Option<Json>): Option<seq<Member>> {
    match payload
    case Some(Obj(members)) => Some(members)
    case Some(Null) => Some([])
    case _ => None
  }

  predicate ClaimsHold(required: Claims, claims: Claims) {
    forall k :: k in required ==> k in claims && claims[k] == required[k]
  }

  /** The identity is the token's, the token is this issuer's, and the issuer's bindings hold. */
  ghost predicate VerifiedAs(v: Verifier, issuer: string, token: IdToken, id: Identity) {
    && issuer in v.issuers
    && AudienceAllowed(v, token.audience)
    && id.issuer == token.issuer && id.subject == token.subject
    && id.audience == token.audience && id.expiry == token.expiry
    && PayloadMembers(token.payload).Some? && ParsesTo(PayloadMembers(token.payload).value, id.claims)
    && ClaimsHold(v.issuers[issuer], id.claims)
  }

  /** Why a token with a trusted issuer and a library-verified signature may still be refused. */
  ghost predicate RefusedFor(v: Verifier, issuer: string, token: IdToken, error: VerifyError)
    requires issuer in v.issuers
  {
    match error
    case AudienceNotAllowed => !AudienceAllowed(v, token.audience)
    case UnreadableClaims => AudienceAllowed(v, token.audience) && PayloadMembers(token.payload).None?
    case ClaimMismatch(k) =>
      && AudienceAllowed(v, token.audience)
      && k in v.issuers[issuer] && PayloadMembers(token.payload).Some?
      && exists claims: Claims :: ParsesTo(PayloadMembers(token.payload).value, claims)
           && (k !in claims || claims[k] != v.issuers[issuer][k])
    case _ => false
  }

  method CheckAudience(v: Verifier, audience: seq<string>) returns (allowed: bool)
    ensures allowed == AudienceAllowed(v, audience)
  {
    for i := 0 to |audience|
      invariant forall k :: 0 <= k < i ==> audience[k] !in v.audiences
    {
      if audience[i] in v.audiences {
        return true;
      }
    }
    return false;
  }

  predicate Distinct(keys: seq<string>) {
    forall i, j :: 0 <= i < j < |keys| ==> keys[i] != keys[j]
  }

  lemma DistinctConcat(a: seq<string>, b: seq<string>)
    requires Distinct(a) && Distinct(b) && forall k :: k in a ==> k !in b
    ensures Distinct(a + b)
  {
    forall i, j | 0 <= i < j < |a + b| ensures (a + b)[i] != (a + b)[j] {
      if i < |a| <= j {
        assert a[i] in a && b[j - |a|] in b;
      }
    }
  }

  /** The keys of a map, each once, in some order. */
  ghost predicate Lists(keys: seq<string>, required: Claims) {
    Distinct(keys) && forall k :: k in required <==> k in keys
  }

  function FirstMismatchIn(keys: seq<string>, required: Claims, claims: Claims): (key: Option<string>)
    requires forall k :: k in keys ==> k in required
    ensures key.None? <==> forall k :: k in keys ==> k in claims && claims[k] == required[k]
    ensures key.Some? ==> key.value in required && (key.value !in claims || claims[key.value] != required[key.value])
  {
    if keys == [] then None
    else if keys[0] !in claims || claims[keys[0]] != required[keys[0]] then Some(keys[0])
    else FirstMismatchIn(keys[1..], required, claims)
  }

  /** A range over the required claims, in any order. */
  method FirstMismatch(required: Claims, claims: Claims) returns (key: Option<string>)
    ensures exists keys :: Lists(keys, required) && key == FirstMismatchIn(keys, required, claims)
    ensures key.None? <==> ClaimsHold(required, claims)
  {
    var left := required.Keys;
    ghost var keys := [];
    while left != {}
      invariant Ranged(keys, left, required, claims)
      decreases left
    {
      var k :| k in left;
      if k !in claims || claims[k] != required[k] {
        ghost var order := StoppedAtMismatch(keys, left, k, required, claims);
        return Some(k);
      }
      left, keys := left - {k}, keys + [k];
    }
    assert Lists(keys, required);
    return None;
  }

  /** The claims ranged over so far hold; the others are left. */
  ghost predicate Ranged(keys: seq<string>, left: set<string>, required: Claims, claims: Claims) {
    && Distinct(keys)
    && (forall k :: k in required <==> k in left || k in keys)
    && (forall k :: k in keys ==> k !in left && k in claims && claims[k] == required[k])
  }

  lemma StoppedAtMismatch(keys: seq<string>, left: set<string>, k: string, required: Claims, claims: Claims)
    returns (order: seq<string>)
    requires Ranged(keys, left, required, claims)
    requires k in left && (k !in claims || claims[k] != required[k])
    ensures Lists(order, required) && FirstMismatchIn(order, required, claims) == Some(k)
  {
    var rest := [k] + Listing(left - {k});
    order := keys + rest;
    assert forall l :: l in order ==> l in required;
    DistinctConcat(keys, rest);
    AfterGoodOnes(keys, rest, required, claims);
  }

  ghost function Listing(keys: set<string>): (r: seq<string>)
    ensures forall k :: k in r <==> k in keys
    ensures Distinct(r)
  {
    if keys == {} then []
    else
      var k :| k in keys;
      [k] + Listing(keys - {k})
  }

  lemma {:induction false} AfterGoodOnes(good: seq<string>, rest: seq<string>, required: Claims, claims: Claims)
    requires forall k :: k in good + rest ==> k in required
    requires forall k :: k in good ==> k in claims && claims[k] == required[k]
    ensures forall k :: k in rest ==> k in required
    ensures FirstMismatchIn(good + rest, required, claims) == FirstMismatchIn(rest, required, claims)
  {
    assert forall k :: k in rest ==> k in good + rest;
    if good == [] {
      assert good + rest == rest;
    } else {
      assert good[0] in good + rest && (good + rest)[0] == good[0];
      assert (good + rest)[1..] == good[1..] + rest;
      AfterGoodOnes(good[1..], rest, required, claims);
    }
  }

  /** The map orders one verification meets: of the payload's members, and of the required claims. */
  datatype Walk = Walk(order: seq<Visit>, keys: seq<string>)

  ghost predicate Fits(walk: Walk, token: IdToken, required: Claims) {
    && Lists(walk.keys, required)
    && (PayloadMembers(token.payload).Some? ==>
          && ValidVisits(PayloadMembers(token.payload).value, walk.order)
          && VisitsAll(PayloadMembers(token.payload).value, walk.order))
  }

  /** The walk fits whatever this verification will range over. */
  ghost predicate FitsVerification(walk: Walk, v: Verifier, rawToken: string, reader: Reader, oidc: Oidc) {
    var issuer := UnverifiedIssuer(reader, rawToken);
    issuer.Some? && issuer.value in v.issuers && oidc(issuer.value).Some? ==>
      Fits(walk, oidc(issuer.value).value, v.issuers[issuer.value])
  }

  /** What is left to do with a token whose signature, lifetime and issuer the library has checked. */
  ghost function CheckIn(v: Verifier, token: IdToken, required: Claims, walk: Walk): Result<Identity, VerifyError>
    requires Fits(walk, token, required)
  {
    if !AudienceAllowed(v, token.audience) then Err(AudienceNotAllowed)
    else
      match PayloadMembers(token.payload)
      case None => Err(UnreadableClaims)
      case Some(members) =>
        var claims := VisitIn(Top, members, walk.order, map[]);
        match FirstMismatchIn(walk.keys, required, claims)
        case Some(key) => Err(ClaimMismatch(key))
        case None => Ok(Identity(token.issuer, token.subject, token.audience, token.expiry, claims))
  }

  /** The outcome of verifying a raw token, given the map orders. */
  ghost function VerifyIn(v: Verifier, rawToken: string, reader: Reader, oidc: Oidc, walk: Walk)
    : Result<Identity, VerifyError>
    requires FitsVerification(walk, v, rawToken, reader, oidc)
  {
    if rawToken == "" then Err(EmptyToken)
    else
      var issuer := UnverifiedIssuer(reader, rawToken);
      if issuer.None? then Err(MalformedToken)
      else if issuer.value !in v.issuers then Err(UntrustedIssuer)
      else if oidc(issuer.value).None? then Err(VerificationFailed)
      else CheckIn(v, oidc(issuer.value).value, v.issuers[issuer.value], walk)
  }

  /** The middle one of the token's three parts decodes to a payload that names this issuer. */
  ghost predicate NamesIssuer(reader: Reader, rawToken: string, issuer: string) {
    && issuer != ""
    && exists header, body, signature ::
         && InThree(rawToken, '.', header, body, signature)
         && reader.base64(body).Some? && reader.issuerClaim(reader.base64(body).value) == Some(issuer)
  }

  lemma UnverifiedIssuerIff(reader: Reader, rawToken: string, issuer: string)
    ensures UnverifiedIssuer(reader, rawToken) == Some(issuer) <==> NamesIssuer(reader, rawToken, issuer)
  {
    if UnverifiedIssuer(reader, rawToken) == Some(issuer) {
      ThreeFields(rawToken, '.');
    }
    if NamesIssuer(reader, rawToken, issuer) {
      var header, body, signature :|
        && InThree(rawToken, '.', header, body, signature)
        && reader.base64(body).Some? && reader.issuerClaim(reader.base64(body).value) == Some(issuer);
      SplitInThree(rawToken, '.', header, body, signature);
    }
  }

  /** A possible success; the iteration order over the payload may leave more than one. */
  ghost predicate Verifies(v: Verifier, rawToken: string, reader: Reader, oidc: Oidc, id: Identity) {
    exists issuer ::
      NamesIssuer(reader, rawToken, issuer) && oidc(issuer).Some? && VerifiedAs(v, issuer, oidc(issuer).value, id)
  }

  /** The causes of a failure, in the order in which they are looked for. */
  ghost predicate Fails(v: Verifier, rawToken: string, reader: Reader, oidc: Oidc, error: VerifyError) {
    match error
    case EmptyToken => rawToken == ""
    case MalformedToken => rawToken != "" && forall issuer :: !NamesIssuer(reader, rawToken, issuer)
    case UntrustedIssuer => exists issuer :: NamesIssuer(reader, rawToken, issuer) && issuer !in v.issuers
    case VerificationFailed =>
      exists issuer :: NamesIssuer(reader, rawToken, issuer) && issuer in v.issuers && oidc(issuer).None?
    case _ =>
      exists issuer ::
        && NamesIssuer(reader, rawToken, issuer) && issuer in v.issuers && oidc(issuer).Some?
        && RefusedFor(v, issuer, oidc(issuer).value, error)
  }

  /** What a success and each failure mean. */
  lemma VerifyInMeans(v: Verifier, rawToken: string, reader: Reader, oidc: Oidc, walk: Walk)
    requires FitsVerification(walk, v, rawToken, reader, oidc)
    ensures var r := VerifyIn(v, rawToken, reader, oidc, walk);
            && (r.Ok? ==> Verifies(v, rawToken, reader, oidc, r.value))
            && (r.Err? ==> Fails(v, rawToken, reader, oidc, r.error))
  {
    var r := VerifyIn(v, rawToken, reader, oidc, walk);
    var issuer := UnverifiedIssuer(reader, rawToken);
    forall i ensures issuer == Some(i) <==> NamesIssuer(reader, rawToken, i) {
      UnverifiedIssuerIff(reader, rawToken, i);
    }
    if issuer.Some? && issuer.value in v.issuers && oidc(issuer.value).Some? {
      var members := PayloadMembers(oidc(issuer.value).value.payload);
      if members.Some? {
        assert ParsesTo(members.value, VisitIn(Top, members.value, walk.order, map[]));
      }
    }
  }

  lemma NoTextWithoutParts(reader: Reader, rawToken: string, issuer: string)
    requires NamesIssuer(reader, rawToken, issuer)
    ensures rawToken != ""
  {
  }

  /** And every identity that the payload can yield under these bindings is the outcome of some orders. */
  lemma EveryVerifiedIdentityComesOut(v: Verifier, rawToken: string, reader: Reader, oidc: Oidc, id: Identity)
    returns (walk: Walk)
    requires Verifies(v, rawToken, reader, oidc, id)
    ensures FitsVerification(walk, v, rawToken, reader, oidc)
    ensures VerifyIn(v, rawToken, reader, oidc, walk) == Ok(id)
  {
    var issuer :|
      NamesIssuer(reader, rawToken, issuer) && oidc(issuer).Some? && VerifiedAs(v, issuer, oidc(issuer).value, id);
    UnverifiedIssuerIff(reader, rawToken, issuer);
    NoTextWithoutParts(reader, rawToken, issuer);
    var members := PayloadMembers(oidc(issuer).value.payload).value;
    var order :| ValidVisits(members, order) && VisitsAll(members, order)
                 && id.claims == VisitIn(Top, members, order, map[]);
    walk := Walk(order, Listing(v.issuers[issuer].Keys));
  }

  lemma SomeWalkFitsVerification(v: Verifier, rawToken: string, reader: Reader, oidc: Oidc) returns (walk: Walk)
    ensures FitsVerification(walk, v, rawToken, reader, oidc)
  {
    walk := Walk([], []);
    var issuer := UnverifiedIssuer(reader, rawToken);
    if issuer.Some? && issuer.value in v.issuers && oidc(issuer.value).Some? {
      var members := PayloadMembers(oidc(issuer.value).value.payload);
      if members.Some? {
        DefaultVisitsAreComplete(members.value, |members.value|);
        walk := walk.(order := DefaultVisits(members.value, |members.value|, |members.value|));
      }
      walk := walk.(keys := Listing(v.issuers[issuer.value].Keys));
    }
  }

  /** Whatever the map orders turn out to be, the outcome is the one they determine. */
  method Verify(v: Verifier, rawToken: string, reader: Reader, oidc: Oidc) returns (r: Result<Identity, VerifyError>)
    ensures exists walk ::
              && FitsVerification(walk, v, rawToken, reader, oidc)
              && r == VerifyIn(v, rawToken, reader, oidc, walk)
  {
    ghost var walk := SomeWalkFitsVerification(v, rawToken, reader, oidc);
    if rawToken == "" {
      return Err(EmptyToken);
    }
    var issuer := UnverifiedIssuer(reader, rawToken);
    if issuer.None? {
      return Err(MalformedToken);
    }
    if issuer.value !in v.issuers {
      return Err(UntrustedIssuer);
    }
    var idToken := oidc(issuer.value);
    if idToken.None? {
      return Err(VerificationFailed);
    }
    var token, required := idToken.value, v.issuers[issuer.value];
    var allowed := CheckAudience(v, token.audience);
    if !allowed {
      return Err(AudienceNotAllowed);
    }
    var claims := Parse(token.payload);
    if claims.Err? {
      return Err(UnreadableClaims);
    }
    var mismatch := FirstMismatch(required, claims.value);
    ghost var keys :| Lists(keys, required) && mismatch == FirstMismatchIn(keys, required, claims.value);
    walk := ParseOrder(token, claims.value, keys, required);
    assert FitsVerification(walk, v, rawToken, reader, oidc);
    if mismatch.Some? {
      return Err(ClaimMismatch(mismatch.value));
    }
    return Ok(Identity(token.issuer, token.subject, token.audience, token.expiry, claims.value));
  }

  lemma ParseOrder(token: IdToken, claims: Claims, keys: seq<string>, required: Claims) returns (walk: Walk)
    requires PayloadMembers(token.payload).Some? && ParsesTo(PayloadMembers(token.payload).value, claims)
    requires Lists(keys, required)
    ensures Fits(walk, token, required) && walk.keys == keys
    ensures claims == VisitIn(Top, PayloadMembers(token.payload).value, walk.order, map[])
  {
    var members := PayloadMembers(token.payload).value;
    var order :| ValidVisits(members, order) && VisitsAll(members, order)
                 && claims == VisitIn(Top, members, order, map[]);
    walk := Walk(order, keys);
  }
}
