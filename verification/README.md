# NATS OIDC callout: a verified model

The service answers NATS auth callouts. A client presents an OIDC token as its connection token; the service
verifies it against a fixed set of trusted issuers, evaluates an ordered policy on the token's flattened
claims, and issues a short-lived NATS user JWT. A client-side library mints such tokens from AWS STS and keeps
them in a file that any number of processes share. This project states in Dafny what the hard parts of that
design guarantee and proves it: the throttled key set, the policy compiler and its guardrail, the flattening of
claims, the shared token cache, and the end-to-end argument for every JWT the service issues.

`dafny verify dfyconfig.toml` checks everything.

## How it is organised

| file | what it covers |
|---|---|
| `Text`, `Wrappers` | splitting, joining and trimming of strings; options and results |
| `Regex` | regular expressions with Go's leftmost-first search, beside what an expression means |
| `RegexSyntax` | quoting, and a reader for the fragment of the syntax the glob compiler writes |
| `SubjectPattern` | the subject compiler, what a glob means, and the syntactic pins |
| `Policy` | validation, evaluation and the broad-rule guardrail |
| `Json`, `Identity` | decoded JSON, and its flattening in every map order |
| `JsonText` | JSON strings as they are written, and a reader for whole JSON texts |
| `KeySet` | the cached keys: transition functions of its locked sections, and the class that performs them in place |
| `KeySetProtocol` | requests, detached fetchers and a clock around one key set, as a step system with its invariant |
| `KeySetGuarantees` | what holds in every run of that system |
| `KeySetVerdicts` | why each request ends as it does: its steps, the keys it read, the throttle it met |
| `CacheFormat` | the cache envelope, how a text decodes to one, and when a stored token may be used |
| `TokenSource` | a token source in place: its flag, its last error and the shared file |
| `TokenCacheProtocol` | callers and refreshers of many sources in many processes over one file |
| `Verifier`, `Callout` | the verifier, the authorizer and the reload, in place |
| `CalloutProtocol` | concurrent authorizations while the configuration is reloaded under them |

Code that changes state is a class or a method with loops, specified by functions of the old state. The steps of
the three step systems compute with the same functions: `KeySet.Admit`, `Started` and `Installed`;
`CacheFormat.Lookup` and `AfterWrite`; and for the service `Verifier.VerifyIn`, `Policy.Decide`,
`Callout.UserClaimsFor` and `Callout.Build`, which `Verify`, `Evaluate`, `Authorize` and `ReloadConfig` are proved
to compute. A run is any legal sequence of steps of any number of participants, so a statement about reachable
states or about runs covers every interleaving of the locked sections.

## What is assumed

Everything the code calls but does not contain is a parameter, with these assumptions and no others.

- `regexp.Compile` is any partial function that, where it accepts a text of the fragment of
  `RegexSyntax.ParseSequence`, reads it as written (`RegexSyntax.Faithful`). It may refuse any text, for its size
  say, which is then an error of the glob; what it makes of other texts is unconstrained.
- The token cache's codecs (`CacheFormat.FaithfulCodec`): the encoder writes `CacheFormat.Marshal`'s text and the
  decoder accepts it; of every text the decoder makes what `CacheFormat.Unmarshal` makes of it, or refuses it;
  unpadded base64 of an impossible length is refused. The cache protocol needs only that an encoded envelope
  decodes to itself and that distinct access keys have distinct fingerprints.
- The OIDC library hands back a token only as one of the issuer it was set up for
  (`CalloutProtocol.ChecksIssuer`).
- A signature check, CEL compilation and evaluation, OIDC discovery, the rest of the OIDC library's verification,
  network answers, file-system answers and clock readings are arbitrary.

`RegexSyntax.FaithfulCompilerExists` and `CacheFormat.FaithfulCodecExists` show that the assumptions can be met.

## Results worth knowing

- The full-span test of the code is not the same as "some match spans the subject". It is sound for every
  expression, and exact on a subject unless a spanning match exists and leftmost-first preference chooses one that
  falls short (`Regex.ExactUnlessPreferenceFallsShort`, with a definition of preference that the search is proved
  to follow). Both known sources of this pass the textual anchoring guard: a top-level alternation
  (`AlternationHidesAMatch`; `AlternationIsExactIff` says exactly when) and an escaped closing dollar after a lazy
  repetition (`EscapedDollarHidesAMatch`, `^a.*?\$` on `a$$`). An expression whose every way through ends with an
  end assertion is exact on all subjects, globs are such expressions, and a text of the fragment that ends with a
  dollar is one exactly when that dollar is not escaped (`SubjectPattern.TrailingDollarAnchors`). Testing the
  expression followed by an end assertion instead would be exact for all (`Regex.EndAssertionMakesExact`). The code
  only ever refuses more.
- Flattening can depend on Go's map order: `Identity.OrderIsInvisibleIffUnambiguous` proves that it does exactly
  when two leaves share a dotted name and differ in value, and `Identity.OrderCanShow` that the payload
  `{"a.b": "x", "a": {"b": "y"}}` does.
- A claim whose name starts with `https://sts.amazonaws.com/.` need not come from a key that starts so: nested keys
  can spell the namespace out (`Identity.LookAlikeExists`); `Identity.NamespaceLookAlikes` says where such names can
  come from. None comes from the namespace object itself, whose claims are named `aws.`.
- A refresh is joined when the cached key list is empty. That includes a fetched empty list
  (`KeySetGuarantees.EmptyFetchIsJoined` is a run that gets there), which is wider than the comment at
  internal/verifier/keyset.go:119-121; the model follows the code.
- `Validate` leaves an existing CEL program in place when a rule has no expression, and does not lower its flag
  when a later validation fails. The model does the same; for a policy as decoded neither shows.

## Model

| member | source | states |
|---|---|---|
| KeySet.VerifyWith | internal/verifier/keyset.go:101-111 | A payload comes from some candidate key (matching key ID, or any key when the token names none) that verified it; without one, no candidate verifies |
| KeySet.TryKeys | internal/verifier/keyset.go:101-111 | The loop over the key slice returns what the specification search returns, first candidate first |
| KeySet.KeySet.constructor | internal/verifier/keyset.go:58-67 | The interval is positive whatever was requested, the default replacing a nonpositive one; the cache starts empty |
| KeySet.KeySet.BeginRefresh | internal/verifier/keyset.go:115-143 | The locked section of a refresh request is `Admit` followed by `Started`: a refusal or a join changes nothing, a start installs a fresh unfinished result and the time stamp |
| KeySet.KeySet.Install | internal/verifier/keyset.go:133-138 | Keys are replaced by a successful fetch only; the in-flight mark is always cleared and the stamp kept |
| KeySet.RefreshResult.Publish | internal/verifier/keyset.go:139-141 | After it the result is done and carries the fetch error, or none |
| KeySetProtocol.StepKeepsInv | internal/verifier/keyset.go:70-152 | Every step of every participant keeps the invariant tying cache, stamps, fetchers and each request's knowledge together |
| KeySetProtocol.StepEvolves | internal/verifier/keyset.go:115-142 | No step reopens a finished refresh, changes a received result or rewrites a stamp |
| KeySetProtocol.RequestInvStays | internal/verifier/keyset.go:70-98 | What a request knows (its snapshot, its refresh) survives whatever the other participants do |
| KeySetProtocol.LatestKeysArePublished | internal/verifier/keyset.go:133-137 | The cached keys are those of a refresh no older than any one that has installed keys |
| KeySetGuarantees.OneFetchAtATime | internal/verifier/keyset.go:115-142 | In every reachable state at most one fetch runs, any two starts are an interval apart, and the stamp is that of the last start |
| KeySetGuarantees.RefreshRateIsBounded | internal/verifier/keyset.go:115-130 | Any window of length T holds at most floor(T/interval)+1 refresh starts |
| KeySetGuarantees.MissIsServedAfterWindow | internal/verifier/keyset.go:115-138 | If every refresh started before a miss clears its in-flight mark within a bound of its stamp, the miss is refused only before lastFetch + max(interval, bound), and at or after it starts its own refresh |
| KeySetGuarantees.LandingIsLater | internal/verifier/keyset.go:132-138 | In every run what is in flight now clears its in-flight mark now or later |
| KeySetGuarantees.KeysFrozenInFlight | internal/verifier/keyset.go:117-138 | While one refresh stays in flight the cached keys do not change |
| KeySetGuarantees.OnlyTheStarterWaits | internal/verifier/keyset.go:117-130 | A refresh started over a nonempty cache only ever has its starter as a waiter |
| KeySetGuarantees.OtherMissesAreRefused | internal/verifier/keyset.go:118-125 | During a refresh in flight another miss is refused at once if and only if some key is cached, else it joins; either way nothing shared changes |
| KeySetGuarantees.EmptyFetchIsJoined | internal/verifier/keyset.go:119-125 | A reachable state in which a miss joined another request's refresh although an earlier fetch had succeeded, with an empty key set |
| KeySetGuarantees.CachedTokenNeverWaits | internal/verifier/keyset.go:78-85 | A token that verifies against its first snapshot is accepted with that payload and never enters a refresh |
| KeySetGuarantees.HelpfulStepHelps | internal/verifier/keyset.go:70-152 | An unfinished request always has an enabled step, its own or its fetcher's, that lowers its measure |
| KeySetGuarantees.StepNeverHinders | internal/verifier/keyset.go:70-152 | No step of anyone raises a request's measure |
| KeySetGuarantees.HelpfulStepsCount | internal/verifier/keyset.go:70-152 | In every run each step of a request or of the fetcher it waits for uses up some of a measure that no other step refills |
| KeySetGuarantees.NoRequestIsStranded | internal/verifier/keyset.go:70-152 | In every run, however others are interleaved, a request has ended by the 30th step of its own or of the fetcher it waits for, and until then one of them is enabled |
| KeySetGuarantees.RequestWorkIsBounded | internal/verifier/keyset.go:78-98 | In any run a request takes at most two key snapshots and enters the refresh at most once |
| KeySetGuarantees.WaitersAgree | internal/verifier/keyset.go:144-151 | When one waiter of a refresh ended with its error, every other one still waits, was cancelled or ended with the same error |
| KeySetGuarantees.ClosedResultIsFinal | internal/verifier/keyset.go:53-56 | A closed result carries exactly its fetch's error, and no run changes it |
| KeySetGuarantees.AcceptedUnderPublishedKey | internal/verifier/keyset.go:78-111 | A payload is returned only under a candidate key of some successfully fetched and installed key set |
| KeySetGuarantees.OnlySuccessfulFetchesChangeKeys | internal/verifier/keyset.go:133-137 | The cached keys change only at the install of a successful fetch, to what it brought |
| KeySetGuarantees.ListedKeyIsNeverLost | internal/verifier/keyset.go:133-137 | A cached key that every later successful fetch lists is still cached at the end of any run |
| KeySetGuarantees.CancelledByItsCaller | internal/verifier/keyset.go:144-151 | In every run a request that ends cancelled was cancelled by its own caller in that run |
| KeySetGuarantees.RefreshedRequestSucceeds | internal/verifier/keyset.go:86-98 | In every run in which its caller does not give up, a waiting request ends accepted if its refresh and all later successful ones list a key vouching for the token |
| KeySetGuarantees.RotationIsPickedUp | internal/verifier/keyset.go:86-130 | In every run without a cancellation by its caller, a miss past the throttle window whose fetch and all later successful ones list a vouching key ends accepted |
| KeySetVerdicts.RequestsTakeTheirPath | internal/verifier/keyset.go:70-152 | In every run a request has taken exactly the steps that lead to where it is: snapshot and try; on a miss one question; then wake-up, second read and second try, or its own cancellation |
| KeySetVerdicts.TokensArrived | internal/verifier/keyset.go:70-78 | In every run a request is for the token it arrived with |
| KeySetVerdicts.FetchersTakeTheirPath | internal/verifier/keyset.go:132-142 | In every run a fetcher receives one result, installs it, reports its error and closes, in this order |
| KeySetVerdicts.VerdictsAreJustified | internal/verifier/keyset.go:70-111 | Every verdict in every run: malformed exactly for a token without exactly one signature; else what the keys say that were cached when the request read them, a refusal only where the throttle demanded it, a fetch error of its own refresh, or its own cancellation |
| KeySetVerdicts.CachedTokenIsAccepted | internal/verifier/keyset.go:78-85 | In every run a token that a key cached at its snapshot verifies ends accepted with that key's payload and never joins a refresh |
| Regex.EndsAreMatches | internal/authz/authz.go:233-239 | The search with preferences finds exactly the ends the expression's meaning allows |
| Regex.SpansIsSound | internal/authz/authz.go:233-239 | For every expression: acceptance implies that some match spans the subject |
| Regex.SpansIsExact | internal/authz/authz.go:233-239 | For expressions whose every alternative ends with the end assertion, acceptance is the same as a spanning match |
| Regex.BracketedIsExact | internal/authz/authz.go:337-345 | For begin-body-end, acceptance means that the body matches the whole subject |
| Regex.OneCharacter | internal/authz/authz.go:233-239 | What a literal, a class, a negated class and the dot accept of one-character subjects |
| Regex.ChosenIsFirst | internal/authz/authz.go:233-239 | The search finds the match that leftmost-first preference chooses, by a definition of preference without search, for every expression and every condition on the end |
| Regex.ExactUnlessPreferenceFallsShort | internal/authz/authz.go:233-239 | For every expression and subject the test is exact if and only if preference does not choose a short match where a spanning one exists |
| Regex.EndAssertionMakesExact | internal/authz/authz.go:233-239 | With an end assertion after it every expression is decided exactly, and the test as it stands is exact where it agrees with that one |
| Regex.FirstAlternativeDecides | internal/authz/authz.go:233-239 | How a top-level alternation is decided: by the first alternative as soon as it matches anything at the start |
| Regex.AlternationIsExactIff | internal/authz/authz.go:233-239 | An alternation of exact alternatives is exact if and only if not: only the second spans the subject and the first matches something shorter |
| Regex.AlternationHidesAMatch | internal/authz/authz.go:233-239 | Inputs whose spanning match is refused because an earlier alternative is preferred |
| Regex.EscapedDollarHidesAMatch | internal/authz/authz.go:337-345 | An input without alternation whose spanning match is refused, its closing dollar being a literal |
| SubjectPattern.GuardLetsEscapedDollarPass | internal/authz/authz.go:337-345 | The textual guard accepts that expression's text |
| SubjectPattern.TrailingDollarAnchors | internal/authz/authz.go:337-345 | A text of the fragment that ends with a dollar reads as an end-anchored expression if and only if that dollar is not escaped |
| SubjectPattern.UnescapedRegexSubIsExact | internal/authz/authz.go:337-345 | A guarded regex sub of the fragment with an unescaped closing dollar compiles to what it says and is decided exactly |
| SubjectPattern.GlobIsPiecesInOrder | internal/authz/authz.go:347-353 | Matching character by character is the same as the literal pieces in order with a newline-free run at each star |
| SubjectPattern.BuildGlobSource | internal/authz/authz.go:348-355 | The builder loop and the trim give one anchor at each end and between them a text in which every one of the fourteen operators is quoted, quotes, or belongs to the wildcard of a star, and from which the pattern can be read back |
| SubjectPattern.GlobTextIsNeutral | internal/authz/authz.go:349-353 | The same of the translation, by a reading from the left that knows the operators by themselves |
| SubjectPattern.QuotedPiecesAreGlobText | internal/authz/authz.go:349-353 | Quoting piece by piece is the character-wise translation followed by one surplus wildcard |
| SubjectPattern.CompileSub | internal/authz/authz.go:333-361 | The compiler's result and each of its errors, for empty, regex and glob patterns |
| SubjectPattern.GlobSourceParses | internal/authz/authz.go:347-357 | The text written for a glob parses to its own expression: every metacharacter in it is neutralised |
| SubjectPattern.GlobCompilerPreservesMeaning | internal/authz/authz.go:233-239 | A glob compiles if its translation does, and then accepts under the full-span test exactly the subjects the glob describes, for every pattern and subject |
| SubjectPattern.PinnedGlobFixesFields | internal/authz/authz.go:319-328 | If the ARN analysis accepts a pattern, every subject the glob describes has the pattern's first five fields, the fifth a 12-digit account |
| SubjectPattern.PinnedARNIsSound | internal/authz/authz.go:319-361 | The same for every subject the compiled matcher accepts, however many colons later stars absorb |
| SubjectPattern.AccountPinnedIff | internal/authz/authz.go:319-328 | The ARN analysis accepts exactly the globs that start with four colon-separated fields free of stars and a fifth of twelve digits |
| SubjectPattern.PinnedSubjectFixed | internal/authz/authz.go:233-328 | Every subject such a compiled glob accepts starts with the very same five fields |
| SubjectPattern.WildcardShiftsAccount | internal/authz/authz.go:309-318 | With a star in the fourth field a pattern whose fifth field names one account matches subjects whose fifth field is any other |
| SubjectPattern.ExactGlobMatchesItself | internal/authz/authz.go:302-307 | A pattern the exactness test accepts describes only its own text |
| Policy.Problem | internal/authz/authz.go:145-188 | A rule has no problem exactly when it is acceptable, the problems taken in the order of the checks |
| Policy.StrongPinIff | internal/authz/authz.go:110-119 | A rule is strongly pinned exactly when it names one subject, one AWS account (by ARN or claim), or has one of the three GitHub claims, all written out |
| Policy.AcceptableIff | internal/authz/authz.go:145-188 | A rule is acceptable exactly when its grant is complete, its sub compiles, and it is confirmed as broad or names one identity without an expression |
| Policy.BroadIff | internal/authz/authz.go:181-187 | A rule is refused as broad exactly when all else is in order and it carries neither allow_broad, nor an expression, nor a name for one identity |
| Policy.Policy.Validate | internal/authz/authz.go:140-191 | Accepts exactly the nonempty lists of such rules, compiling each; a failure names the first problem of the first offending rule and leaves that rule, those before and those after in stated conditions |
| Policy.FirstMatch | internal/authz/authz.go:195-211 | The index found is that of the first matching rule, and none is found exactly when no rule matches |
| Policy.Policy.Evaluate | internal/authz/authz.go:195-211 | The loop decides by that rule, errs exactly when there is none, and decides nothing before validation |
| Policy.PinFixesIdentity | internal/authz/authz.go:213-261 | For a compiled rule the syntactic strong-pin test implies that every identity it matches is fixed on one of the pins |
| Policy.Guardrail | internal/authz/authz.go:140-261 | In an accepted policy a deciding rule without allow_broad fixes the identity by its whole subject, by twelve digits in the fifth field of its subject, or by the value of `aws.aws_account`, `repository`, `repository_id` or `job_workflow_ref`, and carries no expression |
| Policy.CompiledRuleMeansItsText | internal/authz/authz.go:213-239 | A compiled rule matches exactly the identities its text describes |
| Policy.NoEmptyPermissionIsEmitted | internal/authz/authz.go:195-298 | Whatever an accepted policy decides names its first matching rule, hands out that rule's account, cap and response grant, and both directions nonempty: as the rule says, or a denial of everything when omitted |
| Policy.RevalidationIsIdentity | internal/config/config.go:148-154 | Validating an accepted policy again, as loading a policy file does, accepts it and changes nothing |
| Identity.FlattenMembers | internal/identity/identity.go:85-107 | The range over a map writes what a walk in some complete order of its members writes |
| Identity.Flatten | internal/identity/identity.go:101-114 | The recursive walk writes what the specification walk in some order writes into the shared map |
| Identity.VisitMember | internal/identity/identity.go:85-95 | One iteration: a reserved top-level name is skipped, the AWS namespace is renamed, everything else is flattened under its name |
| Identity.Parse | internal/identity/identity.go:77-97 | Succeeds exactly on an object or null, with the claims of a complete walk in some order: the dotted names of exactly the scalars below unregistered keys |
| Identity.FlattenOverlays | internal/identity/identity.go:101-114 | For every order the walk overwrites the map by the tree's leaves and changes nothing else |
| Identity.LeavesAreClaims | internal/identity/identity.go:85-114 | The walk's leaves are the scalars that paths of keys lead to, named by the path joined with dots, the AWS namespace going by `aws`, none below a registered claim |
| Identity.ParsedClaimsAreLeaves | internal/identity/identity.go:77-114 | For every order each claim is one of those, with its text, and the name of every one of them is present |
| Identity.EveryLeafIsKeptBySomeOrder | internal/identity/identity.go:85-114 | Each leaf's own text is the final value under some map order |
| Identity.OrderIsInvisibleIffUnambiguous | internal/identity/identity.go:85-114 | All orders give the same claims if and only if no two leaves share a name with different texts |
| Identity.OrderCanShow | internal/identity/identity.go:85-114 | A payload with distinct keys in every object that has two outcomes, by the map order |
| Identity.ReservedNamesNeverAppear | internal/identity/identity.go:34-38 | No claim at any depth is named `iss`, `sub`, `aud`, `exp`, `nbf` or `iat` |
| Identity.NamespaceYieldsAwsClaims | internal/identity/identity.go:90-94 | Each scalar directly in the AWS namespace object is the claim `aws.` and its key, with its own text when nothing else bears that name |
| Identity.NamespaceLookAlikes | internal/identity/identity.go:85-107 | A claim named by the namespace and a dot comes from a top-level key that starts so itself, or from objects whose nested keys spell the namespace out |
| Identity.LookAlikeExists | internal/identity/identity.go:85-107 | A payload of the latter kind |
| Identity.AwsClaimsHaveAwsOrigin | internal/identity/identity.go:85-107 | A claim whose name starts with `aws.` comes from the AWS namespace object, a top-level `aws` object or a top-level key that itself starts so |
| Verifier.BuiltMeans | internal/verifier/verifier.go:81-142 | A verifier is built if and only if issuers, audiences and algorithms are given, the URLs are distinct and discovery answers for all; its tables say what the options say |
| Verifier.New | internal/verifier/verifier.go:81-142 | The loops compute that verifier or the first error, each with its cause |
| Verifier.CheckAudience | internal/verifier/verifier.go:196-203 | True exactly when some token audience is allowed |
| Verifier.FirstMismatch | internal/verifier/verifier.go:186-191 | Finds nothing exactly when all required claims hold, else the first one in some map order that does not |
| Verifier.UnverifiedIssuerIff | internal/verifier/verifier.go:208-227 | A raw token names an issuer exactly when it has three parts between dots and the middle one decodes to a payload with that nonempty issuer claim |
| Verifier.VerifyInMeans | internal/verifier/verifier.go:146-227 | Success: the issuer named by the raw token is in the table, an audience allowed, the fields the verified token's, the claims those of its payload, the bindings met. Failure: one of seven reasons, each with its cause |
| Verifier.EveryVerifiedIdentityComesOut | internal/verifier/verifier.go:146-194 | And conversely every such identity is the outcome of some map orders |
| Verifier.Verify | internal/verifier/verifier.go:146-194 | The method's outcome is the one determined by the map orders it met |
| Callout.CappedExpiry | internal/callout/callout.go:139-147 | One of the token's expiry and now plus the cap, and no later than either when a cap is set |
| Callout.Authorizer.constructor | internal/callout/callout.go:55-70 | The given verifier and policy are in service together |
| Callout.Authorizer.Reload | internal/callout/callout.go:75-77 | Verifier and policy are replaced together |
| Callout.BuildMeans | internal/config/config.go:136-182 | A configuration is put in service if and only if it decodes, its policy is accepted and its verifier builds, and then both say what it says |
| Callout.Authorizer.Authorize | internal/callout/callout.go:81-135 | The outcome is the answer of the ruleset found at the start, in one go; an unvalidated policy grants nothing |
| Callout.Authorizer.ReloadConfig | cmd/nats-oidc-callout/main.go:271-286 | Puts in service exactly what `Build` yields, both parts together, or leaves the ruleset in service untouched |
| CalloutProtocol.StepKeepsInv | internal/callout/callout.go:75-135 | Every computing step of a concurrent run, reloads included, keeps each request's intermediate results those of the one configuration it holds |
| CalloutProtocol.OutcomesAreAnswers | internal/callout/callout.go:81-135 | In every run with concurrent reloads a request has taken exactly the steps that lead to where it is, and each outcome is the answer that one configuration gives in one go to what those steps met |
| CalloutProtocol.RequestsWereReceived | internal/callout/callout.go:81-91 | In every run a request is for the token and the nkey it came with |
| CalloutProtocol.SignedAtItsTime | internal/callout/callout.go:121-123 | In every run a JWT's lifetime is counted from the time at which it was signed |
| CalloutProtocol.EveryIssuedJwtIsExplained | internal/callout/callout.go:81-147 | In every run an issued JWT is explained from the raw token on by one configuration: issuer, audience, bindings, first matching rule, account, permissions, the exact expiry and the guardrail |
| CalloutProtocol.EveryRefusalHasACause | internal/callout/callout.go:91-128 | In every run a refusal has its cause in the one configuration the request took and in what its own steps met: no token, a failed verification, no matching rule, or signing |
| CalloutProtocol.SnapshotWasCurrent | internal/callout/callout.go:86-88 | The configuration a request is answered from was the current one at the step at which the request took it |
| CalloutProtocol.OnlySuccessfulReloadsChangeService | cmd/nats-oidc-callout/main.go:271-286 | A reload adds one configuration to what is in service if and only if it loads and builds, and otherwise changes nothing at all; nothing else changes it |
| JsonText.StringRoundTrip | lib/awsauth/awsauth.go:422-423 | Reading an escaped string gives it back and leaves what follows, for every string |
| JsonText.EscapedIsSafe | lib/awsauth/awsauth.go:422-423 | No markup character, control or line separator stands in an escaped string |
| CacheFormat.KnownNames | lib/awsauth/awsauth.go:377-383 | Which keys of a file name its three members, letter by letter |
| JsonText.MembersNeedBraceAndQuote | lib/awsauth/awsauth.go:395-398 | A text that reads as an object with members has a brace and a quote in it |
| CacheFormat.EnvelopeRoundTrip | lib/awsauth/awsauth.go:377-398 | Decoding the text of an envelope, by a reader for any JSON object, gives the envelope back |
| CacheFormat.TrimSpaceIff | lib/awsauth/awsauth.go:402-405 | A nonempty trimmed token is the stored one less white space, listed by character, at its two ends |
| CacheFormat.HitMeans | lib/awsauth/awsauth.go:390-417 | A file is a hit if and only if it decodes to an entry of the current format and these credentials whose trimmed token lists the audience in its claims and whose expiry claim, in seconds, lies ahead; that instant is handed out with it |
| CacheFormat.StoredTokenIsReadBack | lib/awsauth/awsauth.go:390-449 | What a completed write stores is read back, trimmed, under the storing credential and no other, until it expires; a failed write leaves what was there |
| CacheFormat.EnvelopeIsNoToken | lib/awsauth/awsauth.go:371-375 | Read as a bare token every envelope is refused, for every token string inside it |
| CacheFormat.TokenIsNoEnvelope | lib/awsauth/awsauth.go:390-401 | Read as an envelope every bare compact JWT is a miss, since no entry with a version decodes from a text without brace and quote |
| TokenSource.TokenSource.ReadCache | lib/awsauth/awsauth.go:390-417 | The checks one by one yield exactly the token and expiry that the shared file holds for these credentials, audience and time; any problem is a miss |
| TokenSource.TokenSource.WriteCache | lib/awsauth/awsauth.go:422-449 | Whichever step fails the file keeps what it held and no temporary file stays; if all succeed it becomes the envelope of the token |
| TokenSource.TokenSource.BeginRefresh | lib/awsauth/awsauth.go:320-327 | Starts exactly when no refresh is marked, and leaves the mark set |
| TokenSource.TokenSource.BackgroundRefresh | lib/awsauth/awsauth.go:328-351 | Per exit path the last error and the file; on each the mark is down at the end |
| TokenSource.TokenSource.Token | lib/awsauth/awsauth.go:268-296 | A usable entry in the file: its token, file untouched, a refresh started exactly when its expiry claim is near and none is marked. No such entry: the minted token, stored under the credentials resolved at the start, or nothing touched when unresolved or failed |
| TokenCacheProtocol.StepKeepsInv | lib/awsauth/awsauth.go:268-351 | Every step of every caller, refresher and principal switch keeps the binding of file, callers and refreshers |
| TokenCacheProtocol.CacheEntriesAreBound | lib/awsauth/awsauth.go:298-313 | In every reachable state a current-format entry in the file holds a token minted with the key whose fingerprint it records |
| TokenCacheProtocol.CachedTokenIsTheCallersOwn | lib/awsauth/awsauth.go:268-296 | A token returned from the cache was minted under the key resolved in that same call, carries an expiry claim that lay ahead when it was read, and lists the audience |
| TokenCacheProtocol.KeyWasResolvedByTheCall | lib/awsauth/awsauth.go:302-313 | In every run the key a call ends up with, that of a cached token included, is what its provider yielded at the one step at which this call resolved its credentials |
| TokenCacheProtocol.UnresolvedCallsLeaveTheFileAlone | lib/awsauth/awsauth.go:268-296 | In no run does a call without resolved credentials or cache path read or write the file: minting is all it still does |
| TokenCacheProtocol.WritesAreEnvelopesOfMintedTokens | lib/awsauth/awsauth.go:354-449 | Whatever the library writes is the envelope of a token with the key that minted it |
| TokenCacheProtocol.AtMostOneRefresherPerSource | lib/awsauth/awsauth.go:320-336 | In every reachable state a source's flag is up exactly while it has an unfinished refresher, and it never has two |
| TokenCacheProtocol.RefresherAlwaysResets | lib/awsauth/awsauth.go:320-351 | In every run, however others are interleaved, a refresher has ended by its fourth own step, whatever its environment answers, and until then its next step is enabled |
| TokenCacheProtocol.GoneAfterReset | lib/awsauth/awsauth.go:328-336 | In every run a refresher that has ended lowered its source's flag at its last step |
| TokenCacheProtocol.NearExpiryHitRefreshes | lib/awsauth/awsauth.go:278-288 | A hit returns its token at once and starts a refresher exactly when it is near its expiry and none is at work |
| TokenCacheProtocol.CallsTakeTheirPath | lib/awsauth/awsauth.go:268-296 | In every run a call has taken exactly the steps that lead to where it is: resolve, look at the file, return what it yields, else mint, and store when resolved; it fails only if its minting did |
| TokenCacheProtocol.CallsEnd | lib/awsauth/awsauth.go:268-296 | A call that has not ended can go on whatever its environment answers, and has ended by its fourth step |
| TokenCacheProtocol.LooksDecide | lib/awsauth/awsauth.go:302-417 | A call works under a key exactly when caching is on and its provider yields one; the file is a hit exactly when it is readable and holds a usable entry for that key |
| TokenCacheProtocol.WritesStore | lib/awsauth/awsauth.go:422-449 | A completed write of a call or refresher stores its token as the entry of its key; a failed one changes nothing |
| TokenCacheProtocol.RefreshersTakeTheirPath | lib/awsauth/awsauth.go:320-351 | In every run a refresher has taken exactly the steps that lead to where it is; it goes without a write only if nothing was resolved or minted |
| TokenCacheProtocol.RefresherResolves | lib/awsauth/awsauth.go:337-342 | A refresher goes on to mint exactly when its provider yields a key, and then under that key |

## Left out

- Whole `VerifySignature` and `Token` calls under interference are sequences of protocol steps; the classes model the locked sections, and `Token` and `BackgroundRefresh` one call with nobody else at the file.
- Regex syntax outside the fragment: word boundaries, multi-line and case flags are left to the compiler parameter, so results about user-written regexes are about the expression it returns. Size limits show only as a refusal to compile.
- Exactness of user-written regexes on all subjects at once is shown for end-anchored expressions only, which not every exact expression is; for any expression the exact condition is given per subject (`Regex.ExactUnlessPreferenceFallsShort`).
- Sub-second shape of time: times are integers in nanoseconds, without Go's monotonic reading or `Duration` saturation.
- A token's payload is a member list as decoded (a duplicate key, which the decoder drops, is allowed); decoding payloads, YAML and strict decoding are not part of this model. The cache file's JSON is read from its text, without the decoder's nesting limit.
- Strings are character sequences; UTF-8 validity, byte offsets and the replacement of invalid UTF-8 are not modelled.
- File permissions, and a failing removal of the temporary file. In the protocol a write is one atomic replacement or nothing, as `TokenSource.WriteCache` is proved to make it.
- TokenCacheProtocol: another program may replace the file by anything that is not a current-format entry; forging entries of the current format is outside the claim, as is `lastErr`, which `TokenSource` covers.
- HTTP fetching, discovery, TLS setup, the STS call, nkeys signing, SHA-256 and signature cryptography: library code behind parameters.
- The other fields of the user JWT, and a callout without a user nkey: set by the JWT library or demanded by NATS.
- Config defaults and field checks other than the policy, issuers, audiences and algorithms: they can only make a load fail, which `decoded` covers.
- `warnUnreloadable` and the signal loop of `watchReloads`: they log and call `reloadConfig` in sequence.
- Metrics, the HTTP server, NATS connection lifecycle, `lib/k8sauth`, command-line tools, packaging: simple members or behaviour of libraries.
