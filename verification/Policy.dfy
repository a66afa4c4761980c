/** The ordered policy: validation compiles the rules and enforces the broad-rule guardrail,
    evaluation grants by the first rule that matches. */
module Policy {
  import opened Wrappers
  import opened Text
  import opened Regex
  import opened RegexSyntax
  import opened SubjectPattern
  import opened Identity

  datatype Permission = Permission(allow: seq<string>, deny: seq<string>)

  datatype Response = Response(max: int, ttl: int)

  datatype Grant = Grant(account: string, publish: Option<Permission>, subscribe: Option<Permission>,
                         response: Option<Response>, maxExpiry: int)

  datatype Match = Match(issuer: string, sub: string, claims: map<string, string>, expr: string, allowBroad: bool)

  /** `matcher` and `program` are written by validation; a program is identified by its expression. */
  datatype Rule = Rule(name: string, when: Match, grant: Grant, matcher: Option<Regex>, program: Option<string>)

  datatype Limits = Limits(pub: Permission, sub: Permission, response: Option<Response>)

  datatype RuleId = Named(name: string) | Numbered(index: nat)

  datatype Decision = Decision(rule: RuleId, account: string, limits: Limits, maxExpiry: int)

  datatype PolicyError =
    | NoRules
    | NoAccount(index: nat)
    | EmptyPermission(index: nat, publish: bool)
    | BadSub(index: nat, error: PatternError)
    | ExprNeedsAllowBroad(index: nat)
    | BadExpr(index: nat)
    | BroadRule(index: nat)

  datatype EvaluateError = NotValidated | NoRuleMatched

  /** What validation is linked with: the regular-expression compiler, and which CEL expressions
      compile to a boolean program. */
  datatype Engine = Engine(compileRegex: Compiler, celCompiles: string -> bool)

  /** One evaluation's CEL results; an error during evaluation reads as false. */
  type CelResults = (string, Identity) -> bool

  const ACCOUNT_CLAIM := "aws.aws_account"
  const GITHUB_PINS: set<string> := {"repository", "repository_id", "job_workflow_ref"}

  // ----- permissions -----

  predicate IsEmptyPermission(p: Option<Permission>) {
    p.Some? && p.value.allow == [] && p.value.deny == []
  }

  function JwtPermission(p: Option<Permission>): Permission {
    match p
    case None => Permission([], [">"])
    case Some(perm) => perm
  }

  function PermissionLimits(g: Grant): Limits {
    Limits(JwtPermission(g.publish), JwtPermission(g.subscribe), g.response)
  }

  // ----- pins -----

  predicate HasStrongPin(w: Match) {
    || SubIsExact(w.sub)
    || AccountPinnedInARN(w.sub)
    || (ACCOUNT_CLAIM in w.claims && IsAccountId(w.claims[ACCOUNT_CLAIM]))
    || exists k :: k in w.claims && k in GITHUB_PINS
  }

  // ----- matching -----

  predicate SubMatches(matcher: Option<Regex>, sub: string) {
    matcher.None? || Spans(matcher.value, sub)
  }

  predicate RuleMatches(r: Rule, id: Identity, cel: CelResults) {
    && (r.when.issuer == "" || r.when.issuer == id.issuer)
    && SubMatches(r.matcher, id.subject)
    && (forall k :: k in r.when.claims ==> k in id.claims && id.claims[k] == r.when.claims[k])
    && (r.program.Some? ==> cel(r.program.value, id))
  }

  predicate IsFirstMatch(rules: seq<Rule>, id: Identity, cel: CelResults, i: nat) {
    && i < |rules|
    && RuleMatches(rules[i], id, cel)
    && forall j :: 0 <= j < i ==> !RuleMatches(rules[j], id, cel)
  }

  function FirstMatchFrom(rules: seq<Rule>, id: Identity, cel: CelResults, n: nat): (i: Option<nat>)
    requires n <= |rules|
    requires forall j :: 0 <= j < n ==> !RuleMatches(rules[j], id, cel)
    ensures i.Some? ==> IsFirstMatch(rules, id, cel, i.value)
    ensures i.None? ==> forall j :: 0 <= j < |rules| ==> !RuleMatches(rules[j], id, cel)
    decreases |rules| - n
  {
    if n == |rules| then None
    else if RuleMatches(rules[n], id, cel) then Some(n)
    else FirstMatchFrom(rules, id, cel, n + 1)
  }

  /** The deciding rule; None when no rule matches. */
  function FirstMatch(rules: seq<Rule>, id: Identity, cel: CelResults): (i: Option<nat>)
    ensures i.Some? ==> IsFirstMatch(rules, id, cel, i.value)
    ensures i.None? <==> forall j :: 0 <= j < |rules| ==> !RuleMatches(rules[j], id, cel)
  {
    FirstMatchFrom(rules, id, cel, 0)
  }

  /** What an accepted policy decides. */
  function Decide(rules: seq<Rule>, id: Identity, cel: CelResults): Option<Decision> {
    var i := FirstMatch(rules, id, cel);
    if i.None? then None else Some(DecisionOf(rules[i.value], i.value))
  }

  function IdOf(r: Rule, i: nat): RuleId {
    if r.name != "" then Named(r.name) else Numbered(i)
  }

  // ----- validation -----

  /** What the policy file must say for its rule to be accepted; compiled fields play no part. */
  predicate Acceptable(r: Rule, e: Engine) {
    && r.grant.account != ""
    && !IsEmptyPermission(r.grant.publish) && !IsEmptyPermission(r.grant.subscribe)
    && SubMatcher(r.when.sub, e.compileRegex).Ok?
    && (r.when.expr != "" ==> r.when.allowBroad && e.celCompiles(r.when.expr))
    && (HasStrongPin(r.when) || r.when.allowBroad)
  }

  /** A rule without an expression keeps the program it had. */
  function Compiled(r: Rule, e: Engine): Rule
    requires Acceptable(r, e)
  {
    r.(matcher := SubMatcher(r.when.sub, e.compileRegex).value,
       program := if r.when.expr != "" then Some(r.when.expr) else r.program)
  }

  predicate AllAcceptable(rules: seq<Rule>, e: Engine) {
    rules != [] && forall i :: 0 <= i < |rules| ==> Acceptable(rules[i], e)
  }

  function CompiledAll(rules: seq<Rule>, e: Engine): seq<Rule>
    requires forall i :: 0 <= i < |rules| ==> Acceptable(rules[i], e)
  {
    seq(|rules|, i requires 0 <= i < |rules| => Compiled(rules[i], e))
  }

  ghost predicate CompiledFrom(rules: seq<Rule>, written: seq<Rule>, e: Engine) {
    && |rules| == |written| > 0
    && forall i :: 0 <= i < |rules| ==> Acceptable(written[i], e) && rules[i] == Compiled(written[i], e)
  }

  function GrantProblem(g: Grant, i: nat): Option<PolicyError> {
    if g.account == "" then Some(NoAccount(i))
    else if IsEmptyPermission(g.publish) then Some(EmptyPermission(i, true))
    else if IsEmptyPermission(g.subscribe) then Some(EmptyPermission(i, false))
    else None
  }

  /** The first reason, in the order of the checks, to refuse a rule. */
  function Problem(r: Rule, e: Engine, i: nat): (p: Option<PolicyError>)
    ensures p.None? <==> Acceptable(r, e)
  {
    var sub := SubMatcher(r.when.sub, e.compileRegex);
    if GrantProblem(r.grant, i).Some? then GrantProblem(r.grant, i)
    else if sub.Err? then Some(BadSub(i, sub.error))
    else if r.when.expr != "" && !r.when.allowBroad then Some(ExprNeedsAllowBroad(i))
    else if r.when.expr != "" && !e.celCompiles(r.when.expr) then Some(BadExpr(i))
    else if !HasStrongPin(r.when) && !r.when.allowBroad then Some(BroadRule(i))
    else None
  }

  // ----- acceptance written out -----

  predicate IsExactSub(sub: string) {
    sub != "" && !HasPrefix(sub, "re:") && '*' !in sub
  }

  /** A rule that names one subject, one AWS account, or one GitHub repository or workflow. */
  ghost predicate NamesOneIdentity(w: Match) {
    || IsExactSub(w.sub)
    || (!HasPrefix(w.sub, "re:") && NamesAccount(w.sub))
    || ("aws.aws_account" in w.claims && IsTwelveDigits(w.claims["aws.aws_account"]))
    || "repository" in w.claims || "repository_id" in w.claims || "job_workflow_ref" in w.claims
  }

  lemma StrongPinIff(w: Match)
    ensures HasStrongPin(w) <==> NamesOneIdentity(w)
  {
    AccountPinnedIff(w.sub);
    if ACCOUNT_CLAIM in w.claims {
      TwelveDigitsIff(w.claims[ACCOUNT_CLAIM]);
    }
    assert forall k :: k in GITHUB_PINS <==> k == "repository" || k == "repository_id" || k == "job_workflow_ref";
  }

  predicate MentionsSubjects(p: Option<Permission>) {
    p.None? || p.value.allow != [] || p.value.deny != []
  }

  predicate IsGrantComplete(g: Grant) {
    g.account != "" && MentionsSubjects(g.publish) && MentionsSubjects(g.subscribe)
  }

  predicate SubCompiles(sub: string, compile: Compiler) {
    || sub == ""
    || (if HasPrefix(sub, "re:") then HasPrefix(sub[3..], "^") && HasSuffix(sub[3..], "$") && compile(sub[3..]).Some?
        else compile("^" + GlobText(sub) + "$").Some?)
  }

  /** An expression needs allow_broad and a program; without one either allow_broad or one identity is needed. */
  ghost predicate IsNarrowOrConfirmed(w: Match, e: Engine) {
    if w.expr != "" then w.allowBroad && e.celCompiles(w.expr) else w.allowBroad || NamesOneIdentity(w)
  }

  lemma GrantCompleteIff(g: Grant)
    ensures IsGrantComplete(g) <==> g.account != "" && !IsEmptyPermission(g.publish) && !IsEmptyPermission(g.subscribe)
  {
  }

  lemma SubCompilesIff(sub: string, compile: Compiler)
    ensures SubCompiles(sub, compile) <==> SubMatcher(sub, compile).Ok?
  {
  }

  lemma AcceptableIff(r: Rule, e: Engine)
    ensures Acceptable(r, e) <==> IsAccepted(r, e)
  {
    GrantCompleteIff(r.grant);
    SubCompilesIff(r.when.sub, e.compileRegex);
    StrongPinIff(r.when);
  }

  ghost predicate IsAccepted(r: Rule, e: Engine) {
    IsGrantComplete(r.grant) && SubCompiles(r.when.sub, e.compileRegex) && IsNarrowOrConfirmed(r.when, e)
  }

  ghost predicate AreAccepted(rules: seq<Rule>, e: Engine) {
    rules != [] && forall r :: r in rules ==> IsAccepted(r, e)
  }

  lemma AllAcceptableIff(rules: seq<Rule>, e: Engine)
    ensures AllAcceptable(rules, e) <==> AreAccepted(rules, e)
  {
    forall r: Rule ensures Acceptable(r, e) <==> IsAccepted(r, e) {
      AcceptableIff(r, e);
    }
    if AllAcceptable(rules, e) {
      forall r | r in rules ensures Acceptable(r, e) {
        var k :| 0 <= k < |rules| && rules[k] == r;
      }
    } else if rules != [] {
      var k :| 0 <= k < |rules| && !Acceptable(rules[k], e);
      assert rules[k] in rules;
    }
  }

  /** A rule is refused as broad exactly when all else is in order, it carries no expression and no allow_broad,
      and names no one identity. */
  lemma BroadIff(r: Rule, e: Engine, i: nat)
    ensures Problem(r, e, i) == Some(BroadRule(i)) <==>
              && IsGrantComplete(r.grant) && SubCompiles(r.when.sub, e.compileRegex)
              && r.when.expr == "" && !r.when.allowBroad && !NamesOneIdentity(r.when)
  {
    GrantCompleteIff(r.grant);
    SubCompilesIff(r.when.sub, e.compileRegex);
    StrongPinIff(r.when);
  }

  /** The offending rule as a failed validation leaves it: compiled up to the failing check. */
  function LeftAs(r: Rule, e: Engine, problem: PolicyError): Rule {
    var sub := SubMatcher(r.when.sub, e.compileRegex);
    if sub.Err? || problem.NoAccount? || problem.EmptyPermission? then r
    else if problem.BroadRule? && r.when.expr != ""
      then r.(matcher := sub.value, program := Some(r.when.expr))
    else r.(matcher := sub.value)
  }

  /** The first `k` rules are compiled, the others as written. */
  ghost predicate CompiledUpTo(rules: seq<Rule>, written: seq<Rule>, e: Engine, k: nat) {
    && |rules| == |written| && k <= |rules|
    && (forall j :: 0 <= j < k ==> Acceptable(written[j], e) && rules[j] == Compiled(written[j], e))
    && (forall j :: k <= j < |rules| ==> rules[j] == written[j])
  }

  /** Rule `k` is the first one with a problem, and it alone is neither compiled nor as written. */
  ghost predicate StoppedAt(rules: seq<Rule>, written: seq<Rule>, e: Engine, k: nat, problem: PolicyError) {
    && |rules| == |written| && k < |rules|
    && Problem(written[k], e, k) == Some(problem) && rules[k] == LeftAs(written[k], e, problem)
    && CompiledUpTo(rules[k := written[k]], written, e, k)
  }

  lemma StopHere(before: seq<Rule>, rules: seq<Rule>, written: seq<Rule>, e: Engine, k: nat, problem: PolicyError)
    requires CompiledUpTo(before, written, e, k) && k < |written|
    requires Problem(written[k], e, k) == Some(problem)
    requires rules == before[k := LeftAs(written[k], e, problem)]
    ensures StoppedAt(rules, written, e, k, problem)
  {
    assert rules[k := written[k]] == before;
  }

  lemma GoOn(before: seq<Rule>, rules: seq<Rule>, written: seq<Rule>, e: Engine, k: nat)
    requires CompiledUpTo(before, written, e, k) && k < |written| && Acceptable(written[k], e)
    requires rules == before[k := Compiled(written[k], e)]
    ensures CompiledUpTo(rules, written, e, k + 1)
  {
  }

  class Policy {
    var rules: seq<Rule>
    var validated: bool

    constructor (rules: seq<Rule>)
      ensures this.rules == rules && !validated
    {
      this.rules := rules;
      validated := false;
    }

    /** Accepts exactly the nonempty lists of acceptable rules. A failure names the first problem of the first
        offending rule, and leaves the rules before it compiled and those after it untouched. */
    method Validate(e: Engine) returns (error: Option<PolicyError>)
      modifies this
      ensures error.None? <==> AllAcceptable(old(rules), e)
      ensures error.None? <==> AreAccepted(old(rules), e)
      ensures error.None? ==> validated && CompiledFrom(rules, old(rules), e)
      ensures error.Some? ==> validated == old(validated)
      ensures error == Some(NoRules) <==> old(rules) == []
      ensures error == Some(NoRules) ==> rules == []
      ensures error.Some? && old(rules) != [] ==> exists k :: StoppedAt(rules, old(rules), e, k, error.value)
    {
      if rules == [] {
        return Some(NoRules);
      }
      ghost var written := rules;
      AllAcceptableIff(rules, e);
      for i := 0 to |rules|
        invariant validated == old(validated)
        invariant CompiledUpTo(rules, written, e, i)
      {
        ghost var before := rules;
        var r := rules[i];
        error := ValidateGrant(r.grant, i);
        if error.Some? {
          StopHere(before, rules, written, e, i, error.value);
          return;
        }
        var re := CompileSub(r.when.sub, e.compileRegex);
        if re.Err? {
          StopHere(before, rules, written, e, i, BadSub(i, re.error));
          return Some(BadSub(i, re.error));
        }
        rules := rules[i := rules[i].(matcher := re.value)];
        if r.when.expr != "" {
          if !r.when.allowBroad {
            StopHere(before, rules, written, e, i, ExprNeedsAllowBroad(i));
            return Some(ExprNeedsAllowBroad(i));
          }
          if !e.celCompiles(r.when.expr) {
            StopHere(before, rules, written, e, i, BadExpr(i));
            return Some(BadExpr(i));
          }
          rules := rules[i := rules[i].(program := Some(r.when.expr))];
        }
        if !HasStrongPin(r.when) && !r.when.allowBroad {
          StopHere(before, rules, written, e, i, BroadRule(i));
          return Some(BroadRule(i));
        }
        GoOn(before, rules, written, e, i);
      }
      validated := true;
      error := None;
    }

    /** The lowest-index matching rule decides; an unvalidated policy decides nothing. */
    method Evaluate(id: Identity, cel: CelResults) returns (decision: Result<Decision, EvaluateError>)
      ensures !validated ==> decision == Err(NotValidated)
      ensures validated && Decide(rules, id, cel).Some? ==> decision == Ok(Decide(rules, id, cel).value)
      ensures validated && Decide(rules, id, cel).None? ==> decision == Err(NoRuleMatched)
    {
      if !validated {
        return Err(NotValidated);
      }
      for i := 0 to |rules|
        invariant forall j :: 0 <= j < i ==> !RuleMatches(rules[j], id, cel)
      {
        if RuleMatches(rules[i], id, cel) {
          FirstMatchIsUnique(rules, id, cel, i);
          return Ok(DecisionOf(rules[i], i));
        }
      }
      return Err(NoRuleMatched);
    }
  }

  lemma FirstMatchIsUnique(rules: seq<Rule>, id: Identity, cel: CelResults, i: nat)
    requires IsFirstMatch(rules, id, cel, i)
    ensures FirstMatch(rules, id, cel) == Some(i)
  {
  }

  /** A grant passes exactly when it names an account and leaves no direction that it mentions empty;
      the account is looked at first, then publish, then subscribe. */
  method ValidateGrant(g: Grant, i: nat) returns (error: Option<PolicyError>)
    ensures error == GrantProblem(g, i)
    ensures error.None? <==> g.account != "" && !IsEmptyPermission(g.publish) && !IsEmptyPermission(g.subscribe)
  {
    if g.account == "" {
      return Some(NoAccount(i));
    }
    if IsEmptyPermission(g.publish) {
      return Some(EmptyPermission(i, true));
    }
    if IsEmptyPermission(g.subscribe) {
      return Some(EmptyPermission(i, false));
    }
    return None;
  }

  function DecisionOf(r: Rule, i: nat): Decision {
    Decision(IdOf(r, i), r.grant.account, PermissionLimits(r.grant), r.grant.maxExpiry)
  }

  // ----- the guardrail -----

  /** The identity carries the claim with the value the rule requires. */
  predicate HasRequired(w: Match, id: Identity, claim: string) {
    claim in w.claims && claim in id.claims && id.claims[claim] == w.claims[claim]
  }

  /** The identity is the one the rule names: by its whole subject, by the account in its subject's fifth field,
      or by the value of one of four claims. */
  ghost predicate IdentityIsFixed(w: Match, id: Identity) {
    || (IsExactSub(w.sub) && id.subject == w.sub)
    || (exists a, b, c, d, e ::
          && AreLiteralFields(a, b, c, d) && IsTwelveDigits(e)
          && StartsWithFields(w.sub, a, b, c, d, e) && StartsWithFields(id.subject, a, b, c, d, e))
    || ("aws.aws_account" in w.claims && IsTwelveDigits(w.claims["aws.aws_account"])
        && HasRequired(w, id, "aws.aws_account"))
    || HasRequired(w, id, "repository") || HasRequired(w, id, "repository_id")
    || HasRequired(w, id, "job_workflow_ref")
  }

  lemma PinFixesIdentity(r: Rule, e: Engine, id: Identity, cel: CelResults)
    requires Faithful(e.compileRegex)
    requires SubMatcher(r.when.sub, e.compileRegex) == Ok(r.matcher)
    requires HasStrongPin(r.when) && RuleMatches(r, id, cel)
    ensures IdentityIsFixed(r.when, id)
  {
    var w := r.when;
    if SubIsExact(w.sub) {
      GlobCompilerPreservesMeaning(w.sub, e.compileRegex, id.subject);
      ExactGlobMatchesItself(w.sub, id.subject);
    } else if AccountPinnedInARN(w.sub) {
      PinnedARNIsSound(w.sub, e.compileRegex, id.subject);
      PinnedSubjectFixed(w.sub, e.compileRegex, id.subject);
    } else {
      ClaimPinFixes(w, id);
    }
  }

  lemma ClaimPinFixes(w: Match, id: Identity)
    requires HasStrongPin(w) && !SubIsExact(w.sub) && !AccountPinnedInARN(w.sub)
    requires forall k :: k in w.claims ==> k in id.claims && id.claims[k] == w.claims[k]
    ensures IdentityIsFixed(w, id)
  {
    if ACCOUNT_CLAIM in w.claims && IsAccountId(w.claims[ACCOUNT_CLAIM]) {
      TwelveDigitsIff(w.claims[ACCOUNT_CLAIM]);
      assert HasRequired(w, id, "aws.aws_account");
    } else {
      var k :| k in w.claims && k in GITHUB_PINS;
      assert HasRequired(w, id, k);
      assert k == "repository" || k == "repository_id" || k == "job_workflow_ref";
    }
  }

  /** MAIN: in an accepted policy, a deciding rule without allow_broad fixes the identity, and no
      expression takes part in it. */
  lemma Guardrail(rules: seq<Rule>, written: seq<Rule>, e: Engine, id: Identity, cel: CelResults, i: nat)
    requires Faithful(e.compileRegex) && CompiledFrom(rules, written, e)
    requires IsFirstMatch(rules, id, cel, i) && !rules[i].when.allowBroad
    ensures IdentityIsFixed(written[i].when, id)
    ensures written[i].when.expr == "" && rules[i].program == written[i].program
  {
    PinFixesIdentity(rules[i], e, id, cel);
  }

  /** The subject test in terms of what is written: nothing, a glob, or a regular expression. */
  ghost predicate SubAccepts(pattern: string, compile: Compiler, sub: string) {
    || pattern == ""
    || (!IsRegexPattern(pattern) && GlobMatches(pattern, sub))
    || (IsRegexPattern(pattern) && compile(pattern[3..]).Some? && Spans(compile(pattern[3..]).value, sub))
  }

  /** MAIN: a freshly decoded rule, once compiled, matches exactly the identities its text describes. */
  lemma CompiledRuleMeansItsText(written: Rule, e: Engine, id: Identity, cel: CelResults)
    requires Faithful(e.compileRegex) && Acceptable(written, e) && written.program.None?
    ensures RuleMatches(Compiled(written, e), id, cel) <==>
              && (written.when.issuer == "" || written.when.issuer == id.issuer)
              && SubAccepts(written.when.sub, e.compileRegex, id.subject)
              && (forall k :: k in written.when.claims ==> k in id.claims && id.claims[k] == written.when.claims[k])
              && (written.when.expr != "" ==> cel(written.when.expr, id))
  {
    var sub := written.when.sub;
    if sub != "" && !IsRegexPattern(sub) {
      GlobCompilerPreservesMeaning(sub, e.compileRegex, id.subject);
    }
  }

  /** A regex sub never pins, whatever its text; with no other pin its rule needs allow_broad. */
  lemma RegexSubNeverPins(r: Rule, e: Engine)
    requires IsRegexPattern(r.when.sub) && Acceptable(r, e) && !r.when.allowBroad
    ensures || (ACCOUNT_CLAIM in r.when.claims && IsAccountId(r.when.claims[ACCOUNT_CLAIM]))
            || exists k :: k in r.when.claims && k in GITHUB_PINS
  {
  }

  predicate Restricts(p: Permission) {
    p.allow != [] || p.deny != []
  }

  /** What one direction of a rule may turn into: what is written, or a denial of everything when nothing is. */
  predicate Realizes(p: Permission, written: Option<Permission>) {
    if written.Some? then p == written.value else p == Permission([], [">"])
  }

  /** NATS reads an empty permission as unrestricted, and an accepted policy never decides on one: each
      direction of whatever it decides realizes what its first matching rule says, and restricts. */
  lemma NoEmptyPermissionIsEmitted(rules: seq<Rule>, written: seq<Rule>, e: Engine, id: Identity, cel: CelResults)
    requires CompiledFrom(rules, written, e) && Decide(rules, id, cel).Some?
    ensures exists i: nat :: IsFirstMatch(rules, id, cel, i) && DecidesFor(Decide(rules, id, cel).value, written[i], i)
  {
    var i := FirstMatch(rules, id, cel).value;
    LimitsAreEmittedFor(rules, written, e, i);
    assert IsFirstMatch(rules, id, cel, i);
  }

  /** The decision names the rule and hands out what its grant says. */
  predicate DecidesFor(d: Decision, written: Rule, i: nat) {
    && d.rule == (if written.name == "" then Numbered(i) else Named(written.name))
    && d.account == written.grant.account && d.maxExpiry == written.grant.maxExpiry
    && EmittedFor(d.limits, written.grant)
  }

  predicate EmittedFor(limits: Limits, written: Grant) {
    && Restricts(limits.pub) && Restricts(limits.sub)
    && Realizes(limits.pub, written.publish) && Realizes(limits.sub, written.subscribe)
    && limits.response == written.response
  }

  lemma LimitsAreEmittedFor(rules: seq<Rule>, written: seq<Rule>, e: Engine, i: nat)
    requires CompiledFrom(rules, written, e) && i < |rules|
    ensures EmittedFor(PermissionLimits(rules[i].grant), written[i].grant)
  {
    assert Acceptable(written[i], e);
  }

  /** Loading validates a policy file once on its own and again with the configuration: the second
      time accepts it again and changes nothing. */
  lemma RevalidationIsIdentity(rules: seq<Rule>, written: seq<Rule>, e: Engine)
    requires CompiledFrom(rules, written, e)
    ensures CompiledFrom(rules, rules, e)
  {
    forall i | 0 <= i < |rules| ensures Acceptable(rules[i], e) && rules[i] == Compiled(rules[i], e) {
      assert Acceptable(written[i], e);
      assert rules[i].when == written[i].when && rules[i].grant == written[i].grant;
    }
  }
}
