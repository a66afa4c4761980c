/** Any number of concurrent authorizations while the configuration is reloaded under them. A step is one
    atomic load or store of the ruleset, or one stage of one request computing on the ruleset it holds. */
module CalloutProtocol {
  import opened Wrappers
  import opened Regex
  import opened RegexSyntax
  import opened Json
  import opened Identity
  import opened Policy
  import opened Verifier
  import opened Callout

  /** What does not change while the service runs: the compilers, and how tokens are decoded. */
  datatype World = World(engine: Engine, reader: Reader)

  /** `h` is the configuration a request took; `Issued` and `Refused` are its outcomes. */
  datatype PC =
    | Received
    | Holding(h: nat)
    | Verified(h: nat, oidc: Oidc, walk: Walk, id: Identity)
    | Decided(h: nat, oidc: Oidc, walk: Walk, id: Identity, cel: CelResults, decision: Decision)
    | Issued(h: nat, env: Surroundings, jwt: UserClaims)
    | Refused(h: nat, why: Why)

  datatype Request = Request(rawToken: string, nkey: string, pc: PC)

  /** `history` lists every configuration put in service; the last one is current. */
  datatype State = State(now: int, history: seq<Loaded>, requests: seq<Request>)

  datatype Action =
    | Tick(d: nat)
    | Receive(rawToken: string, nkey: string)
    | Reload(decoded: Option<Settings>, discovers: string -> bool)
    | Load(q: nat)
    | Check(q: nat, oidc: Oidc, walk: Walk)
    | Evaluate(q: nat, cel: CelResults)
    | Sign(q: nat, encodes: bool)

  /** -1 before a request took a configuration. */
  function HeldBy(pc: PC): int {
    if pc.Received? then -1 else pc.h
  }

  predicate Sound(s: State) {
    && s.history != []
    && forall q :: 0 <= q < |s.requests| ==> HeldBy(s.requests[q].pc) < |s.history|
  }

  /** The OIDC library hands back a token only as one of the issuer it was set up for. */
  ghost predicate ChecksIssuer(oidc: Oidc) {
    forall u :: oidc(u).Some? ==> oidc(u).value.issuer == u
  }

  ghost predicate Enabled(w: World, s: State, a: Action)
    requires Sound(s)
  {
    match a
    case Load(q) => q < |s.requests| && s.requests[q].pc.Received?
    case Check(q, oidc, walk) =>
      && q < |s.requests| && s.requests[q].pc.Holding?
      && ChecksIssuer(oidc)
      && FitsVerification(walk, s.history[s.requests[q].pc.h].verifier, s.requests[q].rawToken, w.reader, oidc)
    case Evaluate(q, _) => q < |s.requests| && s.requests[q].pc.Verified?
    case Sign(q, _) => q < |s.requests| && s.requests[q].pc.Decided?
    case _ => true
  }

  /** Where a request's own step takes it. */
  ghost function OwnPC(w: World, s: State, a: Action): PC
    requires Sound(s) && Enabled(w, s, a)
    requires a.Load? || a.Check? || a.Evaluate? || a.Sign?
  {
    var x := s.requests[a.q];
    match a
    case Load(_) =>
      var h := |s.history| - 1;
      if x.rawToken == "" then Refused(h, NoToken) else Holding(h)
    case Check(_, oidc, walk) =>
      (match VerifyIn(s.history[x.pc.h].verifier, x.rawToken, w.reader, oidc, walk)
       case Err(error) => Refused(x.pc.h, NotVerified(error))
       case Ok(id) => Verified(x.pc.h, oidc, walk, id))
    case Evaluate(_, cel) =>
      (match Decide(s.history[x.pc.h].rules, x.pc.id, cel)
       case None => Refused(x.pc.h, NoRule)
       case Some(d) => Decided(x.pc.h, x.pc.oidc, x.pc.walk, x.pc.id, cel, d))
    case Sign(_, encodes) =>
      if !encodes then Refused(x.pc.h, NotSigned)
      else Issued(x.pc.h, Surroundings(x.pc.oidc, x.pc.walk, x.pc.cel, s.now, true),
                  UserClaimsFor(x.nkey, x.pc.id, x.pc.decision, s.now))
  }

  ghost function Next(w: World, s: State, a: Action): State
    requires Sound(s) && Enabled(w, s, a)
  {
    match a
    case Tick(d) => s.(now := s.now + d)
    case Receive(rawToken, nkey) => s.(requests := s.requests + [Request(rawToken, nkey, Received)])
    case Reload(decoded, discovers) =>
      (match Build(decoded, w.engine, discovers)
       case None => s
       case Some(l) => s.(history := s.history + [l]))
    case _ => s.(requests := s.requests[a.q := s.requests[a.q].(pc := OwnPC(w, s, a))])
  }

  // ----- invariants -----

  ghost predicate VerifiedBy(w: World, l: Loaded, rawToken: string, oidc: Oidc, walk: Walk, id: Identity) {
    && rawToken != "" && ChecksIssuer(oidc)
    && FitsVerification(walk, l.verifier, rawToken, w.reader, oidc)
    && VerifyIn(l.verifier, rawToken, w.reader, oidc, walk) == Ok(id)
  }

  /** In these surroundings this is what the configuration answers. */
  ghost predicate Answers(w: World, l: Loaded, x: Request, env: Surroundings, answer: Result<UserClaims, Why>) {
    && ChecksIssuer(env.oidc)
    && FitsVerification(env.walk, l.verifier, x.rawToken, w.reader, env.oidc)
    && Answer(l.verifier, l.rules, x.rawToken, x.nkey, w.reader, env) == answer
  }

  ghost predicate RequestInv(w: World, history: seq<Loaded>, now: int, x: Request)
    requires HeldBy(x.pc) < |history|
  {
    match x.pc
    case Received => true
    case Holding(_) => x.rawToken != ""
    case Verified(h, oidc, walk, id) => VerifiedBy(w, history[h], x.rawToken, oidc, walk, id)
    case Decided(h, oidc, walk, id, cel, d) =>
      VerifiedBy(w, history[h], x.rawToken, oidc, walk, id) && Decide(history[h].rules, id, cel) == Some(d)
    case Issued(h, env, jwt) => env.now <= now && Answers(w, history[h], x, env, Ok(jwt))
    case Refused(h, why) => exists env :: Answers(w, history[h], x, env, Err(why))
  }

  ghost predicate Inv(w: World, s: State) {
    && Sound(s)
    && (forall h :: 0 <= h < |s.history| ==> InService(w.engine, s.history[h]))
    && forall q :: 0 <= q < |s.requests| ==> RequestInv(w, s.history, s.now, s.requests[q])
  }

  /** What a request computed stays true of the configuration it holds, whatever is reloaded meanwhile. */
  lemma RequestInvStays(w: World, history: seq<Loaded>, more: seq<Loaded>, now: int, later: int, x: Request)
    requires HeldBy(x.pc) < |history| && history <= more && now <= later
    requires RequestInv(w, history, now, x)
    ensures RequestInv(w, more, later, x)
  {
    if x.pc.Refused? {
      var env :| Answers(w, history[x.pc.h], x, env, Err(x.pc.why));
      assert Answers(w, more[x.pc.h], x, env, Err(x.pc.why));
    }
  }

  lemma OwnStepKeepsRequestInv(w: World, s: State, a: Action)
    requires Inv(w, s) && Enabled(w, s, a)
    requires a.Load? || a.Check? || a.Evaluate? || a.Sign?
    ensures HeldBy(OwnPC(w, s, a)) < |s.history|
    ensures RequestInv(w, s.history, s.now, s.requests[a.q].(pc := OwnPC(w, s, a)))
  {
    var x := s.requests[a.q];
    var y := x.(pc := OwnPC(w, s, a));
    assert RequestInv(w, s.history, s.now, x);
    if y.pc.Refused? {
      var env := RefusedIn(w, s, a);
      assert Answers(w, s.history[y.pc.h], y, env, Err(y.pc.why));
    }
  }

  /** The surroundings are those of this step and of the earlier ones it builds on. */
  ghost predicate IsMetAt(s: State, a: Action, env: Surroundings) {
    match a
    case Check(_, oidc, walk) => env.oidc == oidc && env.walk == walk
    case Evaluate(q, cel) =>
      q < |s.requests| && s.requests[q].pc.Verified?
      && env.oidc == s.requests[q].pc.oidc && env.walk == s.requests[q].pc.walk && env.cel == cel
    case Sign(q, encodes) =>
      q < |s.requests| && s.requests[q].pc.Decided?
      && env.oidc == s.requests[q].pc.oidc && env.walk == s.requests[q].pc.walk && env.cel == s.requests[q].pc.cel
      && env.encodes == encodes
    case _ => true
  }

  /** Surroundings in which the configuration refuses just so. */
  lemma RefusedIn(w: World, s: State, a: Action) returns (env: Surroundings)
    requires Inv(w, s) && Enabled(w, s, a)
    requires (a.Load? || a.Check? || a.Evaluate? || a.Sign?) && OwnPC(w, s, a).Refused?
    ensures OwnPC(w, s, a).h < |s.history|
    ensures Answers(w, s.history[OwnPC(w, s, a).h], s.requests[a.q], env, Err(OwnPC(w, s, a).why))
    ensures IsMetAt(s, a, env)
  {
    var x, never := s.requests[a.q], (expr: string, id: Identity) => false;
    assert RequestInv(w, s.history, s.now, x);
    match a
    case Load(_) =>
      var silent: Oidc := u => None;
      var walk := SomeWalkFitsVerification(s.history[|s.history| - 1].verifier, x.rawToken, w.reader, silent);
      env := Surroundings(silent, walk, never, s.now, true);
    case Check(_, oidc, walk) => env := Surroundings(oidc, walk, never, s.now, true);
    case Evaluate(_, cel) => env := Surroundings(x.pc.oidc, x.pc.walk, cel, s.now, true);
    case Sign(_, _) => env := Surroundings(x.pc.oidc, x.pc.walk, x.pc.cel, s.now, false);
  }

  lemma StepKeepsInv(w: World, s: State, a: Action)
    requires Inv(w, s) && Enabled(w, s, a)
    ensures Inv(w, Next(w, s, a))
  {
    var t := Next(w, s, a);
    if a.Reload? {
      BuildMeans(a.decoded, w.engine, a.discovers);
    }
    forall q | 0 <= q < |t.requests|
      ensures HeldBy(t.requests[q].pc) < |t.history| && RequestInv(w, t.history, t.now, t.requests[q])
    {
      if q < |s.requests| && t.requests[q] == s.requests[q] {
        RequestInvStays(w, s.history, t.history, s.now, t.now, s.requests[q]);
      } else if !a.Receive? {
        OwnStepKeepsRequestInv(w, s, a);
      }
    }
  }

  // ----- runs -----

  ghost predicate Legal(w: World, s: State, run: seq<Action>)
    decreases |run|
  {
    && Sound(s)
    && (run != [] ==> Enabled(w, s, run[0]) && Legal(w, Next(w, s, run[0]), run[1..]))
  }

  ghost function Exec(w: World, s: State, run: seq<Action>): State
    requires Legal(w, s, run)
    decreases |run|
  {
    if run == [] then s else Exec(w, Next(w, s, run[0]), run[1..])
  }

  /** The service starts with the one configuration it loaded and no request. */
  ghost predicate Init(w: World, s: State) {
    && |s.history| == 1 && s.requests == []
    && exists decoded, discovers :: Build(decoded, w.engine, discovers) == Some(s.history[0])
  }

  lemma {:induction false} RunKeepsInv(w: World, s: State, run: seq<Action>)
    requires Inv(w, s) && Legal(w, s, run)
    ensures Inv(w, Exec(w, s, run))
    decreases |run|
  {
    if run != [] {
      StepKeepsInv(w, s, run[0]);
      RunKeepsInv(w, Next(w, s, run[0]), run[1..]);
    }
  }

  lemma RunsKeepInv(w: World, start: State, run: seq<Action>)
    requires Init(w, start) && Legal(w, start, run)
    ensures Inv(w, Exec(w, start, run))
  {
    var decoded, discovers :| Build(decoded, w.engine, discovers) == Some(start.history[0]);
    BuildMeans(decoded, w.engine, discovers);
    RunKeepsInv(w, start, run);
  }

  lemma {:induction false} LastStep(w: World, s: State, run: seq<Action>)
    requires Legal(w, s, run) && run != []
    ensures var n := |run| - 1;
            && Legal(w, s, run[..n]) && Sound(Exec(w, s, run[..n])) && Enabled(w, Exec(w, s, run[..n]), run[n])
            && Exec(w, s, run) == Next(w, Exec(w, s, run[..n]), run[n])
    decreases |run|
  {
    var n := |run| - 1;
    if n > 0 {
      LastStep(w, Next(w, s, run[0]), run[1..]);
      assert run[1..][..n - 1] == run[..n][1..];
    } else {
      assert run[..0] == [] && run[1..] == [];
    }
  }

  // ----- the steps a request took -----

  predicate IsOwn(a: Action, q: nat) {
    (a.Load? || a.Check? || a.Evaluate? || a.Sign?) && a.q == q
  }

  /** A request's own steps in a run, in order. */
  ghost function ByRequest(run: seq<Action>, q: nat): seq<Action> {
    if run == [] then []
    else
      var n := |run| - 1;
      ByRequest(run[..n], q) + if IsOwn(run[n], q) then [run[n]] else []
  }

  /** The steps of a request that ended so met just these surroundings. */
  ghost predicate MetBy(steps: seq<Action>, q: nat, env: Surroundings, outcome: Result<UserClaims, Why>) {
    var all := [Load(q), Check(q, env.oidc, env.walk), Evaluate(q, env.cel), Sign(q, env.encodes)];
    match outcome
    case Ok(_) => steps == all
    case Err(NoToken) => steps == all[..1]
    case Err(NotVerified(_)) => steps == all[..2]
    case Err(NoRule) => steps == all[..3]
    case Err(NotSigned) => steps == all
  }

  function OutcomeOf(pc: PC): Result<UserClaims, Why>
    requires pc.Issued? || pc.Refused?
  {
    if pc.Issued? then Ok(pc.jwt) else Err(pc.why)
  }

  /** An outcome is the answer, in the surroundings that the request's own steps met, of the configuration
      it took. */
  ghost predicate Justified(w: World, history: seq<Loaded>, steps: seq<Action>, q: nat, x: Request)
    requires HeldBy(x.pc) < |history|
  {
    match x.pc
    case Received => steps == []
    case Holding(_) => steps == [Load(q)]
    case Verified(_, oidc, walk, _) => steps == [Load(q), Check(q, oidc, walk)]
    case Decided(_, oidc, walk, _, cel, _) => steps == [Load(q), Check(q, oidc, walk), Evaluate(q, cel)]
    case _ =>
      exists env :: Answers(w, history[x.pc.h], x, env, OutcomeOf(x.pc)) && MetBy(steps, q, env, OutcomeOf(x.pc))
                    && (x.pc.Issued? ==> env == x.pc.env)
  }

  lemma JustifiedStays(w: World, history: seq<Loaded>, more: seq<Loaded>, steps: seq<Action>, q: nat, x: Request)
    requires HeldBy(x.pc) < |history| && history <= more && Justified(w, history, steps, q, x)
    ensures Justified(w, more, steps, q, x)
  {
  }

  lemma OwnStepJustifies(w: World, s: State, a: Action, q: nat, steps: seq<Action>)
    requires Inv(w, s) && Enabled(w, s, a) && IsOwn(a, q) && q < |s.requests|
    requires Justified(w, s.history, steps, q, s.requests[q])
    ensures HeldBy(OwnPC(w, s, a)) < |s.history|
    ensures Justified(w, s.history, steps + [a], q, s.requests[q].(pc := OwnPC(w, s, a)))
  {
    if OwnPC(w, s, a).Refused? {
      RefusalIsJustified(w, s, a, q, steps);
    } else if OwnPC(w, s, a).Issued? {
      IssueIsJustified(w, s, a, q, steps);
    } else {
      AdvanceIsJustified(w, s, a, q, steps);
    }
  }

  lemma AdvanceIsJustified(w: World, s: State, a: Action, q: nat, steps: seq<Action>)
    requires Inv(w, s) && Enabled(w, s, a) && IsOwn(a, q) && q < |s.requests|
    requires Justified(w, s.history, steps, q, s.requests[q])
    requires !OwnPC(w, s, a).Refused? && !OwnPC(w, s, a).Issued?
    ensures HeldBy(OwnPC(w, s, a)) < |s.history|
    ensures Justified(w, s.history, steps + [a], q, s.requests[q].(pc := OwnPC(w, s, a)))
  {
  }

  lemma RefusalIsJustified(w: World, s: State, a: Action, q: nat, steps: seq<Action>)
    requires Inv(w, s) && Enabled(w, s, a) && IsOwn(a, q) && q < |s.requests|
    requires Justified(w, s.history, steps, q, s.requests[q]) && OwnPC(w, s, a).Refused?
    ensures HeldBy(OwnPC(w, s, a)) < |s.history|
    ensures Justified(w, s.history, steps + [a], q, s.requests[q].(pc := OwnPC(w, s, a)))
  {
    var y := s.requests[q].(pc := OwnPC(w, s, a));
    var env := RefusedIn(w, s, a);
    RefusalIsMet(w, s, a, q, steps, env);
    assert OutcomeOf(y.pc) == Err(y.pc.why);
    assert Answers(w, s.history[y.pc.h], y, env, OutcomeOf(y.pc));
    assert MetBy(steps + [a], q, env, OutcomeOf(y.pc));
  }

  lemma IssueIsJustified(w: World, s: State, a: Action, q: nat, steps: seq<Action>)
    requires Inv(w, s) && Enabled(w, s, a) && IsOwn(a, q) && q < |s.requests|
    requires Justified(w, s.history, steps, q, s.requests[q]) && OwnPC(w, s, a).Issued?
    ensures HeldBy(OwnPC(w, s, a)) < |s.history|
    ensures Justified(w, s.history, steps + [a], q, s.requests[q].(pc := OwnPC(w, s, a)))
  {
    var y := s.requests[q].(pc := OwnPC(w, s, a));
    OwnStepKeepsRequestInv(w, s, a);
    assert Answers(w, s.history[y.pc.h], y, y.pc.env, OutcomeOf(y.pc));
    assert MetBy(steps + [a], q, y.pc.env, OutcomeOf(y.pc));
  }

  lemma RefusalIsMet(w: World, s: State, a: Action, q: nat, steps: seq<Action>, env: Surroundings)
    requires Inv(w, s) && Enabled(w, s, a) && IsOwn(a, q) && q < |s.requests|
    requires Justified(w, s.history, steps, q, s.requests[q]) && OwnPC(w, s, a).Refused?
    requires IsMetAt(s, a, env)
    ensures MetBy(steps + [a], q, env, Err(OwnPC(w, s, a).why))
  {
  }

  /** MAIN: whatever is reloaded while a request is under way, its outcome is the answer that the one
      configuration it took gives in one go, to what the request's own steps met. */
  lemma {:induction false} OutcomesAreAnswers(w: World, start: State, run: seq<Action>, q: nat)
    requires Init(w, start) && Legal(w, start, run)
    ensures Sound(Exec(w, start, run))
    ensures var s := Exec(w, start, run);
            if q < |s.requests| then Justified(w, s.history, ByRequest(run, q), q, s.requests[q])
            else ByRequest(run, q) == []
    decreases |run|
  {
    RunsKeepInv(w, start, run);
    if run != [] {
      var n := |run| - 1;
      LastStep(w, start, run);
      RunsKeepInv(w, start, run[..n]);
      OutcomesAreAnswers(w, start, run[..n], q);
      JustificationGoesOn(w, Exec(w, start, run[..n]), run[n], q, ByRequest(run[..n], q));
    }
  }

  lemma JustificationGoesOn(w: World, s: State, a: Action, q: nat, steps: seq<Action>)
    requires Inv(w, s) && Enabled(w, s, a) && Inv(w, Next(w, s, a))
    requires if q < |s.requests| then Justified(w, s.history, steps, q, s.requests[q]) else steps == []
    ensures var t, more := Next(w, s, a), steps + if IsOwn(a, q) then [a] else [];
            if q < |t.requests| then Justified(w, t.history, more, q, t.requests[q]) else more == []
  {
    assert steps + [] == steps;
    if IsOwn(a, q) {
      OwnStepJustifies(w, s, a, q, steps);
    } else if q < |s.requests| {
      JustifiedStays(w, s.history, Next(w, s, a).history, steps, q, s.requests[q]);
    }
  }

  /** A request is for the token and the nkey it came with. */
  lemma {:induction false} RequestsWereReceived(w: World, s: State, run: seq<Action>, q: nat)
    requires Legal(w, s, run) && q >= |s.requests| && q < |Exec(w, s, run).requests|
    ensures Receive(Exec(w, s, run).requests[q].rawToken, Exec(w, s, run).requests[q].nkey) in run
    decreases |run|
  {
    var n := |run| - 1;
    LastStep(w, s, run);
    assert run == run[..n] + [run[n]];
    if q < |Exec(w, s, run[..n]).requests| {
      RequestsWereReceived(w, s, run[..n], q);
    }
  }

  /** A JWT's lifetime is counted from the time at which it was signed. */
  lemma {:induction false} SignedAtItsTime(w: World, s: State, run: seq<Action>, q: nat) returns (k: nat)
    requires Legal(w, s, run)
    requires q >= |s.requests| || !s.requests[q].pc.Issued?
    requires q < |Exec(w, s, run).requests| && Exec(w, s, run).requests[q].pc.Issued?
    ensures k < |run| && run[k] == Sign(q, true) && Legal(w, s, run[..k])
    ensures Exec(w, s, run).requests[q].pc.env.now == Exec(w, s, run[..k]).now
    decreases |run|
  {
    var t := Next(w, s, run[0]);
    if q < |t.requests| && t.requests[q].pc.Issued? {
      k := 0;
      IssuedStays(w, t, run[1..], q);
    } else {
      var j := SignedAtItsTime(w, t, run[1..], q);
      k := j + 1;
      assert run[..k][1..] == run[1..][..j];
    }
  }

  lemma {:induction false} IssuedStays(w: World, s: State, run: seq<Action>, q: nat)
    requires Legal(w, s, run) && q < |s.requests| && s.requests[q].pc.Issued?
    ensures q < |Exec(w, s, run).requests| && Exec(w, s, run).requests[q] == s.requests[q]
    decreases |run|
  {
    if run != [] {
      IssuedStays(w, Next(w, s, run[0]), run[1..], q);
    }
  }

  /** Everything that justifies an issued JWT, from one single configuration. */
  ghost predicate ExplainedBy(w: World, l: Loaded, x: Request, issuer: string, token: IdToken, id: Identity, i: nat)
    requires x.pc.Issued?
  {
    var Issued(_, env, jwt) := x.pc;
    && i < |l.settings.rules|
    // the token presented: a trusted issuer, an accepted audience, the issuer's bindings in the flattened claims
    && NamesIssuer(w.reader, x.rawToken, issuer) && env.oidc(issuer) == Some(token)
    && token.issuer == issuer && id.issuer == issuer && id.subject == token.subject
    && (exists k :: 0 <= k < |l.settings.issuers| && l.settings.issuers[k].url == issuer
          && ClaimsHold(l.settings.issuers[k].requireClaims, id.claims))
    && (exists a :: a in token.audience && a in l.settings.audiences)
    && PayloadMembers(token.payload).Some? && AreClaimsOf(PayloadMembers(token.payload).value, id.claims)
    // the grant: the first rule of the same configuration that matches
    && IsFirstMatch(l.rules, id, env.cel, i)
    && var grant := l.settings.rules[i].grant;
    && jwt.subject == x.nkey && jwt.name == token.subject && jwt.audience == grant.account
    && EmittedFor(jwt.limits, grant)
    // the lifetime, in seconds: up to the token's expiry or the grant's cap, whichever is earlier
    && var until := if grant.maxExpiry > 0 && env.now + grant.maxExpiry < token.expiry then env.now + grant.maxExpiry
                    else token.expiry;
    && jwt.expires * 1_000_000_000 <= until < (jwt.expires + 1) * 1_000_000_000
    // the guardrail
    && (!l.settings.rules[i].when.allowBroad ==>
          IdentityIsFixed(l.settings.rules[i].when, id) && l.settings.rules[i].when.expr == "")
  }

  /** MAIN: in every run with concurrent reloads an issued JWT is explained, from the raw token on, by one
      configuration, whose verifier and policy were loaded together. */
  lemma EveryIssuedJwtIsExplained(w: World, start: State, run: seq<Action>, q: nat)
    requires Faithful(w.engine.compileRegex)
    requires Init(w, start) && Legal(w, start, run)
    requires q < |Exec(w, start, run).requests| && Exec(w, start, run).requests[q].pc.Issued?
    ensures var s := Exec(w, start, run);
            && s.requests[q].pc.h < |s.history| && s.requests[q].pc.env.now <= s.now
            && exists issuer, token, id, i ::
                 ExplainedBy(w, s.history[s.requests[q].pc.h], s.requests[q], issuer, token, id, i)
  {
    RunsKeepInv(w, start, run);
    var s := Exec(w, start, run);
    var x := s.requests[q];
    assert RequestInv(w, s.history, s.now, x);
    var issuer, token, id, i := IssuedIsExplained(w, s.history[x.pc.h], x);
  }

  lemma IssuedIsExplained(w: World, l: Loaded, x: Request)
    returns (issuer: string, token: IdToken, id: Identity, i: nat)
    requires Faithful(w.engine.compileRegex) && InService(w.engine, l) && x.pc.Issued?
    requires Answers(w, l, x, x.pc.env, Ok(x.pc.jwt))
    ensures ExplainedBy(w, l, x, issuer, token, id, i)
  {
    var env := x.pc.env;
    issuer := UnverifiedIssuer(w.reader, x.rawToken).value;
    UnverifiedIssuerIff(w.reader, x.rawToken, issuer);
    token := env.oidc(issuer).value;
    id := VerifyIn(l.verifier, x.rawToken, w.reader, env.oidc, env.walk).value;
    IdentityIsVerified(w, l, x, issuer, id);
    i := FirstMatch(l.rules, id, env.cel).value;
    ParsedClaimsAreLeaves(PayloadMembers(token.payload).value, id.claims);
    VerifiedIsExplained(l, issuer, token, id);
    LimitsAreEmittedFor(l.rules, l.settings.rules, w.engine, i);
    if !l.settings.rules[i].when.allowBroad {
      Guardrail(l.rules, l.settings.rules, w.engine, id, env.cel, i);
    }
  }

  lemma IdentityIsVerified(w: World, l: Loaded, x: Request, issuer: string, id: Identity)
    requires x.pc.Issued? && Answers(w, l, x, x.pc.env, Ok(x.pc.jwt))
    requires UnverifiedIssuer(w.reader, x.rawToken) == Some(issuer)
    requires VerifyIn(l.verifier, x.rawToken, w.reader, x.pc.env.oidc, x.pc.env.walk) == Ok(id)
    ensures x.pc.env.oidc(issuer).Some? && VerifiedAs(l.verifier, issuer, x.pc.env.oidc(issuer).value, id)
  {
    var env := x.pc.env;
    VerifyInMeans(l.verifier, x.rawToken, w.reader, env.oidc, env.walk);
    var i :| && NamesIssuer(w.reader, x.rawToken, i) && env.oidc(i).Some?
             && VerifiedAs(l.verifier, i, env.oidc(i).value, id);
    UnverifiedIssuerIff(w.reader, x.rawToken, i);
  }

  lemma VerifiedIsExplained(l: Loaded, issuer: string, token: IdToken, id: Identity)
    requires BuiltFrom(l.verifier, l.settings.issuers, l.settings.audiences)
    requires VerifiedAs(l.verifier, issuer, token, id)
    ensures exists k :: 0 <= k < |l.settings.issuers| && l.settings.issuers[k].url == issuer
              && ClaimsHold(l.settings.issuers[k].requireClaims, id.claims)
    ensures exists a :: a in token.audience && a in l.settings.audiences
  {
    var k :| 0 <= k < |l.settings.issuers| && l.settings.issuers[k].url == issuer;
    assert ClaimsHold(l.settings.issuers[k].requireClaims, id.claims);
  }

  /** Why a configuration may refuse, in terms of the token presented and of its own tables and rules. */
  ghost predicate Caused(w: World, l: Loaded, x: Request, env: Surroundings, why: Why) {
    match why
    case NoToken => x.rawToken == ""
    case NotVerified(error) => x.rawToken != "" && Fails(l.verifier, x.rawToken, w.reader, env.oidc, error)
    case NoRule =>
      exists id :: && Verifies(l.verifier, x.rawToken, w.reader, env.oidc, id)
                   && forall i :: 0 <= i < |l.rules| ==> !RuleMatches(l.rules[i], id, env.cel)
    case NotSigned =>
      !env.encodes && exists id, i: nat :: && Verifies(l.verifier, x.rawToken, w.reader, env.oidc, id)
                                           && IsFirstMatch(l.rules, id, env.cel, i)
  }

  /** MAIN: in every run a refusal has its cause in the one configuration the request took and in what its own
      steps met. */
  lemma EveryRefusalHasACause(w: World, start: State, run: seq<Action>, q: nat)
    requires Init(w, start) && Legal(w, start, run)
    requires q < |Exec(w, start, run).requests| && Exec(w, start, run).requests[q].pc.Refused?
    ensures var s := Exec(w, start, run);
            var x := s.requests[q];
            && x.pc.h < |s.history|
            && exists env :: MetBy(ByRequest(run, q), q, env, Err(x.pc.why)) && ChecksIssuer(env.oidc)
                             && Caused(w, s.history[x.pc.h], x, env, x.pc.why)
  {
    OutcomesAreAnswers(w, start, run, q);
    var s := Exec(w, start, run);
    var x := s.requests[q];
    var env :| Answers(w, s.history[x.pc.h], x, env, Err(x.pc.why)) && MetBy(ByRequest(run, q), q, env, Err(x.pc.why));
    RefusalIsCaused(w, s.history[x.pc.h], x, env, x.pc.why);
  }

  lemma RefusalIsCaused(w: World, l: Loaded, x: Request, env: Surroundings, why: Why)
    requires Answers(w, l, x, env, Err(why))
    ensures Caused(w, l, x, env, why)
  {
    if x.rawToken != "" {
      VerifyInMeans(l.verifier, x.rawToken, w.reader, env.oidc, env.walk);
      var r := VerifyIn(l.verifier, x.rawToken, w.reader, env.oidc, env.walk);
      if r.Ok? {
        var i := FirstMatch(l.rules, r.value, env.cel);
        assert i.Some? ==> IsFirstMatch(l.rules, r.value, env.cel, i.value);
      }
    }
  }

  // ----- what a request is answered from -----

  /** MAIN: the configuration a request is answered from is the one that was current when it took it. */
  lemma {:induction false} SnapshotWasCurrent(w: World, s: State, run: seq<Action>, q: nat) returns (k: nat)
    requires Legal(w, s, run)
    requires q >= |s.requests| || s.requests[q].pc.Received?
    requires q < |Exec(w, s, run).requests| && !Exec(w, s, run).requests[q].pc.Received?
    ensures k < |run| && run[k] == Load(q)
    ensures Legal(w, s, run[..k])
    ensures HeldBy(Exec(w, s, run).requests[q].pc) == |Exec(w, s, run[..k]).history| - 1
    decreases |run|
  {
    var t := Next(w, s, run[0]);
    if run[0] == Load(q) {
      k := 0;
      HeldStays(w, t, run[1..], q);
    } else {
      var j := SnapshotWasCurrent(w, t, run[1..], q);
      k := j + 1;
      assert run[..k][1..] == run[1..][..j];
    }
  }

  lemma {:induction false} HeldStays(w: World, s: State, run: seq<Action>, q: nat)
    requires Legal(w, s, run) && q < |s.requests| && !s.requests[q].pc.Received?
    ensures q < |Exec(w, s, run).requests|
    ensures HeldBy(Exec(w, s, run).requests[q].pc) == HeldBy(s.requests[q].pc)
    ensures !Exec(w, s, run).requests[q].pc.Received?
    decreases |run|
  {
    if run != [] {
      HeldStays(w, Next(w, s, run[0]), run[1..], q);
    }
  }

  /** A reload puts one more configuration in service if it loads and builds, and otherwise changes nothing at
      all; nothing else changes what is in service. */
  lemma OnlySuccessfulReloadsChangeService(w: World, s: State, a: Action)
    requires Sound(s) && Enabled(w, s, a)
    ensures var t, n := Next(w, s, a), |s.history|;
            if a.Reload? && a.decoded.Some? && LoadsAndBuilds(a.decoded.value, w.engine, a.discovers) then
              && |t.history| == n + 1 && t.history[..n] == s.history
              && InService(w.engine, t.history[n]) && t.history[n].settings == a.decoded.value
              && t.requests == s.requests
            else t.history == s.history && (a.Reload? ==> t == s)
  {
    if a.Reload? {
      BuildMeans(a.decoded, w.engine, a.discovers);
    }
  }
}
