/** Why each request of the key set's step system ends as it does: the steps it took, the keys it read and
    the throttle it met. */
module KeySetVerdicts {
  import opened Wrappers
  import opened KeySet
  import opened KeySetProtocol
  import opened KeySetGuarantees

  lemma {:induction false} LastStep(cfg: Config, s: State, run: seq<Action>)
    requires Legal(cfg, s, run) && run != []
    ensures var n := |run| - 1;
            && Legal(cfg, s, run[..n]) && Sound(Exec(cfg, s, run[..n])) && Enabled(Exec(cfg, s, run[..n]), run[n])
            && Exec(cfg, s, run) == Next(cfg, Exec(cfg, s, run[..n]), run[n])
    decreases |run|
  {
    var n := |run| - 1;
    if n > 0 {
      LastStep(cfg, Next(cfg, s, run[0]), run[1..]);
      assert run[1..][..n - 1] == run[..n][1..];
    } else {
      assert run[..0] == [] && run[1..] == [];
    }
  }

  // ----- the steps a request took -----

  /** A request's own steps in a run, in order. */
  function ByRequest(run: seq<Action>, q: nat): seq<Action> {
    if run == [] then []
    else
      var n := |run| - 1;
      ByRequest(run[..n], q) + if IsOwn(run[n], q) then [run[n]] else []
  }

  /** The first snapshot did not verify the token, so it asked for a refresh. */
  predicate Missed(steps: seq<Action>, q: nat) {
    |steps| >= 3 && steps[0] == Snapshot(q) && steps[1] == Try(q) && steps[2].Ask?
  }

  /** What a request has done when it is where it is. */
  predicate TookPath(steps: seq<Action>, q: nat, pc: PC) {
    match pc
    case Arrived => steps == []
    case FirstTry => steps == [Snapshot(q)]
    case Asking => steps == [Snapshot(q), Try(q)]
    case Waiting => |steps| == 3 && Missed(steps, q)
    case Rereading => |steps| == 4 && Missed(steps, q) && steps[3] == Wake(q)
    case SecondTry => |steps| == 5 && Missed(steps, q) && steps[3] == Wake(q) && steps[4] == Reread(q)
    case Done(outcome) => EndedSo(steps, q, outcome)
  }

  predicate TriedTwice(steps: seq<Action>, q: nat) {
    |steps| == 6 && Missed(steps, q) && steps[3] == Wake(q) && steps[4] == Reread(q) && steps[5] == Try(q)
  }

  predicate EndedSo(steps: seq<Action>, q: nat, outcome: Outcome) {
    match outcome
    case BadToken => steps == [Reject(q)]
    case Accepted(_) => steps == [Snapshot(q), Try(q)] || TriedTwice(steps, q)
    case BadSignature => TriedTwice(steps, q)
    case Refused => |steps| == 3 && Missed(steps, q)
    case Cancelled => |steps| == 4 && Missed(steps, q) && steps[3] == Cancel(q)
    case FetchFailed(_) => |steps| == 4 && Missed(steps, q) && steps[3] == Wake(q)
  }

  lemma PathGoesOn(cfg: Config, s: State, a: Action, q: nat, steps: seq<Action>)
    requires Sound(s) && Enabled(s, a) && IsOwn(a, q)
    requires q < |s.requests| && TookPath(steps, q, s.requests[q].pc)
    ensures q < |Next(cfg, s, a).requests|
    ensures TookPath(steps + [a], q, Next(cfg, s, a).requests[q].pc)
  {
  }

  lemma PathStep(cfg: Config, s: State, a: Action, q: nat, steps: seq<Action>)
    requires Sound(s) && Enabled(s, a)
    requires if q < |s.requests| then TookPath(steps, q, s.requests[q].pc) else steps == []
    ensures var t, more := Next(cfg, s, a), steps + if IsOwn(a, q) then [a] else [];
            if q < |t.requests| then TookPath(more, q, t.requests[q].pc) else more == []
  {
    assert steps + [] == steps;
    if IsOwn(a, q) {
      PathGoesOn(cfg, s, a, q, steps);
    }
  }

  /** MAIN: in every run a request has taken exactly the steps that lead to where it is: a snapshot and a try; on a
      miss one question, which refuses it or makes it wait; then a wake-up, a second read and a second try, or a
      cancellation of its own. */
  lemma {:induction false} RequestsTakeTheirPath(cfg: Config, s: State, run: seq<Action>, q: nat)
    requires Legal(cfg, s, run) && q >= |s.requests|
    ensures if q < |Exec(cfg, s, run).requests|
            then TookPath(ByRequest(run, q), q, Exec(cfg, s, run).requests[q].pc)
            else ByRequest(run, q) == []
    decreases |run|
  {
    if run != [] {
      var n := |run| - 1;
      LastStep(cfg, s, run);
      RequestsTakeTheirPath(cfg, s, run[..n], q);
      PathStep(cfg, Exec(cfg, s, run[..n]), run[n], q, ByRequest(run[..n], q));
    }
  }

  /** A request is for the token it arrived with. */
  lemma {:induction false} TokensArrived(cfg: Config, s: State, run: seq<Action>, q: nat)
    requires Legal(cfg, s, run) && q >= |s.requests| && q < |Exec(cfg, s, run).requests|
    ensures Arrive(Exec(cfg, s, run).requests[q].token) in run
    decreases |run|
  {
    var n := |run| - 1;
    LastStep(cfg, s, run);
    assert run == run[..n] + [run[n]];
    TokenStays(cfg, Exec(cfg, s, run[..n]), run[n], q);
    if q < |Exec(cfg, s, run[..n]).requests| {
      TokensArrived(cfg, s, run[..n], q);
    }
  }

  lemma TokenStays(cfg: Config, s: State, a: Action, q: nat)
    requires Sound(s) && Enabled(s, a) && q < |Next(cfg, s, a).requests|
    ensures if q < |s.requests| then Next(cfg, s, a).requests[q].token == s.requests[q].token
            else a == Arrive(Next(cfg, s, a).requests[q].token)
  {
  }

  // ----- the steps a fetcher took -----

  predicate IsOfFetcher(a: Action, r: nat) {
    (a.Receive? || a.Install? || a.WriteErr? || a.Close?) && a.r == r
  }

  function ByFetcher(run: seq<Action>, r: nat): seq<Action> {
    if run == [] then []
    else
      var n := |run| - 1;
      ByFetcher(run[..n], r) + if IsOfFetcher(run[n], r) then [run[n]] else []
  }

  predicate TookFetchPath(steps: seq<Action>, r: nat, x: Refresh) {
    match x.phase
    case Fetching => steps == []
    case Received => steps == [Receive(r, x.result)]
    case Landed => steps == [Receive(r, x.result), Install(r)]
    case Written => steps == [Receive(r, x.result), Install(r), WriteErr(r)]
    case Closed => steps == [Receive(r, x.result), Install(r), WriteErr(r), Close(r)]
  }

  lemma FetchPathGoesOn(cfg: Config, s: State, a: Action, r: nat, steps: seq<Action>)
    requires Sound(s) && Enabled(s, a)
    requires if r < |s.refreshes| then TookFetchPath(steps, r, s.refreshes[r]) else steps == []
    ensures var t, more := Next(cfg, s, a), steps + if IsOfFetcher(a, r) then [a] else [];
            if r < |t.refreshes| then TookFetchPath(more, r, t.refreshes[r]) else more == []
  {
    assert steps + [] == steps;
  }

  /** In every run a fetcher has received one result, which is the one it installs and reports, then installed,
      then reported and then closed. */
  lemma {:induction false} FetchersTakeTheirPath(cfg: Config, s: State, run: seq<Action>, r: nat)
    requires Legal(cfg, s, run) && r >= |s.refreshes|
    ensures if r < |Exec(cfg, s, run).refreshes|
            then TookFetchPath(ByFetcher(run, r), r, Exec(cfg, s, run).refreshes[r])
            else ByFetcher(run, r) == []
    decreases |run|
  {
    if run != [] {
      var n := |run| - 1;
      LastStep(cfg, s, run);
      FetchersTakeTheirPath(cfg, s, run[..n], r);
      FetchPathGoesOn(cfg, Exec(cfg, s, run[..n]), run[n], r, ByFetcher(run[..n], r));
    }
  }

  // ----- what a request read and met -----

  /** These keys were cached when this step was taken. */
  ghost predicate ReadAt(cfg: Config, s: State, run: seq<Action>, a: Action, keys: seq<Key>) {
    exists k :: 0 <= k < |run| && run[k] == a && WereCached(cfg, s, run, k, keys)
  }

  ghost predicate WereCached(cfg: Config, s: State, run: seq<Action>, k: nat, keys: seq<Key>)
    requires k <= |run|
  {
    Legal(cfg, s, run[..k]) && Exec(cfg, s, run[..k]).cache.keys == keys
  }

  /** The request asked when it was to be refused: during a refresh over some cached key, or too soon after the
      last start. */
  ghost predicate ThrottledAt(cfg: Config, s: State, run: seq<Action>, q: nat) {
    exists k :: 0 <= k < |run| && run[k].Ask? && run[k].q == q && IsThrottled(cfg, s, run, k)
  }

  ghost predicate IsThrottled(cfg: Config, s: State, run: seq<Action>, k: nat)
    requires k <= |run|
  {
    && Legal(cfg, s, run[..k])
    && var t := Exec(cfg, s, run[..k]);
       || (t.cache.inflight.Some? && t.cache.keys != [])
       || (t.cache.inflight.None? && t.cache.lastFetch.Some? && t.now < t.cache.lastFetch.value + cfg.interval)
  }

  ghost predicate Provenance(cfg: Config, s: State, run: seq<Action>, q: nat, x: Request) {
    && (x.pc.Arrived? || x.pc == Done(BadToken) || ReadAt(cfg, s, run, Snapshot(q), x.first))
    && (x.pc.SecondTry? || (x.pc.Done? && x.refresh.Some? && (x.pc.outcome.Accepted? || x.pc.outcome.BadSignature?)) ==>
          ReadAt(cfg, s, run, Reread(q), x.second))
    && (x.pc == Done(Refused) ==> ThrottledAt(cfg, s, run, q))
  }

  lemma ProvenanceStays(cfg: Config, s: State, run: seq<Action>, n: nat, q: nat, x: Request)
    requires n <= |run| && Provenance(cfg, s, run[..n], q, x)
    ensures Provenance(cfg, s, run, q, x)
  {
    forall k | 0 <= k < n ensures run[..n][..k] == run[..k] {
    }
    forall a, keys | ReadAt(cfg, s, run[..n], a, keys) ensures ReadAt(cfg, s, run, a, keys) {
      var k :| 0 <= k < n && run[..n][k] == a && WereCached(cfg, s, run[..n], k, keys);
      assert run[k] == a && WereCached(cfg, s, run, k, keys);
    }
    if ThrottledAt(cfg, s, run[..n], q) {
      var k :| 0 <= k < n && run[..n][k].Ask? && run[..n][k].q == q && IsThrottled(cfg, s, run[..n], k);
      assert run[k].Ask? && run[k].q == q && IsThrottled(cfg, s, run, k);
    }
  }

  /** What a request's own last step adds. */
  lemma ProvenanceGrows(cfg: Config, s: State, run: seq<Action>, q: nat)
    requires run != [] && Legal(cfg, s, run) && Legal(cfg, s, run[..|run| - 1])
    requires var t, a := Exec(cfg, s, run[..|run| - 1]), run[|run| - 1];
             && Inv(cfg, t) && Enabled(t, a) && Exec(cfg, s, run) == Next(cfg, t, a)
             && IsOwn(a, q) && q < |t.requests| && Provenance(cfg, s, run, q, t.requests[q])
    ensures q < |Exec(cfg, s, run).requests|
    ensures Provenance(cfg, s, run, q, Exec(cfg, s, run).requests[q])
  {
    var n := |run| - 1;
    var t, a := Exec(cfg, s, run[..n]), run[n];
    assert RequestInv(cfg, t.refreshes, q, t.requests[q]);
    match a {
      case Snapshot(_) => assert WereCached(cfg, s, run, n, t.cache.keys);
      case Reread(_) => assert WereCached(cfg, s, run, n, t.cache.keys);
      case Ask(_, _) =>
        if Admit(t.cache, cfg.interval, t.now).Throttled? {
          assert IsThrottled(cfg, s, run, n);
        }
      case _ =>
    }
  }

  lemma {:induction false} RequestsHaveProvenance(cfg: Config, now: int, run: seq<Action>, q: nat)
    requires Legal(cfg, Init(now), run) && q < |Exec(cfg, Init(now), run).requests|
    ensures Provenance(cfg, Init(now), run, q, Exec(cfg, Init(now), run).requests[q])
    decreases |run|
  {
    if run != [] {
      var n := |run| - 1;
      LastStep(cfg, Init(now), run);
      RunKeepsInv(cfg, Init(now), run[..n]);
      var t := Exec(cfg, Init(now), run[..n]);
      if q < |t.requests| {
        RequestsHaveProvenance(cfg, now, run[..n], q);
        ProvenanceStays(cfg, Init(now), run, n, q, t.requests[q]);
        if IsOwn(run[n], q) {
          ProvenanceGrows(cfg, Init(now), run, q);
        }
      }
    }
  }

  // ----- verdicts -----

  predicate HasOneSignature(token: Token) {
    match token
    case Malformed => false
    case Parsed(signatures) => |signatures| == 1
  }

  /** The first of the keys to try that verifies the token gives this payload. */
  ghost predicate GivesPayload(cfg: Config, token: Token, keys: seq<Key>, payload: Payload)
    requires HasOneSignature(token)
  {
    var jws := token.signatures[0];
    exists i :: 0 <= i < |keys| && IsToBeTried(jws, keys[i]) && cfg.verify(jws, keys[i]) == Some(payload)
      && forall j :: 0 <= j < i && IsToBeTried(jws, keys[j]) ==> cfg.verify(jws, keys[j]).None?
  }

  ghost predicate NoKeyVerifies(cfg: Config, token: Token, keys: seq<Key>)
    requires HasOneSignature(token)
  {
    forall k :: k in keys && IsToBeTried(token.signatures[0], k) ==> cfg.verify(token.signatures[0], k).None?
  }

  /** What justifies an outcome: the keys cached when the request read them, and the steps of the run. */
  ghost predicate Justified(cfg: Config, s: State, run: seq<Action>, q: nat, x: Request, outcome: Outcome)
    requires HasOneSignature(x.token) && Legal(cfg, s, run)
  {
    && ReadAt(cfg, s, run, Snapshot(q), x.first)
    && match outcome
       case BadToken => false
       case Accepted(payload) =>
         || (GivesPayload(cfg, x.token, x.first, payload) && x.refresh.None?)
         || (&& NoKeyVerifies(cfg, x.token, x.first)
             && ReadAt(cfg, s, run, Reread(q), x.second) && GivesPayload(cfg, x.token, x.second, payload))
       case Refused => NoKeyVerifies(cfg, x.token, x.first) && ThrottledAt(cfg, s, run, q)
       case Cancelled => NoKeyVerifies(cfg, x.token, x.first) && Cancel(q) in run
       case FetchFailed(e) =>
         NoKeyVerifies(cfg, x.token, x.first) && FetchFailedWith(Exec(cfg, s, run).refreshes, x.refresh, e)
       case BadSignature =>
         && NoKeyVerifies(cfg, x.token, x.first)
         && ReadAt(cfg, s, run, Reread(q), x.second) && NoKeyVerifies(cfg, x.token, x.second)
  }

  predicate FetchFailedWith(refreshes: seq<Refresh>, r: Option<nat>, e: string) {
    r.Some? && r.value < |refreshes| && refreshes[r.value].result == Err(e)
  }

  lemma FoundOrNot(cfg: Config, token: Token, keys: seq<Key>)
    requires HasOneSignature(token)
    ensures var r := VerifyWith(cfg.verify, token.signatures[0], keys);
            if r.Some? then GivesPayload(cfg, token, keys, r.value) else NoKeyVerifies(cfg, token, keys)
  {
  }

  lemma OneSignatureIff(token: Token)
    ensures WellFormedToken(token) <==> HasOneSignature(token)
  {
  }

  lemma OutcomeIsJustified(cfg: Config, s: State, run: seq<Action>, q: nat, x: Request, outcome: Outcome)
    requires Legal(cfg, s, run) && x.pc == Done(outcome) && HasOneSignature(x.token)
    requires RequestInv(cfg, Exec(cfg, s, run).refreshes, q, x) && Provenance(cfg, s, run, q, x)
    requires outcome.Cancelled? ==> Cancel(q) in run
    ensures Justified(cfg, s, run, q, x, outcome)
  {
    OneSignatureIff(x.token);
    FoundOrNot(cfg, x.token, x.first);
    FoundOrNot(cfg, x.token, x.second);
  }

  /** MAIN: every verdict in every run. A token without exactly one signature is refused as such, and only such a
      one. Otherwise the outcome is what the keys say that were cached when the request read them; without a key
      there, it is what the refresh and the second read say, a refusal that the throttle demanded at the time of
      asking, or the caller's own cancellation. */
  lemma VerdictsAreJustified(cfg: Config, now: int, run: seq<Action>, q: nat)
    requires Legal(cfg, Init(now), run) && q < |Exec(cfg, Init(now), run).requests|
    requires Exec(cfg, Init(now), run).requests[q].pc.Done?
    ensures var x := Exec(cfg, Init(now), run).requests[q];
            && (x.pc.outcome == BadToken <==> !HasOneSignature(x.token))
            && (HasOneSignature(x.token) ==> Justified(cfg, Init(now), run, q, x, x.pc.outcome))
  {
    var s, u := Init(now), Exec(cfg, Init(now), run);
    var x := u.requests[q];
    RunKeepsInv(cfg, s, run);
    assert RequestInv(cfg, u.refreshes, q, x);
    OneSignatureIff(x.token);
    if HasOneSignature(x.token) {
      RequestsHaveProvenance(cfg, now, run, q);
      if x.pc.outcome.Cancelled? {
        CancelWasTaken(cfg, now, run, q);
      }
      OutcomeIsJustified(cfg, s, run, q, x, x.pc.outcome);
    }
  }

  lemma {:induction false} OwnStepsAreSteps(run: seq<Action>, q: nat, a: Action)
    requires a in ByRequest(run, q)
    ensures a in run
    decreases |run|
  {
    var n := |run| - 1;
    if a in ByRequest(run[..n], q) {
      OwnStepsAreSteps(run[..n], q, a);
    }
    assert run == run[..n] + [run[n]];
  }

  lemma CancelWasTaken(cfg: Config, now: int, run: seq<Action>, q: nat)
    requires Legal(cfg, Init(now), run) && q < |Exec(cfg, Init(now), run).requests|
    requires Exec(cfg, Init(now), run).requests[q].pc == Done(Cancelled)
    ensures Cancel(q) in run
  {
    RequestsTakeTheirPath(cfg, Init(now), run, q);
    assert ByRequest(run, q)[3] == Cancel(q);
    OwnStepsAreSteps(run, q, Cancel(q));
  }

  /** MAIN: a token that some cached key verifies when its request takes its snapshot is accepted from that
      snapshot in every run that follows, whatever fetches are stalled or refused. */
  lemma CachedTokenIsAccepted(cfg: Config, s: State, q: nat, run: seq<Action>)
    requires Reachable(cfg, s) && Sound(s) && Enabled(s, Snapshot(q))
    requires HasOneSignature(s.requests[q].token) && !NoKeyVerifies(cfg, s.requests[q].token, s.cache.keys)
    requires Legal(cfg, Next(cfg, s, Snapshot(q)), run)
    ensures var u := Exec(cfg, Next(cfg, s, Snapshot(q)), run);
            && q < |u.requests| && u.requests[q].refresh.None?
            && (u.requests[q].pc.FirstTry? ||
                (&& u.requests[q].pc.Done? && u.requests[q].pc.outcome.Accepted?
                 && GivesPayload(cfg, s.requests[q].token, s.cache.keys, u.requests[q].pc.outcome.payload)))
  {
    ReachableInv(cfg, s);
    var t := Next(cfg, s, Snapshot(q));
    StepKeepsInv(cfg, s, Snapshot(q));
    StepKeepsRequest(cfg, s, Snapshot(q), q);
    RunKeepsInv(cfg, t, run);
    RunKeepsRequest(cfg, t, run, q);
    var u := Exec(cfg, t, run);
    FoundOrNot(cfg, s.requests[q].token, s.cache.keys);
    HitNeverWaits(cfg, u.refreshes, q, u.requests[q]);
  }

  lemma HitNeverWaits(cfg: Config, refreshes: seq<Refresh>, q: nat, x: Request)
    requires RequestInv(cfg, refreshes, q, x) && !x.pc.Arrived? && HasOneSignature(x.token)
    requires VerifyWith(cfg.verify, x.token.signatures[0], x.first).Some?
    ensures x.refresh.None?
    ensures x.pc.FirstTry?
            || x.pc == Done(Accepted(VerifyWith(cfg.verify, x.token.signatures[0], x.first).value))
  {
  }
}
