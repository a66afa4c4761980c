/** Any number of concurrent requests, detached fetchers and a clock around one key set, as a step system:
    every step is one locked section or one local action of one participant. */
module KeySetProtocol {
  import opened Wrappers
  import opened KeySet

  /** The interval a key set is built with is positive (see KeySet's constructor). */
  type Interval = i: int | i > 0 witness 1

  datatype Config = Config(interval: Interval, verify: Verify)

  /** What parsing made of a raw token. */
  datatype Token = Malformed | Parsed(signatures: seq<Jws>)

  datatype Outcome =
    | Accepted(payload: Payload)
    | BadToken
    | Refused
    | FetchFailed(error: string)
    | Cancelled
    | BadSignature

  datatype PC = Arrived | FirstTry | Asking | Waiting | Rereading | SecondTry | Done(outcome: Outcome)

  /** `first` and `second` are the snapshots taken; `refresh` is the result waited for. */
  datatype Request = Request(token: Token, pc: PC, first: seq<Key>, refresh: Option<nat>, second: seq<Key>)

  /** Fetching, then result received, keys installed and `inflight` cleared, `err` written, `done` closed. */
  datatype Phase = Fetching | Received | Landed | Written | Closed

  /** A refresh result in memory (`err`, `done`) and its fetcher; `over` is the key set it was started over,
      `landed` logs when its fetcher cleared `inflight`. */
  datatype Refresh = Refresh(stamp: int, starter: nat, over: seq<Key>, phase: Phase, result: FetchResult,
                             landed: Option<int>, err: Option<string>, done: bool)

  /** Refreshes are listed in the order they started, requests in the order they arrived. */
  datatype State = State(now: int, cache: Cache<nat>, refreshes: seq<Refresh>, requests: seq<Request>)

  datatype Action =
    | Tick(d: nat)
    | Arrive(token: Token)
    | Reject(q: nat)
    | Snapshot(q: nat)
    | Try(q: nat)
    | Ask(q: nat, delay: nat)
    | Cancel(q: nat)
    | Wake(q: nat)
    | Reread(q: nat)
    | Receive(r: nat, result: FetchResult)
    | Install(r: nat)
    | WriteErr(r: nat)
    | Close(r: nat)

  function Init(now: int): State {
    State(now, Cache([], None, None), [], [])
  }

  // ----- steps -----

  predicate WellFormedToken(t: Token) {
    t.Parsed? && |t.signatures| == 1
  }

  predicate At(s: State, q: nat, pc: PC) {
    q < |s.requests| && s.requests[q].pc == pc
  }

  predicate In(s: State, r: nat, phase: Phase) {
    r < |s.refreshes| && s.refreshes[r].phase == phase
  }

  /** The parts of `Enabled` that make a state a state: pointers go somewhere. */
  predicate Sound(s: State) {
    && (forall q :: 0 <= q < |s.requests| ==> RequestSound(s.refreshes, s.requests[q]))
    && (s.cache.inflight.Some? ==> s.cache.inflight.value < |s.refreshes|)
  }

  predicate RequestSound(refreshes: seq<Refresh>, x: Request) {
    && (x.pc.Arrived? || x.pc == Done(BadToken) || WellFormedToken(x.token))
    && (x.refresh.Some? ==> x.refresh.value < |refreshes|)
    && (x.pc.Waiting? || x.pc.Rereading? || x.pc.SecondTry? ==> x.refresh.Some?)
  }

  predicate Enabled(s: State, a: Action)
    requires Sound(s)
  {
    match a
    case Tick(_) => true
    case Arrive(_) => true
    case Reject(q) => At(s, q, Arrived) && !WellFormedToken(s.requests[q].token)
    case Snapshot(q) => At(s, q, Arrived) && WellFormedToken(s.requests[q].token)
    case Try(q) => At(s, q, FirstTry) || At(s, q, SecondTry)
    case Ask(q, _) => At(s, q, Asking)
    case Cancel(q) => At(s, q, Waiting)
    case Wake(q) => At(s, q, Waiting) && s.refreshes[s.requests[q].refresh.value].done
    case Reread(q) => At(s, q, Rereading)
    case Receive(r, _) => In(s, r, Fetching)
    case Install(r) => In(s, r, Received)
    case WriteErr(r) => In(s, r, Landed)
    case Close(r) => In(s, r, Written)
  }

  function ErrorOf(result: FetchResult): Option<string> {
    if result.Err? then Some(result.error) else None
  }

  /** Requests whose own action leaves the shared state alone. */
  function Moved(cfg: Config, s: State, a: Action, x: Request): Request
    requires RequestSound(s.refreshes, x)
  {
    match a
    case Reject(_) => x.(pc := Done(BadToken))
    case Snapshot(_) => x.(pc := FirstTry, first := s.cache.keys)
    case Reread(_) => x.(pc := SecondTry, second := s.cache.keys)
    case Cancel(_) => x.(pc := Done(Cancelled))
    case Wake(_) =>
      if x.refresh.None? then x
      else
        var err := s.refreshes[x.refresh.value].err;
        x.(pc := if err.Some? then Done(FetchFailed(err.value)) else Rereading)
    case Try(_) =>
      if !WellFormedToken(x.token) then x
      else
        var payload := VerifyWith(cfg.verify, x.token.signatures[0], if x.pc.FirstTry? then x.first else x.second);
        x.(pc := if payload.Some? then Done(Accepted(payload.value))
                 else if x.pc.FirstTry? then Asking else Done(BadSignature))
    case _ => x
  }

  /** The locked section of `refresh`; a start stamps the clock after the throttle test read it. */
  function Asked(cfg: Config, s: State, q: nat, delay: nat): State
    requires q < |s.requests|
  {
    var x, n := s.requests[q], |s.refreshes|;
    match Admit(s.cache, cfg.interval, s.now)
    case Throttled => s.(requests := s.requests[q := x.(pc := Done(Refused))])
    case Join(r) => s.(requests := s.requests[q := x.(pc := Waiting, refresh := Some(r))])
    case Start =>
      State(s.now + delay, Started(s.cache, n, s.now + delay),
            s.refreshes + [Refresh(s.now + delay, q, s.cache.keys, Fetching, Err(""), None, None, false)],
            s.requests[q := x.(pc := Waiting, refresh := Some(n))])
  }

  function Progressed(x: Refresh, a: Action, now: int): Refresh {
    match a
    case Receive(_, result) => x.(phase := Received, result := result)
    case Install(_) => x.(phase := Landed, landed := Some(now))
    case WriteErr(_) => x.(phase := Written, err := ErrorOf(x.result))
    case Close(_) => x.(phase := Closed, done := true)
    case _ => x
  }

  function Next(cfg: Config, s: State, a: Action): State
    requires Sound(s) && Enabled(s, a)
  {
    match a
    case Tick(d) => s.(now := s.now + d)
    case Arrive(token) => s.(requests := s.requests + [Request(token, Arrived, [], None, [])])
    case Ask(q, delay) => Asked(cfg, s, q, delay)
    case Install(r) =>
      s.(cache := Installed(s.cache, s.refreshes[r].result),
         refreshes := s.refreshes[r := Progressed(s.refreshes[r], a, s.now)])
    case Receive(r, _) => s.(refreshes := s.refreshes[r := Progressed(s.refreshes[r], a, s.now)])
    case WriteErr(r) => s.(refreshes := s.refreshes[r := Progressed(s.refreshes[r], a, s.now)])
    case Close(r) => s.(refreshes := s.refreshes[r := Progressed(s.refreshes[r], a, s.now)])
    case _ => s.(requests := s.requests[a.q := Moved(cfg, s, a, s.requests[a.q])])
  }

  // ----- invariants -----

  predicate Running(x: Refresh) {
    x.phase.Fetching? || x.phase.Received?
  }

  predicate Installs(x: Refresh) {
    !Running(x) && x.result.Ok?
  }

  /** `err` is final before `done` is closed, and both tell the fetch result; a landing is logged. */
  predicate RefreshInv(x: Refresh) {
    && (x.landed.None? <==> Running(x))
    && match x.phase
       case Written => x.err == ErrorOf(x.result) && !x.done
       case Closed => x.err == ErrorOf(x.result) && x.done
       case _ => x.err.None? && !x.done
  }

  /** The keys of the last refresh that installed any. */
  function LatestKeys(refreshes: seq<Refresh>): seq<Key> {
    if refreshes == [] then []
    else
      var n := |refreshes| - 1;
      if Installs(refreshes[n]) then refreshes[n].result.value else LatestKeys(refreshes[..n])
  }

  predicate Spaced(refreshes: seq<Refresh>, interval: int) {
    forall i, j :: 0 <= i < j < |refreshes| ==> refreshes[j].stamp - refreshes[i].stamp >= interval
  }

  predicate StampsInv(cfg: Config, s: State) {
    var n := |s.refreshes|;
    && (s.cache.lastFetch == if n == 0 then None else Some(s.refreshes[n - 1].stamp))
    && (forall i :: 0 <= i < n ==> s.refreshes[i].stamp <= s.now)
    && Spaced(s.refreshes, cfg.interval)
  }

  predicate FetchersInv(s: State) {
    var n := |s.refreshes|;
    && (forall i :: 0 <= i < n ==> RefreshInv(s.refreshes[i]))
    && (forall i :: 0 <= i < n ==> (Running(s.refreshes[i]) <==> s.cache.inflight == Some(i)))
    && (s.cache.inflight.Some? ==> s.cache.inflight == Some(n - 1))
    && s.cache.keys == LatestKeys(s.refreshes)
    && (n > 0 && Running(s.refreshes[n - 1]) ==> s.refreshes[n - 1].over == s.cache.keys)
  }

  predicate CacheInv(cfg: Config, s: State) {
    StampsInv(cfg, s) && FetchersInv(s)
  }

  /** A key set some refresh at or after `from` fetched and installed. */
  ghost predicate Published(refreshes: seq<Refresh>, keys: seq<Key>, from: nat) {
    exists j :: from <= j < |refreshes| && Installs(refreshes[j]) && refreshes[j].result.value == keys
  }

  predicate FirstTryFailed(cfg: Config, x: Request) {
    WellFormedToken(x.token) && VerifyWith(cfg.verify, x.token.signatures[0], x.first).None?
  }

  /** The refresh a request waits for succeeded and is over. */
  predicate WokeWell(refreshes: seq<Refresh>, x: Request) {
    && x.refresh.Some? && x.refresh.value < |refreshes|
    && refreshes[x.refresh.value].phase.Closed? && refreshes[x.refresh.value].result.Ok?
  }

  ghost predicate RequestInv(cfg: Config, refreshes: seq<Refresh>, q: nat, x: Request) {
    && RequestSound(refreshes, x)
    && (x.first == [] || Published(refreshes, x.first, 0))
    && (x.refresh.Some? ==>
          && FirstTryFailed(cfg, x)
          && (refreshes[x.refresh.value].over != [] ==> refreshes[x.refresh.value].starter == q))
    && match x.pc
       case Arrived => x.refresh.None?
       case FirstTry => x.refresh.None?
       case Asking => x.refresh.None? && FirstTryFailed(cfg, x)
       case Waiting => true
       case Rereading => WokeWell(refreshes, x)
       case SecondTry => WokeWell(refreshes, x) && Published(refreshes, x.second, x.refresh.value)
       case Done(outcome) => OutcomeInv(cfg, refreshes, x, outcome)
  }

  ghost predicate OutcomeInv(cfg: Config, refreshes: seq<Refresh>, x: Request, outcome: Outcome)
    requires RequestSound(refreshes, x)
  {
    match outcome
    case BadToken => x.refresh.None? && !WellFormedToken(x.token)
    case Refused => x.refresh.None? && FirstTryFailed(cfg, x)
    case Cancelled => x.refresh.Some?
    case FetchFailed(e) =>
      && x.refresh.Some? && refreshes[x.refresh.value].phase.Closed?
      && refreshes[x.refresh.value].result == Err(e)
    case BadSignature =>
      && WellFormedToken(x.token) && WokeWell(refreshes, x) && Published(refreshes, x.second, x.refresh.value)
      && VerifyWith(cfg.verify, x.token.signatures[0], x.second).None?
    case Accepted(payload) =>
      && WellFormedToken(x.token)
      && if x.refresh.None? then VerifyWith(cfg.verify, x.token.signatures[0], x.first) == Some(payload)
         else && WokeWell(refreshes, x) && Published(refreshes, x.second, x.refresh.value)
              && VerifyWith(cfg.verify, x.token.signatures[0], x.second) == Some(payload)
  }

  ghost predicate Inv(cfg: Config, s: State) {
    && Sound(s)
    && CacheInv(cfg, s)
    && forall q :: 0 <= q < |s.requests| ==> RequestInv(cfg, s.refreshes, q, s.requests[q])
  }

  /** How a refresh may look later. */
  predicate Evolves(x: Refresh, y: Refresh) {
    && y.stamp == x.stamp && y.starter == x.starter && y.over == x.over
    && (!x.phase.Fetching? ==> y.result == x.result && !y.phase.Fetching?)
    && (!Running(x) ==> !Running(y) && y.landed == x.landed)
    && (x.phase.Closed? ==> y == x)
  }

  predicate AllEvolve(before: seq<Refresh>, after: seq<Refresh>) {
    |before| <= |after| && forall i :: 0 <= i < |before| ==> Evolves(before[i], after[i])
  }

  lemma StepEvolves(cfg: Config, s: State, a: Action)
    requires Sound(s) && Enabled(s, a)
    ensures AllEvolve(s.refreshes, Next(cfg, s, a).refreshes)
  {
  }

  lemma PublishedStays(before: seq<Refresh>, after: seq<Refresh>, keys: seq<Key>, from: nat)
    requires AllEvolve(before, after) && Published(before, keys, from)
    ensures Published(after, keys, from)
  {
    var j :| from <= j < |before| && Installs(before[j]) && before[j].result.value == keys;
    assert Installs(after[j]) && after[j].result.value == keys;
  }

  /** What is known about a request survives everything the others do. */
  lemma RequestInvStays(cfg: Config, before: seq<Refresh>, after: seq<Refresh>, q: nat, x: Request)
    requires AllEvolve(before, after) && RequestInv(cfg, before, q, x)
    ensures RequestInv(cfg, after, q, x)
  {
    if x.first != [] {
      PublishedStays(before, after, x.first, 0);
    }
    if x.refresh.Some? && Published(before, x.second, x.refresh.value) {
      PublishedStays(before, after, x.second, x.refresh.value);
    }
  }

  /** The last refresh that installed keys; -1 if none did. */
  lemma {:induction false} LatestInstall(refreshes: seq<Refresh>) returns (j: int)
    ensures -1 <= j < |refreshes|
    ensures forall r :: j < r < |refreshes| ==> !Installs(refreshes[r])
    ensures if j < 0 then LatestKeys(refreshes) == []
            else Installs(refreshes[j]) && refreshes[j].result.value == LatestKeys(refreshes)
  {
    if refreshes == [] {
      j := -1;
    } else if Installs(refreshes[|refreshes| - 1]) {
      j := |refreshes| - 1;
    } else {
      j := LatestInstall(refreshes[..|refreshes| - 1]);
    }
  }

  lemma LatestKeysArePublished(refreshes: seq<Refresh>)
    ensures LatestKeys(refreshes) == [] || Published(refreshes, LatestKeys(refreshes), 0)
    ensures forall r :: 0 <= r < |refreshes| && Installs(refreshes[r]) ==>
              Published(refreshes, LatestKeys(refreshes), r)
  {
    var j := LatestInstall(refreshes);
  }

  lemma {:induction false} LatestKeysDependOnInstalls(before: seq<Refresh>, after: seq<Refresh>)
    requires |before| == |after|
    requires forall i :: 0 <= i < |before| ==> Installs(before[i]) == Installs(after[i])
    requires forall i :: 0 <= i < |before| && Installs(before[i]) ==> before[i].result == after[i].result
    ensures LatestKeys(before) == LatestKeys(after)
  {
    if before != [] {
      LatestKeysDependOnInstalls(before[..|before| - 1], after[..|after| - 1]);
    }
  }

  /** A request's own step keeps what is known about it. */
  lemma MovedKeepsRequestInv(cfg: Config, s: State, a: Action)
    requires Inv(cfg, s) && Enabled(s, a)
    requires a.Reject? || a.Snapshot? || a.Try? || a.Cancel? || a.Wake? || a.Reread?
    ensures RequestInv(cfg, s.refreshes, a.q, Moved(cfg, s, a, s.requests[a.q]))
  {
    var x := s.requests[a.q];
    assert RequestInv(cfg, s.refreshes, a.q, x);
    if a.Snapshot? {
      LatestKeysArePublished(s.refreshes);
    } else if a.Wake? {
      assert RefreshInv(s.refreshes[x.refresh.value]);
    } else if a.Reread? {
      assert Installs(s.refreshes[x.refresh.value]);
      LatestKeysArePublished(s.refreshes);
    }
  }

  lemma AskedKeepsRequestInv(cfg: Config, s: State, q: nat, delay: nat)
    requires Inv(cfg, s) && Enabled(s, Ask(q, delay))
    ensures var t := Asked(cfg, s, q, delay);
            RequestInv(cfg, t.refreshes, q, t.requests[q])
  {
    var t := Asked(cfg, s, q, delay);
    var x := s.requests[q];
    assert RequestInv(cfg, s.refreshes, q, x);
    StepEvolves(cfg, s, Ask(q, delay));
    RequestInvStays(cfg, s.refreshes, t.refreshes, q, x);
  }

  /** A start comes an interval after the last one, which came after all the others. */
  lemma StartIsSpaced(refreshes: seq<Refresh>, next: Refresh, interval: int)
    requires Spaced(refreshes, interval)
    requires refreshes != [] ==> next.stamp - refreshes[|refreshes| - 1].stamp >= interval
    requires interval > 0
    ensures Spaced(refreshes + [next], interval)
  {
    var n, all := |refreshes|, refreshes + [next];
    forall i, j | 0 <= i < j < |all| ensures all[j].stamp - all[i].stamp >= interval {
      if j == n && i < n - 1 {
        assert refreshes[n - 1].stamp - refreshes[i].stamp >= interval;
      }
    }
  }

  lemma LatestKeysWithRunning(refreshes: seq<Refresh>, next: Refresh)
    requires Running(next)
    ensures LatestKeys(refreshes + [next]) == LatestKeys(refreshes)
  {
    assert (refreshes + [next])[..|refreshes|] == refreshes;
  }

  lemma StartedKeepsFetchersInv(cfg: Config, s: State, q: nat, delay: nat)
    requires FetchersInv(s) && q < |s.requests| && Admit(s.cache, cfg.interval, s.now).Start?
    ensures FetchersInv(Asked(cfg, s, q, delay))
  {
    var t, n := Asked(cfg, s, q, delay), |s.refreshes|;
    LatestKeysWithRunning(s.refreshes, t.refreshes[n]);
    forall i | 0 <= i < n + 1
      ensures RefreshInv(t.refreshes[i]) && (Running(t.refreshes[i]) <==> t.cache.inflight == Some(i))
    {
      assert i < n ==> t.refreshes[i] == s.refreshes[i];
    }
  }

  lemma StartedKeepsStampsInv(cfg: Config, s: State, q: nat, delay: nat)
    requires StampsInv(cfg, s) && q < |s.requests| && Admit(s.cache, cfg.interval, s.now).Start?
    ensures StampsInv(cfg, Asked(cfg, s, q, delay))
  {
    StartIsSpaced(s.refreshes, Asked(cfg, s, q, delay).refreshes[|s.refreshes|], cfg.interval);
  }

  lemma StartedKeepsCacheInv(cfg: Config, s: State, q: nat, delay: nat)
    requires CacheInv(cfg, s) && q < |s.requests| && Admit(s.cache, cfg.interval, s.now).Start?
    ensures CacheInv(cfg, Asked(cfg, s, q, delay))
  {
    StartedKeepsStampsInv(cfg, s, q, delay);
    StartedKeepsFetchersInv(cfg, s, q, delay);
  }

  lemma AskedKeepsCacheInv(cfg: Config, s: State, q: nat, delay: nat)
    requires Inv(cfg, s) && q < |s.requests|
    ensures CacheInv(cfg, Asked(cfg, s, q, delay))
  {
    if Admit(s.cache, cfg.interval, s.now).Start? {
      StartedKeepsCacheInv(cfg, s, q, delay);
    }
  }

  lemma InstallKeepsCacheInv(cfg: Config, s: State, r: nat)
    requires Inv(cfg, s) && Enabled(s, Install(r))
    ensures CacheInv(cfg, Next(cfg, s, Install(r)))
  {
    var t := Next(cfg, s, Install(r));
    var n := |s.refreshes|;
    assert Running(s.refreshes[r]) && r == n - 1;
    assert t.refreshes[..n - 1] == s.refreshes[..n - 1];
    assert !Running(t.refreshes[r]);
  }

  /** A fetcher's step outside the lock. */
  lemma FetcherKeepsCacheInv(cfg: Config, s: State, a: Action)
    requires Inv(cfg, s) && Enabled(s, a)
    requires a.Receive? || a.WriteErr? || a.Close?
    ensures CacheInv(cfg, Next(cfg, s, a))
  {
    var t := Next(cfg, s, a);
    var x, y := s.refreshes[a.r], t.refreshes[a.r];
    assert RefreshInv(x);
    assert RefreshInv(y) && Running(x) == Running(y) && Installs(x) == Installs(y);
    assert y.stamp == x.stamp && y.over == x.over;
    assert t.cache == s.cache && t.now == s.now;
    KeepsOtherwise(cfg, s, t);
  }

  lemma KeepsOtherwise(cfg: Config, s: State, t: State)
    requires CacheInv(cfg, s) && t.cache == s.cache && t.now == s.now
    requires |s.refreshes| == |t.refreshes|
    requires forall i :: 0 <= i < |s.refreshes| ==>
               && RefreshInv(t.refreshes[i])
               && Running(t.refreshes[i]) == Running(s.refreshes[i])
               && Installs(t.refreshes[i]) == Installs(s.refreshes[i])
               && (Installs(s.refreshes[i]) ==> t.refreshes[i].result == s.refreshes[i].result)
               && t.refreshes[i].stamp == s.refreshes[i].stamp && t.refreshes[i].over == s.refreshes[i].over
    ensures CacheInv(cfg, t)
  {
    LatestKeysDependOnInstalls(s.refreshes, t.refreshes);
  }

  lemma LaterKeepsCacheInv(cfg: Config, s: State, t: State)
    requires CacheInv(cfg, s)
    requires t.cache == s.cache && t.refreshes == s.refreshes && s.now <= t.now
    ensures CacheInv(cfg, t)
  {
  }

  lemma StepKeepsCacheInv(cfg: Config, s: State, a: Action)
    requires Inv(cfg, s) && Enabled(s, a)
    ensures CacheInv(cfg, Next(cfg, s, a))
  {
    if a.Ask? {
      AskedKeepsCacheInv(cfg, s, a.q, a.delay);
    } else if a.Install? {
      InstallKeepsCacheInv(cfg, s, a.r);
    } else if a.Receive? || a.WriteErr? || a.Close? {
      FetcherKeepsCacheInv(cfg, s, a);
    } else {
      LaterKeepsCacheInv(cfg, s, Next(cfg, s, a));
    }
  }

  lemma StepKeepsRequestInv(cfg: Config, s: State, a: Action, q: nat)
    requires Inv(cfg, s) && Enabled(s, a) && q < |Next(cfg, s, a).requests|
    ensures RequestInv(cfg, Next(cfg, s, a).refreshes, q, Next(cfg, s, a).requests[q])
  {
    var t := Next(cfg, s, a);
    if q < |s.requests| && t.requests[q] == s.requests[q] {
      StepEvolves(cfg, s, a);
      RequestInvStays(cfg, s.refreshes, t.refreshes, q, s.requests[q]);
    } else if a.Ask? {
      AskedKeepsRequestInv(cfg, s, a.q, a.delay);
    } else if !a.Arrive? {
      MovedKeepsRequestInv(cfg, s, a);
    }
  }

  /** Every step keeps the invariant. */
  lemma StepKeepsInv(cfg: Config, s: State, a: Action)
    requires Inv(cfg, s) && Enabled(s, a)
    ensures Inv(cfg, Next(cfg, s, a))
  {
    StepKeepsCacheInv(cfg, s, a);
    forall q | 0 <= q < |Next(cfg, s, a).requests|
      ensures RequestInv(cfg, Next(cfg, s, a).refreshes, q, Next(cfg, s, a).requests[q])
    {
      StepKeepsRequestInv(cfg, s, a, q);
    }
  }
}
