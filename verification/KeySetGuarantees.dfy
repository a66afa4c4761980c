/** What holds in every run of the key set's step system. */
module KeySetGuarantees {
  import opened Wrappers
  import opened KeySet
  import opened KeySetProtocol

  // ----- runs -----

  ghost predicate Legal(cfg: Config, s: State, run: seq<Action>)
    decreases |run|
  {
    && Sound(s)
    && (run != [] ==> Enabled(s, run[0]) && Legal(cfg, Next(cfg, s, run[0]), run[1..]))
  }

  ghost function Exec(cfg: Config, s: State, run: seq<Action>): State
    requires Legal(cfg, s, run)
    decreases |run|
  {
    if run == [] then s else Exec(cfg, Next(cfg, s, run[0]), run[1..])
  }

  ghost predicate Reachable(cfg: Config, s: State) {
    exists now, run :: Legal(cfg, Init(now), run) && s == Exec(cfg, Init(now), run)
  }

  lemma {:induction false} RunKeepsInv(cfg: Config, s: State, run: seq<Action>)
    requires Inv(cfg, s) && Legal(cfg, s, run)
    ensures Inv(cfg, Exec(cfg, s, run))
    decreases |run|
  {
    if run != [] {
      StepKeepsInv(cfg, s, run[0]);
      RunKeepsInv(cfg, Next(cfg, s, run[0]), run[1..]);
    }
  }

  lemma ReachableInv(cfg: Config, s: State)
    requires Reachable(cfg, s)
    ensures Inv(cfg, s)
  {
    var now, run :| Legal(cfg, Init(now), run) && s == Exec(cfg, Init(now), run);
    RunKeepsInv(cfg, Init(now), run);
  }

  lemma {:induction false} RunEvolves(cfg: Config, s: State, run: seq<Action>)
    requires Legal(cfg, s, run)
    ensures AllEvolve(s.refreshes, Exec(cfg, s, run).refreshes)
    decreases |run|
  {
    if run != [] {
      var t := Next(cfg, s, run[0]);
      StepEvolves(cfg, s, run[0]);
      RunEvolves(cfg, t, run[1..]);
      var u := Exec(cfg, s, run);
      forall i | 0 <= i < |s.refreshes| ensures Evolves(s.refreshes[i], u.refreshes[i]) {
        assert Evolves(s.refreshes[i], t.refreshes[i]) && Evolves(t.refreshes[i], u.refreshes[i]);
      }
    }
  }

  // ----- throttling -----

  /** MAIN: one fetch at a time, and starts at least an interval apart whether fetches succeed or fail. */
  lemma OneFetchAtATime(cfg: Config, s: State)
    requires Reachable(cfg, s)
    ensures forall i, j | 0 <= i < |s.refreshes| && 0 <= j < |s.refreshes| ::
              Running(s.refreshes[i]) && Running(s.refreshes[j]) ==> i == j
    ensures Spaced(s.refreshes, cfg.interval)
    ensures s.cache.lastFetch.Some? <==> s.refreshes != []
    ensures s.refreshes != [] ==> s.cache.lastFetch.value == s.refreshes[|s.refreshes| - 1].stamp
  {
    ReachableInv(cfg, s);
  }

  /** The refreshes started between two instants. */
  function StartsWithin(refreshes: seq<Refresh>, a: int, b: int): nat {
    if refreshes == [] then 0
    else
      var n := |refreshes| - 1;
      StartsWithin(refreshes[..n], a, b) + if a <= refreshes[n].stamp <= b then 1 else 0
  }

  lemma {:induction false} StartsBeforeLast(refreshes: seq<Refresh>, a: int, b: int, c: int)
    requires forall i :: 0 <= i < |refreshes| ==> refreshes[i].stamp <= c
    requires c <= b
    ensures StartsWithin(refreshes, a, b) == StartsWithin(refreshes, a, c)
  {
    if refreshes != [] { StartsBeforeLast(refreshes[..|refreshes| - 1], a, b, c); }
  }

  lemma {:induction false} StartsTakeTime(refreshes: seq<Refresh>, interval: int, a: int, b: int)
    requires interval > 0 && Spaced(refreshes, interval)
    ensures StartsWithin(refreshes, a, b) > 0 ==> (StartsWithin(refreshes, a, b) - 1) * interval <= b - a
    decreases |refreshes|
  {
    if refreshes != [] {
      var n := |refreshes| - 1;
      var rest, last := refreshes[..n], refreshes[n].stamp;
      if a <= last <= b {
        StartsBeforeLast(rest, a, b, last - interval);
        StartsTakeTime(rest, interval, a, last - interval);
        var k := StartsWithin(rest, a, b);
        if k > 0 {
          assert (k - 1) * interval + interval == k * interval;
        }
      } else {
        StartsTakeTime(rest, interval, a, b);
      }
    }
  }

  /** MAIN: the outbound load a flood of unknown keys can cause in any window of time. */
  lemma RefreshRateIsBounded(cfg: Config, s: State, a: int, b: int)
    requires Reachable(cfg, s) && a <= b
    ensures StartsWithin(s.refreshes, a, b) <= (b - a) / cfg.interval + 1
  {
    OneFetchAtATime(cfg, s);
    StartsTakeTime(s.refreshes, cfg.interval, a, b);
    CountBound(StartsWithin(s.refreshes, a, b), cfg.interval, b - a);
  }

  lemma CountBound(k: nat, d: int, t: int)
    requires d > 0 && t >= 0
    requires k > 0 ==> (k - 1) * d <= t
    ensures k <= t / d + 1
  {
    if k > 0 {
      QuotientBound(k - 1, d, t);
    }
  }

  lemma QuotientBound(k: int, d: int, t: int)
    requires d > 0 && k * d <= t
    ensures k <= t / d
  {
    if k > t / d {
      ProductBound(k - t / d, d);
    }
  }

  lemma ProductBound(g: int, d: int)
    requires g >= 1 && d > 0
    ensures g * d >= d
  {
    assert (g - 1) * d >= 0;
  }

  function Max(a: int, b: int): int {
    if a < b then b else a
  }

  /** The fetcher cleared `inflight` less than `bound` after the stamp. */
  predicate LandsWithin(x: Refresh, bound: int) {
    x.landed.Some? && x.landed.value < x.stamp + bound
  }

  lemma {:induction false} TimePasses(cfg: Config, s: State, run: seq<Action>)
    requires Legal(cfg, s, run)
    ensures s.now <= Exec(cfg, s, run).now
    decreases |run|
  {
    if run != [] { TimePasses(cfg, Next(cfg, s, run[0]), run[1..]); }
  }

  /** What is in flight now lands now or later. */
  lemma {:induction false} LandingIsLater(cfg: Config, s: State, run: seq<Action>, r: nat)
    requires Inv(cfg, s) && Legal(cfg, s, run) && r < |s.refreshes| && Running(s.refreshes[r])
    ensures r < |Exec(cfg, s, run).refreshes|
    ensures Exec(cfg, s, run).refreshes[r].landed.Some? ==> s.now <= Exec(cfg, s, run).refreshes[r].landed.value
    decreases |run|
  {
    assert RefreshInv(s.refreshes[r]);
    if run != [] {
      var t := Next(cfg, s, run[0]);
      StepKeepsInv(cfg, s, run[0]);
      TimePasses(cfg, s, [run[0]]);
      if Running(t.refreshes[r]) {
        LandingIsLater(cfg, t, run[1..], r);
      } else {
        LandedStays(cfg, t, run[1..], r);
      }
    }
  }

  lemma LandedStays(cfg: Config, s: State, run: seq<Action>, r: nat)
    requires Legal(cfg, s, run) && r < |s.refreshes| && !Running(s.refreshes[r])
    ensures r < |Exec(cfg, s, run).refreshes| && Exec(cfg, s, run).refreshes[r].landed == s.refreshes[r].landed
  {
    RunEvolves(cfg, s, run);
    assert Evolves(s.refreshes[r], Exec(cfg, s, run).refreshes[r]);
  }

  /** MAIN: if every refresh started before a miss lands within `bound` of its stamp, that miss is refused only
      before lastFetch + max(interval, bound); at or after that instant it starts a refresh of its own. */
  lemma MissIsServedAfterWindow(cfg: Config, s: State, q: nat, delay: nat, run: seq<Action>, bound: int)
    requires Reachable(cfg, s) && Legal(cfg, s, [Ask(q, delay)] + run)
    requires var u := Exec(cfg, s, [Ask(q, delay)] + run);
             forall r :: 0 <= r < |s.refreshes| && r < |u.refreshes| ==> LandsWithin(u.refreshes[r], bound)
    ensures Sound(s) && Enabled(s, Ask(q, delay))
    ensures var t := Next(cfg, s, Ask(q, delay));
            && (t.requests[q].pc == Done(Refused) ==>
                  s.cache.lastFetch.Some? && s.now < s.cache.lastFetch.value + Max(cfg.interval, bound))
            && (s.cache.lastFetch.None? || s.now >= s.cache.lastFetch.value + Max(cfg.interval, bound) ==>
                  StartsOwnRefresh(s, t, q, delay))
  {
    InFlightIsRecent(cfg, s, [Ask(q, delay)] + run, bound);
    AskInWindow(cfg, s, q, delay, bound);
  }

  /** The request waits for a refresh that it started itself. */
  predicate StartsOwnRefresh(s: State, t: State, q: nat, delay: nat) {
    && q < |t.requests| && t.requests[q].pc == Waiting && t.requests[q].refresh == Some(|s.refreshes|)
    && |t.refreshes| == |s.refreshes| + 1
    && t.refreshes[|s.refreshes|].starter == q
    && t.cache.lastFetch == Some(s.now + delay)
  }

  lemma InFlightIsRecent(cfg: Config, s: State, run: seq<Action>, bound: int)
    requires Reachable(cfg, s) && Legal(cfg, s, run)
    requires forall r :: 0 <= r < |s.refreshes| && r < |Exec(cfg, s, run).refreshes| ==>
               LandsWithin(Exec(cfg, s, run).refreshes[r], bound)
    ensures s.cache.inflight.Some? ==> s.cache.lastFetch.Some? && s.now < s.cache.lastFetch.value + bound
  {
    ReachableInv(cfg, s);
    if s.cache.inflight.Some? {
      var r := s.cache.inflight.value;
      LandingIsLater(cfg, s, run, r);
      RunEvolves(cfg, s, run);
      assert Evolves(s.refreshes[r], Exec(cfg, s, run).refreshes[r]);
    }
  }

  lemma AskInWindow(cfg: Config, s: State, q: nat, delay: nat, bound: int)
    requires Sound(s) && Enabled(s, Ask(q, delay))
    requires s.cache.inflight.Some? ==> s.cache.lastFetch.Some? && s.now < s.cache.lastFetch.value + bound
    ensures var t := Next(cfg, s, Ask(q, delay));
            && (t.requests[q].pc == Done(Refused) ==>
                  s.cache.lastFetch.Some? && s.now < s.cache.lastFetch.value + Max(cfg.interval, bound))
            && (s.cache.lastFetch.None? || s.now >= s.cache.lastFetch.value + Max(cfg.interval, bound) ==>
                  StartsOwnRefresh(s, t, q, delay))
  {
  }

  // ----- a refresh in flight protects what is cached -----

  /** While a refresh is in flight the cached keys are those it was started over. */
  lemma KeysFrozenInFlight(cfg: Config, s: State, run: seq<Action>)
    requires Reachable(cfg, s) && Legal(cfg, s, run)
    requires s.cache.inflight.Some? && Exec(cfg, s, run).cache.inflight == s.cache.inflight
    ensures Exec(cfg, s, run).cache.keys == s.cache.keys
  {
    ReachableInv(cfg, s);
    RunKeepsInv(cfg, s, run);
    RunEvolves(cfg, s, run);
    var r, t := s.cache.inflight.value, Exec(cfg, s, run);
    assert Running(s.refreshes[r]) && Running(t.refreshes[r]);
    assert Evolves(s.refreshes[r], t.refreshes[r]);
  }

  /** MAIN: over a nonempty cache nobody but its starter ever waits for a refresh. */
  lemma OnlyTheStarterWaits(cfg: Config, s: State, q: nat)
    requires Reachable(cfg, s) && q < |s.requests| && s.requests[q].refresh.Some?
    ensures s.requests[q].refresh.value < |s.refreshes|
    ensures s.refreshes[s.requests[q].refresh.value].over != [] ==>
              s.refreshes[s.requests[q].refresh.value].starter == q
  {
    ReachableInv(cfg, s);
    assert RequestInv(cfg, s.refreshes, q, s.requests[q]);
  }

  /** During a refresh in flight another miss is refused on the spot exactly when some key is cached, and
      changes nothing shared; with an empty cache it joins. */
  lemma OtherMissesAreRefused(cfg: Config, s: State, q: nat, delay: nat)
    requires Reachable(cfg, s) && Sound(s) && Enabled(s, Ask(q, delay)) && s.cache.inflight.Some?
    ensures var t := Next(cfg, s, Ask(q, delay));
            && (t.requests[q].pc == Done(Refused) <==> s.cache.keys != [])
            && (s.cache.keys == [] ==> t.requests[q].pc == Waiting && t.requests[q].refresh == s.cache.inflight)
            && t == s.(requests := s.requests[q := t.requests[q]])
  {
  }

  lemma {:induction false} ExecThen(cfg: Config, s: State, run: seq<Action>, a: Action)
    requires Inv(cfg, s) && Legal(cfg, s, run) && Sound(Exec(cfg, s, run)) && Enabled(Exec(cfg, s, run), a)
    ensures Legal(cfg, s, run + [a]) && Exec(cfg, s, run + [a]) == Next(cfg, Exec(cfg, s, run), a)
    decreases |run|
  {
    if run == [] {
      assert run + [a] == [a];
      StepKeepsInv(cfg, s, a);
      assert Legal(cfg, Next(cfg, s, a), []);
    } else {
      assert (run + [a])[1..] == run[1..] + [a];
      StepKeepsInv(cfg, s, run[0]);
      ExecThen(cfg, Next(cfg, s, run[0]), run[1..], a);
    }
  }

  lemma ReachableStep(cfg: Config, s: State, a: Action)
    requires Reachable(cfg, s) && Sound(s) && Enabled(s, a)
    ensures Reachable(cfg, Next(cfg, s, a)) && Sound(Next(cfg, s, a))
  {
    var now, run :| Legal(cfg, Init(now), run) && s == Exec(cfg, Init(now), run);
    ExecThen(cfg, Init(now), run, a);
    ReachableInv(cfg, Next(cfg, s, a));
  }

  /** Over an empty cache any token's first try is a miss. */
  lemma MissArrives(cfg: Config, s: State, token: Token) returns (t: State)
    requires Reachable(cfg, s) && Sound(s) && s.cache.keys == [] && WellFormedToken(token)
    ensures t == s.(requests := s.requests + [Request(token, Asking, [], None, [])])
    ensures Reachable(cfg, t) && Sound(t)
  {
    var q := |s.requests|;
    ReachableStep(cfg, s, Arrive(token));
    t := Next(cfg, s, Arrive(token));
    ReachableStep(cfg, t, Snapshot(q));
    t := Next(cfg, t, Snapshot(q));
    ReachableStep(cfg, t, Try(q));
    t := Next(cfg, t, Try(q));
  }

  /** Joining is not only for a cache that no fetch has filled: after a successful fetch of an empty key set a
      miss joins a refresh that another request started. */
  lemma EmptyFetchIsJoined(cfg: Config, token: Token) returns (s: State, q: nat)
    requires WellFormedToken(token)
    ensures Reachable(cfg, s) && q < |s.requests|
    ensures s.requests[q].pc == Waiting && s.requests[q].refresh == s.cache.inflight == Some(1)
    ensures |s.refreshes| == 2 && s.refreshes[1].starter != q
    ensures Installs(s.refreshes[0]) && s.refreshes[0].result == Ok([])
  {
    s := EmptyFetch(cfg, token);
    s := MissArrives(cfg, s, token);
    ReachableStep(cfg, s, Ask(1, 0));
    s := Next(cfg, s, Ask(1, 0));
    s := MissArrives(cfg, s, token);
    ReachableStep(cfg, s, Ask(2, 0));
    s, q := Next(cfg, s, Ask(2, 0)), 2;
  }

  /** One request's refresh brought an empty key set an interval ago. */
  lemma EmptyFetch(cfg: Config, token: Token) returns (s: State)
    requires WellFormedToken(token)
    ensures Reachable(cfg, s) && Sound(s) && |s.requests| == 1 && |s.refreshes| == 1
    ensures Installs(s.refreshes[0]) && s.refreshes[0].result == Ok([])
    ensures s.cache == Cache([], Some(0), None) && s.now == cfg.interval
  {
    s := FirstFetch(cfg, token);
    ReachableStep(cfg, s, Receive(0, Ok([])));
    s := Next(cfg, s, Receive(0, Ok([])));
    ReachableStep(cfg, s, Install(0));
    s := Next(cfg, s, Install(0));
    ReachableStep(cfg, s, Tick(cfg.interval));
    s := Next(cfg, s, Tick(cfg.interval));
  }

  lemma FirstFetch(cfg: Config, token: Token) returns (s: State)
    requires WellFormedToken(token)
    ensures Reachable(cfg, s) && Sound(s) && s.now == 0 && s.cache == Cache([], Some(0), Some(0))
    ensures |s.requests| == 1 && |s.refreshes| == 1 && s.refreshes[0].phase.Fetching?
  {
    s := Init(0);
    assert Legal(cfg, s, []) && Exec(cfg, s, []) == s;
    s := MissArrives(cfg, s, token);
    ReachableStep(cfg, s, Ask(0, 0));
    s := Next(cfg, s, Ask(0, 0));
  }

  /** MAIN: a token that verifies against its first snapshot is accepted from it and never waits,
      whatever fetches are stalled. */
  lemma CachedTokenNeverWaits(cfg: Config, s: State, q: nat)
    requires Reachable(cfg, s) && q < |s.requests|
    requires var x := s.requests[q];
             WellFormedToken(x.token) && !x.pc.Arrived?
             && VerifyWith(cfg.verify, x.token.signatures[0], x.first).Some?
    ensures var x := s.requests[q];
            && x.refresh.None?
            && (|| (x.pc.FirstTry? && Sound(s) && Enabled(s, Try(q)))
                || x.pc == Done(Accepted(VerifyWith(cfg.verify, x.token.signatures[0], x.first).value)))
  {
    ReachableInv(cfg, s);
    assert RequestInv(cfg, s.refreshes, q, s.requests[q]);
  }

  // ----- no request is stranded -----

  function Rank(pc: PC): nat {
    match pc
    case Arrived => 6
    case FirstTry => 5
    case Asking => 4
    case Waiting => 3
    case Rereading => 2
    case SecondTry => 1
    case Done(_) => 0
  }

  function PhaseRank(p: Phase): nat {
    match p
    case Fetching => 4
    case Received => 3
    case Landed => 2
    case Written => 1
    case Closed => 0
  }

  /** The steps left to a request, counting those of the fetcher it waits for. */
  function Measure(s: State, q: nat): nat
    requires Sound(s) && q < |s.requests|
  {
    var x := s.requests[q];
    5 * Rank(x.pc) + if x.pc.Waiting? then PhaseRank(s.refreshes[x.refresh.value].phase) else 0
  }

  /** The step that brings a request closer to its end: its own, or its fetcher's. It never gives up. */
  function Helpful(s: State, q: nat, result: FetchResult): Action
    requires Sound(s) && q < |s.requests|
  {
    var x := s.requests[q];
    match x.pc
    case Arrived => if WellFormedToken(x.token) then Snapshot(q) else Reject(q)
    case FirstTry => Try(q)
    case Asking => Ask(q, 0)
    case Rereading => Reread(q)
    case SecondTry => Try(q)
    case Waiting =>
      var r := x.refresh.value;
      (match s.refreshes[r].phase
       case Fetching => Receive(r, result)
       case Received => Install(r)
       case Landed => WriteErr(r)
       case Written => Close(r)
       case Closed => Wake(q))
    case Done(_) => Tick(0)
  }

  lemma NextIsSound(cfg: Config, s: State, a: Action)
    requires Inv(cfg, s) && Enabled(s, a)
    ensures Sound(Next(cfg, s, a)) && |s.requests| <= |Next(cfg, s, a).requests|
  {
    StepKeepsInv(cfg, s, a);
  }

  predicate IsOwn(a: Action, q: nat) {
    (a.Reject? || a.Snapshot? || a.Try? || a.Ask? || a.Cancel? || a.Wake? || a.Reread?) && a.q == q
  }

  /** A request's own step takes it forward in rank, and to a new wait only from higher up. */
  lemma OwnStepRanks(cfg: Config, s: State, a: Action, q: nat)
    requires Inv(cfg, s) && Enabled(s, a) && q < |s.requests| && IsOwn(a, q)
    ensures Rank(Next(cfg, s, a).requests[q].pc) < Rank(s.requests[q].pc)
  {
    assert RequestInv(cfg, s.refreshes, q, s.requests[q]);
  }

  lemma OtherStepRanks(cfg: Config, s: State, a: Action, q: nat)
    requires Inv(cfg, s) && Enabled(s, a) && q < |s.requests| && !IsOwn(a, q)
    ensures Next(cfg, s, a).requests[q] == s.requests[q] && |s.refreshes| <= |Next(cfg, s, a).refreshes|
    ensures forall r :: 0 <= r < |s.refreshes| ==>
              PhaseRank(Next(cfg, s, a).refreshes[r].phase) <= PhaseRank(s.refreshes[r].phase)
  {
  }

  lemma FetcherStepRanks(cfg: Config, s: State, a: Action)
    requires Inv(cfg, s) && Enabled(s, a)
    requires a.Receive? || a.Install? || a.WriteErr? || a.Close?
    ensures PhaseRank(Next(cfg, s, a).refreshes[a.r].phase) < PhaseRank(s.refreshes[a.r].phase)
  {
  }

  lemma HelpfulIsEnabled(cfg: Config, s: State, q: nat, result: FetchResult)
    requires Inv(cfg, s) && q < |s.requests| && !s.requests[q].pc.Done?
    ensures Enabled(s, Helpful(s, q, result))
  {
    var x := s.requests[q];
    if x.pc.Waiting? {
      assert RefreshInv(s.refreshes[x.refresh.value]);
    }
  }

  /** The measure is lexicographic: a drop in rank outweighs any phase. */
  lemma RankOutweighsPhase(s: State, t: State, q: nat)
    requires Sound(s) && Sound(t) && q < |s.requests| && q < |t.requests|
    requires Rank(t.requests[q].pc) < Rank(s.requests[q].pc)
    ensures Measure(t, q) < Measure(s, q)
  {
  }

  lemma PhaseCounts(s: State, t: State, q: nat)
    requires Sound(s) && Sound(t) && q < |s.requests| && q < |t.requests| && t.requests[q] == s.requests[q]
    requires |s.refreshes| <= |t.refreshes|
    requires forall r :: 0 <= r < |s.refreshes| ==> PhaseRank(t.refreshes[r].phase) <= PhaseRank(s.refreshes[r].phase)
    ensures Measure(t, q) <= Measure(s, q)
    ensures s.requests[q].pc.Waiting? ==>
              var r := s.requests[q].refresh.value;
              PhaseRank(t.refreshes[r].phase) < PhaseRank(s.refreshes[r].phase) ==> Measure(t, q) < Measure(s, q)
  {
  }

  /** A step of the request itself, or of the fetcher it waits for. */
  predicate IsHelpful(s: State, q: nat, a: Action)
    requires q < |s.requests|
  {
    || IsOwn(a, q)
    || (&& s.requests[q].pc.Waiting? && (a.Receive? || a.Install? || a.WriteErr? || a.Close?)
        && s.requests[q].refresh == Some(a.r))
  }

  lemma HelpfulStepLowers(cfg: Config, s: State, q: nat, a: Action)
    requires Inv(cfg, s) && Enabled(s, a) && q < |s.requests| && IsHelpful(s, q, a)
    ensures Sound(Next(cfg, s, a)) && q < |Next(cfg, s, a).requests|
    ensures Measure(Next(cfg, s, a), q) < Measure(s, q)
  {
    NextIsSound(cfg, s, a);
    if IsOwn(a, q) {
      OwnStepRanks(cfg, s, a, q);
      RankOutweighsPhase(s, Next(cfg, s, a), q);
    } else {
      OtherStepRanks(cfg, s, a, q);
      FetcherStepRanks(cfg, s, a);
      PhaseCounts(s, Next(cfg, s, a), q);
    }
  }

  lemma HelpfulStepHelps(cfg: Config, s: State, q: nat, result: FetchResult)
    requires Inv(cfg, s) && q < |s.requests| && !s.requests[q].pc.Done?
    ensures Enabled(s, Helpful(s, q, result)) && IsHelpful(s, q, Helpful(s, q, result))
    ensures Sound(Next(cfg, s, Helpful(s, q, result)))
    ensures q < |Next(cfg, s, Helpful(s, q, result)).requests|
    ensures Measure(Next(cfg, s, Helpful(s, q, result)), q) < Measure(s, q)
  {
    HelpfulIsEnabled(cfg, s, q, result);
    HelpfulStepLowers(cfg, s, q, Helpful(s, q, result));
  }

  /** No step of anybody sends a request back. */
  lemma StepNeverHinders(cfg: Config, s: State, a: Action, q: nat)
    requires Inv(cfg, s) && Enabled(s, a) && q < |s.requests|
    ensures Sound(Next(cfg, s, a)) && q < |Next(cfg, s, a).requests|
    ensures Measure(Next(cfg, s, a), q) <= Measure(s, q)
  {
    NextIsSound(cfg, s, a);
    if IsOwn(a, q) {
      OwnStepRanks(cfg, s, a, q);
      RankOutweighsPhase(s, Next(cfg, s, a), q);
    } else {
      OtherStepRanks(cfg, s, a, q);
      PhaseCounts(s, Next(cfg, s, a), q);
    }
  }

  /** How many steps of a run are the request's own or those of the fetcher it waits for. */
  ghost function HelpfulCount(cfg: Config, s: State, run: seq<Action>, q: nat): nat
    requires Legal(cfg, s, run)
    decreases |run|
  {
    if run == [] then 0
    else
      (if q < |s.requests| && IsHelpful(s, q, run[0]) then 1 else 0)
      + HelpfulCount(cfg, Next(cfg, s, run[0]), run[1..], q)
  }

  lemma {:induction false} HelpfulStepsCount(cfg: Config, s: State, run: seq<Action>, q: nat)
    requires Inv(cfg, s) && Legal(cfg, s, run) && q < |s.requests|
    ensures Sound(Exec(cfg, s, run)) && q < |Exec(cfg, s, run).requests|
    ensures HelpfulCount(cfg, s, run, q) + Measure(Exec(cfg, s, run), q) <= Measure(s, q)
    decreases |run|
  {
    if run != [] {
      StepKeepsInv(cfg, s, run[0]);
      StepNeverHinders(cfg, s, run[0], q);
      if IsHelpful(s, q, run[0]) {
        HelpfulStepLowers(cfg, s, q, run[0]);
      }
      HelpfulStepsCount(cfg, Next(cfg, s, run[0]), run[1..], q);
    }
  }

  lemma RequestCanGoOn(cfg: Config, u: State, q: nat, result: FetchResult)
    requires Inv(cfg, u) && q < |u.requests|
    ensures u.requests[q].pc.Done? || (Enabled(u, Helpful(u, q, result)) && IsHelpful(u, q, Helpful(u, q, result)))
    ensures u.requests[q].pc.Waiting? ==> Enabled(u, Cancel(q))
    ensures Measure(u, q) == 0 ==> u.requests[q].pc.Done?
    ensures Measure(u, q) <= 30
  {
    if !u.requests[q].pc.Done? {
      HelpfulStepHelps(cfg, u, q, result);
    }
  }

  /** MAIN: in every run, however the others' steps are interleaved, a request has ended by the time that 30
      steps of its own or of the fetcher it waits for were taken; until then one of them is enabled. */
  lemma NoRequestIsStranded(cfg: Config, s: State, run: seq<Action>, q: nat, result: FetchResult)
    requires Reachable(cfg, s) && Legal(cfg, s, run) && q < |s.requests|
    ensures Sound(Exec(cfg, s, run)) && q < |Exec(cfg, s, run).requests|
    ensures HelpfulCount(cfg, s, run, q) <= 30
    ensures HelpfulCount(cfg, s, run, q) == 30 ==> Exec(cfg, s, run).requests[q].pc.Done?
    ensures var u := Exec(cfg, s, run);
            && (u.requests[q].pc.Done? || (Enabled(u, Helpful(u, q, result)) && IsHelpful(u, q, Helpful(u, q, result))))
            && (u.requests[q].pc.Waiting? ==> Enabled(u, Cancel(q)))
  {
    ReachableInv(cfg, s);
    RunKeepsInv(cfg, s, run);
    HelpfulStepsCount(cfg, s, run, q);
    RequestCanGoOn(cfg, s, q, result);
    RequestCanGoOn(cfg, Exec(cfg, s, run), q, result);
  }

  function ReadsBy(run: seq<Action>, q: nat): nat {
    if run == [] then 0
    else (if run[0] == Snapshot(q) || run[0] == Reread(q) then 1 else 0) + ReadsBy(run[1..], q)
  }

  function AsksBy(run: seq<Action>, q: nat): nat {
    if run == [] then 0
    else (if run[0].Ask? && run[0].q == q then 1 else 0) + AsksBy(run[1..], q)
  }

  function ReadsLeft(pc: PC): nat {
    if pc.Arrived? then 2 else if pc.SecondTry? || pc.Done? then 0 else 1
  }

  function AsksLeft(pc: PC): nat {
    if pc.Arrived? || pc.FirstTry? || pc.Asking? then 1 else 0
  }

  /** MAIN: in any run a request takes at most two key snapshots and enters `refresh` at most once. */
  lemma {:induction false} RequestWorkIsBounded(cfg: Config, s: State, run: seq<Action>, q: nat)
    requires Legal(cfg, s, run) && q < |s.requests|
    ensures ReadsBy(run, q) <= ReadsLeft(s.requests[q].pc) <= 2
    ensures AsksBy(run, q) <= AsksLeft(s.requests[q].pc) <= 1
    decreases |run|
  {
    if run != [] {
      RequestWorkIsBounded(cfg, Next(cfg, s, run[0]), run[1..], q);
    }
  }

  /** Everybody who waited for the same refresh learned the same outcome, and it never changes. */
  lemma WaitersAgree(cfg: Config, s: State, p: nat, q: nat)
    requires Reachable(cfg, s) && p < |s.requests| && q < |s.requests|
    requires s.requests[p].refresh.Some? && s.requests[p].refresh == s.requests[q].refresh
    requires s.requests[p].pc.Done? && s.requests[p].pc.outcome.FetchFailed?
    ensures var y := s.requests[q];
            y.pc.Waiting? || y.pc == s.requests[p].pc || y.pc == Done(Cancelled)
  {
    ReachableInv(cfg, s);
    assert RequestInv(cfg, s.refreshes, p, s.requests[p]);
    assert RequestInv(cfg, s.refreshes, q, s.requests[q]);
  }

  /** Once closed a refresh result is final, and a closed one tells exactly what its fetch brought. */
  lemma ClosedResultIsFinal(cfg: Config, s: State, run: seq<Action>, r: nat)
    requires Reachable(cfg, s) && Legal(cfg, s, run) && r < |s.refreshes| && s.refreshes[r].done
    ensures s.refreshes[r].err == ErrorOf(s.refreshes[r].result)
    ensures r < |Exec(cfg, s, run).refreshes| && Exec(cfg, s, run).refreshes[r] == s.refreshes[r]
  {
    ReachableInv(cfg, s);
    assert RefreshInv(s.refreshes[r]);
    RunEvolves(cfg, s, run);
    assert Evolves(s.refreshes[r], Exec(cfg, s, run).refreshes[r]);
  }

  // ----- only published keys vouch for tokens -----

  /** MAIN: a payload is returned only under a key that the issuer published in some successful fetch. */
  lemma AcceptedUnderPublishedKey(cfg: Config, s: State, q: nat)
    requires Reachable(cfg, s) && q < |s.requests|
    requires s.requests[q].pc.Done? && s.requests[q].pc.outcome.Accepted?
    ensures WellFormedToken(s.requests[q].token)
    ensures exists r, k ::
              && 0 <= r < |s.refreshes| && Installs(s.refreshes[r]) && k in s.refreshes[r].result.value
              && IsToBeTried(s.requests[q].token.signatures[0], k)
              && cfg.verify(s.requests[q].token.signatures[0], k) == Some(s.requests[q].pc.outcome.payload)
  {
    ReachableInv(cfg, s);
    var x := s.requests[q];
    assert RequestInv(cfg, s.refreshes, q, x);
    var keys := if x.refresh.None? then x.first else x.second;
    var jws := x.token.signatures[0];
    assert VerifyWith(cfg.verify, jws, keys) == Some(x.pc.outcome.payload);
    var k :| k in keys && IsToBeTried(jws, k) && cfg.verify(jws, k) == Some(x.pc.outcome.payload);
    assert Published(s.refreshes, keys, 0);
    var r :| 0 <= r < |s.refreshes| && Installs(s.refreshes[r]) && s.refreshes[r].result.value == keys;
  }

  /** The cached keys change only where a successful fetch lands, and then to what it brought. */
  lemma OnlySuccessfulFetchesChangeKeys(cfg: Config, s: State, a: Action)
    requires Reachable(cfg, s) && Sound(s) && Enabled(s, a)
    requires Next(cfg, s, a).cache.keys != s.cache.keys
    ensures a.Install? && s.refreshes[a.r].result == Ok(Next(cfg, s, a).cache.keys)
    ensures Installs(Next(cfg, s, a).refreshes[a.r]) && !Installs(s.refreshes[a.r])
  {
  }

  /** A key in the cache that every later successful fetch lists stays in the cache. */
  lemma {:induction false} ListedKeyIsNeverLost(cfg: Config, s: State, run: seq<Action>, k: Key)
    requires Inv(cfg, s) && Legal(cfg, s, run) && k in s.cache.keys
    requires forall r | 0 <= r < |Exec(cfg, s, run).refreshes| && Installs(Exec(cfg, s, run).refreshes[r]) ::
               (r < |s.refreshes| && Installs(s.refreshes[r])) || k in Exec(cfg, s, run).refreshes[r].result.value
    ensures k in Exec(cfg, s, run).cache.keys
    decreases |run|
  {
    if run != [] {
      var a := run[0];
      var t, u := Next(cfg, s, a), Exec(cfg, s, run);
      StepKeepsInv(cfg, s, a);
      StepEvolves(cfg, s, a);
      RunEvolves(cfg, t, run[1..]);
      if t.cache.keys != s.cache.keys {
        assert a.Install?;
        assert Installs(t.refreshes[a.r]) && Evolves(t.refreshes[a.r], u.refreshes[a.r]);
        assert Installs(u.refreshes[a.r]) && u.refreshes[a.r].result == t.refreshes[a.r].result;
      }
      forall r | 0 <= r < |u.refreshes| && Installs(u.refreshes[r]) && !(r < |t.refreshes| && Installs(t.refreshes[r]))
        ensures k in u.refreshes[r].result.value
      {
        if r < |s.refreshes| {
          assert Evolves(s.refreshes[r], t.refreshes[r]);
        }
      }
      ListedKeyIsNeverLost(cfg, t, run[1..], k);
    }
  }

  // ----- key rotation -----

  /** The same request later on. */
  predicate RequestEvolves(x: Request, y: Request) {
    && y.token == x.token
    && (x.refresh.Some? ==> y.refresh == x.refresh)
    && (!x.pc.Arrived? ==> !y.pc.Arrived? && y.first == x.first)
    && (x.pc.Done? ==> y == x)
  }

  lemma StepKeepsRequest(cfg: Config, s: State, a: Action, q: nat)
    requires Inv(cfg, s) && Enabled(s, a) && q < |s.requests|
    ensures q < |Next(cfg, s, a).requests|
    ensures RequestEvolves(s.requests[q], Next(cfg, s, a).requests[q])
  {
    assert RequestInv(cfg, s.refreshes, q, s.requests[q]);
  }

  lemma {:induction false} RunKeepsRequest(cfg: Config, s: State, run: seq<Action>, q: nat)
    requires Inv(cfg, s) && Legal(cfg, s, run) && q < |s.requests|
    ensures q < |Exec(cfg, s, run).requests|
    ensures RequestEvolves(s.requests[q], Exec(cfg, s, run).requests[q])
    decreases |run|
  {
    if run != [] {
      StepKeepsRequest(cfg, s, run[0], q);
      StepKeepsInv(cfg, s, run[0]);
      RunKeepsRequest(cfg, Next(cfg, s, run[0]), run[1..], q);
    }
  }

  /** Some candidate key of `keys` vouches for the token. */
  ghost predicate Vouches(cfg: Config, token: Token, keys: seq<Key>) {
    WellFormedToken(token)
    && exists k :: k in keys && IsToBeTried(token.signatures[0], k) && cfg.verify(token.signatures[0], k).Some?
  }

  /** A request ends cancelled only by its caller's own cancellation. */
  lemma {:induction false} CancelledByItsCaller(cfg: Config, s: State, run: seq<Action>, q: nat)
    requires Inv(cfg, s) && Legal(cfg, s, run) && q < |s.requests| && s.requests[q].pc != Done(Cancelled)
    requires q < |Exec(cfg, s, run).requests| && Exec(cfg, s, run).requests[q].pc == Done(Cancelled)
    ensures Cancel(q) in run
    decreases |run|
  {
    StepKeepsInv(cfg, s, run[0]);
    StepKeepsRequest(cfg, s, run[0], q);
    if run[0] != Cancel(q) {
      OthersDoNotCancel(cfg, s, run[0], q);
      CancelledByItsCaller(cfg, Next(cfg, s, run[0]), run[1..], q);
      assert run == [run[0]] + run[1..];
    }
  }

  lemma OthersDoNotCancel(cfg: Config, s: State, a: Action, q: nat)
    requires Inv(cfg, s) && Enabled(s, a) && q < |s.requests| && s.requests[q].pc != Done(Cancelled)
    requires a != Cancel(q)
    ensures q < |Next(cfg, s, a).requests| && Next(cfg, s, a).requests[q].pc != Done(Cancelled)
  {
  }

  lemma RefreshedRequestEndsWell(cfg: Config, s: State, q: nat)
    requires Inv(cfg, s) && q < |s.requests| && s.requests[q].refresh.Some?
    requires var r := s.requests[q].refresh.value; r < |s.refreshes| && Installs(s.refreshes[r])
    requires AllVouch(cfg, s.requests[q].token, s.refreshes, s.requests[q].refresh.value)
    requires s.requests[q].pc.Done?
    ensures s.requests[q].pc.outcome.Accepted? || s.requests[q].pc.outcome.Cancelled?
  {
    var x := s.requests[q];
    assert RequestInv(cfg, s.refreshes, q, x);
  }

  /** A request that waits for a refresh, and is not given up, ends accepted if that fetch and all later
      successful ones list a key that vouches for its token: it reads no older keys again. */
  lemma RefreshedRequestSucceeds(cfg: Config, s: State, run: seq<Action>, q: nat)
    requires Inv(cfg, s) && Legal(cfg, s, run)
    requires q < |s.requests| && s.requests[q].refresh.Some? && s.requests[q].pc != Done(Cancelled)
    requires var u, r := Exec(cfg, s, run), s.requests[q].refresh.value;
             && r < |u.refreshes| && Installs(u.refreshes[r])
             && AllVouch(cfg, s.requests[q].token, u.refreshes, r)
             && q < |u.requests| && u.requests[q].pc.Done?
    requires Cancel(q) !in run
    ensures Exec(cfg, s, run).requests[q].pc.outcome.Accepted?
  {
    RunKeepsInv(cfg, s, run);
    RunKeepsRequest(cfg, s, run, q);
    RefreshedRequestEndsWell(cfg, Exec(cfg, s, run), q);
    if Exec(cfg, s, run).requests[q].pc == Done(Cancelled) {
      CancelledByItsCaller(cfg, s, run, q);
    }
  }

  /** The refresh that a miss started, and the token it is for, later in the run. */
  lemma OwnRefreshLater(cfg: Config, t: State, run: seq<Action>, q: nat, r: nat)
    requires Inv(cfg, t) && Legal(cfg, t, run) && q < |t.requests| && t.requests[q].refresh == Some(r)
    ensures var u := Exec(cfg, t, run);
            && Inv(cfg, u) && q < |u.requests| && r < |u.refreshes|
            && u.requests[q].refresh == Some(r) && u.requests[q].token == t.requests[q].token
  {
    RunKeepsInv(cfg, t, run);
    RunKeepsRequest(cfg, t, run, q);
    RunEvolves(cfg, t, run);
    assert RequestInv(cfg, t.refreshes, q, t.requests[q]);
  }

  /** Every fetch from refresh `r` on that succeeded lists a key that vouches for the token. */
  ghost predicate AllVouch(cfg: Config, token: Token, refreshes: seq<Refresh>, r: nat) {
    forall j :: r <= j < |refreshes| && Installs(refreshes[j]) ==> Vouches(cfg, token, refreshes[j].result.value)
  }

  /** MAIN: rotation. A miss past the throttle window starts a refresh; if that fetch and every later
      successful one list a key that vouches for the token, the request ends accepted unless its caller gives up
      in that run. */
  lemma RotationIsPickedUp(cfg: Config, s: State, q: nat, delay: nat, bound: int, run: seq<Action>)
    requires Reachable(cfg, s) && Legal(cfg, s, [Ask(q, delay)] + run)
    requires var u := Exec(cfg, s, [Ask(q, delay)] + run);
             forall r :: 0 <= r < |s.refreshes| && r < |u.refreshes| ==> LandsWithin(u.refreshes[r], bound)
    requires s.cache.lastFetch.None? || s.now >= s.cache.lastFetch.value + Max(cfg.interval, bound)
    requires Cancel(q) !in run
    ensures var u, r := Exec(cfg, s, [Ask(q, delay)] + run), |s.refreshes|;
            && q < |s.requests| && q < |u.requests| && r < |u.refreshes|
            && (u.requests[q].pc.Done? && Installs(u.refreshes[r]) && AllVouch(cfg, s.requests[q].token, u.refreshes, r)
                ==> u.requests[q].pc.outcome.Accepted?)
  {
    ReachableInv(cfg, s);
    MissIsServedAfterWindow(cfg, s, q, delay, run, bound);
    var t, r := Next(cfg, s, Ask(q, delay)), |s.refreshes|;
    StepKeepsInv(cfg, s, Ask(q, delay));
    StepKeepsRequest(cfg, s, Ask(q, delay), q);
    assert ([Ask(q, delay)] + run)[1..] == run;
    OwnRefreshLater(cfg, t, run, q, r);
    var u := Exec(cfg, t, run);
    if u.requests[q].pc.Done? && Installs(u.refreshes[r]) && AllVouch(cfg, s.requests[q].token, u.refreshes, r) {
      RefreshedRequestSucceeds(cfg, t, run, q);
    }
  }
}
