/** Token sources in any number of processes sharing one cache file, while the credentials they resolve
    may change at any step. A step is one call into the environment or one locked section. */
module TokenCacheProtocol {
  import opened Wrappers
  import opened CacheFormat

  /** `cached`: a cache path is set; `hasProvider`: a credentials provider is configured. */
  datatype SourceConfig = SourceConfig(cached: bool, hasProvider: bool, audience: string, refreshBefore: int)

  /** `fingerprint` hashes an access key ID. */
  datatype World = World(codec: Codec, fingerprint: string -> string, sources: seq<SourceConfig>)

  datatype How = Fresh | FromCache(key: string, readAt: int, until: int)

  /** `Hit` to `Returned` is the cached path; `Minting(None)` signs with whatever the client resolves. */
  datatype CallerPC =
    | Called
    | Reading(key: string)
    | Hit(key: string, token: string, exp: int, readAt: int)
    | Minting(signer: Option<string>)
    | Writing(key: string, token: string)
    | Returned(token: string, how: How)
    | Failed

  datatype Caller = Caller(src: nat, pc: CallerPC)

  datatype RefresherPC =
    | Spawned
    | RMinting(key: string)
    | RWriting(key: string, token: string)
    | Resetting
    | Gone

  datatype Refresher = Refresher(src: nat, pc: RefresherPC)

  /** `principals` is the access key each source's provider would yield now (None: it would fail);
      `minted` records every token issued with the access key that signed the request. */
  datatype State = State(now: int, file: Option<string>, principals: seq<Option<string>>,
                         minted: set<(string, string)>, refreshing: seq<bool>,
                         callers: seq<Caller>, refreshers: seq<Refresher>)

  datatype Action =
    | Tick(d: nat)
    | Switch(src: nat, principal: Option<string>)
    | Interfere(content: Option<string>)
    | Call(src: nat)
    | Pin(c: nat, resolves: bool)
    | ReadFile(c: nat, readable: bool, delay: nat)
    | Decide(c: nat)
    | Mint(c: nat, issued: Option<string>)
    | Write(c: nat, renamed: bool)
    | RPin(j: nat, resolves: bool)
    | RMint(j: nat, issued: Option<string>)
    | RWrite(j: nat, renamed: bool)
    | RReset(j: nat)

  // ----- steps -----

  predicate Sound(w: World, s: State) {
    && |s.principals| == |w.sources| && |s.refreshing| == |w.sources|
    && (forall c :: 0 <= c < |s.callers| ==> s.callers[c].src < |w.sources|)
    && (forall j :: 0 <= j < |s.refreshers| ==> s.refreshers[j].src < |w.sources|)
  }

  /** The file holds an entry of the current format. */
  predicate IsCurrentEntry(w: World, text: string) {
    w.codec.unmarshal(text).Some? && w.codec.unmarshal(text).value.version == "awsauth.cache.v2"
  }

  predicate Enabled(w: World, s: State, a: Action) {
    match a
    case Tick(_) => true
    case Switch(src, _) => src < |w.sources|
    case Interfere(content) => content.Some? ==> !IsCurrentEntry(w, content.value)
    case Call(src) => src < |w.sources|
    case Pin(c, _) => c < |s.callers| && s.callers[c].pc.Called?
    case ReadFile(c, _, _) => c < |s.callers| && s.callers[c].pc.Reading?
    case Decide(c) => c < |s.callers| && s.callers[c].pc.Hit?
    case Mint(c, issued) => c < |s.callers| && s.callers[c].pc.Minting? && issued != Some("")
    case Write(c, _) => c < |s.callers| && s.callers[c].pc.Writing?
    case RPin(j, _) => j < |s.refreshers| && s.refreshers[j].pc.Spawned?
    case RMint(j, issued) => j < |s.refreshers| && s.refreshers[j].pc.RMinting? && issued != Some("")
    case RWrite(j, _) => j < |s.refreshers| && s.refreshers[j].pc.RWriting?
    case RReset(j) => j < |s.refreshers| && s.refreshers[j].pc.Resetting?
  }

  function Resolved(w: World, s: State, src: nat, resolves: bool): Option<string>
    requires Sound(w, s) && src < |w.sources|
  {
    if resolves && w.sources[src].hasProvider then s.principals[src] else None
  }

  function SetPC(s: State, c: nat, pc: CallerPC): State
    requires c < |s.callers|
  {
    s.(callers := s.callers[c := s.callers[c].(pc := pc)])
  }

  function SetRPC(s: State, j: nat, pc: RefresherPC): State
    requires j < |s.refreshers|
  {
    s.(refreshers := s.refreshers[j := s.refreshers[j].(pc := pc)])
  }

  /** The atomic rename at the end of a write, or nothing if any part of it failed. */
  function Stored(w: World, s: State, key: string, token: string, renamed: bool): State {
    s.(file := AfterWrite(w.codec, s.file, w.fingerprint(key), token, renamed))
  }

  function Issued(s: State, token: string, signer: Option<string>): State {
    if signer.Some? then s.(minted := s.minted + {(token, signer.value)}) else s
  }

  function FileHit(w: World, s: State, c: nat, key: string, readable: bool, at: int): Option<(string, int)>
    requires Sound(w, s) && c < |s.callers|
  {
    if !readable then None
    else Lookup(w.codec, s.file, w.fingerprint(key), w.sources[s.callers[c].src].audience, at)
  }

  /** A cached token close to its expiry also spawns a refresher, unless one is at work. */
  function Spawn(w: World, s: State, src: nat, exp: int): State
    requires Sound(w, s) && src < |w.sources|
  {
    if exp - s.now < w.sources[src].refreshBefore && !s.refreshing[src]
    then s.(refreshing := s.refreshing[src := true], refreshers := s.refreshers + [Refresher(src, Spawned)])
    else s
  }

  predicate IsCallerStep(a: Action) {
    a.Pin? || a.ReadFile? || a.Decide? || a.Mint? || a.Write?
  }

  /** Where a caller's own step takes it. */
  function OwnPC(w: World, s: State, a: Action): CallerPC
    requires Sound(w, s) && Enabled(w, s, a) && IsCallerStep(a)
  {
    var x := s.callers[a.c];
    match a
    case Pin(_, resolves) =>
      var key := if w.sources[x.src].cached then Resolved(w, s, x.src, resolves) else None;
      if key.Some? then Reading(key.value) else Minting(None)
    case ReadFile(c, readable, delay) =>
      var hit := FileHit(w, s, c, x.pc.key, readable, s.now + delay);
      if hit.Some? then Hit(x.pc.key, hit.value.0, hit.value.1, s.now + delay) else Minting(Some(x.pc.key))
    case Decide(_) => Returned(x.pc.token, FromCache(x.pc.key, x.pc.readAt, x.pc.exp))
    case Mint(_, issued) =>
      if issued.None? then Failed
      else if x.pc.signer.None? then Returned(issued.value, Fresh)
      else Writing(x.pc.signer.value, issued.value)
    case Write(_, _) => Returned(x.pc.token, Fresh)
    case _ => x.pc
  }

  /** What a caller's own step does to everything else. */
  function OwnEffect(w: World, s: State, a: Action): State
    requires Sound(w, s) && Enabled(w, s, a) && IsCallerStep(a)
  {
    var x := s.callers[a.c];
    match a
    case ReadFile(_, _, delay) => s.(now := s.now + delay)
    case Decide(_) => Spawn(w, s, x.src, x.pc.exp)
    case Mint(_, issued) =>
      if issued.None? then s
      else Issued(s, issued.value, if x.pc.signer.None? then s.principals[x.src] else x.pc.signer)
    case Write(_, renamed) => Stored(w, s, x.pc.key, x.pc.token, renamed)
    case _ => s
  }

  function Next(w: World, s: State, a: Action): State
    requires Sound(w, s) && Enabled(w, s, a)
  {
    match a
    case Tick(d) => s.(now := s.now + d)
    case Switch(src, principal) => s.(principals := s.principals[src := principal])
    case Interfere(content) => s.(file := content)
    case Call(src) => s.(callers := s.callers + [Caller(src, Called)])
    case RPin(j, resolves) =>
      var key := Resolved(w, s, s.refreshers[j].src, resolves);
      SetRPC(s, j, if key.Some? then RMinting(key.value) else Resetting)
    case RMint(j, issued) =>
      var key := s.refreshers[j].pc.key;
      if issued.None? then SetRPC(s, j, Resetting)
      else SetRPC(Issued(s, issued.value, Some(key)), j, RWriting(key, issued.value))
    case RWrite(j, renamed) =>
      var pc := s.refreshers[j].pc;
      SetRPC(Stored(w, s, pc.key, pc.token, renamed), j, Resetting)
    case RReset(j) =>
      SetRPC(s.(refreshing := s.refreshing[s.refreshers[j].src := false]), j, Gone)
    case _ => SetPC(OwnEffect(w, s, a), a.c, OwnPC(w, s, a))
  }

  // ----- invariants -----

  /** The entry's token was minted by the key whose fingerprint the entry carries. */
  ghost predicate Bound(w: World, minted: set<(string, string)>, e: CacheEntry) {
    exists key :: e.credential == w.fingerprint(key) && (e.token, key) in minted
  }

  /** Every current-format entry in the file is bound to its minter. */
  ghost predicate FileBound(w: World, file: Option<string>, minted: set<(string, string)>) {
    file.Some? && IsCurrentEntry(w, file.value) ==> Bound(w, minted, w.codec.unmarshal(file.value).value)
  }

  /** Some token minted by this key is the given one up to surrounding space. */
  ghost predicate MintedBy(minted: set<(string, string)>, key: string, token: string) {
    exists raw :: TrimmedFrom(token, raw) && (raw, key) in minted
  }

  ghost predicate GoodHit(w: World, minted: set<(string, string)>, src: nat, key: string, token: string, readAt: int,
                          until: int)
    requires src < |w.sources|
  {
    MintedBy(minted, key, token) && Unexpired(w.codec, token, w.sources[src].audience, readAt, until)
  }

  ghost predicate CallerInv(w: World, minted: set<(string, string)>, x: Caller)
    requires x.src < |w.sources|
  {
    match x.pc
    case Reading(_) => w.sources[x.src].cached
    case Minting(Some(_)) => w.sources[x.src].cached
    case Writing(key, token) => (token, key) in minted && w.sources[x.src].cached
    case Hit(key, token, until, readAt) =>
      GoodHit(w, minted, x.src, key, token, readAt, until) && w.sources[x.src].cached
    case Returned(token, FromCache(key, readAt, until)) => GoodHit(w, minted, x.src, key, token, readAt, until)
    case _ => true
  }

  predicate Alive(x: Refresher) {
    !x.pc.Gone?
  }

  ghost predicate RefreshersInv(s: State) {
    && (forall j :: 0 <= j < |s.refreshers| && Alive(s.refreshers[j]) ==>
          s.refreshers[j].src < |s.refreshing| && s.refreshing[s.refreshers[j].src])
    && (forall i, j :: 0 <= i < j < |s.refreshers| && Alive(s.refreshers[i]) && Alive(s.refreshers[j]) ==>
          s.refreshers[i].src != s.refreshers[j].src)
    && (forall src :: 0 <= src < |s.refreshing| && s.refreshing[src] ==> HasRefresher(s, src))
    && (forall j :: 0 <= j < |s.refreshers| && s.refreshers[j].pc.RWriting? ==>
          (s.refreshers[j].pc.token, s.refreshers[j].pc.key) in s.minted)
  }

  ghost predicate HasRefresher(s: State, src: nat) {
    exists j :: 0 <= j < |s.refreshers| && s.refreshers[j].src == src && Alive(s.refreshers[j])
  }

  ghost predicate Inv(w: World, s: State) {
    && Sound(w, s)
    && FileBound(w, s.file, s.minted)
    && (forall c :: 0 <= c < |s.callers| ==> CallerInv(w, s.minted, s.callers[c]))
    && RefreshersInv(s)
  }

  /** Distinct access keys have distinct fingerprints, and what is encoded decodes again. */
  ghost predicate Assumptions(w: World) {
    && RoundTrips(w.codec)
    && forall k, l :: w.fingerprint(k) == w.fingerprint(l) ==> k == l
  }

  /** No call is running, and the file is whatever earlier processes left: absent, foreign or bound. */
  ghost predicate Init(w: World, s: State) {
    && Sound(w, s) && s.callers == [] && s.refreshers == []
    && (forall src :: 0 <= src < |s.refreshing| ==> !s.refreshing[src])
    && FileBound(w, s.file, s.minted)
  }

  lemma CallerInvGrows(w: World, m: set<(string, string)>, n: set<(string, string)>, x: Caller)
    requires x.src < |w.sources| && m <= n && CallerInv(w, m, x)
    ensures CallerInv(w, n, x)
  {
    if x.pc.Hit? || (x.pc.Returned? && x.pc.how.FromCache?) {
      var key := if x.pc.Hit? then x.pc.key else x.pc.how.key;
      var raw :| TrimmedFrom(x.pc.token, raw) && (raw, key) in m;
      assert (raw, key) in n;
    }
  }

  lemma FileBoundGrows(w: World, file: Option<string>, m: set<(string, string)>, n: set<(string, string)>)
    requires m <= n && FileBound(w, file, m)
    ensures FileBound(w, file, n)
  {
    if file.Some? && IsCurrentEntry(w, file.value) {
      var e := w.codec.unmarshal(file.value).value;
      var key :| e.credential == w.fingerprint(key) && (e.token, key) in m;
      assert (e.token, key) in n;
    }
  }

  lemma StoredIsBound(w: World, s: State, key: string, token: string, renamed: bool)
    requires RoundTrips(w.codec)
    requires FileBound(w, s.file, s.minted) && (token, key) in s.minted
    ensures FileBound(w, Stored(w, s, key, token, renamed).file, s.minted)
  {
    assert w.codec.unmarshal(w.codec.marshal(Envelope(w.fingerprint(key), token))).Some?;
  }

  /** The only keys a current entry answers to are the one that minted it. */
  lemma HitIsGood(w: World, s: State, c: nat, key: string, readable: bool, at: int)
    requires Assumptions(w) && Inv(w, s) && c < |s.callers|
    requires FileHit(w, s, c, key, readable, at).Some?
    ensures var hit := FileHit(w, s, c, key, readable, at).value;
            GoodHit(w, s.minted, s.callers[c].src, key, hit.0, at, hit.1)
  {
    var hit := FileHit(w, s, c, key, readable, at).value;
    HitMeans(w.codec, s.file, w.fingerprint(key), w.sources[s.callers[c].src].audience, at, hit.0, hit.1);
    var e := w.codec.unmarshal(s.file.value).value;
    var k :| e.credential == w.fingerprint(k) && (e.token, k) in s.minted;
    assert k == key;
  }

  lemma MintedGrows(w: World, s: State, a: Action)
    requires Sound(w, s) && Enabled(w, s, a)
    ensures s.minted <= Next(w, s, a).minted
    ensures Sound(w, Next(w, s, a))
  {
  }

  lemma StepKeepsFileBound(w: World, s: State, a: Action)
    requires Assumptions(w) && Inv(w, s) && Enabled(w, s, a)
    ensures FileBound(w, Next(w, s, a).file, Next(w, s, a).minted)
  {
    MintedGrows(w, s, a);
    FileBoundGrows(w, s.file, s.minted, Next(w, s, a).minted);
    match a {
      case Write(c, renamed) =>
        assert CallerInv(w, s.minted, s.callers[c]);
        StoredIsBound(w, s, s.callers[c].pc.key, s.callers[c].pc.token, renamed);
      case RWrite(j, renamed) =>
        StoredIsBound(w, s, s.refreshers[j].pc.key, s.refreshers[j].pc.token, renamed);
      case _ =>
    }
  }

  lemma OwnPCIsGood(w: World, s: State, a: Action)
    requires Assumptions(w) && Inv(w, s) && Enabled(w, s, a) && IsCallerStep(a)
    ensures CallerInv(w, OwnEffect(w, s, a).minted, s.callers[a.c].(pc := OwnPC(w, s, a)))
  {
    var x := s.callers[a.c];
    assert CallerInv(w, s.minted, x);
    if a.ReadFile? {
      var key, at := x.pc.key, s.now + a.delay;
      if FileHit(w, s, a.c, key, a.readable, at).Some? {
        HitIsGood(w, s, a.c, key, a.readable, at);
      }
    }
  }

  /** A caller's own step. */
  lemma OwnStepKeepsCaller(w: World, s: State, a: Action)
    requires Assumptions(w) && Inv(w, s) && Enabled(w, s, a) && IsCallerStep(a)
    ensures CallerInv(w, Next(w, s, a).minted, Next(w, s, a).callers[a.c])
  {
    OwnPCIsGood(w, s, a);
    assert OwnEffect(w, s, a).callers == s.callers;
  }

  lemma OtherStepKeepsCaller(w: World, s: State, a: Action, c: nat)
    requires Sound(w, s) && Enabled(w, s, a) && c < |s.callers|
    requires !(IsCallerStep(a) && a.c == c)
    ensures c < |Next(w, s, a).callers| && Next(w, s, a).callers[c] == s.callers[c]
  {
  }

  lemma StepKeepsCallers(w: World, s: State, a: Action)
    requires Assumptions(w) && Inv(w, s) && Enabled(w, s, a)
    ensures Sound(w, Next(w, s, a))
    ensures forall c :: 0 <= c < |Next(w, s, a).callers| ==>
              CallerInv(w, Next(w, s, a).minted, Next(w, s, a).callers[c])
  {
    var t := Next(w, s, a);
    MintedGrows(w, s, a);
    forall c | 0 <= c < |t.callers| ensures CallerInv(w, t.minted, t.callers[c]) {
      if c < |s.callers| {
        if IsCallerStep(a) && a.c == c {
          OwnStepKeepsCaller(w, s, a);
        } else {
          OtherStepKeepsCaller(w, s, a, c);
          CallerInvGrows(w, s.minted, t.minted, s.callers[c]);
        }
      }
    }
  }

  lemma SpawnKeepsRefreshers(w: World, s: State, src: nat, exp: int)
    requires Inv(w, s) && src < |w.sources|
    ensures RefreshersInv(Spawn(w, s, src, exp))
  {
    var t := Spawn(w, s, src, exp);
    forall i | 0 <= i < |t.refreshing| && t.refreshing[i] ensures HasRefresher(t, i) {
      if s.refreshing[i] {
        var j :| 0 <= j < |s.refreshers| && s.refreshers[j].src == i && Alive(s.refreshers[j]);
        assert t.refreshers[j].src == i && Alive(t.refreshers[j]);
      } else {
        assert t.refreshers[|s.refreshers|].src == i && Alive(t.refreshers[|s.refreshers|]);
      }
    }
  }

  /** A refresher that goes on keeps its source's flag as it is. */
  lemma GoingOnKeepsRefreshers(s: State, t: State, j: nat)
    requires RefreshersInv(s) && j < |s.refreshers| && Alive(s.refreshers[j])
    requires t.refreshing == s.refreshing && s.minted <= t.minted
    requires |t.refreshers| == |s.refreshers| && t.refreshers == s.refreshers[j := t.refreshers[j]]
    requires t.refreshers[j].src == s.refreshers[j].src && Alive(t.refreshers[j])
    requires t.refreshers[j].pc.RWriting? ==> (t.refreshers[j].pc.token, t.refreshers[j].pc.key) in t.minted
    ensures RefreshersInv(t)
  {
    forall src | 0 <= src < |t.refreshing| && t.refreshing[src] ensures HasRefresher(t, src) {
      var i :| 0 <= i < |s.refreshers| && s.refreshers[i].src == src && Alive(s.refreshers[i]);
      assert t.refreshers[i].src == src && Alive(t.refreshers[i]);
    }
  }

  lemma ResetKeepsRefreshers(w: World, s: State, j: nat)
    requires Inv(w, s) && Enabled(w, s, RReset(j))
    ensures RefreshersInv(Next(w, s, RReset(j)))
  {
    var t := Next(w, s, RReset(j));
    forall src | 0 <= src < |t.refreshing| && t.refreshing[src] ensures HasRefresher(t, src) {
      var i :| 0 <= i < |s.refreshers| && s.refreshers[i].src == src && Alive(s.refreshers[i]);
      assert t.refreshers[i] == s.refreshers[i];
    }
  }

  lemma SameRefreshersKept(s: State, t: State)
    requires RefreshersInv(s) && t.refreshing == s.refreshing && t.refreshers == s.refreshers && s.minted <= t.minted
    ensures RefreshersInv(t)
  {
    forall src | 0 <= src < |t.refreshing| && t.refreshing[src] ensures HasRefresher(t, src) {
      assert HasRefresher(s, src);
    }
  }

  lemma StepKeepsRefreshers(w: World, s: State, a: Action)
    requires Inv(w, s) && Enabled(w, s, a)
    ensures RefreshersInv(Next(w, s, a))
  {
    var t := Next(w, s, a);
    MintedGrows(w, s, a);
    if a.Decide? {
      var spawned := Spawn(w, s, s.callers[a.c].src, s.callers[a.c].pc.exp);
      SpawnKeepsRefreshers(w, s, s.callers[a.c].src, s.callers[a.c].pc.exp);
      SameRefreshersKept(spawned, t);
    } else if a.RPin? || a.RMint? || a.RWrite? {
      GoingOnKeepsRefreshers(s, t, a.j);
    } else if a.RReset? {
      ResetKeepsRefreshers(w, s, a.j);
    } else {
      SameRefreshersKept(s, t);
    }
  }

  /** Every step keeps the invariant. */
  lemma StepKeepsInv(w: World, s: State, a: Action)
    requires Assumptions(w) && Inv(w, s) && Enabled(w, s, a)
    ensures Inv(w, Next(w, s, a))
  {
    StepKeepsFileBound(w, s, a);
    StepKeepsCallers(w, s, a);
    StepKeepsRefreshers(w, s, a);
  }

  // ----- runs -----

  ghost predicate Legal(w: World, s: State, run: seq<Action>)
    decreases |run|
  {
    && Sound(w, s)
    && (run != [] ==> Enabled(w, s, run[0]) && Legal(w, Next(w, s, run[0]), run[1..]))
  }

  ghost function Exec(w: World, s: State, run: seq<Action>): State
    requires Legal(w, s, run)
    decreases |run|
  {
    if run == [] then s else Exec(w, Next(w, s, run[0]), run[1..])
  }

  ghost predicate Reachable(w: World, s: State) {
    exists start, run :: Init(w, start) && Legal(w, start, run) && s == Exec(w, start, run)
  }

  lemma {:induction false} RunKeepsInv(w: World, s: State, run: seq<Action>)
    requires Assumptions(w) && Inv(w, s) && Legal(w, s, run)
    ensures Inv(w, Exec(w, s, run))
    decreases |run|
  {
    if run != [] {
      StepKeepsInv(w, s, run[0]);
      RunKeepsInv(w, Next(w, s, run[0]), run[1..]);
    }
  }

  lemma ReachableInv(w: World, s: State)
    requires Assumptions(w) && Reachable(w, s)
    ensures Inv(w, s)
  {
    var start, run :| Init(w, start) && Legal(w, start, run) && s == Exec(w, start, run);
    RunKeepsInv(w, start, run);
  }

  // ----- what holds in every run -----

  /** MAIN: the file never holds an entry under credentials other than those that minted its token. */
  lemma CacheEntriesAreBound(w: World, s: State)
    requires Assumptions(w) && Reachable(w, s) && s.file.Some? && IsCurrentEntry(w, s.file.value)
    ensures exists key :: w.codec.unmarshal(s.file.value).value.credential == w.fingerprint(key)
              && (w.codec.unmarshal(s.file.value).value.token, key) in s.minted
  {
    ReachableInv(w, s);
  }

  /** MAIN: a token returned from the cache was minted under the access key the same call resolved,
      was unexpired when it was read, and lists the caller's audience. */
  lemma CachedTokenIsTheCallersOwn(w: World, s: State, c: nat)
    requires Assumptions(w) && Reachable(w, s) && c < |s.callers|
    requires s.callers[c].pc.Returned? && s.callers[c].pc.how.FromCache?
    ensures Sound(w, s)
    ensures var pc := s.callers[c].pc;
            && MintedBy(s.minted, pc.how.key, pc.token)
            && Unexpired(w.codec, pc.token, w.sources[s.callers[c].src].audience, pc.how.readAt, pc.how.until)
  {
    ReachableInv(w, s);
    assert CallerInv(w, s.minted, s.callers[c]);
  }

  /** The key a call works under, once resolved. */
  function KeyOf(pc: CallerPC): Option<string> {
    match pc
    case Reading(key) => Some(key)
    case Hit(key, _, _, _) => Some(key)
    case Minting(signer) => signer
    case Writing(key, _) => Some(key)
    case Returned(_, FromCache(key, _, _)) => Some(key)
    case _ => None
  }

  /** A call that does not resolve its credentials, or has no cache path. */
  predicate Bypasses(pc: CallerPC) {
    pc == Minting(None) || (pc.Returned? && pc.how.Fresh?) || pc.Failed?
  }

  lemma BypassingStaysBypassing(w: World, s: State, a: Action, c: nat)
    requires Sound(w, s) && Enabled(w, s, a) && c < |s.callers| && Bypasses(s.callers[c].pc)
    ensures c < |Next(w, s, a).callers| && Bypasses(Next(w, s, a).callers[c].pc)
    ensures IsCallerStep(a) && a.c == c ==> a.Mint? && Next(w, s, a).file == s.file
  {
    if !(IsCallerStep(a) && a.c == c) {
      OtherStepKeepsCaller(w, s, a, c);
    }
  }

  /** MAIN: in no run does a bypassing call get to read or write the file: all it still does is mint. */
  lemma {:induction false} UnresolvedCallsLeaveTheFileAlone(w: World, s: State, run: seq<Action>, c: nat)
    requires Legal(w, s, run) && c < |s.callers| && Bypasses(s.callers[c].pc)
    ensures c < |Exec(w, s, run).callers| && Bypasses(Exec(w, s, run).callers[c].pc)
    ensures forall a :: a in run && IsCallerStep(a) && a.c == c ==> a.Mint?
    decreases |run|
  {
    if run != [] {
      BypassingStaysBypassing(w, s, run[0], c);
      UnresolvedCallsLeaveTheFileAlone(w, Next(w, s, run[0]), run[1..], c);
      assert run == [run[0]] + run[1..];
    }
  }

  /** A caller's source never changes, and a call under a key either keeps it or is through with the file. */
  lemma StepKeepsKey(w: World, s: State, a: Action, c: nat)
    requires Sound(w, s) && Enabled(w, s, a) && c < |s.callers|
    ensures c < |Next(w, s, a).callers| && Next(w, s, a).callers[c].src == s.callers[c].src
    ensures var pc := Next(w, s, a).callers[c].pc;
            KeyOf(s.callers[c].pc).Some? ==> KeyOf(pc) == KeyOf(s.callers[c].pc) || Bypasses(pc)
  {
    if !(IsCallerStep(a) && a.c == c) {
      OtherStepKeepsCaller(w, s, a, c);
    }
  }

  lemma {:induction false} KeyStays(w: World, s: State, run: seq<Action>, c: nat)
    requires Legal(w, s, run) && c < |s.callers| && KeyOf(s.callers[c].pc).Some?
    ensures c < |Exec(w, s, run).callers|
    ensures KeyOf(Exec(w, s, run).callers[c].pc) in {None, KeyOf(s.callers[c].pc)}
    decreases |run|
  {
    if run != [] {
      var t := Next(w, s, run[0]);
      StepKeepsKey(w, s, run[0], c);
      if KeyOf(t.callers[c].pc).Some? {
        KeyStays(w, t, run[1..], c);
      } else {
        UnresolvedCallsLeaveTheFileAlone(w, t, run[1..], c);
      }
    }
  }

  /** MAIN: the key a call ends up with, say that of a cached token, is what its provider yielded at the
      one step of the run at which this call resolved its credentials. */
  lemma {:induction false} KeyWasResolvedByTheCall(w: World, s: State, run: seq<Action>, c: nat) returns (k: nat)
    requires Legal(w, s, run)
    requires c >= |s.callers| || s.callers[c].pc.Called?
    requires c < |Exec(w, s, run).callers| && KeyOf(Exec(w, s, run).callers[c].pc).Some?
    ensures k < |run| && run[k].Pin? && run[k].c == c && Legal(w, s, run[..k])
    ensures var at, x := Exec(w, s, run[..k]), Exec(w, s, run).callers[c];
            && c < |at.callers| && at.callers[c].src < |at.principals|
            && KeyOf(x.pc) == at.principals[at.callers[c].src]
    decreases |run|
  {
    var t := Next(w, s, run[0]);
    if run[0].Pin? && run[0].c == c {
      k := 0;
      if Bypasses(t.callers[c].pc) {
        UnresolvedCallsLeaveTheFileAlone(w, t, run[1..], c);
      } else {
        KeyStays(w, t, run[1..], c);
      }
    } else {
      if c < |s.callers| {
        OtherStepKeepsCaller(w, s, run[0], c);
      }
      var j := KeyWasResolvedByTheCall(w, t, run[1..], c);
      k := j + 1;
      assert run[..k][1..] == run[1..][..j];
    }
  }

  /** What the library itself puts in the file: the envelope of a token with the key that minted it. */
  lemma WritesAreEnvelopesOfMintedTokens(w: World, s: State, a: Action)
    requires Assumptions(w) && Reachable(w, s) && Sound(w, s) && Enabled(w, s, a)
    requires Next(w, s, a).file != s.file && !a.Interfere?
    ensures a.Write? || a.RWrite?
    ensures exists key, token :: (token, key) in s.minted
              && Next(w, s, a).file == Some(w.codec.marshal(Envelope(w.fingerprint(key), token)))
  {
    ReachableInv(w, s);
    MintedBeforeWritten(w, s, a);
    OnlyWritesChangeTheFile(w, s, a);
  }

  lemma MintedBeforeWritten(w: World, s: State, a: Action)
    requires Inv(w, s) && Enabled(w, s, a)
    ensures a.Write? ==> (s.callers[a.c].pc.token, s.callers[a.c].pc.key) in s.minted
    ensures a.RWrite? ==> (s.refreshers[a.j].pc.token, s.refreshers[a.j].pc.key) in s.minted
  {
    if a.Write? {
      assert CallerInv(w, s.minted, s.callers[a.c]);
    }
  }

  lemma OnlyWritesChangeTheFile(w: World, s: State, a: Action)
    requires Sound(w, s) && Enabled(w, s, a)
    requires Next(w, s, a).file != s.file && !a.Interfere?
    ensures a.Write? || a.RWrite?
    ensures a.Write? ==> var pc := s.callers[a.c].pc;
              Next(w, s, a).file == Some(w.codec.marshal(Envelope(w.fingerprint(pc.key), pc.token)))
    ensures a.RWrite? ==> var pc := s.refreshers[a.j].pc;
              Next(w, s, a).file == Some(w.codec.marshal(Envelope(w.fingerprint(pc.key), pc.token)))
  {
  }

  /** MAIN: a source's flag is up exactly while one refresher of it is alive, and there is never another. */
  lemma AtMostOneRefresherPerSource(w: World, s: State, src: nat)
    requires Assumptions(w) && Reachable(w, s) && src < |s.refreshing|
    ensures s.refreshing[src] <==> HasRefresher(s, src)
    ensures forall i, j | 0 <= i < |s.refreshers| && 0 <= j < |s.refreshers| ::
              Alive(s.refreshers[i]) && Alive(s.refreshers[j]) && s.refreshers[i].src == s.refreshers[j].src ==> i == j
  {
    ReachableInv(w, s);
    if HasRefresher(s, src) {
      var j :| 0 <= j < |s.refreshers| && s.refreshers[j].src == src && Alive(s.refreshers[j]);
    }
  }

  function RefresherRank(pc: RefresherPC): nat {
    match pc
    case Spawned => 4
    case RMinting(_) => 3
    case RWriting(_, _) => 2
    case Resetting => 1
    case Gone => 0
  }

  /** A refresher's next step, whatever its environment answers. */
  function RefresherStep(s: State, j: nat, resolves: bool, issued: Option<string>, renamed: bool): Action
    requires j < |s.refreshers|
  {
    match s.refreshers[j].pc
    case Spawned => RPin(j, resolves)
    case RMinting(_) => RMint(j, issued)
    case RWriting(_, _) => RWrite(j, renamed)
    case Resetting => RReset(j)
    case Gone => Tick(0)
  }

  lemma RefresherStepProgresses(w: World, s: State, j: nat, a: Action)
    requires Sound(w, s) && j < |s.refreshers| && Alive(s.refreshers[j]) && Enabled(w, s, a)
    requires IsStepOf(a, j)
    ensures |Next(w, s, a).refreshers| == |s.refreshers| && Next(w, s, a).refreshers[j].src == s.refreshers[j].src
    ensures RefresherRank(Next(w, s, a).refreshers[j].pc) < RefresherRank(s.refreshers[j].pc)
    ensures a.RReset? <==> !Alive(Next(w, s, a).refreshers[j])
    ensures Sound(w, Next(w, s, a)) && (a.RReset? ==> !Next(w, s, a).refreshing[s.refreshers[j].src])
  {
  }

  predicate IsStepOf(a: Action, j: nat) {
    (a.RPin? || a.RMint? || a.RWrite? || a.RReset?) && a.j == j
  }

  lemma OtherStepKeepsRefresher(w: World, s: State, a: Action, j: nat)
    requires Sound(w, s) && Enabled(w, s, a) && j < |s.refreshers| && !IsStepOf(a, j)
    ensures j < |Next(w, s, a).refreshers| && Next(w, s, a).refreshers[j] == s.refreshers[j]
  {
  }

  /** A refresher's own steps in a run. */
  function StepsBy(run: seq<Action>, j: nat): nat {
    if run == [] then 0 else (if IsStepOf(run[0], j) then 1 else 0) + StepsBy(run[1..], j)
  }

  lemma {:induction false} RefresherStepsCount(w: World, s: State, run: seq<Action>, j: nat)
    requires Legal(w, s, run) && j < |s.refreshers|
    ensures Sound(w, Exec(w, s, run)) && j < |Exec(w, s, run).refreshers|
    ensures StepsBy(run, j) + RefresherRank(Exec(w, s, run).refreshers[j].pc) <= RefresherRank(s.refreshers[j].pc)
    decreases |run|
  {
    if run != [] {
      if IsStepOf(run[0], j) {
        RefresherStepProgresses(w, s, j, run[0]);
      } else {
        OtherStepKeepsRefresher(w, s, run[0], j);
      }
      RefresherStepsCount(w, Next(w, s, run[0]), run[1..], j);
    }
  }

  /** A refresher that is gone lowered its source's flag on its way out. */
  lemma {:induction false} GoneAfterReset(w: World, s: State, run: seq<Action>, j: nat) returns (k: nat)
    requires Legal(w, s, run) && j < |s.refreshers| && Alive(s.refreshers[j])
    requires j < |Exec(w, s, run).refreshers| && !Alive(Exec(w, s, run).refreshers[j])
    ensures k < |run| && run[k] == RReset(j) && Legal(w, s, run[..k + 1])
    ensures Sound(w, Exec(w, s, run[..k + 1])) && !Exec(w, s, run[..k + 1]).refreshing[s.refreshers[j].src]
    decreases |run|
  {
    var t := Next(w, s, run[0]);
    if run[0] == RReset(j) {
      RefresherStepProgresses(w, s, j, run[0]);
      k := 0;
      assert run[..1][1..] == [] && Exec(w, t, []) == t;
    } else {
      if IsStepOf(run[0], j) {
        RefresherStepProgresses(w, s, j, run[0]);
      } else {
        OtherStepKeepsRefresher(w, s, run[0], j);
      }
      var i := GoneAfterReset(w, t, run[1..], j);
      k := i + 1;
      assert run[..k + 1][1..] == run[1..][..i + 1];
    }
  }

  /** MAIN: in every run, however others are interleaved, a refresher is gone by its fourth own step, whatever
      its environment answers; until then its next step is enabled. */
  lemma RefresherAlwaysResets(w: World, s: State, run: seq<Action>, j: nat,
                              resolves: bool, issued: Option<string>, renamed: bool)
    requires Legal(w, s, run) && j < |s.refreshers| && issued != Some("")
    ensures StepsBy(run, j) <= 4 && Sound(w, Exec(w, s, run)) && j < |Exec(w, s, run).refreshers|
    ensures StepsBy(run, j) == 4 ==> Exec(w, s, run).refreshers[j].pc.Gone?
    ensures var u := Exec(w, s, run);
            u.refreshers[j].pc.Gone? || Enabled(w, u, RefresherStep(u, j, resolves, issued, renamed))
  {
    RefresherStepsCount(w, s, run, j);
  }

  /** A hit returns at once, and close to its expiry, and only then, it also starts a refresher unless one is
      at work. */
  lemma NearExpiryHitRefreshes(w: World, s: State, c: nat)
    requires Sound(w, s) && Enabled(w, s, Decide(c))
    ensures var src, t := s.callers[c].src, Next(w, s, Decide(c));
            && t.callers[c].pc.Returned? && t.callers[c].pc.token == s.callers[c].pc.token
            && (if s.callers[c].pc.exp - s.now < w.sources[src].refreshBefore && !s.refreshing[src] then
                  t.refreshing == s.refreshing[src := true] && t.refreshers == s.refreshers + [Refresher(src, Spawned)]
                else t.refreshing == s.refreshing && t.refreshers == s.refreshers)
  {
  }

  // ----- the way of a call and of a refresher through a run -----

  lemma {:induction false} LastStep(w: World, s: State, run: seq<Action>)
    requires Legal(w, s, run) && run != []
    ensures var n := |run| - 1;
            && Legal(w, s, run[..n]) && Sound(w, Exec(w, s, run[..n]))
            && Enabled(w, Exec(w, s, run[..n]), run[n])
            && Exec(w, s, run) == Next(w, Exec(w, s, run[..n]), run[n])
    decreases |run|
  {
    var n := |run| - 1;
    if n > 0 {
      LastStep(w, Next(w, s, run[0]), run[1..]);
      assert run[1..][..n - 1] == run[..n][1..];
    } else {
      assert run[..0] == [] && run[1..] == [];
    }
  }

  /** A call's own steps in a run, in order. */
  function ByCaller(run: seq<Action>, c: nat): seq<Action> {
    if run == [] then []
    else
      var n := |run| - 1;
      ByCaller(run[..n], c) + if IsCallerStep(run[n]) && run[n].c == c then [run[n]] else []
  }

  /** Resolved its credentials and looked at the file. */
  predicate Looked(steps: seq<Action>, c: nat) {
    |steps| >= 2 && steps[0] == Pin(c, true) && steps[1].ReadFile?
  }

  /** What a call has done when it is where it is. */
  predicate TookPath(steps: seq<Action>, c: nat, pc: CallerPC) {
    match pc
    case Called => steps == []
    case Reading(_) => steps == [Pin(c, true)]
    case Hit(_, _, _, _) => |steps| == 2 && Looked(steps, c) && steps[1].readable
    case Minting(None) => |steps| == 1 && steps[0].Pin?
    case Minting(Some(_)) => |steps| == 2 && Looked(steps, c)
    case Writing(_, token) => |steps| == 3 && Looked(steps, c) && steps[2] == Mint(c, Some(token))
    case Returned(_, FromCache(_, _, _)) =>
      |steps| == 3 && Looked(steps, c) && steps[1].readable && steps[2] == Decide(c)
    case Returned(token, Fresh) =>
      || (|steps| == 2 && steps[0].Pin? && steps[1] == Mint(c, Some(token)))
      || (|steps| == 4 && Looked(steps, c) && steps[2] == Mint(c, Some(token)) && steps[3].Write?)
    case Failed =>
      || (|steps| == 2 && steps[0].Pin? && steps[1] == Mint(c, None))
      || (|steps| == 3 && Looked(steps, c) && steps[2] == Mint(c, None))
  }

  lemma PathGoesOn(w: World, s: State, a: Action, c: nat, steps: seq<Action>)
    requires Sound(w, s) && Enabled(w, s, a) && IsCallerStep(a) && a.c == c
    requires TookPath(steps, c, s.callers[c].pc)
    ensures TookPath(steps + [a], c, Next(w, s, a).callers[c].pc)
  {
    assert Next(w, s, a).callers[c].pc == OwnPC(w, s, a);
  }

  /** MAIN: in every run a call has taken exactly the steps that lead to where it is: resolve, look at the file if
      that succeeded, return what it yields, else mint, and store what was minted if the credentials were
      resolved. A token is returned as fresh only if it was minted for this call, and a call fails only if its
      minting did. */
  lemma {:induction false} CallsTakeTheirPath(w: World, s: State, run: seq<Action>, c: nat)
    requires Legal(w, s, run) && c >= |s.callers|
    ensures if c < |Exec(w, s, run).callers| then TookPath(ByCaller(run, c), c, Exec(w, s, run).callers[c].pc)
            else ByCaller(run, c) == []
    decreases |run|
  {
    if run != [] {
      var n := |run| - 1;
      LastStep(w, s, run);
      CallsTakeTheirPath(w, s, run[..n], c);
      PathStep(w, Exec(w, s, run[..n]), run[n], c, ByCaller(run[..n], c));
    }
  }

  lemma PathStep(w: World, s: State, a: Action, c: nat, steps: seq<Action>)
    requires Sound(w, s) && Enabled(w, s, a)
    requires if c < |s.callers| then TookPath(steps, c, s.callers[c].pc) else steps == []
    ensures var t, more := Next(w, s, a), steps + if IsCallerStep(a) && a.c == c then [a] else [];
            if c < |t.callers| then TookPath(more, c, t.callers[c].pc) else more == []
  {
    assert steps + [] == steps;
    if IsCallerStep(a) && a.c == c {
      PathGoesOn(w, s, a, c, steps);
    } else if c < |s.callers| {
      OtherStepKeepsCaller(w, s, a, c);
    }
  }

  /** The next step of a call, whatever its environment answers. */
  function CallerStep(s: State, c: nat, resolves: bool, readable: bool, delay: nat, issued: Option<string>,
                      renamed: bool): Action
    requires c < |s.callers|
  {
    match s.callers[c].pc
    case Called => Pin(c, resolves)
    case Reading(_) => ReadFile(c, readable, delay)
    case Hit(_, _, _, _) => Decide(c)
    case Minting(_) => Mint(c, issued)
    case Writing(_, _) => Write(c, renamed)
    case _ => Tick(0)
  }

  /** A call that has not ended can go on, and by its fourth step it has ended. */
  lemma CallsEnd(w: World, s: State, run: seq<Action>, c: nat,
                 resolves: bool, readable: bool, delay: nat, issued: Option<string>, renamed: bool)
    requires Legal(w, s, run) && c >= |s.callers| && issued != Some("")
    requires c < |Exec(w, s, run).callers|
    ensures var u := Exec(w, s, run);
            && (|| u.callers[c].pc.Returned? || u.callers[c].pc.Failed?
                || Enabled(w, u, CallerStep(u, c, resolves, readable, delay, issued, renamed)))
            && |ByCaller(run, c)| <= 4
            && (|ByCaller(run, c)| == 4 ==> u.callers[c].pc.Returned?)
  {
    CallsTakeTheirPath(w, s, run, c);
  }

  /** What each look at the environment decides: a call works under a key exactly when caching is on and its
      provider yields one; and the file is a hit exactly when it yields a token to that key, and never when it
      cannot be read. */
  lemma LooksDecide(w: World, s: State, c: nat, resolves: bool, readable: bool, delay: nat)
    requires Sound(w, s) && c < |s.callers|
    ensures Enabled(w, s, Pin(c, resolves)) ==>
              var source, pc := w.sources[s.callers[c].src], Next(w, s, Pin(c, resolves)).callers[c].pc;
              if source.cached && source.hasProvider && resolves && s.principals[s.callers[c].src].Some?
              then pc == Reading(s.principals[s.callers[c].src].value) else pc == Minting(None)
    ensures Enabled(w, s, ReadFile(c, readable, delay)) ==>
              var source, key, at := w.sources[s.callers[c].src], s.callers[c].pc.key, s.now + delay;
              var pc := Next(w, s, ReadFile(c, readable, delay)).callers[c].pc;
              && (pc.Hit? || pc == Minting(Some(key)))
              && forall token, until ::
                   pc == Hit(key, token, until, at) <==>
                   && readable && s.file.Some? && w.codec.unmarshal(s.file.value).Some?
                   && Yields(w.codec, w.codec.unmarshal(s.file.value).value, w.fingerprint(key), source.audience, at,
                             token, until)
  {
    if Enabled(w, s, ReadFile(c, readable, delay)) {
      var audience, key, at := w.sources[s.callers[c].src].audience, s.callers[c].pc.key, s.now + delay;
      forall token, until
        ensures Lookup(w.codec, s.file, w.fingerprint(key), audience, at) == Some((token, until)) <==>
                && s.file.Some? && w.codec.unmarshal(s.file.value).Some?
                && Yields(w.codec, w.codec.unmarshal(s.file.value).value, w.fingerprint(key), audience, at,
                          token, until)
      {
        HitMeans(w.codec, s.file, w.fingerprint(key), audience, at, token, until);
      }
    }
  }

  /** A completed write, of a call or of a refresher, stores its token as the entry of its key. */
  lemma WritesStore(w: World, s: State, a: Action)
    requires RoundTrips(w.codec) && Sound(w, s) && Enabled(w, s, a) && (a.Write? || a.RWrite?)
    ensures var key := if a.Write? then s.callers[a.c].pc.key else s.refreshers[a.j].pc.key;
            var token := if a.Write? then s.callers[a.c].pc.token else s.refreshers[a.j].pc.token;
            var file := Next(w, s, a).file;
            if a.renamed then
              && file.Some?
              && w.codec.unmarshal(file.value) == Some(CacheEntry("awsauth.cache.v2", w.fingerprint(key), token))
            else file == s.file
  {
  }

  /** A refresher's own steps in a run, in order. */
  function ByRefresher(run: seq<Action>, j: nat): seq<Action> {
    if run == [] then []
    else
      var n := |run| - 1;
      ByRefresher(run[..n], j) + if IsStepOf(run[n], j) then [run[n]] else []
  }

  /** Up to the reset: credentials not resolved, nothing minted, or a minted token written. */
  predicate Refreshed(steps: seq<Action>, j: nat) {
    || (|steps| == 1 && steps[0].RPin?)
    || steps == [RPin(j, true), RMint(j, None)]
    || (|steps| == 3 && steps[0] == RPin(j, true) && steps[1].RMint? && steps[1].issued.Some? && steps[2].RWrite?)
  }

  predicate TookRefreshPath(steps: seq<Action>, j: nat, pc: RefresherPC) {
    match pc
    case Spawned => steps == []
    case RMinting(_) => steps == [RPin(j, true)]
    case RWriting(_, token) => steps == [RPin(j, true), RMint(j, Some(token))]
    case Resetting => Refreshed(steps, j)
    case Gone => |steps| > 0 && Refreshed(steps[..|steps| - 1], j) && steps[|steps| - 1] == RReset(j)
  }

  /** Where its own step takes a refresher. */
  predicate Leads(from: RefresherPC, a: Action, to: RefresherPC) {
    match a
    case RPin(_, resolves) => from.Spawned? && (to.Resetting? || (to.RMinting? && resolves))
    case RMint(_, issued) =>
      from.RMinting? && if issued.None? then to.Resetting? else to.RWriting? && to.token == issued.value
    case RWrite(_, _) => from.RWriting? && to.Resetting?
    case RReset(_) => from.Resetting? && to.Gone?
    case _ => false
  }

  lemma OwnStepLeads(w: World, s: State, a: Action, j: nat)
    requires Sound(w, s) && Enabled(w, s, a) && IsStepOf(a, j)
    ensures j < |s.refreshers| && j < |Next(w, s, a).refreshers|
    ensures Leads(s.refreshers[j].pc, a, Next(w, s, a).refreshers[j].pc)
  {
  }

  lemma RefreshPathGoesOn(steps: seq<Action>, j: nat, from: RefresherPC, a: Action, to: RefresherPC)
    requires TookRefreshPath(steps, j, from) && Leads(from, a, to) && IsStepOf(a, j)
    ensures TookRefreshPath(steps + [a], j, to)
  {
    if a.RPin? {
      assert steps + [a] == [a];
    } else if a.RMint? {
      assert steps + [a] == [RPin(j, true), a];
    } else if a.RWrite? {
      WriteEndsPath(steps, j, from, a);
    } else {
      assert (steps + [a])[..|steps|] == steps;
    }
  }

  lemma WriteEndsPath(steps: seq<Action>, j: nat, from: RefresherPC, a: Action)
    requires TookRefreshPath(steps, j, from) && from.RWriting? && a.RWrite?
    ensures Refreshed(steps + [a], j)
  {
    var all := steps + [a];
    assert all[0] == steps[0] && all[1] == steps[1] && all[2] == a;
  }

  lemma RefreshPathStep(w: World, s: State, a: Action, j: nat, steps: seq<Action>)
    requires Sound(w, s) && Enabled(w, s, a)
    requires if j < |s.refreshers| then TookRefreshPath(steps, j, s.refreshers[j].pc) else steps == []
    ensures var t, more := Next(w, s, a), steps + if IsStepOf(a, j) then [a] else [];
            if j < |t.refreshers| then TookRefreshPath(more, j, t.refreshers[j].pc) else more == []
  {
    assert steps + [] == steps;
    if IsStepOf(a, j) {
      OwnStepLeads(w, s, a, j);
      RefreshPathGoesOn(steps, j, s.refreshers[j].pc, a, Next(w, s, a).refreshers[j].pc);
    } else if j < |s.refreshers| {
      OtherStepKeepsRefresher(w, s, a, j);
    }
  }

  /** MAIN: in every run a refresher has taken exactly the steps that lead to where it is; it goes without having
      written only if its credentials were not resolved or its minting failed. */
  lemma {:induction false} RefreshersTakeTheirPath(w: World, s: State, run: seq<Action>, j: nat)
    requires Legal(w, s, run) && j >= |s.refreshers|
    ensures if j < |Exec(w, s, run).refreshers|
            then TookRefreshPath(ByRefresher(run, j), j, Exec(w, s, run).refreshers[j].pc)
            else ByRefresher(run, j) == []
    decreases |run|
  {
    if run != [] {
      var n := |run| - 1;
      LastStep(w, s, run);
      RefreshersTakeTheirPath(w, s, run[..n], j);
      RefreshPathStep(w, Exec(w, s, run[..n]), run[n], j, ByRefresher(run[..n], j));
    }
  }

  /** A refresher gives up before minting exactly when its provider yields no key. */
  lemma RefresherResolves(w: World, s: State, j: nat, resolves: bool)
    requires Sound(w, s) && Enabled(w, s, RPin(j, resolves))
    ensures var src, pc := s.refreshers[j].src, Next(w, s, RPin(j, resolves)).refreshers[j].pc;
            if w.sources[src].hasProvider && resolves && s.principals[src].Some?
            then pc == RMinting(s.principals[src].value) else pc == Resetting
  {
  }
}
