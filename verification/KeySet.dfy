/** An issuer's cached signing keys with throttled refreshes: the data, its critical sections as
    transition functions, and the class whose methods perform them in place. */
module KeySet {
  import opened Wrappers

  datatype Key = Key(kid: string, material: string)

  type Payload = string

  /** A parsed token carrying one signature; `kid` may be empty. */
  datatype Jws = Jws(kid: string, content: string)

  /** Signature verification with one key, as the JOSE library performs it. */
  type Verify = (Jws, Key) -> Option<Payload>

  type FetchResult = Result<seq<Key>, string>

  /** Nanoseconds. */
  const DEFAULT_INTERVAL: int := 30_000_000_000

  // ----- verification against a snapshot -----

  predicate Candidate(jws: Jws, key: Key) {
    jws.kid == "" || key.kid == jws.kid
  }

  /** This key is one to try: it has the token's key ID, or the token names none. */
  predicate IsToBeTried(jws: Jws, key: Key) {
    jws.kid != "" ==> key.kid == jws.kid
  }

  /** The payload under the first key that is to be tried and verifies the token. */
  function VerifyWith(verify: Verify, jws: Jws, keys: seq<Key>): (r: Option<Payload>)
    ensures r.Some? ==> exists i :: 0 <= i < |keys| && IsToBeTried(jws, keys[i]) && verify(jws, keys[i]) == r
                          && forall j :: 0 <= j < i && IsToBeTried(jws, keys[j]) ==> verify(jws, keys[j]).None?
    ensures r.None? ==> forall k :: k in keys && IsToBeTried(jws, k) ==> verify(jws, k).None?
  {
    if keys == [] then None
    else if Candidate(jws, keys[0]) && verify(jws, keys[0]).Some? then verify(jws, keys[0])
    else VerifyWith(verify, jws, keys[1..])
  }

  method TryKeys(verify: Verify, jws: Jws, keys: seq<Key>) returns (payload: Option<Payload>)
    ensures payload == VerifyWith(verify, jws, keys)
  {
    for i := 0 to |keys|
      invariant VerifyWith(verify, jws, keys) == VerifyWith(verify, jws, keys[i..])
    {
      if jws.kid != "" && keys[i].kid != jws.kid {
        continue;
      }
      var p := verify(jws, keys[i]);
      if p.Some? {
        return p;
      }
    }
    return None;
  }

  // ----- the lock-protected cache -----

  /** `R` is what identifies a running refresh. */
  datatype Cache<+R> = Cache(keys: seq<Key>, lastFetch: Option<int>, inflight: Option<R>)

  datatype Admission<+R> = Throttled | Join(refresh: R) | Start

  /** The locked section of a refresh request: the clock reads `checked` at the throttle test. */
  function Admit<R>(c: Cache<R>, interval: int, checked: int): Admission<R> {
    if c.inflight.Some? then
      if c.keys != [] then Throttled else Join(c.inflight.value)
    else if c.lastFetch.Some? && checked - c.lastFetch.value < interval then Throttled
    else Start
  }

  /** Starting makes `next` the running refresh; the clock reads `stamped` then. */
  function Started<R>(c: Cache<R>, next: R, stamped: int): Cache<R> {
    c.(inflight := Some(next), lastFetch := Some(stamped))
  }

  /** The locked section at the end of a fetch. */
  function Installed<R>(c: Cache<R>, result: FetchResult): Cache<R> {
    Cache(if result.Ok? then result.value else c.keys, c.lastFetch, None)
  }

  // ----- the cache in place -----

  /** Shared by the fetcher and the requests waiting for it. */
  class RefreshResult {
    var err: Option<string>
    var done: bool

    constructor ()
      ensures !done && err.None?
    {
      err := None;
      done := false;
    }

    /** The fetcher's last act: the outcome is written before the completion is signalled. */
    method Publish(result: FetchResult)
      requires !done
      modifies this
      ensures done && err == if result.Err? then Some(result.error) else None
    {
      err := if result.Err? then Some(result.error) else None;
      done := true;
    }
  }

  class KeySet {
    const interval: int
    var keys: seq<Key>
    var lastFetch: Option<int>
    var inflight: RefreshResult?

    function View(): Cache<RefreshResult>
      reads this
    {
      var running: Option<RefreshResult> := if inflight == null then None else Some(inflight);
      Cache(keys, lastFetch, running)
    }

    constructor (requested: int)
      ensures interval > 0 && (requested > 0 ==> interval == requested)
      ensures requested <= 0 ==> interval == 30_000_000_000
      ensures View() == Cache([], None, None)
    {
      interval := if requested <= 0 then DEFAULT_INTERVAL else requested;
      keys := [];
      lastFetch := None;
      inflight := null;
    }

    /** `refresh` up to its unlock. A refused request gets no result to wait on. */
    method BeginRefresh(checked: int, stamped: int) returns (verdict: Admission<RefreshResult>, wait: RefreshResult?)
      modifies this
      ensures verdict == Admit(old(View()), interval, checked)
      ensures verdict.Throttled? ==> wait == null && View() == old(View())
      ensures verdict.Join? ==> wait == verdict.refresh && View() == old(View())
      ensures verdict.Start? ==> wait != null && fresh(wait) && !wait.done && wait.err.None?
      ensures verdict.Start? ==> View() == Started(old(View()), wait, stamped)
    {
      wait := inflight;
      if wait != null && |keys| > 0 {
        return Throttled, null;
      }
      if wait == null && lastFetch.Some? && checked - lastFetch.value < interval {
        return Throttled, null;
      }
      if wait != null {
        return Join(wait), wait;
      }
      var r := new RefreshResult();
      inflight := r;
      lastFetch := Some(stamped);
      return Start, r;
    }

    /** The fetcher's locked section: a failed fetch leaves the keys alone. */
    method Install(result: FetchResult)
      modifies this
      ensures View() == Installed(old(View()), result)
    {
      if result.Ok? {
        keys := result.value;
      }
      inflight := null;
    }
  }
}
