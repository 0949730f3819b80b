/** The bridge's OIDC access-token cache. A request holds the fetcher's mutex throughout, so the
    requests of a run are a sequence; times are nanoseconds. */
module TokenCache {
  import opened Common
  import opened Text
  import opened GoNumbers

  const LEEWAY := 30 * NANOS_PER_SECOND

  // -- One fetch ---------------------------------------------------------------------------------

  /** What the token endpoint did: nothing usable, or an answer with the two fields. */
  datatype Response = Failure | Answer(accessToken: string, expiresIn: string)

  datatype Fetched = Fetched(token: string, lifetime: int)

  /** The lifetime in seconds; zero when there is none, it is no integer, or it is not positive. */
  function Lifetime(expiresIn: string): (seconds: int)
    ensures 0 <= seconds <= MAX_INT64
  {
    match ParseInt(expiresIn, MAX_INT64)
    case Some(n) => if n > 0 then n else 0
    case None => 0
  }

  /** A positive integer of at most 64 bits is the lifetime; everything else counts as zero. */
  lemma LifetimeIsRead(n: nat)
    ensures Lifetime(Decimal(n)) == if n <= MAX_INT64 then n else 0
    ensures Lifetime(['-'] + Decimal(n)) == 0 && Lifetime(Decimal(n) + ".5") == 0 && Lifetime("") == 0
  {
    PrintedIntIsReadBack(n, MAX_INT64);
    var d := Decimal(n);
    assert (['-'] + d)[1..] == d;
    DecimalRoundTrip(n);
    assert IsDigit(d[0]);
    var half := d + ".5";
    assert half[|d|] == '.' && !IsDigit('.');
    assert !AllDigits(half);
  }

  /** An answer with a token in it. */
  predicate Usable(r: Response) {
    r.Answer? && r.accessToken != ""
  }

  /** fetch. */
  function Fetch(response: Response): (r: Option<Fetched>)
    ensures r.Some? ==> r.value.token != ""
  {
    match response
    case Failure => None
    case Answer(token, expiresIn) => if token == "" then None else Some(Fetched(token, Lifetime(expiresIn)))
  }

  // -- One request -------------------------------------------------------------------------------

  datatype Cache = Cache(token: string, expiresAt: int)

  const EMPTY := Cache("", 0)

  /** A request: the clock when it starts, what the endpoint would answer, the clock after that. */
  datatype Request = Request(now: int, response: Response, later: int)

  /** The cache serves before the leeway. */
  predicate Served(c: Cache, now: int) {
    c.token != "" && now < c.expiresAt - LEEWAY
  }

  function Expiry(fetched: Fetched, later: int): int {
    later + Wrap64(fetched.lifetime * NANOS_PER_SECOND)
  }

  function Next(c: Cache, r: Request): Cache {
    if Served(c, r.now) then c
    else
      match Fetch(r.response)
      case None => c
      case Some(f) => Cache(f.token, Expiry(f, r.later))
  }

  function Returned(c: Cache, r: Request): Option<string> {
    if Served(c, r.now) then Some(c.token)
    else
      match Fetch(r.response)
      case None => None
      case Some(f) => Some(f.token)
  }

  class OidcTokenFetcher {
    var token: string
    var expiresAt: int

    function Current(): Cache
      reads this
    {
      Cache(token, expiresAt)
    }

    constructor ()
      ensures Current() == EMPTY
    {
      token, expiresAt := "", 0;
    }

    /** accessToken; a failed fetch changes nothing. */
    method AccessToken(r: Request) returns (result: Option<string>)
      modifies this
      ensures Current() == Next(old(Current()), r) && result == Returned(old(Current()), r)
      ensures
        if old(token) != "" && r.now < old(expiresAt) - 30_000_000_000 then
          result == Some(old(token)) && Current() == old(Current())
        else if Usable(r.response) then
          result == Some(r.response.accessToken) && token == r.response.accessToken
          && expiresAt == r.later + Wrap64(Lifetime(r.response.expiresIn) * 1_000_000_000)
        else result == None && Current() == old(Current())
    {
      if token != "" && r.now < expiresAt - LEEWAY {
        return Some(token);
      }
      var fetched := Fetch(r.response);
      if fetched.None? {
        return None;
      }
      token := fetched.value.token;
      expiresAt := r.later + Wrap64(fetched.value.lifetime * NANOS_PER_SECOND);
      return Some(token);
    }
  }

  // -- Runs ----------------------------------------------------------------------------------------

  /** The cache before request n. */
  function Before(run: seq<Request>, n: nat): Cache
    requires n <= |run|
  {
    if n == 0 then EMPTY else Next(Before(run, n - 1), run[n - 1])
  }

  /** The clock never runs backwards. */
  predicate Monotonic(run: seq<Request>) {
    && (forall i :: 0 <= i < |run| ==> run[i].now <= run[i].later)
    && (forall i, j :: 0 <= i < j < |run| ==> run[i].later <= run[j].now)
  }

  /** Request i is answered from the cache. */
  predicate ServedAt(run: seq<Request>, i: nat)
    requires i < |run|
  {
    Served(Before(run, i), run[i].now)
  }

  /** Request i goes to the endpoint and gets an answer with a token. */
  predicate FetchedAt(run: seq<Request>, i: nat)
    requires i < |run|
  {
    !ServedAt(run, i) && Usable(run[i].response)
  }

  /** The lifetime the answer to request j promises. */
  function Promised(run: seq<Request>, j: nat): int
    requires j < |run| && FetchedAt(run, j)
  {
    Lifetime(run[j].response.expiresIn)
  }

  /** The last request before n that fetched. */
  function LastFetch(run: seq<Request>, n: nat): (r: Option<nat>)
    requires n <= |run|
    ensures r.Some? ==> r.value < n && FetchedAt(run, r.value)
    ensures r.Some? ==> forall i :: r.value < i < n ==> !FetchedAt(run, i)
    ensures r.None? ==> forall i :: 0 <= i < n ==> !FetchedAt(run, i)
  {
    if n == 0 then None else if FetchedAt(run, n - 1) then Some(n - 1) else LastFetch(run, n - 1)
  }

  /** The cache always holds the token of the last usable answer, whatever failed since, and the
      expiry that answer promised, as far as 64 bits hold it. */
  lemma {:induction false} CacheHoldsTheLastFetch(run: seq<Request>, n: nat)
    requires n <= |run|
    ensures match LastFetch(run, n)
      case None => Before(run, n) == EMPTY
      case Some(j) =>
        Before(run, n) == Cache(run[j].response.accessToken,
                                run[j].later + Wrap64(Promised(run, j) * NANOS_PER_SECOND))
  {
    if n > 0 { CacheHoldsTheLastFetch(run, n - 1); }
  }

  /** The longest lifetime whose nanoseconds fit in 64 bits: about 292 years. */
  const LONGEST_LIFETIME := 9_223_372_036

  /** The recorded expiry is the promised one exactly for lifetimes in range. */
  lemma ExpiryIsTrueExactly(f: Fetched, later: int)
    requires f.lifetime >= 0
    ensures Expiry(f, later) == later + f.lifetime * NANOS_PER_SECOND <==> f.lifetime <= LONGEST_LIFETIME
  {
    WrapIsExactOnlyInRange(f.lifetime * NANOS_PER_SECOND);
  }

  /** A lifetime out of range can only be recorded as shorter than promised. */
  lemma ExpiryIsNeverLate(f: Fetched, later: int)
    requires f.lifetime >= 0
    ensures Expiry(f, later) <= later + f.lifetime * NANOS_PER_SECOND
  {
    assert Wrap64(f.lifetime * NANOS_PER_SECOND) <= f.lifetime * NANOS_PER_SECOND;
  }

  /** What every request returns, in terms of the endpoint's answers alone: the token of its own
      answer when it fetched, nothing when its own answer was not usable, and otherwise the token
      of the last usable answer, with more than 30 seconds of its promised lifetime left. */
  lemma ReturnedTokensAreGood(run: seq<Request>, i: nat)
    requires i < |run|
    ensures var r := Returned(Before(run, i), run[i]);
      if !ServedAt(run, i) then
        r == if Usable(run[i].response) then Some(run[i].response.accessToken) else None
      else
        var j := LastFetch(run, i);
        && j.Some? && r == Some(run[j.value].response.accessToken)
        && run[i].now + 30_000_000_000 < run[j.value].later + Promised(run, j.value) * 1_000_000_000
  {
    CacheHoldsTheLastFetch(run, i);
    var j := LastFetch(run, i);
    if j.Some? {
      ExpiryIsNeverLate(Fetched(run[j.value].response.accessToken, Promised(run, j.value)), run[j.value].later);
    }
  }

  lemma LastFetchIs(run: seq<Request>, j: nat, n: nat)
    requires j < n <= |run| && FetchedAt(run, j) && forall m :: j < m < n ==> !FetchedAt(run, m)
    ensures LastFetch(run, n) == Some(j)
  {
  }

  lemma ServedAsPromised(run: seq<Request>, j: nat, i: nat)
    requires j < i < |run| && FetchedAt(run, j) && forall m :: j < m < i ==> !FetchedAt(run, m)
    requires Promised(run, j) <= LONGEST_LIFETIME
    ensures ServedAt(run, i) <==> run[i].now < run[j].later + Promised(run, j) * 1_000_000_000 - 30_000_000_000
    ensures ServedAt(run, i) ==> Returned(Before(run, i), run[i]) == Some(run[j].response.accessToken)
  {
    LastFetchIs(run, j, i);
    CacheHoldsTheLastFetch(run, i);
    ExpiryIsTrueExactly(Fetched(run[j].response.accessToken, Promised(run, j)), run[j].later);
  }

  /** After the answer with a token and n seconds, and no fetch since, a request is served exactly
      when it starts more than 30 seconds before those are over, and it gets that token. */
  lemma ServedExactlyBeforeTheLeeway(run: seq<Request>, j: nat, i: nat, token: string, n: nat)
    requires j < i < |run| && FetchedAt(run, j) && forall m :: j < m < i ==> !FetchedAt(run, m)
    requires run[j].response == Answer(token, Decimal(n)) && n <= 9_223_372_036
    ensures ServedAt(run, i) <==> run[i].now < run[j].later + n * 1_000_000_000 - 30_000_000_000
    ensures ServedAt(run, i) ==> Returned(Before(run, i), run[i]) == Some(token)
  {
    LifetimeIsRead(n);
    ServedAsPromised(run, j, i);
  }

  lemma StillFresh(run: seq<Request>, j: nat, i: nat)
    requires j < i < |run| && FetchedAt(run, j) && Promised(run, j) <= LONGEST_LIFETIME
    requires forall m :: j < m < i ==> ServedAt(run, m)
    requires run[i].now < run[j].later + Promised(run, j) * 1_000_000_000 - 30_000_000_000
    ensures ServedAt(run, i) && Returned(Before(run, i), run[i]) == Some(run[j].response.accessToken)
  {
    assert forall m :: j < m < i ==> !FetchedAt(run, m);
    ServedAsPromised(run, j, i);
  }

  lemma EarlierClock(run: seq<Request>, m: nat, i: nat)
    requires Monotonic(run) && m < i < |run|
    ensures run[m].now <= run[i].now
  {
    assert run[m].now <= run[m].later;
  }

  /** After a fetch with lifetime L in range, with a clock that never runs backwards, every request
      that starts before L - 30 s is served that answer's token, so there is no fetch in between. */
  lemma {:induction false} NoRefetchWhileFresh(run: seq<Request>, j: nat, i: nat)
    requires Monotonic(run) && j < i < |run| && FetchedAt(run, j)
    requires Promised(run, j) <= LONGEST_LIFETIME
    requires run[i].now < run[j].later + Promised(run, j) * 1_000_000_000 - 30_000_000_000
    ensures forall m :: j < m <= i ==> ServedAt(run, m)
    ensures Returned(Before(run, i), run[i]) == Some(run[j].response.accessToken)
    decreases i
  {
    if i > j + 1 {
      EarlierClock(run, i - 1, i);
      NoRefetchWhileFresh(run, j, i - 1);
    }
    StillFresh(run, j, i);
  }

  /** Once the leeway is reached the cache stops serving: the next request goes to the endpoint and
      returns what that answers. */
  lemma StaleIsNeverServed(run: seq<Request>, j: nat, i: nat)
    requires i < |run| && LastFetch(run, i) == Some(j) && Promised(run, j) <= LONGEST_LIFETIME
    requires run[i].now >= run[j].later + Promised(run, j) * 1_000_000_000 - 30_000_000_000
    ensures !ServedAt(run, i)
    ensures Returned(Before(run, i), run[i]) ==
      if Usable(run[i].response) then Some(run[i].response.accessToken) else None
  {
    ServedAsPromised(run, j, i);
  }

  /** A lifetime of at most 30 seconds is never served from the cache, nor is one that is missing
      or that is no positive 64-bit integer. */
  lemma ShortLivedIsNeverServed(run: seq<Request>, j: nat, i: nat)
    requires Monotonic(run) && j < i < |run| && FetchedAt(run, j)
    requires forall m :: j < m < i ==> !FetchedAt(run, m)
    requires var seconds := ParseInt(run[j].response.expiresIn, MAX_INT64);
      seconds.Some? ==> seconds.value <= 30
    ensures !ServedAt(run, i)
  {
    LastFetchIs(run, j, i);
    CacheHoldsTheLastFetch(run, i);
    assert run[j].later <= run[i].now;
    ExpiryIsTrueExactly(Fetched(run[j].response.accessToken, Promised(run, j)), run[j].later);
  }

  // -- Failures ------------------------------------------------------------------------------------

  function After(run: seq<Request>): Cache {
    Before(run, |run|)
  }

  /** The last request fails in the cache the ones before it leave behind. */
  predicate FailsLast(run: seq<Request>)
    requires run != []
  {
    Returned(After(run[..|run| - 1]), run[|run| - 1]).None?
  }

  /** The run without the requests that failed in it. */
  function WithoutFailures(run: seq<Request>): seq<Request> {
    if run == [] then []
    else if FailsLast(run) then WithoutFailures(run[..|run| - 1])
    else WithoutFailures(run[..|run| - 1]) + [run[|run| - 1]]
  }

  /** The tokens its requests returned, in order. */
  function Tokens(run: seq<Request>): seq<string> {
    if run == [] then []
    else if FailsLast(run) then Tokens(run[..|run| - 1])
    else Tokens(run[..|run| - 1]) + [Returned(After(run[..|run| - 1]), run[|run| - 1]).value]
  }

  lemma {:induction false} BeforeOfPrefix(run: seq<Request>, m: nat, n: nat)
    requires n <= m <= |run|
    ensures Before(run[..m], n) == Before(run, n)
  {
    if n > 0 { BeforeOfPrefix(run, m, n - 1); }
  }

  lemma AfterStep(run: seq<Request>)
    requires run != []
    ensures After(run) == Next(After(run[..|run| - 1]), run[|run| - 1])
  {
    BeforeOfPrefix(run, |run| - 1, |run| - 1);
  }

  /** The same request after two runs that leave the same cache. */
  lemma SameRequest(a: seq<Request>, b: seq<Request>, r: Request)
    requires After(a) == After(b)
    ensures After(a + [r]) == Next(After(b), r)
    ensures Returned(After(b), r).Some? ==> Tokens(a + [r]) == Tokens(a) + [Returned(After(b), r).value]
  {
    var longer := a + [r];
    assert longer[..|longer| - 1] == a && longer[|longer| - 1] == r;
    AfterStep(longer);
  }

  /** A request that fails leaves no trace: taken out of the run, with the cache it found, nothing
      changes for any other request. The remaining requests all succeed, they return the same
      tokens in the same order, and leave the same cache behind. */
  lemma {:induction false} FailedRequestsLeaveNoTrace(run: seq<Request>)
    ensures After(WithoutFailures(run)) == After(run)
    ensures Tokens(WithoutFailures(run)) == Tokens(run) && |Tokens(run)| == |WithoutFailures(run)|
  {
    if run != [] {
      var front, last := run[..|run| - 1], run[|run| - 1];
      FailedRequestsLeaveNoTrace(front);
      AfterStep(run);
      SameRequest(WithoutFailures(front), front, last);
    }
  }
}
