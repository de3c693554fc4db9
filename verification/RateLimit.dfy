/** The token-bucket limiter: its one atomic step and the object that keeps the buckets. */
module RateLimit {
  import opened Wrappers
  import opened Redis

  datatype Limit = Limit(maxTokens: int, rate: real) {
    predicate Valid() { 1 <= maxTokens && 0.0 <= rate }
  }

  const TIER_LIMITS: map<string, Limit> := map[
    "free" := Limit(30, 0.5),
    "pro" := Limit(300, 5.0),
    "enterprise" := Limit(3000, 50.0)
  ]

  const ENDPOINT_LIMITS: map<string, Limit> := map[
    "/api/v1/chat" := Limit(20, 0.33),
    "/api/v1/images" := Limit(10, 0.17),
    "/api/v1/models" := Limit(120, 2.0),
    "/api/v1/usage" := Limit(60, 1.0)
  ]

  const BUCKET_SECONDS := 120.0

  /** The hash stored under a bucket's key. */
  datatype Bucket = Bucket(tokens: real, lastRefill: real)

  datatype Decision = Decision(allowed: bool, remaining: int)

  /** An empty endpoint counts as none. */
  function Named(endpoint: Option<string>): Option<string> {
    if endpoint == Some("") then None else endpoint
  }

  function LimitFor(tier: string, endpoint: Option<string>): Limit {
    var e := Named(endpoint);
    if e.Some? && e.value in ENDPOINT_LIMITS then ENDPOINT_LIMITS[e.value]
    else if tier in TIER_LIMITS then TIER_LIMITS[tier]
    else TIER_LIMITS["free"]
  }

  function BucketKey(identifier: string, endpoint: Option<string>): string {
    var e := Named(endpoint);
    "ratelimit:" + identifier + if e.Some? then ":" + e.value else ""
  }

  function Min(x: real, y: real): real {
    if x < y then x else y
  }

  /** What the bucket refills in a time. */
  function Refill(l: Limit, seconds: real): real {
    seconds * l.rate
  }

  /** The tokens a request finds: a missing or expired bucket is full. */
  function Refilled(l: Limit, cell: Cell<Bucket>, now: real): real {
    if cell.Live(now) then
      Min(l.maxTokens as real, cell.value.tokens + Refill(l, now - cell.value.lastRefill))
    else
      l.maxTokens as real
  }

  lemma FullStaysFull(l: Limit)
    ensures Refill(l, 0.0) == 0.0
  {
  }

  function Deadline(ttl: Option<real>, now: real): Expiry {
    match ttl
    case Some(seconds) => At(now + seconds)
    case None => Never
  }

  /** One request; every request, refused or not, writes the bucket back and renews its key. */
  function Take(l: Limit, ttl: Option<real>, cell: Cell<Bucket>, now: real): (Cell<Bucket>, Decision) {
    var tokens := Refilled(l, cell, now);
    var left := if tokens >= 1.0 then tokens - 1.0 else tokens;
    (Held(Bucket(left, now), Deadline(ttl, now)), Decision(tokens >= 1.0, left.Floor))
  }

  /** `int(1 / refill_rate)`, or a minute when nothing refills. */
  function RetryAfter(l: Limit): int
    requires l.Valid()
  {
    if l.rate > 0.0 then (1.0 / l.rate).Floor else 60
  }

  datatype Headers = Headers(limit: int, remaining: int)

  /** Status 429 with its headers. */
  datatype TooManyRequests = TooManyRequests(retryAfter: int, limit: int, remaining: int)

  class TokenBucketLimiter {
    var buckets: map<string, Cell<Bucket>>

    constructor ()
      ensures buckets == map[]
    {
      buckets := map[];
    }

    method Check(identifier: string, tier: string, endpoint: Option<string>, now: real)
      returns (r: Result<Headers, TooManyRequests>)
      modifies this
      ensures
        var key := BucketKey(identifier, endpoint);
        var l := LimitFor(tier, endpoint);
        var (cell, d) := Take(l, Some(BUCKET_SECONDS), Lookup(old(buckets), key), now);
        && buckets == old(buckets)[key := cell]
        && (d.allowed ==> r == Success(Headers(l.maxTokens, d.remaining)))
        && (!d.allowed ==> l.Valid() && r == Failure(TooManyRequests(RetryAfter(l), l.maxTokens, 0)))
    {
      var limit := LimitFor(tier, endpoint);
      var key := BucketKey(identifier, endpoint);
      var cell := Lookup(buckets, key);

      var tokens, lastRefill := limit.maxTokens as real, now;
      if cell.Live(now) {
        tokens, lastRefill := cell.value.tokens, cell.value.lastRefill;
      }
      var elapsed := now - lastRefill;
      FullStaysFull(limit);
      tokens := Min(limit.maxTokens as real, tokens + Refill(limit, elapsed));
      assert tokens == Refilled(limit, cell, now);
      lastRefill := now;

      var allowed := false;
      if tokens >= 1.0 {
        tokens := tokens - 1.0;
        allowed := true;
      }
      buckets := buckets[key := Held(Bucket(tokens, lastRefill), At(now + BUCKET_SECONDS))];

      if !allowed {
        return Failure(TooManyRequests(RetryAfter(limit), limit.maxTokens, 0));
      }
      return Success(Headers(limit.maxTokens, tokens.Floor));
    }
  }
}

/**
 The law of a token bucket, with time measured in the credits it earns: `credits[k]` is
 the clock times the refill rate at request `k`.  A bucket holds at most `max`.
 */
module TokenBucketLaw {
  import opened RateLimit

  predicate Rising(credits: seq<real>) {
    forall i, j | 0 <= i <= j < |credits| :: credits[i] <= credits[j]
  }

  /** The tokens request `n` finds. */
  function Tokens(max: real, credits: seq<real>, n: nat): real
    requires n < |credits|
    decreases n, 0
  {
    if n == 0 then max else Min(max, Left(max, credits, n - 1) + (credits[n] - credits[n - 1]))
  }

  function Left(max: real, credits: seq<real>, n: nat): real
    requires n < |credits|
    decreases n, 1
  {
    var tokens := Tokens(max, credits, n);
    if tokens >= 1.0 then tokens - 1.0 else tokens
  }

  /** How many of requests `i` to `n - 1` are admitted. */
  function Count(admitted: seq<bool>, i: nat, n: nat): nat
    requires n <= |admitted|
  {
    if n <= i then 0 else Count(admitted, i, n - 1) + if admitted[n - 1] then 1 else 0
  }

  /** What the window from request `i` leaves for a request at credit `now`. */
  function Room(max: real, credits: seq<real>, admitted: seq<bool>, i: nat, n: nat, now: real): real
    requires i < |credits| && n <= |admitted|
  {
    max + (now - credits[i]) - Count(admitted, i, n) as real
  }

  ghost predicate Admits(max: real, credits: seq<real>, admitted: seq<bool>) {
    |admitted| == |credits| && forall k | 0 <= k < |credits| :: admitted[k] <==> Tokens(max, credits, k) >= 1.0
  }

  lemma {:induction false} TokensAreLeastRoom(max: real, credits: seq<real>, admitted: seq<bool>, n: nat)
    requires 1.0 <= max && Rising(credits) && Admits(max, credits, admitted) && n < |credits|
    ensures
      var tokens := Tokens(max, credits, n);
      && 0.0 <= tokens <= max
      && (forall i | 0 <= i < n :: tokens <= Room(max, credits, admitted, i, n, credits[n]))
      && (tokens == max || exists i :: 0 <= i < n && tokens == Room(max, credits, admitted, i, n, credits[n]))
  {
    if n > 0 {
      var m := n - 1;
      TokensAreLeastRoom(max, credits, admitted, m);
      var before, tokens := Tokens(max, credits, m), Tokens(max, credits, n);
      assert Count(admitted, m, n) == if admitted[m] then 1 else 0;
      forall i | 0 <= i < n ensures tokens <= Room(max, credits, admitted, i, n, credits[n]) {
        assert i < m ==> before <= Room(max, credits, admitted, i, m, credits[m]);
      }
      if tokens != max {
        if before == max {
          assert tokens == Room(max, credits, admitted, m, n, credits[n]);
        } else {
          var i :| 0 <= i < m && before == Room(max, credits, admitted, i, m, credits[m]);
          assert tokens == Room(max, credits, admitted, i, n, credits[n]);
        }
      }
    }
  }

  /** Every window holds at most a full bucket and what the window earns. */
  ghost predicate RespectsWindows(max: real, credits: seq<real>, admitted: seq<bool>)
    requires |admitted| == |credits|
  {
    forall i, j | 0 <= i <= j < |credits| :: Count(admitted, i, j + 1) as real <= max + (credits[j] - credits[i])
  }

  lemma {:induction false} WindowBound(max: real, credits: seq<real>, admitted: seq<bool>, i: nat, j: nat)
    requires 1.0 <= max && Rising(credits) && Admits(max, credits, admitted) && i <= j < |credits|
    ensures Count(admitted, i, j + 1) as real <= max + (credits[j] - credits[i])
    decreases j
  {
    TokensAreLeastRoom(max, credits, admitted, j);
    if i == j {
      assert Count(admitted, i, j) == 0;
    } else {
      WindowBound(max, credits, admitted, i, j - 1);
      assert Tokens(max, credits, j) <= Room(max, credits, admitted, i, j, credits[j]);
    }
  }

  lemma {:induction false} CountSplit(admitted: seq<bool>, i: nat, n: nat)
    requires i <= n <= |admitted|
    ensures Count(admitted, 0, n) == Count(admitted, 0, i) + Count(admitted, i, n)
    decreases n
  {
    if i < n {
      CountSplit(admitted, i, n - 1);
    }
  }

  lemma {:induction false} GreedyIsOptimal(max: real, credits: seq<real>, admitted: seq<bool>, other: seq<bool>, n: nat)
    requires 1.0 <= max && Rising(credits) && Admits(max, credits, admitted) && n <= |credits|
    requires |other| == |credits| && RespectsWindows(max, credits, other)
    ensures Count(other, 0, n) <= Count(admitted, 0, n)
    decreases n
  {
    if n > 0 {
      var m := n - 1;
      GreedyIsOptimal(max, credits, admitted, other, m);
      if other[m] && !admitted[m] {
        TokensAreLeastRoom(max, credits, admitted, m);
        var i :| 0 <= i < m && Tokens(max, credits, m) == Room(max, credits, admitted, i, m, credits[m]);
        assert Count(other, i, m + 1) as real <= max + (credits[m] - credits[i]);
        assert Count(other, i, n) <= Count(admitted, i, n);
        GreedyIsOptimal(max, credits, admitted, other, i);
        CountSplit(other, i, n);
        CountSplit(admitted, i, n);
      }
    }
  }
}

/**
 What the limiter guarantees over every run of requests to one bucket.  `ttl` is the life
 of the bucket's key after each request: `Some(120.0)` in the limiter, `None` for the
 plain token bucket it stands for.
 */
module RateLimitLaw {
  import opened Wrappers
  import opened Redis
  import opened RateLimit
  import Law = TokenBucketLaw

  predicate Monotone(times: seq<real>) {
    forall i, j | 0 <= i <= j < |times| :: times[i] <= times[j]
  }

  function CellAfter(l: Limit, ttl: Option<real>, times: seq<real>, n: nat): Cell<Bucket>
    requires n <= |times|
  {
    if n == 0 then Gone else Take(l, ttl, CellAfter(l, ttl, times, n - 1), times[n - 1]).0
  }

  /** The tokens request `n` finds. */
  function Found(l: Limit, ttl: Option<real>, times: seq<real>, n: nat): real
    requires n < |times|
  {
    Refilled(l, CellAfter(l, ttl, times, n), times[n])
  }

  function DecisionAt(l: Limit, ttl: Option<real>, times: seq<real>, n: nat): Decision
    requires n < |times|
  {
    Take(l, ttl, CellAfter(l, ttl, times, n), times[n]).1
  }

  function Admissions(l: Limit, ttl: Option<real>, times: seq<real>): (admitted: seq<bool>)
    ensures |admitted| == |times|
  {
    seq(|times|, k requires 0 <= k < |times| => DecisionAt(l, ttl, times, k).allowed)
  }

  /** The admissions that requests `i` to `n - 1` and the refill since leave room for. */
  function Room(l: Limit, times: seq<real>, i: nat, n: nat): real
    requires i < |times| && n < |times|
  {
    l.maxTokens as real + Refill(l, times[n] - times[i]) - Law.Count(Admissions(l, None, times), i, n) as real
  }

  function Credits(l: Limit, times: seq<real>): seq<real> {
    seq(|times|, k requires 0 <= k < |times| => times[k] * l.rate)
  }

  lemma Earned(l: Limit, times: seq<real>, i: nat, n: nat)
    requires i < |times| && n < |times|
    ensures Refill(l, times[n] - times[i]) == Credits(l, times)[n] - Credits(l, times)[i]
  {
  }

  lemma CreditsRise(l: Limit, times: seq<real>)
    requires l.Valid() && Monotone(times)
    ensures Law.Rising(Credits(l, times))
  {
    forall i, j | 0 <= i <= j < |times| ensures Credits(l, times)[i] <= Credits(l, times)[j] {
      Earned(l, times, i, j);
      RefillNonNegative(l, times[j] - times[i]);
    }
  }

  function LeftOf(tokens: real): real {
    if tokens >= 1.0 then tokens - 1.0 else tokens
  }

  lemma Stored(l: Limit, ttl: Option<real>, cell: Cell<Bucket>, now: real)
    ensures Take(l, ttl, cell, now).0 == Held(Bucket(LeftOf(Refilled(l, cell, now)), now), Deadline(ttl, now))
  {
  }

  lemma RefilledLater(l: Limit, ttl: Option<real>, left: real, before: real, now: real)
    ensures Refilled(l, Held(Bucket(left, before), Deadline(ttl, before)), now)
         == if ttl.Some? && now - before >= ttl.value then l.maxTokens as real
            else Min(l.maxTokens as real, left + Refill(l, now - before))
  {
  }

  /** What request `n - 1` leaves, and what the time to request `n` earns. */
  lemma FoundNext(l: Limit, ttl: Option<real>, times: seq<real>, n: nat)
    requires 0 < n < |times|
    ensures
      var left := LeftOf(Found(l, ttl, times, n - 1));
      && CellAfter(l, ttl, times, n) == Held(Bucket(left, times[n - 1]), Deadline(ttl, times[n - 1]))
      && Found(l, ttl, times, n) ==
           if ttl.Some? && times[n] - times[n - 1] >= ttl.value then l.maxTokens as real
           else Min(l.maxTokens as real, left + Refill(l, times[n] - times[n - 1]))
  {
    Stored(l, ttl, CellAfter(l, ttl, times, n - 1), times[n - 1]);
    RefilledLater(l, ttl, LeftOf(Found(l, ttl, times, n - 1)), times[n - 1], times[n]);
  }

  lemma DecisionFromFound(l: Limit, ttl: Option<real>, times: seq<real>, n: nat)
    requires n < |times|
    ensures
      var found := Found(l, ttl, times, n);
      DecisionAt(l, ttl, times, n) == Decision(found >= 1.0, LeftOf(found).Floor)
  {
  }

  lemma {:induction false} FoundIsTokens(l: Limit, times: seq<real>, n: nat)
    requires n < |times|
    ensures Found(l, None, times, n) == Law.Tokens(l.maxTokens as real, Credits(l, times), n)
  {
    if n > 0 {
      FoundIsTokens(l, times, n - 1);
      FoundNext(l, None, times, n);
      Earned(l, times, n - 1, n);
    }
  }

  lemma AdmissionsFollowLaw(l: Limit, times: seq<real>)
    requires l.Valid() && Monotone(times)
    ensures Law.Rising(Credits(l, times))
    ensures Law.Admits(l.maxTokens as real, Credits(l, times), Admissions(l, None, times))
  {
    CreditsRise(l, times);
    forall k | 0 <= k < |times|
      ensures Admissions(l, None, times)[k] <==> Law.Tokens(l.maxTokens as real, Credits(l, times), k) >= 1.0
    {
      FoundIsTokens(l, times, k);
    }
  }

  lemma RoomInCredits(l: Limit, times: seq<real>, i: nat, n: nat)
    requires i < |times| && n < |times|
    ensures
      var credits := Credits(l, times);
      Room(l, times, i, n) == Law.Room(l.maxTokens as real, credits, Admissions(l, None, times), i, n, credits[n])
  {
    Earned(l, times, i, n);
  }

  /**
   The exact law of the plain bucket: request `n` finds the least room left by any
   window that starts at an earlier request, or a full bucket when that is less.
   */
  lemma TokensAreLeastRoom(l: Limit, times: seq<real>, n: nat)
    requires l.Valid() && Monotone(times) && n < |times|
    ensures
      var tokens := Found(l, None, times, n);
      && 0.0 <= tokens <= l.maxTokens as real
      && (forall i | 0 <= i < n :: tokens <= Room(l, times, i, n))
      && (tokens == l.maxTokens as real || exists i :: 0 <= i < n && tokens == Room(l, times, i, n))
  {
    var max, credits, admitted := l.maxTokens as real, Credits(l, times), Admissions(l, None, times);
    AdmissionsFollowLaw(l, times);
    FoundIsTokens(l, times, n);
    Law.TokensAreLeastRoom(max, credits, admitted, n);
    var tokens := Law.Tokens(max, credits, n);
    forall i | 0 <= i < n ensures tokens <= Room(l, times, i, n) {
      RoomInCredits(l, times, i, n);
    }
    if tokens != max {
      var i :| 0 <= i < n && tokens == Law.Room(max, credits, admitted, i, n, credits[n]);
      RoomInCredits(l, times, i, n);
    }
  }

  /** A request is refused exactly when some window that ends with it is already full. */
  lemma RefusedIffSomeWindowFull(l: Limit, times: seq<real>, n: nat)
    requires l.Valid() && Monotone(times) && n < |times|
    ensures !DecisionAt(l, None, times, n).allowed <==> exists i :: 0 <= i < n && Room(l, times, i, n) < 1.0
  {
    TokensAreLeastRoom(l, times, n);
  }

  /** No window of any length holds more admissions than a full bucket and its refill. */
  ghost predicate RespectsWindows(l: Limit, times: seq<real>, admitted: seq<bool>)
    requires |admitted| == |times|
  {
    forall i, j | 0 <= i <= j < |times| ::
      Law.Count(admitted, i, j + 1) as real <= l.maxTokens as real + Refill(l, times[j] - times[i])
  }

  lemma LimiterRespectsWindows(l: Limit, times: seq<real>)
    requires l.Valid() && Monotone(times)
    ensures RespectsWindows(l, times, Admissions(l, None, times))
  {
    AdmissionsFollowLaw(l, times);
    forall i, j | 0 <= i <= j < |times|
      ensures Law.Count(Admissions(l, None, times), i, j + 1) as real
              <= l.maxTokens as real + Refill(l, times[j] - times[i])
    {
      Law.WindowBound(l.maxTokens as real, Credits(l, times), Admissions(l, None, times), i, j);
      Earned(l, times, i, j);
    }
  }

  /**
   The limiter is optimal: no policy that respects the same windows, however it chooses,
   has admitted more after any number of requests.
   */
  lemma LimiterIsOptimal(l: Limit, times: seq<real>, other: seq<bool>, n: nat)
    requires l.Valid() && Monotone(times) && |other| == |times| && n <= |times|
    requires RespectsWindows(l, times, other)
    ensures Law.Count(other, 0, n) <= Law.Count(Admissions(l, None, times), 0, n)
  {
    AdmissionsFollowLaw(l, times);
    var credits := Credits(l, times);
    forall i, j | 0 <= i <= j < |times|
      ensures Law.Count(other, i, j + 1) as real <= l.maxTokens as real + (credits[j] - credits[i])
    {
      Earned(l, times, i, j);
    }
    Law.GreedyIsOptimal(l.maxTokens as real, credits, Admissions(l, None, times), other, n);
  }

  // ---- The key's expiry ----

  /** The same decisions and remaining counts, on every run. */
  ghost predicate ExpiryInvisible(l: Limit) {
    forall times: seq<real>, n | Monotone(times) && 0 <= n < |times| ::
      DecisionAt(l, Some(BUCKET_SECONDS), times, n) == DecisionAt(l, None, times, n)
  }

  lemma LongGapFills(l: Limit, left: real, gap: real)
    requires l.Valid() && l.maxTokens as real <= Refill(l, BUCKET_SECONDS) && 0.0 <= left && BUCKET_SECONDS <= gap
    ensures Min(l.maxTokens as real, left + Refill(l, gap)) == l.maxTokens as real
  {
    assert BUCKET_SECONDS * l.rate <= gap * l.rate;
  }

  lemma SameNext(l: Limit, times: seq<real>, n: nat)
    requires l.Valid() && l.maxTokens as real <= Refill(l, BUCKET_SECONDS) && 0 < n < |times|
    requires Found(l, Some(BUCKET_SECONDS), times, n - 1) == Found(l, None, times, n - 1) >= 0.0
    ensures Found(l, Some(BUCKET_SECONDS), times, n) == Found(l, None, times, n)
  {
    var gap := times[n] - times[n - 1];
    FoundNext(l, Some(BUCKET_SECONDS), times, n);
    FoundNext(l, None, times, n);
    if gap >= BUCKET_SECONDS {
      LongGapFills(l, LeftOf(Found(l, None, times, n - 1)), gap);
    }
  }

  lemma {:induction false} SameTokens(l: Limit, times: seq<real>, n: nat)
    requires l.Valid() && l.maxTokens as real <= Refill(l, BUCKET_SECONDS)
    requires Monotone(times) && n < |times|
    ensures Found(l, Some(BUCKET_SECONDS), times, n) == Found(l, None, times, n)
  {
    if n > 0 {
      SameTokens(l, times, n - 1);
      TokensNonNegative(l, None, times, n - 1);
      SameNext(l, times, n);
    }
  }

  /** A burst of `k` requests at time zero on a full bucket. */
  lemma {:induction false} Burst(l: Limit, ttl: Option<real>, times: seq<real>, k: nat)
    requires l.Valid() && k <= l.maxTokens && k < |times| && (ttl.Some? ==> ttl.value > 0.0)
    requires forall i | 0 <= i <= k :: times[i] == 0.0
    ensures Found(l, ttl, times, k) == (l.maxTokens - k) as real
  {
    if k > 0 {
      Burst(l, ttl, times, k - 1);
      FoundNext(l, ttl, times, k);
    }
  }

  lemma ExpiryInvisibleWhenRefilled(l: Limit)
    requires l.Valid() && l.maxTokens as real <= Refill(l, BUCKET_SECONDS)
    ensures ExpiryInvisible(l)
  {
    forall times: seq<real>, n | Monotone(times) && 0 <= n < |times|
      ensures DecisionAt(l, Some(BUCKET_SECONDS), times, n) == DecisionAt(l, None, times, n)
    {
      SameTokens(l, times, n);
      DecisionFromFound(l, Some(BUCKET_SECONDS), times, n);
      DecisionFromFound(l, None, times, n);
    }
  }

  /** `zeros` requests at time zero, enough to drain the bucket, and one more `wait` later. */
  function DrainThenWait(zeros: nat, wait: real): seq<real> {
    seq(zeros, _ => 0.0) + [wait]
  }

  lemma FoundAfterDrain(l: Limit, ttl: Option<real>, zeros: nat, wait: real)
    requires l.Valid() && l.maxTokens <= zeros <= l.maxTokens + 1 && (ttl.Some? ==> ttl.value > 0.0)
    ensures
      var times := DrainThenWait(zeros, wait);
      && Found(l, ttl, times, zeros - 1) == (l.maxTokens - zeros + 1) as real
      && Found(l, ttl, times, zeros) ==
           if ttl.Some? && wait >= ttl.value then l.maxTokens as real else Min(l.maxTokens as real, Refill(l, wait))
  {
    var times := DrainThenWait(zeros, wait);
    Burst(l, ttl, times, zeros - 1);
    FoundNext(l, ttl, times, zeros);
    assert times[zeros] - times[zeros - 1] == wait;
    assert LeftOf(Found(l, ttl, times, zeros - 1)) == 0.0;
  }

  lemma FloorBelow(n: int, x: real)
    requires x < n as real
    ensures x.Floor < n && (n as real).Floor == n
  {
  }

  lemma RemainingDiffers(max: int, tokens: real)
    requires 1 <= max && tokens < max as real
    ensures tokens < 1.0 || LeftOf(tokens).Floor != LeftOf(max as real).Floor
  {
    if tokens >= 1.0 {
      var n := max - 1;
      assert LeftOf(max as real) == n as real;
      FloorBelow(n, tokens - 1.0);
    }
  }

  /** Asked again when the key of a drained bucket has just expired. */
  lemma ExpiryVisibleOtherwise(l: Limit)
    requires l.Valid() && l.maxTokens as real > Refill(l, BUCKET_SECONDS)
    ensures
      var times := DrainThenWait(l.maxTokens, BUCKET_SECONDS);
      DecisionAt(l, Some(BUCKET_SECONDS), times, l.maxTokens) != DecisionAt(l, None, times, l.maxTokens)
  {
    var times := DrainThenWait(l.maxTokens, BUCKET_SECONDS);
    FoundAfterDrain(l, Some(BUCKET_SECONDS), l.maxTokens, BUCKET_SECONDS);
    FoundAfterDrain(l, None, l.maxTokens, BUCKET_SECONDS);
    DecisionFromFound(l, Some(BUCKET_SECONDS), times, l.maxTokens);
    DecisionFromFound(l, None, times, l.maxTokens);
    RemainingDiffers(l.maxTokens, Found(l, None, times, l.maxTokens));
  }

  /**
   A bucket whose key expires 120 seconds after its last request behaves as one that is
   kept for ever exactly when it would be full again by then.
   */
  lemma ExpiryInvisibleIff(l: Limit)
    requires l.Valid()
    ensures ExpiryInvisible(l) <==> l.maxTokens as real <= Refill(l, BUCKET_SECONDS)
  {
    if l.maxTokens as real <= Refill(l, BUCKET_SECONDS) {
      ExpiryInvisibleWhenRefilled(l);
    } else {
      ExpiryVisibleOtherwise(l);
      assert Monotone(DrainThenWait(l.maxTokens, BUCKET_SECONDS));
    }
  }

  lemma ExpiryInvisibleForEveryLimit(tier: string, endpoint: Option<string>)
    ensures ExpiryInvisible(LimitFor(tier, endpoint))
  {
    ExpiryInvisibleWhenRefilled(LimitFor(tier, endpoint));
  }

  /** The deployed limiter keeps the window bound for every configured limit. */
  lemma ConfiguredLimiterRespectsWindows(tier: string, endpoint: Option<string>, times: seq<real>)
    requires Monotone(times)
    ensures
      var l := LimitFor(tier, endpoint);
      RespectsWindows(l, times, Admissions(l, Some(BUCKET_SECONDS), times))
  {
    var l := LimitFor(tier, endpoint);
    ExpiryInvisibleForEveryLimit(tier, endpoint);
    LimiterRespectsWindows(l, times);
    assert Admissions(l, Some(BUCKET_SECONDS), times) == Admissions(l, None, times);
  }

  // ---- What a client can rely on ----

  /** A client whose requests are at least `1 / rate` seconds apart is never refused. */
  lemma {:induction false} SpacedRequestsAdmitted(l: Limit, ttl: Option<real>, times: seq<real>, n: nat)
    requires l.Valid() && Monotone(times) && n < |times|
    requires forall k | 0 < k < |times| :: Refill(l, times[k] - times[k - 1]) >= 1.0
    ensures DecisionAt(l, ttl, times, n).allowed
  {
    DecisionFromFound(l, ttl, times, n);
    if n > 0 {
      TokensNonNegative(l, ttl, times, n - 1);
      FoundNext(l, ttl, times, n);
    }
  }

  lemma {:induction false} TokensNonNegative(l: Limit, ttl: Option<real>, times: seq<real>, n: nat)
    requires l.Valid() && Monotone(times) && n < |times|
    ensures 0.0 <= Found(l, ttl, times, n)
  {
    if n > 0 {
      TokensNonNegative(l, ttl, times, n - 1);
      FoundNext(l, ttl, times, n);
      RefillNonNegative(l, times[n] - times[n - 1]);
    }
  }

  lemma RefillNonNegative(l: Limit, seconds: real)
    requires l.Valid() && 0.0 <= seconds
    ensures 0.0 <= Refill(l, seconds)
  {
  }

  /** `k` times the time that earns one token. */
  function Tick(l: Limit, k: nat): real
    requires 0.0 < l.rate
  {
    if k == 0 then 0.0 else Tick(l, k - 1) + 1.0 / l.rate
  }

  lemma TickEarns(l: Limit)
    requires 0.0 < l.rate
    ensures Refill(l, 1.0 / l.rate) == 1.0
  {
  }

  lemma RefillAdds(l: Limit, x: real, y: real)
    ensures Refill(l, x + y) == Refill(l, x) + Refill(l, y)
  {
  }

  lemma {:induction false} TicksEarn(l: Limit, k: nat)
    requires 0.0 < l.rate
    ensures Refill(l, Tick(l, k)) == k as real && 0.0 <= Tick(l, k)
    decreases k
  {
    if k == 0 {
      FullStaysFull(l);
    } else {
      TicksEarn(l, k - 1);
      TickEarns(l);
      RefillAdds(l, Tick(l, k - 1), 1.0 / l.rate);
    }
  }

  /** A full bucket at once, then a request for every token that is earned. */
  function BurstThenTicks(l: Limit, extra: nat): seq<real>
    requires l.Valid() && (extra > 0 ==> 0.0 < l.rate)
  {
    seq(l.maxTokens + extra, k requires 0 <= k < l.maxTokens + extra =>
      if k < l.maxTokens then 0.0 else Tick(l, k - l.maxTokens + 1))
  }

  lemma {:induction false} TicksRise(l: Limit, j: nat, k: nat)
    requires 0.0 < l.rate && j <= k
    ensures Tick(l, j) <= Tick(l, k)
    decreases k
  {
    if j < k {
      TicksRise(l, j, k - 1);
    }
  }

  lemma BurstRises(l: Limit, extra: nat)
    requires l.Valid() && (extra > 0 ==> 0.0 < l.rate)
    ensures Monotone(BurstThenTicks(l, extra))
  {
    var times := BurstThenTicks(l, extra);
    forall i, j | 0 <= i <= j < |times| ensures times[i] <= times[j] {
      if i >= l.maxTokens {
        TicksRise(l, i - l.maxTokens + 1, j - l.maxTokens + 1);
      } else if j >= l.maxTokens {
        TicksRise(l, 0, j - l.maxTokens + 1);
      }
    }
  }

  lemma BurstAdmitted(l: Limit, ttl: Option<real>, extra: nat, n: nat)
    requires l.Valid() && (extra > 0 ==> 0.0 < l.rate) && (ttl.Some? ==> ttl.value > 0.0) && n < l.maxTokens + extra
    ensures DecisionAt(l, ttl, BurstThenTicks(l, extra), n).allowed
  {
    var times := BurstThenTicks(l, extra);
    DecisionFromFound(l, ttl, times, n);
    if n < l.maxTokens {
      Burst(l, ttl, times, n);
    } else {
      BurstRises(l, extra);
      TokensNonNegative(l, ttl, times, n - 1);
      FoundNext(l, ttl, times, n);
      var k := n - l.maxTokens;
      assert times[n - 1] == Tick(l, k);
      assert times[n] == Tick(l, k + 1) == Tick(l, k) + 1.0 / l.rate;
      TickEarns(l);
    }
  }

  /**
   The window bound is tight: some run is admitted in full
   and holds exactly a full bucket and what its time earns.
   */
  lemma WindowBoundReached(l: Limit, ttl: Option<real>, extra: nat) returns (times: seq<real>)
    requires l.Valid() && (extra > 0 ==> 0.0 < l.rate) && (ttl.Some? ==> ttl.value > 0.0)
    ensures Monotone(times) && |times| == l.maxTokens + extra
    ensures forall n | 0 <= n < |times| :: DecisionAt(l, ttl, times, n).allowed
    ensures |times| as real == l.maxTokens as real + Refill(l, times[|times| - 1] - times[0])
    ensures extra == 0 ==> times[|times| - 1] == times[0]
  {
    times := BurstThenTicks(l, extra);
    BurstRises(l, extra);
    if extra > 0 {
      TicksEarn(l, extra);
    }
    forall n | 0 <= n < |times| ensures DecisionAt(l, ttl, times, n).allowed {
      BurstAdmitted(l, ttl, extra, n);
    }
    FullStaysFull(l);
  }

  /** No window of at most `d` seconds, in any run, holds more than `n` admissions. */
  ghost predicate WindowCap(l: Limit, ttl: Option<real>, d: real, n: nat) {
    forall times: seq<real>, i, j | Monotone(times) && 0 <= i <= j < |times| && times[j] - times[i] <= d ::
      Law.Count(Admissions(l, ttl, times), i, j + 1) <= n
  }

  lemma FoundAtMost(l: Limit, ttl: Option<real>, times: seq<real>, n: nat)
    requires l.Valid() && n < |times|
    ensures Found(l, ttl, times, n) <= l.maxTokens as real
  {
    if n > 0 {
      FoundNext(l, ttl, times, n);
    }
  }

  /** Within the life of a key, what a window admits and leaves is at most a full bucket and its refill. */
  lemma {:induction false} WindowWithin(l: Limit, ttl: Option<real>, times: seq<real>, i: nat, j: nat)
    requires l.Valid() && Monotone(times) && i <= j < |times|
    requires ttl.Some? ==> times[j] - times[i] < ttl.value
    ensures Law.Count(Admissions(l, ttl, times), i, j + 1) as real + LeftOf(Found(l, ttl, times, j))
            <= l.maxTokens as real + Refill(l, times[j] - times[i])
    decreases j
  {
    DecisionFromFound(l, ttl, times, j);
    FoundAtMost(l, ttl, times, j);
    if i == j {
      FullStaysFull(l);
      assert Law.Count(Admissions(l, ttl, times), i, i) == 0;
    } else {
      WindowWithin(l, ttl, times, i, j - 1);
      FoundNext(l, ttl, times, j);
      RefillAdds(l, times[j - 1] - times[i], times[j] - times[j - 1]);
    }
  }

  lemma RefillGrows(l: Limit, x: real, y: real)
    requires l.Valid() && x <= y
    ensures Refill(l, x) <= Refill(l, y)
  {
    RefillAdds(l, x, y - x);
    RefillNonNegative(l, y - x);
  }

  lemma WindowCapHolds(l: Limit, ttl: Option<real>, d: real, n: nat)
    requires l.Valid() && 0.0 <= d && (ttl.Some? ==> d < ttl.value)
    requires l.maxTokens as real + Refill(l, d) < (n + 1) as real
    ensures WindowCap(l, ttl, d, n)
  {
    forall times: seq<real>, i, j | Monotone(times) && 0 <= i <= j < |times| && times[j] - times[i] <= d
      ensures Law.Count(Admissions(l, ttl, times), i, j + 1) <= n
    {
      WindowWithin(l, ttl, times, i, j);
      TokensNonNegative(l, ttl, times, j);
      RefillGrows(l, times[j] - times[i], d);
    }
  }

  lemma {:induction false} CountAll(admitted: seq<bool>, n: nat)
    requires n <= |admitted| && forall k | 0 <= k < n :: admitted[k]
    ensures Law.Count(admitted, 0, n) == n
  {
    if n > 0 {
      CountAll(admitted, n - 1);
    }
  }

  lemma WindowCapFails(l: Limit, ttl: Option<real>, d: real, n: nat)
    requires l.Valid() && 0.0 <= d && (ttl.Some? ==> d < ttl.value)
    requires l.maxTokens as real + Refill(l, d) >= (n + 1) as real
    ensures !WindowCap(l, ttl, d, n)
  {
    var extra := if n + 1 <= l.maxTokens then 0 else n + 1 - l.maxTokens;
    NoRateNoRefill(l, d);
    var times := WindowBoundReached(l, ttl, extra);
    var last := |times| - 1;
    if extra > 0 {
      RefillOrder(l, times[last] - times[0], d);
    }
    CountAll(Admissions(l, ttl, times), |times|);
    assert Law.Count(Admissions(l, ttl, times), 0, last + 1) > n && times[last] - times[0] <= d;
  }

  lemma NoRateNoRefill(l: Limit, d: real)
    requires l.Valid()
    ensures Refill(l, d) > 0.0 ==> 0.0 < l.rate
  {
  }

  lemma RefillOrder(l: Limit, x: real, y: real)
    requires 0.0 < l.rate && Refill(l, x) <= Refill(l, y)
    ensures x <= y
  {
  }

  /**
   Exactly how many requests any window of `d` seconds may admit, for `d` below the life
   of the bucket's key: `n` is a cap if and only if it reaches what a full bucket and the
   refill of `d` seconds come to, rounded down.
   */
  lemma WindowCapIff(l: Limit, ttl: Option<real>, d: real, n: nat)
    requires l.Valid() && 0.0 <= d && (ttl.Some? ==> d < ttl.value)
    ensures WindowCap(l, ttl, d, n) <==> l.maxTokens as real + Refill(l, d) < (n + 1) as real
  {
    if l.maxTokens as real + Refill(l, d) < (n + 1) as real {
      WindowCapHolds(l, ttl, d, n);
    } else {
      WindowCapFails(l, ttl, d, n);
    }
  }

  /** Under a configured limit, and with the key expiring as it does, that holds for windows of any length. */
  lemma ConfiguredCapIff(tier: string, endpoint: Option<string>, d: real, n: nat)
    requires 0.0 <= d
    ensures
      var l := LimitFor(tier, endpoint);
      WindowCap(l, Some(BUCKET_SECONDS), d, n) <==> l.maxTokens as real + Refill(l, d) < (n + 1) as real
  {
    var l := LimitFor(tier, endpoint);
    LimitIsConfigured(tier, endpoint);
    WindowCapIff(l, None, d, n);
    ExpiryInvisibleForEveryLimit(tier, endpoint);
    SameCaps(l, d, n);
  }

  lemma SameCaps(l: Limit, d: real, n: nat)
    requires ExpiryInvisible(l)
    ensures WindowCap(l, Some(BUCKET_SECONDS), d, n) <==> WindowCap(l, None, d, n)
  {
    forall times: seq<real> | Monotone(times)
      ensures Admissions(l, Some(BUCKET_SECONDS), times) == Admissions(l, None, times)
    {
      forall k | 0 <= k < |times|
        ensures Admissions(l, Some(BUCKET_SECONDS), times)[k] == Admissions(l, None, times)[k]
      {
        assert DecisionAt(l, Some(BUCKET_SECONDS), times, k) == DecisionAt(l, None, times, k);
      }
    }
  }

  /**
   So a limit written down as so many requests a minute keeps its word if and only if a
   minute earns less than one token.
   */
  lemma DocumentedMinuteIff(l: Limit)
    requires l.Valid()
    ensures WindowCap(l, Some(BUCKET_SECONDS), 60.0, l.maxTokens) <==> Refill(l, 60.0) < 1.0
  {
    WindowCapIff(l, Some(BUCKET_SECONDS), 60.0, l.maxTokens);
  }

  /** No configured limit does. */
  lemma NoDocumentedMinute(tier: string, endpoint: Option<string>)
    ensures var l := LimitFor(tier, endpoint); !WindowCap(l, Some(BUCKET_SECONDS), 60.0, l.maxTokens)
  {
    DocumentedMinuteIff(LimitFor(tier, endpoint));
    LimitIsConfigured(tier, endpoint);
    assert Refill(LimitFor(tier, endpoint), 60.0) >= 1.0;
  }

  /** Waiting out Retry-After once after a refusal is always enough. */
  ghost predicate RetryAfterSuffices(l: Limit)
    requires l.Valid()
  {
    forall times: seq<real>, n |
      && Monotone(times) && 0 < n < |times| && times[n] == times[n - 1] + RetryAfter(l) as real
      && !DecisionAt(l, Some(BUCKET_SECONDS), times, n - 1).allowed ::
      DecisionAt(l, Some(BUCKET_SECONDS), times, n).allowed
  }

  /** The truncated wait refills a whole token, or outlives the bucket's key. */
  predicate RetryAfterRefills(l: Limit)
    requires l.Valid()
  {
    Refill(l, RetryAfter(l) as real) >= 1.0 || RetryAfter(l) as real >= BUCKET_SECONDS
  }

  lemma RetryAdmitted(l: Limit, times: seq<real>, n: nat)
    requires l.Valid() && RetryAfterRefills(l)
    requires Monotone(times) && 0 < n < |times| && times[n] == times[n - 1] + RetryAfter(l) as real
    ensures DecisionAt(l, Some(BUCKET_SECONDS), times, n).allowed
  {
    TokensNonNegative(l, Some(BUCKET_SECONDS), times, n - 1);
    FoundNext(l, Some(BUCKET_SECONDS), times, n);
    DecisionFromFound(l, Some(BUCKET_SECONDS), times, n);
    assert times[n] - times[n - 1] == RetryAfter(l) as real;
  }

  lemma RetryRefused(l: Limit)
    requires l.Valid() && !RetryAfterRefills(l)
    ensures
      var times := DrainThenWait(l.maxTokens + 1, RetryAfter(l) as real);
      && !DecisionAt(l, Some(BUCKET_SECONDS), times, l.maxTokens).allowed
      && !DecisionAt(l, Some(BUCKET_SECONDS), times, l.maxTokens + 1).allowed
  {
    var times := DrainThenWait(l.maxTokens + 1, RetryAfter(l) as real);
    FoundAfterDrain(l, Some(BUCKET_SECONDS), l.maxTokens + 1, RetryAfter(l) as real);
    DecisionFromFound(l, Some(BUCKET_SECONDS), times, l.maxTokens);
    DecisionFromFound(l, Some(BUCKET_SECONDS), times, l.maxTokens + 1);
  }

  lemma RetryAfterNonNegative(l: Limit)
    requires l.Valid()
    ensures 0 <= RetryAfter(l)
  {
    if l.rate > 0.0 {
      assert 0.0 <= 1.0 / l.rate;
    }
  }

  /** Retry-After is a sound promise exactly when its truncated wait refills a token. */
  lemma RetryAfterSufficesIff(l: Limit)
    requires l.Valid()
    ensures RetryAfterSuffices(l) <==> RetryAfterRefills(l)
  {
    if RetryAfterRefills(l) {
      forall times: seq<real>, n |
        && Monotone(times) && 0 < n < |times| && times[n] == times[n - 1] + RetryAfter(l) as real
        && !DecisionAt(l, Some(BUCKET_SECONDS), times, n - 1).allowed
        ensures DecisionAt(l, Some(BUCKET_SECONDS), times, n).allowed
      {
        RetryAdmitted(l, times, n);
      }
    } else {
      RetryRefused(l);
      RetryAfterNonNegative(l);
      var times, n := DrainThenWait(l.maxTokens + 1, RetryAfter(l) as real), l.maxTokens + 1;
      assert Monotone(times) && times[n - 1] == 0.0;
    }
  }

  const SOUND_WAITS: set<Limit> := {Limit(30, 0.5), Limit(60, 1.0)}
  const SHORT_WAITS: set<Limit> := {Limit(300, 5.0), Limit(3000, 50.0), Limit(20, 0.33), Limit(10, 0.17), Limit(120, 2.0)}

  lemma LimitIsConfigured(tier: string, endpoint: Option<string>)
    ensures LimitFor(tier, endpoint) in SOUND_WAITS + SHORT_WAITS
  {
  }

  /** A limit with its truncated wait, and what the wait refills. */
  lemma SoundWait(l: Limit, k: nat, refilled: real)
    requires l.Valid() && RetryAfter(l) == k < 120 && Refill(l, k as real) == refilled
    ensures RetryAfterSuffices(l) <==> refilled >= 1.0
  {
    RetryAfterSufficesIff(l);
  }

  lemma WaitTable()
    ensures RetryAfter(Limit(30, 0.5)) == 2 && RetryAfter(Limit(300, 5.0)) == 0 && RetryAfter(Limit(3000, 50.0)) == 0
    ensures RetryAfter(Limit(20, 0.33)) == 3 && RetryAfter(Limit(10, 0.17)) == 5
    ensures RetryAfter(Limit(120, 2.0)) == 0 && RetryAfter(Limit(60, 1.0)) == 1
  {
  }

  /** Of the configured limits, Retry-After is sound for the free tier and usage only. */
  lemma SoundWaits(l: Limit)
    requires l in SOUND_WAITS + SHORT_WAITS
    ensures l.Valid() && (RetryAfterSuffices(l) <==> l in SOUND_WAITS)
  {
    WaitTable();
    if l == Limit(30, 0.5) {
      SoundWait(l, 2, 1.0);
    } else if l == Limit(60, 1.0) {
      SoundWait(l, 1, 1.0);
    } else if l == Limit(20, 0.33) {
      SoundWait(l, 3, 0.99);
    } else if l == Limit(10, 0.17) {
      SoundWait(l, 5, 0.85);
    } else {
      SoundWait(l, 0, 0.0);
    }
  }

  /** Retry-After is the longest whole number of seconds that earns no more than one token, and a minute if nothing is earned. */
  lemma RetryAfterIs(l: Limit)
    requires l.Valid()
    ensures l.rate == 0.0 ==> RetryAfter(l) == 60
    ensures l.rate > 0.0 ==> 0 <= RetryAfter(l) && Refill(l, RetryAfter(l) as real) <= 1.0 < Refill(l, (RetryAfter(l) + 1) as real)
  {
    if l.rate > 0.0 {
      var wait, tick := RetryAfter(l) as real, 1.0 / l.rate;
      RetryAfterNonNegative(l);
      TickEarns(l);
      RefillGrows(l, wait, tick);
      if Refill(l, wait + 1.0) <= 1.0 {
        RefillOrder(l, wait + 1.0, tick);
        assert false;
      }
    }
  }

  /** The endpoint has a limit of its own. */
  predicate OwnLimit(endpoint: Option<string>) {
    || endpoint == Some("/api/v1/chat") || endpoint == Some("/api/v1/images")
    || endpoint == Some("/api/v1/models") || endpoint == Some("/api/v1/usage")
  }

  /**
   Who gets which limit: an endpoint with its own gets that whatever the tier; otherwise the
   tier decides, and a tier that is not listed counts as free.
   */
  lemma LimitOf(tier: string, endpoint: Option<string>)
    ensures endpoint == Some("/api/v1/chat") ==> LimitFor(tier, endpoint) == Limit(20, 0.33)
    ensures endpoint == Some("/api/v1/images") ==> LimitFor(tier, endpoint) == Limit(10, 0.17)
    ensures endpoint == Some("/api/v1/models") ==> LimitFor(tier, endpoint) == Limit(120, 2.0)
    ensures endpoint == Some("/api/v1/usage") ==> LimitFor(tier, endpoint) == Limit(60, 1.0)
    ensures !OwnLimit(endpoint) && tier == "pro" ==> LimitFor(tier, endpoint) == Limit(300, 5.0)
    ensures !OwnLimit(endpoint) && tier == "enterprise" ==> LimitFor(tier, endpoint) == Limit(3000, 50.0)
    ensures !OwnLimit(endpoint) && tier != "pro" && tier != "enterprise" ==> LimitFor(tier, endpoint) == Limit(30, 0.5)
  {
  }

  /** The tier or endpoint whose Retry-After can be trusted: usage, and the free tier where no other limit applies. */
  predicate Trusted(tier: string, endpoint: Option<string>) {
    || endpoint == Some("/api/v1/usage")
    || (!OwnLimit(endpoint) && tier != "pro" && tier != "enterprise")
  }

  /** Whatever tier and endpoint a request has, waiting out Retry-After after a refusal suffices exactly for those. */
  lemma ConfiguredRetryAfterIff(tier: string, endpoint: Option<string>)
    ensures RetryAfterSuffices(LimitFor(tier, endpoint)) <==> Trusted(tier, endpoint)
  {
    LimitIsConfigured(tier, endpoint);
    SoundWaits(LimitFor(tier, endpoint));
    LimitOf(tier, endpoint);
    SoundLimits(tier, endpoint);
  }

  lemma SoundLimits(tier: string, endpoint: Option<string>)
    ensures LimitFor(tier, endpoint) in SOUND_WAITS <==> Trusted(tier, endpoint)
  {
    LimitOf(tier, endpoint);
  }

  /** The most that a minute can admit, for each tier and endpoint. */
  function MinuteCap(tier: string, endpoint: Option<string>): nat {
    if endpoint == Some("/api/v1/chat") then 39
    else if endpoint == Some("/api/v1/images") then 20
    else if endpoint == Some("/api/v1/models") then 240
    else if endpoint == Some("/api/v1/usage") then 120
    else if tier == "pro" then 600
    else if tier == "enterprise" then 6000
    else 60
  }

  lemma MinuteRefill(tier: string, endpoint: Option<string>)
    ensures
      var l, cap := LimitFor(tier, endpoint), MinuteCap(tier, endpoint);
      0 < cap && cap as real <= l.maxTokens as real + Refill(l, 60.0) < (cap + 1) as real
  {
    LimitOf(tier, endpoint);
  }

  /** It is exactly that: about twice the number written down as requests a minute. */
  lemma MinuteTable(tier: string, endpoint: Option<string>)
    ensures
      var l, cap := LimitFor(tier, endpoint), MinuteCap(tier, endpoint);
      WindowCap(l, Some(BUCKET_SECONDS), 60.0, cap) && (cap > 0 ==> !WindowCap(l, Some(BUCKET_SECONDS), 60.0, cap - 1))
  {
    var cap := MinuteCap(tier, endpoint);
    MinuteRefill(tier, endpoint);
    ConfiguredCapIff(tier, endpoint, 60.0, cap);
    ConfiguredCapIff(tier, endpoint, 60.0, cap - 1);
  }
}
