/** The limiter as all clients share it: each client's bucket follows the law on its own. */
module SharedLimiter {
  import opened Wrappers
  import opened Redis
  import opened RateLimit
  import opened RateLimitLaw

  datatype Request = Request(identifier: string, tier: string, endpoint: Option<string>, at: real) {
    function Key(): string { BucketKey(identifier, endpoint) }
    function Limit(): RateLimit.Limit { LimitFor(tier, endpoint) }
  }

  /** What one request does to the limiter's buckets, and its decision. */
  function Handled(buckets: map<string, Cell<Bucket>>, r: Request): (map<string, Cell<Bucket>>, Decision) {
    var (cell, d) := Take(r.Limit(), Some(BUCKET_SECONDS), Lookup(buckets, r.Key()), r.at);
    (buckets[r.Key() := cell], d)
  }

  function HandleAll(requests: seq<Request>): map<string, Cell<Bucket>> {
    if requests == [] then map[]
    else Handled(HandleAll(requests[..|requests| - 1]), requests[|requests| - 1]).0
  }

  function Own(requests: seq<Request>, key: string): seq<Request> {
    if requests == [] then []
    else
      var front, last := requests[..|requests| - 1], requests[|requests| - 1];
      Own(front, key) + if last.Key() == key then [last] else []
  }

  // ---- One bucket, a limit for each request ----

  /** The bucket that its own requests leave, each under the limit it selects. */
  function CellOf(own: seq<Request>): Cell<Bucket> {
    if own == [] then Gone
    else
      var last := own[|own| - 1];
      Take(last.Limit(), Some(BUCKET_SECONDS), CellOf(own[..|own| - 1]), last.at).0
  }

  function Decide(own: seq<Request>, r: Request): Decision {
    Take(r.Limit(), Some(BUCKET_SECONDS), CellOf(own), r.at).1
  }

  lemma HandledCell(buckets: map<string, Cell<Bucket>>, r: Request, key: string)
    ensures Lookup(Handled(buckets, r).0, key) ==
            if r.Key() == key then Take(r.Limit(), Some(BUCKET_SECONDS), Lookup(buckets, key), r.at).0 else Lookup(buckets, key)
  {
  }

  lemma CellOfSnoc(own: seq<Request>, r: Request)
    ensures CellOf(own + [r]) == Take(r.Limit(), Some(BUCKET_SECONDS), CellOf(own), r.at).0
  {
    assert (own + [r])[..|own|] == own;
  }

  /** Whatever other clients do, a bucket is the one its own requests leave. */
  lemma {:induction false} BucketsAreIndependent(requests: seq<Request>, key: string)
    ensures Lookup(HandleAll(requests), key) == CellOf(Own(requests, key))
    decreases |requests|
  {
    if |requests| > 0 {
      var front, last := requests[..|requests| - 1], requests[|requests| - 1];
      BucketsAreIndependent(front, key);
      HandledCell(HandleAll(front), last, key);
      CellOfSnoc(Own(front, key), last);
      assert Own(front, key) + [] == Own(front, key);
    }
  }

  /** So every decision of the shared limiter depends on the client's own requests only. */
  lemma DecisionsAreIndependent(requests: seq<Request>, r: Request)
    ensures Handled(HandleAll(requests), r).1 == Decide(Own(requests, r.Key()), r)
  {
    BucketsAreIndependent(requests, r.Key());
  }

  // ---- The window law of one bucket ----

  predicate Ordered(own: seq<Request>) {
    forall i, j | 0 <= i <= j < |own| :: own[i].at <= own[j].at
  }

  /** The tokens request `n` finds. */
  function Finds(own: seq<Request>, n: nat): real
    requires n < |own|
  {
    Refilled(own[n].Limit(), CellOf(own[..n]), own[n].at)
  }

  predicate Admitted(own: seq<Request>, n: nat)
    requires n < |own|
  {
    Decide(own[..n], own[n]).allowed
  }

  /** How many of requests `i` to `n - 1` are admitted. */
  function Admissions(own: seq<Request>, i: nat, n: nat): nat
    requires n <= |own|
  {
    if n <= i then 0 else Admissions(own, i, n - 1) + if Admitted(own, n - 1) then 1 else 0
  }

  function Earns(own: seq<Request>, n: nat): real
    requires 0 < n < |own|
  {
    Refill(own[n].Limit(), own[n].at - own[n - 1].at)
  }

  /** What the requests after `i`, up to `n`, find earned since the one before, each at its own rate. */
  function Earned(own: seq<Request>, i: nat, n: nat): real
    requires i <= n < |own|
    decreases n
  {
    if i == n then 0.0 else Earned(own, i, n - 1) + Earns(own, n)
  }

  /** What a window that starts with request `i` leaves for request `n`. */
  function Room(own: seq<Request>, i: nat, n: nat): real
    requires i <= n < |own|
  {
    own[i].Limit().maxTokens as real + Earned(own, i, n) - Admissions(own, i, n) as real
  }

  /** Each configured limit is full again when a key expires. */
  lemma ConfiguredRefills(r: Request)
    ensures r.Limit().Valid() && r.Limit().maxTokens as real <= Refill(r.Limit(), BUCKET_SECONDS)
  {
    LimitIsConfigured(r.tier, r.endpoint);
  }

  lemma AdmittedIffToken(own: seq<Request>, n: nat)
    requires n < |own|
    ensures Admitted(own, n) <==> Finds(own, n) >= 1.0
  {
  }

  /** What request `n - 1` leaves, and what is earned since, up to the limit of request `n`. */
  lemma FindsNext(own: seq<Request>, n: nat)
    requires 0 < n < |own| && own[n - 1].at <= own[n].at && 0.0 <= LeftOf(Finds(own, n - 1))
    ensures Finds(own, n) ==
            Min(own[n].Limit().maxTokens as real, LeftOf(Finds(own, n - 1)) + Earns(own, n))
  {
    var l, before, now := own[n].Limit(), own[n - 1].at, own[n].at;
    assert own[..n] == own[..n - 1] + [own[n - 1]];
    CellOfSnoc(own[..n - 1], own[n - 1]);
    Stored(own[n - 1].Limit(), Some(BUCKET_SECONDS), CellOf(own[..n - 1]), before);
    RefilledLater(l, Some(BUCKET_SECONDS), LeftOf(Finds(own, n - 1)), before, now);
    ConfiguredRefills(own[n]);
    if now - before >= BUCKET_SECONDS {
      RefillGrows(l, BUCKET_SECONDS, now - before);
    }
  }

  lemma FindsFirst(own: seq<Request>)
    requires own != []
    ensures Finds(own, 0) == own[0].Limit().maxTokens as real >= 1.0
  {
    ConfiguredRefills(own[0]);
  }

  lemma {:induction false} FindsNonNegative(own: seq<Request>, n: nat)
    requires Ordered(own) && n < |own|
    ensures 0.0 <= LeftOf(Finds(own, n)) && 0.0 <= Finds(own, n)
    decreases n
  {
    if n == 0 {
      FindsFirst(own);
    } else {
      FindsNonNegative(own, n - 1);
      FindsNext(own, n);
      ConfiguredRefills(own[n]);
      RefillNonNegative(own[n].Limit(), own[n].at - own[n - 1].at);
    }
  }

  /** A window's room moves with the tokens from one request to the next. */
  lemma RoomNext(own: seq<Request>, i: nat, n: nat)
    requires 0 < n < |own| && i < n
    ensures Room(own, i, n) - (LeftOf(Finds(own, n - 1)) + Earns(own, n)) == Room(own, i, n - 1) - Finds(own, n - 1)
  {
    AdmittedIffToken(own, n - 1);
  }

  lemma RoomHere(own: seq<Request>, n: nat)
    requires n < |own|
    ensures Room(own, n, n) == own[n].Limit().maxTokens as real
  {
  }

  ghost predicate IsLeastRoom(own: seq<Request>, n: nat)
    requires n < |own|
  {
    && (forall i | 0 <= i <= n :: Finds(own, n) <= Room(own, i, n))
    && exists i :: 0 <= i <= n && Finds(own, n) == Room(own, i, n)
  }

  lemma LeastRoomNext(own: seq<Request>, n: nat, full: real, next: real)
    requires 0 < n < |own| && IsLeastRoom(own, n - 1)
    requires full == Room(own, n, n) && next == LeftOf(Finds(own, n - 1)) + Earns(own, n)
    requires Finds(own, n) == Min(full, next)
    ensures IsLeastRoom(own, n)
  {
    forall i | 0 <= i <= n ensures Finds(own, n) <= Room(own, i, n) {
      if i < n {
        RoomNext(own, i, n);
      }
    }
    var k :| 0 <= k <= n - 1 && Finds(own, n - 1) == Room(own, k, n - 1);
    RoomNext(own, k, n);
    assert Finds(own, n) == Room(own, n, n) || Finds(own, n) == Room(own, k, n);
  }

  lemma FirstFindsRoom(own: seq<Request>)
    requires own != []
    ensures IsLeastRoom(own, 0)
  {
    RoomHere(own, 0);
    FindsFirst(own);
    assert Finds(own, 0) == Room(own, 0, 0);
  }

  lemma NextFindsRoom(own: seq<Request>, n: nat)
    requires Ordered(own) && 0 < n < |own| && IsLeastRoom(own, n - 1)
    ensures IsLeastRoom(own, n)
  {
    RoomHere(own, n);
    FindsNonNegative(own, n - 1);
    FindsNext(own, n);
    LeastRoomNext(own, n, Room(own, n, n), LeftOf(Finds(own, n - 1)) + Earns(own, n));
  }

  /**
   The exact law of the deployed bucket, key expiry and changing limits included: a request
   finds the least room that is left by any window ending with it.
   */
  lemma {:induction false} FindsLeastRoom(own: seq<Request>, n: nat)
    requires Ordered(own) && n < |own|
    ensures forall i | 0 <= i <= n :: Finds(own, n) <= Room(own, i, n)
    ensures exists i :: 0 <= i <= n && Finds(own, n) == Room(own, i, n)
    decreases n
  {
    if n == 0 {
      FirstFindsRoom(own);
    } else {
      FindsLeastRoom(own, n - 1);
      NextFindsRoom(own, n);
    }
  }

  /** A client is refused exactly when some window of its own requests is full, whatever others do. */
  lemma RefusedIffOwnWindowFull(requests: seq<Request>, r: Request)
    requires Ordered(Own(requests, r.Key()) + [r])
    ensures
      var own := Own(requests, r.Key()) + [r];
      var n := |own| - 1;
      !Handled(HandleAll(requests), r).1.allowed <==> exists i :: 0 <= i < n && Room(own, i, n) < 1.0
  {
    var before := Own(requests, r.Key());
    var own, n := before + [r], |before|;
    DecisionsAreIndependent(requests, r);
    assert own[..n] == before;
    FindsLeastRoom(own, n);
    AdmittedIffToken(own, n);
    ConfiguredRefills(r);
    assert Room(own, n, n) >= 1.0;
  }

  /** No window of a client's requests holds more than the first one's bucket and what the rest earn. */
  lemma OwnWindowBound(own: seq<Request>, i: nat, j: nat)
    requires Ordered(own) && i <= j < |own|
    ensures Admissions(own, i, j + 1) as real <= own[i].Limit().maxTokens as real + Earned(own, i, j)
  {
    FindsLeastRoom(own, j);
    FindsNonNegative(own, j);
    AdmittedIffToken(own, j);
    assert Finds(own, j) <= Room(own, i, j);
  }

  // ---- A client whose limit never changes ----

  function Times(own: seq<Request>): (times: seq<real>)
    ensures |times| == |own|
  {
    seq(|own|, k requires 0 <= k < |own| => own[k].at)
  }

  predicate UnderOneLimit(own: seq<Request>, l: Limit) {
    forall r <- own :: r.Limit() == l
  }

  lemma {:induction false} CellUnderOneLimit(own: seq<Request>, l: Limit, n: nat)
    requires n <= |own| && UnderOneLimit(own, l)
    ensures CellOf(own[..n]) == CellAfter(l, Some(BUCKET_SECONDS), Times(own), n)
    decreases n
  {
    if n > 0 {
      CellUnderOneLimit(own, l, n - 1);
      assert own[..n] == own[..n - 1] + [own[n - 1]];
      CellOfSnoc(own[..n - 1], own[n - 1]);
    }
  }

  /** Such a client is decided on exactly as by the plain bucket that never expires. */
  lemma OneLimitIsPlain(own: seq<Request>, n: nat)
    requires n < |own| && Ordered(own) && UnderOneLimit(own, own[n].Limit())
    ensures Decide(own[..n], own[n]) == DecisionAt(own[n].Limit(), None, Times(own), n)
  {
    CellUnderOneLimit(own, own[n].Limit(), n);
    ExpiryInvisibleForEveryLimit(own[n].tier, own[n].endpoint);
    assert RateLimitLaw.Monotone(Times(own));
  }

  /**
   Buckets of different clients and endpoints are different, as long as no client's name
   holds a colon; an empty endpoint shares the bucket of none.
   */
  lemma BucketKeysInjective(a: string, e: Option<string>, b: string, f: Option<string>)
    requires ':' !in a && ':' !in b
    ensures BucketKey(a, e) == BucketKey(b, f) <==> a == b && (e == f || (e.GetOr("") == "" && f.GetOr("") == ""))
  {
    if BucketKey(a, e) == BucketKey(b, f) {
      AfterPrefix(a, e);
      AfterPrefix(b, f);
    }
  }

  /** Ten characters, the client, and a colon and the endpoint if one is named. */
  lemma AfterPrefix(a: string, e: Option<string>)
    ensures |BucketKey(a, e)| >= 10 + |a| && BucketKey(a, e)[10..10 + |a|] == a
    ensures forall i | 0 <= i < |a| :: BucketKey(a, e)[10 + i] == a[i]
    ensures Named(e).None? ==> |BucketKey(a, e)| == 10 + |a|
    ensures Named(e).Some? ==>
      && |BucketKey(a, e)| == 11 + |a| + |Named(e).value|
      && BucketKey(a, e)[10 + |a|] == ':' && BucketKey(a, e)[11 + |a|..] == Named(e).value
  {
  }
}
