# A verified model of the gateway's resilience layer

The gateway forwards chat and media requests to model providers with the users' own keys.
This project models the parts that keep it standing when providers fail and that must
agree with a simpler truth: the circuit breaker and retry loop, the token-bucket limiter,
the decrypted-key cache, routing with ranking and failover, the login lockout, the event
stream and its reader, and the accounting and response cache of chats. It proves what
they guarantee over every run, every interleaving and every input.

Each component is modelled twice. A class or method has the form of the original, with
fields updated in place and the original's loops and branches, and its contract ties it
to a function on values. The properties of whole runs are lemmas about those functions.

| files | component |
|---|---|
| `Wrappers.dfy`, `Redis.dfy`, `Rounding.dfy` | options and results, keys with a time to live, decimal rounding |
| `Breaker.dfy`, `BreakerService.dfy` | the breaker's two backends, and the breaker object |
| `BreakerTimeouts.dfy`, `BreakerLifetimes.dfy`, `BreakerOpening.dfy`, `BreakerAgreement.dfy`, `BreakerConcurrency.dfy` | recovery, key lifetimes in seconds, when a failure opens, the boundary of the backends' agreement, concurrent callers |
| `Retry.dfy` | attempts, breaker records and backoff |
| `RateLimit.dfy`, `SharedLimiter.dfy` | the limiter, its exact law for each client, and where Retry-After is sound |
| `KeyService.dfy` | the key table and its cache, as atomic operations and split ones |
| `Capabilities.dfy`, `Ranker.dfy`, `RankerLaw.dfy`, `Router.dfy` | the candidate index, scores and stable sorting, failover |
| `Chains.dfy` | what a counter with a renewed time to live reads |
| `Lockout.dfy`, `LockoutConcurrency.dfy` | the failed-login counter, the login that consults it, and parallel logins |
| `Sse.dfy` | JSON text, event frames, line splitting and the reader loop |
| `Pricing.dfy`, `Usage.dfy` | the price table, usage rows and grouped totals |
| `Chat.dfy`, `ChatLaw.dfy` | the chat request with its cache and transaction, and its laws under interleaving |

`dafny verify dfyconfig.toml` checks everything.

## Assumptions

- One clock, which never goes back, orders all operations. A key with a time to live is
  live exactly while the clock is before its deadline.
- Floating-point numbers are exact reals.
- An operation of the breaker, limiter, ranker or lockout on Redis is one atomic step; a
  login, which makes several, is not, except where it is said to be taken one at a time.
  For the in-process breaker atomicity is exact, since its methods do not suspend.
- What providers, the password check, the guard and random draws answer are parameters;
  so are failures of the database and of the cache around a chat.
- SHA-256 digests of different cache keys differ; a new conversation's id is new.

## Where the code and its documentation disagree

The model follows the code.

- The repository's README (line 226) and `app/providers/retry.py:46` promise one probe in
  half-open, and that its failure opens the breaker again. In Redis the call that makes the
  transition does not take the probe lock, so only one is let through exactly if only one
  asks: `OneProbeIff`, `HalfOpenAdmissionsTight`. The in-process breaker has no half-open
  state: all callers are let through, and a failed one opens it again exactly if the
  threshold is one: `LocalRecoveryAdmitsAll`, `LocalProbeReopensIff`.
- The same README (line 225) opens the breaker after 5 consecutive failures. In Redis it
  does so exactly if they are less than `int(3R)` seconds apart:
  `ConsecutiveFailuresOpenIff`, `FailureOpensIff`. In-process a recovery forgets failures
  as a success does: `LocalFailureOpensIff`.
- The same README (line 42) calls the response cache exact-match. Its key leaves out tools,
  tool choice and token limit, and its entries leave out tool calls: `HitAnswersIff`,
  `OtherOptionsAreServed`, `HitRepeatsIff`, `ToolCallsAreLost`.
- `app/services/ranker.py:21` scores by error rate. The two counters expire on their own, so
  the rate can be far from failures over requests: `ErrorRateIsOfLiveChains`, `RunShareIff`,
  `ExpiredSuccessIsForgotten`.
- The table admits a second key for a provider (`app/services/key_service.py:32`), and then
  no lookup succeeds: `AddedKeyUsableIff`.
- `app/api/v1/routes/auth.py:67-76` checks the lock and records a failure in separate steps,
  so parallel logins can record more than the permitted number:
  `ConcurrentWindowBoundReached`.
- The same README (lines 414 and 415) states limits as requests per minute. Each could be
  kept only if a minute earned less than one token, which holds of none:
  `DocumentedMinuteIff`, `NoDocumentedMinute`. What a minute admits instead is `MinuteTable`. The route dependency passes no tier and no
  endpoint either (`app/api/v1/deps.py:74`), so that every deployed request has the free
  tier's limit.
- `app/providers/retry.py:165` says that start-up can give the breaker Redis; start-up
  (`app/core/lifespan.py`) does not, so deployed breakers are in-process. Both are modelled.
- `app/core/ratelimit.py:97` truncates Retry-After, so that for five of the seven
  configured limits waiting it out can be refused again: `ConfiguredRetryAfterIff`.
- The same README (line 219) ranks by cost. A price of zero counts as weight one, so cheaper
  scores better exactly between two free or two priced models: `PriceOrderIff`. The router
  the application builds gets no ranker (`app/api/v1/deps.py:101-106`), so deployed order
  is that of registration.
- `app/services/router.py:89` fixes the model at the first candidate tried, so failover can
  send a provider another provider's model, unless all of the list offer the same one:
  `FallbackModelMatchesIff`.
- `app/services/key_service.py:50-53` invalidates the cache before the row is gone, so a get
  that comes in between caches the deleted key for a minute: `DeletedKeyCanBeServed`. The
  other order would not allow that: `InvalidatingLastIsSafe`. The exact condition, for
  either order, is `OldAnswerServedIff`.
- A client's last message may have the role `assistant` (`app/schemas/chat.py`), so such
  rows can outnumber usage rows: `AssistantRowsIff`.
- A cached answer whose reply named no model fails validation when it is served:
  `ServedLabel`, `UnlabelledHitFails`.

## Model

| member | source | states |
|---|---|---|
| BreakerService.CircuitBreaker.IsOpen | app/providers/retry.py:67-70 | a query answers and changes the provider's state as the backend in use does, and touches no other provider |
| BreakerService.CircuitBreaker.RecordSuccess | app/providers/retry.py:72-76 | a success resets the provider's counter, state and probe lock in the backend in use, and touches no other provider |
| BreakerService.CircuitBreaker.RecordFailure | app/providers/retry.py:78-82 | a failure is counted, stamped and may open the provider's breaker, in the backend in use; no other provider is touched |
| BreakerService.CircuitBreaker.RedisIsOpen | app/providers/retry.py:86-107 | the key-level query refines the transition of the four keys: open until the timeout, half-open without the lock, then one lock every 10 s |
| BreakerService.CircuitBreaker.RedisRecordFailure | app/providers/retry.py:117-134 | the key-level failure refines the transition with lifetimes int(3R) and int(2R) |
| BreakerService.CircuitBreaker.LocalIsOpen | app/providers/retry.py:138-147 | the dictionary query refines the in-process transition |
| BreakerService.CircuitBreaker.LocalRecordFailure | app/providers/retry.py:153-162 | the dictionary failure refines the in-process transition |
| BreakerService.AllKeysAreInjective | app/providers/retry.py:87-133 | keys of different providers never meet, nor do the state and lock keys, which hold the same type |
| BreakerTimeouts.TrippedImpliesCounterLive | app/providers/retry.py:86-134 | in every reachable state a live open or half-open key has a live counter at or above the threshold, so any failure then re-opens for int(2R) s |
| BreakerTimeouts.StepCovered | app/providers/retry.py:86-134 | every operation keeps the counter's deadline at least int(R) beyond the open state's |
| BreakerTimeouts.FailureOpens | app/providers/retry.py:117-134 | whichever failure opens the Redis breaker, in any reachable state, sets the deadlines that the recovery result needs |
| BreakerTimeouts.LocalFailureOpens | app/providers/retry.py:153-162 | the same for the in-process breaker and its time stamp |
| BreakerTimeouts.RedisFailsFastThenRecovers | app/providers/retry.py:86-134 | once open, every query up to R fails fast through any failures and queries with no success; the first later than R after the last failure passes |
| BreakerTimeouts.LocalFailsFastThenRecovers | app/providers/retry.py:138-162 | the same for the in-process backend |
| BreakerTimeouts.LocalOpenIffThreshold | app/providers/retry.py:138-162 | the in-process breaker is open exactly while its counter is at the threshold |
| BreakerTimeouts.AdmittedApart | app/providers/retry.py:98-106 | two calls admitted by the probe lock are 10 s apart |
| BreakerTimeouts.LockAdmissions | app/providers/retry.py:98-106 | the lock admits at most one call for every 10 s from when it is free to the end of the half-open state |
| BreakerTimeouts.HalfOpenAdmissions | app/providers/retry.py:91-106 | a half-open stretch with no outcome lets at most 1 + ceil(int(R)/10) calls through, counting the transition |
| BreakerTimeouts.OneProbeIff | app/providers/retry.py:91-106 | exactly one call of a half-open stretch is let through if and only if only one is made |
| BreakerTimeouts.HalfOpenAdmissionsTight | app/providers/retry.py:91-106 | every due recovery has a stretch that reaches the bound, which is at least two |
| BreakerLifetimes.HalfOpenStartsIff | app/providers/retry.py:91-134 | after any run whose last failure, at t, leaves it open, with nothing recorded since, a query starts a half-open stretch exactly between t + R and t + floor(2R), and is refused exactly up to t + R |
| BreakerLifetimes.AllAdmittedAfterTwiceR | app/providers/retry.py:86-134 | from t + floor(2R) on any number of queries is admitted, and the keys stay as they are |
| BreakerLifetimes.HalfOpenLasts | app/providers/retry.py:91-106 | the stretch lasts floor(R): a third query is refused exactly before its end and under 10 s after the second, which took the lock |
| BreakerLifetimes.DefaultLifetimes | app/providers/retry.py:91-134 | with 30 s of recovery: refused up to 30, half-open from 30 to 60, forgotten at 60 |
| BreakerLifetimes.FailureOpensWithin | app/providers/retry.py:117-134 | after every run a failure leaves it open if and only if it ends a chain of at least threshold failures, each under floor(3R) seconds after the one before |
| BreakerLifetimes.SuccessClears | app/providers/retry.py:109-115 | after a success counter and probe lock are gone and every query is admitted until a failure is recorded |
| BreakerAgreement.StepSimilar | app/providers/retry.py:86-162 | the simulation relation between dictionaries and keys survives every calm operation, with equal answers |
| BreakerOpening.FailureOpensIff | app/providers/retry.py:117-134 | after every run a failure leaves the Redis breaker open if and only if it ends a chain of at least threshold failures with no success between them, each under int(3R) after the one before |
| BreakerOpening.ConsecutiveFailuresOpenIff | app/providers/retry.py:117-134 | the threshold-th consecutive failure opens it if and only if no gap between them reaches int(3R) |
| BreakerOpening.RunCounts | app/providers/retry.py:117-134 | after every run the stored counter and its deadline are those of that chain |
| BreakerOpening.LocalFailureOpensIff | app/providers/retry.py:138-162 | after every run a failure leaves the in-process breaker open if and only if it is at least the threshold-th since the last success or recovery |
| BreakerOpening.LocalRecoveryAdmitsAll | app/providers/retry.py:138-147 | the query that ends the timeout closes the in-process breaker, and every caller after it is let through until threshold new failures are in |
| BreakerOpening.LocalProbeReopensIff | app/providers/retry.py:138-162 | a failed first call after the timeout opens it again if and only if the threshold is one |
| BreakerOpening.RedisProbeReopens | app/providers/retry.py:117-128 | in Redis such a failure always does, while the half-open state lasts |
| BreakerAgreement.BackendsAgree | app/providers/retry.py:86-162 | on every run with failure gaps and open queries within the two bounds the backends answer every query alike |
| BreakerAgreement.BackendsAgreeIff | app/providers/retry.py:86-162 | the backends agree on all runs with failure gaps under G and open queries within Q if and only if Q is at most R and the threshold is one or G at most int(3R) |
| BreakerAgreement.SparseFailuresDiffer | app/providers/retry.py:117-134 | for every threshold of two or more and every gap of int(3R) or more, a run on which the backends part |
| BreakerAgreement.LateQueriesDiffer | app/providers/retry.py:91-106 | for every time past R and before int(2R), a run of queries on which they part: the third caller is turned away by Redis only |
| BreakerConcurrency.ActBounded | app/providers/retry.py:138-230 | every admission, attempt outcome, health query and admin enable keeps the bound that counts the attempts still allowed |
| BreakerConcurrency.ConcurrentFailureBound | app/providers/retry.py:138-230 | with at most c calls in flight, in every interleaving, the counter is at most threshold - 1 + c(max_retries + 1), and below the threshold exactly while closed |
| BreakerConcurrency.ConcurrentFailureBoundReached | app/providers/retry.py:138-230 | for every configuration some interleaving, on a clock that does not go back, reaches that bound |
| BreakerConcurrency.CallIsItsSteps | app/providers/retry.py:174-230 | an admitted call that has the breaker to itself leaves it, by its actions, as the wrapper's own records do |
| BreakerConcurrency.EnabledAdmits | app/providers/retry.py:149-151 | after the admin has closed the breaker the next call is admitted and failures are counted from zero, whatever is in flight |
| Retry.WithRetry | app/providers/retry.py:174-230 | the wrapper asks the breaker once, then adds exactly the records of its attempts to what other callers do to the breaker in between |
| Retry.TraceShape | app/providers/retry.py:183-230 | the records are k failures, k the leading transient outcomes, then a success exactly if the call returns; k = max_retries + 1 exactly if exhausted |
| Retry.StatusDecides | app/providers/retry.py:190-214 | an attempt that ends in a status ends the call unrecorded exactly if the status is none of 408, 425, 429, 500, 502, 503, 504; otherwise a failure is recorded and the later attempts decide |
| Retry.OtherOutcomesDecide | app/providers/retry.py:183-228 | a value ends the call with one success, an open breaker underneath ends it unrecorded, any other error is a failure to be retried |
| Retry.TraceSleeps | app/providers/retry.py:201-228 | one sleep follows each failure that is retried, of its own attempt's wait |
| Retry.WaitsDouble | app/providers/retry.py:201-214 | the first wait is b(1 + u/2) for the draw u, and each later one is twice the one before |
| Retry.AloneSeesOwn | app/providers/retry.py:174-230 | with no other caller the breaker sees the call's own records and nothing more |
| Retry.TraceTimes | app/providers/retry.py:183-230 | each record is made when its attempt ends, and an exhausted call reports its last outcome |
| Retry.BackoffBounds | app/providers/retry.py:201-228 | the sleeps total between b(2^s - 1) and 1.5 b(2^s - 1) with s = min(k, max_retries) |
| RateLimit.TokenBucketLimiter.Check | app/core/ratelimit.py:38-112 | one request writes its bucket and no other, and returns the headers or a 429 with Retry-After |
| RateLimitLaw.LimitOf | app/core/ratelimit.py:17-52 | who gets which limit: an endpoint of the four its own whatever the tier, otherwise pro 300 at 5.0, enterprise 3000 at 50.0, any other tier 30 at 0.5 |
| RateLimitLaw.TokensAreLeastRoom | app/core/ratelimit.py:65-85 | the tokens found equal the least of max and, over all earlier requests i, max + rate(now - t_i) - admitted since i |
| RateLimitLaw.RefusedIffSomeWindowFull | app/core/ratelimit.py:74-82 | a request is refused exactly when some window ending with it is full |
| RateLimitLaw.LimiterRespectsWindows | app/core/ratelimit.py:65-85 | admissions in any window of length d never exceed max + rate d |
| RateLimitLaw.WindowBoundReached | app/core/ratelimit.py:65-85 | for every limit that refills some fully admitted run meets that bound with equality |
| RateLimitLaw.WindowCapIff | app/core/ratelimit.py:65-85 | n caps the admissions of every window of at most d seconds, d below the key's life, if and only if max + rate d is below n + 1 |
| RateLimitLaw.ConfiguredCapIff | app/core/ratelimit.py:17-87 | under every configured limit that holds of windows of any length |
| RateLimitLaw.DocumentedMinuteIff | app/core/ratelimit.py:17-29 | a limit admits at most max requests in every minute if and only if a minute earns less than one token |
| RateLimitLaw.NoDocumentedMinute | app/core/ratelimit.py:17-52 | whatever tier and endpoint a request has, some minute admits more than the number written down for its limit |
| RateLimitLaw.MinuteTable | app/core/ratelimit.py:17-52 | the exact most that a minute admits: chat 39, images 20, models 240, usage 120, and elsewhere pro 600, enterprise 6000, every other tier 60 |
| RateLimitLaw.LimiterIsOptimal | app/core/ratelimit.py:65-85 | no policy that respects the same windows has admitted more after any number of requests |
| RateLimitLaw.ExpiryInvisibleIff | app/core/ratelimit.py:65-87 | the 120 s expiry changes no decision or remaining count on any run exactly when the bucket refills within 120 s |
| RateLimitLaw.ExpiryInvisibleForEveryLimit | app/core/ratelimit.py:17-29 | that holds for whatever limit the tables select |
| RateLimitLaw.ConfiguredLimiterRespectsWindows | app/core/ratelimit.py:17-87 | so the deployed limiter keeps the window bound for every tier and endpoint |
| RateLimitLaw.SpacedRequestsAdmitted | app/core/ratelimit.py:74-82 | requests at least 1/rate apart are never refused |
| RateLimitLaw.RetryAfterSufficesIff | app/core/ratelimit.py:96-107 | waiting out Retry-After after a refusal always suffices exactly when the truncated wait refills a token or outlives the key |
| RateLimitLaw.RetryAfterIs | app/core/ratelimit.py:96-97 | Retry-After is the longest whole number of seconds that earns no more than one token, and 60 if nothing is earned |
| RateLimitLaw.ConfiguredRetryAfterIff | app/core/ratelimit.py:17-52 | waiting out Retry-After suffices exactly for the usage endpoint, and where no endpoint limit applies for every tier but pro and enterprise |
| SharedLimiter.BucketsAreIndependent | app/core/ratelimit.py:54-85 | in any mix of clients a bucket is the one its own requests leave, each under the limit it selects |
| SharedLimiter.DecisionsAreIndependent | app/core/ratelimit.py:38-112 | every decision of the shared limiter depends on the client's own requests only |
| SharedLimiter.FindsLeastRoom | app/core/ratelimit.py:65-85 | the exact law of the deployed bucket, with key expiry and a limit that may change between requests |
| SharedLimiter.RefusedIffOwnWindowFull | app/core/ratelimit.py:65-85 | a client is refused exactly when some window of its own requests is full, whatever others do |
| SharedLimiter.OwnWindowBound | app/core/ratelimit.py:65-85 | no window of a client's requests holds more admissions than the first one's bucket and what the rest earn |
| SharedLimiter.OneLimitIsPlain | app/core/ratelimit.py:65-87 | under one limit the deployed bucket decides as the plain one that never expires |
| SharedLimiter.BucketKeysInjective | app/core/ratelimit.py:54-56 | clients and endpoints have different buckets as long as no client's name holds a colon; an empty endpoint shares the bucket of none |
| TokenBucketLaw.GreedyIsOptimal | app/core/ratelimit.py:74-82 | the abstract bucket admits as many as any policy within the windows, on every rising clock |
| KeyService.CacheKeysInjective | app/services/key_service.py:60-66 | "user:provider" is injective, and the prefix "user:" matches that user's keys only |
| KeyService.Service.AddKey | app/services/key_service.py:32-45 | the add step of the atomic runs: a row is added and exactly the pair's entry leaves the cache |
| KeyService.Service.InvalidateUserCache | app/services/key_service.py:58-63 | the loop drops every live entry of the user and no other |
| KeyService.Service.DeleteKey | app/services/key_service.py:50-56 | the delete step: the row goes if it is the user's, the user's live entries leave the cache, and the answer says whether there was such a row |
| KeyService.DeletedRows | app/db/repositories/key_repo.py:40-44 | deletion leaves every row with another id or user as often as it was, and none with both |
| KeyService.DeletedJoins | app/db/repositories/key_repo.py:40-44 | the rows that stay keep their order |
| KeyService.DeletedFewer | app/db/repositories/key_repo.py:40-44 | fewer rows are left exactly if some row has the id and user |
| KeyService.Service.GetDecryptedKey | app/services/key_service.py:65-84 | the get step: a live entry is returned untouched; otherwise the table's answer, cached if there is one, within the size bound |
| KeyCoherence.AddedKeyUsableIff | app/db/repositories/key_repo.py:22-38 | an added key can be used if and only if the user had no valid one for the provider; otherwise every lookup fails |
| KeyCoherence.NextCoherent | app/services/key_service.py:32-84 | every atomic operation, expiry and eviction keeps each live entry the decryption of the single valid row |
| KeyCoherence.CacheIsInvisible | app/services/key_service.py:65-84 | in every run of atomic operations from a coherent state each get answers as the table alone would, errors included |
| KeyCoherence.FreshServiceIsTransparent | app/services/key_service.py:22-84 | so it does in every run of a process that starts with an empty cache |
| KeyCoherence.DeletedKeyIsMissing | app/services/key_service.py:50-84 | in every run, once the only valid key of a pair is deleted every get of the pair answers that it is missing, until one is added |
| KeyCoherence.CachedForAMinute | app/services/key_service.py:22-84 | what a get has read is served for 60 s whatever the table then holds, and from then on the table is read again |
| KeyCoherence.InvalidatesExactly | app/services/key_service.py:32-63 | adding a key drops its pair's entry, deleting one drops the live entries of its user, and neither touches another |
| KeyCoherence.NothingEvicted | app/services/key_service.py:20-24 | caching an answer evicts nothing live while fewer than 2000 other entries are |
| KeyCoherence.CacheWithinSize | app/services/key_service.py:20-24 | in every run the cache holds at most 2000 entries |
| KeyCoherence.ServedValueIsRecent | app/services/key_service.py:65-84 | under any interleaving of split operations a served value was inserted under 60 s before, from a read of the same user's and provider's single valid row |
| KeyCoherence.StaleValueDies | app/services/key_service.py:50-84 | a value the table no longer answers with is not served after 60 s and the delay of a get |
| KeyCoherence.OldAnswerServedIff | app/services/key_service.py:50-84 | at any point of any run the cache can go on to serve a pair an answer read before it if and only if a live entry of the pair or a get in the middle of reading it is left over |
| KeyCoherence.SettledServesNew | app/services/key_service.py:50-84 | once nothing of a pair is cached or about to be, every answer served later was read later |
| KeyCoherence.DeletedKeyCanBeServed | app/services/key_service.py:50-56 | for every key, from nothing cached or pending: invalidated, read, cached, deleted, served |
| KeyCoherence.InvalidatingLastIsSafe | app/services/key_service.py:50-56 | with the two steps swapped, whatever comes in between, every answer served afterwards was read from the changed table |
| Capabilities.BuildCapabilityMap | app/providers/capabilities.py:20-29 | the nested loops index a pair exactly if some adapter mentions it, with its candidates in registration order |
| Capabilities.AdvertisedIff | app/providers/capabilities.py:20-29 | a candidate is listed exactly when a provider of that name advertises the model for the pair |
| Capabilities.AdvertisedJoins | app/providers/capabilities.py:20-29 | candidates of providers registered earlier come first |
| Capabilities.OfferedJoins | app/providers/capabilities.py:24-28 | of one provider those of earlier table items come first |
| Capabilities.OneCapability | app/providers/capabilities.py:27-28 | one item's models are listed in their own order |
| Ranking.SortIsStable | app/services/ranker.py:42 | the sort orders by score and keeps equal scores in the order they came |
| Ranking.StableSortUnique | app/services/ranker.py:42 | those two properties leave one result, so any stable sort returns it |
| Ranking.SortPermutes | app/services/ranker.py:42 | no candidate is lost or repeated |
| Ranker.ProviderRanker.Rank | app/services/ranker.py:30-43 | the scoring loop and sort return the ranked list; one candidate or none comes back as it is |
| Ranker.ProviderRanker.RecordSuccess | app/services/ranker.py:63-82 | a success updates the rounded average, the counter and the error rate, and nothing else |
| Ranker.ProviderRanker.RecordFailure | app/services/ranker.py:84-94 | a failure updates the counter and the error rate, and nothing else |
| Ranker.ProviderRanker.UpdateErrorRate | app/services/ranker.py:96-108 | the rate is recomputed from the counters that are live |
| Ranker.RankedIsStable | app/services/ranker.py:30-43 | the ranked list is the candidates of a stable sort by score, with the same members |
| Ranker.LatencyWithinBounds | app/services/ranker.py:72-76 | the stored latency stays within any whole bounds on the samples, despite rounding and expiry |
| Ranker.SampleLeaves | app/services/ranker.py:72-76 | a sample leaves 0.7 of the live average and 0.3 of itself to the nearest tenth, and itself if no average is live |
| Ranker.LatencyConverges | app/services/ranker.py:72-76 | while the key lives, k samples of constant value L bring it within 0.7^k of its distance plus 1/6 |
| Ranker.ErrorsAtMostDouble | app/services/ranker.py:45-50 | after any records a score is between latency × weight and twice that |
| Ranker.ErrorsScoreWorse | app/services/ranker.py:45-50 | a higher error rate scores strictly worse: 1 + rate times the score without errors |
| RankerLaw.NewcomerScore | app/services/ranker.py:45-50 | with no statistics a score is 500 times the price of a thousand tokens each way, or 500 for a free model |
| RankerLaw.FirstFailureDoubles | app/services/ranker.py:45-108 | a first failure doubles the scores of all the provider's models, for an hour |
| RankerLaw.FirstSuccessScores | app/services/ranker.py:45-82 | a first success makes its latency the score's, for that model alone and for an hour |
| RankerLaw.StoredLatency | app/services/ranker.py:63-82 | the latency stored for a candidate is the average of its own successes, whatever is recorded for others in between |
| RankerLaw.ErrorRateIsOfLiveChains | app/services/ranker.py:63-108 | after any records the rate in use is that of the two chains, successes and failures each under an hour apart, that were live at the provider's last record, and zero an hour after it |
| RankerLaw.CountersHoldAllIff | app/services/ranker.py:96-108 | the counters hold every request of the provider if and only if neither history has a gap of an hour |
| RankerLaw.RunShareIff | app/services/ranker.py:96-108 | in every run the rate is, before rounding, failures over requests if and only if the two chains keep the proportion of the whole histories |
| RankerLaw.OnlyFailuresLeft | app/services/ranker.py:96-108 | once the last success is an hour old a failure makes the rate one, however many requests succeeded |
| RankerLaw.ExpiredSuccessIsForgotten | app/services/ranker.py:63-108 | one success and two failures, at 0, 1800 and 5000 seconds, give the rate one |
| RankerLaw.ErrorRateIsShareOfFailures | app/services/ranker.py:84-108 | for records all within an hour the rate is the provider's failures over its requests, to four decimals |
| Ranker.PriceOrderIff | app/services/ranker.py:45-50 | with equal latency and error rate two models are scored in the order of their prices if and only if both are free or neither is |
| Ranker.FreeModelsRankLast | app/services/ranker.py:49 | with equal latency and error rate a free model scores over eleven times as badly as any other |
| Router.ModalityRouter.RouteRequest | app/services/router.py:47-220 | filters, preferences, ranking, the case split on modalities and failover give the specified result, and the ranker gets exactly its records |
| Router.ModalityRouter.TryEach | app/services/router.py:81-168 | the loop with its last error and reassigned model is the recursive failover |
| RouterLaw.FailoverShape | app/services/router.py:81-168 | candidates are tried in order up to the first that answers; each earlier one gets one recorded failure, later ones none; total failure carries the last error; an unavailable key ends the loop |
| RouterLaw.BeforeStop | app/services/router.py:83-163 | every registered candidate before the one that ends the loop had a key and failed |
| RouterLaw.TriedIsPrefix | app/services/router.py:81-168 | those tried are a prefix of the ordered list |
| RouterLaw.OneModelForAll | app/services/router.py:89 | all dispatches carry one model: the named one, or else the first attempted candidate's |
| RouterLaw.FallbackModelMatchesIff | app/services/router.py:89 | failover sends every provider its own candidate's model, however the calls turn out, if and only if every registered candidate has the requested model, or else that of the first registered one |
| RouterLaw.OrderHoldsExactly | app/services/router.py:55-79 | the failover list holds exactly the advertised, keyed candidates that match each preference some such candidate can meet |
| RouterLaw.FilterJoins | app/services/router.py:62-75 | the key filter and both preferences keep the order of the candidates they leave |
| RouterLaw.OrderIsByScore | app/services/router.py:77-79 | with a ranker the failover list is the filtered list by score, least first, equal scores in their advertised order, every candidate as often; without one it is the filtered list |
| RouterLaw.RouteRefusesIff | app/services/router.py:55-65 | refusal for want of a key exactly when something is advertised and nothing keyed; for want of capability exactly when nothing is advertised or no listed provider is registered |
| RouterLaw.RouteAnswersIff | app/services/router.py:81-220 | a request is answered by a candidate if and only if it is registered, keyed, implements what the conversion needs and answers, and every one before it was passed over or raised |
| RouterLaw.AnswererScoresBest | app/services/router.py:77-125 | with a ranker the one that answers scores no worse than any candidate that was not passed over before it |
| RouterLaw.AnswererImplements | app/services/router.py:170-220 | whoever answers implements the interface that serves the conversion, by a table of the eight; a conversion that none serves is never answered |
| RouterLaw.DispatchedIff | app/services/router.py:170-220 | an adapter is called exactly if it implements that interface, and otherwise counts as having raised |
| RouterLaw.NamedModelIsSent | app/services/router.py:89 | a model the request names is sent with every dispatch |
| RouterLaw.EmptyNamesNone | app/services/router.py:68-89 | an empty preferred provider, preferred model or model routes as none does |
| Lockout.Auth.RecordFailedLogin | app/core/security.py:88-93 | one email's counter is incremented and its expiry renewed; no other changes |
| Lockout.Auth.IsAccountLocked | app/core/security.py:96-102 | locked exactly while the live counter is at the limit |
| Lockout.Auth.ClearFailedLogins | app/core/security.py:105-107 | one email's counter is removed; no other changes |
| Lockout.Auth.Login | app/api/v1/routes/auth.py:58-88 | the protocol's five outcomes, and when each records, clears or leaves the counter |
| LockoutLaw.RunTracks | app/core/security.py:88-107 | after every run the stored counter and deadline are those of the latest chain of failures |
| LockoutLaw.LockedIffChain | app/core/security.py:88-107 | an account is locked exactly while its latest failures, each within the lockout time of the one before, reach the limit |
| LockoutLaw.WindowBound | app/api/v1/routes/auth.py:66-83 | with logins taken one at a time and no success between, no window shorter than the lockout time holds more than the permitted failures |
| LockoutConcurrency.ActBounded | app/api/v1/routes/auth.py:66-83 | each lock check and each ending of a login keeps the bound that counts the logins past their check |
| LockoutConcurrency.ConcurrentWindowBound | app/api/v1/routes/auth.py:66-83 | in every interleaving of at most c logins, with no success between, no window shorter than the lockout time holds more than max - 1 + c failures |
| LockoutConcurrency.ConfiguredWindowBound | app/core/config.py:50-51 | under the configured policy that is 4 + c failures in any window shorter than 900 s |
| LockoutConcurrency.ConcurrentWindowBoundReached | app/api/v1/routes/auth.py:66-83 | for every policy and every c some interleaving reaches that bound |
| LockoutConcurrency.LoginIsItsSteps | app/api/v1/routes/auth.py:58-88 | an uninterrupted login does to the counter what its steps do |
| LockoutLaw.LockLastsUntilDeadline | app/api/v1/routes/auth.py:66-71 | a locked account refuses and records nothing until the lockout time since its last failure is over, then opens |
| LockoutLaw.AnswersIff | app/api/v1/routes/auth.py:58-88 | after every run, for each of the four answers exactly when a login gets it |
| Json.ObjectRoundTrip | app/services/streaming.py:62-66 | parsing a printed event gives back every member, whatever its text |
| Json.PrintedHolds | app/services/streaming.py:62-66 | printed text holds no raw control character, and a non-ASCII character exactly if its texts do |
| Sse.DataStream | app/services/streaming.py:58-73 | the generator's loop, error frame and final marker write exactly the frames of the events |
| Sse.SseStream | app/services/streaming.py:44-84 | a chat-capable provider's stream ends in one marker; any other gets one error frame and none |
| Sse.ReadLoop | app/providers/openai/adapter.py:71-79 | the loop with its skip and break reads the payloads before the first marker |
| Sse.RoundTripIff | app/services/streaming.py:58-84 | for any set of line ends the reader gets exactly the payloads written, in order, and stops at the one marker, if and only if no text holds a raw character of that set |
| Sse.EventStreamRoundTrip | app/services/streaming.py:58-84 | with the line ends of the event-stream format the round trip never fails |
| Sse.UnicodeEndsCut | app/providers/openai/adapter.py:71-79 | with the line ends of Python's splitlines a chunk holding U+2028 is cut |
| Sse.StreamDecodes | app/services/streaming.py:58-84 | frame, split, read and decode give back the events themselves |
| Sse.StreamShows | app/services/streaming.py:58-73 | a client finds each chunk's own text, finish reason and model under their names, null where it has none, and then the exception under `error` |
| Sse.NotChatShows | app/services/streaming.py:44-47 | the one event of a provider that cannot chat says so, by name, under `error` |
| Sse.DoneIff | app/providers/openai/adapter.py:72-76 | a payload ends the reading exactly if it is the marker but for white space around it |
| Sse.ReturnEndsLine | app/providers/openai/adapter.py:71-79 | a carriage return ends a line by itself or with the line feed after it |
| Pricing.EstimateIsExact | app/services/cost_service.py:15-21 | rounding to 8 places loses nothing, for every price and token count |
| Pricing.EstimateAdds | app/services/cost_service.py:15-21 | the estimate of summed tokens is the sum of the estimates |
| Pricing.MillionTokens | app/utils/tokens.py:16-67 | a million input tokens and a million output tokens cost the two listed prices, 1.00 and 3.00 dollars for a model that is not listed |
| Rounding.TiesToEven | app/services/cost_service.py:21 | of two equally near numbers rounding takes the even one |
| Usage.GroupsPartition | app/services/usage_service.py:46-59 | however rows are grouped, the lines add up to the rows' totals |
| Usage.LinesAreGroups | app/services/usage_service.py:46-59 | each line is the totals of exactly the rows with its key, and keys do not repeat |
| Usage.EveryRowHasALine | app/services/usage_service.py:46-59 | no row is left out of a grouped query |
| Usage.SummaryLine | app/services/usage_service.py:44-71 | each line totals exactly the user's own rows of its provider and model since the date, each as often as it is there |
| Usage.DailyLine | app/services/usage_service.py:73-96 | the same for a day, from its first second to the next day's |
| Usage.BreakdownsAgree | app/services/usage_service.py:44-96 | the per-model summary and the daily breakdown have equal totals |
| Usage.SummaryIsExact | app/services/usage_service.py:44-71 | each line of a summary costs what its summed tokens cost |
| Chat.ChatService.Open | app/services/chat_service.py:94-107 | a conversation is created if none is named, and the client's last message stored in it |
| Chat.ChatService.StoreReply | app/services/chat_service.py:149-197 | usage, then the reply, then the cache entry; a failure stops the rest |
| Chat.ChatService.Guarded | app/services/chat_service.py:46-91 | the guard, and the cached answer exactly if there is a live one for a cacheable request |
| Chat.ChatService.Generate | app/services/chat_service.py:109-199 | the router's reply, stored, cached and returned, with the ranker's statistics updated |
| Chat.ChatService.Chat | app/services/chat_service.py:43-199 | the whole service over the router: guard, cache, rows, reply and response, for every place where a command may fail |
| Chat.ChatService.Handle | app/db/session.py:26-33 | with commit or rollback, tables and cache end as the request's action sequence leaves them in the interleaving model |
| Chat.MissAlone | app/services/chat_service.py:94-199 | run by itself, a request's actions add its rows exactly if it succeeds and commits, and cache its answer even if the commit fails |
| ChatLaw.AdvanceInStep | app/services/chat_service.py:94-166 | after each step a chat's transaction holds exactly the rows of its steps, and all of them once the reply is stored |
| ChatLaw.AccountsBalance | app/db/session.py:26-33 | under every interleaving of the steps, with failures and rollbacks anywhere between them, provider-written messages and usage rows match one for one with equal tokens, one of each per committed chat; hits add none |
| ChatLaw.RowsAreOfChats | app/services/chat_service.py:94-166 | in every reachable state the tables are, in order, the rows of the committed chats: each one's usage is its own user's and its own reply's, its question and reply are in the conversation it named or started |
| ChatLaw.ChargedOnce | app/db/session.py:26-33 | no request is charged twice: usage rows and open chats are at most as many as requests |
| ChatLaw.AssistantRowsIff | app/services/chat_service.py:101-107 | rows with the assistant's role are as many as usage rows exactly when no committed chat ended in such a client message |
| ChatLaw.SummariesAreExact | app/services/usage_service.py:29-71 | in every reachable state each summary line costs what its summed tokens cost |
| ChatLaw.HitIff | app/services/cache.py:42-69 | a request is served from the cache exactly if it is not streamed, has temperature 0, does not bypass it, and the last answer kept under its own key is under 3600 s old |
| ChatLaw.Provenance | app/services/chat_service.py:68-91 | every hit serves the text a provider gave the same user for the same messages under an hour before, from the provider and model the request names |
| ChatLaw.HitRepeatsIff | app/services/chat_service.py:80-91 | a hit repeats the response of the chat that obtained it if and only if the reply named its model and carried no tool calls |
| ChatLaw.HitIgnoresOptions | app/services/cache.py:25-40 | whether a request hits, and what, does not depend on its tools, tool choice or token limit |
| ChatLaw.HitAnswersIff | app/services/cache.py:25-40 | a hit answers the question that was put to the provider if and only if the two requests have the same tools, tool choice and token limit |
| ChatLaw.OtherOptionsAreServed | app/services/cache.py:25-40 | for every kept answer, a run on which a request with other options is served it |
| ChatLaw.ToolCallsAreLost | app/services/chat_service.py:169-197 | for every kept reply with tool calls, a run on which it is served again without them |
| ChatLaw.UnlabelledHitFails | app/services/chat_service.py:78-91 | for every kept reply without a model, a run on which serving it fails |
| ChatLaw.NoProviderNoHit | app/services/chat_service.py:181-187 | a request that names no provider never hits |
| ChatLaw.ServedLabel | app/services/chat_service.py:78-91 | a hit is labelled as the request asks, and fails exactly when the kept reply named no model |
| ChatLaw.RolledBackServedIff | app/db/session.py:26-33 | a chat's answer can be served although the chat was rolled back if and only if it may use the cache, its reply has text, and its tool calls have the form asked for |
| ChatLaw.RepliesComeFromEligible | app/services/chat_service.py:118-122 | a reply is what one adapter answered, under its name: a registered chat provider that the user has a key for, of the provider and model that the request names if any such candidate is |
| ChatLaw.RepliedIff | app/services/chat_service.py:118-122 | a provider replies if and only if the list for this user, provider and model has a candidate that answers before any that ends the search |
| ChatLaw.ChatSendsModel | app/services/chat_service.py:110-122 | every provider asked on the way is asked for the model that the request names |
| ChatLaw.AnsweredAnewIff | app/services/chat_service.py:43-199 | when a chat is blocked and when it is answered anew, by what fails on its way; the response then tells what was replied and costs what its usage row does |

## Left out

- Chat.ChatService.Handle: one request from start to end; interleaving is in the action model of the same file, whose transactions are isolated.
- Router.ModalityRouter.RouteRequest: what an adapter returns is one outcome for each attempt; Prometheus counters and log lines are dropped.
- Retry.WithRetry: the outcome, time and random draw of each attempt, and what other callers do meanwhile, are given in advance.
- KeyService.Service.SetItem: which entry a full cache evicts is left open, as it is the cache library's choice.
- BreakerConcurrency.ConcurrentFailureBound: excludes the admin's disable request, which counts failures without an attempt.
- HTTP calls, provider payloads and mapping, media polling, S3, SQL drivers and Redis transport: foreign input and output.
- Races between the Redis commands inside one breaker, ranker or lockout operation, exceptions from Redis inside them, and clock skew between machines.
- Encryption, password hashing and token signing: encryption is an inverse pair; decryption failures are not modelled.
- Refresh-token revocation: it rests on the expiry rules of a token library.
- Guardrail patterns: whether a text is blocked is a parameter.
- The streaming and WebSocket chat paths write no rows and use no cache; `get_streaming_context` is not modelled.
- Deleting a conversation removes its messages and keeps its usage rows; the accounting laws are about runs of chats.
- Message parts of a chat: a message's content is the one text the service makes of it, which is what the cache key holds; the guard reads it in another form, but whether it blocks is a parameter.
- Pipelines and conversions, budget checks, the order of summary lines, average latency, admin routes, middleware and settings: they would only add easy members.
- Costs of 10000 dollars or more in one row overflow the column; the model has no such limit.
- JSON beyond flat objects of texts and nulls, other whitespace and number syntax, lone surrogates, UTF-8 coding, and the client library that splits a response into lines: the line ends are a parameter instead.
- A client that disconnects in the middle of a stream.
