/**
 The lifetimes of the Redis keys, in seconds of the recovery timeout `R`: an open state is
 kept for `floor(2R)`, a half-open one for `floor(R)`, the failure counter for `floor(3R)`.
 */
module BreakerLifetimes {
  import opened Wrappers
  import opened Redis
  import opened Breaker
  import opened BreakerTimeouts
  import opened BreakerOpening
  import opened Chains

  /** The keys after a run that ends with a failure at `t`, which leaves the breaker open. */
  ghost predicate OpenedAt(c: Config, es: seq<Event>, t: real, s: Keys) {
    && c.Valid() && c.Lasting() && Monotone(es, 0.0) && End(es, 0.0) <= t
    && s == RedisFailure(c, RedisRun(c, KEYS_START, es).0, t)
    && s.state.Get(t) == Some("open")
  }

  /** A query that finds the state key says half-open, or leaves it so. */
  predicate StartsHalfOpen(before: Keys, after: Keys, at: real) {
    before.state.Get(at) == Some("open") && after.state.Get(at) == Some("half_open")
  }

  /**
   With nothing recorded since, the first query after a failure at `t` that left the breaker
   open starts a half-open stretch if and only if it comes later than `R` and before
   `floor(2R)` seconds are over. Up to `R` it is refused; from `floor(2R)` on the breaker has
   forgotten that it was open.
   */
  lemma HalfOpenStartsIff(c: Config, es: seq<Event>, t: real, s: Keys, q: real)
    requires OpenedAt(c, es, t, s) && t <= q
    ensures
      var (s', open) := RedisIsOpen(c, s, q);
      && (StartsHalfOpen(s, s', q) <==> t + c.recovery < q < t + (2.0 * c.recovery).Floor as real)
      && (open <==> q <= t + c.recovery)
      && (q <= t + c.recovery || t + (2.0 * c.recovery).Floor as real <= q ==> s' == s)
  {
    WholeSeconds(c);
    FailureOpens(c, es, t);
    assert c.recovery * 2.0 == 2.0 * c.recovery;
  }

  /** No query finds anything to do once the state key is gone. */
  lemma {:induction false} NoStateNoRefusal(c: Config, s: Keys, from: real, times: seq<real>)
    requires !s.state.Live(from) && Monotone(Queries(times), from)
    ensures
      var (s', answers) := RedisRun(c, s, Queries(times));
      && s' == s && |answers| == |times| && forall k | 0 <= k < |times| :: answers[k] == Some(false)
    decreases |times|
  {
    if times != [] {
      StretchBounds(times, from);
      QueriesCons(times);
      RunQuery(c, s, times);
      NoStateNoRefusal(c, s, times[0], times[1..]);
    }
  }

  /** From `floor(2R)` seconds after that failure every query is admitted, and the keys stay as they are. */
  lemma AllAdmittedAfterTwiceR(c: Config, es: seq<Event>, t: real, s: Keys, from: real, times: seq<real>)
    requires OpenedAt(c, es, t, s) && t + (2.0 * c.recovery).Floor as real <= from && Monotone(Queries(times), from)
    ensures
      var (s', answers) := RedisRun(c, s, Queries(times));
      && s' == s && |answers| == |times| && forall k | 0 <= k < |times| :: answers[k] == Some(false)
  {
    FailureOpens(c, es, t);
    assert c.recovery * 2.0 == 2.0 * c.recovery;
    NoStateNoRefusal(c, s, from, times);
  }

  /** After a success nothing is left of counter and lock, and every query is admitted, until a failure is recorded. */
  lemma {:induction false} SuccessClears(c: Config, before: Keys, from: real, times: seq<real>)
    requires Monotone(Queries(times), from)
    ensures
      var s := RedisSuccess(before);
      var (s', answers) := RedisRun(c, s, Queries(times));
      && s.failures == Gone && s.probeLock == Gone
      && s' == s && |answers| == |times| && forall k | 0 <= k < |answers| :: answers[k] == Some(false)
    decreases |times|
  {
    if times != [] {
      StretchBounds(times, from);
      QueriesCons(times);
      RunQuery(c, RedisSuccess(before), times);
      SuccessClears(c, before, times[0], times[1..]);
    }
  }

  /**
   A stretch that starts at `q` lasts `floor(R)` seconds: until then the second query takes
   the lock and a third within ten seconds of it is refused; from then on all are admitted.
   */
  lemma HalfOpenLasts(c: Config, es: seq<Event>, t: real, s: Keys, q: real, r: real, u: real)
    requires OpenedAt(c, es, t, s) && t + c.recovery < q < t + (2.0 * c.recovery).Floor as real && q <= r <= u
    ensures
      var s1 := RedisIsOpen(c, s, q).0;
      var (s2, second) := RedisIsOpen(c, s1, r);
      var (s3, third) := RedisIsOpen(c, s2, u);
      && !second
      && (third <==> u < q + c.recovery.Floor as real && u < r + 10.0)
      && (q + c.recovery.Floor as real <= r ==> s2 == s1 && s3 == s1)
  {
    HalfOpenStartsIff(c, es, t, s, q);
    RunLockInv(c, KEYS_START, es);
  }

  /**
   After every run, a failure leaves the breaker open if and only if it ends a chain of at
   least `threshold` failures, each less than `floor(3R)` seconds after the one before.
   */
  lemma FailureOpensWithin(c: Config, es: seq<Event>, now: real)
    requires c.Valid() && c.Lasting() && Monotone(es, 0.0) && End(es, 0.0) <= now
    ensures
      RedisFailure(c, RedisRun(c, KEYS_START, es).0, now).state.Get(now) == Some("open")
      <==> 1 + Chain((3.0 * c.recovery).Floor as real, BreakerOpening.Failures([], es), now) >= c.threshold
  {
    assert c.recovery * 3.0 == 3.0 * c.recovery;
    FailureOpensIff(c, es, now);
  }

  /** With five failures allowed and 30 seconds of recovery: refused at 30, half-open from 30 to 60, forgotten at 60. */
  lemma DefaultLifetimes(es: seq<Event>, s: Keys, q: real)
    requires OpenedAt(Config(5, 30.0), es, 0.0, s) && 0.0 <= q
    ensures
      var (s', open) := RedisIsOpen(Config(5, 30.0), s, q);
      && (open <==> q <= 30.0) && (StartsHalfOpen(s, s', q) <==> 30.0 < q < 60.0)
  {
    HalfOpenStartsIff(Config(5, 30.0), es, 0.0, s, q);
  }
}
