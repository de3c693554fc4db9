/**
 What the four key lifetimes and the recovery timeout guarantee over whole runs of one
 provider's breaker.
 */
module BreakerTimeouts {
  import opened Wrappers
  import opened Redis
  import opened Breaker

  // ---- The failure counter outlives the state it caused ----

  predicate Tripped(s: Keys, now: real) {
    s.state.Live(now) && (s.state.value == "open" || s.state.value == "half_open")
  }

  /**
   While the state key says open or half-open, the failure counter is live and at the
   threshold, and will stay so through a half-open stretch that starts before the state
   key expires.
   */
  ghost predicate Covered(c: Config, s: Keys, now: real) {
    Tripped(s, now) ==>
      && s.failures.Live(now)
      && s.failures.value >= c.threshold
      && s.state.expiry.At? && s.failures.expiry.At?
      && s.state.expiry.deadline + (if s.state.value == "open" then c.HalfOpenFor() else 0.0)
         <= s.failures.expiry.deadline
  }

  lemma FloorGreatest(n: int, x: real)
    requires n as real <= x
    ensures n <= x.Floor
  {
  }

  lemma FloorSum(x: real, y: real)
    ensures Int(x) + Int(y) <= Int(x + y)
  {
    FloorGreatest(x.Floor + y.Floor, x + y);
  }

  lemma WholeSeconds(c: Config)
    requires c.Lasting()
    ensures c.HalfOpenFor() + c.OpenFor() <= c.CountFor()
    ensures 1.0 <= c.HalfOpenFor() <= c.recovery < c.HalfOpenFor() + 1.0
    ensures c.recovery < c.OpenFor() && c.recovery < c.CountFor()
  {
    FloorSum(c.recovery, c.recovery * 2.0);
    FloorSum(c.recovery, c.recovery);
  }

  lemma StepCovered(c: Config, s: Keys, from: real, e: Event)
    requires c.Valid() && c.Lasting() && Covered(c, s, from) && from <= e.at
    ensures Covered(c, RedisStep(c, s, e).0, e.at)
  {
    WholeSeconds(c);
  }

  lemma {:induction false} RunCovered(c: Config, s: Keys, from: real, es: seq<Event>)
    requires c.Valid() && c.Lasting() && Covered(c, s, from) && Monotone(es, from)
    ensures Covered(c, RedisRun(c, s, es).0, End(es, from))
    decreases es
  {
    if es != [] {
      StepCovered(c, s, from, es[0]);
      RunCovered(c, RedisStep(c, s, es[0]).0, es[0].at, es[1..]);
    }
  }

  /**
   In every reachable state, at every later time: a live open or half-open state key
   has a live failure counter at or above the threshold, so any failure recorded then
   re-opens the breaker for `int(2R)` seconds.
   */
  lemma TrippedImpliesCounterLive(c: Config, es: seq<Event>, now: real)
    requires c.Valid() && c.Lasting() && Monotone(es, 0.0) && End(es, 0.0) <= now
    ensures
      var s := RedisRun(c, KEYS_START, es).0;
      Tripped(s, now) ==>
        && s.failures.Live(now) && s.failures.value >= c.threshold
        && var s' := RedisFailure(c, s, now);
           s'.state == Held("open", At(now + c.OpenFor())) && s'.failures.value > c.threshold
  {
    RunCovered(c, KEYS_START, 0.0, es);
  }

  // ---- Fail fast, then recover ----

  ghost predicate LocalOpened(c: Config, s: Local, at: real) {
    s.open && s.failures >= c.threshold && s.lastFailure == at
  }

  ghost predicate RedisOpened(c: Config, s: Keys, at: real) {
    && s.state == Held("open", At(at + c.OpenFor()))
    && s.lastFail == Held(at, Never)
    && s.failures.Held? && s.failures.value >= c.threshold
    && s.failures.expiry == At(at + c.CountFor())
  }

  function LastFailure(es: seq<Event>, at: real): real
    decreases es
  {
    if es == [] then at
    else LastFailure(es[1..], if es[0].op == RecordFailure then es[0].at else at)
  }

  predicate AllQueriesAnswered(es: seq<Event>, answers: seq<Answer>, open: bool) {
    |answers| == |es| && forall k | 0 <= k < |es| && es[k].op == Query :: answers[k] == Some(open)
  }

  /** A failure that opens a breaker, in any reachable state, opens it in this sense. */
  lemma FailureOpens(c: Config, es: seq<Event>, now: real)
    requires c.Valid() && c.Lasting() && Monotone(es, 0.0) && End(es, 0.0) <= now
    ensures
      var s := RedisFailure(c, RedisRun(c, KEYS_START, es).0, now);
      RedisOpened(c, s, now) <==> s.state.Get(now) == Some("open")
  {
    WholeSeconds(c);
    RunCovered(c, KEYS_START, 0.0, es);
  }

  lemma LocalFailureOpens(c: Config, es: seq<Event>, now: real)
    requires c.Valid()
    ensures
      var s := LocalFailure(c, LocalRun(c, LOCAL_START, es).0, now);
      LocalOpened(c, s, now) <==> s.open
  {
    LocalOpenIffThreshold(c, LOCAL_START, es);
  }

  lemma {:induction false} LocalOpenIffThreshold(c: Config, s: Local, es: seq<Event>)
    requires c.Valid() && 0 <= s.failures && (s.open <==> s.failures >= c.threshold)
    ensures var s' := LocalRun(c, s, es).0; 0 <= s'.failures && (s'.open <==> s'.failures >= c.threshold)
    decreases es
  {
    if es != [] {
      LocalOpenIffThreshold(c, LocalStep(c, s, es[0]).0, es[1..]);
    }
  }

  /**
   Once opened at `since`, every query up to the recovery timeout fails fast, through
   any mix of further queries and failures with no success; the first query later than
   the timeout after the last failure lets its caller through.
   */
  lemma {:induction false} RedisFailsFastThenRecovers(c: Config, s: Keys, last: real, from: real, es: seq<Event>, since: real)
    requires c.Valid() && c.Lasting() && RedisOpened(c, s, last) && since <= last <= from && Monotone(es, from)
    requires HasNo(RecordSuccess, es) && End(es, from) <= since + c.recovery
    ensures
      var (s', answers) := RedisRun(c, s, es);
      var last' := LastFailure(es, last);
      && AllQueriesAnswered(es, answers, true)
      && last <= last' <= End(es, from)
      && RedisOpened(c, s', last')
      && forall now | now > last' + c.recovery :: !RedisIsOpen(c, s', now).1
    decreases es
  {
    WholeSeconds(c);
    if es != [] {
      EndBounds(es, from);
      var s1 := RedisStep(c, s, es[0]).0;
      var last1 := if es[0].op == RecordFailure then es[0].at else last;
      assert RedisOpened(c, s1, last1);
      RedisFailsFastThenRecovers(c, s1, last1, es[0].at, es[1..], since);
      var (s', answers) := RedisRun(c, s, es);
      assert answers[1..] == RedisRun(c, s1, es[1..]).1;
      forall k | 0 <= k < |es| && es[k].op == Query ensures answers[k] == Some(true) {
        if k > 0 {
          assert es[1..][k - 1].op == Query && answers[1..][k - 1] == Some(true);
        }
      }
    }
  }

  lemma {:induction false} LocalFailsFastThenRecovers(c: Config, s: Local, last: real, from: real, es: seq<Event>, since: real)
    requires LocalOpened(c, s, last) && since <= last <= from && Monotone(es, from)
    requires HasNo(RecordSuccess, es) && End(es, from) <= since + c.recovery
    ensures
      var (s', answers) := LocalRun(c, s, es);
      var last' := LastFailure(es, last);
      && AllQueriesAnswered(es, answers, true)
      && last <= last' <= End(es, from)
      && LocalOpened(c, s', last')
      && forall now | now > last' + c.recovery :: !LocalIsOpen(c, s', now).1
    decreases es
  {
    if es != [] {
      EndBounds(es, from);
      var s1 := LocalStep(c, s, es[0]).0;
      var last1 := if es[0].op == RecordFailure then es[0].at else last;
      assert LocalOpened(c, s1, last1);
      LocalFailsFastThenRecovers(c, s1, last1, es[0].at, es[1..], since);
      var (s', answers) := LocalRun(c, s, es);
      assert answers[1..] == LocalRun(c, s1, es[1..]).1;
      forall k | 0 <= k < |es| && es[k].op == Query ensures answers[k] == Some(true) {
        if k > 0 {
          assert es[1..][k - 1].op == Query && answers[1..][k - 1] == Some(true);
        }
      }
    }
  }

  lemma {:induction false} EndBounds(es: seq<Event>, from: real)
    requires Monotone(es, from)
    ensures from <= End(es, from)
    ensures es != [] ==> es[0].at <= End(es, from) == End(es[1..], es[0].at)
    decreases es
  {
    if es != [] {
      EndBounds(es[1..], es[0].at);
    }
  }

  // ---- Half-open admissions ----

  /** Queries at the given times, with no outcome recorded between them. */
  function Queries(times: seq<real>): seq<Event> {
    seq(|times|, k requires 0 <= k < |times| => Event(Query, times[k]))
  }

  function Admitted(answers: seq<Answer>): nat {
    if answers == [] then 0 else (if answers[0] == Some(false) then 1 else 0) + Admitted(answers[1..])
  }

  /** The time from which the probe lock can be taken. */
  function LockFree(s: Keys, now: real): real {
    if s.probeLock.Live(now) && s.probeLock.expiry.At? then s.probeLock.expiry.deadline else now
  }

  ghost predicate HalfOpen(s: Keys, now: real, deadline: real) {
    && s.state == Held("half_open", At(deadline)) && now <= deadline
    && (s.probeLock.Held? ==> s.probeLock.expiry.At?)
  }

  lemma QueriesCons(times: seq<real>)
    requires times != []
    ensures Queries(times) != [] && Queries(times)[0] == Event(Query, times[0]) && Queries(times)[1..] == Queries(times[1..])
  {
  }

  /** A query answered in a half-open stretch, and what it leaves of the lock. */
  lemma QueryHalfOpen(c: Config, s: Keys, from: real, at: real, deadline: real)
    requires HalfOpen(s, from, deadline) && from <= at < deadline
    ensures
      var (s1, open) := RedisIsOpen(c, s, at);
      && HalfOpen(s1, at, deadline)
      && (open ==> s1 == s && LockFree(s, from) == LockFree(s1, at))
      && (!open ==> LockFree(s, from) <= at && LockFree(s1, at) == at + PROBE_LOCK_SECONDS)
  {
  }

  lemma {:induction false} StretchBounds(times: seq<real>, from: real)
    requires times != [] && Monotone(Queries(times), from)
    ensures from <= times[0] <= times[|times| - 1] && Monotone(Queries(times[1..]), times[0])
    decreases |times|
  {
    QueriesCons(times);
    if |times| > 1 {
      StretchBounds(times[1..], times[0]);
    }
  }

  lemma RunQuery(c: Config, s: Keys, times: seq<real>)
    requires times != []
    ensures
      var (s1, open) := RedisIsOpen(c, s, times[0]);
      RedisRun(c, s, Queries(times)).1 == [Some(open)] + RedisRun(c, s1, Queries(times[1..])).1
  {
    QueriesCons(times);
  }

  /** Inside a half-open stretch nobody is admitted by the probe lock before it is free. */
  lemma {:induction false} AdmittedWhenFree(c: Config, s: Keys, from: real, times: seq<real>, deadline: real, i: nat)
    requires HalfOpen(s, from, deadline) && Monotone(Queries(times), from)
    requires i < |times| && times[|times| - 1] < deadline
    ensures
      var answers := RedisRun(c, s, Queries(times)).1;
      |answers| == |times| && (answers[i] == Some(false) ==> LockFree(s, from) <= times[i])
    decreases |times|
  {
    StretchBounds(times, from);
    QueryHalfOpen(c, s, from, times[0], deadline);
    RunQuery(c, s, times);
    var s1 := RedisIsOpen(c, s, times[0]).0;
    if |times| > 1 {
      AdmittedWhenFree(c, s1, times[0], times[1..], deadline, if i > 0 then i - 1 else 0);
    }
  }

  /** Two callers it admits are ten seconds apart. */
  lemma {:induction false} AdmittedApart(c: Config, s: Keys, from: real, times: seq<real>, deadline: real, i: nat, j: nat)
    requires HalfOpen(s, from, deadline) && Monotone(Queries(times), from)
    requires i < j < |times| && times[|times| - 1] < deadline
    ensures
      var answers := RedisRun(c, s, Queries(times)).1;
      && |answers| == |times|
      && (answers[i] == answers[j] == Some(false) ==> PROBE_LOCK_SECONDS <= times[j] - times[i])
    decreases |times|
  {
    StretchBounds(times, from);
    QueryHalfOpen(c, s, from, times[0], deadline);
    RunQuery(c, s, times);
    var s1 := RedisIsOpen(c, s, times[0]).0;
    if i > 0 {
      AdmittedApart(c, s1, times[0], times[1..], deadline, i - 1, j - 1);
    } else {
      AdmittedWhenFree(c, s1, times[0], times[1..], deadline, j - 1);
    }
  }

  lemma AdmittedCons(first: Answer, rest: seq<Answer>)
    ensures Admitted([first] + rest) == Admitted(rest) + if first == Some(false) then 1 else 0
  {
    assert ([first] + rest)[1..] == rest;
  }

  /** It admits at most one caller for every ten seconds left from when it is free. */
  lemma {:induction false} LockAdmissions(c: Config, s: Keys, from: real, times: seq<real>, deadline: real)
    requires HalfOpen(s, from, deadline) && Monotone(Queries(times), from)
    requires times != [] ==> times[|times| - 1] < deadline
    ensures
      var answers := RedisRun(c, s, Queries(times)).1;
      && |answers| == |times|
      && (Admitted(answers) > 0 ==>
            PROBE_LOCK_SECONDS * (Admitted(answers) - 1) as real < deadline - LockFree(s, from))
    decreases |times|
  {
    if times != [] {
      StretchBounds(times, from);
      QueryHalfOpen(c, s, from, times[0], deadline);
      RunQuery(c, s, times);
      var (s1, open) := RedisIsOpen(c, s, times[0]);
      LockAdmissions(c, s1, times[0], times[1..], deadline);
      AdmittedCons(Some(open), RedisRun(c, s1, Queries(times[1..])).1);
    }
  }

  ghost predicate LockInv(s: Keys) {
    && (s.state.Held? && s.state.value == "open" ==> s.probeLock == Gone)
    && (s.probeLock.Held? ==> s.probeLock.expiry.At?)
  }

  lemma {:induction false} RunLockInv(c: Config, s: Keys, es: seq<Event>)
    requires LockInv(s)
    ensures LockInv(RedisRun(c, s, es).0)
    decreases es
  {
    if es != [] {
      RunLockInv(c, RedisStep(c, s, es[0]).0, es[1..]);
    }
  }

  /** The breaker is open and its recovery timeout is over. */
  predicate RecoveryDue(c: Config, s: Keys, now: real) {
    s.state.Get(now) == Some("open") && now - s.lastFail.Get(now).GetOr(0.0) > c.recovery
  }

  /** `ceil(int(R) / 10)`. */
  function ProbeSlots(c: Config): int {
    (c.recovery.Floor + 9) / 10
  }

  /** A half-open stretch: the query that starts it at `times[0]`, then queries only. */
  ghost predicate HalfOpenStretch(c: Config, before: seq<Event>, times: seq<real>) {
    && c.Valid() && c.Lasting() && times != [] && Monotone(before, 0.0) && Monotone(Queries(times), End(before, 0.0))
    && RecoveryDue(c, RedisRun(c, KEYS_START, before).0, times[0])
    && times[|times| - 1] < times[0] + c.HalfOpenFor()
  }

  /**
   In any half-open stretch of any run the callers let through, counting the one that
   made the transition without the lock, number at most `1 + ceil(int(R) / 10)`; those
   admitted by the lock are ten seconds apart.
   */
  lemma HalfOpenAdmissions(c: Config, before: seq<Event>, times: seq<real>)
    requires HalfOpenStretch(c, before, times)
    ensures
      var answers := RedisRun(c, RedisRun(c, KEYS_START, before).0, Queries(times)).1;
      && |answers| == |times|
      && answers[0] == Some(false)
      && Admitted(answers) <= 1 + ProbeSlots(c)
      && forall i, j | 1 <= i < j < |times| && answers[i] == answers[j] == Some(false) ::
           PROBE_LOCK_SECONDS <= times[j] - times[i]
  {
    var s := RedisRun(c, KEYS_START, before).0;
    RunLockInv(c, KEYS_START, before);
    WholeSeconds(c);
    var (s1, open) := RedisIsOpen(c, s, times[0]);
    StretchBounds(times, End(before, 0.0));
    RunQuery(c, s, times);
    var rest, deadline := RedisRun(c, s1, Queries(times[1..])).1, times[0] + c.HalfOpenFor();
    LockAdmissions(c, s1, times[0], times[1..], deadline);
    AdmittedCons(Some(open), rest);
    forall i, j | 1 <= i < j < |times| && rest[i - 1] == rest[j - 1] == Some(false)
      ensures PROBE_LOCK_SECONDS <= times[j] - times[i]
    {
      AdmittedApart(c, s1, times[0], times[1..], deadline, i - 1, j - 1);
    }
  }

  /**
   So exactly one probe is let through, as documented, if and only if nobody else asks:
   the second caller of a half-open stretch always gets the lock.
   */
  lemma OneProbeIff(c: Config, before: seq<Event>, times: seq<real>)
    requires HalfOpenStretch(c, before, times)
    ensures Admitted(RedisRun(c, RedisRun(c, KEYS_START, before).0, Queries(times)).1) == 1 <==> |times| == 1
  {
    var s := RedisRun(c, KEYS_START, before).0;
    RunLockInv(c, KEYS_START, before);
    var (s1, open) := RedisIsOpen(c, s, times[0]);
    StretchBounds(times, End(before, 0.0));
    RunQuery(c, s, times);
    AdmittedCons(Some(open), RedisRun(c, s1, Queries(times[1..])).1);
    if |times| > 1 {
      StretchBounds(times[1..], times[0]);
      RunQuery(c, s1, times[1..]);
      var (s2, second) := RedisIsOpen(c, s1, times[1]);
      AdmittedCons(Some(second), RedisRun(c, s2, Queries(times[1..][1..])).1);
    }
  }

  /** `n` queries, ten seconds apart. */
  function EveryTenSeconds(from: real, n: nat): seq<real>
    decreases n
  {
    if n == 0 then [] else [from] + EveryTenSeconds(from + PROBE_LOCK_SECONDS, n - 1)
  }

  lemma {:induction false} EveryTenSecondsAdmitted(c: Config, s: Keys, from: real, n: nat, deadline: real)
    requires HalfOpen(s, from, deadline) && !s.probeLock.Live(from)
    requires n > 0 ==> from + PROBE_LOCK_SECONDS * (n - 1) as real < deadline
    ensures
      var times := EveryTenSeconds(from, n);
      && |times| == n && Monotone(Queries(times), from)
      && (n > 0 ==> times[n - 1] == from + PROBE_LOCK_SECONDS * (n - 1) as real)
      && Admitted(RedisRun(c, s, Queries(times)).1) == n
    decreases n
  {
    if n > 0 {
      var times := EveryTenSeconds(from, n);
      var es := Queries(times);
      var rest := EveryTenSeconds(from + PROBE_LOCK_SECONDS, n - 1);
      assert times[1..] == rest;
      assert es[1..] == Queries(rest);
      var (s1, first) := RedisStep(c, s, es[0]);
      if n > 1 {
        EveryTenSecondsAdmitted(c, s1, from + PROBE_LOCK_SECONDS, n - 1, deadline);
        assert es[1..][0].at == from + PROBE_LOCK_SECONDS;
      }
      var answers := RedisRun(c, s, es).1;
      assert answers[1..] == RedisRun(c, s1, es[1..]).1;
    }
  }

  /**
   The bound is met by some stretch after every run that leaves the breaker due for
   recovery.  Half-open therefore never means one probe: at least two are let through.
   */
  lemma HalfOpenAdmissionsTight(c: Config, before: seq<Event>, now: real) returns (times: seq<real>)
    requires c.Valid() && c.Lasting() && Monotone(before, 0.0) && End(before, 0.0) <= now
    requires RecoveryDue(c, RedisRun(c, KEYS_START, before).0, now)
    ensures HalfOpenStretch(c, before, times) && times[0] == now
    ensures Admitted(RedisRun(c, RedisRun(c, KEYS_START, before).0, Queries(times)).1) == 1 + ProbeSlots(c) >= 2
  {
    var s := RedisRun(c, KEYS_START, before).0;
    RunLockInv(c, KEYS_START, before);
    WholeSeconds(c);
    var rest := EveryTenSeconds(now, ProbeSlots(c));
    times := [now] + rest;
    assert times[1..] == rest;
    var es := Queries(times);
    assert es[1..] == Queries(rest);
    var (s1, first) := RedisStep(c, s, es[0]);
    EveryTenSecondsAdmitted(c, s1, now, ProbeSlots(c), now + c.HalfOpenFor());
    assert RedisRun(c, s, es).1[1..] == RedisRun(c, s1, es[1..]).1;
  }
}
