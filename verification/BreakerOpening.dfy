/** Exactly when a failure opens the breaker, in either backend. */
module BreakerOpening {
  import opened Wrappers
  import opened Redis
  import opened Breaker
  import opened BreakerTimeouts
  import opened Chains

  /** The times of the failures since the last success. */
  function Failures(failures: seq<real>, es: seq<Event>): seq<real>
    decreases es
  {
    if es == [] then failures else Failures(Noted(failures, es[0]), es[1..])
  }

  function Noted(failures: seq<real>, e: Event): seq<real> {
    match e.op
    case Query => failures
    case RecordSuccess => []
    case RecordFailure => failures + [e.at]
  }

  lemma StepCounts(c: Config, s: Keys, failures: seq<real>, e: Event)
    requires s.failures == Counter(c.CountFor(), failures)
    ensures RedisStep(c, s, e).0.failures == Counter(c.CountFor(), Noted(failures, e))
  {
    if e.op == RecordFailure {
      CounterNext(c.CountFor(), failures, e.at);
    }
  }

  lemma {:induction false} RunCounts(c: Config, s: Keys, failures: seq<real>, es: seq<Event>)
    requires s.failures == Counter(c.CountFor(), failures)
    ensures RedisRun(c, s, es).0.failures == Counter(c.CountFor(), Failures(failures, es))
    decreases es
  {
    if es != [] {
      StepCounts(c, s, failures, es[0]);
      RunCounts(c, RedisStep(c, s, es[0]).0, Noted(failures, es[0]), es[1..]);
    }
  }

  /**
   After every run, a failure leaves the breaker open if and only if it ends a chain of at
   least `threshold` failures with no success between them, each less than `int(3R)` after
   the one before.
   */
  lemma FailureOpensIff(c: Config, es: seq<Event>, now: real)
    requires c.Valid() && c.Lasting() && Monotone(es, 0.0) && End(es, 0.0) <= now
    ensures
      var s := RedisRun(c, KEYS_START, es).0;
      RedisFailure(c, s, now).state.Get(now) == Some("open")
      <==> 1 + Chain(c.CountFor(), Failures([], es), now) >= c.threshold
  {
    var s := RedisRun(c, KEYS_START, es).0;
    RunCounts(c, KEYS_START, [], es);
    CounterReads(c.CountFor(), Failures([], es), now);
    RunCovered(c, KEYS_START, 0.0, es);
    WholeSeconds(c);
    assert Tripped(s, now) ==> Covered(c, s, End(es, 0.0)) && s.failures.Live(now);
  }

  /**
   The `threshold`-th consecutive failure, which is documented to open the breaker, opens
   it if and only if none of them came `int(3R)` or more after the one before.
   */
  lemma ConsecutiveFailuresOpenIff(c: Config, es: seq<Event>, now: real)
    requires c.Valid() && c.Lasting() && Monotone(es, 0.0) && End(es, 0.0) <= now
    requires |Failures([], es)| + 1 == c.threshold
    ensures
      var failures := Failures([], es) + [now];
      RedisFailure(c, RedisRun(c, KEYS_START, es).0, now).state.Get(now) == Some("open")
      <==> forall i | 0 < i < |failures| :: failures[i] - failures[i - 1] < c.CountFor()
  {
    var before := Failures([], es);
    var failures := before + [now];
    FailureOpensIff(c, es, now);
    ChainAll(c.CountFor(), before, now);
    assert forall i | 0 < i < |before| :: failures[i] - failures[i - 1] == before[i] - before[i - 1];
    assert before != [] ==> failures[|before|] - failures[|before| - 1] == now - before[|before| - 1];
  }

  // ---- In-process ----

  /** The failures that count: a success forgets them, and so does the first query after an open breaker's timeout. */
  function LocalNoted(c: Config, failures: seq<real>, e: Event): seq<real> {
    match e.op
    case Query =>
      if |failures| >= c.threshold && failures != [] && e.at - failures[|failures| - 1] > c.recovery then [] else failures
    case RecordSuccess => []
    case RecordFailure => failures + [e.at]
  }

  function LocalFailures(c: Config, failures: seq<real>, es: seq<Event>): seq<real>
    decreases es
  {
    if es == [] then failures else LocalFailures(c, LocalNoted(c, failures, es[0]), es[1..])
  }

  ghost predicate LocalTracks(c: Config, s: Local, failures: seq<real>) {
    && s.failures == |failures| && (s.open <==> |failures| >= c.threshold)
    && (failures != [] ==> s.lastFailure == failures[|failures| - 1])
  }

  lemma LocalStepTracks(c: Config, s: Local, failures: seq<real>, e: Event)
    requires c.Valid() && LocalTracks(c, s, failures)
    ensures LocalTracks(c, LocalStep(c, s, e).0, LocalNoted(c, failures, e))
  {
  }

  lemma {:induction false} LocalRunTracks(c: Config, s: Local, failures: seq<real>, es: seq<Event>)
    requires c.Valid() && LocalTracks(c, s, failures)
    ensures LocalTracks(c, LocalRun(c, s, es).0, LocalFailures(c, failures, es))
    decreases es
  {
    if es != [] {
      LocalStepTracks(c, s, failures, es[0]);
      LocalRunTracks(c, LocalStep(c, s, es[0]).0, LocalNoted(c, failures, es[0]), es[1..]);
    }
  }

  /**
   After every run, a failure leaves the in-process breaker open if and only if it is at
   least the `threshold`-th since the last success or the last recovery, however far apart
   they are.
   */
  lemma LocalFailureOpensIff(c: Config, es: seq<Event>, now: real)
    requires c.Valid()
    ensures LocalFailure(c, LocalRun(c, LOCAL_START, es).0, now).open <==> 1 + |LocalFailures(c, [], es)| >= c.threshold
  {
    LocalRunTracks(c, LOCAL_START, [], es);
  }

  /** The breaker is open and its timeout is over. */
  predicate LocalRecoveryDue(c: Config, s: Local, now: real) {
    s.open && now - s.lastFailure > c.recovery
  }

  /**
   There is no half-open state here: the query that ends the timeout closes the breaker, so
   every caller after it is let through until `threshold` new failures are in.
   */
  lemma LocalRecoveryAdmitsAll(c: Config, s: Local, probe: real, es: seq<Event>)
    requires c.Valid() && LocalRecoveryDue(c, s, probe) && HasNo(RecordSuccess, es) && FailuresIn(es) < c.threshold
    ensures
      var (s1, open) := LocalIsOpen(c, s, probe);
      !open && AllQueriesAnswered(es, LocalRun(c, s1, es).1, false)
  {
    ClosedAnswers(c, LocalIsOpen(c, s, probe).0, es);
  }

  function FailuresIn(es: seq<Event>): nat {
    if es == [] then 0 else (if es[0].op == RecordFailure then 1 else 0) + FailuresIn(es[1..])
  }

  lemma {:induction false} ClosedAnswers(c: Config, s: Local, es: seq<Event>)
    requires c.Valid() && !s.open && 0 <= s.failures && HasNo(RecordSuccess, es) && s.failures + FailuresIn(es) < c.threshold
    ensures
      var (s', answers) := LocalRun(c, s, es);
      AllQueriesAnswered(es, answers, false) && !s'.open && s'.failures == s.failures + FailuresIn(es)
    decreases es
  {
    if es != [] {
      var s1 := LocalStep(c, s, es[0]).0;
      ClosedAnswers(c, s1, es[1..]);
      var answers := LocalRun(c, s, es).1;
      assert answers[1..] == LocalRun(c, s1, es[1..]).1;
      forall k | 0 <= k < |es| && es[k].op == Query ensures answers[k] == Some(false) {
        if k > 0 {
          assert es[1..][k - 1].op == Query && answers[1..][k - 1] == Some(false);
        }
      }
    }
  }

  /** So a failed probe opens it again, as documented, if and only if one failure is enough. */
  lemma LocalProbeReopensIff(c: Config, s: Local, probe: real, failed: real)
    requires c.Valid() && LocalRecoveryDue(c, s, probe)
    ensures
      var (s1, open) := LocalIsOpen(c, s, probe);
      !open && (LocalFailure(c, s1, failed).open <==> c.threshold == 1)
  {
  }

  /** In Redis it always does, while the half-open state lasts. */
  lemma RedisProbeReopens(c: Config, es: seq<Event>, probe: real, failed: real)
    requires c.Valid() && c.Lasting() && Monotone(es, 0.0) && End(es, 0.0) <= probe <= failed < probe + c.HalfOpenFor()
    requires RecoveryDue(c, RedisRun(c, KEYS_START, es).0, probe)
    ensures
      var (s1, open) := RedisIsOpen(c, RedisRun(c, KEYS_START, es).0, probe);
      !open && RedisFailure(c, s1, failed).state == Held("open", At(failed + c.OpenFor()))
  {
  }
}
