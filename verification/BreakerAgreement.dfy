/**
 When the in-process breaker and the Redis breaker give the same answers: a simulation
 through key expiry, and runs showing that neither of its timing conditions is idle.
 */
module BreakerAgreement {
  import opened Wrappers
  import opened Redis
  import opened Breaker
  import opened BreakerTimeouts

  /** The failures since the last success and the time of the latest one. */
  datatype History = History(count: nat, last: real)

  function Recorded(h: History, e: Event): History {
    match e.op
    case Query => h
    case RecordSuccess => History(0, h.last)
    case RecordFailure => History(h.count + 1, e.at)
  }

  /**
   Failures with no success between them are less than `gap` apart, and a query after
   `threshold` of them comes within `late` of the last.
   */
  predicate Within(c: Config, gap: real, late: real, h: History, es: seq<Event>)
    decreases es
  {
    es != [] ==>
      && (es[0].op == RecordFailure && h.count > 0 ==> es[0].at - h.last < gap)
      && (es[0].op == Query && h.count >= c.threshold ==> es[0].at - h.last <= late)
      && Within(c, gap, late, Recorded(h, es[0]), es[1..])
  }

  /** Bounds under which no key expires too soon; a threshold of one needs no live counter. */
  predicate Calm(c: Config, gap: real, late: real) {
    late <= c.recovery && (c.threshold == 1 || gap <= c.CountFor())
  }

  /** The Redis counter may have started again where one failure is enough. */
  ghost predicate Counted(c: Config, h: History, r: Keys) {
    && r.failures.Held? && 1 <= r.failures.value && r.failures.expiry == At(h.last + c.CountFor())
    && (c.threshold > 1 ==> r.failures.value == h.count)
  }

  ghost predicate Similar(c: Config, h: History, l: Local, r: Keys) {
    && l.failures == h.count && r.probeLock == Gone
    && (l.open <==> h.count >= c.threshold)
    && (h.count == 0 ==> r.failures == Gone)
    && (h.count > 0 ==> l.lastFailure == h.last && Counted(c, h, r) && r.lastFail == Held(h.last, Never))
    && (if h.count >= c.threshold then r.state == Held("open", At(h.last + c.OpenFor()))
        else r.state == Gone || r.state == Held("closed", Never))
  }

  lemma StepSimilar(c: Config, gap: real, late: real, h: History, l: Local, r: Keys, e: Event)
    requires c.Valid() && c.Lasting() && Calm(c, gap, late) && Similar(c, h, l, r) && Within(c, gap, late, h, [e])
    requires h.count > 0 ==> h.last <= e.at
    ensures
      var (l', a) := LocalStep(c, l, e);
      var (r', b) := RedisStep(c, r, e);
      a == b && Similar(c, Recorded(h, e), l', r')
  {
    WholeSeconds(c);
  }

  lemma {:induction false} RunSimilar(c: Config, gap: real, late: real, h: History, l: Local, r: Keys, from: real, es: seq<Event>)
    requires c.Valid() && c.Lasting() && Calm(c, gap, late)
    requires Similar(c, h, l, r) && Within(c, gap, late, h, es) && Monotone(es, from)
    requires h.count > 0 ==> h.last <= from
    ensures LocalRun(c, l, es).1 == RedisRun(c, r, es).1
    decreases es
  {
    if es != [] {
      assert [es[0]][1..] == [] && Within(c, gap, late, h, [es[0]]);
      StepSimilar(c, gap, late, h, l, r, es[0]);
      RunSimilar(c, gap, late, Recorded(h, es[0]), LocalStep(c, l, es[0]).0, RedisStep(c, r, es[0]).0, es[0].at, es[1..]);
    }
  }

  const FRESH := History(0, 0.0)

  /** On every such run from a fresh start the two backends answer every query alike. */
  ghost predicate AgreeWithin(c: Config, gap: real, late: real) {
    forall es: seq<Event> | Monotone(es, 0.0) && Within(c, gap, late, FRESH, es) ::
      LocalRun(c, LOCAL_START, es).1 == RedisRun(c, KEYS_START, es).1
  }

  lemma BackendsAgree(c: Config, gap: real, late: real)
    requires c.Valid() && c.Lasting() && Calm(c, gap, late)
    ensures AgreeWithin(c, gap, late)
  {
    forall es: seq<Event> | Monotone(es, 0.0) && Within(c, gap, late, FRESH, es)
      ensures LocalRun(c, LOCAL_START, es).1 == RedisRun(c, KEYS_START, es).1
    {
      RunSimilar(c, gap, late, FRESH, LOCAL_START, KEYS_START, 0.0, es);
    }
  }

  // ---- Beyond those bounds they differ ----

  function Failures(at: real, n: nat): seq<Event> {
    seq(n, _ => Event(RecordFailure, at))
  }

  function Silent(n: nat): seq<Answer> {
    seq(n, _ => None)
  }

  lemma RunCons(c: Config, l: Local, r: Keys, e: Event, es: seq<Event>)
    ensures LocalRun(c, l, [e] + es).1 == [LocalStep(c, l, e).1] + LocalRun(c, LocalStep(c, l, e).0, es).1
    ensures RedisRun(c, r, [e] + es).1 == [RedisStep(c, r, e).1] + RedisRun(c, RedisStep(c, r, e).0, es).1
  {
    assert ([e] + es)[1..] == es;
  }

  lemma FirstFailureSimilar(c: Config, h: History, l: Local, r: Keys)
    requires c.Valid() && c.Lasting() && Similar(c, h, l, r) && (h.count > 0 ==> h.last == 0.0)
    ensures
      var e := Event(RecordFailure, 0.0);
      && Similar(c, History(h.count + 1, 0.0), LocalStep(c, l, e).0, RedisStep(c, r, e).0)
      && LocalStep(c, l, e).1 == RedisStep(c, r, e).1 == None
  {
    WholeSeconds(c);
    var e := Event(RecordFailure, 0.0);
    assert Within(c, c.CountFor(), c.recovery, h, [e]) by {
      assert [e][1..] == [];
    }
    StepSimilar(c, c.CountFor(), c.recovery, h, l, r, e);
  }

  lemma FailuresCons(n: nat, rest: seq<Event>)
    requires n > 0
    ensures Failures(0.0, n) + rest == [Event(RecordFailure, 0.0)] + (Failures(0.0, n - 1) + rest)
    ensures Silent(n) == [None] + Silent(n - 1)
  {
  }

  lemma SilentCons(n: nat, answers: seq<Answer>)
    requires n > 0
    ensures Silent(n) + answers == [None] + (Silent(n - 1) + answers)
  {
  }

  /** `n` failures at the start leave two similar breakers, whatever follows. */
  lemma {:induction false} FailuresSimilar(c: Config, n: nat, h: History, l: Local, r: Keys, rest: seq<Event>)
    returns (l': Local, r': Keys)
    requires c.Valid() && c.Lasting() && Similar(c, h, l, r) && (h.count > 0 ==> h.last == 0.0)
    ensures Similar(c, History(h.count + n, if n > 0 then 0.0 else h.last), l', r')
    ensures LocalRun(c, l, Failures(0.0, n) + rest).1 == Silent(n) + LocalRun(c, l', rest).1
    ensures RedisRun(c, r, Failures(0.0, n) + rest).1 == Silent(n) + RedisRun(c, r', rest).1
    decreases n
  {
    if n == 0 {
      assert Failures(0.0, n) + rest == rest;
      l', r' := l, r;
      NothingSilent(LocalRun(c, l, rest).1);
      NothingSilent(RedisRun(c, r, rest).1);
    } else {
      var e := Event(RecordFailure, 0.0);
      FailuresCons(n, rest);
      RunCons(c, l, r, e, Failures(0.0, n - 1) + rest);
      FirstFailureSimilar(c, h, l, r);
      l', r' := FailuresSimilar(c, n - 1, Recorded(h, e), LocalStep(c, l, e).0, RedisStep(c, r, e).0, rest);
      SilentCons(n, LocalRun(c, l', rest).1);
      SilentCons(n, RedisRun(c, r', rest).1);
    }
  }

  lemma NothingSilent(answers: seq<Answer>)
    ensures Silent(0) + answers == answers
  {
  }

  lemma {:induction false} FailuresWithin(c: Config, gap: real, late: real, n: nat, h: History, rest: seq<Event>)
    requires 0.0 < gap && (h.count > 0 ==> h.last == 0.0)
    requires Within(c, gap, late, History(h.count + n, if n > 0 then 0.0 else h.last), rest)
    ensures Within(c, gap, late, h, Failures(0.0, n) + rest)
    decreases n
  {
    if n == 0 {
      assert Failures(0.0, n) + rest == rest;
    } else {
      var e, later := Event(RecordFailure, 0.0), Failures(0.0, n - 1) + rest;
      FailuresCons(n, rest);
      assert ([e] + later)[1..] == later;
      FailuresWithin(c, gap, late, n - 1, Recorded(h, e), rest);
    }
  }

  lemma {:induction false} FailuresMonotone(n: nat, rest: seq<Event>)
    requires Monotone(rest, 0.0)
    ensures Monotone(Failures(0.0, n) + rest, 0.0)
    decreases n
  {
    if n == 0 {
      assert Failures(0.0, n) + rest == rest;
    } else {
      var e, later := Event(RecordFailure, 0.0), Failures(0.0, n - 1) + rest;
      FailuresCons(n, rest);
      assert ([e] + later)[1..] == later;
      FailuresMonotone(n - 1, rest);
    }
  }

  /**
   Failures `int(3R)` or more apart: one short of the threshold, the Redis counter
   expires and its breaker stays closed, while the in-process one opens.
   */
  lemma SparseFailuresDiffer(c: Config, gap: real)
    requires c.Valid() && c.Lasting() && 2 <= c.threshold && c.CountFor() <= gap
    ensures
      var es := Failures(0.0, c.threshold - 1) + [Event(RecordFailure, gap), Event(Query, gap)];
      && LocalRun(c, LOCAL_START, es).1 == Silent(c.threshold) + [Some(true)]
      && RedisRun(c, KEYS_START, es).1 == Silent(c.threshold) + [Some(false)]
  {
    var f, q := Event(RecordFailure, gap), Event(Query, gap);
    var l, r := FailuresSimilar(c, c.threshold - 1, FRESH, LOCAL_START, KEYS_START, [f, q]);
    WholeSeconds(c);
    assert [f, q] == [f] + [q] && [q] == [q] + [];
    RunCons(c, l, r, f, [q]);
    RunCons(c, LocalStep(c, l, f).0, RedisStep(c, r, f).0, q, []);
    assert Silent(c.threshold) == Silent(c.threshold - 1) + [None];
  }

  /**
   Queries after the recovery timeout: the in-process breaker has closed for good, the
   Redis breaker is half-open and turns the third caller away.
   */
  lemma LateQueriesDiffer(c: Config, late: real)
    requires c.Valid() && c.Lasting() && c.recovery < late < c.OpenFor()
    ensures
      var q := Event(Query, late);
      var es := Failures(0.0, c.threshold) + [q, q, q];
      && LocalRun(c, LOCAL_START, es).1 == Silent(c.threshold) + [Some(false), Some(false), Some(false)]
      && RedisRun(c, KEYS_START, es).1 == Silent(c.threshold) + [Some(false), Some(false), Some(true)]
  {
    var q := Event(Query, late);
    var l, r := FailuresSimilar(c, c.threshold, FRESH, LOCAL_START, KEYS_START, [q, q, q]);
    WholeSeconds(c);
    assert [q, q, q] == [q] + [q, q] && [q, q] == [q] + [q] && [q] == [q] + [];
    RunCons(c, l, r, q, [q, q]);
    var l1, r1 := LocalStep(c, l, q).0, RedisStep(c, r, q).0;
    RunCons(c, l1, r1, q, [q]);
    RunCons(c, LocalStep(c, l1, q).0, RedisStep(c, r1, q).0, q, []);
  }

  lemma SparseWithin(c: Config, gap: real, late: real)
    requires c.Valid() && c.Lasting() && 2 <= c.threshold && c.CountFor() < gap && 0.0 <= late
    ensures !AgreeWithin(c, gap, late)
  {
    var t := c.CountFor();
    var f, q := Event(RecordFailure, t), Event(Query, t);
    var es := Failures(0.0, c.threshold - 1) + [f, q];
    WholeSeconds(c);
    assert [f, q][1..] == [q] && [q][1..] == [];
    FailuresWithin(c, gap, late, c.threshold - 1, FRESH, [f, q]);
    FailuresMonotone(c.threshold - 1, [f, q]);
    SparseFailuresDiffer(c, t);
    AnswersDiffer(c, es, Silent(c.threshold), [Some(true)], [Some(false)]);
  }

  lemma LateWithin(c: Config, gap: real, late: real)
    requires c.Valid() && c.Lasting() && 0.0 < gap && c.recovery < late
    ensures !AgreeWithin(c, gap, late)
  {
    WholeSeconds(c);
    var t := if late < c.OpenFor() then late else (c.recovery + c.OpenFor()) / 2.0;
    var q := Event(Query, t);
    var es := Failures(0.0, c.threshold) + [q, q, q];
    assert [q, q, q][1..] == [q, q] && [q, q][1..] == [q] && [q][1..] == [];
    var h := History(c.threshold, 0.0);
    assert Within(c, gap, late, h, [q]) && Monotone([q], t);
    assert Within(c, gap, late, h, [q, q]) && Monotone([q, q], t);
    assert Within(c, gap, late, h, [q, q, q]) && Monotone([q, q, q], 0.0);
    FailuresWithin(c, gap, late, c.threshold, FRESH, [q, q, q]);
    FailuresMonotone(c.threshold, [q, q, q]);
    LateQueriesDiffer(c, t);
    AnswersDiffer(c, es, Silent(c.threshold), [Some(false), Some(false), Some(false)], [Some(false), Some(false), Some(true)]);
  }

  lemma AnswersDiffer(c: Config, es: seq<Event>, silent: seq<Answer>, a: seq<Answer>, b: seq<Answer>)
    requires LocalRun(c, LOCAL_START, es).1 == silent + a && RedisRun(c, KEYS_START, es).1 == silent + b
    requires |a| == |b| > 0 && a[|a| - 1] != b[|b| - 1]
    ensures LocalRun(c, LOCAL_START, es).1 != RedisRun(c, KEYS_START, es).1
  {
    assert (silent + a)[|silent| + |a| - 1] != (silent + b)[|silent| + |b| - 1];
  }

  /**
   The exact boundary: on all runs with failures less than `gap` apart and open queries
   within `late` of the last failure the backends agree, if and only if `late` is at most
   `R` and, unless one failure opens the breaker, `gap` at most `int(3R)`.
   */
  lemma BackendsAgreeIff(c: Config, gap: real, late: real)
    requires c.Valid() && c.Lasting() && 0.0 < gap && 0.0 <= late
    ensures AgreeWithin(c, gap, late) <==> Calm(c, gap, late)
  {
    if Calm(c, gap, late) {
      BackendsAgree(c, gap, late);
    } else if c.recovery < late {
      LateWithin(c, gap, late);
    } else {
      SparseWithin(c, gap, late);
    }
  }
}
