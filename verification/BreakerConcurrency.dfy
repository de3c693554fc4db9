/**
 Concurrent wrapped calls to one provider over the in-process breaker.  The event loop
 runs each breaker method without suspension, so a run is any interleaving of admissions,
 attempt outcomes and admin requests.
 */
module BreakerConcurrency {
  import opened Wrappers
  import opened Breaker
  import opened Retry

  datatype Action =
    | Arrive(at: real)                                  // a wrapped call asks the breaker
    | Finish(call: nat, outcome: Outcome, at: real)     // an attempt of a call in flight ends
    | Health(at: real)                                  // an admin health query
    | Enable                                            // an admin closes the breaker

  /** The breaker and, for each call in flight, the attempts it has left. */
  datatype System = System(breaker: Local, inFlight: seq<nat>)

  const START := System(LOCAL_START, [])

  function Without<T>(xs: seq<T>, i: nat): seq<T>
    requires i < |xs|
  {
    xs[..i] + xs[i + 1..]
  }

  predicate Possible(calls: nat, s: System, a: Action) {
    match a
    case Arrive(_) => |s.inFlight| < calls
    case Finish(call, _, _) => call < |s.inFlight| && s.inFlight[call] > 0
    case _ => true
  }

  function Act(c: Config, maxRetries: nat, s: System, a: Action): System
    requires a.Finish? ==> a.call < |s.inFlight| && s.inFlight[a.call] > 0
  {
    match a
    case Arrive(at) =>
      var (breaker, open) := LocalIsOpen(c, s.breaker, at);
      System(breaker, if open then s.inFlight else s.inFlight + [maxRetries + 1])
    case Finish(call, outcome, at) =>
      if Transient(outcome) then
        var left := s.inFlight[call] - 1;
        System(LocalFailure(c, s.breaker, at),
               if left == 0 then Without(s.inFlight, call) else s.inFlight[call := left])
      else
        System(if outcome.Returned? then LocalSuccess(s.breaker) else s.breaker, Without(s.inFlight, call))
    case Health(at) =>
      s.(breaker := LocalIsOpen(c, s.breaker, at).0)
    case Enable =>
      s.(breaker := LocalSuccess(s.breaker))
  }

  /** Runs with at most `calls` wrapped calls in flight at any time. */
  ghost predicate Reaches(c: Config, maxRetries: nat, calls: nat, s: System, actions: seq<Action>, s': System)
    decreases actions
  {
    if actions == [] then s == s'
    else
      && Possible(calls, s, actions[0])
      && Reaches(c, maxRetries, calls, Act(c, maxRetries, s, actions[0]), actions[1..], s')
  }

  function Total(xs: seq<nat>): nat {
    if xs == [] then 0 else xs[0] + Total(xs[1..])
  }

  lemma {:induction false} TotalAppend(xs: seq<nat>, ys: seq<nat>)
    ensures Total(xs + ys) == Total(xs) + Total(ys)
    decreases xs
  {
    if xs == [] {
      assert xs + ys == ys;
    } else {
      assert (xs + ys)[1..] == xs[1..] + ys;
      TotalAppend(xs[1..], ys);
    }
  }

  lemma TotalChange(xs: seq<nat>, i: nat, x: nat)
    requires i < |xs|
    ensures Total(xs[i := x]) == Total(xs) - xs[i] + x
    ensures Total(Without(xs, i)) == Total(xs) - xs[i]
  {
    assert xs == xs[..i] + ([xs[i]] + xs[i + 1..]);
    assert xs[i := x] == xs[..i] + ([x] + xs[i + 1..]);
    assert ([x] + xs[i + 1..])[1..] == xs[i + 1..] == ([xs[i]] + xs[i + 1..])[1..];
    TotalAppend(xs[..i], [xs[i]] + xs[i + 1..]);
    TotalAppend(xs[..i], [x] + xs[i + 1..]);
    TotalAppend(xs[..i], xs[i + 1..]);
  }

  /** The attempts that `calls` calls may make. */
  function Allowance(calls: nat, maxRetries: nat): nat {
    calls * (maxRetries + 1)
  }

  lemma {:induction false} TotalWithin(xs: seq<nat>, calls: nat, maxRetries: nat)
    requires |xs| <= calls && forall i | 0 <= i < |xs| :: xs[i] <= maxRetries + 1
    ensures Total(xs) <= Allowance(calls, maxRetries)
    decreases xs
  {
    if xs != [] {
      TotalWithin(xs[1..], calls - 1, maxRetries);
      assert Allowance(calls, maxRetries) == Allowance(calls - 1, maxRetries) + (maxRetries + 1);
    }
  }

  ghost predicate Bounded(c: Config, maxRetries: nat, calls: nat, s: System) {
    && |s.inFlight| <= calls
    && (forall i | 0 <= i < |s.inFlight| :: 1 <= s.inFlight[i] <= maxRetries + 1)
    && 0 <= s.breaker.failures
    && (s.breaker.open <==> s.breaker.failures >= c.threshold)
    && (s.breaker.open ==> s.breaker.failures + Total(s.inFlight) <= c.threshold - 1 + Allowance(calls, maxRetries))
  }

  lemma ArriveBounded(c: Config, maxRetries: nat, calls: nat, s: System, a: Action)
    requires c.Valid() && Bounded(c, maxRetries, calls, s) && Possible(calls, s, a) && a.Arrive?
    ensures Bounded(c, maxRetries, calls, Act(c, maxRetries, s, a))
  {
    var s' := Act(c, maxRetries, s, a);
    if !s'.breaker.open {
      assert s'.inFlight == s.inFlight + [maxRetries + 1];
    }
  }

  lemma FailBounded(c: Config, maxRetries: nat, calls: nat, s: System, a: Action)
    requires c.Valid() && Bounded(c, maxRetries, calls, s) && Possible(calls, s, a)
    requires a.Finish? && Transient(a.outcome)
    ensures Bounded(c, maxRetries, calls, Act(c, maxRetries, s, a))
  {
    var left := s.inFlight[a.call] - 1;
    TotalWithin(s.inFlight, calls, maxRetries);
    TotalChange(s.inFlight, a.call, left);
    assert Total(Act(c, maxRetries, s, a).inFlight) == Total(s.inFlight) - 1;
  }

  lemma EndBounded(c: Config, maxRetries: nat, calls: nat, s: System, a: Action)
    requires c.Valid() && Bounded(c, maxRetries, calls, s) && Possible(calls, s, a)
    requires a.Finish? && !Transient(a.outcome)
    ensures Bounded(c, maxRetries, calls, Act(c, maxRetries, s, a))
  {
    TotalChange(s.inFlight, a.call, 0);
  }

  lemma ActBounded(c: Config, maxRetries: nat, calls: nat, s: System, a: Action)
    requires c.Valid() && Bounded(c, maxRetries, calls, s) && Possible(calls, s, a)
    ensures Bounded(c, maxRetries, calls, Act(c, maxRetries, s, a))
  {
    match a
    case Arrive(_) => ArriveBounded(c, maxRetries, calls, s, a);
    case Finish(_, outcome, _) =>
      if Transient(outcome) {
        FailBounded(c, maxRetries, calls, s, a);
      } else {
        EndBounded(c, maxRetries, calls, s, a);
      }
    case _ =>
  }

  lemma {:induction false} RunBounded(c: Config, maxRetries: nat, calls: nat, s: System, actions: seq<Action>, s': System)
    requires c.Valid() && Bounded(c, maxRetries, calls, s) && Reaches(c, maxRetries, calls, s, actions, s')
    ensures Bounded(c, maxRetries, calls, s')
    decreases actions
  {
    if actions != [] {
      ActBounded(c, maxRetries, calls, s, actions[0]);
      RunBounded(c, maxRetries, calls, Act(c, maxRetries, s, actions[0]), actions[1..], s');
    }
  }

  /**
   In every interleaving with at most `calls` calls in flight, the failure counter never
   passes `threshold - 1 + calls * (maxRetries + 1)`, and is below the threshold exactly
   while the breaker is closed.
   */
  lemma ConcurrentFailureBound(c: Config, maxRetries: nat, calls: nat, actions: seq<Action>, s: System)
    requires c.Valid() && Reaches(c, maxRetries, calls, START, actions, s)
    ensures 0 <= s.breaker.failures <= c.threshold - 1 + Allowance(calls, maxRetries)
    ensures s.breaker.open <==> s.breaker.failures >= c.threshold
  {
    RunBounded(c, maxRetries, calls, START, actions, s);
  }

  // ---- The bound is reached ----

  /** All that has a time happens at time zero, so the clock does not go back. */
  predicate AllAtZero(actions: seq<Action>) {
    forall a <- actions :: match a
      case Arrive(at) => at == 0.0
      case Finish(_, _, at) => at == 0.0
      case Health(at) => at == 0.0
      case Enable => true
  }

  lemma {:induction false} Compose(c: Config, maxRetries: nat, calls: nat,
                                     s0: System, xs: seq<Action>, s1: System, ys: seq<Action>, s2: System)
    requires Reaches(c, maxRetries, calls, s0, xs, s1) && Reaches(c, maxRetries, calls, s1, ys, s2)
    ensures Reaches(c, maxRetries, calls, s0, xs + ys, s2)
    decreases xs
  {
    if xs == [] {
      assert xs + ys == ys;
    } else {
      assert (xs + ys)[1..] == xs[1..] + ys;
      Compose(c, maxRetries, calls, Act(c, maxRetries, s0, xs[0]), xs[1..], s1, ys, s2);
    }
  }

  lemma One(c: Config, maxRetries: nat, calls: nat, s: System, a: Action)
    requires Possible(calls, s, a)
    ensures Reaches(c, maxRetries, calls, s, [a], Act(c, maxRetries, s, a))
  {
    assert [a][1..] == [];
  }

  /** A closed breaker and no call in flight: single calls fail once each, then give up. */
  lemma {:induction false} WarmUp(c: Config, maxRetries: nat, calls: nat, s: System, n: nat) returns (actions: seq<Action>, s': System)
    requires calls > 0 && s.inFlight == [] && !s.breaker.open && s.breaker.failures + n < c.threshold
    ensures AllAtZero(actions)
    ensures Reaches(c, maxRetries, calls, s, actions, s')
    ensures s'.inFlight == [] && !s'.breaker.open && s'.breaker.failures == s.breaker.failures + n
    decreases n
  {
    if n == 0 {
      return [], s;
    }
    var arrive, fail, giveUp := Arrive(0.0), Finish(0, OtherError(""), 0.0), Finish(0, RaisedUnavailable, 0.0);
    var s1 := Act(c, maxRetries, s, arrive);
    var s2 := Act(c, maxRetries, s1, fail);
    One(c, maxRetries, calls, s, arrive);
    One(c, maxRetries, calls, s1, fail);
    var once := [arrive, fail];
    var s3 := s2;
    if maxRetries > 0 {
      once, s3 := [arrive, fail, giveUp], Act(c, maxRetries, s2, giveUp);
      One(c, maxRetries, calls, s2, giveUp);
      Compose(c, maxRetries, calls, s1, [fail], s2, [giveUp], s3);
      Compose(c, maxRetries, calls, s, [arrive], s1, [fail] + [giveUp], s3);
      assert once == [arrive] + ([fail] + [giveUp]);
    } else {
      Compose(c, maxRetries, calls, s, [arrive], s1, [fail], s2);
      assert once == [arrive] + [fail];
    }
    var rest;
    rest, s' := WarmUp(c, maxRetries, calls, s3, n - 1);
    Compose(c, maxRetries, calls, s, once, s3, rest, s');
    actions := once + rest;
  }

  lemma {:induction false} Fill(c: Config, maxRetries: nat, calls: nat, s: System) returns (actions: seq<Action>, s': System)
    requires |s.inFlight| <= calls && !s.breaker.open
    requires Total(s.inFlight) == Allowance(|s.inFlight|, maxRetries) && forall i | 0 <= i < |s.inFlight| :: s.inFlight[i] > 0
    ensures AllAtZero(actions)
    ensures Reaches(c, maxRetries, calls, s, actions, s')
    ensures s'.breaker == s.breaker && |s'.inFlight| == calls
    ensures Total(s'.inFlight) == Allowance(calls, maxRetries) && forall i | 0 <= i < |s'.inFlight| :: s'.inFlight[i] > 0
    decreases calls - |s.inFlight|
  {
    if |s.inFlight| == calls {
      return [], s;
    }
    var s1 := Act(c, maxRetries, s, Arrive(0.0));
    TotalAppend(s.inFlight, [maxRetries + 1]);
    assert Allowance(|s.inFlight| + 1, maxRetries) == Allowance(|s.inFlight|, maxRetries) + (maxRetries + 1);
    var rest;
    rest, s' := Fill(c, maxRetries, calls, s1);
    actions := [Arrive(0.0)] + rest;
    assert actions[1..] == rest;
  }

  lemma {:induction false} Drain(c: Config, maxRetries: nat, calls: nat, s: System) returns (actions: seq<Action>, s': System)
    requires forall i | 0 <= i < |s.inFlight| :: s.inFlight[i] > 0
    ensures AllAtZero(actions)
    ensures Reaches(c, maxRetries, calls, s, actions, s')
    ensures s'.breaker.failures == s.breaker.failures + Total(s.inFlight)
    decreases Total(s.inFlight)
  {
    if s.inFlight == [] {
      return [], s;
    }
    var fail := Finish(0, OtherError(""), 0.0);
    var s1 := Act(c, maxRetries, s, fail);
    TotalChange(s.inFlight, 0, s.inFlight[0] - 1);
    var rest;
    rest, s' := Drain(c, maxRetries, calls, s1);
    actions := [fail] + rest;
    assert actions[1..] == rest;
  }

  /** For every configuration some interleaving drives the counter exactly to the bound. */
  lemma ConcurrentFailureBoundReached(c: Config, maxRetries: nat, calls: nat) returns (actions: seq<Action>, s: System)
    requires c.Valid() && calls > 0
    ensures AllAtZero(actions)
    ensures Reaches(c, maxRetries, calls, START, actions, s)
    ensures s.breaker.failures == c.threshold - 1 + Allowance(calls, maxRetries)
  {
    var xs, s1 := WarmUp(c, maxRetries, calls, START, c.threshold - 1);
    var ys, s2 := Fill(c, maxRetries, calls, s1);
    var zs, s3 := Drain(c, maxRetries, calls, s2);
    Compose(c, maxRetries, calls, START, xs, s1, ys, s2);
    Compose(c, maxRetries, calls, START, xs + ys, s2, zs, s3);
    actions, s := xs + ys + zs, s3;
  }

  // ---- What the actions are ----

  /** How one call's attempts end, from number `k` on. */
  function StepsOf(attempts: seq<Attempt>, k: nat, maxRetries: nat): seq<Action>
    requires k <= maxRetries < |attempts|
    decreases maxRetries - k
  {
    var a := attempts[k];
    [Finish(0, a.outcome, a.at)] + if Transient(a.outcome) && k < maxRetries then StepsOf(attempts, k + 1, maxRetries) else []
  }

  lemma RetriedStep(c: Config, maxRetries: nat, b: Local, attempts: seq<Attempt>, k: nat, backoffBase: real)
    requires k < maxRetries < |attempts| && Transient(attempts[k].outcome)
    ensures
      var a := attempts[k];
      var log, rest := Attempts(attempts, k, maxRetries, backoffBase).log, Attempts(attempts, k + 1, maxRetries, backoffBase).log;
      var b' := LocalFailure(c, b, a.at);
      && Act(c, maxRetries, System(b, [maxRetries + 1 - k]), Finish(0, a.outcome, a.at)) == System(b', [maxRetries - k])
      && LocalRun(c, b, log).0 == LocalRun(c, b', rest).0
  {
    var a := attempts[k];
    var log, rest := Attempts(attempts, k, maxRetries, backoffBase).log, Attempts(attempts, k + 1, maxRetries, backoffBase).log;
    assert log == [Event(RecordFailure, a.at)] + rest && log[1..] == rest;
  }

  lemma EndedStep(c: Config, maxRetries: nat, b: Local, attempts: seq<Attempt>, k: nat, backoffBase: real)
    requires k <= maxRetries < |attempts| && (Transient(attempts[k].outcome) ==> k == maxRetries)
    ensures
      var a, log := attempts[k], Attempts(attempts, k, maxRetries, backoffBase).log;
      Act(c, maxRetries, System(b, [maxRetries + 1 - k]), Finish(0, a.outcome, a.at)) == System(LocalRun(c, b, log).0, [])
  {
    var a, log := attempts[k], Attempts(attempts, k, maxRetries, backoffBase).log;
    if |log| > 0 {
      var b' := LocalStep(c, b, log[0]).0;
      assert log[1..] == [] && LocalRun(c, b', []) == (b', []);
    }
    assert Without([maxRetries + 1 - k], 0) == [];
  }

  lemma {:induction false} AttemptsAreSteps(c: Config, maxRetries: nat, b: Local, attempts: seq<Attempt>, k: nat, backoffBase: real)
    requires k <= maxRetries < |attempts|
    ensures
      var log := Attempts(attempts, k, maxRetries, backoffBase).log;
      Reaches(c, maxRetries, 1, System(b, [maxRetries + 1 - k]), StepsOf(attempts, k, maxRetries), System(LocalRun(c, b, log).0, []))
    decreases maxRetries - k
  {
    var a, s := attempts[k], System(b, [maxRetries + 1 - k]);
    if Transient(a.outcome) && k < maxRetries {
      RetriedStep(c, maxRetries, b, attempts, k, backoffBase);
      AttemptsAreSteps(c, maxRetries, LocalFailure(c, b, a.at), attempts, k + 1, backoffBase);
      assert StepsOf(attempts, k, maxRetries)[1..] == StepsOf(attempts, k + 1, maxRetries);
    } else {
      EndedStep(c, maxRetries, b, attempts, k, backoffBase);
      One(c, maxRetries, 1, s, Finish(0, a.outcome, a.at));
    }
  }

  /** A call that is admitted and has the breaker to itself leaves it as the wrapper's own records do. */
  lemma CallIsItsSteps(c: Config, maxRetries: nat, b: Local, arrival: real, attempts: seq<Attempt>, backoffBase: real)
    requires maxRetries < |attempts| && !LocalIsOpen(c, b, arrival).1
    ensures
      var log := Attempts(attempts, 0, maxRetries, backoffBase).log;
      Reaches(c, maxRetries, 1, System(b, []), [Arrive(arrival)] + StepsOf(attempts, 0, maxRetries),
              System(LocalRun(c, LocalIsOpen(c, b, arrival).0, log).0, []))
  {
    var b' := LocalIsOpen(c, b, arrival).0;
    AttemptsAreSteps(c, maxRetries, b', attempts, 0, backoffBase);
    assert ([Arrive(arrival)] + StepsOf(attempts, 0, maxRetries))[1..] == StepsOf(attempts, 0, maxRetries);
    assert Act(c, maxRetries, System(b, []), Arrive(arrival)) == System(b', [maxRetries + 1]);
  }

  /** A health query changes the breaker as an arrival does, so it ends a timeout that is over; it lets no call in. */
  lemma HealthIsAQuery(c: Config, maxRetries: nat, s: System, at: real)
    ensures Act(c, maxRetries, s, Health(at)) == Act(c, maxRetries, s, Arrive(at)).(inFlight := s.inFlight)
  {
  }

  /** After an admin has enabled the provider the next call is admitted and failures are counted from zero. */
  lemma EnabledAdmits(c: Config, maxRetries: nat, s: System, at: real)
    ensures
      var s' := Act(c, maxRetries, Act(c, maxRetries, s, Enable), Arrive(at));
      s'.inFlight == s.inFlight + [maxRetries + 1] && s'.breaker.failures == 0 && !s'.breaker.open
  {
  }
}
