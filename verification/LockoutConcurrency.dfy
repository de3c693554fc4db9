/**
 Parallel logins for one email.  A login suspends between the lock check and what it
 records, so a run is any interleaving of checks and endings.
 */
module LockoutConcurrency {
  import opened Wrappers
  import opened Redis
  import opened Chains
  import opened Lockout

  /** The email's counter, the failures recorded since it was last cleared, and the logins past their check. */
  datatype System = System(cell: Cell<int>, failures: seq<real>, inFlight: nat)

  const START := System(Gone, [], 0)

  datatype Action =
    | Check(at: real)    // the lock check; a login that passes it is in flight
    | Fail(at: real)     // one in flight finds the password wrong and records it
    | Succeed(at: real)  // one in flight succeeds and clears the counter
    | Leave(at: real)    // one in flight ends without either: unknown email, disabled account, broken off

  predicate Possible(logins: nat, s: System, a: Action) {
    if a.Check? then s.inFlight < logins else s.inFlight > 0
  }

  function Act(p: Policy, s: System, a: Action): System
    requires !a.Check? ==> s.inFlight > 0
  {
    match a
    case Check(at) => if IsLocked(p, s.cell, at) then s else s.(inFlight := s.inFlight + 1)
    case Fail(at) => System(Recorded(p, s.cell, at), s.failures + [at], s.inFlight - 1)
    case Succeed(at) => System(Gone, [], s.inFlight - 1)
    case Leave(at) => s.(inFlight := s.inFlight - 1)
  }

  /** Runs with at most `logins` logins past their check at any time, on a clock that never goes back. */
  ghost predicate Reaches(p: Policy, logins: nat, s: System, from: real, actions: seq<Action>, s': System, to: real)
    decreases actions
  {
    if actions == [] then s == s' && from == to
    else
      && Possible(logins, s, actions[0]) && from <= actions[0].at
      && Reaches(p, logins, Act(p, s, actions[0]), actions[0].at, actions[1..], s', to)
  }

  /** What `logins` parallel logins may come to. */
  function Cap(p: Policy, logins: nat): int {
    p.maxFailed - 1 + logins
  }

  /** When each failure was recorded, the chain it ended was within the cap. */
  ghost predicate Capped(p: Policy, logins: nat, failures: seq<real>) {
    forall j | 0 <= j < |failures| :: 1 + Chain(p.seconds, failures[..j], failures[j]) <= Cap(p, logins)
  }

  /** Unlocked, or with room in the chain for every login that is past its check. */
  ghost predicate Bounded(p: Policy, logins: nat, s: System, now: real) {
    var chain := Chain(p.seconds, s.failures, now);
    && s.cell == Counter(p.seconds, s.failures) && Ordered(s.failures, now) && Capped(p, logins, s.failures)
    && s.inFlight <= logins && (chain < p.maxFailed || chain + s.inFlight <= Cap(p, logins))
  }

  lemma CappedSnoc(p: Policy, logins: nat, failures: seq<real>, at: real)
    requires Capped(p, logins, failures) && 1 + Chain(p.seconds, failures, at) <= Cap(p, logins)
    ensures Capped(p, logins, failures + [at])
  {
    var failures' := failures + [at];
    forall j | 0 <= j < |failures'| ensures 1 + Chain(p.seconds, failures'[..j], failures'[j]) <= Cap(p, logins) {
      assert failures'[..j] == failures[..j];
      assert j == |failures| ==> failures[..j] == failures;
    }
  }

  /** As time passes a chain breaks or stays. */
  lemma ChainLater(span: real, times: seq<real>, from: real, now: real)
    requires from <= now
    ensures Chain(span, times, now) == 0 || Chain(span, times, now) == Chain(span, times, from)
  {
  }

  lemma LaterBounded(p: Policy, logins: nat, s: System, from: real, now: real)
    requires p.Valid() && Bounded(p, logins, s, from) && from <= now
    ensures Bounded(p, logins, s, now)
  {
    ChainLater(p.seconds, s.failures, from, now);
  }

  lemma FailBounded(p: Policy, logins: nat, s: System, at: real)
    requires p.Valid() && Bounded(p, logins, s, at) && s.inFlight > 0
    ensures Bounded(p, logins, Act(p, s, Fail(at)), at)
  {
    CounterNext(p.seconds, s.failures, at);
    ChainSnoc(p.seconds, s.failures, at, at);
    CappedSnoc(p, logins, s.failures, at);
    OrderedSnoc(s.failures, at, at);
  }

  lemma ActBounded(p: Policy, logins: nat, s: System, from: real, a: Action)
    requires p.Valid() && Bounded(p, logins, s, from) && Possible(logins, s, a) && from <= a.at
    ensures Bounded(p, logins, Act(p, s, a), a.at)
  {
    LaterBounded(p, logins, s, from, a.at);
    match a
    case Check(at) => CounterReads(p.seconds, s.failures, at);
    case Fail(at) => FailBounded(p, logins, s, at);
    case _ =>
  }

  lemma {:induction false} RunBounded(p: Policy, logins: nat, s: System, from: real, actions: seq<Action>, s': System, to: real)
    requires p.Valid() && Bounded(p, logins, s, from) && Reaches(p, logins, s, from, actions, s', to)
    ensures Bounded(p, logins, s', to)
    decreases actions
  {
    if actions != [] {
      ActBounded(p, logins, s, from, actions[0]);
      RunBounded(p, logins, Act(p, s, actions[0]), actions[0].at, actions[1..], s', to);
    }
  }

  /**
   In every interleaving of at most `logins` logins at a time, with no success between, no
   window shorter than the lockout time holds more than `maxFailed - 1 + logins` recorded
   failures. One at a time that is `maxFailed`.
   */
  lemma ConcurrentWindowBound(p: Policy, logins: nat, actions: seq<Action>, s: System, to: real, i: nat, j: nat)
    requires p.Valid() && Reaches(p, logins, START, 0.0, actions, s, to)
    requires i <= j < |s.failures| && s.failures[j] - s.failures[i] < p.seconds
    ensures j - i + 1 <= Cap(p, logins)
  {
    RunBounded(p, logins, START, 0.0, actions, s, to);
    if i < j {
      assert s.failures[..j][i] == s.failures[i];
      ChainCoversWindow(p.seconds, s.failures[..j], i, s.failures[j]);
    }
  }

  /** Under the configured policy: at most 4 and the logins in flight, in any window shorter than a quarter of an hour. */
  lemma ConfiguredWindowBound(logins: nat, actions: seq<Action>, s: System, to: real, i: nat, j: nat)
    requires Reaches(DEFAULT_POLICY, logins, START, 0.0, actions, s, to)
    requires i <= j < |s.failures| && s.failures[j] - s.failures[i] < 900.0
    ensures j - i + 1 <= 4 + logins
  {
    ConcurrentWindowBound(DEFAULT_POLICY, logins, actions, s, to, i, j);
  }

  // ---- The bound is reached ----

  lemma {:induction false} Compose(p: Policy, logins: nat, s0: System, t0: real, xs: seq<Action>, s1: System, t1: real,
                                   ys: seq<Action>, s2: System, t2: real)
    requires Reaches(p, logins, s0, t0, xs, s1, t1) && Reaches(p, logins, s1, t1, ys, s2, t2)
    ensures Reaches(p, logins, s0, t0, xs + ys, s2, t2)
    decreases xs
  {
    if xs == [] {
      assert xs + ys == ys;
    } else {
      assert (xs + ys)[1..] == xs[1..] + ys;
      Compose(p, logins, Act(p, s0, xs[0]), xs[0].at, xs[1..], s1, t1, ys, s2, t2);
    }
  }

  lemma Prepend(p: Policy, logins: nat, s: System, from: real, a: Action, rest: seq<Action>, s': System, to: real)
    requires Possible(logins, s, a) && from <= a.at && Reaches(p, logins, Act(p, s, a), a.at, rest, s', to)
    ensures Reaches(p, logins, s, from, [a] + rest, s', to)
  {
    assert ([a] + rest)[1..] == rest;
  }

  /** `n` failures at time zero, and the counter they leave. */
  function Zeros(n: nat): seq<real> {
    seq(n, _ => 0.0)
  }

  ghost predicate AtZero(p: Policy, s: System, failures: nat, inFlight: nat) {
    s.cell == Counter(p.seconds, Zeros(failures)) && s.failures == Zeros(failures) && s.inFlight == inFlight
  }

  lemma {:induction false} ZerosChain(p: Policy, n: nat)
    requires p.Valid()
    ensures Chain(p.seconds, Zeros(n), 0.0) == n
    decreases n
  {
    if n > 0 {
      ZerosChain(p, n - 1);
      assert Zeros(n) == Zeros(n - 1) + [0.0];
      ChainSnoc(p.seconds, Zeros(n - 1), 0.0, 0.0);
    }
  }

  lemma FailAtZero(p: Policy, s: System, failures: nat, inFlight: nat)
    requires p.Valid() && AtZero(p, s, failures, inFlight + 1)
    ensures AtZero(p, Act(p, s, Fail(0.0)), failures + 1, inFlight)
  {
    assert Zeros(failures + 1) == Zeros(failures) + [0.0];
    CounterNext(p.seconds, Zeros(failures), 0.0);
  }

  lemma CheckAtZero(p: Policy, s: System, failures: nat, inFlight: nat)
    requires p.Valid() && AtZero(p, s, failures, inFlight) && failures < p.maxFailed
    ensures AtZero(p, Act(p, s, Check(0.0)), failures, inFlight + 1)
  {
    ZerosChain(p, failures);
    CounterReads(p.seconds, Zeros(failures), 0.0);
  }

  /** Logins one at a time, until one more failure would lock. */
  lemma {:induction false} WarmUp(p: Policy, logins: nat, s: System, failures: nat, n: nat) returns (actions: seq<Action>, s': System)
    requires p.Valid() && logins > 0 && AtZero(p, s, failures, 0) && failures + n < p.maxFailed
    ensures Reaches(p, logins, s, 0.0, actions, s', 0.0) && AtZero(p, s', failures + n, 0)
    decreases n
  {
    if n == 0 {
      return [], s;
    }
    var s1 := Act(p, s, Check(0.0));
    CheckAtZero(p, s, failures, 0);
    var s2 := Act(p, s1, Fail(0.0));
    FailAtZero(p, s1, failures, 0);
    var rest;
    rest, s' := WarmUp(p, logins, s2, failures + 1, n - 1);
    actions := [Check(0.0)] + ([Fail(0.0)] + rest);
    Prepend(p, logins, s1, 0.0, Fail(0.0), rest, s', 0.0);
    Prepend(p, logins, s, 0.0, Check(0.0), [Fail(0.0)] + rest, s', 0.0);
  }

  /** As many checks as may be in flight, all passed. */
  lemma {:induction false} Fill(p: Policy, logins: nat, s: System, failures: nat) returns (actions: seq<Action>, s': System)
    requires p.Valid() && failures < p.maxFailed && s.inFlight <= logins && AtZero(p, s, failures, s.inFlight)
    ensures Reaches(p, logins, s, 0.0, actions, s', 0.0) && AtZero(p, s', failures, logins)
    decreases logins - s.inFlight
  {
    if s.inFlight == logins {
      return [], s;
    }
    CheckAtZero(p, s, failures, s.inFlight);
    var s1 := Act(p, s, Check(0.0));
    var rest;
    rest, s' := Fill(p, logins, s1, failures);
    actions := [Check(0.0)] + rest;
    Prepend(p, logins, s, 0.0, Check(0.0), rest, s', 0.0);
  }

  /** All of them fail. */
  lemma {:induction false} Drain(p: Policy, logins: nat, s: System, failures: nat, n: nat) returns (actions: seq<Action>, s': System)
    requires p.Valid() && AtZero(p, s, failures, n)
    ensures Reaches(p, logins, s, 0.0, actions, s', 0.0) && AtZero(p, s', failures + n, 0)
    decreases n
  {
    actions, s' := [], s;
    if n > 0 {
      var s1 := Act(p, s, Fail(0.0));
      FailAtZero(p, s, failures, n - 1);
      var rest;
      rest, s' := Drain(p, logins, s1, failures + 1, n - 1);
      actions := [Fail(0.0)] + rest;
      Prepend(p, logins, s, 0.0, Fail(0.0), rest, s', 0.0);
    }
  }

  /** For every policy and number of logins some interleaving records that many failures in a window of no length. */
  lemma ConcurrentWindowBoundReached(p: Policy, logins: nat) returns (actions: seq<Action>, s: System)
    requires p.Valid() && logins > 0
    ensures Reaches(p, logins, START, 0.0, actions, s, 0.0)
    ensures |s.failures| == Cap(p, logins) && forall i | 0 <= i < |s.failures| :: s.failures[i] == 0.0
  {
    assert Zeros(0) == [];
    var xs, s1 := WarmUp(p, logins, START, 0, p.maxFailed - 1);
    var ys, s2 := Fill(p, logins, s1, p.maxFailed - 1);
    var zs, s3 := Drain(p, logins, s2, p.maxFailed - 1, logins);
    Compose(p, logins, START, 0.0, xs, s1, 0.0, ys, s2, 0.0);
    Compose(p, logins, START, 0.0, xs + ys, s2, 0.0, zs, s3, 0.0);
    actions, s := xs + ys + zs, s3;
  }

  // ---- One at a time ----

  /** The steps of a login that nobody interrupts. */
  function Steps(p: Policy, s: System, a: Attempt): seq<Action> {
    if IsLocked(p, s.cell, a.at) then [Check(a.at)]
    else [Check(a.at)] + [if !a.userExists then Leave(a.at)
                          else if !a.passwordOk then Fail(a.at)
                          else if !a.isActive then Leave(a.at)
                          else Succeed(a.at)]
  }

  /** They do to the counter what the login as a whole does. */
  lemma LoginIsItsSteps(p: Policy, s: System, a: Attempt, from: real) returns (s': System)
    requires s.inFlight == 0 && from <= a.at
    ensures Reaches(p, 1, s, from, Steps(p, s, a), s', a.at)
    ensures s'.cell == LoginStep(p, s.cell, a).0 && s'.inFlight == 0
  {
    var steps := Steps(p, s, a);
    var s1 := Act(p, s, Check(a.at));
    if IsLocked(p, s.cell, a.at) {
      s' := s1;
      assert steps[1..] == [];
    } else {
      s' := Act(p, s1, steps[1]);
      assert steps[1..] == [steps[1]] && [steps[1]][1..] == [];
      assert Reaches(p, 1, s1, a.at, [steps[1]], s', a.at);
    }
  }
}
