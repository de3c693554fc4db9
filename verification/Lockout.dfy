/** Account lockout: a counter with a sliding expiry, and the login that consults it. */
module Lockout {
  import opened Wrappers
  import opened Redis

  const MAX_FAILED_LOGIN_ATTEMPTS := 5
  const ACCOUNT_LOCKOUT_SECONDS := 900.0

  datatype Policy = Policy(maxFailed: int, seconds: real) {
    predicate Valid() { 1 <= maxFailed && 0.0 < seconds }
  }

  const DEFAULT_POLICY := Policy(MAX_FAILED_LOGIN_ATTEMPTS, ACCOUNT_LOCKOUT_SECONDS)

  /** What the user table and the password check say of one login request. */
  datatype Attempt = Attempt(at: real, userExists: bool, passwordOk: bool, isActive: bool)

  datatype Response = Locked | InvalidCredentials | AccountDisabled | Tokens

  predicate IsLocked(p: Policy, cell: Cell<int>, now: real) {
    cell.Live(now) && cell.value >= p.maxFailed
  }

  function Recorded(p: Policy, cell: Cell<int>, now: real): Cell<int> {
    Expire(Incr(cell, now), now + p.seconds)
  }

  /** A wrong password for a known user is recorded; only a full success clears. */
  function LoginStep(p: Policy, cell: Cell<int>, a: Attempt): (Cell<int>, Response) {
    if IsLocked(p, cell, a.at) then (cell, Locked)
    else if !a.userExists then (cell, InvalidCredentials)
    else if !a.passwordOk then (Recorded(p, cell, a.at), InvalidCredentials)
    else if !a.isActive then (cell, AccountDisabled)
    else (Gone, Tokens)
  }

  function CounterKey(email: string): string { "failed_login:" + email }

  lemma CounterKeysInjective()
    ensures forall e, f :: CounterKey(e) == CounterKey(f) ==> e == f
  {
    forall e, f | CounterKey(e) == CounterKey(f) ensures e == f {
      assert e == CounterKey(e)[13..] && f == CounterKey(f)[13..];
    }
  }

  class Auth {
    const policy: Policy
    const redis: Server

    constructor (policy: Policy, redis: Server)
      ensures this.policy == policy && this.redis == redis
    {
      this.policy := policy;
      this.redis := redis;
    }

    ghost function CellOf(email: string): Cell<int>
      reads redis
    {
      Lookup(redis.counters, CounterKey(email))
    }

    method RecordFailedLogin(email: string, now: real) returns (count: int)
      modifies redis`counters
      ensures CellOf(email) == Recorded(policy, old(CellOf(email)), now)
      ensures count == CellOf(email).value
      ensures forall e | e != email :: CellOf(e) == old(CellOf(e))
    {
      CounterKeysInjective();
      var key := CounterKey(email);
      var counter := Incr(Lookup(redis.counters, key), now);
      redis.counters := redis.counters[key := Expire(counter, now + policy.seconds)];
      count := counter.value;
    }

    method IsAccountLocked(email: string, now: real) returns (locked: bool)
      ensures locked <==> IsLocked(policy, CellOf(email), now)
    {
      var count := Lookup(redis.counters, CounterKey(email)).Get(now);
      locked := count.Some? && count.value >= policy.maxFailed;
    }

    method ClearFailedLogins(email: string)
      modifies redis`counters
      ensures CellOf(email) == Gone
      ensures forall e | e != email :: CellOf(e) == old(CellOf(e))
    {
      CounterKeysInjective();
      redis.counters := redis.counters - {CounterKey(email)};
    }

    method Login(email: string, a: Attempt) returns (response: Response)
      modifies redis`counters
      ensures (CellOf(email), response) == LoginStep(policy, old(CellOf(email)), a)
      ensures forall e | e != email :: CellOf(e) == old(CellOf(e))
    {
      var locked := IsAccountLocked(email, a.at);
      if locked {
        return Locked;
      }
      if !a.userExists || !a.passwordOk {
        if a.userExists {
          var _ := RecordFailedLogin(email, a.at);
        }
        return InvalidCredentials;
      }
      if !a.isActive {
        return AccountDisabled;
      }
      ClearFailedLogins(email);
      return Tokens;
    }
  }
}

/** What the lockout guarantees over every run of logins for one email, one at a time. */
module LockoutLaw {
  import opened Wrappers
  import opened Redis
  import opened Lockout
  import opened Chains

  predicate Monotone(attempts: seq<Attempt>, from: real) {
    attempts != [] ==> from <= attempts[0].at && Monotone(attempts[1..], attempts[0].at)
  }

  /** The failures recorded since the last successful login. */
  function FailuresAfter(failures: seq<real>, a: Attempt, response: Response): seq<real> {
    if response == Tokens then []
    else if response == InvalidCredentials && a.userExists then failures + [a.at]
    else failures
  }

  datatype Outcome = Outcome(cell: Cell<int>, failures: seq<real>, responses: seq<Response>)

  function Run(p: Policy, cell: Cell<int>, failures: seq<real>, attempts: seq<Attempt>): Outcome
    decreases attempts
  {
    if attempts == [] then Outcome(cell, failures, [])
    else
      var (cell1, response) := LoginStep(p, cell, attempts[0]);
      var rest := Run(p, cell1, FailuresAfter(failures, attempts[0], response), attempts[1..]);
      Outcome(rest.cell, rest.failures, [response] + rest.responses)
  }

  function End(attempts: seq<Attempt>, from: real): real {
    if attempts == [] then from else attempts[|attempts| - 1].at
  }

  /** The stored counter is the chain of the failures, and each was recorded while unlocked. */
  ghost predicate Tracks(p: Policy, cell: Cell<int>, failures: seq<real>, now: real) {
    && Ordered(failures, now)
    && cell == Counter(p.seconds, failures)
    && RecordedUnlocked(p, failures)
  }

  /** Each failure was recorded while the chain before it was short of the limit. */
  ghost predicate RecordedUnlocked(p: Policy, failures: seq<real>) {
    forall j | 0 <= j < |failures| :: Chain(p.seconds, failures[..j], failures[j]) < p.maxFailed
  }

  lemma RecordedUnlockedSnoc(p: Policy, failures: seq<real>, now: real)
    requires RecordedUnlocked(p, failures) && Chain(p.seconds, failures, now) < p.maxFailed
    ensures RecordedUnlocked(p, failures + [now])
  {
    var failures' := failures + [now];
    forall j | 0 <= j < |failures'| ensures Chain(p.seconds, failures'[..j], failures'[j]) < p.maxFailed {
      assert failures'[..j] == failures[..j];
      assert j == |failures| ==> failures[..j] == failures;
    }
  }

  lemma RecordTracks(p: Policy, cell: Cell<int>, failures: seq<real>, from: real, now: real)
    requires p.Valid() && Tracks(p, cell, failures, from) && from <= now && !IsLocked(p, cell, now)
    ensures Tracks(p, Recorded(p, cell, now), failures + [now], now)
  {
    CounterReads(p.seconds, failures, now);
    RecordedUnlockedSnoc(p, failures, now);
    CounterNext(p.seconds, failures, now);
    OrderedSnoc(failures, from, now);
  }

  lemma TracksLater(p: Policy, cell: Cell<int>, failures: seq<real>, from: real, now: real)
    requires Tracks(p, cell, failures, from) && from <= now
    ensures Tracks(p, cell, failures, now)
  {
  }

  lemma NothingTracks(p: Policy, now: real)
    ensures Tracks(p, Gone, [], now)
  {
  }

  lemma StepTracks(p: Policy, cell: Cell<int>, failures: seq<real>, from: real, a: Attempt)
    requires p.Valid() && Tracks(p, cell, failures, from) && from <= a.at
    ensures
      var (cell', response) := LoginStep(p, cell, a);
      Tracks(p, cell', FailuresAfter(failures, a, response), a.at)
  {
    if !IsLocked(p, cell, a.at) && a.userExists && !a.passwordOk {
      RecordTracks(p, cell, failures, from, a.at);
    } else if LoginStep(p, cell, a).1 == Tokens {
      NothingTracks(p, a.at);
    } else {
      TracksLater(p, cell, failures, from, a.at);
    }
  }

  lemma {:induction false} RunTracks(p: Policy, cell: Cell<int>, failures: seq<real>, from: real, attempts: seq<Attempt>)
    requires p.Valid() && Tracks(p, cell, failures, from) && Monotone(attempts, from)
    ensures
      var o := Run(p, cell, failures, attempts);
      Tracks(p, o.cell, o.failures, End(attempts, from))
    decreases attempts
  {
    if attempts != [] {
      StepTracks(p, cell, failures, from, attempts[0]);
      var (cell1, response) := LoginStep(p, cell, attempts[0]);
      RunTracks(p, cell1, FailuresAfter(failures, attempts[0], response), attempts[0].at, attempts[1..]);
    }
  }

  /**
   After every run, an account is locked exactly while its latest failures form a chain,
   each less than the lockout time after the one before, of at least the permitted number.
   */
  lemma LockedIffChain(p: Policy, attempts: seq<Attempt>, now: real)
    requires p.Valid() && Monotone(attempts, 0.0) && End(attempts, 0.0) <= now
    ensures
      var o := Run(p, Gone, [], attempts);
      IsLocked(p, o.cell, now) <==> Chain(p.seconds, o.failures, now) >= p.maxFailed
  {
    RunTracks(p, Gone, [], 0.0, attempts);
    var o := Run(p, Gone, [], attempts);
    CounterReads(p.seconds, o.failures, now);
  }

  /**
   With no successful login between, no window shorter than the lockout time holds more
   than the permitted number of recorded failures.
   */
  lemma WindowBound(p: Policy, attempts: seq<Attempt>, i: nat, j: nat)
    requires p.Valid() && Monotone(attempts, 0.0)
    requires
      var failures := Run(p, Gone, [], attempts).failures;
      i <= j < |failures| && failures[j] - failures[i] < p.seconds
    ensures j - i + 1 <= p.maxFailed
  {
    RunTracks(p, Gone, [], 0.0, attempts);
    var failures := Run(p, Gone, [], attempts).failures;
    if i < j {
      assert failures[..j][i] == failures[i];
      ChainCoversWindow(p.seconds, failures[..j], i, failures[j]);
    }
  }

  /**
   A locked account answers every login with a refusal, records none of them, and opens
   again exactly when the lockout time since the last recorded failure is over.
   */
  lemma {:induction false} LockLastsUntilDeadline(p: Policy, cell: Cell<int>, failures: seq<real>, from: real,
                                                    deadline: real, attempts: seq<Attempt>)
    requires cell.Held? && cell.value >= p.maxFailed && cell.expiry == At(deadline) && Monotone(attempts, from)
    requires End(attempts, from) < deadline
    ensures
      var o := Run(p, cell, failures, attempts);
      && o.cell == cell && o.failures == failures
      && |o.responses| == |attempts| && (forall k | 0 <= k < |attempts| :: o.responses[k] == Locked)
    ensures forall now :: now >= deadline ==> !IsLocked(p, cell, now)
    decreases attempts
  {
    if attempts != [] {
      FirstBeforeEnd(attempts, from);
      LockLastsUntilDeadline(p, cell, failures, attempts[0].at, deadline, attempts[1..]);
    }
  }

  lemma {:induction false} FirstBeforeEnd(attempts: seq<Attempt>, from: real)
    requires Monotone(attempts, from)
    ensures from <= End(attempts, from)
    ensures attempts != [] ==> attempts[0].at <= End(attempts, from) == End(attempts[1..], attempts[0].at)
    decreases attempts
  {
    if attempts != [] {
      FirstBeforeEnd(attempts[1..], attempts[0].at);
    }
  }

  /**
   When each answer is given, after every run. The password of a locked account is not
   looked at, and that an account is disabled is told only to who knows its password.
   */
  lemma AnswersIff(p: Policy, attempts: seq<Attempt>, a: Attempt)
    requires p.Valid() && Monotone(attempts, 0.0) && End(attempts, 0.0) <= a.at
    ensures
      var o := Run(p, Gone, [], attempts);
      var response := LoginStep(p, o.cell, a).1;
      var locked := Chain(p.seconds, o.failures, a.at) >= p.maxFailed;
      var known := a.userExists && a.passwordOk;
      && (response == Locked <==> locked)
      && (response == InvalidCredentials <==> !locked && !known)
      && (response == AccountDisabled <==> !locked && known && !a.isActive)
      && (response == Tokens <==> !locked && known && a.isActive)
  {
    LockedIffChain(p, attempts, a.at);
  }
}
