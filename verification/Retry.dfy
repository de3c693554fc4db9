/** The retry wrapper around one provider call: attempts, breaker records and backoff. */
module Retry {
  import opened Wrappers
  import opened Breaker
  import opened BreakerService

  const RETRYABLE_STATUS: set<int> := {408, 425, 429, 500, 502, 503, 504}

  /** What one invocation of the wrapped function comes to. */
  datatype Outcome =
    | Returned(value: string)
    | RaisedUnavailable
    | HttpStatusError(code: int)
    | OtherError(message: string)

  /**
   The outcome of an attempt, when it came, the random draw of its jitter, and what other
   callers of the provider did to its breaker since the call's own last record.
   */
  datatype Attempt = Attempt(outcome: Outcome, at: real, draw: real, others: seq<Event>)

  datatype CallResult =
    | Value(value: string)
    | Unavailable
    | ClientError(code: int)
    | Exhausted(last: Outcome)

  /** The call's result, its own records, its sleeps, and all that the breaker saw meanwhile. */
  datatype Trace = Trace(result: CallResult, log: seq<Event>, sleeps: seq<real>, seen: seq<Event>)

  /** Transient errors are recorded and retried; the rest end the call unrecorded. */
  predicate Transient(o: Outcome) {
    match o
    case HttpStatusError(code) => code in RETRYABLE_STATUS
    case OtherError(_) => true
    case _ => false
  }

  function Pow2(n: nat): real {
    if n == 0 then 1.0 else 2.0 * Pow2(n - 1)
  }

  /** `backoff_base * 2**attempt`. */
  function Base(backoffBase: real, attempt: nat): real {
    backoffBase * Pow2(attempt)
  }

  function Jitter(baseWait: real, draw: real): real {
    draw * (baseWait * 0.5)
  }

  /** The base wait with up to half of it again as jitter. */
  function Wait(backoffBase: real, attempt: nat, draw: real): real {
    var baseWait := Base(backoffBase, attempt);
    baseWait + Jitter(baseWait, draw)
  }

  function Final(o: Outcome): CallResult
    requires !Transient(o)
  {
    match o
    case Returned(v) => Value(v)
    case RaisedUnavailable => Unavailable
    case HttpStatusError(code) => ClientError(code)
  }

  /** The attempts from number `k` on, of `maxRetries + 1`. */
  function Attempts(attempts: seq<Attempt>, k: nat, maxRetries: nat, backoffBase: real): Trace
    requires k <= maxRetries < |attempts|
    decreases maxRetries - k
  {
    var a := attempts[k];
    if Transient(a.outcome) then
      var failure := Event(RecordFailure, a.at);
      if k < maxRetries then
        var rest := Attempts(attempts, k + 1, maxRetries, backoffBase);
        Trace(rest.result, [failure] + rest.log, [Wait(backoffBase, k, a.draw)] + rest.sleeps, a.others + [failure] + rest.seen)
      else
        Trace(Exhausted(a.outcome), [failure], [], a.others + [failure])
    else
      var own := if a.outcome.Returned? then [Event(RecordSuccess, a.at)] else [];
      Trace(Final(a.outcome), own, [], a.others + own)
  }

  /** A loop at attempt `k` has collected the part of the trace before it. */
  ghost predicate Continues(attempts: seq<Attempt>, k: nat, maxRetries: nat, backoffBase: real,
                            log: seq<Event>, sleeps: seq<real>, seen: seq<Event>, lastError: Outcome)
    requires k <= maxRetries + 1 <= |attempts|
  {
    Attempts(attempts, 0, maxRetries, backoffBase) ==
      if k <= maxRetries then
        var rest := Attempts(attempts, k, maxRetries, backoffBase);
        Trace(rest.result, log + rest.log, sleeps + rest.sleeps, seen + rest.seen)
      else
        Trace(Exhausted(lastError), log, sleeps, seen)
  }

  lemma Joined<T>(a: seq<T>, b: seq<T>, c: seq<T>)
    ensures a + (b + c) == (a + b) + c && a + [] == a
  {
  }

  lemma ContinuesNext(attempts: seq<Attempt>, k: nat, maxRetries: nat, backoffBase: real,
                      log: seq<Event>, sleeps: seq<real>, seen: seq<Event>, lastError: Outcome)
    requires k <= maxRetries < |attempts| && Transient(attempts[k].outcome)
    requires Continues(attempts, k, maxRetries, backoffBase, log, sleeps, seen, lastError)
    ensures
      var a := attempts[k];
      var failure := Event(RecordFailure, a.at);
      Continues(attempts, k + 1, maxRetries, backoffBase, log + [failure],
                if k < maxRetries then sleeps + [Wait(backoffBase, k, a.draw)] else sleeps,
                (seen + a.others) + [failure], a.outcome)
  {
    var a := attempts[k];
    var failure := Event(RecordFailure, a.at);
    Joined(seen, a.others, [failure]);
    if k < maxRetries {
      var rest := Attempts(attempts, k + 1, maxRetries, backoffBase);
      Joined(log, [failure], rest.log);
      Joined(sleeps, [Wait(backoffBase, k, a.draw)], rest.sleeps);
      Joined(seen, a.others + [failure], rest.seen);
    } else {
      Joined(sleeps, [], []);
    }
  }

  lemma ContinuesEnds(attempts: seq<Attempt>, k: nat, maxRetries: nat, backoffBase: real,
                      log: seq<Event>, sleeps: seq<real>, seen: seq<Event>, lastError: Outcome)
    requires k <= maxRetries < |attempts| && !Transient(attempts[k].outcome)
    requires Continues(attempts, k, maxRetries, backoffBase, log, sleeps, seen, lastError)
    ensures
      var a := attempts[k];
      var own := if a.outcome.Returned? then [Event(RecordSuccess, a.at)] else [];
      Attempts(attempts, 0, maxRetries, backoffBase) == Trace(Final(a.outcome), log + own, sleeps, (seen + a.others) + own)
  {
    var a := attempts[k];
    Joined(seen, a.others, if a.outcome.Returned? then [Event(RecordSuccess, a.at)] else []);
    Joined(sleeps, [], []);
  }

  /** What other callers do to the provider's breaker while this call is suspended. */
  method OthersAct(breaker: CircuitBreaker, provider: string, others: seq<Event>)
    requires breaker.redis != null ==> breaker.config.Lasting()
    modifies breaker, breaker.redis
    ensures breaker.redis == old(breaker.redis)
    ensures breaker.StateOf(provider) == Run(breaker.config, old(breaker.StateOf(provider)), others)
    ensures forall q | q != provider :: breaker.StateOf(q) == old(breaker.StateOf(q))
  {
    ghost var before := breaker.StateOf(provider);
    for i := 0 to |others|
      invariant breaker.redis == old(breaker.redis)
      invariant breaker.StateOf(provider) == Run(breaker.config, before, others[..i])
      invariant forall q | q != provider :: breaker.StateOf(q) == old(breaker.StateOf(q))
    {
      var e := others[i];
      match e.op {
        case Query => var _ := breaker.IsOpen(provider, e.at);
        case RecordSuccess => breaker.RecordSuccess(provider, e.at);
        case RecordFailure => breaker.RecordFailure(provider, e.at);
      }
      RunSnoc(breaker.config, before, others[..i], e);
      assert others[..i + 1] == others[..i] + [e];
    }
    assert others[..|others|] == others;
  }

  /**
   The wrapper: one query of the breaker, then the attempt loop.  `attempts` is what the
   provider would answer and when, with what other callers do in between.
   */
  method WithRetry(breaker: CircuitBreaker, provider: string, arrival: real,
                   attempts: seq<Attempt>, maxRetries: nat, backoffBase: real)
    returns (trace: Trace)
    requires (breaker.redis != null ==> breaker.config.Lasting()) && maxRetries < |attempts|
    modifies breaker, breaker.redis
    ensures breaker.redis == old(breaker.redis)
    ensures
      var (s, open) := Step(breaker.config, old(breaker.StateOf(provider)), Event(Query, arrival));
      && trace == (if open == Some(true) then Trace(Unavailable, [], [], []) else Attempts(attempts, 0, maxRetries, backoffBase))
      && breaker.StateOf(provider) == Run(breaker.config, s, trace.seen)
    ensures forall q | q != provider :: breaker.StateOf(q) == old(breaker.StateOf(q))
  {
    var open := breaker.IsOpen(provider, arrival);
    ghost var admitted := breaker.StateOf(provider);
    if open {
      return Trace(Unavailable, [], [], []);
    }

    var log: seq<Event>, sleeps: seq<real>, seen: seq<Event> := [], [], [];
    var lastError := attempts[0].outcome;
    for attempt := 0 to maxRetries + 1
      invariant breaker.redis == old(breaker.redis)
      invariant breaker.StateOf(provider) == Run(breaker.config, admitted, seen)
      invariant forall q | q != provider :: breaker.StateOf(q) == old(breaker.StateOf(q))
      invariant Continues(attempts, attempt, maxRetries, backoffBase, log, sleeps, seen, lastError)
    {
      var a := attempts[attempt];
      if !Transient(a.outcome) {
        ContinuesEnds(attempts, attempt, maxRetries, backoffBase, log, sleeps, seen, lastError);
      } else {
        ContinuesNext(attempts, attempt, maxRetries, backoffBase, log, sleeps, seen, lastError);
      }
      OthersAct(breaker, provider, a.others);
      RunJoins(breaker.config, admitted, seen, a.others);
      seen := seen + a.others;
      match a.outcome {
        case Returned(value) =>
          breaker.RecordSuccess(provider, a.at);
          RunSnoc(breaker.config, admitted, seen, Event(RecordSuccess, a.at));
          return Trace(Value(value), log + [Event(RecordSuccess, a.at)], sleeps, seen + [Event(RecordSuccess, a.at)]);
        case RaisedUnavailable =>
          Joined(log, [], []);
          Joined(seen, [], []);
          return Trace(Unavailable, log, sleeps, seen);
        case HttpStatusError(code) =>
          if code !in RETRYABLE_STATUS {
            Joined(log, [], []);
            Joined(seen, [], []);
            return Trace(ClientError(code), log, sleeps, seen);
          }
        case OtherError(_) =>
      }
      lastError := a.outcome;
      breaker.RecordFailure(provider, a.at);
      RunSnoc(breaker.config, admitted, seen, Event(RecordFailure, a.at));
      log, seen := log + [Event(RecordFailure, a.at)], seen + [Event(RecordFailure, a.at)];
      if attempt < maxRetries {
        sleeps := sleeps + [Wait(backoffBase, attempt, a.draw)];
      }
    }
    trace := Trace(Exhausted(lastError), log, sleeps, seen);
  }

  // ---- What the trace of a call looks like ----

  function Ops(log: seq<Event>): seq<Op> {
    seq(|log|, k requires 0 <= k < |log| => log[k].op)
  }

  function Repeat(op: Op, n: nat): seq<Op> {
    seq(n, _ => op)
  }

  /** The leading transient outcomes among the attempts the wrapper may make. */
  function TransientPrefix(attempts: seq<Attempt>, k: nat, maxRetries: nat): nat
    requires k <= maxRetries < |attempts|
    decreases maxRetries - k
  {
    if !Transient(attempts[k].outcome) then 0
    else if k == maxRetries then 1
    else 1 + TransientPrefix(attempts, k + 1, maxRetries)
  }

  /**
   The breaker gets `n` failures from the call, then at most one success: `n` is at most
   `maxRetries` when the call ends early and `maxRetries + 1` when it is exhausted.
   */
  lemma {:induction false} TraceShape(attempts: seq<Attempt>, k: nat, maxRetries: nat, backoffBase: real)
    requires k <= maxRetries < |attempts|
    ensures
      var t := Attempts(attempts, k, maxRetries, backoffBase);
      var n := TransientPrefix(attempts, k, maxRetries);
      && Ops(t.log) == Repeat(RecordFailure, n) + (if t.result.Value? then [RecordSuccess] else [])
      && (t.result.Exhausted? <==> n == maxRetries + 1 - k)
      && n <= maxRetries + 1 - k
      && (n <= maxRetries - k ==> !Transient(attempts[k + n].outcome) && t.result == Final(attempts[k + n].outcome))
    decreases maxRetries - k
  {
    var t := Attempts(attempts, k, maxRetries, backoffBase);
    if Transient(attempts[k].outcome) && k < maxRetries {
      TraceShape(attempts, k + 1, maxRetries, backoffBase);
      var rest := Attempts(attempts, k + 1, maxRetries, backoffBase);
      var n := TransientPrefix(attempts, k + 1, maxRetries);
      assert Ops(t.log) == [RecordFailure] + Ops(rest.log);
      assert Repeat(RecordFailure, n + 1) == [RecordFailure] + Repeat(RecordFailure, n);
      if n <= maxRetries - k - 1 {
        assert (k + 1) + n == k + (n + 1);
      }
    }
  }

  /** Each failure that may be retried is followed by one sleep, of its own attempt's wait. */
  lemma {:induction false} TraceSleeps(attempts: seq<Attempt>, k: nat, maxRetries: nat, backoffBase: real)
    requires k <= maxRetries < |attempts|
    ensures
      var t := Attempts(attempts, k, maxRetries, backoffBase);
      var n := TransientPrefix(attempts, k, maxRetries);
      && |t.sleeps| == (if n <= maxRetries - k then n else maxRetries - k)
      && forall i | 0 <= i < |t.sleeps| :: t.sleeps[i] == Wait(backoffBase, k + i, attempts[k + i].draw)
    decreases maxRetries - k
  {
    if Transient(attempts[k].outcome) && k < maxRetries {
      var t := Attempts(attempts, k, maxRetries, backoffBase);
      TraceSleeps(attempts, k + 1, maxRetries, backoffBase);
      var rest := Attempts(attempts, k + 1, maxRetries, backoffBase);
      forall i | 0 <= i < |t.sleeps| ensures t.sleeps[i] == Wait(backoffBase, k + i, attempts[k + i].draw) {
        if i > 0 {
          assert t.sleeps[i] == rest.sleeps[i - 1] && (k + 1) + (i - 1) == k + i;
        }
      }
    }
  }

  // ---- What each outcome does ----

  /** The statuses after which another try may help. */
  predicate MayPass(status: int) {
    || status == 408 || status == 425 || status == 429
    || status == 500 || status == 502 || status == 503 || status == 504
  }

  /** Attempt `k` records a failure, and unless it is the last one the attempts after it decide. */
  ghost predicate FailsAt(attempts: seq<Attempt>, k: nat, maxRetries: nat, backoffBase: real)
    requires k <= maxRetries < |attempts|
  {
    var t, a := Attempts(attempts, k, maxRetries, backoffBase), attempts[k];
    if k == maxRetries then
      t == Trace(Exhausted(a.outcome), [Event(RecordFailure, a.at)], [], a.others + [Event(RecordFailure, a.at)])
    else
      var rest := Attempts(attempts, k + 1, maxRetries, backoffBase);
      && t.result == rest.result && t.log == [Event(RecordFailure, a.at)] + rest.log
      && t.sleeps == [Wait(backoffBase, k, a.draw)] + rest.sleeps
      && t.seen == a.others + [Event(RecordFailure, a.at)] + rest.seen
  }

  /**
   An attempt that ends in a status ends the call, unrecorded, if and only if the status is
   none of the seven that may pass; otherwise a failure is recorded and the attempts after
   it decide.
   */
  lemma StatusDecides(attempts: seq<Attempt>, k: nat, maxRetries: nat, backoffBase: real, status: int)
    requires k <= maxRetries < |attempts| && attempts[k].outcome == HttpStatusError(status)
    ensures
      var t := Attempts(attempts, k, maxRetries, backoffBase);
      && (t.result == ClientError(status) && t.log == [] && t.sleeps == [] && t.seen == attempts[k].others
          <==> !MayPass(status))
      && (MayPass(status) ==> FailsAt(attempts, k, maxRetries, backoffBase))
  {
  }

  /** A value ends the call with one success, an open breaker underneath ends it unrecorded, any other error is tried again. */
  lemma OtherOutcomesDecide(attempts: seq<Attempt>, k: nat, maxRetries: nat, backoffBase: real)
    requires k <= maxRetries < |attempts|
    ensures
      var t, a := Attempts(attempts, k, maxRetries, backoffBase), attempts[k];
      match a.outcome
      case Returned(v) =>
        t == Trace(Value(v), [Event(RecordSuccess, a.at)], [], a.others + [Event(RecordSuccess, a.at)])
      case RaisedUnavailable => t.result == Unavailable && t.log == [] && t.sleeps == [] && t.seen == a.others
      case OtherError(_) => FailsAt(attempts, k, maxRetries, backoffBase)
      case HttpStatusError(_) => true
  {
  }

  /** The first retry waits the base and, by the draw, up to half of it again; each later one twice what the one before would. */
  lemma WaitsDouble(backoffBase: real, k: nat, draw: real)
    ensures Wait(backoffBase, 0, draw) == backoffBase + 0.5 * draw * backoffBase
    ensures Wait(backoffBase, k + 1, draw) == 2.0 * Wait(backoffBase, k, draw)
  {
    BaseDoubles(backoffBase, k);
    JitterDoubles(Base(backoffBase, k), draw);
    assert Jitter(backoffBase, draw) == 0.5 * draw * backoffBase;
  }

  lemma JitterDoubles(baseWait: real, draw: real)
    ensures Jitter(baseWait + baseWait, draw) == Jitter(baseWait, draw) + Jitter(baseWait, draw)
  {
  }

  /** Each record is made when its attempt ends, and an exhausted call reports its last outcome. */
  lemma {:induction false} TraceTimes(attempts: seq<Attempt>, k: nat, maxRetries: nat, backoffBase: real)
    requires k <= maxRetries < |attempts|
    ensures
      var t := Attempts(attempts, k, maxRetries, backoffBase);
      && |t.log| <= maxRetries + 1 - k
      && (forall i | 0 <= i < |t.log| :: t.log[i].at == attempts[k + i].at)
      && (t.result.Exhausted? ==> t.result.last == attempts[maxRetries].outcome)
    decreases maxRetries - k
  {
    if Transient(attempts[k].outcome) && k < maxRetries {
      TraceTimes(attempts, k + 1, maxRetries, backoffBase);
      var t := Attempts(attempts, k, maxRetries, backoffBase);
      var rest := Attempts(attempts, k + 1, maxRetries, backoffBase);
      forall i | 0 <= i < |t.log| ensures t.log[i].at == attempts[k + i].at {
        if i > 0 {
          assert t.log[i] == rest.log[i - 1] && (k + 1) + (i - 1) == k + i;
        }
      }
    }
  }

  /** With nobody else around the breaker sees the call's own records and nothing more. */
  lemma {:induction false} AloneSeesOwn(attempts: seq<Attempt>, k: nat, maxRetries: nat, backoffBase: real)
    requires k <= maxRetries < |attempts| && forall i | k <= i <= maxRetries :: attempts[i].others == []
    ensures var t := Attempts(attempts, k, maxRetries, backoffBase); t.seen == t.log
    decreases maxRetries - k
  {
    assert forall own: seq<Event> :: [] + own == own;
    if Transient(attempts[k].outcome) && k < maxRetries {
      AloneSeesOwn(attempts, k + 1, maxRetries, backoffBase);
    }
  }

  function Sum(xs: seq<real>): real {
    if xs == [] then 0.0 else xs[0] + Sum(xs[1..])
  }

  predicate DrawsInRange(attempts: seq<Attempt>) {
    forall k | 0 <= k < |attempts| :: 0.0 <= attempts[k].draw <= 1.0
  }

  lemma JitterBounds(baseWait: real, draw: real)
    requires 0.0 <= baseWait && 0.0 <= draw <= 1.0
    ensures 0.0 <= Jitter(baseWait, draw) <= baseWait * 0.5
  {
  }

  lemma BaseNonNegative(backoffBase: real, k: nat)
    requires 0.0 <= backoffBase
    ensures 0.0 <= Base(backoffBase, k)
  {
    Pow2Positive(k);
  }

  lemma WaitBounds(backoffBase: real, k: nat, draw: real)
    requires 0.0 <= backoffBase && 0.0 <= draw <= 1.0
    ensures Base(backoffBase, k) <= Wait(backoffBase, k, draw) <= 1.5 * Base(backoffBase, k)
  {
    BaseNonNegative(backoffBase, k);
    JitterBounds(Base(backoffBase, k), draw);
  }

  lemma BaseDoubles(backoffBase: real, k: nat)
    ensures Base(backoffBase, k + 1) == Base(backoffBase, k) + Base(backoffBase, k)
  {
    assert Pow2(k + 1) == Pow2(k) + Pow2(k);
  }

  lemma {:induction false} Pow2Positive(n: nat)
    ensures 1.0 <= Pow2(n)
  {
    if n > 0 {
      Pow2Positive(n - 1);
    }
  }

  /** Sleeps number `k` to `k + s - 1` add up to between one and one and a half times their bases. */
  lemma {:induction false} SleepTotal(attempts: seq<Attempt>, k: nat, backoffBase: real, sleeps: seq<real>)
    requires 0.0 <= backoffBase && DrawsInRange(attempts) && k + |sleeps| <= |attempts|
    requires forall i | 0 <= i < |sleeps| :: sleeps[i] == Wait(backoffBase, k + i, attempts[k + i].draw)
    ensures
      var bases := Base(backoffBase, k + |sleeps|) - Base(backoffBase, k);
      bases <= Sum(sleeps) <= 1.5 * bases
    decreases |sleeps|
  {
    if sleeps != [] {
      var rest := sleeps[1..];
      forall i | 0 <= i < |rest| ensures rest[i] == Wait(backoffBase, (k + 1) + i, attempts[(k + 1) + i].draw) {
        assert rest[i] == sleeps[i + 1] && k + (i + 1) == (k + 1) + i;
      }
      SleepTotal(attempts, k + 1, backoffBase, rest);
      assert sleeps[0] == Wait(backoffBase, k, attempts[k].draw);
      WaitBounds(backoffBase, k, attempts[k].draw);
      BaseDoubles(backoffBase, k);
      assert (k + 1) + |rest| == k + |sleeps|;
    }
  }

  /** `b * (2^s - 1)`, the sum of the first `s` base waits. */
  function BaseTotal(backoffBase: real, s: nat): real {
    backoffBase * (Pow2(s) - 1.0)
  }

  lemma BaseAsPower(backoffBase: real, s: nat)
    ensures Base(backoffBase, s) - Base(backoffBase, 0) == BaseTotal(backoffBase, s)
  {
  }

  /** The total backoff of a whole call, by the number of sleeps it takes. */
  lemma BackoffBounds(attempts: seq<Attempt>, maxRetries: nat, backoffBase: real)
    requires maxRetries < |attempts| && 0.0 <= backoffBase && DrawsInRange(attempts)
    ensures
      var t := Attempts(attempts, 0, maxRetries, backoffBase);
      var n := TransientPrefix(attempts, 0, maxRetries);
      var s := if n < maxRetries then n else maxRetries;
      var bases := BaseTotal(backoffBase, s);
      |t.sleeps| == s && bases <= Sum(t.sleeps) <= 1.5 * bases
  {
    TraceSleeps(attempts, 0, maxRetries, backoffBase);
    var sleeps := Attempts(attempts, 0, maxRetries, backoffBase).sleeps;
    SleepTotal(attempts, 0, backoffBase, sleeps);
    BaseAsPower(backoffBase, |sleeps|);
  }
}
