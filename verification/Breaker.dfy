/**
 The circuit breaker of one provider, in its two backends: dictionaries in the process,
 and Redis keys with four different lifetimes.
 */
module Breaker {
  import opened Wrappers
  import opened Redis

  /** The two constructor arguments. */
  datatype Config = Config(threshold: int, recovery: real) {
    predicate Valid() {
      1 <= threshold
    }

    /** Redis refuses a time to live of zero, so there `int(recovery)` has to be positive. */
    predicate Lasting() {
      1.0 <= recovery
    }

    /** How long a half-open state, an open state and the failure counter are kept. */
    function HalfOpenFor(): real { Int(recovery) }
    function OpenFor(): real { Int(recovery * 2.0) }
    function CountFor(): real { Int(recovery * 3.0) }
  }

  /** Python's `int` on the non-negative values in use. */
  function Int(x: real): real {
    x.Floor as real
  }

  const PROBE_LOCK_SECONDS := 10.0

  datatype Op = Query | RecordSuccess | RecordFailure

  datatype Event = Event(op: Op, at: real)

  /** What an operation returns: only a query has an answer. */
  type Answer = Option<bool>

  // ---- In-process backend ----

  datatype Local = Local(failures: int, lastFailure: real, open: bool)

  const LOCAL_START := Local(0, 0.0, false)

  function LocalIsOpen(c: Config, s: Local, now: real): (Local, bool) {
    if !s.open then (s, false)
    else if now - s.lastFailure > c.recovery then (s.(open := false, failures := 0), false)
    else (s, true)
  }

  function LocalSuccess(s: Local): Local {
    s.(failures := 0, open := false)
  }

  function LocalFailure(c: Config, s: Local, now: real): Local {
    Local(s.failures + 1, now, s.open || s.failures + 1 >= c.threshold)
  }

  function LocalStep(c: Config, s: Local, e: Event): (Local, Answer) {
    match e.op
    case Query => var (s', open) := LocalIsOpen(c, s, e.at); (s', Some(open))
    case RecordSuccess => (LocalSuccess(s), None)
    case RecordFailure => (LocalFailure(c, s, e.at), None)
  }

  // ---- Redis backend ----

  /** `cb:state`, `cb:failures`, `cb:last_fail` and `cb:probe_lock` of one provider. */
  datatype Keys = Keys(state: Cell<string>, failures: Cell<int>, lastFail: Cell<real>, probeLock: Cell<string>)

  const KEYS_START := Keys(Gone, Gone, Gone, Gone)

  function RedisIsOpen(c: Config, s: Keys, now: real): (Keys, bool) {
    if s.state.Get(now) == Some("open") then
      var elapsed := now - s.lastFail.Get(now).GetOr(0.0);
      if elapsed > c.recovery then
        (s.(state := Held("half_open", At(now + c.HalfOpenFor()))), false)
      else
        (s, true)
    else if s.state.Get(now) == Some("half_open") then
      if s.probeLock.Live(now) then (s, true)
      else (s.(probeLock := Held("1", At(now + PROBE_LOCK_SECONDS))), false)
    else
      (s, false)
  }

  function RedisSuccess(s: Keys): Keys {
    s.(failures := Gone, state := Held("closed", Never), probeLock := Gone)
  }

  function RedisFailure(c: Config, s: Keys, now: real): Keys {
    var failures := Expire(Incr(s.failures, now), now + c.CountFor());
    var s' := s.(failures := failures, lastFail := Held(now, Never), probeLock := Gone);
    if s.state.Get(now) == Some("half_open") || failures.value >= c.threshold then
      s'.(state := Held("open", At(now + c.OpenFor())))
    else
      s'
  }

  function RedisStep(c: Config, s: Keys, e: Event): (Keys, Answer) {
    match e.op
    case Query => var (s', open) := RedisIsOpen(c, s, e.at); (s', Some(open))
    case RecordSuccess => (RedisSuccess(s), None)
    case RecordFailure => (RedisFailure(c, s, e.at), None)
  }

  // ---- Runs ----

  predicate HasNo(op: Op, es: seq<Event>) {
    forall k | 0 <= k < |es| :: es[k].op != op
  }

  /** The clock never goes back, within the run or before it. */
  predicate Monotone(es: seq<Event>, from: real) {
    es != [] ==> from <= es[0].at && Monotone(es[1..], es[0].at)
  }

  function End(es: seq<Event>, from: real): real {
    if es == [] then from else es[|es| - 1].at
  }

  function LocalRun(c: Config, s: Local, es: seq<Event>): (Local, seq<Answer>)
    decreases es
  {
    if es == [] then (s, [])
    else
      var (s1, answer) := LocalStep(c, s, es[0]);
      var (s2, answers) := LocalRun(c, s1, es[1..]);
      (s2, [answer] + answers)
  }

  function RedisRun(c: Config, s: Keys, es: seq<Event>): (Keys, seq<Answer>)
    decreases es
  {
    if es == [] then (s, [])
    else
      var (s1, answer) := RedisStep(c, s, es[0]);
      var (s2, answers) := RedisRun(c, s1, es[1..]);
      (s2, [answer] + answers)
  }

  // ---- Either backend ----

  datatype State = InProcess(local: Local) | InRedis(keys: Keys)

  function Step(c: Config, s: State, e: Event): (State, Answer) {
    match s
    case InProcess(local) => var (s', answer) := LocalStep(c, local, e); (InProcess(s'), answer)
    case InRedis(keys) => var (s', answer) := RedisStep(c, keys, e); (InRedis(s'), answer)
  }

  function Run(c: Config, s: State, es: seq<Event>): State
    decreases es
  {
    if es == [] then s else Run(c, Step(c, s, es[0]).0, es[1..])
  }

  lemma {:induction false} RunSnoc(c: Config, s: State, es: seq<Event>, e: Event)
    ensures Run(c, s, es + [e]) == Step(c, Run(c, s, es), e).0
    decreases es
  {
    if es == [] {
      assert [e][1..] == [];
    } else {
      assert (es + [e])[1..] == es[1..] + [e];
      RunSnoc(c, Step(c, s, es[0]).0, es[1..], e);
    }
  }

  lemma {:induction false} RunJoins(c: Config, s: State, xs: seq<Event>, ys: seq<Event>)
    ensures Run(c, s, xs + ys) == Run(c, Run(c, s, xs), ys)
    decreases xs
  {
    if xs == [] {
      assert xs + ys == ys;
    } else {
      assert (xs + ys)[1..] == xs[1..] + ys;
      RunJoins(c, Step(c, s, xs[0]).0, xs[1..], ys);
    }
  }
}
