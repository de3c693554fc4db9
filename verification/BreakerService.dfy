/** The breaker object: one state per provider, updated in place in either backend. */
module BreakerService {
  import opened Wrappers
  import opened Redis
  import opened Breaker

  function StateKey(provider: string): string { "cb:state:" + provider }
  function FailuresKey(provider: string): string { "cb:failures:" + provider }
  function LastFailKey(provider: string): string { "cb:last_fail:" + provider }
  function ProbeLockKey(provider: string): string { "cb:probe_lock:" + provider }

  lemma KeysAreInjective(p: string, q: string)
    ensures StateKey(p) == StateKey(q) ==> p == q
    ensures FailuresKey(p) == FailuresKey(q) ==> p == q
    ensures LastFailKey(p) == LastFailKey(q) ==> p == q
    ensures ProbeLockKey(p) == ProbeLockKey(q) ==> p == q
    ensures StateKey(p) != ProbeLockKey(q)
  {
    assert StateKey(p)[3] == 's' && ProbeLockKey(q)[3] == 'p';
    assert p == StateKey(p)[9..] == FailuresKey(p)[12..] == LastFailKey(p)[13..] == ProbeLockKey(p)[14..];
    assert q == StateKey(q)[9..] == FailuresKey(q)[12..] == LastFailKey(q)[13..] == ProbeLockKey(q)[14..];
  }

  lemma AllKeysAreInjective()
    ensures forall p, q :: StateKey(p) == StateKey(q) ==> p == q
    ensures forall p, q :: FailuresKey(p) == FailuresKey(q) ==> p == q
    ensures forall p, q :: LastFailKey(p) == LastFailKey(q) ==> p == q
    ensures forall p, q :: ProbeLockKey(p) == ProbeLockKey(q) ==> p == q
    ensures forall p, q :: StateKey(p) != ProbeLockKey(q)
  {
    forall p, q
      ensures StateKey(p) == StateKey(q) ==> p == q
      ensures FailuresKey(p) == FailuresKey(q) ==> p == q
      ensures LastFailKey(p) == LastFailKey(q) ==> p == q
      ensures ProbeLockKey(p) == ProbeLockKey(q) ==> p == q
      ensures StateKey(p) != ProbeLockKey(q)
    {
      KeysAreInjective(p, q);
    }
  }

  class CircuitBreaker {
    const config: Config
    var redis: Server?
    var failures: map<string, int>
    var lastFailure: map<string, real>
    var open: map<string, bool>

    constructor (config: Config, redis: Server?)
      ensures this.config == config && this.redis == redis
      ensures failures == map[] && lastFailure == map[] && open == map[]
    {
      this.config := config;
      this.redis := redis;
      failures, lastFailure, open := map[], map[], map[];
    }

    ghost function StateOf(provider: string): State
      reads this, redis
    {
      if redis == null then
        InProcess(Local(
          if provider in failures then failures[provider] else 0,
          if provider in lastFailure then lastFailure[provider] else 0.0,
          provider in open && open[provider]))
      else
        InRedis(Keys(
          Lookup(redis.texts, StateKey(provider)),
          Lookup(redis.counters, FailuresKey(provider)),
          Lookup(redis.reals, LastFailKey(provider)),
          Lookup(redis.texts, ProbeLockKey(provider))))
    }

    method IsOpen(provider: string, now: real) returns (answer: bool)
      requires redis != null ==> config.Lasting()
      modifies this, redis
      ensures redis == old(redis)
      ensures (StateOf(provider), Some(answer)) == Step(config, old(StateOf(provider)), Event(Query, now))
      ensures forall q | q != provider :: StateOf(q) == old(StateOf(q))
    {
      if redis != null {
        answer := RedisIsOpen(provider, now);
      } else {
        answer := LocalIsOpen(provider, now);
      }
    }

    method RecordSuccess(provider: string, now: real)
      requires redis != null ==> config.Lasting()
      modifies this, redis
      ensures redis == old(redis)
      ensures StateOf(provider) == Step(config, old(StateOf(provider)), Event(Op.RecordSuccess, now)).0
      ensures forall q | q != provider :: StateOf(q) == old(StateOf(q))
    {
      if redis != null {
        AllKeysAreInjective();
        redis.counters := redis.counters - {FailuresKey(provider)};
        redis.texts := redis.texts[StateKey(provider) := Held("closed", Never)];
        redis.texts := redis.texts - {ProbeLockKey(provider)};
      } else {
        failures := failures[provider := 0];
        open := open[provider := false];
      }
    }

    method RecordFailure(provider: string, now: real)
      requires redis != null ==> config.Lasting()
      modifies this, redis
      ensures redis == old(redis)
      ensures StateOf(provider) == Step(config, old(StateOf(provider)), Event(Op.RecordFailure, now)).0
      ensures forall q | q != provider :: StateOf(q) == old(StateOf(q))
    {
      if redis != null {
        RedisRecordFailure(provider, now);
      } else {
        LocalRecordFailure(provider, now);
      }
    }

    method RedisIsOpen(provider: string, now: real) returns (answer: bool)
      requires redis != null && config.Lasting()
      modifies redis
      ensures (StateOf(provider), Some(answer)) == Step(config, old(StateOf(provider)), Event(Query, now))
      ensures forall q | q != provider :: StateOf(q) == old(StateOf(q))
    {
      AllKeysAreInjective();
      var state := Lookup(redis.texts, StateKey(provider)).Get(now);
      if state == Some("open") {
        var lastFail := Lookup(redis.reals, LastFailKey(provider)).Get(now);
        var elapsed := now - lastFail.GetOr(0.0);
        if elapsed > config.recovery {
          redis.texts := redis.texts[StateKey(provider) := Held("half_open", At(now + config.HalfOpenFor()))];
          return false;
        }
        return true;
      }
      if state == Some("half_open") {
        var acquired := !Lookup(redis.texts, ProbeLockKey(provider)).Live(now);
        if acquired {
          redis.texts := redis.texts[ProbeLockKey(provider) := Held("1", At(now + PROBE_LOCK_SECONDS))];
          return false;
        }
        return true;
      }
      return false;
    }

    method RedisRecordFailure(provider: string, now: real)
      requires redis != null && config.Lasting()
      modifies redis
      ensures StateOf(provider) == Step(config, old(StateOf(provider)), Event(Op.RecordFailure, now)).0
      ensures forall q | q != provider :: StateOf(q) == old(StateOf(q))
    {
      AllKeysAreInjective();
      var counter := Incr(Lookup(redis.counters, FailuresKey(provider)), now);
      redis.counters := redis.counters[FailuresKey(provider) := Expire(counter, now + config.CountFor())];
      redis.reals := redis.reals[LastFailKey(provider) := Held(now, Never)];
      redis.texts := redis.texts - {ProbeLockKey(provider)};

      var state := Lookup(redis.texts, StateKey(provider)).Get(now);
      if state == Some("half_open") {
        redis.texts := redis.texts[StateKey(provider) := Held("open", At(now + config.OpenFor()))];
      } else if counter.value >= config.threshold {
        redis.texts := redis.texts[StateKey(provider) := Held("open", At(now + config.OpenFor()))];
      }
    }

    method LocalIsOpen(provider: string, now: real) returns (answer: bool)
      requires redis == null
      modifies this`open, this`failures
      ensures (StateOf(provider), Some(answer)) == Step(config, old(StateOf(provider)), Event(Query, now))
      ensures forall q | q != provider :: StateOf(q) == old(StateOf(q))
    {
      if !(provider in open && open[provider]) {
        return false;
      }
      var elapsed := now - (if provider in lastFailure then lastFailure[provider] else 0.0);
      if elapsed > config.recovery {
        open := open[provider := false];
        failures := failures[provider := 0];
        return false;
      }
      return true;
    }

    method LocalRecordFailure(provider: string, now: real)
      requires redis == null
      modifies this`open, this`failures, this`lastFailure
      ensures StateOf(provider) == Step(config, old(StateOf(provider)), Event(Op.RecordFailure, now)).0
      ensures forall q | q != provider :: StateOf(q) == old(StateOf(q))
    {
      var count := (if provider in failures then failures[provider] else 0) + 1;
      failures := failures[provider := count];
      lastFailure := lastFailure[provider := now];
      if count >= config.threshold {
        open := open[provider := true];
      }
    }
  }
}
