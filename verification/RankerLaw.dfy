/** What the stored statistics say of a whole run of recorded requests. */
module RankerLaw {
  import opened Wrappers
  import opened Redis
  import opened Capabilities
  import opened Rounding
  import opened Ranker
  import opened Chains

  // ---- Keys ----

  /** No registered provider's name holds a colon; models' names do. */
  predicate Plain(provider: string) {
    ':' !in provider
  }

  lemma LatencyKeyParts(c: Candidate)
    ensures |LatencyKey(c)| == 19 + |c.provider| + |c.model|
    ensures LatencyKey(c)[18..18 + |c.provider|] == c.provider && LatencyKey(c)[18 + |c.provider|] == ':'
    ensures LatencyKey(c)[19 + |c.provider|..] == c.model
    ensures forall i | 0 <= i < |c.provider| :: LatencyKey(c)[18 + i] == c.provider[i]
  {
  }

  lemma LatencyKeysInjective(c: Candidate, d: Candidate)
    requires Plain(c.provider) && Plain(d.provider)
    ensures LatencyKey(c) == LatencyKey(d) <==> c == d
  {
    if LatencyKey(c) == LatencyKey(d) {
      LatencyKeyParts(c);
      LatencyKeyParts(d);
    }
  }

  lemma ProviderKeysInjective(p: string, q: string)
    ensures SuccessKey(p) == SuccessKey(q) <==> p == q
    ensures FailureKey(p) == FailureKey(q) <==> p == q
    ensures ErrorKey(p) == ErrorKey(q) <==> p == q
    ensures SuccessKey(p) != FailureKey(q)
  {
    assert p == SuccessKey(p)[14..] == FailureKey(p)[14..] == ErrorKey(p)[18..];
    assert q == SuccessKey(q)[14..] == FailureKey(q)[14..] == ErrorKey(q)[18..];
    assert SuccessKey(p)[6] == 's' && FailureKey(q)[6] == 'f';
  }

  // ---- Latency ----

  /** The latencies recorded for one candidate. */
  function SamplesOf(records: seq<Record>, c: Candidate): seq<Sample> {
    if records == [] then []
    else
      (if records[0].Succeeded? && records[0].c == c then [Sample(records[0].latencyMs, records[0].at)] else [])
      + SamplesOf(records[1..], c)
  }

  lemma ApplyLatency(s: Stats, r: Record, c: Candidate)
    requires Plain(c.provider) && Plain(r.c.provider)
    ensures
      var cell := Lookup(s.floats, LatencyKey(c));
      Lookup(Apply(s, r).floats, LatencyKey(c)) ==
        if r.Succeeded? && r.c == c then Held(Averaged(cell, r.latencyMs, r.at), At(r.at + STATS_SECONDS)) else cell
  {
    LatencyKeysInjective(c, r.c);
    StatsKeysDistinct(c, r.c.provider);
  }

  /**
   The latency stored for a candidate is the moving average of its own successes, whatever
   is recorded in between for other candidates, so the bounds and the convergence of that
   average hold of it.
   */
  lemma {:induction false} StoredLatency(s: Stats, records: seq<Record>, c: Candidate)
    requires Plain(c.provider) && forall r <- records :: Plain(r.c.provider)
    ensures Lookup(ApplyAll(s, records).floats, LatencyKey(c)) == Latency(Lookup(s.floats, LatencyKey(c)), SamplesOf(records, c))
    decreases |records|
  {
    if |records| > 0 {
      var r := records[0];
      var cell := Lookup(s.floats, LatencyKey(c));
      ApplyLatency(s, r, c);
      StoredLatency(Apply(s, r), records[1..], c);
      LatencyCons(cell, r, SamplesOf(records[1..], c), c);
    }
  }

  lemma LatencyCons(cell: Cell<real>, r: Record, rest: seq<Sample>, c: Candidate)
    ensures
      var own := r.Succeeded? && r.c == c;
      Latency(cell, (if own then [Sample(r.latencyMs, r.at)] else []) + rest) ==
        Latency(if own then Held(Averaged(cell, r.latencyMs, r.at), At(r.at + STATS_SECONDS)) else cell, rest)
  {
    if r.Succeeded? && r.c == c {
      assert ([Sample(r.latencyMs, r.at)] + rest)[1..] == rest;
    } else {
      assert [] + rest == rest;
    }
  }

  // ---- Counters and error rate ----

  /** When the provider's successes were recorded, and when its failures were. */
  function SuccessTimes(records: seq<Record>, provider: string): seq<real> {
    if records == [] then []
    else
      var r := records[0];
      (if r.Succeeded? && r.c.provider == provider then [r.at] else []) + SuccessTimes(records[1..], provider)
  }

  function FailureTimes(records: seq<Record>, provider: string): seq<real> {
    if records == [] then []
    else
      var r := records[0];
      (if r.Failed? && r.c.provider == provider then [r.at] else []) + FailureTimes(records[1..], provider)
  }

  /** When the provider's latest record was made. */
  function LastRecord(records: seq<Record>, provider: string, before: Option<real>): Option<real>
    decreases records
  {
    if records == [] then before
    else LastRecord(records[1..], provider, if records[0].c.provider == provider then Some(records[0].at) else before)
  }

  /** The three cells a provider's records write. */
  datatype Tally = Tally(successes: Cell<int>, failures: Cell<int>, rate: Cell<real>)

  function TallyOf(s: Stats, provider: string): Tally {
    Tally(Lookup(s.counters, SuccessKey(provider)), Lookup(s.counters, FailureKey(provider)), Lookup(s.floats, ErrorKey(provider)))
  }

  /** The tally as a record at `at` leaves it, with these counters. */
  function ReadAt(successes: Cell<int>, failures: Cell<int>, at: real): Tally {
    var rate := ErrorRate(successes.Get(at).GetOr(0), failures.Get(at).GetOr(0));
    Tally(successes, failures, Held(RoundTo(rate, 10000.0), At(at + STATS_SECONDS)))
  }

  /** What one record does to them. */
  function Tallied(t: Tally, r: Record, provider: string): Tally {
    if r.c.provider != provider then t
    else
      var successes := if r.Succeeded? then Counted(t.successes, r.at) else t.successes;
      var failures := if r.Failed? then Counted(t.failures, r.at) else t.failures;
      ReadAt(successes, failures, r.at)
  }

  function TallyAll(t: Tally, records: seq<Record>, provider: string): Tally
    decreases records
  {
    if records == [] then t else TallyAll(Tallied(t, records[0], provider), records[1..], provider)
  }

  lemma ApplyTallies(s: Stats, r: Record, provider: string)
    ensures TallyOf(Apply(s, r), provider) == Tallied(TallyOf(s, provider), r, provider)
  {
    ProviderKeysInjective(provider, r.c.provider);
    ProviderKeysInjective(r.c.provider, provider);
    StatsKeysDistinct(r.c, provider);
  }

  lemma {:induction false} ApplyAllTallies(s: Stats, records: seq<Record>, provider: string)
    ensures TallyOf(ApplyAll(s, records), provider) == TallyAll(TallyOf(s, provider), records, provider)
    decreases |records|
  {
    if |records| > 0 {
      ApplyTallies(s, records[0], provider);
      ApplyAllTallies(Apply(s, records[0]), records[1..], provider);
    }
  }

  /** The rate of the successes and failures whose counts are live at a time. */
  function LiveRate(successes: seq<real>, failures: seq<real>, at: real): real {
    ErrorRate(Chain(STATS_SECONDS, successes, at), Chain(STATS_SECONDS, failures, at))
  }

  /** The counters are those of the two chains, and the rate is as of the last record. */
  predicate Tracks(t: Tally, successes: seq<real>, failures: seq<real>, last: Option<real>) {
    && t.successes == Counter(STATS_SECONDS, successes) && t.failures == Counter(STATS_SECONDS, failures)
    && t.rate == match last
       case None => Gone
       case Some(at) => Held(RoundTo(LiveRate(successes, failures, at), 10000.0), At(at + STATS_SECONDS))
  }

  /** A counter after the record, and what it then reads. */
  lemma CountedTimes(cell: Cell<int>, times: seq<real>, own: bool, at: real)
    requires cell == Counter(STATS_SECONDS, times)
    ensures
      var cell', times' := if own then Counted(cell, at) else cell, if own then times + [at] else times;
      cell' == Counter(STATS_SECONDS, times') && cell'.Get(at).GetOr(0) == Chain(STATS_SECONDS, times', at)
  {
    CounterNext(STATS_SECONDS, times, at);
    CounterReads(STATS_SECONDS, if own then times + [at] else times, at);
  }

  /** Two counters of known histories, and the rate read from them. */
  lemma ReadTracks(successes: Cell<int>, failures: Cell<int>, ss: seq<real>, fs: seq<real>, at: real)
    requires successes == Counter(STATS_SECONDS, ss) && successes.Get(at).GetOr(0) == Chain(STATS_SECONDS, ss, at)
    requires failures == Counter(STATS_SECONDS, fs) && failures.Get(at).GetOr(0) == Chain(STATS_SECONDS, fs, at)
    ensures Tracks(ReadAt(successes, failures, at), ss, fs, Some(at))
  {
  }

  lemma SuccessTracks(t: Tally, successes: seq<real>, failures: seq<real>, at: real)
    requires t.successes == Counter(STATS_SECONDS, successes) && t.failures == Counter(STATS_SECONDS, failures)
    ensures Tracks(ReadAt(Counted(t.successes, at), t.failures, at), successes + [at], failures, Some(at))
  {
    CountedTimes(t.successes, successes, true, at);
    CountedTimes(t.failures, failures, false, at);
    ReadTracks(Counted(t.successes, at), t.failures, successes + [at], failures, at);
  }

  lemma FailureTracks(t: Tally, successes: seq<real>, failures: seq<real>, at: real)
    requires t.successes == Counter(STATS_SECONDS, successes) && t.failures == Counter(STATS_SECONDS, failures)
    ensures Tracks(ReadAt(t.successes, Counted(t.failures, at), at), successes, failures + [at], Some(at))
  {
    CountedTimes(t.successes, successes, false, at);
    CountedTimes(t.failures, failures, true, at);
    ReadTracks(t.successes, Counted(t.failures, at), successes, failures + [at], at);
  }

  lemma OwnTracks(t: Tally, successes: seq<real>, failures: seq<real>, last: Option<real>, r: Record)
    requires Tracks(t, successes, failures, last)
    ensures r.Succeeded? ==> Tracks(Tallied(t, r, r.c.provider), successes + [r.at], failures, Some(r.at))
    ensures r.Failed? ==> Tracks(Tallied(t, r, r.c.provider), successes, failures + [r.at], Some(r.at))
  {
    if r.Succeeded? {
      SuccessTracks(t, successes, failures, r.at);
    } else {
      FailureTracks(t, successes, failures, r.at);
    }
  }

  lemma Appended(times: seq<real>, at: real, own: bool, rest: seq<real>)
    ensures (if own then times + [at] else times) + rest == times + ((if own then [at] else []) + rest)
  {
  }

  lemma {:induction false} RunTallies(t: Tally, successes: seq<real>, failures: seq<real>, last: Option<real>,
                                      records: seq<Record>, provider: string)
    requires Tracks(t, successes, failures, last)
    ensures Tracks(TallyAll(t, records, provider), successes + SuccessTimes(records, provider),
                   failures + FailureTimes(records, provider), LastRecord(records, provider, last))
    decreases |records|
  {
    if |records| == 0 {
      assert successes + SuccessTimes(records, provider) == successes;
      assert failures + FailureTimes(records, provider) == failures;
    } else {
      var r, own := records[0], records[0].c.provider == provider;
      var ss := if r.Succeeded? && own then successes + [r.at] else successes;
      var fs := if r.Failed? && own then failures + [r.at] else failures;
      if own {
        OwnTracks(t, successes, failures, last, r);
      }
      RunTallies(Tallied(t, r, provider), ss, fs, if own then Some(r.at) else last, records[1..], provider);
      Appended(successes, r.at, r.Succeeded? && own, SuccessTimes(records[1..], provider));
      Appended(failures, r.at, r.Failed? && own, FailureTimes(records[1..], provider));
    }
  }

  lemma FreshTracks(start: Stats, provider: string)
    requires NoStats(start)
    ensures Tracks(TallyOf(start, provider), [], [], None)
  {
  }

  lemma ScoredRate(s: Stats, provider: ProviderName, model: string, now: real)
    ensures ScoredErrorRate(s, Candidate(provider, model), now) == TallyOf(s, provider).rate.Get(now).GetOr(0.0)
  {
  }

  /**
   After any records whatever, from a fresh start, the error rate that scores are computed
   from is that of two chains as they were at the provider's last record: its latest
   successes less than an hour apart, and its latest failures less than an hour apart. An
   hour after that record it is zero.
   */
  lemma ErrorRateIsOfLiveChains(start: Stats, records: seq<Record>, provider: ProviderName, model: string, now: real)
    requires NoStats(start)
    ensures
      ScoredErrorRate(ApplyAll(start, records), Candidate(provider, model), now) ==
        match LastRecord(records, provider, None)
        case None => 0.0
        case Some(at) =>
          if now < at + STATS_SECONDS then
            RoundTo(LiveRate(SuccessTimes(records, provider), FailureTimes(records, provider), at), 10000.0)
          else 0.0
  {
    var t := TallyOf(start, provider);
    var ss, fs := SuccessTimes(records, provider), FailureTimes(records, provider);
    FreshTracks(start, provider);
    ApplyAllTallies(start, records, provider);
    RunTallies(t, [], [], None, records, provider);
    assert [] + ss == ss && [] + fs == fs;
    ScoredRate(ApplyAll(start, records), provider, model, now);
  }

  // ---- When that is the share of failures ----

  /** No gap between the events, nor the time since the last, reaches an hour. */
  predicate Unbroken(times: seq<real>, now: real) {
    && (times != [] ==> now - times[|times| - 1] < STATS_SECONDS)
    && forall i | 0 < i < |times| :: times[i] - times[i - 1] < STATS_SECONDS
  }

  /** The rate counts every request the provider ever had if and only if neither of its two histories is broken. */
  lemma CountersHoldAllIff(successes: seq<real>, failures: seq<real>, at: real)
    ensures
      Chain(STATS_SECONDS, successes, at) == |successes| && Chain(STATS_SECONDS, failures, at) == |failures|
      <==> Unbroken(successes, at) && Unbroken(failures, at)
  {
    ChainAll(STATS_SECONDS, successes, at);
    ChainAll(STATS_SECONDS, failures, at);
  }

  lemma SameShare(s: nat, f: nat, n: nat, m: nat)
    requires s + f > 0 && n + m > 0
    ensures ErrorRate(s, f) == ErrorRate(n, m) <==> s * m == f * n
  {
    var x, y := ErrorRate(s, f), ErrorRate(n, m);
    assert x * (s + f) as real == f as real && y * (n + m) as real == m as real;
    CrossMultiply(x, y, f, s + f, m, n + m);
    assert f * (n + m) == m * (s + f) <==> s * m == f * n;
  }

  lemma CrossMultiply(x: real, y: real, f: nat, total: nat, m: nat, all: nat)
    requires total > 0 && all > 0 && x * total as real == f as real && y * all as real == m as real
    ensures x == y <==> f * all == m * total
  {
    var product := total as real * all as real;
    assert product > 0.0;
    assert x * product == f as real * all as real == (f * all) as real;
    assert y * product == m as real * total as real == (m * total) as real;
    if x != y {
      NotEqual(x, y, product);
    }
  }

  lemma NotEqual(x: real, y: real, product: real)
    requires x != y && product > 0.0
    ensures x * product != y * product
  {
    assert (x - y) * product != 0.0;
  }

  /**
   Before it is rounded, the rate is the provider's failures over its requests if and only
   if the two chains keep successes and failures in the proportion of the whole histories.
   */
  lemma ErrorRateIsShareIff(successes: seq<real>, failures: seq<real>, at: real)
    requires at in successes || at in failures
    requires Ordered(successes, at) && Ordered(failures, at)
    ensures
      LiveRate(successes, failures, at) == ErrorRate(|successes|, |failures|)
      <==> Chain(STATS_SECONDS, successes, at) * |failures| == Chain(STATS_SECONDS, failures, at) * |successes|
  {
    if at in successes {
      EndsAt(successes, at);
    } else {
      EndsAt(failures, at);
    }
    SameShare(Chain(STATS_SECONDS, successes, at), Chain(STATS_SECONDS, failures, at), |successes|, |failures|);
  }

  lemma EndsAt(times: seq<real>, at: real)
    requires at in times && Ordered(times, at)
    ensures times[|times| - 1] == at && Chain(STATS_SECONDS, times, at) > 0
  {
    var i :| 0 <= i < |times| && times[i] == at;
    assert times[i] <= times[|times| - 1] <= at;
  }

  /** The clock never goes back. */
  predicate InOrder(records: seq<Record>, from: real)
    decreases records
  {
    records != [] ==> from <= records[0].at && InOrder(records[1..], records[0].at)
  }

  /** Times from `from` on, in order, the latest of them `to`. */
  ghost predicate Spans(times: seq<real>, from: real, to: real) {
    Ordered(times, to) && forall t <- times :: from <= t
  }

  lemma SpansCons(own: bool, at: real, rest: seq<real>, from: real, to: real)
    requires from <= at <= to && Spans(rest, at, to)
    ensures Spans((if own then [at] else []) + rest, from, to)
  {
    var times := (if own then [at] else []) + rest;
    if own {
      assert forall i | 0 <= i < |rest| :: rest[i] in rest && times[i + 1] == rest[i];
    } else {
      assert times == rest;
    }
  }

  /** The histories of a run are in order, and end with its last record. */
  lemma {:induction false} HistoriesSpan(records: seq<Record>, provider: string, from: real, before: Option<real>)
    requires InOrder(records, from) && (before.Some? ==> before.value <= from)
    ensures
      var last := LastRecord(records, provider, before);
      var ss, fs := SuccessTimes(records, provider), FailureTimes(records, provider);
      if last.None? then before.None? && ss == [] && fs == []
      else
        var to := if from <= last.value then last.value else from;
        && Spans(ss, from, to) && Spans(fs, from, to)
        && (ss != [] || fs != [] ==> from <= last.value)
        && ((last == before && ss == [] && fs == []) || last.value in ss || last.value in fs)
    decreases |records|
  {
    if |records| > 0 {
      var r, rest := records[0], records[1..];
      var own := r.c.provider == provider;
      HistoriesSpan(rest, provider, r.at, if own then Some(r.at) else before);
      var last := LastRecord(records, provider, before);
      if last.Some? {
        var inner := if r.at <= last.value then last.value else r.at;
        SpansCons(r.Succeeded? && own, r.at, SuccessTimes(rest, provider), from, inner);
        SpansCons(r.Failed? && own, r.at, FailureTimes(rest, provider), from, inner);
      }
    }
  }

  /** So it is in every run, at its last record. */
  lemma RunShareIff(records: seq<Record>, provider: string, from: real)
    requires InOrder(records, from) && LastRecord(records, provider, None).Some?
    ensures
      var ss, fs := SuccessTimes(records, provider), FailureTimes(records, provider);
      var at := LastRecord(records, provider, None).value;
      LiveRate(ss, fs, at) == ErrorRate(|ss|, |fs|)
      <==> Chain(STATS_SECONDS, ss, at) * |fs| == Chain(STATS_SECONDS, fs, at) * |ss|
  {
    HistoriesSpan(records, provider, from, None);
    var at := LastRecord(records, provider, None).value;
    ErrorRateIsShareIff(SuccessTimes(records, provider), FailureTimes(records, provider), at);
  }

  lemma AllFailed(failures: nat)
    requires failures > 0
    ensures ErrorRate(0, failures) == 1.0 && RoundTo(1.0, 10000.0) == 1.0
  {
    HalfEvenExact(10000);
  }

  lemma SomeSucceeded(successes: nat, failures: nat)
    requires successes > 0
    ensures ErrorRate(successes, failures) < 1.0
  {
    var total := (successes + failures) as real;
    assert ErrorRate(successes, failures) * total == failures as real < total;
  }

  /** Once the last success is an hour old every further failure makes the rate one, however many succeeded before. */
  lemma OnlyFailuresLeft(successes: seq<real>, failures: seq<real>, at: real)
    requires successes != [] && at - successes[|successes| - 1] >= STATS_SECONDS
    requires at in failures && Ordered(failures, at)
    ensures RoundTo(LiveRate(successes, failures, at), 10000.0) == 1.0 > ErrorRate(|successes|, |failures|)
  {
    EndsAt(failures, at);
    AllFailed(Chain(STATS_SECONDS, failures, at));
    SomeSucceeded(|successes|, |failures|);
  }

  lemma TimesCons(r: Record, rest: seq<Record>, provider: string, before: Option<real>)
    ensures
      var own := r.c.provider == provider;
      && SuccessTimes([r] + rest, provider) == (if r.Succeeded? && own then [r.at] else []) + SuccessTimes(rest, provider)
      && FailureTimes([r] + rest, provider) == (if r.Failed? && own then [r.at] else []) + FailureTimes(rest, provider)
      && LastRecord([r] + rest, provider, before) == LastRecord(rest, provider, if own then Some(r.at) else before)
  {
    assert ([r] + rest)[1..] == rest;
  }

  /** One success and two failures, the second when the success has expired: the rate is one, not two thirds. */
  lemma ExpiredSuccessIsForgotten(start: Stats, c: Candidate)
    requires NoStats(start)
    ensures
      var records := [Succeeded(c, 100, 0.0)] + ([Failed(c, 1800.0)] + ([Failed(c, 5000.0)] + []));
      ScoredErrorRate(ApplyAll(start, records), c, 5000.0) == 1.0
  {
    var s, f, g := Succeeded(c, 100, 0.0), Failed(c, 1800.0), Failed(c, 5000.0);
    var p := c.provider;
    TimesCons(g, [], p, Some(1800.0));
    TimesCons(f, [g] + [], p, Some(0.0));
    TimesCons(s, [f] + ([g] + []), p, None);
    var records := [s] + ([f] + ([g] + []));
    var ss, fs := SuccessTimes(records, p), FailureTimes(records, p);
    assert ss == [0.0] && fs == [1800.0, 5000.0];
    assert fs[1] == 5000.0;
    ErrorRateIsOfLiveChains(start, records, p, c.model, 5000.0);
    OnlyFailuresLeft(ss, fs, 5000.0);
  }

  lemma {:induction false} TimesWithin(records: seq<Record>, provider: string, until: real)
    requires forall r <- records :: r.at < until <= r.at + STATS_SECONDS
    ensures forall t <- SuccessTimes(records, provider) :: t < until <= t + STATS_SECONDS
    ensures forall t <- FailureTimes(records, provider) :: t < until <= t + STATS_SECONDS
    decreases |records|
  {
    if |records| > 0 {
      TimesWithin(records[1..], provider, until);
    }
  }

  lemma {:induction false} LastWithin(records: seq<Record>, provider: string, before: Option<real>, until: real)
    requires forall r <- records :: r.at < until <= r.at + STATS_SECONDS
    requires before.Some? ==> before.value < until <= before.value + STATS_SECONDS
    ensures
      var last := LastRecord(records, provider, before);
      && (last.Some? ==> last.value < until <= last.value + STATS_SECONDS)
      && (last.None? ==> before.None? && SuccessTimes(records, provider) == [] && FailureTimes(records, provider) == [])
    decreases |records|
  {
    if |records| > 0 {
      LastWithin(records[1..], provider, if records[0].c.provider == provider then Some(records[0].at) else before, until);
    }
  }

  lemma WithinUnbroken(times: seq<real>, until: real, at: real)
    requires at < until && forall t <- times :: t < until <= t + STATS_SECONDS
    ensures Unbroken(times, at)
  {
    assert times != [] ==> times[|times| - 1] in times;
    forall i | 0 < i < |times| ensures times[i] - times[i - 1] < STATS_SECONDS {
      assert times[i] in times && times[i - 1] in times;
    }
  }

  lemma LiveRateOfAll(successes: seq<real>, failures: seq<real>, at: real)
    requires Unbroken(successes, at) && Unbroken(failures, at)
    ensures LiveRate(successes, failures, at) == ErrorRate(|successes|, |failures|)
  {
    CountersHoldAllIff(successes, failures, at);
  }

  lemma NoRequestsNoRate()
    ensures RoundTo(ErrorRate(0, 0), 10000.0) == 0.0
  {
    HalfEvenExact(0);
  }

  /** So for records all within an hour it is the provider's failures over its requests, and zero if it had none. */
  lemma ErrorRateIsShareOfFailures(start: Stats, records: seq<Record>, provider: ProviderName, model: string, until: real, now: real)
    requires NoStats(start) && now < until
    requires forall r <- records :: r.at < until <= r.at + STATS_SECONDS
    ensures ScoredErrorRate(ApplyAll(start, records), Candidate(provider, model), now)
         == RoundTo(ErrorRate(|SuccessTimes(records, provider)|, |FailureTimes(records, provider)|), 10000.0)
  {
    var ss, fs := SuccessTimes(records, provider), FailureTimes(records, provider);
    var last := LastRecord(records, provider, None);
    ErrorRateIsOfLiveChains(start, records, provider, model, now);
    LastWithin(records, provider, None, until);
    TimesWithin(records, provider, until);
    NoRequestsNoRate();
    if last.Some? {
      WithinUnbroken(ss, until, last.value);
      WithinUnbroken(fs, until, last.value);
      LiveRateOfAll(ss, fs, last.value);
    }
  }

  // ---- The first scores ----

  /** With no statistics half a second times the price of two thousand tokens decides, a free model's price being one. */
  lemma NewcomerScore(start: Stats, c: Candidate, now: real)
    requires NoStats(start)
    ensures Score(start, c, now) == 500.0 * if Free(c) then 1.0 else Price(c)
  {
    PricedWeight(c);
  }

  /** A first failure doubles the scores of all the provider's models, for an hour. */
  lemma FirstFailureDoubles(start: Stats, c: Candidate, model: string, at: real, now: real)
    requires NoStats(start)
    ensures
      var d := Candidate(c.provider, model);
      Score(ApplyAll(start, [Failed(c, at)]), d, now) == (if now < at + 3600.0 then 2.0 else 1.0) * Score(start, d, now)
  {
    var d, r := Candidate(c.provider, model), Failed(c, at);
    TimesCons(r, [], c.provider, None);
    assert [r] + [] == [r] && [at] + [] == [at];
    assert SuccessTimes([r], c.provider) == [] && FailureTimes([r], c.provider) == [at];
    assert LiveRate([], [at], at) == 1.0;
    AllFailed(1);
    ErrorRateIsOfLiveChains(start, [r], c.provider, model, now);
    assert ApplyAll(start, [r]) == Apply(start, r);
    StatsKeysDistinct(d, c.provider);
    DoubledBy(start, d, now);
  }

  lemma DoubledBy(start: Stats, d: Candidate, now: real)
    requires NoStats(start)
    ensures ScoreFrom(500.0, 1.0, CostWeight(d)) == 2.0 * Score(start, d, now)
  {
  }

  lemma FirstSuccessRate(start: Stats, c: Candidate, d: Candidate, latencyMs: nat, at: real, now: real)
    requires NoStats(start)
    ensures ScoredErrorRate(ApplyAll(start, [Succeeded(c, latencyMs, at)]), d, now) == 0.0
  {
    var r := Succeeded(c, latencyMs, at);
    TimesCons(r, [], d.provider, None);
    assert [r] + [] == [r] && [at] + [] == [at];
    ErrorRateIsOfLiveChains(start, [r], d.provider, d.model, now);
    NoRequestsNoRate();
    assert c.provider == d.provider ==> LiveRate([at], [], at) == 0.0;
  }

  lemma FirstSuccessLatency(start: Stats, c: Candidate, d: Candidate, latencyMs: nat, at: real, now: real)
    requires NoStats(start) && Plain(c.provider) && Plain(d.provider)
    ensures ScoredLatency(ApplyAll(start, [Succeeded(c, latencyMs, at)]), d, now)
         == if d == c && now < at + 3600.0 then latencyMs as real else 500.0
  {
    var r := Succeeded(c, latencyMs, at);
    SampleLeaves(Gone, latencyMs, at);
    ApplyLatency(start, r, d);
    assert ApplyAll(start, [r]) == ApplyAll(Apply(start, r), []) == Apply(start, r);
  }

  /** A first success makes its latency the score's, for that model alone and for an hour. */
  lemma FirstSuccessScores(start: Stats, c: Candidate, d: Candidate, latencyMs: nat, at: real, now: real)
    requires NoStats(start) && Plain(c.provider) && Plain(d.provider)
    ensures Score(ApplyAll(start, [Succeeded(c, latencyMs, at)]), d, now)
         == (if d == c && now < at + 3600.0 then latencyMs as real else 500.0) * CostWeight(d)
  {
    FirstSuccessRate(start, c, d, latencyMs, at, now);
    FirstSuccessLatency(start, c, d, latencyMs, at, now);
  }
}
