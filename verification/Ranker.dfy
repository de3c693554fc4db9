/** A stable sort by score. */
module Ranking {
  import opened Capabilities

  datatype Scored = Scored(score: real, candidate: Candidate)

  /** Before the first element that does not score less. */
  function Insert(x: Scored, xs: seq<Scored>): seq<Scored> {
    if xs == [] || x.score <= xs[0].score then [x] + xs else [xs[0]] + Insert(x, xs[1..])
  }

  function StableSort(xs: seq<Scored>): seq<Scored> {
    if xs == [] then [] else Insert(xs[0], StableSort(xs[1..]))
  }

  predicate Sorted(xs: seq<Scored>) {
    forall i, j | 0 <= i < j < |xs| :: xs[i].score <= xs[j].score
  }

  /** The elements with one score, in order. */
  function WithScore(xs: seq<Scored>, score: real): seq<Scored> {
    if xs == [] then []
    else (if xs[0].score == score then [xs[0]] else []) + WithScore(xs[1..], score)
  }

  /** In order of score, and elements of equal score in the order they came. */
  ghost predicate IsStableSortOf(ys: seq<Scored>, xs: seq<Scored>) {
    Sorted(ys) && forall score :: WithScore(ys, score) == WithScore(xs, score)
  }

  lemma {:induction false} InsertSorted(x: Scored, xs: seq<Scored>)
    requires Sorted(xs)
    ensures Sorted(Insert(x, xs))
    ensures forall y | y in Insert(x, xs) :: y == x || y in xs
    decreases xs
  {
    if xs != [] && x.score > xs[0].score {
      InsertSorted(x, xs[1..]);
      var rest := Insert(x, xs[1..]);
      forall j | 0 <= j < |rest| ensures xs[0].score <= rest[j].score {
        assert rest[j] in rest;
      }
    }
  }

  lemma WithScoreCons(x: Scored, xs: seq<Scored>, score: real)
    ensures WithScore([x] + xs, score) == (if x.score == score then [x] else []) + WithScore(xs, score)
  {
    assert ([x] + xs)[1..] == xs;
  }

  lemma {:induction false} InsertStable(x: Scored, xs: seq<Scored>, score: real)
    ensures WithScore(Insert(x, xs), score) == (if x.score == score then [x] else []) + WithScore(xs, score)
    decreases xs
  {
    WithScoreCons(x, xs, score);
    if xs != [] && x.score > xs[0].score {
      InsertStable(x, xs[1..], score);
      WithScoreCons(xs[0], Insert(x, xs[1..]), score);
    }
  }

  lemma {:induction false} SortIsStable(xs: seq<Scored>)
    ensures IsStableSortOf(StableSort(xs), xs)
    decreases xs
  {
    if xs != [] {
      SortIsStable(xs[1..]);
      InsertSorted(xs[0], StableSort(xs[1..]));
      forall score ensures WithScore(StableSort(xs), score) == WithScore(xs, score) {
        InsertStable(xs[0], StableSort(xs[1..]), score);
      }
    }
  }

  lemma {:induction false} WithScoreMember(xs: seq<Scored>, x: Scored)
    ensures x in xs <==> x in WithScore(xs, x.score)
    decreases xs
  {
    if xs != [] {
      WithScoreMember(xs[1..], x);
      assert xs == [xs[0]] + xs[1..];
    }
  }

  lemma {:induction false} WithScoreFirst(xs: seq<Scored>)
    requires xs != []
    ensures WithScore(xs, xs[0].score) != [] && WithScore(xs, xs[0].score)[0] == xs[0]
  {
  }

  lemma SameMinimum(ys: seq<Scored>, zs: seq<Scored>)
    requires Sorted(ys) && Sorted(zs) && ys != [] && zs != []
    requires forall score :: WithScore(ys, score) == WithScore(zs, score)
    ensures ys[0] == zs[0]
  {
    WithScoreFirst(ys);
    WithScoreFirst(zs);
    WithScoreMember(zs, ys[0]);
    WithScoreMember(ys, zs[0]);
    assert ys[0] in zs && zs[0] in ys;
    assert ys[0].score <= zs[0].score <= ys[0].score;
  }

  /** Sortedness and stability leave one result: what any stable sort returns. */
  lemma {:induction false} StableSortUnique(ys: seq<Scored>, zs: seq<Scored>)
    requires Sorted(ys) && Sorted(zs)
    requires forall score :: WithScore(ys, score) == WithScore(zs, score)
    ensures ys == zs
    decreases ys
  {
    if ys == [] {
      if zs != [] {
        WithScoreFirst(zs);
      }
    } else if zs == [] {
      WithScoreFirst(ys);
    } else {
      SameMinimum(ys, zs);
      forall score ensures WithScore(ys[1..], score) == WithScore(zs[1..], score) {
        var head := if ys[0].score == score then [ys[0]] else [];
        assert WithScore(ys, score) == head + WithScore(ys[1..], score);
        assert WithScore(zs, score) == head + WithScore(zs[1..], score);
        assert WithScore(ys[1..], score) == WithScore(ys, score)[|head|..];
      }
      StableSortUnique(ys[1..], zs[1..]);
    }
  }

  lemma {:induction false} SortPermutes(xs: seq<Scored>)
    ensures multiset(StableSort(xs)) == multiset(xs)
    decreases xs
  {
    if xs != [] {
      SortPermutes(xs[1..]);
      InsertAdds(xs[0], StableSort(xs[1..]));
      assert xs == [xs[0]] + xs[1..];
    }
  }

  lemma {:induction false} InsertAdds(x: Scored, xs: seq<Scored>)
    ensures multiset(Insert(x, xs)) == multiset{x} + multiset(xs)
    decreases xs
  {
    if xs != [] && x.score > xs[0].score {
      InsertAdds(x, xs[1..]);
      assert xs == [xs[0]] + xs[1..];
    }
  }
}

/** Scores from stored statistics, and the statistics' upkeep. */
module Ranker {
  import opened Wrappers
  import opened Redis
  import opened Rounding
  import opened Pricing
  import opened Capabilities
  import opened Ranking

  const STATS_SECONDS := 3600.0
  const DEFAULT_LATENCY := 500.0
  const DEFAULT_COST_WEIGHT := 1.0

  /** Floating-point values and counters under their keys. */
  datatype Stats = Stats(floats: map<string, Cell<real>>, counters: map<string, Cell<int>>)

  function LatencyKey(c: Candidate): string { "stats:latency:p50:" + c.provider + ":" + c.model }
  function ErrorKey(provider: string): string { "stats:errors:rate:" + provider }
  function SuccessKey(provider: string): string { "stats:success:" + provider }
  function FailureKey(provider: string): string { "stats:failure:" + provider }

  /** A price of zero counts as no price. */
  function CostWeight(c: Candidate): real {
    var cost := EstimateCost(c.provider, c.model, 1000, 1000);
    if cost == 0.0 then DEFAULT_COST_WEIGHT else cost
  }

  function ScoreFrom(latency: real, errorRate: real, weight: real): real {
    latency * (1.0 + errorRate) * weight
  }

  function Score(s: Stats, c: Candidate, now: real): real {
    ScoreFrom(ScoredLatency(s, c, now), ScoredErrorRate(s, c, now), CostWeight(c))
  }

  /** The latency a score is computed from. */
  function ScoredLatency(s: Stats, c: Candidate, now: real): real {
    Lookup(s.floats, LatencyKey(c)).Get(now).GetOr(DEFAULT_LATENCY)
  }

  function ScoredErrorRate(s: Stats, c: Candidate, now: real): real {
    Lookup(s.floats, ErrorKey(c.provider)).Get(now).GetOr(0.0)
  }

  function ScoreAll(s: Stats, candidates: seq<Candidate>, now: real): (scored: seq<Scored>)
    ensures |scored| == |candidates|
  {
    seq(|candidates|, k requires 0 <= k < |candidates| => Scored(Score(s, candidates[k], now), candidates[k]))
  }

  function CandidatesOf(scored: seq<Scored>): (candidates: seq<Candidate>)
    ensures |candidates| == |scored|
  {
    seq(|scored|, k requires 0 <= k < |scored| => scored[k].candidate)
  }

  function Ranked(s: Stats, candidates: seq<Candidate>, now: real): seq<Candidate> {
    CandidatesOf(StableSort(ScoreAll(s, candidates, now)))
  }

  // ---- Recording ----

  /** The moving average of the latency, kept to a tenth of a millisecond. */
  function Averaged(cell: Cell<real>, latencyMs: int, now: real): real {
    var current := cell.Get(now).GetOr(latencyMs as real);
    RoundTo(current * 0.7 + latencyMs as real * 0.3, 10.0)
  }

  function Counted(cell: Cell<int>, now: real): Cell<int> {
    Expire(Incr(cell, now), now + STATS_SECONDS)
  }

  function ErrorRate(successes: int, failures: int): real {
    if successes + failures > 0 then failures as real / (successes + failures) as real else 0.0
  }

  function WithErrorRate(s: Stats, provider: string, now: real): Stats {
    var successes := Lookup(s.counters, SuccessKey(provider)).Get(now).GetOr(0);
    var failures := Lookup(s.counters, FailureKey(provider)).Get(now).GetOr(0);
    s.(floats := s.floats[ErrorKey(provider) :=
      Held(RoundTo(ErrorRate(successes, failures), 10000.0), At(now + STATS_SECONDS))])
  }

  function AfterSuccess(s: Stats, c: Candidate, latencyMs: int, now: real): Stats {
    var average := Averaged(Lookup(s.floats, LatencyKey(c)), latencyMs, now);
    var counted := Counted(Lookup(s.counters, SuccessKey(c.provider)), now);
    WithErrorRate(
      Stats(s.floats[LatencyKey(c) := Held(average, At(now + STATS_SECONDS))],
            s.counters[SuccessKey(c.provider) := counted]),
      c.provider, now)
  }

  function AfterFailure(s: Stats, c: Candidate, now: real): Stats {
    var counted := Counted(Lookup(s.counters, FailureKey(c.provider)), now);
    WithErrorRate(s.(counters := s.counters[FailureKey(c.provider) := counted]), c.provider, now)
  }

  class ProviderRanker {
    const redis: Server

    constructor (redis: Server)
      ensures this.redis == redis
    {
      this.redis := redis;
    }

    ghost function View(): Stats
      reads redis
    {
      Stats(redis.reals, redis.counters)
    }

    method Rank(candidates: seq<Candidate>, now: real) returns (ranked: seq<Candidate>)
      ensures ranked == if |candidates| <= 1 then candidates else Ranked(View(), candidates, now)
    {
      if |candidates| <= 1 {
        return candidates;
      }
      var scored: seq<Scored> := [];
      for k := 0 to |candidates|
        invariant scored == ScoreAll(View(), candidates, now)[..k]
      {
        var score := ScoreOf(candidates[k], now);
        scored := scored + [Scored(score, candidates[k])];
      }
      assert ScoreAll(View(), candidates, now)[..|candidates|] == ScoreAll(View(), candidates, now);
      scored := StableSort(scored);
      return CandidatesOf(scored);
    }

    method ScoreOf(c: Candidate, now: real) returns (score: real)
      ensures score == Score(View(), c, now)
    {
      var p50 := Lookup(redis.reals, LatencyKey(c)).Get(now).GetOr(DEFAULT_LATENCY);
      var errorRate := Lookup(redis.reals, ErrorKey(c.provider)).Get(now).GetOr(0.0);
      score := ScoreFrom(p50, errorRate, CostWeight(c));
    }

    method RecordSuccess(c: Candidate, latencyMs: int, now: real)
      modifies redis`reals, redis`counters
      ensures View() == AfterSuccess(old(View()), c, latencyMs, now)
    {
      var average := Averaged(Lookup(redis.reals, LatencyKey(c)), latencyMs, now);
      redis.reals := redis.reals[LatencyKey(c) := Held(average, At(now + STATS_SECONDS))];
      var key := SuccessKey(c.provider);
      redis.counters := redis.counters[key := Counted(Lookup(redis.counters, key), now)];
      UpdateErrorRate(c.provider, now);
    }

    method RecordFailure(c: Candidate, now: real)
      modifies redis`reals, redis`counters
      ensures View() == AfterFailure(old(View()), c, now)
    {
      var key := FailureKey(c.provider);
      redis.counters := redis.counters[key := Counted(Lookup(redis.counters, key), now)];
      UpdateErrorRate(c.provider, now);
    }

    method UpdateErrorRate(provider: string, now: real)
      modifies redis`reals
      ensures View() == WithErrorRate(old(View()), provider, now)
    {
      var successes := Lookup(redis.counters, SuccessKey(provider)).Get(now).GetOr(0);
      var failures := Lookup(redis.counters, FailureKey(provider)).Get(now).GetOr(0);
      var rate := RoundTo(ErrorRate(successes, failures), 10000.0);
      redis.reals := redis.reals[ErrorKey(provider) := Held(rate, At(now + STATS_SECONDS))];
    }
  }

  // ---- Ranking is a stable permutation by score ----

  lemma SortedScores(s: Stats, candidates: seq<Candidate>, now: real)
    ensures
      var scored := ScoreAll(s, candidates, now);
      var sorted := StableSort(scored);
      && IsStableSortOf(sorted, scored)
      && |sorted| == |candidates|
      && (forall k | 0 <= k < |sorted| :: sorted[k] in scored && sorted[k].score == Score(s, sorted[k].candidate, now))
  {
    var scored := ScoreAll(s, candidates, now);
    var sorted := StableSort(scored);
    SortIsStable(scored);
    SortPermutes(scored);
    assert |sorted| == |multiset(sorted)| == |multiset(scored)| == |scored|;
    forall k | 0 <= k < |sorted|
      ensures sorted[k] in scored && sorted[k].score == Score(s, sorted[k].candidate, now)
    {
      assert sorted[k] in multiset(sorted);
    }
  }

  lemma RankedHolds(s: Stats, candidates: seq<Candidate>, now: real, c: Candidate)
    requires c in candidates
    ensures c in Ranked(s, candidates, now)
  {
    var scored := ScoreAll(s, candidates, now);
    var sorted := StableSort(scored);
    SortPermutes(scored);
    var k :| 0 <= k < |candidates| && candidates[k] == c;
    assert scored[k] in scored && scored[k] in multiset(sorted);
    var j :| 0 <= j < |sorted| && sorted[j] == scored[k];
    assert CandidatesOf(sorted)[j] == c;
  }

  lemma RankedMembers(s: Stats, candidates: seq<Candidate>, now: real, c: Candidate)
    ensures c in Ranked(s, candidates, now) <==> c in candidates
  {
    if c in candidates {
      RankedHolds(s, candidates, now, c);
    }
    SortedScores(s, candidates, now);
    var scored, sorted := ScoreAll(s, candidates, now), StableSort(ScoreAll(s, candidates, now));
    forall j | 0 <= j < |sorted| ensures sorted[j].candidate in candidates {
      assert sorted[j] in scored;
    }
  }

  /**
   The ranked list is the candidates of a stable sort of the scored input: the same
   candidates, best score first, equal scores in the order they came.
   */
  lemma RankedIsStable(s: Stats, candidates: seq<Candidate>, now: real) returns (sorted: seq<Scored>)
    ensures IsStableSortOf(sorted, ScoreAll(s, candidates, now))
    ensures Ranked(s, candidates, now) == CandidatesOf(sorted) && |sorted| == |candidates|
    ensures forall k | 0 <= k < |sorted| :: sorted[k].score == Score(s, sorted[k].candidate, now)
    ensures forall c :: c in Ranked(s, candidates, now) <==> c in candidates
  {
    sorted := StableSort(ScoreAll(s, candidates, now));
    SortedScores(s, candidates, now);
    forall c ensures c in Ranked(s, candidates, now) <==> c in candidates {
      RankedMembers(s, candidates, now, c);
    }
  }

  // ---- The moving average ----

  datatype Sample = Sample(latencyMs: int, at: real)

  function Latency(cell: Cell<real>, samples: seq<Sample>): Cell<real>
    decreases samples
  {
    if samples == [] then cell
    else
      var s := samples[0];
      Latency(Held(Averaged(cell, s.latencyMs, s.at), At(s.at + STATS_SECONDS)), samples[1..])
  }

  lemma TenthsKeepBounds(x: real, lo: int, hi: int)
    requires lo as real <= x <= hi as real
    ensures lo as real <= RoundTo(x, 10.0) <= hi as real
  {
    HalfEvenKeepsBounds(x * 10.0, 10 * lo, 10 * hi);
  }

  /**
   Whatever expires between samples, and despite the rounding, the stored latency stays
   between any whole bounds on the samples.
   */
  lemma {:induction false} LatencyWithinBounds(cell: Cell<real>, samples: seq<Sample>, lo: int, hi: int)
    requires cell.Held? ==> lo as real <= cell.value <= hi as real
    requires forall k | 0 <= k < |samples| :: lo <= samples[k].latencyMs <= hi
    ensures
      var cell' := Latency(cell, samples);
      cell'.Held? ==> lo as real <= cell'.value <= hi as real
    decreases samples
  {
    if samples != [] {
      var s := samples[0];
      var current := cell.Get(s.at).GetOr(s.latencyMs as real);
      TenthsKeepBounds(current * 0.7 + s.latencyMs as real * 0.3, lo, hi);
      LatencyWithinBounds(Held(Averaged(cell, s.latencyMs, s.at), At(s.at + STATS_SECONDS)), samples[1..], lo, hi);
    }
  }

  function Abs(x: real): real { if x < 0.0 then -x else x }

  function Decay(k: nat, x: real): real {
    if k == 0 then x else Decay(k - 1, x * 0.7)
  }

  const ROUNDING_SLACK := 1.0 / 6.0

  lemma {:induction false} DecayMonotone(k: nat, x: real, y: real, z: real)
    requires x <= y + z && 0.0 <= z
    ensures Decay(k, x) <= Decay(k, y) + z
    decreases k
  {
    if k > 0 {
      DecayMonotone(k - 1, x * 0.7, y * 0.7, z);
    }
  }

  /** One live sample moves the average to within 0.7 of its distance, plus half a tenth. */
  lemma OneSample(value: real, latencyMs: int)
    ensures Abs(RoundTo(value * 0.7 + latencyMs as real * 0.3, 10.0) - latencyMs as real)
         <= 0.7 * Abs(value - latencyMs as real) + 0.05
  {
    HalfEvenNear((value * 0.7 + latencyMs as real * 0.3) * 10.0);
  }

  /**
   A sample leaves seven tenths of a live average and three of itself, to the nearest tenth
   of a millisecond; with no live average it is stored as it is.
   */
  lemma SampleLeaves(cell: Cell<real>, latencyMs: int, now: real)
    ensures
      var tenths := Averaged(cell, latencyMs, now) * 10.0;
      if cell.Live(now) then
        tenths == tenths.Floor as real && Abs(tenths - (7.0 * cell.value + 3.0 * latencyMs as real)) <= 0.5
      else Averaged(cell, latencyMs, now) == latencyMs as real
  {
    if cell.Live(now) {
      HalfEvenNear((cell.value * 0.7 + latencyMs as real * 0.3) * 10.0);
    } else {
      var x := latencyMs as real;
      assert (x * 0.7 + x * 0.3) * 10.0 == (10 * latencyMs) as real;
      HalfEvenExact(10 * latencyMs);
    }
  }

  /** Samples of one constant value, each before the last one's key expires. */
  predicate SteadySamples(samples: seq<Sample>, latencyMs: int, deadline: real)
    decreases samples
  {
    samples != [] ==>
      && samples[0].latencyMs == latencyMs && samples[0].at < deadline
      && SteadySamples(samples[1..], latencyMs, samples[0].at + STATS_SECONDS)
  }

  /**
   While the key stays live, `k` samples of a constant value bring the stored latency to
   within `0.7^k` of its first distance, plus a sixth of a millisecond of rounding.
   */
  lemma {:induction false} LatencyConverges(cell: Cell<real>, samples: seq<Sample>, latencyMs: int)
    requires cell.Held? && cell.expiry.At? && SteadySamples(samples, latencyMs, cell.expiry.deadline)
    ensures
      var cell' := Latency(cell, samples);
      && cell'.Held?
      && Abs(cell'.value - latencyMs as real)
           <= Decay(|samples|, Abs(cell.value - latencyMs as real) - ROUNDING_SLACK) + ROUNDING_SLACK
    decreases samples
  {
    if samples != [] {
      var s := samples[0];
      var next := Held(Averaged(cell, s.latencyMs, s.at), At(s.at + STATS_SECONDS));
      OneSample(cell.value, latencyMs);
      LatencyConverges(next, samples[1..], latencyMs);
      var x := Abs(next.value - latencyMs as real) - ROUNDING_SLACK;
      var y := (Abs(cell.value - latencyMs as real) - ROUNDING_SLACK) * 0.7;
      DecayMonotone(|samples| - 1, x, y, 0.0);
    }
  }

  // ---- Scores ----

  lemma RateInUnit(successes: int, failures: int)
    requires 0 <= successes && 0 <= failures
    ensures 0.0 <= RoundTo(ErrorRate(successes, failures), 10000.0) <= 1.0
  {
    var rate := ErrorRate(successes, failures);
    if successes + failures > 0 {
      RatioInUnit(failures as real, (successes + failures) as real);
    }
    HalfEvenKeepsBounds(rate * 10000.0, 0, 10000);
  }

  lemma RatioInUnit(x: real, y: real)
    requires 0.0 <= x <= y && 0.0 < y
    ensures 0.0 <= x / y <= 1.0
  {
  }

  /** A score without its error rate. */
  function Base(latency: real, weight: real): real {
    latency * weight
  }

  lemma ScoreBounds(latency: real, errorRate: real, weight: real)
    requires 0.0 <= latency && 0.0 <= errorRate <= 1.0 && 0.0 <= weight
    ensures Base(latency, weight) <= ScoreFrom(latency, errorRate, weight) <= 2.0 * Base(latency, weight)
  {
    var base := latency * weight;
    assert 0.0 <= base;
    assert ScoreFrom(latency, errorRate, weight) == base + base * errorRate;
    assert 0.0 <= base * errorRate <= base * 1.0;
  }

  /** A higher error rate scores strictly worse: one plus the rate times what no errors score. */
  lemma ErrorsScoreWorse(latency: real, weight: real, rate: real, higher: real)
    requires 0.0 < latency && 0.0 < weight && rate < higher
    ensures ScoreFrom(latency, rate, weight) < ScoreFrom(latency, higher, weight)
    ensures ScoreFrom(latency, rate, weight) == (1.0 + rate) * ScoreFrom(latency, 0.0, weight)
    ensures ScoreFrom(latency, 0.0, weight) == Base(latency, weight)
  {
    var base := Base(latency, weight);
    PositiveProduct(latency, weight);
    PositiveProduct(base, higher - rate);
    assert ScoreFrom(latency, rate, weight) == base + base * rate;
    assert ScoreFrom(latency, higher, weight) == base + base * higher;
  }

  // ---- Scores over whole runs ----

  datatype Record = Succeeded(c: Candidate, latencyMs: nat, at: real) | Failed(c: Candidate, at: real)

  function Apply(s: Stats, r: Record): Stats {
    match r
    case Succeeded(c, latencyMs, at) => AfterSuccess(s, c, latencyMs, at)
    case Failed(c, at) => AfterFailure(s, c, at)
  }

  function ApplyAll(s: Stats, records: seq<Record>): Stats
    decreases records
  {
    if records == [] then s else ApplyAll(Apply(s, records[0]), records[1..])
  }

  ghost predicate InRange(cell: Cell<real>, top: bool) {
    cell.Held? ==> 0.0 <= cell.value && (top ==> cell.value <= 1.0)
  }

  /** Counters and latencies are not negative, error rates are between zero and one. */
  ghost predicate Sane(s: Stats) {
    && (forall k :: var cell := Lookup(s.counters, k); cell.Held? ==> 0 <= cell.value)
    && (forall c :: InRange(Lookup(s.floats, LatencyKey(c)), false))
    && (forall p :: InRange(Lookup(s.floats, ErrorKey(p)), true))
  }

  lemma StatsKeysDistinct(c: Candidate, p: string)
    ensures LatencyKey(c) != ErrorKey(p)
  {
    assert LatencyKey(c)[6] == 'l' && ErrorKey(p)[6] == 'e';
  }

  lemma WithErrorRateSane(s: Stats, provider: string, now: real)
    requires Sane(s)
    ensures Sane(WithErrorRate(s, provider, now))
  {
    var successes := Lookup(s.counters, SuccessKey(provider)).Get(now).GetOr(0);
    var failures := Lookup(s.counters, FailureKey(provider)).Get(now).GetOr(0);
    RateInUnit(successes, failures);
    var s' := WithErrorRate(s, provider, now);
    forall c ensures InRange(Lookup(s'.floats, LatencyKey(c)), false) {
      StatsKeysDistinct(c, provider);
      assert InRange(Lookup(s.floats, LatencyKey(c)), false);
    }
    forall p ensures InRange(Lookup(s'.floats, ErrorKey(p)), true) {
      assert InRange(Lookup(s.floats, ErrorKey(p)), true);
    }
  }

  lemma AveragedNonNegative(cell: Cell<real>, latencyMs: nat, now: real)
    requires cell.Held? ==> 0.0 <= cell.value
    ensures 0.0 <= Averaged(cell, latencyMs, now)
  {
    var x := cell.Get(now).GetOr(latencyMs as real) * 0.7 + latencyMs as real * 0.3;
    TenthsKeepBounds(x, 0, x.Floor + 1);
  }

  lemma LatencySane(s: Stats, c: Candidate, latencyMs: nat, now: real)
    requires Sane(s)
    ensures
      var average := Averaged(Lookup(s.floats, LatencyKey(c)), latencyMs, now);
      Sane(s.(floats := s.floats[LatencyKey(c) := Held(average, At(now + STATS_SECONDS))]))
  {
    assert InRange(Lookup(s.floats, LatencyKey(c)), false);
    AveragedNonNegative(Lookup(s.floats, LatencyKey(c)), latencyMs, now);
    var average := Averaged(Lookup(s.floats, LatencyKey(c)), latencyMs, now);
    var s' := s.(floats := s.floats[LatencyKey(c) := Held(average, At(now + STATS_SECONDS))]);
    forall d ensures InRange(Lookup(s'.floats, LatencyKey(d)), false) {
      assert InRange(Lookup(s.floats, LatencyKey(d)), false);
    }
    forall p ensures InRange(Lookup(s'.floats, ErrorKey(p)), true) {
      StatsKeysDistinct(c, p);
      assert InRange(Lookup(s.floats, ErrorKey(p)), true);
    }
  }

  lemma CountedSane(s: Stats, key: string, now: real)
    requires Sane(s)
    ensures Sane(s.(counters := s.counters[key := Counted(Lookup(s.counters, key), now)]))
  {
    var cell := Lookup(s.counters, key);
    assert cell.Held? ==> 0 <= cell.value;
    var counters := s.counters[key := Counted(cell, now)];
    forall k ensures var cell' := Lookup(counters, k); cell'.Held? ==> 0 <= cell'.value {
      var before := Lookup(s.counters, k);
      assert before.Held? ==> 0 <= before.value;
    }
  }

  lemma ApplySane(s: Stats, r: Record)
    requires Sane(s)
    ensures Sane(Apply(s, r))
  {
    match r
    case Succeeded(c, latencyMs, at) =>
      LatencySane(s, c, latencyMs, at);
      var average := Averaged(Lookup(s.floats, LatencyKey(c)), latencyMs, at);
      var s1 := s.(floats := s.floats[LatencyKey(c) := Held(average, At(at + STATS_SECONDS))]);
      CountedSane(s1, SuccessKey(c.provider), at);
      WithErrorRateSane(s1.(counters := s1.counters[SuccessKey(c.provider) :=
        Counted(Lookup(s1.counters, SuccessKey(c.provider)), at)]), c.provider, at);
    case Failed(c, at) =>
      CountedSane(s, FailureKey(c.provider), at);
      WithErrorRateSane(s.(counters := s.counters[FailureKey(c.provider) :=
        Counted(Lookup(s.counters, FailureKey(c.provider)), at)]), c.provider, at);
  }

  lemma {:induction false} ApplyAllSane(s: Stats, records: seq<Record>)
    requires Sane(s)
    ensures Sane(ApplyAll(s, records))
    decreases records
  {
    if records != [] {
      ApplySane(s, records[0]);
      ApplyAllSane(Apply(s, records[0]), records[1..]);
    }
  }

  lemma CostWeightPositive(c: Candidate)
    ensures 0.0 < CostWeight(c)
  {
    CostInUnits(RatesFor(c.provider, c.model), 1000, 1000);
  }

  lemma SaneInputs(s: Stats, c: Candidate, now: real)
    requires Sane(s)
    ensures 0.0 <= ScoredLatency(s, c, now) && 0.0 <= ScoredErrorRate(s, c, now) <= 1.0
  {
    assert InRange(Lookup(s.floats, LatencyKey(c)), false) && InRange(Lookup(s.floats, ErrorKey(c.provider)), true);
  }

  /** A candidate's latency times its cost weight. */
  function BaseScore(s: Stats, c: Candidate, now: real): real {
    Base(ScoredLatency(s, c, now), CostWeight(c))
  }

  lemma SaneScore(s: Stats, c: Candidate, now: real)
    requires Sane(s)
    ensures BaseScore(s, c, now) <= Score(s, c, now) <= 2.0 * BaseScore(s, c, now)
  {
    SaneInputs(s, c, now);
    CostWeightPositive(c);
    ScoreBounds(ScoredLatency(s, c, now), ScoredErrorRate(s, c, now), CostWeight(c));
  }

  ghost predicate NoStats(s: Stats) {
    s.floats == map[] && s.counters == map[]
  }

  /** After any records, failures at most double a candidate's latency times its cost weight. */
  lemma ErrorsAtMostDouble(start: Stats, records: seq<Record>, c: Candidate, now: real)
    requires NoStats(start)
    ensures
      var s := ApplyAll(start, records);
      BaseScore(s, c, now) <= Score(s, c, now) <= 2.0 * BaseScore(s, c, now)
  {
    ApplyAllSane(start, records);
    SaneScore(ApplyAll(start, records), c, now);
  }

  lemma PricesBounded()
    ensures forall k | k in PRICING :: PRICING[k].input + PRICING[k].output <= 9000
  {
  }

  lemma RatesBounded(provider: string, model: string)
    ensures RatesFor(provider, model).input + RatesFor(provider, model).output <= 9000
  {
    PricesBounded();
  }

  lemma CostOfThousand(rates: Rates)
    requires rates.input + rates.output <= 9000
    ensures 0.0 <= CostAt(rates, 1000, 1000) <= 0.09
    ensures CostAt(rates, 1000, 1000) == 0.0 <==> rates == Rates(0, 0)
  {
    CostInUnits(rates, 1000, 1000);
    assert Units(rates, 1000, 1000) == 1000 * (rates.input + rates.output);
  }

  /** What a thousand input and a thousand output tokens cost. */
  function Price(c: Candidate): real {
    EstimateCost(c.provider, c.model, 1000, 1000)
  }

  predicate Free(c: Candidate) {
    RatesFor(c.provider, c.model) == Rates(0, 0)
  }

  lemma PricedWeight(c: Candidate)
    ensures 0.0 <= Price(c) <= 0.09 && (Free(c) <==> Price(c) == 0.0)
    ensures CostWeight(c) == if Free(c) then 1.0 else Price(c)
  {
    RatesBounded(c.provider, c.model);
    CostOfThousand(RatesFor(c.provider, c.model));
  }

  /**
   With equal latency and error rate every free model scores more than eleven times as
   badly as any priced or unlisted one, because a zero price counts as weight one.
   */
  lemma FreeModelsRankLast(free: Candidate, priced: Candidate, latency: real, errorRate: real)
    requires 0.0 < latency && 0.0 <= errorRate <= 1.0
    requires Free(free) && !Free(priced)
    ensures 11.0 * ScoreFrom(latency, errorRate, CostWeight(priced)) < ScoreFrom(latency, errorRate, CostWeight(free))
  {
    PricedWeight(free);
    PricedWeight(priced);
    var base := latency * (1.0 + errorRate);
    PositiveProduct(latency, 1.0 + errorRate);
    PositiveProduct(base, 1.0 - 11.0 * CostWeight(priced));
  }

  lemma ScoresFollowWeights(latency: real, errorRate: real, x: real, y: real)
    requires 0.0 < latency && 0.0 <= errorRate
    ensures ScoreFrom(latency, errorRate, x) <= ScoreFrom(latency, errorRate, y) <==> x <= y
  {
    var base := latency * (1.0 + errorRate);
    PositiveProduct(latency, 1.0 + errorRate);
    if x < y {
      PositiveProduct(base, y - x);
    } else if y < x {
      PositiveProduct(base, x - y);
    }
  }

  /**
   With equal latency and error rate two models are scored in the order of their prices if
   and only if both are free or neither is.
   */
  lemma PriceOrderIff(a: Candidate, b: Candidate, latency: real, errorRate: real)
    requires 0.0 < latency && 0.0 <= errorRate <= 1.0
    ensures
      (ScoreFrom(latency, errorRate, CostWeight(a)) <= ScoreFrom(latency, errorRate, CostWeight(b)) <==> Price(a) <= Price(b))
      <==> (Free(a) <==> Free(b))
  {
    PricedWeight(a);
    PricedWeight(b);
    ScoresFollowWeights(latency, errorRate, CostWeight(a), CostWeight(b));
  }

  lemma PositiveProduct(x: real, y: real)
    requires 0.0 < x && 0.0 < y
    ensures 0.0 < x * y
  {
  }
}
