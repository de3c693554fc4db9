/**
 Counters that are incremented and given a new time to live at every event: what they read
 is the length of the latest chain of events.
 */
module Chains {
  import opened Wrappers
  import opened Redis

  /** The longest run of latest events with every gap, and the time since, under `span`. */
  function Chain(span: real, times: seq<real>, now: real): nat {
    if times == [] then 0
    else
      var n := |times| - 1;
      if now - times[n] >= span then 0 else 1 + Chain(span, times[..n], times[n])
  }

  /** The counter that the events leave. */
  function Counter(span: real, times: seq<real>): Cell<int> {
    if times == [] then Gone
    else
      var n := |times| - 1;
      Held(1 + Chain(span, times[..n], times[n]), At(times[n] + span))
  }

  lemma CounterReads(span: real, times: seq<real>, now: real)
    ensures Counter(span, times).Get(now).GetOr(0) == Chain(span, times, now)
    ensures Counter(span, times).Live(now) <==> Chain(span, times, now) > 0
  {
  }

  lemma CounterSnoc(span: real, times: seq<real>, now: real)
    ensures Counter(span, times + [now]) == Held(1 + Chain(span, times, now), At(now + span))
  {
    var more := times + [now];
    assert more[..|times|] == times && more[|times|] == now;
  }

  /** INCR and EXPIRE at one more event. */
  lemma CounterNext(span: real, times: seq<real>, now: real)
    ensures Expire(Incr(Counter(span, times), now), now + span) == Counter(span, times + [now])
    ensures Counter(span, times + [now]) == Held(1 + Chain(span, times, now), At(now + span))
  {
    CounterReads(span, times, now);
    CounterSnoc(span, times, now);
  }

  lemma ChainSnoc(span: real, times: seq<real>, at: real, now: real)
    ensures Chain(span, times + [at], now) == if now - at >= span then 0 else 1 + Chain(span, times, at)
  {
    assert (times + [at])[..|times|] == times;
  }

  /** Nothing is missing from the chain exactly when no gap reaches `span`. */
  lemma {:induction false} ChainAll(span: real, times: seq<real>, now: real)
    ensures Chain(span, times, now) <= |times|
    ensures Chain(span, times, now) == |times| <==>
      && (times != [] ==> now - times[|times| - 1] < span)
      && forall i | 0 < i < |times| :: times[i] - times[i - 1] < span
    decreases |times|
  {
    if times != [] {
      var n := |times| - 1;
      ChainAll(span, times[..n], times[n]);
    }
  }

  ghost predicate Ordered(times: seq<real>, now: real) {
    && (forall i, j | 0 <= i <= j < |times| :: times[i] <= times[j])
    && (forall i | 0 <= i < |times| :: times[i] <= now)
  }

  lemma OrderedSnoc(times: seq<real>, from: real, now: real)
    requires Ordered(times, from) && from <= now
    ensures Ordered(times + [now], now)
  {
  }

  /** A window shorter than `span` lies within the chain. */
  lemma {:induction false} ChainCoversWindow(span: real, times: seq<real>, i: nat, now: real)
    requires Ordered(times, now) && i < |times| && now - times[i] < span
    ensures Chain(span, times, now) >= |times| - i
    decreases times
  {
    var n := |times| - 1;
    if i < n {
      assert times[..n][i] == times[i];
      ChainCoversWindow(span, times[..n], i, times[n]);
    }
  }
}
