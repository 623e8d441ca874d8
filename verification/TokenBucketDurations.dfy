/**
 The int64 range of time.Duration. The nanoseconds of a decision are integers here; this module says
 for which configurations the code's conversion to int64 is exact.
 */
module TokenBucketDurations {
  import opened TokenBucket
  import opened TokenBucketRuns
  import opened TokenBucketBursts
  import opened TokenBucketEviction

  const INT64_LIMIT: int := 0x8000_0000_0000_0000

  /** The rate makes up for this many tokens within the range of a duration. */
  ghost predicate InRange(l: Limit, deficit: real) {
    deficit * NANOS as real < INT64_LIMIT as real * l.rate
  }

  lemma {:induction false} FloorBelow(x: real, n: int)
    ensures x.Floor < n <==> x < n as real
  {
  }

  lemma {:induction false} QuotientBelow(a: real, rate: real, n: real)
    requires rate > 0.0
    ensures a / rate * NANOS as real < n <==> a * NANOS as real < n * rate
  {
    var wait := a / rate;
    assert a == wait * rate;
    assert a * NANOS as real == wait * NANOS as real * rate;
    assert (n - wait * NANOS as real) * rate == n * rate - a * NANOS as real;
    SameSign(n - wait * NANOS as real, rate);
  }

  lemma {:induction false} SameSign(x: real, rate: real)
    requires rate > 0.0
    ensures x * rate > 0.0 <==> x > 0.0
  {
  }

  lemma {:induction false} RetryFitsIff(l: Limit, tokens: real)
    requires l.rate > 0.0 && tokens < 1.0
    ensures RetryAfter(l, tokens) < INT64_LIMIT <==> InRange(l, 1.0 - tokens)
  {
    QuotientBelow(1.0 - tokens, l.rate, INT64_LIMIT as real);
    FloorBelow((1.0 - tokens) / l.rate * NANOS as real, INT64_LIMIT);
  }

  /** The largest deficit a request can meet when timestamps lag by at most `lag`. */
  function Deficit(l: Limit, lag: real): real {
    1.0 - Lowest(l) + lag * l.rate
  }

  ghost predicate DurationsFit(ds: seq<Decision>) {
    forall i :: 0 <= i < |ds| ==> 0 <= ds[i].retryAfter < INT64_LIMIT
  }

  lemma {:induction false} RetryFits(l: Limit, tokens: real, lag: real)
    requires l.rate > 0.0 && InRange(l, Deficit(l, lag)) && Lowest(l) - lag * l.rate <= tokens < 1.0
    ensures 0 <= RetryAfter(l, tokens) < INT64_LIMIT
  {
    SmallerInRange(l, 1.0 - tokens, Deficit(l, lag));
    RetryFitsIff(l, tokens);
  }

  lemma {:induction false} SmallerInRange(l: Limit, a: real, b: real)
    requires a <= b && InRange(l, b)
    ensures InRange(l, a)
  {
  }

  lemma {:induction false} SpentTokens(l: Limit, b: Bucket, now: real)
    requires !Admits(l, b, now)
    ensures Spend(l, b, now).tokens == Refilled(l, b, now) < 1.0
  {
  }

  /** A request that is turned away meets at most the largest deficit. */
  lemma {:induction false} RejectedTokens(l: Limit, m: Store, clock: real, lag: real, key: string, now: real)
    requires l.rate > 0.0 && lag >= 0.0 && clock - lag <= now && Similar(l, m, m, clock, lag)
    requires !Admits(l, Loaded(l, m, key, now), now)
    ensures Lowest(l) - lag * l.rate <= Refilled(l, Loaded(l, m, key, now), now) < 1.0
  {
    ServedSound(l, m, clock, lag, key, now);
    SpentTokens(l, Loaded(l, m, key, now), now);
  }

  lemma {:induction false} DecisionFits(l: Limit, b: Bucket, now: real, lag: real)
    requires l.rate > 0.0 && InRange(l, Deficit(l, lag))
    requires !Admits(l, b, now) ==> Lowest(l) - lag * l.rate <= Refilled(l, b, now)
    ensures 0 <= Decide(l, b, now).retryAfter < INT64_LIMIT
  {
    if !Admits(l, b, now) {
      RetryFits(l, Refilled(l, b, now), lag);
    }
  }

  lemma {:induction false} RequestFits(l: Limit, m: Store, clock: real, lag: real, key: string, now: real)
    requires l.rate > 0.0 && lag >= 0.0 && InRange(l, Deficit(l, lag))
    requires clock - lag <= now && Similar(l, m, m, clock, lag)
    ensures 0 <= Decide(l, Loaded(l, m, key, now), now).retryAfter < INT64_LIMIT
  {
    var b := Loaded(l, m, key, now);
    if !Admits(l, b, now) {
      RejectedTokens(l, m, clock, lag, key, now);
    }
    DecisionFits(l, b, now, lag);
  }

  lemma {:induction false} SweepSound(l: Limit, m: Store, clock: real, lag: real, key: string, tick: real)
    requires l.rate > 0.0 && Similar(l, m, m, clock, lag)
    ensures var m' := Evict(m, key, tick - MAX_AGE);
            Similar(l, m', m', Later(clock, tick), lag)
  {
    StillSimilar(l, m, m, clock, Later(clock, tick), lag);
  }

  lemma {:induction false} RunFits(l: Limit, m: Store, clock: real, lag: real, events: seq<Event>)
    requires l.rate > 0.0 && lag >= 0.0 && InRange(l, Deficit(l, lag))
    requires Similar(l, m, m, clock, lag) && Lagging(events, clock, lag)
    ensures DurationsFit(Decisions(l, m, events))
    decreases |events|
  {
    if events != [] {
      match events[0]
      case Request(key, now) =>
        RequestFits(l, m, clock, lag, key, now);
        RequestSimilar(l, m, m, clock, lag, key, now);
        RunFits(l, Serve(l, m, key, now), Later(clock, now), lag, events[1..]);
      case Sweep(key, tick) =>
        SweepSound(l, m, clock, lag, key, tick);
        RunFits(l, Evict(m, key, tick - MAX_AGE), Later(clock, tick), lag, events[1..]);
    }
  }

  lemma {:induction false} PreludeLagging(l: Limit, key: string, lag: real)
    requires lag >= 0.0
    ensures Lagging(Prelude(l, key, lag), 0.0, lag)
  {
    BurstLagging(key, lag, Draining(l), 0.0, lag, [Request(key, 0.0)]);
  }

  lemma {:induction false} LateDecision(l: Limit, lag: real)
    requires l.rate > 0.0 && lag >= 0.0
    ensures var d := Decide(l, Bucket(Lowest(l), lag, lag), 0.0);
            d.retryAfter < INT64_LIMIT <==> InRange(l, Deficit(l, lag))
  {
    LateRefill(l, lag);
    RetryFitsIff(l, Lowest(l) - lag * l.rate);
  }

  /** The last request of the prelude meets the largest deficit. */
  lemma {:induction false} PreludeDeficit(l: Limit, key: string, lag: real)
    requires l.rate > 0.0 && lag >= 0.0
    ensures var ds := Decisions(l, map[], Prelude(l, key, lag));
            && ds != []
            && (ds[|ds| - 1].retryAfter < INT64_LIMIT <==> InRange(l, Deficit(l, lag)))
  {
    Drains(l, key, lag);
    DecisionsConcat(l, map[], Burst(key, lag, Draining(l)), [Request(key, 0.0)]);
    SingleRequest(l, map[key := Bucket(Lowest(l), lag, lag)], key, 0.0);
    LateDecision(l, lag);
  }

  ghost predicate AlwaysFits(l: Limit, lag: real)
    requires l.rate > 0.0
  {
    forall events: seq<Event>, clock: real ::
      Lagging(events, clock, lag) ==> DurationsFit(Decisions(l, map[], events))
  }

  /**
   In all runs whose timestamps lag by at most `lag` every RetryAfter is in the int64 range, if and
   only if the largest deficit such a run can build up is refilled within that range.
   */
  lemma {:induction false} AlwaysFitsIff(l: Limit, lag: real)
    requires l.rate > 0.0 && lag >= 0.0
    ensures AlwaysFits(l, lag) <==> InRange(l, Deficit(l, lag))
  {
    if InRange(l, Deficit(l, lag)) {
      forall events: seq<Event>, clock: real | Lagging(events, clock, lag)
        ensures DurationsFit(Decisions(l, map[], events))
      {
        RunFits(l, map[], clock, lag, events);
      }
    } else {
      PreludeLagging(l, "client", lag);
      PreludeDeficit(l, "client", lag);
      var ds := Decisions(l, map[], Prelude(l, "client", lag));
      assert !(ds[|ds| - 1].retryAfter < INT64_LIMIT);
    }
  }
}
