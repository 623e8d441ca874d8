/**
 When the background cleanup cannot be noticed, if calls and cleanup visits are undivided steps. A
 timestamp is read before its step takes effect, so the steps may see timestamps out of order, by the
 longest delay between the two.
 */
module TokenBucketEviction {
  import opened TokenBucket
  import opened TokenBucketRuns
  import opened TokenBucketBursts

  function Later(a: real, b: real): real {
    if a > b then a else b
  }

  /** The clock once the timestamp of the event has been read. */
  function Tick(clock: real, e: Event): real {
    Later(clock, if e.Request? then e.now else e.tick)
  }

  /** No request is timestamped more than `lag` before a timestamp that took effect earlier. */
  ghost predicate Lagging(events: seq<Event>, clock: real, lag: real)
    decreases |events|
  {
    events != [] ==>
      && (events[0].Request? ==> clock - lag <= events[0].now)
      && Lagging(events[1..], Tick(clock, events[0]), lag)
  }

  function WithoutSweeps(events: seq<Event>): seq<Event> {
    if events == [] then []
    else (if events[0].Request? then [events[0]] else []) + WithoutSweeps(events[1..])
  }

  /** The fewest tokens a bucket holds while timestamps are ordered. */
  function Lowest(l: Limit): real {
    if l.burst < 0 then l.burst as real else 0.0
  }

  /** What every bucket keeps when timestamps lag by at most `lag`. */
  ghost predicate Sound(l: Limit, b: Bucket, clock: real, lag: real) {
    && b.lastAccess == b.lastRefill <= clock
    && Lowest(l) - lag * l.rate <= b.tokens <= l.burst as real
    && Lowest(l) <= b.tokens + (clock - b.lastRefill) * l.rate
  }

  /** A bucket left alone is full at the given time. */
  ghost predicate Refills(l: Limit, b: Bucket, now: real) {
    b.tokens + (now - b.lastRefill) * l.rate >= l.burst as real
  }

  /** A bucket fills within the staleness age, less the lag of the last access and of the next. */
  ghost predicate FillsInTime(l: Limit, lag: real) {
    l.burst as real - Lowest(l) <= (300.0 - 2.0 * lag) * l.rate
  }

  /** `swept` is `kept` without some buckets, each of which is full before the next request. */
  ghost predicate Similar(l: Limit, swept: Store, kept: Store, clock: real, lag: real) {
    && (forall k :: k in swept ==> k in kept && swept[k] == kept[k])
    && (forall k :: k in kept ==> Sound(l, kept[k], clock, lag))
    && (forall k :: k in kept && k !in swept ==> Refills(l, kept[k], clock - lag))
  }

  lemma {:induction false} NonNegative(a: real, b: real)
    requires a >= 0.0 && b >= 0.0
    ensures a * b >= 0.0
  {
  }

  /** Between two moments a bucket grows by the rate. */
  lemma {:induction false} Grows(l: Limit, b: Bucket, from: real, to: real)
    requires l.rate > 0.0
    ensures b.tokens + (to - b.lastRefill) * l.rate
         == b.tokens + (from - b.lastRefill) * l.rate + (to - from) * l.rate
    ensures from <= to ==> 0.0 <= (to - from) * l.rate
  {
    if from <= to {
      NonNegative(to - from, l.rate);
    }
    assert (to - b.lastRefill) * l.rate == (from - b.lastRefill) * l.rate + (to - from) * l.rate;
  }

  lemma {:induction false} StillRefills(l: Limit, b: Bucket, clock: real, now: real)
    requires l.rate > 0.0 && clock <= now && Refills(l, b, clock)
    ensures Refills(l, b, now) && Refilled(l, b, now) == l.burst as real
  {
    Grows(l, b, clock, now);
  }

  lemma {:induction false} StaleRefills(l: Limit, b: Bucket, tick: real, lag: real)
    requires l.rate > 0.0 && FillsInTime(l, lag)
    requires b.lastRefill < tick - MAX_AGE && Lowest(l) - lag * l.rate <= b.tokens
    ensures Refills(l, b, tick - lag)
  {
    Grows(l, b, b.lastRefill + MAX_AGE - lag, tick - lag);
    assert (MAX_AGE - lag) * l.rate == (MAX_AGE - 2.0 * lag) * l.rate + lag * l.rate;
  }

  lemma {:induction false} StillSound(l: Limit, b: Bucket, clock: real, later: real, lag: real)
    requires l.rate > 0.0 && clock <= later && Sound(l, b, clock, lag)
    ensures Sound(l, b, later, lag)
  {
    Grows(l, b, clock, later);
  }

  lemma {:induction false} FullSound(l: Limit, now: real, clock: real, lag: real)
    requires l.rate > 0.0 && lag >= 0.0 && now <= clock
    ensures Sound(l, FullBucket(l, now), clock, lag)
  {
    NonNegative(lag, l.rate);
    NonNegative(clock - now, l.rate);
  }

  lemma {:induction false} GrownSinceLag(l: Limit, b: Bucket, clock: real, now: real, lag: real)
    requires l.rate > 0.0 && clock - lag <= now
    ensures b.tokens + (clock - b.lastRefill) * l.rate - lag * l.rate <= b.tokens + (now - b.lastRefill) * l.rate
  {
    NonNegative(now - clock + lag, l.rate);
    assert (now - clock + lag) * l.rate
        == (now - b.lastRefill) * l.rate - (clock - b.lastRefill) * l.rate + lag * l.rate;
  }

  /** What a sound bucket has grown to by a request in time, and by the clock after it. */
  lemma {:induction false} GrownInTime(l: Limit, b: Bucket, clock: real, now: real, lag: real)
    requires l.rate > 0.0 && clock - lag <= now && Sound(l, b, clock, lag)
    ensures var grown, more := b.tokens + (now - b.lastRefill) * l.rate, (Later(clock, now) - now) * l.rate;
            0.0 <= more && Lowest(l) - lag * l.rate <= grown && Lowest(l) <= grown + more
  {
    GrownSinceLag(l, b, clock, now, lag);
    Grows(l, b, now, Later(clock, now));
    Grows(l, b, clock, Later(clock, now));
  }

  lemma {:induction false} SpentBounds(l: Limit, grown: real, more: real, slack: real, tokens: real)
    requires 0.0 <= slack && 0.0 <= more && Lowest(l) - slack <= grown && Lowest(l) <= grown + more
    requires var capped := if grown > l.burst as real then l.burst as real else grown;
             tokens == if capped >= 1.0 then capped - 1.0 else capped
    ensures Lowest(l) - slack <= tokens <= l.burst as real && Lowest(l) <= tokens + more
  {
  }

  lemma {:induction false} SpentSound(l: Limit, b: Bucket, now: real, clock: real, lag: real,
                                      grown: real, more: real, slack: real)
    requires grown == b.tokens + (now - b.lastRefill) * l.rate
    requires more == (clock - now) * l.rate && slack == lag * l.rate
    requires now <= clock && 0.0 <= slack && 0.0 <= more && Lowest(l) - slack <= grown && Lowest(l) <= grown + more
    ensures Sound(l, Spend(l, b, now), clock, lag)
  {
    SpentBounds(l, grown, more, slack, Spend(l, b, now).tokens);
  }

  /** A request in time leaves a bucket that is sound at the new clock. */
  lemma {:induction false} SpendSound(l: Limit, b: Bucket, clock: real, now: real, lag: real)
    requires l.rate > 0.0 && lag >= 0.0 && clock - lag <= now && Sound(l, b, clock, lag)
    ensures Sound(l, Spend(l, b, now), Later(clock, now), lag)
  {
    var later := Later(clock, now);
    NonNegative(lag, l.rate);
    GrownInTime(l, b, clock, now, lag);
    SpentSound(l, b, now, later, lag, b.tokens + (now - b.lastRefill) * l.rate, (later - now) * l.rate, lag * l.rate);
  }

  /** A deleted bucket and the full one that replaces it decide alike and end alike. */
  lemma {:induction false} SameDecision(l: Limit, swept: Store, kept: Store, clock: real, lag: real,
                                        key: string, now: real)
    requires l.rate > 0.0 && clock - lag <= now && Similar(l, swept, kept, clock, lag)
    ensures Decide(l, Loaded(l, swept, key, now), now) == Decide(l, Loaded(l, kept, key, now), now)
    ensures Spend(l, Loaded(l, swept, key, now), now) == Spend(l, Loaded(l, kept, key, now), now)
  {
    if key in kept && key !in swept {
      StillRefills(l, kept[key], clock - lag, now);
      assert Refilled(l, FullBucket(l, now), now) == l.burst as real;
    }
  }

  lemma {:induction false} StillSimilar(l: Limit, swept: Store, kept: Store, clock: real, later: real, lag: real)
    requires l.rate > 0.0 && clock <= later && Similar(l, swept, kept, clock, lag)
    ensures Similar(l, swept, kept, later, lag)
  {
    forall k | k in kept ensures Sound(l, kept[k], later, lag) {
      StillSound(l, kept[k], clock, later, lag);
    }
    forall k | k in kept && k !in swept ensures Refills(l, kept[k], later - lag) {
      StillRefills(l, kept[k], clock - lag, later - lag);
    }
  }

  lemma {:induction false} ServedSound(l: Limit, m: Store, clock: real, lag: real, key: string, now: real)
    requires l.rate > 0.0 && lag >= 0.0 && clock - lag <= now
    requires key in m ==> Sound(l, m[key], clock, lag)
    ensures Sound(l, Spend(l, Loaded(l, m, key, now), now), Later(clock, now), lag)
  {
    if key in m {
      SpendSound(l, m[key], clock, now, lag);
    } else {
      FullSound(l, now, Later(clock, now), lag);
      SpendSound(l, FullBucket(l, now), Later(clock, now), now, lag);
    }
  }

  lemma {:induction false} RequestSimilar(l: Limit, swept: Store, kept: Store, clock: real, lag: real,
                                          key: string, now: real)
    requires l.rate > 0.0 && lag >= 0.0 && clock - lag <= now && Similar(l, swept, kept, clock, lag)
    ensures Similar(l, Serve(l, swept, key, now), Serve(l, kept, key, now), Later(clock, now), lag)
  {
    var later := Later(clock, now);
    SameDecision(l, swept, kept, clock, lag, key, now);
    StillSimilar(l, swept, kept, clock, later, lag);
    ServedSound(l, kept, clock, lag, key, now);
  }

  /** A bucket that is full before the next request may be dropped. */
  lemma {:induction false} DropSimilar(l: Limit, swept: Store, kept: Store, clock: real, lag: real, key: string)
    requires Similar(l, swept, kept, clock, lag) && key in swept && Refills(l, kept[key], clock - lag)
    ensures Similar(l, swept - {key}, kept, clock, lag)
  {
    forall k | k in kept && k !in swept - {key} ensures Refills(l, kept[k], clock - lag) {
      assert k == key || k !in swept;
    }
  }

  lemma {:induction false} StaleIsFull(l: Limit, b: Bucket, clock: real, lag: real, tick: real)
    requires l.rate > 0.0 && FillsInTime(l, lag) && Sound(l, b, clock, lag) && b.lastAccess < tick - MAX_AGE
    ensures Refills(l, b, Later(clock, tick) - lag)
  {
    StaleRefills(l, b, tick, lag);
    StillRefills(l, b, tick - lag, Later(clock, tick) - lag);
  }

  lemma {:induction false} SweepSimilar(l: Limit, swept: Store, kept: Store, clock: real, lag: real,
                                        key: string, tick: real)
    requires l.rate > 0.0 && FillsInTime(l, lag) && Similar(l, swept, kept, clock, lag)
    ensures Similar(l, Evict(swept, key, tick - MAX_AGE), kept, Later(clock, tick), lag)
  {
    StillSimilar(l, swept, kept, clock, Later(clock, tick), lag);
    if key in swept && swept[key].lastAccess < tick - MAX_AGE {
      StaleIsFull(l, kept[key], clock, lag, tick);
      DropSimilar(l, swept, kept, Later(clock, tick), lag, key);
    }
  }

  lemma {:induction false} SimilarRuns(l: Limit, swept: Store, kept: Store, clock: real, lag: real, events: seq<Event>,
                                       key: string)
    requires l.rate > 0.0 && lag >= 0.0 && FillsInTime(l, lag)
    requires Similar(l, swept, kept, clock, lag) && Lagging(events, clock, lag)
    ensures Decisions(l, swept, events) == Decisions(l, kept, WithoutSweeps(events))
    ensures DecisionsFor(l, swept, events, key) == DecisionsFor(l, kept, WithoutSweeps(events), key)
    decreases |events|
  {
    if events != [] {
      var e, rest, later := events[0], events[1..], Tick(clock, events[0]);
      match e
      case Request(who, now) =>
        SameDecision(l, swept, kept, clock, lag, who, now);
        RequestSimilar(l, swept, kept, clock, lag, who, now);
        SimilarRuns(l, Serve(l, swept, who, now), Serve(l, kept, who, now), later, lag, rest, key);
        assert ([e] + WithoutSweeps(rest))[1..] == WithoutSweeps(rest);
      case Sweep(who, tick) =>
        SweepSimilar(l, swept, kept, clock, lag, who, tick);
        SimilarRuns(l, Evict(swept, who, tick - MAX_AGE), kept, later, lag, rest, key);
        assert [] + WithoutSweeps(rest) == WithoutSweeps(rest);
    }
  }

  // ---- The condition is necessary ----

  /** As many requests as empty a bucket, and one for a bucket that holds no token at all. */
  function Draining(l: Limit): (n: nat)
    ensures n >= 1
  {
    if l.burst >= 1 then l.burst else 1
  }

  /** Drain the bucket at `lag`, then ask at 0. */
  function Prelude(l: Limit, key: string, lag: real): seq<Event> {
    Burst(key, lag, Draining(l)) + [Request(key, 0.0)]
  }

  /** Clean up at t, and ask for a burst again at t - lag. */
  function Probe(l: Limit, key: string, lag: real, t: real): seq<Event> {
    Prelude(l, key, lag) + ([Sweep(key, t)] + Burst(key, t - lag, Draining(l)))
  }

  lemma {:induction false} BurstLagging(key: string, t: real, n: nat, clock: real, lag: real, rest: seq<Event>)
    requires clock - lag <= t && lag >= 0.0 && Lagging(rest, if n == 0 then clock else Later(clock, t), lag)
    ensures Lagging(Burst(key, t, n) + rest, clock, lag)
    decreases n
  {
    if n == 0 {
      assert Burst(key, t, n) + rest == rest;
    } else {
      assert (Burst(key, t, n) + rest)[1..] == Burst(key, t, n - 1) + rest;
      BurstLagging(key, t, n - 1, Later(clock, t), lag, rest);
    }
  }

  lemma {:induction false} ProbeLagging(l: Limit, key: string, lag: real, t: real)
    requires lag >= 0.0 && t >= lag
    ensures Lagging(Probe(l, key, lag, t), 0.0, lag)
  {
    var n := Draining(l);
    var again := Burst(key, t - lag, n);
    BurstLagging(key, t - lag, n, t, lag, []);
    assert again + [] == again;
    var tail := [Request(key, 0.0), Sweep(key, t)] + again;
    assert tail[1..][1..] == again && tail[1..][0] == Sweep(key, t);
    BurstLagging(key, lag, n, 0.0, lag, tail);
    assert Probe(l, key, lag, t) == Burst(key, lag, n) + tail;
  }

  lemma {:induction false} SweepsDrop(a: seq<Event>, b: seq<Event>)
    requires forall e :: e in a ==> e.Request?
    ensures WithoutSweeps(a + b) == a + WithoutSweeps(b)
    decreases |a|
  {
    if a == [] {
      assert a + b == b;
      assert a + WithoutSweeps(b) == WithoutSweeps(b);
    } else {
      assert (a + b)[1..] == a[1..] + b;
      SweepsDrop(a[1..], b);
      assert [a[0]] + (a[1..] + WithoutSweeps(b)) == a + WithoutSweeps(b);
    }
  }

  lemma {:induction false} ProbeWithoutSweep(l: Limit, key: string, lag: real, t: real)
    ensures WithoutSweeps(Probe(l, key, lag, t)) == Prelude(l, key, lag) + Burst(key, t - lag, Draining(l))
  {
    var again := Burst(key, t - lag, Draining(l));
    SweepsDrop(Prelude(l, key, lag), [Sweep(key, t)] + again);
    SweepsDrop(again, []);
    assert ([Sweep(key, t)] + again)[1..] == again + [];
    assert again + [] == again;
    assert [] + again == again;
  }

  lemma {:induction false} Product(a: real, b: real, rate: real)
    ensures (a - b) * rate == a * rate - b * rate
  {
  }

  /** A time past the age limit at which the drained bucket is not full yet. */
  lemma {:induction false} UnfilledTime(l: Limit, lag: real) returns (t: real)
    requires l.rate > 0.0 && lag >= 0.0 && !FillsInTime(l, lag)
    ensures t > MAX_AGE && t >= lag && Lowest(l) + (t - 2.0 * lag) * l.rate < l.burst as real
  {
    var need := l.burst as real - Lowest(l);
    var full := need / l.rate;
    assert full * l.rate == need;
    if MAX_AGE - 2.0 * lag >= full {
      NonNegative(MAX_AGE - 2.0 * lag - full, l.rate);
      Product(MAX_AGE - 2.0 * lag, full, l.rate);
    }
    var end := full + 2.0 * lag;
    t := (Later(MAX_AGE, lag) + end) / 2.0;
    assert full > t - 2.0 * lag;
    Product(full, t - 2.0 * lag, l.rate);
    assert (full - (t - 2.0 * lag)) * l.rate > 0.0;
  }

  /** The bucket after the prelude: `lag` short of what an ordered run leaves. */
  function Drained(l: Limit, lag: real): Bucket {
    Bucket(Lowest(l) - lag * l.rate, 0.0, 0.0)
  }

  lemma {:induction false} Drains(l: Limit, key: string, t: real)
    requires l.rate > 0.0
    ensures StoreAfter(l, map[], Burst(key, t, Draining(l))) == map[key := Bucket(Lowest(l), t, t)]
  {
    FullRefilled(l, t);
    if l.burst >= 1 {
      CoveredBurst(l, map[], key, t, l.burst);
    } else {
      assert Burst(key, t, 1) == [Request(key, t)];
      SingleRequest(l, map[], key, t);
    }
  }

  lemma {:induction false} LateRefill(l: Limit, lag: real)
    requires l.rate > 0.0 && lag >= 0.0
    ensures Refilled(l, Bucket(Lowest(l), lag, lag), 0.0) == Lowest(l) - lag * l.rate <= 0.0
  {
    NonNegative(lag, l.rate);
    assert (0.0 - lag) * l.rate == -(lag * l.rate);
  }

  lemma {:induction false} LateSpend(l: Limit, lag: real)
    requires l.rate > 0.0 && lag >= 0.0
    ensures Spend(l, Bucket(Lowest(l), lag, lag), 0.0) == Drained(l, lag)
  {
    LateRefill(l, lag);
  }

  lemma {:induction false} SingleRequest(l: Limit, m: Store, key: string, now: real)
    requires l.rate > 0.0
    ensures Decisions(l, m, [Request(key, now)]) == [Decide(l, Loaded(l, m, key, now), now)]
    ensures StoreAfter(l, m, [Request(key, now)]) == Serve(l, m, key, now)
  {
    assert [Request(key, now)][1..] == [];
  }

  lemma {:induction false} PreludeDrains(l: Limit, key: string, lag: real)
    requires l.rate > 0.0 && lag >= 0.0
    ensures StoreAfter(l, map[], Prelude(l, key, lag)) == map[key := Drained(l, lag)]
  {
    var b := Bucket(Lowest(l), lag, lag);
    Drains(l, key, lag);
    StoreConcat(l, map[], Burst(key, lag, Draining(l)), [Request(key, 0.0)]);
    SingleRequest(l, map[key := b], key, 0.0);
    LateSpend(l, lag);
  }

  lemma {:induction false} DrainedRefill(l: Limit, lag: real, t: real)
    requires Lowest(l) + (t - 2.0 * lag) * l.rate < l.burst as real
    ensures Refilled(l, Drained(l, lag), t - lag) < l.burst as real
  {
    Product(t - lag, lag, l.rate);
  }

  /** A burst on a new bucket and on one that is not full end with different decisions. */
  lemma {:induction false} BurstsDiffer(l: Limit, m: Store, key: string, t: real)
    requires l.rate > 0.0 && key in m && Refilled(l, m[key], t) < l.burst as real
    ensures var n := Draining(l);
            var fresh', short := Decisions(l, map[], Burst(key, t, n)), Decisions(l, m, Burst(key, t, n));
            && |fresh'| == |short| == n && fresh'[n - 1] != short[n - 1]
            && (l.burst >= 1 ==> fresh'[n - 1].allowed && !short[n - 1].allowed)
  {
    if l.burst >= 1 {
      CoveredBurst(l, map[], key, t, l.burst);
      UncoveredBurst(l, m, key, t, l.burst);
    } else {
      assert Burst(key, t, 1)[1..] == [];
      assert Decide(l, FullBucket(l, t), t).remaining == l.burst;
      assert Decide(l, m[key], t).remaining < l.burst;
    }
  }

  /** With the cleanup the second burst meets a new bucket, without it the drained one. */
  lemma {:induction false} ProbeRuns(l: Limit, key: string, lag: real, t: real)
    requires l.rate > 0.0 && lag >= 0.0 && t > MAX_AGE
    ensures var first, again := Decisions(l, map[], Prelude(l, key, lag)), Burst(key, t - lag, Draining(l));
            && Decisions(l, map[], Probe(l, key, lag, t)) == first + Decisions(l, map[], again)
            && Decisions(l, map[], Prelude(l, key, lag) + again)
            == first + Decisions(l, map[key := Drained(l, lag)], again)
  {
    var again := Burst(key, t - lag, Draining(l));
    var drained: Store := map[key := Drained(l, lag)];
    PreludeDrains(l, key, lag);
    DecisionsConcat(l, map[], Prelude(l, key, lag), [Sweep(key, t)] + again);
    DecisionsConcat(l, map[], Prelude(l, key, lag), again);
    assert ([Sweep(key, t)] + again)[1..] == again;
    assert Evict(drained, key, t - MAX_AGE) == map[];
  }

  lemma {:induction false} ProbeNotices(l: Limit, key: string, lag: real, t: real)
    requires l.rate > 0.0 && lag >= 0.0 && t > MAX_AGE
    requires Lowest(l) + (t - 2.0 * lag) * l.rate < l.burst as real
    ensures var events := Probe(l, key, lag, t);
            var swept, plain := Decisions(l, map[], events), Decisions(l, map[], WithoutSweeps(events));
            && 0 < |swept| == |plain| && swept[|swept| - 1] != plain[|swept| - 1]
            && (l.burst >= 1 ==> swept[|swept| - 1].allowed && !plain[|swept| - 1].allowed)
  {
    ProbeWithoutSweep(l, key, lag, t);
    ProbeRuns(l, key, lag, t);
    DrainedRefill(l, lag, t);
    BurstsDiffer(l, map[key := Drained(l, lag)], key, t - lag);
  }

  ghost predicate Unobservable(l: Limit, lag: real)
    requires l.rate > 0.0
  {
    forall events: seq<Event>, clock: real :: Lagging(events, clock, lag) ==> SameWithoutSweeps(l, events)
  }

  ghost predicate SameWithoutSweeps(l: Limit, events: seq<Event>)
    requires l.rate > 0.0
  {
    Decisions(l, map[], events) == Decisions(l, map[], WithoutSweeps(events))
  }

  /**
   Eviction under bounded lag is unobservable: every run whose timestamps lag by at most `lag` makes
   the decisions of the same run without cleanups, if and only if an empty bucket fills within the
   staleness age less twice the lag.
   */
  lemma {:induction false} UnobservableIff(l: Limit, lag: real)
    requires l.rate > 0.0 && lag >= 0.0
    ensures Unobservable(l, lag) <==> FillsInTime(l, lag)
  {
    if FillsInTime(l, lag) {
      forall events: seq<Event>, clock: real | Lagging(events, clock, lag)
        ensures SameWithoutSweeps(l, events)
      {
        SimilarRuns(l, map[], map[], clock, lag, events, "client");
      }
    } else {
      var t := UnfilledTime(l, lag);
      ProbeLagging(l, "client", lag, t);
      ProbeNotices(l, "client", lag, t);
      assert !SameWithoutSweeps(l, Probe(l, "client", lag, t));
    }
  }

  /** With ordered timestamps the condition is that burst is at most 300 * rate. */
  lemma {:induction false} OrderedUnobservableIff(l: Limit)
    requires l.rate > 0.0
    ensures Unobservable(l, 0.0) <==> l.burst as real <= 300.0 * l.rate
  {
    UnobservableIff(l, 0.0);
  }

  /** Without a bound on the lag a cleanup can always be noticed. */
  lemma {:induction false} ObservableWithoutBound(l: Limit) returns (events: seq<Event>)
    requires l.rate > 0.0
    ensures !SameWithoutSweeps(l, events)
  {
    UnobservableIff(l, MAX_AGE);
    assert (MAX_AGE - 2.0 * MAX_AGE) * l.rate < 0.0;
    var run, clock: real :| Lagging(run, clock, MAX_AGE) && !SameWithoutSweeps(l, run);
    events := run;
  }
}
