/**
 Runs of the whole store. A cleanup pass is a sequence of sweeps, one per key, that may interleave
 with requests; a sweep's stale check and deletion are one step, and so is an `Allow` call.
 */
module TokenBucketRuns {
  import opened TokenBucket

  /** A request of a client, or the visit of the cleanup that started at `tick` to one key. */
  datatype Event = Request(key: string, now: real) | Sweep(key: string, tick: real)

  function Apply(l: Limit, m: Store, e: Event): Store {
    match e
    case Request(key, now) => Serve(l, m, key, now)
    case Sweep(key, tick) => Evict(m, key, tick - MAX_AGE)
  }

  function StoreAfter(l: Limit, m: Store, events: seq<Event>): Store
    decreases |events|
  {
    if events == [] then m else StoreAfter(l, Apply(l, m, events[0]), events[1..])
  }

  /** The decisions on all requests, in order. */
  function Decisions(l: Limit, m: Store, events: seq<Event>): seq<Decision>
    requires l.rate > 0.0
    decreases |events|
  {
    if events == [] then []
    else
      var e, rest := events[0], Decisions(l, Apply(l, m, events[0]), events[1..]);
      match e
      case Request(key, now) => [Decide(l, Loaded(l, m, key, now), now)] + rest
      case Sweep(_, _) => rest
  }

  /** The decisions on the requests of one key. */
  function DecisionsFor(l: Limit, m: Store, events: seq<Event>, key: string): seq<Decision>
    requires l.rate > 0.0
    decreases |events|
  {
    if events == [] then []
    else
      var e, rest := events[0], DecisionsFor(l, Apply(l, m, events[0]), events[1..], key);
      if e.Request? && e.key == key then [Decide(l, Loaded(l, m, key, e.now), e.now)] + rest else rest
  }

  lemma {:induction false} StoreConcat(l: Limit, m: Store, a: seq<Event>, b: seq<Event>)
    ensures StoreAfter(l, m, a + b) == StoreAfter(l, StoreAfter(l, m, a), b)
    decreases |a|
  {
    if a == [] {
      assert a + b == b;
    } else {
      assert (a + b)[1..] == a[1..] + b;
      StoreConcat(l, Apply(l, m, a[0]), a[1..], b);
    }
  }

  lemma {:induction false} DecisionsConcat(l: Limit, m: Store, a: seq<Event>, b: seq<Event>)
    requires l.rate > 0.0
    ensures Decisions(l, m, a + b) == Decisions(l, m, a) + Decisions(l, StoreAfter(l, m, a), b)
    decreases |a|
  {
    if a == [] {
      assert a + b == b;
    } else {
      assert (a + b)[1..] == a[1..] + b;
      DecisionsConcat(l, Apply(l, m, a[0]), a[1..], b);
    }
  }

  lemma {:induction false} DecisionsForConcat(l: Limit, m: Store, a: seq<Event>, b: seq<Event>, key: string)
    requires l.rate > 0.0
    ensures DecisionsFor(l, m, a + b, key) == DecisionsFor(l, m, a, key) + DecisionsFor(l, StoreAfter(l, m, a), b, key)
    decreases |a|
  {
    if a == [] {
      assert a + b == b;
    } else {
      assert (a + b)[1..] == a[1..] + b;
      DecisionsForConcat(l, Apply(l, m, a[0]), a[1..], b, key);
    }
  }

  // ---- A cleanup pass is its sweeps ----

  function SweepAll(keys: seq<string>, tick: real): (events: seq<Event>)
    ensures |events| == |keys|
  {
    seq(|keys|, i requires 0 <= i < |keys| => Sweep(keys[i], tick))
  }

  /** Sweeping every key, in any order, leaves what one RunCleanup pass leaves. */
  lemma {:induction false} SweepsAreCleanup(l: Limit, m: Store, keys: seq<string>, tick: real)
    ensures StoreAfter(l, m, SweepAll(keys, tick))
         == map k | k in m && !(k in keys && m[k].lastAccess < tick - MAX_AGE) :: m[k]
    decreases |keys|
  {
    if keys != [] {
      var m' := Evict(m, keys[0], tick - MAX_AGE);
      assert SweepAll(keys, tick)[1..] == SweepAll(keys[1..], tick);
      SweepsAreCleanup(l, m', keys[1..], tick);
      assert forall k :: k in keys <==> k == keys[0] || k in keys[1..];
    }
  }

  // ---- Clients do not interfere ----

  function Only(events: seq<Event>, key: string): seq<Event> {
    if events == [] then []
    else (if events[0].key == key then [events[0]] else []) + Only(events[1..], key)
  }

  ghost predicate SameFor(a: Store, b: Store, key: string) {
    (key in a <==> key in b) && (key in a ==> a[key] == b[key])
  }

  lemma {:induction false} RestrictedRun(l: Limit, a: Store, b: Store, events: seq<Event>, key: string)
    requires l.rate > 0.0 && SameFor(a, b, key)
    ensures DecisionsFor(l, a, events, key) == DecisionsFor(l, b, Only(events, key), key)
    ensures SameFor(StoreAfter(l, a, events), StoreAfter(l, b, Only(events, key)), key)
    decreases |events|
  {
    if events != [] {
      var e, rest := events[0], events[1..];
      if e.key == key {
        assert ([e] + Only(rest, key))[1..] == Only(rest, key);
        RestrictedRun(l, Apply(l, a, e), Apply(l, b, e), rest, key);
      } else {
        assert [] + Only(rest, key) == Only(rest, key);
        RestrictedRun(l, Apply(l, a, e), b, rest, key);
      }
    }
  }

  /** The decisions for a key are those of the run restricted to that key, in every run. */
  lemma {:induction false} NonInterference(l: Limit, m: Store, events: seq<Event>, key: string)
    requires l.rate > 0.0
    ensures DecisionsFor(l, m, events, key) == DecisionsFor(l, m, Only(events, key), key)
  {
    RestrictedRun(l, m, m, events, key);
  }

  // ---- The advertised Retry-After is enough ----

  /** The header is the least whole number of seconds above the exact wait, despite the truncation. */
  lemma {:induction false} RetrySecondsTight(l: Limit, tokens: real)
    requires l.rate > 0.0 && tokens < 1.0
    ensures var secs, wait := RetrySeconds(RetryAfter(l, tokens)), (1.0 - tokens) / l.rate;
            (secs - 1) as real <= wait < secs as real
  {
    var wait := (1.0 - tokens) / l.rate;
    var nanos := RetryAfter(l, tokens);
    assert nanos == (wait * NANOS as real).Floor;
    WholeSeconds(wait, nanos);
  }

  lemma {:induction false} WholeSeconds(wait: real, nanos: int)
    requires nanos == (wait * NANOS as real).Floor
    ensures (RetrySeconds(nanos) - 1) as real <= wait < RetrySeconds(nanos) as real
  {
    var secs := RetrySeconds(nanos);
    assert (secs - 1) * NANOS <= nanos && nanos + 1 <= secs * NANOS;
    assert nanos as real <= wait * NANOS as real < (nanos + 1) as real;
  }

  lemma {:induction false} WaitRefills(rate: real, tokens: real, elapsed: real)
    requires rate > 0.0 && elapsed > (1.0 - tokens) / rate
    ensures tokens + elapsed * rate > 1.0
  {
    var wait := (1.0 - tokens) / rate;
    assert wait * rate == 1.0 - tokens;
    assert (elapsed - wait) * rate > 0.0;
  }

  lemma {:induction false} WaitedEnough(l: Limit, tokens: real, elapsed: real)
    requires l.rate > 0.0 && tokens < 1.0 && elapsed >= RetrySeconds(RetryAfter(l, tokens)) as real
    ensures tokens + elapsed * l.rate >= 1.0
  {
    RetrySecondsTight(l, tokens);
    WaitRefills(l.rate, tokens, elapsed);
  }

  /** The tokens a bucket stands for at time 0, which only an admission or the cap can lower. */
  function Potential(l: Limit, b: Bucket): real {
    b.tokens - b.lastRefill * l.rate
  }

  ghost predicate Waiting(l: Limit, m: Store, key: string, potential: real) {
    key in m ==> Potential(l, m[key]) == potential
  }

  ghost predicate NoneAdmitted(l: Limit, m: Store, events: seq<Event>, key: string)
    requires l.rate > 0.0
  {
    var ds := DecisionsFor(l, m, events, key);
    forall i :: 0 <= i < |ds| ==> !ds[i].allowed
  }

  lemma {:induction false} GrownFromPotential(l: Limit, b: Bucket, now: real)
    ensures b.tokens + (now - b.lastRefill) * l.rate == Potential(l, b) + now * l.rate
  {
  }

  lemma {:induction false} RejectionKeepsPotential(l: Limit, b: Bucket, now: real)
    requires l.burst >= 1 && !Admits(l, b, now)
    ensures Potential(l, Spend(l, b, now)) == Potential(l, b)
  {
    GrownFromPotential(l, b, now);
  }

  lemma {:induction false} NoneAdmittedSplit(l: Limit, m: Store, events: seq<Event>, key: string)
    requires l.rate > 0.0 && events != [] && NoneAdmitted(l, m, events, key)
    ensures NoneAdmitted(l, Apply(l, m, events[0]), events[1..], key)
    ensures var e := events[0];
            e.Request? && e.key == key ==> !Admits(l, Loaded(l, m, key, e.now), e.now)
  {
    var e, all := events[0], DecisionsFor(l, m, events, key);
    var rest := DecisionsFor(l, Apply(l, m, e), events[1..], key);
    if e.Request? && e.key == key {
      assert all == [Decide(l, Loaded(l, m, key, e.now), e.now)] + rest;
      assert !all[0].allowed;
      assert forall i :: 0 <= i < |rest| ==> rest[i] == all[i + 1];
    } else {
      assert all == rest;
    }
  }

  lemma {:induction false} EventKeepsWaiting(l: Limit, m: Store, e: Event, key: string, potential: real)
    requires l.burst >= 1 && Waiting(l, m, key, potential)
    requires e.Request? && e.key == key ==> !Admits(l, Loaded(l, m, key, e.now), e.now)
    ensures Waiting(l, Apply(l, m, e), key, potential)
  {
    if e.Request? && e.key == key {
      RejectionKeepsPotential(l, Loaded(l, m, key, e.now), e.now);
      FullAdmits(l, e.now);
      assert key in m;
    }
  }

  lemma {:induction false} FullAdmits(l: Limit, now: real)
    requires l.burst >= 1
    ensures Admits(l, FullBucket(l, now), now)
  {
  }

  lemma {:induction false} RunKeepsWaiting(l: Limit, m: Store, events: seq<Event>, key: string, potential: real)
    requires l.rate > 0.0 && l.burst >= 1
    requires Waiting(l, m, key, potential) && NoneAdmitted(l, m, events, key)
    ensures Waiting(l, StoreAfter(l, m, events), key, potential)
    decreases |events|
  {
    if events != [] {
      NoneAdmittedSplit(l, m, events, key);
      EventKeepsWaiting(l, m, events[0], key, potential);
      RunKeepsWaiting(l, Apply(l, m, events[0]), events[1..], key, potential);
    }
  }

  /** A bucket with the potential of b admits once b, left alone, would hold a token. */
  lemma {:induction false} AdmitsByPotential(l: Limit, b: Bucket, b': Bucket, now: real)
    requires l.burst >= 1 && Potential(l, b') == Potential(l, b)
    requires b.tokens + (now - b.lastRefill) * l.rate >= 1.0
    ensures Admits(l, b', now)
  {
    GrownFromPotential(l, b, now);
    GrownFromPotential(l, b', now);
  }

  /**
   A rejected client is admitted as soon as its deficit has been refilled, if no request of its key
   was admitted meanwhile: whatever else happened, in whatever order the clocks ran.
   */
  lemma {:induction false} WaitSuffices(l: Limit, m: Store, key: string, t: real, events: seq<Event>, t': real)
    requires l.rate > 0.0 && l.burst >= 1
    requires !Admits(l, Loaded(l, m, key, t), t) && NoneAdmitted(l, Serve(l, m, key, t), events, key)
    requires Refilled(l, Loaded(l, m, key, t), t) + (t' - t) * l.rate >= 1.0
    ensures Admits(l, Loaded(l, StoreAfter(l, Serve(l, m, key, t), events), key, t'), t')
  {
    var b := Spend(l, Loaded(l, m, key, t), t);
    var end := StoreAfter(l, Serve(l, m, key, t), events);
    RunKeepsWaiting(l, Serve(l, m, key, t), events, key, Potential(l, b));
    if key in end {
      AdmitsByPotential(l, b, end[key], t');
    } else {
      FullAdmits(l, t');
    }
  }

  /** The whole seconds of the Retry-After header are such a wait. */
  lemma {:induction false} RetryAfterSuffices(l: Limit, m: Store, key: string, t: real, d: Decision,
                                              events: seq<Event>, t': real)
    requires l.rate > 0.0 && l.burst >= 1
    requires d == Decide(l, Loaded(l, m, key, t), t) && !d.allowed
    requires NoneAdmitted(l, Serve(l, m, key, t), events, key)
    requires t' - t >= RetrySeconds(d.retryAfter) as real
    ensures Admits(l, Loaded(l, StoreAfter(l, Serve(l, m, key, t), events), key, t'), t')
  {
    WaitedEnough(l, Refilled(l, Loaded(l, m, key, t), t), t' - t);
    WaitSuffices(l, m, key, t, events, t');
  }
}
