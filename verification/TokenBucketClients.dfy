/** What one client of the store is granted, against the history specification of its bucket. */
module TokenBucketClients {
  import opened TokenBucket
  import opened TokenBucketHistory
  import opened TokenBucketRuns
  import opened TokenBucketBursts
  import opened TokenBucketEviction

  /** The timestamps of the requests of one key, in the order they take effect. */
  function TimesOf(events: seq<Event>, key: string): seq<real> {
    if events == [] then []
    else (if events[0].Request? && events[0].key == key then [events[0].now] else []) + TimesOf(events[1..], key)
  }

  lemma {:induction false} TimesConcat(a: seq<Event>, b: seq<Event>, key: string)
    ensures TimesOf(a + b, key) == TimesOf(a, key) + TimesOf(b, key)
    decreases |a|
  {
    if a == [] {
      assert a + b == b;
    } else {
      assert (a + b)[1..] == a[1..] + b;
      TimesConcat(a[1..], b, key);
    }
  }

  function Flags(ds: seq<Decision>): (flags: seq<bool>)
    ensures |flags| == |ds|
  {
    seq(|ds|, i requires 0 <= i < |ds| => ds[i].allowed)
  }

  /** What the specification grants to requests at the given times, the first of which creates the bucket. */
  ghost function Granted(l: Limit, times: seq<real>): (flags: seq<bool>)
    ensures |flags| == |times|
  {
    if times == [] then [] else Specified(l, times[0], times)[1..]
  }

  /** The key's bucket is the one created at the first of the key's requests, after all of them. */
  ghost predicate Holds(l: Limit, m: Store, key: string, past: seq<real>) {
    if past == [] then key !in m else key in m && m[key] == After(l, past[0], past)
  }

  /** What the bucket of the history grants. */
  function Given(l: Limit, times: seq<real>): (flags: seq<bool>)
    ensures |flags| == |times|
  {
    if times == [] then [] else Admitted(l, times[0], times)[1..]
  }

  /** The first request creates the bucket it is served from. */
  lemma {:induction false} LoadedIsAfter(l: Limit, m: Store, key: string, past: seq<real>, now: real)
    requires Holds(l, m, key, past)
    ensures Loaded(l, m, key, now) == After(l, (past + [now])[0], past)
  {
  }

  lemma {:induction false} GivenAppend(l: Limit, past: seq<real>, now: real)
    ensures Given(l, past + [now]) == Given(l, past) + [Admits(l, After(l, (past + [now])[0], past), now)]
  {
    var created := (past + [now])[0];
    AfterAppend(l, created, past, now);
    assert Given(l, past) == Admitted(l, created, past)[1..];
  }

  lemma {:induction false} RequestHolds(l: Limit, m: Store, key: string, past: seq<real>, now: real)
    requires Holds(l, m, key, past)
    ensures Given(l, past + [now]) == Given(l, past) + [Admits(l, Loaded(l, m, key, now), now)]
    ensures Holds(l, Serve(l, m, key, now), key, past + [now])
  {
    LoadedIsAfter(l, m, key, past, now);
    GivenAppend(l, past, now);
    AfterAppend(l, (past + [now])[0], past, now);
  }

  /** A request of another key leaves this one's bucket alone. */
  lemma {:induction false} OthersKeep(l: Limit, m: Store, key: string, past: seq<real>, e: Event)
    requires Holds(l, m, key, past) && e.Request? && e.key != key
    ensures Holds(l, Apply(l, m, e), key, past)
  {
  }

  lemma {:induction false} FlagsAppend(d: Decision, ds: seq<Decision>)
    ensures Flags([d] + ds) == [d.allowed] + Flags(ds)
  {
  }

  /** From a store that holds the past, the run leads to one that holds past and run. */
  ghost predicate Continues(l: Limit, m: Store, events: seq<Event>, key: string, past: seq<real>)
    requires l.rate > 0.0
  {
    && Holds(l, StoreAfter(l, m, events), key, past + TimesOf(events, key))
    && Given(l, past + TimesOf(events, key)) == Given(l, past) + Flags(DecisionsFor(l, m, events, key))
  }

  /** The key's own request is the first to be decided. */
  lemma {:induction false} OwnFlags(l: Limit, m: Store, events: seq<Event>, key: string)
    requires l.rate > 0.0 && events != [] && events[0].Request? && events[0].key == key
    ensures Flags(DecisionsFor(l, m, events, key))
         == [Admits(l, Loaded(l, m, key, events[0].now), events[0].now)]
            + Flags(DecisionsFor(l, Apply(l, m, events[0]), events[1..], key))
  {
    var now, rest := events[0].now, DecisionsFor(l, Apply(l, m, events[0]), events[1..], key);
    var d := Decide(l, Loaded(l, m, key, now), now);
    assert DecisionsFor(l, m, events, key) == [d] + rest;
    FlagsAppend(d, rest);
  }

  lemma {:induction false} OwnTimes(events: seq<Event>, key: string, past: seq<real>)
    requires events != [] && events[0].Request? && events[0].key == key
    ensures past + TimesOf(events, key) == past + [events[0].now] + TimesOf(events[1..], key)
  {
  }

  lemma {:induction false} Regroup(given: seq<bool>, flag: bool, more: seq<bool>)
    ensures given + [flag] + more == given + ([flag] + more)
  {
  }

  lemma {:induction false} OwnRequest(l: Limit, m: Store, events: seq<Event>, key: string, past: seq<real>)
    requires l.rate > 0.0 && Holds(l, m, key, past) && events != [] && events[0].Request? && events[0].key == key
    requires Continues(l, Apply(l, m, events[0]), events[1..], key, past + [events[0].now])
    ensures Continues(l, m, events, key, past)
  {
    var now, m', rest := events[0].now, Apply(l, m, events[0]), events[1..];
    OwnTimes(events, key, past);
    OwnFlags(l, m, events, key);
    RequestHolds(l, m, key, past, now);
    Regroup(Given(l, past), Admits(l, Loaded(l, m, key, now), now), Flags(DecisionsFor(l, m', rest, key)));
  }

  lemma {:induction false} OtherRequest(l: Limit, m: Store, events: seq<Event>, key: string, past: seq<real>)
    requires l.rate > 0.0 && events != [] && events[0].key != key
    requires Continues(l, Apply(l, m, events[0]), events[1..], key, past)
    ensures Continues(l, m, events, key, past)
  {
    assert TimesOf(events, key) == TimesOf(events[1..], key);
  }

  lemma {:induction false} RunHolds(l: Limit, m: Store, events: seq<Event>, key: string, past: seq<real>)
    requires l.rate > 0.0 && Holds(l, m, key, past) && forall e :: e in events ==> e.Request?
    ensures Continues(l, m, events, key, past)
    decreases |events|
  {
    if events == [] {
      assert past + [] == past;
    } else if events[0].key == key {
      RequestHolds(l, m, key, past, events[0].now);
      RunHolds(l, Apply(l, m, events[0]), events[1..], key, past + [events[0].now]);
      OwnRequest(l, m, events, key, past);
    } else {
      OthersKeep(l, m, key, past, events[0]);
      RunHolds(l, Apply(l, m, events[0]), events[1..], key, past);
      OtherRequest(l, m, events, key, past);
    }
  }

  lemma {:induction false} GivenIsGranted(l: Limit, times: seq<real>)
    ensures Given(l, times) == Granted(l, times)
  {
    if times != [] {
      BucketMeetsSpecification(l, times[0], times);
    }
  }

  /**
   Between cleanups the atomic store keeps for each key the bucket of the key's history, and grants
   what the history specification grants, for timestamps in any order and whatever other keys do.
   */
  lemma {:induction false} StoreMeetsSpecification(l: Limit, events: seq<Event>, key: string)
    requires l.rate > 0.0 && forall e :: e in events ==> e.Request?
    ensures var times := TimesOf(events, key);
            && Flags(DecisionsFor(l, map[], events, key)) == Granted(l, times)
            && (times != [] ==> key in StoreAfter(l, map[], events)
                                && StoreAfter(l, map[], events)[key] == After(l, times[0], times))
  {
    var times := TimesOf(events, key);
    RunHolds(l, map[], events, key, []);
    assert [] + times == times;
    GivenIsGranted(l, times);
    assert Given(l, []) + Flags(DecisionsFor(l, map[], events, key)) == Flags(DecisionsFor(l, map[], events, key));
  }

  // ---- A bucket that was created by another call than the first it serves ----

  lemma {:induction false} FullRefills(l: Limit, t: real)
    ensures Refills(l, FullBucket(l, t), t)
  {
    assert (t - t) * l.rate == 0.0;
  }

  lemma {:induction false} EarlyRefill(l: Limit, created: real, now: real)
    requires l.rate > 0.0 && created <= now
    ensures Refilled(l, FullBucket(l, created), now) == Refilled(l, FullBucket(l, now), now) == l.burst as real
  {
    FullRefills(l, created);
    StillRefills(l, FullBucket(l, created), created, now);
    FullRefilled(l, now);
  }

  lemma {:induction false} EarlySpend(l: Limit, created: real, now: real)
    requires l.rate > 0.0 && created <= now
    ensures Spend(l, FullBucket(l, created), now) == Spend(l, FullBucket(l, now), now)
    ensures Admits(l, FullBucket(l, created), now) == Admits(l, FullBucket(l, now), now)
  {
    EarlyRefill(l, created, now);
  }

  lemma {:induction false} FirstTake(l: Limit, created: real, now: real)
    ensures After(l, created, [now]) == Spend(l, FullBucket(l, created), now)
    ensures Admitted(l, created, [now]) == [false, Admits(l, FullBucket(l, created), now)]
  {
    AfterAppend(l, created, [], now);
    assert [] + [now] == [now];
  }

  /** A bucket created before its first request is full when that comes. */
  lemma {:induction false} EarlyCreation(l: Limit, created: real, takes: seq<real>)
    requires l.rate > 0.0 && takes != [] && created <= takes[0]
    ensures After(l, created, takes) == After(l, takes[0], takes)
    ensures Admitted(l, created, takes) == Admitted(l, takes[0], takes)
    decreases |takes|
  {
    var before, last := takes[..|takes| - 1], takes[|takes| - 1];
    if before == [] {
      assert takes == [last];
      EarlySpend(l, created, last);
      FirstTake(l, created, last);
      FirstTake(l, last, last);
    } else {
      assert takes == before + [last];
      EarlyCreation(l, created, before);
      AfterAppend(l, created, before, last);
      AfterAppend(l, takes[0], before, last);
    }
  }

  /** ... so that it grants what one created by that request grants. */
  lemma {:induction false} EarlyGranted(l: Limit, created: real, takes: seq<real>)
    requires l.rate > 0.0 && (takes != [] ==> created <= takes[0])
    ensures Specified(l, created, takes)[1..] == Granted(l, takes)
  {
    BucketMeetsSpecification(l, created, takes);
    if takes != [] {
      EarlyCreation(l, created, takes);
      BucketMeetsSpecification(l, takes[0], takes);
    }
  }

  function Same(t: real, n: nat): (times: seq<real>)
    ensures |times| == n
  {
    seq(n, _ => t)
  }

  lemma {:induction false} BurstTimes(key: string, t: real, n: nat)
    ensures TimesOf(Burst(key, t, n), key) == Same(t, n)
    decreases n
  {
    if n > 0 {
      assert Burst(key, t, n)[1..] == Burst(key, t, n - 1);
      BurstTimes(key, t, n - 1);
    }
  }

  /** The specification grants a burst on a new bucket. */
  lemma {:induction false} BurstGranted(l: Limit, t: real)
    requires l.rate > 0.0 && l.burst >= 1
    ensures forall i :: 0 <= i < l.burst ==> Granted(l, Same(t, l.burst))[i]
  {
    var events := Burst("", t, l.burst);
    FullRefilled(l, t);
    CoveredBurst(l, map[], "", t, l.burst);
    OneKey(l, map[], events, "");
    BurstTimes("", t, l.burst);
    StoreMeetsSpecification(l, events, "");
    assert Flags(Decisions(l, map[], events)) == Granted(l, Same(t, l.burst));
  }

  lemma {:induction false} SinceAll(admitted: seq<bool>, i: nat)
    requires i <= |admitted| && forall j :: i <= j < |admitted| ==> admitted[j]
    ensures Since(admitted, i) == |admitted| - i
    decreases |admitted| - i
  {
    if i < |admitted| {
      SinceAll(admitted, i + 1);
    }
  }

  lemma {:induction false} LateAllowance(l: Limit, created: real, t: real)
    requires l.rate > 0.0 && t < created
    ensures Allowance(l, created, t) < l.burst as real
  {
    assert (created - t) * l.rate > 0.0;
  }

  /** A bucket that grants a whole burst at t was not created after t: its allowance would be less. */
  lemma {:induction false} AllAdmitted(l: Limit, created: real, t: real)
    requires l.rate > 0.0 && l.burst >= 1
    requires forall j :: 1 <= j <= l.burst ==> Admitted(l, created, Same(t, l.burst))[j]
    ensures created <= t
  {
    var before, admitted := Same(t, l.burst - 1), Admitted(l, created, Same(t, l.burst));
    assert Same(t, l.burst) == before + [t];
    AfterAppend(l, created, before, t);
    assert admitted[l.burst] == Admits(l, After(l, created, before), t);
    SinceAll(admitted, 1);
    RateSafety(l, created, before, t, 0);
    if t < created {
      LateAllowance(l, created, t);
    }
  }

  lemma {:induction false} LateRefuses(l: Limit, created: real, t: real)
    requires l.rate > 0.0 && l.burst >= 1 && t < created
    ensures Specified(l, created, Same(t, l.burst))[1..] != Granted(l, Same(t, l.burst))
  {
    var takes := Same(t, l.burst);
    var admitted := Admitted(l, created, takes);
    BucketMeetsSpecification(l, created, takes);
    BurstGranted(l, t);
    if admitted[1..] == Granted(l, takes) {
      forall j | 1 <= j <= l.burst ensures admitted[j] {
        assert admitted[1..][j - 1] == admitted[j];
      }
      AllAdmitted(l, created, t);
    }
  }

  /** Creation at `created` grants what creation by the first request, at `first`, grants. */
  ghost predicate CreationIrrelevant(l: Limit, created: real, first: real) {
    forall takes: seq<real> :: takes != [] && takes[0] == first ==>
      Specified(l, created, takes)[1..] == Granted(l, takes)
  }

  /** ... if and only if it is not later, or nothing is granted at all. */
  lemma {:induction false} CreationIrrelevantIff(l: Limit, created: real, first: real)
    requires l.rate > 0.0
    ensures CreationIrrelevant(l, created, first) <==> created <= first || l.burst < 1
  {
    if created <= first || l.burst < 1 {
      forall takes: seq<real> | takes != [] && takes[0] == first
        ensures Specified(l, created, takes)[1..] == Granted(l, takes)
      {
        if l.burst < 1 {
          NeverConforms(l, created, takes);
          NothingSpecified(l, takes);
        } else {
          EarlyGranted(l, created, takes);
        }
      }
    } else {
      LateRefuses(l, created, first);
      assert Same(first, l.burst)[0] == first;
    }
  }

  // ---- With cleanups ----

  lemma {:induction false} RequestsRemain(events: seq<Event>, key: string)
    ensures forall e :: e in WithoutSweeps(events) ==> e.Request?
    ensures TimesOf(WithoutSweeps(events), key) == TimesOf(events, key)
    decreases |events|
  {
    if events != [] {
      var rest := WithoutSweeps(events[1..]);
      RequestsRemain(events[1..], key);
      assert ([events[0]] + rest)[1..] == rest;
      assert [] + rest == rest;
    }
  }

  ghost predicate MeetsSpecification(l: Limit, events: seq<Event>, key: string)
    requires l.rate > 0.0
  {
    Flags(DecisionsFor(l, map[], events, key)) == Granted(l, TimesOf(events, key))
  }

  /** Every key gets what the specification grants, in every run with at most this lag. */
  ghost predicate AlwaysMeetsSpecification(l: Limit, lag: real)
    requires l.rate > 0.0
  {
    forall events: seq<Event>, clock: real, key: string ::
      Lagging(events, clock, lag) ==> MeetsSpecification(l, events, key)
  }

  lemma {:induction false} CleanupsMeetSpecification(l: Limit, events: seq<Event>, clock: real, lag: real,
                                                     key: string)
    requires l.rate > 0.0 && lag >= 0.0 && FillsInTime(l, lag) && Lagging(events, clock, lag)
    ensures MeetsSpecification(l, events, key)
  {
    SimilarRuns(l, map[], map[], clock, lag, events, key);
    RequestsRemain(events, key);
    StoreMeetsSpecification(l, WithoutSweeps(events), key);
  }

  lemma {:induction false} OneKey(l: Limit, m: Store, events: seq<Event>, key: string)
    requires l.rate > 0.0 && forall e :: e in events ==> e.key == key
    ensures DecisionsFor(l, m, events, key) == Decisions(l, m, events)
    decreases |events|
  {
    if events != [] {
      OneKey(l, Apply(l, m, events[0]), events[1..], key);
    }
  }

  lemma {:induction false} RemainingKeys(events: seq<Event>, key: string)
    requires forall e :: e in events ==> e.key == key
    ensures forall e :: e in WithoutSweeps(events) ==> e.key == key
    decreases |events|
  {
    if events != [] {
      RemainingKeys(events[1..], key);
    }
  }

  /** The probe is granted one request more than the specification grants. */
  lemma {:induction false} ProbeExceeds(l: Limit, key: string, lag: real, t: real)
    requires l.rate > 0.0 && l.burst >= 1 && lag >= 0.0 && t > MAX_AGE
    requires Lowest(l) + (t - 2.0 * lag) * l.rate < l.burst as real
    ensures !MeetsSpecification(l, Probe(l, key, lag, t), key)
  {
    var events := Probe(l, key, lag, t);
    var plain := WithoutSweeps(events);
    RemainingKeys(events, key);
    RequestsRemain(events, key);
    OneKey(l, map[], events, key);
    OneKey(l, map[], plain, key);
    ProbeNotices(l, key, lag, t);
    StoreMeetsSpecification(l, plain, key);
    var n := |Decisions(l, map[], events)|;
    assert Flags(Decisions(l, map[], events))[n - 1] && !Flags(Decisions(l, map[], plain))[n - 1];
  }

  // ---- A burst below 1 grants nothing, with or without cleanups ----

  lemma {:induction false} CountsAgree(l: Limit, m: Store, events: seq<Event>, key: string)
    requires l.rate > 0.0
    ensures |DecisionsFor(l, m, events, key)| == |TimesOf(events, key)|
    decreases |events|
  {
    if events != [] {
      CountsAgree(l, Apply(l, m, events[0]), events[1..], key);
    }
  }

  lemma {:induction false} NothingGranted(l: Limit, m: Store, events: seq<Event>, key: string)
    requires l.rate > 0.0 && l.burst < 1
    ensures forall i :: 0 <= i < |DecisionsFor(l, m, events, key)| ==> !DecisionsFor(l, m, events, key)[i].allowed
    decreases |events|
  {
    if events != [] {
      NothingGranted(l, Apply(l, m, events[0]), events[1..], key);
    }
  }

  lemma {:induction false} NothingSpecified(l: Limit, times: seq<real>)
    requires l.burst < 1
    ensures forall i :: 0 <= i < |times| ==> !Granted(l, times)[i]
  {
    if times != [] {
      NeverConforms(l, times[0], times);
    }
  }

  lemma {:induction false} NeverConforms(l: Limit, created: real, requests: seq<real>)
    requires l.burst < 1
    ensures forall i :: 0 <= i <= |requests| ==> !Specified(l, created, requests)[i]
    decreases |requests|
  {
    if requests != [] {
      NeverConforms(l, created, requests[..|requests| - 1]);
    }
  }

  /**
   The whole store with its cleanups grants every key exactly what the history specification of that
   key grants, in all runs whose timestamps lag by at most `lag`, if and only if no request can be
   granted at all or an empty bucket fills within the staleness age less twice the lag.
   */
  lemma {:induction false} AlwaysMeetsSpecificationIff(l: Limit, lag: real)
    requires l.rate > 0.0 && lag >= 0.0
    ensures AlwaysMeetsSpecification(l, lag) <==> l.burst < 1 || FillsInTime(l, lag)
  {
    if l.burst < 1 || FillsInTime(l, lag) {
      forall events: seq<Event>, clock: real, key: string | Lagging(events, clock, lag)
        ensures MeetsSpecification(l, events, key)
      {
        if l.burst < 1 {
          NothingGranted(l, map[], events, key);
          NothingSpecified(l, TimesOf(events, key));
          CountsAgree(l, map[], events, key);
        } else {
          CleanupsMeetSpecification(l, events, clock, lag, key);
        }
      }
    } else {
      var t := UnfilledTime(l, lag);
      ProbeLagging(l, "client", lag, t);
      ProbeExceeds(l, "client", lag, t);
    }
  }
}
