/** The fields of a decision that become response headers, and the time of a bucket's last use. */
module TokenBucketHeaders {
  import opened TokenBucket
  import opened TokenBucketHistory
  import opened TokenBucketRuns
  import opened TokenBucketRaces

  lemma {:induction false} FloorWithin(x: real)
    ensures x.Floor as real <= x < x.Floor as real + 1.0
  {
  }

  lemma {:induction false} FlooredNanos(l: Limit, nanos: real)
    requires l.rate > 0.0 && nanos == 1_000_000_000.0 / l.rate
    ensures var step := nanos.Floor as real / 1_000_000_000.0;
            0.0 <= 1.0 / l.rate - step < 0.000_000_001
  {
    FloorWithin(nanos);
    assert 1.0 / l.rate == nanos / 1_000_000_000.0;
  }

  /**
   X-RateLimit-Limit is the burst, and X-RateLimit-Reset is the time at which one token's worth of
   time has passed, early by less than a nanosecond.
   */
  lemma {:induction false} LimitAndReset(l: Limit, b: Bucket, now: real)
    requires l.rate > 0.0
    ensures var d := Decide(l, b, now);
            d.limit == l.burst && 0.0 <= 1.0 / l.rate - (d.resetAt - now) < 0.000_000_001
  {
    FlooredNanos(l, 1_000_000_000.0 / l.rate);
  }

  /**
   X-RateLimit-Remaining is the number of whole tokens the request leaves in the bucket, which is
   negative below 0, and only a rejection asks the client to wait.
   */
  lemma {:induction false} RemainingTokens(l: Limit, b: Bucket, now: real)
    requires l.rate > 0.0
    ensures var d, left := Decide(l, b, now), Spend(l, b, now).tokens;
            && d.remaining as real <= left < d.remaining as real + 1.0
            && (d.allowed <==> Admits(l, b, now))
            && (d.allowed ==> d.retryAfter == 0)
  {
    FloorWithin(Spend(l, b, now).tokens);
  }

  /** When a bucket that turned a request away admits one again. */
  lemma {:induction false} AdmitsAfterWait(l: Limit, b: Bucket, t: real, t': real)
    requires l.rate > 0.0 && l.burst >= 1 && !Admits(l, b, t)
    ensures Admits(l, Spend(l, b, t), t') <==> (t' - t) * l.rate >= 1.0 - Refilled(l, b, t)
  {
  }

  lemma {:induction false} WaitInNanos(rate: real, deficit: real, elapsed: real)
    requires rate > 0.0
    ensures elapsed * rate >= deficit <==> elapsed * 1_000_000_000.0 >= deficit / rate * 1_000_000_000.0
  {
    var wait := deficit / rate;
    assert wait * rate == deficit;
    assert (elapsed - wait) * rate == elapsed * rate - deficit;
    SameSign(elapsed - wait, rate);
  }

  lemma {:induction false} SameSign(x: real, rate: real)
    requires rate > 0.0
    ensures x * rate >= 0.0 <==> x >= 0.0
  {
  }

  lemma {:induction false} RetryField(l: Limit, b: Bucket, t: real)
    requires l.rate > 0.0 && !Admits(l, b, t)
    ensures Decide(l, b, t).retryAfter == ((1.0 - Refilled(l, b, t)) / l.rate * 1_000_000_000.0).Floor
  {
  }

  /**
   The RetryAfter of a rejection is exact to the nanosecond: left alone, the bucket admits no request
   before that many nanoseconds have passed, and one more is enough.
   */
  lemma {:induction false} RetryAfterExact(l: Limit, b: Bucket, t: real, d: Decision, t': real)
    requires l.rate > 0.0 && l.burst >= 1 && d == Decide(l, b, t) && !d.allowed
    ensures Admits(l, Spend(l, b, t), t') ==> d.retryAfter as real <= (t' - t) * 1_000_000_000.0
    ensures d.retryAfter as real + 1.0 <= (t' - t) * 1_000_000_000.0 ==> Admits(l, Spend(l, b, t), t')
  {
    var deficit := 1.0 - Refilled(l, b, t);
    AdmitsAfterWait(l, b, t, t');
    WaitInNanos(l.rate, deficit, t' - t);
    RetryField(l, b, t);
    FloorWithin(deficit / l.rate * 1_000_000_000.0);
  }

  // ---- The last use of a bucket ----

  lemma {:induction false} UsedLast(l: Limit, created: real, takes: seq<real>)
    ensures var b, times := After(l, created, takes), Times(created, takes);
            b.lastAccess == b.lastRefill == times[|times| - 1]
  {
  }

  /**
   In every interleaving a visit finds a bucket stale exactly when its last locked section, or its
   creation if it had none, is timestamped more than 300 seconds before the visit.
   */
  lemma {:induction false} FoundStaleIff(l: Limit, steps: seq<Step>, id: nat, tick: real)
    requires IsRun(l, NewWorld, steps) && id < |Exec(l, NewWorld, steps).entries|
    ensures var w := Exec(l, NewWorld, steps);
            var e := w.entries[id];
            var times := Times(e.created, e.takes);
            Checks(w, id, tick).visits
            == w.visits + if times[|times| - 1] < tick - 300.0 then multiset{Visit(e.key, tick)} else multiset{}
  {
    var e := Exec(l, NewWorld, steps).entries[id];
    ObjectsMeetSpecification(l, steps, id);
    UsedLast(l, e.created, e.takes);
  }
}
