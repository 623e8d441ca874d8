/** Several requests of one client at one moment. */
module TokenBucketBursts {
  import opened TokenBucket
  import opened TokenBucketRuns

  function Burst(key: string, t: real, n: nat): (events: seq<Event>)
    ensures |events| == n
  {
    seq(n, _ => Request(key, t))
  }

  /** No time passes between the requests of a burst. */
  lemma {:induction false} RefilledAtOnce(l: Limit, b: Bucket, t: real)
    ensures var b' := Spend(l, b, t);
            Refilled(l, b', t) == b'.tokens
  {
    assert (t - t) * l.rate == 0.0;
    assert Spend(l, b, t).tokens <= l.burst as real;
  }

  lemma {:induction false} FullRefilled(l: Limit, t: real)
    ensures Refilled(l, FullBucket(l, t), t) == l.burst as real
  {
    assert (t - t) * l.rate == 0.0;
  }

  /** A burst that the tokens cover is admitted as a whole. */
  lemma {:induction false} CoveredBurst(l: Limit, m: Store, key: string, t: real, n: nat)
    requires l.rate > 0.0 && n >= 1 && Refilled(l, Loaded(l, m, key, t), t) >= n as real
    ensures var ds := Decisions(l, m, Burst(key, t, n));
            |ds| == n && forall i :: 0 <= i < n ==> ds[i].allowed
    ensures StoreAfter(l, m, Burst(key, t, n))
         == m[key := Bucket(Refilled(l, Loaded(l, m, key, t), t) - n as real, t, t)]
    decreases n
  {
    var m' := Serve(l, m, key, t);
    assert Burst(key, t, n)[1..] == Burst(key, t, n - 1);
    RefilledAtOnce(l, Loaded(l, m, key, t), t);
    if n > 1 {
      CoveredBurst(l, m', key, t, n - 1);
    }
  }

  /** A burst that the tokens do not cover ends with a rejection. */
  lemma {:induction false} UncoveredBurst(l: Limit, m: Store, key: string, t: real, n: nat)
    requires l.rate > 0.0 && n >= 1 && Refilled(l, Loaded(l, m, key, t), t) < n as real
    ensures var ds := Decisions(l, m, Burst(key, t, n));
            |ds| == n && !ds[n - 1].allowed
    decreases n
  {
    var m' := Serve(l, m, key, t);
    assert Burst(key, t, n)[1..] == Burst(key, t, n - 1);
    RefilledAtOnce(l, Loaded(l, m, key, t), t);
    if n > 1 {
      UncoveredBurst(l, m', key, t, n - 1);
    }
  }

  /**
   The remaining count of a decision is exact: request number n of a burst at the same moment is
   admitted if and only if n is at most that count. Out-of-order clocks can make it negative; then
   no request is admitted.
   */
  lemma {:induction false} RemainingIsExact(l: Limit, m: Store, key: string, t: real, d: Decision, n: nat)
    requires l.rate > 0.0 && d == Decide(l, Loaded(l, m, key, t), t)
    requires n >= 1
    ensures var ds := Decisions(l, Serve(l, m, key, t), Burst(key, t, n));
            |ds| == n && (ds[n - 1].allowed <==> n <= d.remaining)
  {
    var b := Loaded(l, m, key, t);
    RefilledAtOnce(l, b, t);
    assert d.remaining == Spend(l, b, t).tokens.Floor;
    if n <= d.remaining {
      CoveredBurst(l, Serve(l, m, key, t), key, t, n);
    } else {
      UncoveredBurst(l, Serve(l, m, key, t), key, t, n);
    }
  }
}
