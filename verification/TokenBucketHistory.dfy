/**
 One bucket against its whole history. The requests reach the bucket in lock order; their
 timestamps are read before the lock is taken and may be out of order. Nothing here needs ordered
 timestamps, a positive rate or a positive burst.
 */
module TokenBucketHistory {
  import opened TokenBucket

  /** The bucket created at `created` after the requests. */
  function After(l: Limit, created: real, requests: seq<real>): Bucket {
    if requests == [] then FullBucket(l, created)
    else Spend(l, After(l, created, requests[..|requests| - 1]), requests[|requests| - 1])
  }

  /** One entry per moment of the history: the creation, admitted by nobody, then the requests. */
  function Times(created: real, requests: seq<real>): (times: seq<real>)
    ensures |times| == |requests| + 1
  {
    [created] + requests
  }

  function Admitted(l: Limit, created: real, requests: seq<real>): (admitted: seq<bool>)
    ensures |admitted| == |requests| + 1
  {
    if requests == [] then [false]
    else
      var before, now := requests[..|requests| - 1], requests[|requests| - 1];
      Admitted(l, created, before) + [Admits(l, After(l, created, before), now)]
  }

  lemma {:induction false} AfterAppend(l: Limit, created: real, past: seq<real>, now: real)
    ensures After(l, created, past + [now]) == Spend(l, After(l, created, past), now)
    ensures Admitted(l, created, past + [now])
         == Admitted(l, created, past) + [Admits(l, After(l, created, past), now)]
  {
    assert (past + [now])[..|past|] == past;
  }

  /** The number of admissions from moment i on. */
  function Since(admitted: seq<bool>, i: nat): (n: nat)
    requires i <= |admitted|
    decreases |admitted| - i
  {
    if i == |admitted| then 0 else (if admitted[i] then 1 else 0) + Since(admitted, i + 1)
  }

  /** What a window of the given bounds may admit. */
  function Allowance(l: Limit, from: real, now: real): real {
    l.burst as real + (now - from) * l.rate
  }

  /** What the window from moment i to `now` still has. */
  function Budget(l: Limit, times: seq<real>, admitted: seq<bool>, i: nat, now: real): real
    requires i < |times| == |admitted|
  {
    Allowance(l, times[i], now) - Since(admitted, i) as real
  }

  /** The tokens the bucket would hold at `now` without the cap. */
  function Grown(l: Limit, b: Bucket, now: real): real {
    b.tokens + (now - b.lastRefill) * l.rate
  }

  lemma {:induction false} SinceAppend(admitted: seq<bool>, more: bool, i: nat)
    requires i <= |admitted|
    ensures Since(admitted + [more], i) == Since(admitted, i) + if more then 1 else 0
    decreases |admitted| - i
  {
    if i == |admitted| {
      assert Since(admitted + [more], i + 1) == 0;
    } else {
      SinceAppend(admitted, more, i + 1);
    }
  }

  /** x is the minimum of the budgets of all windows that end at `now`. */
  ghost predicate IsLeast(l: Limit, times: seq<real>, admitted: seq<bool>, now: real, x: real)
    requires |times| == |admitted|
  {
    && (forall i :: 0 <= i < |times| ==> x <= Budget(l, times, admitted, i, now))
    && (exists i :: 0 <= i < |times| && x == Budget(l, times, admitted, i, now))
  }

  lemma {:induction false} ElapsedAdds(rate: real, a: real, b: real, c: real)
    ensures (c - a) * rate == (c - b) * rate + (b - a) * rate
  {
  }

  /** How a budget moves on when a request at `then` is decided. */
  lemma {:induction false} BudgetStep(l: Limit, times: seq<real>, admitted: seq<bool>, i: nat, then': real,
                                      d: bool, now: real)
    requires i < |times| == |admitted|
    ensures Budget(l, times + [then'], admitted + [d], i, now)
         == Budget(l, times, admitted, i, then') + (now - then') * l.rate - if d then 1.0 else 0.0
  {
    SinceAppend(admitted, d, i);
    ElapsedAdds(l.rate, times[i], then', now);
  }

  lemma {:induction false} BudgetLast(l: Limit, times: seq<real>, admitted: seq<bool>, then': real, d: bool,
                                      now: real)
    requires |times| == |admitted|
    ensures Budget(l, times + [then'], admitted + [d], |times|, now)
         == l.burst as real + (now - then') * l.rate - if d then 1.0 else 0.0
  {
    SinceAppend(admitted, d, |admitted|);
  }

  /** How the state moves on when a request at `then` is decided. */
  lemma {:induction false} SpendStep(l: Limit, b: Bucket, then': real, now: real)
    ensures Grown(l, Spend(l, b, then'), now)
         == Refilled(l, b, then') + (now - then') * l.rate - if Admits(l, b, then') then 1.0 else 0.0
    ensures var grown := Grown(l, b, then');
            Refilled(l, b, then') == if grown > l.burst as real then l.burst as real else grown
  {
  }

  lemma {:induction false} LeastStep(l: Limit, times: seq<real>, admitted: seq<bool>, b: Bucket, then': real,
                                     now: real)
    requires |times| == |admitted| && IsLeast(l, times, admitted, then', Grown(l, b, then'))
    ensures var d := Admits(l, b, then');
            IsLeast(l, times + [then'], admitted + [d], now, Grown(l, Spend(l, b, then'), now))
  {
    var d, x, n := Admits(l, b, then'), Grown(l, Spend(l, b, then'), now), |times|;
    SpendStep(l, b, then', now);
    BudgetLast(l, times, admitted, then', d, now);
    forall i | 0 <= i < n
      ensures Budget(l, times + [then'], admitted + [d], i, now)
           == x + Budget(l, times, admitted, i, then') - Refilled(l, b, then')
    {
      BudgetStep(l, times, admitted, i, then', d, now);
    }
    if Grown(l, b, then') > l.burst as real {
      assert x == Budget(l, times + [then'], admitted + [d], n, now);
    } else {
      var i :| 0 <= i < n && Grown(l, b, then') == Budget(l, times, admitted, i, then');
      assert x == Budget(l, times + [then'], admitted + [d], i, now);
    }
  }

  /** The O(1) state is the minimum of the budgets over the whole history. */
  lemma {:induction false} StateIsLeastBudget(l: Limit, created: real, requests: seq<real>, now: real)
    ensures IsLeast(l, Times(created, requests), Admitted(l, created, requests), now,
                    Grown(l, After(l, created, requests), now))
  {
    var times, admitted := Times(created, requests), Admitted(l, created, requests);
    if requests == [] {
      assert Since(admitted, 1) == 0;
      assert Budget(l, times, admitted, 0, now) == Grown(l, FullBucket(l, created), now);
    } else {
      var before, last := requests[..|requests| - 1], requests[|requests| - 1];
      StateIsLeastBudget(l, created, before, last);
      LeastStep(l, Times(created, before), Admitted(l, created, before), After(l, created, before), last, now);
      assert Times(created, before) + [last] == times;
    }
  }

  /** The specification: with this request every window ending at `now` stays within its allowance. */
  ghost predicate Conforms(l: Limit, times: seq<real>, admitted: seq<bool>, now: real)
    requires |times| == |admitted|
  {
    1 <= l.burst && forall i :: 0 <= i < |times| ==> Fits(l, times, admitted, i, now)
  }

  ghost predicate Fits(l: Limit, times: seq<real>, admitted: seq<bool>, i: int, now: real)
    requires 0 <= i < |times| == |admitted|
  {
    Since(admitted, i) as real + 1.0 <= Allowance(l, times[i], now)
  }

  lemma {:induction false} LeastConforms(l: Limit, times: seq<real>, admitted: seq<bool>, now: real, x: real)
    requires |times| == |admitted| && IsLeast(l, times, admitted, now, x)
    ensures x >= 1.0 <==> forall i :: 0 <= i < |times| ==> Fits(l, times, admitted, i, now)
  {
    var k :| 0 <= k < |times| && x == Budget(l, times, admitted, k, now);
    if x < 1.0 {
      assert !Fits(l, times, admitted, k, now);
    } else {
      forall i | 0 <= i < |times| ensures Fits(l, times, admitted, i, now) {
        assert x <= Budget(l, times, admitted, i, now);
      }
    }
  }

  lemma {:induction false} AdmitsUncapped(l: Limit, b: Bucket, now: real)
    ensures Admits(l, b, now) <==> 1 <= l.burst && Grown(l, b, now) >= 1.0
  {
    var burst := l.burst as real;
    assert l.burst >= 1 <==> burst >= 1.0;
    assert Refilled(l, b, now) == if Grown(l, b, now) > burst then burst else Grown(l, b, now);
  }

  /**
   A request is admitted if and only if adding it keeps every window that ends at it within
   burst + rate * elapsed, whatever order the timestamps arrive in.
   */
  lemma {:induction false} AdmitsIffConforms(l: Limit, created: real, requests: seq<real>, now: real)
    ensures Admits(l, After(l, created, requests), now)
       <==> Conforms(l, Times(created, requests), Admitted(l, created, requests), now)
  {
    var b := After(l, created, requests);
    StateIsLeastBudget(l, created, requests, now);
    LeastConforms(l, Times(created, requests), Admitted(l, created, requests), now, Grown(l, b, now));
    AdmitsUncapped(l, b, now);
  }

  /** The decisions of the specification alone, made from the history. */
  ghost function Specified(l: Limit, created: real, requests: seq<real>): (admitted: seq<bool>)
    ensures |admitted| == |requests| + 1
  {
    if requests == [] then [false]
    else
      var before, now := requests[..|requests| - 1], requests[|requests| - 1];
      var past := Specified(l, created, before);
      past + [Conforms(l, Times(created, before), past, now)]
  }

  /** The bucket makes the decisions of the history specification, for every run. */
  lemma {:induction false} BucketMeetsSpecification(l: Limit, created: real, requests: seq<real>)
    ensures Admitted(l, created, requests) == Specified(l, created, requests)
  {
    if requests != [] {
      BucketMeetsSpecification(l, created, requests[..|requests| - 1]);
      AdmitsIffConforms(l, created, requests[..|requests| - 1], requests[|requests| - 1]);
    }
  }

  /**
   Rate safety under out-of-order clocks: from any moment on up to an admission at `now`, that
   admission included, no more than burst + rate * elapsed requests are admitted.
   */
  lemma {:induction false} RateSafety(l: Limit, created: real, requests: seq<real>, now: real, i: nat)
    requires i <= |requests| && Admits(l, After(l, created, requests), now)
    ensures var admitted := Admitted(l, created, requests + [now]);
            Since(admitted, i) as real <= Allowance(l, Times(created, requests)[i], now)
  {
    var before := Admitted(l, created, requests);
    assert (requests + [now])[..|requests|] == requests;
    AdmitsIffConforms(l, created, requests, now);
    SinceAppend(before, true, i);
    assert Fits(l, Times(created, requests), before, i, now);
  }
}
