/**
 Current weights stay bounded over every run of `Next` and `SetHealthy`, however targets flap.

 The invariant bounds the sum over every subset of the targets by a function of the subset's size
 alone. The bound is concave with second difference -2 * total, so the subsets one smaller and one
 larger leave room for the one pick that could break it; it grows with the size, so forfeiting a
 weight is harmless.
 */
module WeightedDrift {
  import opened Arithmetic
  import opened Masks
  import opened Targets
  import opened Weighted
  import opened WeightedFairness
  import opened WeightedRuns

  /**
   Limits by subset size: growing, and bending down by at least 2 * total at every inner size.
   */
  ghost predicate Limits(g: seq<int>, n: nat, total: int) {
    && |g| == n + 1
    && (forall q :: 1 <= q <= n ==> Grows(g, q))
    && (forall q :: 1 <= q < n ==> Bends(g, q, total))
  }

  ghost predicate Grows(g: seq<int>, q: int)
    requires 1 <= q < |g|
  {
    g[q - 1] <= g[q]
  }

  ghost predicate Bends(g: seq<int>, q: int, total: int)
    requires 1 <= q < |g| - 1
  {
    g[q - 1] + g[q + 1] <= 2 * g[q] - 2 * total
  }

  ghost predicate Within(q: seq<bool>, c: seq<int>, g: seq<int>)
    requires |q| == |c| && |g| == |c| + 1
  {
    -g[Size(q, |c|)] <= Sum(q, c, |c|) <= g[Size(q, |c|)]
  }

  ghost predicate Bounded(c: seq<int>, g: seq<int>)
    requires |g| == |c| + 1
  {
    forall q: seq<bool> :: |q| == |c| ==> Within(q, c, g)
  }

  /** Raising adds the weights of the healthy members, at most W. */
  lemma {:induction false} SubsetRaise(q: seq<bool>, h: seq<bool>, w: seq<int>, c: seq<int>)
    requires |q| == |h| == |w| == |c|
    requires forall i :: 0 <= i < |w| ==> w[i] >= 0
    ensures Sum(q, c, |c|) <= Sum(q, Raised(h, c, w), |c|) <= Sum(q, c, |c|) + Sum(h, w, |w|)
  {
    SumRaised(q, h, c, w, |c|);
    SumMonotone(Both(q, h), h, w, |w|);
  }

  /** A pick takes W from the subsets that hold the chosen position. */
  lemma {:induction false} SubsetCharge(q: seq<bool>, r: seq<int>, b: nat, total: int)
    requires |q| == |r| && b < |r|
    ensures Sum(q, r[b := r[b] - total], |r|) == Sum(q, r, |r|) - if q[b] then total else 0
  {
    SumSetValue(q, r, |r|, b, r[b] - total);
  }

  lemma {:induction false} TotalCoversHealthy(h: seq<bool>, w: seq<int>)
    requires |h| == |w| && forall i :: 0 <= i < |w| ==> w[i] >= 0
    ensures 0 <= Sum(h, w, |w|) <= Sum(All(|w|), w, |w|)
  {
    SumMonotone(h, All(|w|), w, |w|);
  }

  /** A subset sum lies between the averages of its neighbours by one out-going, one in-coming member. */
  lemma {:induction false} Neighbours(q: seq<bool>, r: seq<int>, out: nat, into: nat)
    requires |q| == |r| && out < |r| && into < |r| && q[out] && !q[into]
    ensures var less, more := q[out := false], q[into := true];
            && Size(less, |r|) == Size(q, |r|) - 1 && Size(more, |r|) == Size(q, |r|) + 1
            && 2 * Sum(q, r, |r|) == Sum(less, r, |r|) + Sum(more, r, |r|) + r[out] - r[into]
  {
    SumSetMask(q, r, |r|, out, false);
    SumSetMask(q, r, |r|, into, true);
  }

  /** The raised weights of a subset are at least minus its limit, and at most its limit plus W. */
  lemma {:induction false} RaisedWithin(q: seq<bool>, h: seq<bool>, w: seq<int>, c: seq<int>, g: seq<int>)
    requires |q| == |h| == |w| == |c|
    requires forall i :: 0 <= i < |w| ==> w[i] >= 0
    requires |g| == |c| + 1 && Bounded(c, g)
    ensures -g[Size(q, |c|)] <= Sum(q, Raised(h, c, w), |c|) <= g[Size(q, |c|)] + Sum(h, w, |w|)
  {
    assert Within(q, c, g);
    SubsetRaise(q, h, w, c);
  }

  /** A subset with a leading member and without some healthy target keeps its lower limit. */
  lemma {:induction false} LowerKept(q: seq<bool>, h: seq<bool>, w: seq<int>, c: seq<int>, g: seq<int>,
                                     total: int, b: nat, j: nat)
    requires |q| == |h| == |w| == |c|
    requires forall i :: 0 <= i < |w| ==> w[i] >= 0
    requires Limits(g, |c|, total) && Sum(h, w, |w|) <= total && Bounded(c, g)
    requires b < |c| && j < |c| && q[b] && !q[j] && Raised(h, c, w)[j] <= Raised(h, c, w)[b]
    ensures Sum(q, Raised(h, c, w), |c|) - Sum(h, w, |w|) >= -g[Size(q, |c|)]
  {
    Neighbours(q, Raised(h, c, w), b, j);
    RaisedWithin(q[b := false], h, w, c, g);
    RaisedWithin(q[j := true], h, w, c, g);
    assert Bends(g, Size(q, |c|), total);
  }

  /** A subset without the leading target and with some healthy one keeps its upper limit. */
  lemma {:induction false} UpperKept(q: seq<bool>, h: seq<bool>, w: seq<int>, c: seq<int>, g: seq<int>,
                                     total: int, b: nat, j: nat)
    requires |q| == |h| == |w| == |c|
    requires forall i :: 0 <= i < |w| ==> w[i] >= 0
    requires Limits(g, |c|, total) && Sum(h, w, |w|) <= total && Bounded(c, g)
    requires b < |c| && j < |c| && !q[b] && q[j] && Raised(h, c, w)[j] <= Raised(h, c, w)[b]
    ensures Sum(q, Raised(h, c, w), |c|) <= g[Size(q, |c|)]
  {
    Neighbours(q, Raised(h, c, w), j, b);
    RaisedWithin(q[j := false], h, w, c, g);
    RaisedWithin(q[b := true], h, w, c, g);
    assert Bends(g, Size(q, |c|), total);
  }

  /** A subset that holds all healthy targets or none of them has the sum it had. */
  lemma {:induction false} UntouchedSubset(q: seq<bool>, h: seq<bool>, w: seq<int>, c: seq<int>, b: nat)
    requires |q| == |h| == |w| == |c| && b < |c| && h[b]
    requires forall i :: 0 <= i < |h| && h[i] ==> q[i] == q[b]
    ensures Sum(q, Charged(h, w, c, b), |c|) == Sum(q, c, |c|)
  {
    if q[b] {
      ChargeConserves(q, h, w, c, b);
    } else {
      SumSameOn(q, Charged(h, w, c, b), c, |c|);
    }
  }

  lemma {:induction false} PickKeepsSubset(q: seq<bool>, h: seq<bool>, w: seq<int>, c: seq<int>, g: seq<int>,
                                           total: int, b: nat)
    requires |q| == |h| == |w| == |c| && IsLeader(h, Raised(h, c, w), |c|, b)
    requires forall i :: 0 <= i < |w| ==> w[i] >= 0
    requires Limits(g, |c|, total) && Sum(h, w, |w|) <= total && Bounded(c, g)
    ensures Within(q, Charged(h, w, c, b), g)
  {
    assert Within(q, c, g);
    if j :| 0 <= j < |c| && h[j] && q[j] != q[b] {
      SubsetCharge(q, Raised(h, c, w), b, Sum(h, w, |w|));
      SubsetRaise(q, h, w, c);
      if q[b] {
        LowerKept(q, h, w, c, g, total, b, j);
      } else {
        UpperKept(q, h, w, c, g, total, b, j);
      }
    } else {
      UntouchedSubset(q, h, w, c, b);
    }
  }

  lemma {:induction false} PickKeepsBounded(h: seq<bool>, w: seq<int>, c: seq<int>, g: seq<int>, total: int)
    requires |h| == |w| == |c| && forall i :: 0 <= i < |w| ==> w[i] >= 0
    requires Limits(g, |c|, total) && Sum(All(|w|), w, |w|) <= total && Bounded(c, g)
    ensures Bounded(Smooth(h, w, c), g)
  {
    var b := Choice(h, w, c);
    ChoiceIsLeader(h, w, c);
    TotalCoversHealthy(h, w);
    if b != -1 {
      forall q: seq<bool> | |q| == |c|
        ensures Within(q, Charged(h, w, c, b), g)
      {
        PickKeepsSubset(q, h, w, c, g, total, b);
      }
    }
  }

  lemma {:induction false} ForfeitKeepsBounded(c: seq<int>, g: seq<int>, total: int, i: nat)
    requires i < |c| && Limits(g, |c|, total) && Bounded(c, g)
    ensures Bounded(c[i := 0], g)
  {
    forall q: seq<bool> | |q| == |c|
      ensures Within(q, c[i := 0], g)
    {
      SumSetValue(q, c, |c|, i, 0);
      SumSetMask(q, c, |c|, i, false);
      assert Within(q, c, g) && Within(q[i := false], c, g);
      if q[i] {
        assert Grows(g, Size(q, |c|));
      }
    }
  }

  lemma {:induction false} RunKeepsBounded(s: State, calls: seq<Call>, g: seq<int>, total: int)
    requires Shaped(s) && PositiveWeights(s.targets)
    requires Sum(All(|s.targets|), Weights(s.targets), |s.targets|) <= total
    requires Limits(g, |s.targets|, total) && Bounded(s.current, g)
    ensures Bounded(Run(s, calls).current, g)
    decreases |calls|
  {
    if calls != [] {
      match calls[0] {
        case NextCall =>
          PickKeepsBounded(s.healthy, Weights(s.targets), s.current, g, total);
        case HealthCall(url, up) =>
          var i := Find(s.targets, url);
          if i < |s.targets| && !up {
            ForfeitKeepsBounded(s.current, g, total, i);
          }
      }
      RunKeepsBounded(Step(s, calls[0]), calls[1..], g, total);
    }
  }

  // ---- Concrete limits ----

  /** The limit for q out of n targets when the run starts with weights of at most start. */
  function Limit(start: nat, total: nat, n: nat, q: nat): int {
    start * q + total * (q * (2 * n - q))
  }

  lemma {:induction false} LimitStep(start: nat, total: nat, n: nat, q: nat)
    ensures Limit(start, total, n, q + 1) == Limit(start, total, n, q) + start + total * (2 * n - 2 * q - 1)
  {
    var a, b := q * (2 * n - q), (q + 1) * (2 * n - (q + 1));
    assert b == a + (2 * n - 2 * q - 1);
    assert total * b == total * a + total * (2 * n - 2 * q - 1);
    assert start * (q + 1) == start * q + start;
  }

  lemma {:induction false} LimitGrows(start: nat, total: nat, n: nat, q: nat)
    requires q < n
    ensures Limit(start, total, n, q) <= Limit(start, total, n, q + 1)
  {
    LimitStep(start, total, n, q);
    Scale(total, 0, 2 * n - 2 * q - 1);
  }

  lemma {:induction false} LimitBends(start: nat, total: nat, n: nat, q: nat)
    requires 1 <= q
    ensures Limit(start, total, n, q - 1) + Limit(start, total, n, q + 1) == 2 * Limit(start, total, n, q) - 2 * total
  {
    LimitStep(start, total, n, q - 1);
    LimitStep(start, total, n, q);
    assert total * (2 * n - 2 * (q - 1) - 1) - total * (2 * n - 2 * q - 1) == total * 2;
  }

  function LimitTable(start: nat, total: nat, n: nat): (g: seq<int>)
    ensures |g| == n + 1
  {
    seq(n + 1, q requires 0 <= q => Limit(start, total, n, q))
  }

  lemma {:induction false} TableIsLimits(start: nat, total: nat, n: nat)
    ensures Limits(LimitTable(start, total, n), n, total)
  {
    var g := LimitTable(start, total, n);
    forall q | 1 <= q <= n ensures Grows(g, q) {
      LimitGrows(start, total, n, q - 1);
    }
    forall q | 1 <= q < n ensures Bends(g, q, total) {
      LimitBends(start, total, n, q);
    }
  }

  ghost predicate AtMost(c: seq<int>, m: int) {
    forall i :: 0 <= i < |c| ==> -m <= c[i] <= m
  }

  lemma {:induction false} LimitCovers(start: nat, total: nat, n: nat, q: nat)
    requires q <= n
    ensures start * q <= Limit(start, total, n, q)
  {
    if q != 0 {
      LimitCovers(start, total, n, q - 1);
      LimitStep(start, total, n, q - 1);
      Scale(total, 0, 2 * n - 2 * q + 1);
      assert start * q == start * (q - 1) + start;
    }
  }

  lemma {:induction false} StartIsBounded(c: seq<int>, start: nat, total: nat)
    requires AtMost(c, start)
    ensures Bounded(c, LimitTable(start, total, |c|))
  {
    var g := LimitTable(start, total, |c|);
    forall q: seq<bool> | |q| == |c|
      ensures Within(q, c, g)
    {
      var m: int := start;
      SumAtLeast(q, c, |c|, -m);
      SumAtMost(q, c, |c|, m);
      LimitCovers(start, total, |c|, Size(q, |c|));
      assert Size(q, |c|) * m == start * Size(q, |c|);
    }
  }

  /** The largest current weight a run can reach: start + T * (2 * n - 1). */
  function Cap(start: nat, total: nat, n: nat): int {
    start + total * (2 * n - 1)
  }

  lemma {:induction false} SingletonBound(c: seq<int>, start: nat, total: nat, i: nat)
    requires i < |c| && Bounded(c, LimitTable(start, total, |c|))
    ensures -Cap(start, total, |c|) <= c[i] <= Cap(start, total, |c|)
  {
    var none := seq(|c|, _ => false);
    SumAtLeast(none, c, |c|, 0);
    SumAtMost(none, c, |c|, 0);
    NoneIsEmpty(none, |c|);
    SumSetMask(none, c, |c|, i, true);
    assert Within(none[i := true], c, LimitTable(start, total, |c|));
    LimitStep(start, total, |c|, 0);
  }

  lemma {:induction false} NoneIsEmpty(none: seq<bool>, n: nat)
    requires n <= |none| && forall i :: 0 <= i < n ==> !none[i]
    ensures Size(none, n) == 0
  {
    if n != 0 {
      NoneIsEmpty(none, n - 1);
    }
  }

  /** Over every run, however targets flap, every current weight stays within the cap. */
  lemma {:induction false} BoundedWeights(s: State, calls: seq<Call>, start: nat, total: nat, i: nat)
    requires Shaped(s) && PositiveWeights(s.targets) && i < |s.targets|
    requires total == Sum(All(|s.targets|), Weights(s.targets), |s.targets|)
    requires AtMost(s.current, start)
    ensures -Cap(start, total, |s.targets|) <= Run(s, calls).current[i] <= Cap(start, total, |s.targets|)
  {
    StartIsBounded(s.current, start, total);
    TableIsLimits(start, total, |s.targets|);
    RunKeepsBounded(s, calls, LimitTable(start, total, |s.targets|), total);
    SingletonBound(Run(s, calls).current, start, total, i);
  }

  /** The running total of the loop never exceeds the total of all weights. */
  lemma {:induction false} PartialTotal(h: seq<bool>, w: seq<int>, k: nat)
    requires |h| == |w| && k <= |w| && forall i :: 0 <= i < |w| ==> w[i] >= 0
    ensures 0 <= Sum(h, w, k) <= Sum(All(|w|), w, |w|)
  {
    SumMonotone(h, All(|w|), w, k);
    SumGrows(All(|w|), w, k, |w|);
  }

  lemma {:induction false} SumGrows(mask: seq<bool>, w: seq<int>, k: nat, n: nat)
    requires k <= n <= |mask| == |w| && forall i :: 0 <= i < |w| ==> w[i] >= 0
    ensures Sum(mask, w, k) <= Sum(mask, w, n)
    decreases n
  {
    if k < n {
      SumGrows(mask, w, k, n - 1);
    }
  }

  /**
   In any run of a new balancer, with any health changes, every value the fused loop computes for a
   target is at most 2 * n * T in magnitude, for n targets of total weight T.
   */
  lemma {:induction false} NoOverflow(targets: seq<Target>, calls: seq<Call>, total: nat, i: nat)
    requires PositiveWeights(targets) && i < |targets|
    requires total == Sum(All(|targets|), Weights(targets), |targets|)
    ensures var s := Run(Initial(targets), calls);
            var raised, most := Raised(s.healthy, s.current, Weights(targets)), 2 * |targets| * total;
            && -most <= s.current[i] <= most
            && -most <= raised[i] <= most
            && forall k :: 0 <= k <= |targets| ==> 0 <= Sum(s.healthy, Weights(targets), k) <= most
  {
    var s, w := Run(Initial(targets), calls), Weights(targets);
    BoundedWeights(Initial(targets), calls, 0, total, i);
    forall k | 0 <= k <= |targets| ensures 0 <= Sum(s.healthy, w, k) <= total {
      PartialTotal(s.healthy, w, k);
    }
    SumPositive(All(|targets|), w, |targets|, i);
    CapFits(total, |targets|);
  }

  lemma {:induction false} CapFits(total: nat, n: nat)
    requires n >= 1
    ensures Cap(0, total, n) + total == 2 * n * total
    ensures total <= 2 * n * total
  {
    assert total * (2 * n - 1) + total == 2 * n * total;
    Scale(total, 1, 2 * n);
  }

  lemma {:induction false} DiscrepancyArithmetic(x: int, y: int, k: nat, share: int, total: int, p: nat, cap: int)
    requires -cap <= x <= cap && -cap <= y <= cap && share >= 1
    requires y == x + k * share - total * p
    ensures -2 * cap <= k * share - total * p <= 2 * cap
    ensures k > 2 * cap ==> p >= 1
  {
    if p == 0 {
      assert total * p == 0;
      Scale(k, 1, share);
    }
  }

  /** A calm stretch moves a weight by k shares less one total per pick. */
  lemma {:induction false} CalmLedger(x: State, calm: seq<Call>, i: nat)
    requires Shaped(x) && PositiveWeights(x.targets) && DownIsZero(x) && i < |x.targets|
    requires Quiet(x, calm) && x.healthy[i]
    ensures Run(x, calm).current[i]
         == x.current[i] + NextCalls(calm) * Weights(x.targets)[i]
            - Sum(x.healthy, Weights(x.targets), |x.targets|) * PicksIn(x, calm, i)
  {
    QuietRun(x, calm);
    QuietPicks(x, calm, i);
    Ledger(x.healthy, Weights(x.targets), x.current, i, NextCalls(calm));
  }

  lemma {:induction false} CalmDiscrepancy(x: State, calm: seq<Call>, i: nat, healthyTotal: nat, cap: int)
    requires Shaped(x) && PositiveWeights(x.targets) && DownIsZero(x) && i < |x.targets|
    requires Quiet(x, calm) && x.healthy[i] && healthyTotal == Sum(x.healthy, Weights(x.targets), |x.targets|)
    requires -cap <= x.current[i] <= cap && -cap <= Run(x, calm).current[i] <= cap
    ensures var k, p := NextCalls(calm), PicksIn(x, calm, i);
            && -2 * cap <= k * x.targets[i].weight - healthyTotal * p <= 2 * cap
            && (k > 2 * cap ==> p >= 1)
  {
    CalmLedger(x, calm, i);
    DiscrepancyArithmetic(x.current[i], Run(x, calm).current[i], NextCalls(calm), x.targets[i].weight,
                          healthyTotal, PicksIn(x, calm, i), cap);
  }

  /**
   Bounded discrepancy and no starvation: after any run with arbitrary health changes, a calm
   stretch of k `Next` calls serves every healthy target its share k * Weight / W up to a constant
   that depends only on the configuration, and at least once when k exceeds that constant.
   */
  lemma {:induction false} BoundedDiscrepancy(s: State, flaps: seq<Call>, calm: seq<Call>, start: nat,
                                              total: nat, healthyTotal: nat, i: nat)
    requires Shaped(s) && PositiveWeights(s.targets) && DownIsZero(s) && i < |s.targets|
    requires total == Sum(All(|s.targets|), Weights(s.targets), |s.targets|)
    requires AtMost(s.current, start)
    requires Quiet(Run(s, flaps), calm) && Run(s, flaps).healthy[i]
    requires healthyTotal == Sum(Run(s, flaps).healthy, Weights(s.targets), |s.targets|)
    ensures var cap, k, p := Cap(start, total, |s.targets|), NextCalls(calm), PicksIn(Run(s, flaps), calm, i);
            && -2 * cap <= k * s.targets[i].weight - healthyTotal * p <= 2 * cap
            && (k > 2 * cap ==> p >= 1)
  {
    RunKeepsDownZero(s, flaps);
    RunConcat(s, flaps, calm);
    BoundedWeights(s, flaps, start, total, i);
    BoundedWeights(s, flaps + calm, start, total, i);
    CalmDiscrepancy(Run(s, flaps), calm, i, healthyTotal, Cap(start, total, |s.targets|));
  }
}
