/**
 Proportional fairness of the weighted balancer while the set of healthy targets stays fixed.
 `h` is the health vector, `w` the configured weights, `c` the current weights at the start.
 */
module WeightedFairness {
  import opened Arithmetic
  import opened Masks
  import opened Weighted

  ghost predicate Ready(h: seq<bool>, w: seq<int>, c: seq<int>) {
    && |h| == |w| == |c|
    && (exists i :: 0 <= i < |h| && h[i])
    && (forall i :: 0 <= i < |w| ==> w[i] >= 1)
  }

  /** The current weights after k picks. */
  function After(h: seq<bool>, w: seq<int>, c: seq<int>, k: nat): (c': seq<int>)
    requires |h| == |w| == |c|
    ensures |c'| == |c|
  {
    if k == 0 then c else Smooth(h, w, After(h, w, c, k - 1))
  }

  /** The position that pick number k chooses, counting from 0. */
  function ChoiceAt(h: seq<bool>, w: seq<int>, c: seq<int>, k: nat): int
    requires |h| == |w| == |c|
  {
    Choice(h, w, After(h, w, c, k))
  }

  /** How often position i is chosen by the first k picks. */
  function Picks(h: seq<bool>, w: seq<int>, c: seq<int>, i: nat, k: nat): nat
    requires |h| == |w| == |c|
  {
    if k == 0 then 0 else Picks(h, w, c, i, k - 1) + Hit(ChoiceAt(h, w, c, k - 1), i)
  }

  /** One pick, seen from one position. */
  lemma {:induction false} SmoothAt(h: seq<bool>, w: seq<int>, c: seq<int>, i: nat)
    requires |h| == |w| == |c| && i < |c|
    ensures h[i] ==> Smooth(h, w, c)[i] == c[i] + w[i] - if Choice(h, w, c) == i then Sum(h, w, |w|) else 0
    ensures !h[i] ==> Smooth(h, w, c)[i] == c[i] && Choice(h, w, c) != i
  {
    ChoiceIsLeader(h, w, c);
  }

  lemma {:induction false} LedgerEntry(start: int, k: nat, share: int, total: int, p: nat, hit: nat)
    ensures start + k * share - total * p + share - total * hit == start + (k + 1) * share - total * (p + hit)
  {
  }

  /** Pick k + 1, seen from one position. */
  lemma {:induction false} AfterAt(h: seq<bool>, w: seq<int>, c: seq<int>, i: nat, k: nat)
    requires |h| == |w| == |c| && i < |c|
    ensures h[i] ==>
              After(h, w, c, k + 1)[i] == After(h, w, c, k)[i] + w[i] - Sum(h, w, |w|) * Hit(ChoiceAt(h, w, c, k), i)
    ensures !h[i] ==> After(h, w, c, k + 1)[i] == After(h, w, c, k)[i] && Hit(ChoiceAt(h, w, c, k), i) == 0
  {
    SmoothAt(h, w, After(h, w, c, k), i);
  }

  /** x is the weight the ledger has after k picks, p of them of this target. */
  predicate OnLedger(x: int, start: int, k: nat, share: int, total: int, p: nat) {
    x == start + k * share - total * p
  }

  lemma {:induction false} LedgerStep(x: int, start: int, k: nat, share: int, total: int, p: nat, hit: nat)
    requires OnLedger(x, start, k, share, total, p)
    ensures OnLedger(x + share - total * hit, start, k + 1, share, total, p + hit)
  {
    LedgerEntry(start, k, share, total, p, hit);
  }

  lemma {:induction false} HealthyLedger(h: seq<bool>, w: seq<int>, c: seq<int>, i: nat, k: nat)
    requires |h| == |w| == |c| && i < |c| && h[i]
    ensures OnLedger(After(h, w, c, k)[i], c[i], k, w[i], Sum(h, w, |w|), Picks(h, w, c, i, k))
  {
    if k != 0 {
      HealthyLedger(h, w, c, i, k - 1);
      AfterAt(h, w, c, i, k - 1);
      LedgerStep(After(h, w, c, k - 1)[i], c[i], k - 1, w[i], Sum(h, w, |w|), Picks(h, w, c, i, k - 1),
                 Hit(ChoiceAt(h, w, c, k - 1), i));
    }
  }

  lemma {:induction false} FrozenLedger(h: seq<bool>, w: seq<int>, c: seq<int>, i: nat, k: nat)
    requires |h| == |w| == |c| && i < |c| && !h[i]
    ensures After(h, w, c, k)[i] == c[i] && Picks(h, w, c, i, k) == 0
  {
    if k != 0 {
      FrozenLedger(h, w, c, i, k - 1);
      AfterAt(h, w, c, i, k - 1);
    }
  }

  /** A current weight is its start plus k shares minus one total per pick; the rest is frozen. */
  lemma {:induction false} Ledger(h: seq<bool>, w: seq<int>, c: seq<int>, i: nat, k: nat)
    requires Ready(h, w, c) && i < |c|
    ensures h[i] ==> After(h, w, c, k)[i] == c[i] + k * w[i] - Sum(h, w, |w|) * Picks(h, w, c, i, k)
    ensures !h[i] ==> After(h, w, c, k)[i] == c[i] && Picks(h, w, c, i, k) == 0
  {
    if h[i] {
      HealthyLedger(h, w, c, i, k);
    } else {
      FrozenLedger(h, w, c, i, k);
    }
  }

  lemma {:induction false} ChargeConserves(q: seq<bool>, h: seq<bool>, w: seq<int>, c: seq<int>, b: nat)
    requires |q| == |h| == |w| == |c| && b < |c| && h[b]
    requires forall i :: 0 <= i < |h| && h[i] ==> q[i]
    ensures Sum(q, Charged(h, w, c, b), |c|) == Sum(q, c, |c|)
  {
    var r := Raised(h, c, w);
    SumRaised(q, h, c, w, |c|);
    assert Both(q, h) == h;
    SumSetValue(q, r, |c|, b, r[b] - Sum(h, w, |w|));
  }

  /** One pick conserves the sum over any set of positions that contains the healthy ones. */
  lemma {:induction false} SmoothConserves(q: seq<bool>, h: seq<bool>, w: seq<int>, c: seq<int>)
    requires |q| == |h| == |w| == |c|
    requires forall i :: 0 <= i < |h| && h[i] ==> q[i]
    ensures Sum(q, Smooth(h, w, c), |c|) == Sum(q, c, |c|)
  {
    var b := Choice(h, w, c);
    ChoiceIsLeader(h, w, c);
    if b != -1 {
      ChargeConserves(q, h, w, c, b);
    }
  }

  ghost predicate AllZero(h: seq<bool>, c: seq<int>)
    requires |h| == |c|
  {
    forall i :: 0 <= i < |c| && h[i] ==> c[i] == 0
  }

  ghost predicate AtLeast(h: seq<bool>, c: seq<int>, low: int)
    requires |h| == |c|
  {
    forall i :: 0 <= i < |c| && h[i] ==> low <= c[i]
  }

  /** The chosen weight is at least the average of the raised weights, so it stays above -W. */
  lemma {:induction false} SmoothLower(h: seq<bool>, w: seq<int>, c: seq<int>)
    requires Ready(h, w, c) && Sum(h, c, |c|) == 0
    requires AtLeast(h, c, 1 - Sum(h, w, |w|))
    ensures AtLeast(h, Smooth(h, w, c), 1 - Sum(h, w, |w|))
  {
    var b, r, total := Choice(h, w, c), Raised(h, c, w), Sum(h, w, |w|);
    ChoiceIsLeader(h, w, c);
    SumRaised(h, h, c, w, |c|);
    assert Both(h, h) == h;
    SumPositive(h, w, |w|, b);
    if r[b] <= 0 {
      SumAtMost(h, r, |c|, 0);
      assert false;
    }
  }

  lemma {:induction false} TotalPositive(h: seq<bool>, w: seq<int>, c: seq<int>)
    requires Ready(h, w, c)
    ensures Sum(h, w, |w|) >= 1
  {
    var i :| 0 <= i < |h| && h[i];
    SumPositive(h, w, |w|, i);
  }

  lemma {:induction false} ZeroStart(h: seq<bool>, w: seq<int>, c: seq<int>)
    requires Ready(h, w, c) && AllZero(h, c)
    ensures AtLeast(h, c, 1 - Sum(h, w, |w|)) && Sum(h, c, |c|) == 0
  {
    TotalPositive(h, w, c);
    SumAtLeast(h, c, |c|, 0);
    SumAtMost(h, c, |c|, 0);
  }

  lemma {:induction false} RunLower(h: seq<bool>, w: seq<int>, c: seq<int>, k: nat)
    requires Ready(h, w, c) && AllZero(h, c)
    ensures AtLeast(h, After(h, w, c, k), 1 - Sum(h, w, |w|))
    ensures Sum(h, After(h, w, c, k), |c|) == 0
  {
    if k == 0 {
      ZeroStart(h, w, c);
    } else {
      var before := After(h, w, c, k - 1);
      RunLower(h, w, c, k - 1);
      SmoothConserves(h, h, w, before);
      SmoothLower(h, w, before);
    }
  }

  lemma {:induction false} PeriodArithmetic(total: int, share: int, p: int, end: int)
    requires total >= 1 && end == total * share - total * p && end >= 1 - total
    ensures end == total * (share - p) && end >= 0
  {
    assert total * share - total * p == total * (share - p);
    MultipleAbove(total, share - p);
  }

  /** After W picks a healthy weight is a multiple of W above -W. */
  lemma {:induction false} PeriodEnd(h: seq<bool>, w: seq<int>, c: seq<int>, i: nat)
    requires Ready(h, w, c) && AllZero(h, c) && i < |c|
    requires Sum(h, w, |w|) >= 1
    ensures var total := Sum(h, w, |w|);
            var end := After(h, w, c, total)[i];
            && (h[i] ==> end == total * (w[i] - Picks(h, w, c, i, total)) && end >= 0)
            && (!h[i] ==> end == c[i])
  {
    var total := Sum(h, w, |w|);
    Ledger(h, w, c, i, total);
    RunLower(h, w, c, total);
    if h[i] {
      PeriodArithmetic(total, w[i], Picks(h, w, c, i, total), After(h, w, c, total)[i]);
    }
  }

  /** From all-zero weights, W picks restore the state and choose every target exactly Weight times. */
  lemma {:induction false} ExactPeriod(h: seq<bool>, w: seq<int>, c: seq<int>)
    requires Ready(h, w, c) && AllZero(h, c)
    ensures Sum(h, w, |w|) >= 1
    ensures After(h, w, c, Sum(h, w, |w|)) == c
    ensures forall i :: 0 <= i < |c| && h[i] ==> Picks(h, w, c, i, Sum(h, w, |w|)) == w[i]
  {
    TotalPositive(h, w, c);
    var total := Sum(h, w, |w|);
    var end := After(h, w, c, total);
    forall i | 0 <= i < |c|
      ensures h[i] ==> end[i] == total * (w[i] - Picks(h, w, c, i, total)) && end[i] >= 0
      ensures !h[i] ==> end[i] == c[i]
    {
      PeriodEnd(h, w, c, i);
    }
    RunLower(h, w, c, total);
    ZeroSum(h, end, |c|);
    forall i | 0 <= i < |c| && h[i]
      ensures Picks(h, w, c, i, total) == w[i]
    {
      ProductZero(total, w[i] - Picks(h, w, c, i, total));
    }
    assert end == c;
  }

  /** The run continues from an intermediate state as from a start. */
  lemma {:induction false} AfterAdds(h: seq<bool>, w: seq<int>, c: seq<int>, j: nat, k: nat)
    requires |h| == |w| == |c|
    ensures After(h, w, c, j + k) == After(h, w, After(h, w, c, j), k)
  {
    if k != 0 {
      AfterAdds(h, w, c, j, k - 1);
    }
  }

  lemma {:induction false} ChoiceShift(h: seq<bool>, w: seq<int>, c: seq<int>, k: nat)
    requires |h| == |w| == |c|
    ensures ChoiceAt(h, w, c, k + 1) == ChoiceAt(h, w, Smooth(h, w, c), k)
  {
    AfterAdds(h, w, c, 1, k);
    assert After(h, w, c, 1) == Smooth(h, w, c);
  }

  function Hit(choice: int, i: nat): nat {
    if choice == i then 1 else 0
  }

  lemma {:induction false} PicksLast(h: seq<bool>, w: seq<int>, c: seq<int>, i: nat, k: nat)
    requires |h| == |w| == |c|
    ensures Picks(h, w, c, i, k + 1) == Picks(h, w, c, i, k) + Hit(ChoiceAt(h, w, c, k), i)
  {
  }

  lemma {:induction false} PicksFirst(h: seq<bool>, w: seq<int>, c: seq<int>, i: nat)
    requires |h| == |w| == |c|
    ensures Picks(h, w, c, i, 1) == Hit(Choice(h, w, c), i)
  {
    assert Picks(h, w, c, i, 0) == 0;
    assert After(h, w, c, 0) == c;
  }

  /** A run that trails another by one pick keeps trailing it. */
  lemma {:induction false} PicksTrail(h: seq<bool>, w: seq<int>, c: seq<int>, c': seq<int>, i: nat, k: nat, first: nat)
    requires |h| == |w| == |c| == |c'| && ChoiceAt(h, w, c, k + 1) == ChoiceAt(h, w, c', k)
    requires Picks(h, w, c, i, k + 1) == first + Picks(h, w, c', i, k)
    ensures Picks(h, w, c, i, k + 2) == first + Picks(h, w, c', i, k + 1)
  {
    PicksLast(h, w, c, i, k + 1);
    PicksLast(h, w, c', i, k);
  }

  /** The first pick, then k picks from where it leads. */
  lemma {:induction false} PicksAdd(h: seq<bool>, w: seq<int>, c: seq<int>, i: nat, k: nat)
    requires |h| == |w| == |c|
    ensures Picks(h, w, c, i, k + 1) == Hit(Choice(h, w, c), i) + Picks(h, w, Smooth(h, w, c), i, k)
  {
    if k == 0 {
      PicksFirst(h, w, c, i);
    } else {
      PicksAdd(h, w, c, i, k - 1);
      ChoiceShift(h, w, c, k - 1);
      PicksTrail(h, w, c, Smooth(h, w, c), i, k - 1, Hit(Choice(h, w, c), i));
    }
  }

  lemma {:induction false} PeriodRestores(h: seq<bool>, w: seq<int>, c: seq<int>, total: nat)
    requires Ready(h, w, c) && AllZero(h, c) && total == Sum(h, w, |w|)
    ensures total >= 1 && After(h, w, c, total) == c
  {
    ExactPeriod(h, w, c);
  }

  /** The whole run from all-zero weights has period W: W picks after pick k change nothing. */
  lemma {:induction false} Periodic(h: seq<bool>, w: seq<int>, c: seq<int>, total: nat, k: nat)
    requires Ready(h, w, c) && AllZero(h, c) && total == Sum(h, w, |w|)
    ensures After(h, w, After(h, w, c, k), total) == After(h, w, c, k)
  {
    calc {
      After(h, w, After(h, w, c, k), total);
      { AfterAdds(h, w, c, k, total); }
      After(h, w, c, total + k);
      { AfterAdds(h, w, c, total, k); }
      After(h, w, After(h, w, c, total), k);
      { PeriodRestores(h, w, c, total); }
      After(h, w, c, k);
    }
  }

  lemma {:induction false} WindowArithmetic(total: int, x: int, share: int, p: int)
    requires total >= 1 && x == x + total * share - total * p
    ensures p == share
  {
    assert total * (p - share) == total * p - total * share;
    ProductZero(total, p - share);
  }

  /** Every window of W consecutive picks, wherever it starts, has the exact counts. */
  lemma {:induction false} ExactWindow(h: seq<bool>, w: seq<int>, c: seq<int>, total: nat, i: nat, k: nat)
    requires Ready(h, w, c) && AllZero(h, c) && total == Sum(h, w, |w|) && i < |c| && h[i]
    ensures Picks(h, w, After(h, w, c, k), i, total) == w[i]
  {
    TotalPositive(h, w, c);
    Periodic(h, w, c, total, k);
    var x := After(h, w, c, k);
    Ledger(h, w, x, i, total);
    WindowArithmetic(total, x[i], w[i], Picks(h, w, x, i, total));
  }

  lemma {:induction false} QuotaArithmetic(total: int, n: int, x: int, share: int, p: int, k: int)
    requires n >= 1 && 1 <= share <= total
    requires 1 - total <= x <= 0 - (n - 1) * (1 - total)
    requires x == k * share - total * p
    ensures total * p < k * share + total && total * p >= k * share - (n - 1) * (total - 1)
    ensures x <= (n - 1) * (total - 1) && x + share <= n * total
  {
    assert (n - 1) * (1 - total) == -((n - 1) * (total - 1));
    assert (n - 1) * (total - 1) == n * total - total - n + 1;
  }

  lemma {:induction false} RunBounds(h: seq<bool>, w: seq<int>, c: seq<int>, total: nat, n: nat, i: nat, k: nat)
    requires Ready(h, w, c) && AllZero(h, c) && i < |c| && h[i]
    requires total == Sum(h, w, |w|) && n == Size(h, |h|)
    ensures n >= 1 && w[i] <= total
    ensures 1 - total <= After(h, w, c, k)[i] <= 0 - (n - 1) * (1 - total)
  {
    RunLower(h, w, c, k);
    SumPositive(h, w, |w|, i);
    ValueBelowSum(h, After(h, w, c, k), i, 1 - total);
  }

  /**
   Prefix quota and overflow bound: after any k picks no target is a full pick ahead of its
   share, and every current weight, also while raised, lies in [1 - W, n * W] for n healthy targets.
   */
  lemma {:induction false} PrefixQuota(h: seq<bool>, w: seq<int>, c: seq<int>, total: nat, n: nat, i: nat, k: nat)
    requires Ready(h, w, c) && AllZero(h, c) && i < |c| && h[i]
    requires total == Sum(h, w, |w|) && n == Size(h, |h|)
    ensures total * Picks(h, w, c, i, k) < k * w[i] + total
    ensures total * Picks(h, w, c, i, k) >= k * w[i] - (n - 1) * (total - 1)
    ensures 1 - total <= After(h, w, c, k)[i] <= (n - 1) * (total - 1)
    ensures 1 - total <= After(h, w, c, k)[i] + w[i] <= n * total
  {
    RunBounds(h, w, c, total, n, i, k);
    Ledger(h, w, c, i, k);
    QuotaArithmetic(total, n, After(h, w, c, k)[i], w[i], Picks(h, w, c, i, k), k);
  }
}
