/**
 Sums of integer vectors over the positions that a boolean mask selects. A health vector is
 such a mask, and so is an arbitrary subset of the targets; both are needed to reason about
 the weighted balancer.
 */
module Masks {

  /** The sum of v[i] over the positions i < n with mask[i]. */
  function Sum(mask: seq<bool>, v: seq<int>, n: nat): int
    requires n <= |mask| && n <= |v|
  {
    if n == 0 then 0
    else Sum(mask, v, n - 1) + (if mask[n - 1] then v[n - 1] else 0)
  }

  /** The number of positions i < n with mask[i]. */
  function Size(mask: seq<bool>, n: nat): (size: nat)
    requires n <= |mask|
    ensures size <= n
  {
    if n == 0 then 0 else Size(mask, n - 1) + (if mask[n - 1] then 1 else 0)
  }

  function All(n: nat): (mask: seq<bool>)
    ensures |mask| == n
  {
    seq(n, _ => true)
  }

  function Both(a: seq<bool>, b: seq<bool>): (mask: seq<bool>)
    requires |a| == |b|
    ensures |mask| == |a|
  {
    seq(|a|, i requires 0 <= i < |a| => a[i] && b[i])
  }

  /** Adds add[i] to base[i] at the positions the mask selects. */
  function Raised(mask: seq<bool>, base: seq<int>, add: seq<int>): (r: seq<int>)
    requires |mask| == |base| == |add|
    ensures |r| == |base|
  {
    seq(|base|, i requires 0 <= i < |base| => base[i] + if mask[i] then add[i] else 0)
  }

  lemma {:induction false} SumSetValue(mask: seq<bool>, v: seq<int>, n: nat, i: nat, x: int)
    requires n <= |mask| && n <= |v| && i < |v|
    ensures Sum(mask, v[i := x], n) == Sum(mask, v, n) + if i < n && mask[i] then x - v[i] else 0
  {
    if n != 0 {
      SumSetValue(mask, v, n - 1, i, x);
    }
  }

  lemma {:induction false} SumSetMask(mask: seq<bool>, v: seq<int>, n: nat, i: nat, on: bool)
    requires n <= |mask| && n <= |v| && i < n
    ensures Sum(mask[i := on], v, n)
         == Sum(mask, v, n) + (if on then v[i] else 0) - (if mask[i] then v[i] else 0)
    ensures Size(mask[i := on], n)
         == Size(mask, n) + (if on then 1 else 0) - (if mask[i] then 1 else 0)
  {
    if i == n - 1 {
      SumDependsOnPrefix(mask, mask[i := on], v, n - 1);
    } else {
      SumSetMask(mask, v, n - 1, i, on);
    }
  }

  lemma {:induction false} SumDependsOnPrefix(a: seq<bool>, b: seq<bool>, v: seq<int>, n: nat)
    requires n <= |a| && n <= |b| && n <= |v|
    requires forall i :: 0 <= i < n ==> a[i] == b[i]
    ensures Sum(a, v, n) == Sum(b, v, n) && Size(a, n) == Size(b, n)
  {
    if n != 0 {
      SumDependsOnPrefix(a, b, v, n - 1);
    }
  }

  /** Sums look only at the selected values. */
  lemma {:induction false} SumSameOn(mask: seq<bool>, u: seq<int>, v: seq<int>, n: nat)
    requires n <= |mask| && n <= |u| && n <= |v|
    requires forall i :: 0 <= i < n && mask[i] ==> u[i] == v[i]
    ensures Sum(mask, u, n) == Sum(mask, v, n)
  {
    if n != 0 {
      SumSameOn(mask, u, v, n - 1);
    }
  }

  lemma {:induction false} SumRaised(q: seq<bool>, h: seq<bool>, base: seq<int>, add: seq<int>, n: nat)
    requires |q| == |h| == |base| == |add| && n <= |base|
    ensures Sum(q, Raised(h, base, add), n) == Sum(q, base, n) + Sum(Both(q, h), add, n)
  {
    if n != 0 {
      SumRaised(q, h, base, add, n - 1);
    }
  }

  /** Over non-negative values a larger mask gives a larger sum. */
  lemma {:induction false} SumMonotone(a: seq<bool>, b: seq<bool>, v: seq<int>, n: nat)
    requires n <= |a| && n <= |b| && n <= |v|
    requires forall i :: 0 <= i < n ==> v[i] >= 0
    requires forall i :: 0 <= i < n && a[i] ==> b[i]
    ensures 0 <= Sum(a, v, n) <= Sum(b, v, n)
  {
    if n != 0 {
      SumMonotone(a, b, v, n - 1);
    }
  }

  lemma {:induction false} SumAtLeast(mask: seq<bool>, v: seq<int>, n: nat, low: int)
    requires n <= |mask| && n <= |v|
    requires forall i :: 0 <= i < n && mask[i] ==> low <= v[i]
    ensures Size(mask, n) * low <= Sum(mask, v, n)
  {
    if n != 0 {
      SumAtLeast(mask, v, n - 1, low);
      var s := Size(mask, n - 1);
      assert (s + 1) * low == s * low + low;
    }
  }

  lemma {:induction false} SumAtMost(mask: seq<bool>, v: seq<int>, n: nat, high: int)
    requires n <= |mask| && n <= |v|
    requires forall i :: 0 <= i < n && mask[i] ==> v[i] <= high
    ensures Sum(mask, v, n) <= Size(mask, n) * high
  {
    if n != 0 {
      SumAtMost(mask, v, n - 1, high);
      var s := Size(mask, n - 1);
      assert (s + 1) * high == s * high + high;
    }
  }

  /** Every selected value is bounded by the sum and the lower bound of the other ones. */
  lemma {:induction false} ValueBelowSum(mask: seq<bool>, v: seq<int>, i: nat, low: int)
    requires |mask| == |v| && i < |v| && mask[i]
    requires forall j :: 0 <= j < |v| && mask[j] ==> low <= v[j]
    ensures Size(mask, |v|) >= 1
    ensures v[i] <= Sum(mask, v, |v|) - (Size(mask, |v|) - 1) * low
  {
    var rest := mask[i := false];
    SumSetMask(mask, v, |v|, i, false);
    SumAtLeast(rest, v, |v|, low);
  }

  /** Values of at least 1 add up to at least the size of the mask, and to one value at least. */
  lemma {:induction false} SumPositive(mask: seq<bool>, v: seq<int>, n: nat, i: nat)
    requires n <= |mask| && n <= |v| && i < n && mask[i]
    requires forall j :: 0 <= j < n && mask[j] ==> v[j] >= 1
    ensures v[i] <= Sum(mask, v, n)
    ensures 1 <= Size(mask, n) <= Sum(mask, v, n)
  {
    if i < n - 1 {
      SumPositive(mask, v, n - 1, i);
    } else {
      SumAtLeast(mask, v, n - 1, 1);
    }
  }

  /** Selected values that are all non-negative and add up to 0 are all 0. */
  lemma {:induction false} ZeroSum(mask: seq<bool>, v: seq<int>, n: nat)
    requires n <= |mask| && n <= |v|
    requires forall i :: 0 <= i < n && mask[i] ==> v[i] >= 0
    requires Sum(mask, v, n) <= 0
    ensures forall i :: 0 <= i < n && mask[i] ==> v[i] == 0
  {
    if n != 0 {
      SumAtLeast(mask, v, n - 1, 0);
      ZeroSum(mask, v, n - 1);
    }
  }
}
