/** The smooth weighted round-robin balancer, internal/balancer/weighted.go. */
module Weighted {
  import opened Masks
  import opened Targets

  datatype State = State(targets: seq<Target>, healthy: seq<bool>, current: seq<int>)

  ghost predicate Shaped(s: State) {
    |s.targets| == |s.healthy| == |s.current|
  }

  /** NewFromConfig clamps every weight to at least 1. */
  ghost predicate PositiveWeights(targets: seq<Target>) {
    forall i :: 0 <= i < |targets| ==> targets[i].weight >= 1
  }

  function Weights(targets: seq<Target>): (w: seq<int>)
    ensures |w| == |targets|
  {
    seq(|targets|, i requires 0 <= i < |targets| => targets[i].weight)
  }

  function Initial(targets: seq<Target>): (s: State)
    ensures Shaped(s)
  {
    State(targets, seq(|targets|, _ => true), seq(|targets|, _ => 0))
  }

  /** Position b is healthy, no healthy position is above it, and no earlier one equals it. */
  ghost predicate IsLeader(h: seq<bool>, r: seq<int>, n: nat, b: int)
    requires n <= |h| && n <= |r|
  {
    && 0 <= b < n && h[b]
    && (forall i :: 0 <= i < n && h[i] ==> r[i] <= r[b])
    && (forall i :: 0 <= i < b && h[i] ==> r[i] < r[b])
  }

  /** Scans the positions below n and keeps the last strict improvement; -1 if none is healthy. */
  function Leader(h: seq<bool>, r: seq<int>, n: nat): (b: int)
    requires n <= |h| && n <= |r|
    ensures -1 <= b < n
  {
    if n == 0 then -1
    else
      var b := Leader(h, r, n - 1);
      if h[n - 1] && (b == -1 || r[n - 1] > r[b]) then n - 1 else b
  }

  /** The scan finds the lowest-index maximum among the healthy positions, or there is none. */
  lemma {:induction false} LeaderIsFirstMaximum(h: seq<bool>, r: seq<int>, n: nat)
    requires n <= |h| && n <= |r|
    ensures var b := Leader(h, r, n);
            if b == -1 then forall i :: 0 <= i < n ==> !h[i] else IsLeader(h, r, n, b)
  {
    if n != 0 {
      LeaderIsFirstMaximum(h, r, n - 1);
    }
  }

  /** The position the next call picks, or -1. */
  function Choice(h: seq<bool>, w: seq<int>, c: seq<int>): (b: int)
    requires |h| == |w| == |c|
    ensures -1 <= b < |c|
  {
    Leader(h, Raised(h, c, w), |c|)
  }

  /** `Next` has nothing to return exactly when no target is healthy, and leads otherwise. */
  lemma {:induction false} ChoiceIsLeader(h: seq<bool>, w: seq<int>, c: seq<int>)
    requires |h| == |w| == |c|
    ensures var b := Choice(h, w, c);
            && (b == -1 <==> forall i :: 0 <= i < |h| ==> !h[i])
            && (b != -1 ==> IsLeader(h, Raised(h, c, w), |c|, b))
  {
    LeaderIsFirstMaximum(h, Raised(h, c, w), |c|);
  }

  /** Raises the healthy weights and takes the total healthy weight from position b. */
  function Charged(h: seq<bool>, w: seq<int>, c: seq<int>, b: nat): (c': seq<int>)
    requires |h| == |w| == |c| && b < |c|
    ensures |c'| == |c|
  {
    var r := Raised(h, c, w);
    r[b := r[b] - Sum(h, w, |w|)]
  }

  /**
   The three passes of ADR-004: raise every healthy current weight by its configured weight,
   select the highest, subtract the total healthy weight from it.
   */
  function Smooth(h: seq<bool>, w: seq<int>, c: seq<int>): (c': seq<int>)
    requires |h| == |w| == |c|
    ensures |c'| == |c|
  {
    var b := Choice(h, w, c);
    if b == -1 then c else Charged(h, w, c, b)
  }

  function Pick(s: State): (p: (State, Selection))
    requires Shaped(s)
    ensures Shaped(p.0)
  {
    var w := Weights(s.targets);
    var b := Choice(s.healthy, w, s.current);
    (s.(current := Smooth(s.healthy, w, s.current)),
     if b == -1 then NoHealthyTargets else Selected(s.targets[b].url))
  }

  /** Only the first target with the URL changes; going down forfeits its current weight. */
  function Mark(s: State, url: string, up: bool): (s': State)
    requires Shaped(s)
    ensures Shaped(s')
  {
    var i := Find(s.targets, url);
    if i == |s.targets| then s
    else s.(healthy := s.healthy[i := up],
            current := if up then s.current else s.current[i := 0])
  }

  class WeightedRoundRobin {
    const targets: seq<Target>
    const healthy: array<bool>
    const currentWeights: array<int>

    ghost predicate Valid() {
      healthy.Length == currentWeights.Length == |targets|
    }

    ghost function Model(): (s: State)
      reads healthy, currentWeights
    {
      State(targets, healthy[..], currentWeights[..])
    }

    constructor (targets: seq<Target>)
      ensures Valid() && fresh(healthy) && fresh(currentWeights)
      ensures this.targets == targets && Model() == Initial(targets)
    {
      this.targets := targets;
      healthy := new bool[|targets|](_ => true);
      currentWeights := new int[|targets|](_ => 0);
    }

    /** One fused loop raises, totals and tracks the best; it computes the three-pass result. */
    method Next() returns (r: Selection)
      requires Valid()
      modifies currentWeights
      ensures Model() == Pick(old(Model())).0 && r == Pick(old(Model())).1
    {
      ghost var h, w, c := healthy[..], Weights(targets), currentWeights[..];
      ghost var raised := Raised(h, c, w);
      var n := |targets|;
      if n == 0 {
        return NoHealthyTargets;
      }
      var totalWeight, bestIdx, bestWeight := 0, -1, 0;
      for i := 0 to n
        invariant healthy[..] == h
        invariant forall k :: 0 <= k < n ==> currentWeights[k] == if k < i then raised[k] else c[k]
        invariant totalWeight == Sum(h, w, i)
        invariant bestIdx == Leader(h, raised, i)
        invariant bestIdx != -1 ==> bestWeight == raised[bestIdx]
      {
        if !healthy[i] {
          continue;
        }
        var effectiveWeight := targets[i].weight;
        currentWeights[i] := currentWeights[i] + effectiveWeight;
        totalWeight := totalWeight + effectiveWeight;
        if bestIdx == -1 || currentWeights[i] > bestWeight {
          bestIdx, bestWeight := i, currentWeights[i];
        }
      }
      assert currentWeights[..] == raised;
      LeaderIsFirstMaximum(h, raised, n);
      if bestIdx == -1 {
        assert raised == c;
        return NoHealthyTargets;
      }
      currentWeights[bestIdx] := currentWeights[bestIdx] - totalWeight;
      return Selected(targets[bestIdx].url);
    }

    method SetHealthy(targetURL: string, up: bool)
      requires Valid()
      modifies healthy, currentWeights
      ensures Model() == Mark(old(Model()), targetURL, up)
    {
      for i := 0 to |targets|
        invariant Model() == old(Model())
        invariant forall j :: 0 <= j < i ==> targets[j].url != targetURL
      {
        if targets[i].url == targetURL {
          assert i == Find(targets, targetURL);
          healthy[i] := up;
          if !up {
            currentWeights[i] := 0;
          }
          return;
        }
      }
    }
  }
}
