/**
 Whole runs of the weighted balancer: any sequence of `Next` and `SetHealthy` calls, in the order
 the mutex admits them.
 */
module WeightedRuns {
  import opened Masks
  import opened Targets
  import opened Weighted
  import opened WeightedFairness

  datatype Call = NextCall | HealthCall(url: string, up: bool)

  function Step(s: State, call: Call): (s': State)
    requires Shaped(s)
    ensures Shaped(s') && s'.targets == s.targets
  {
    match call
    case NextCall => Pick(s).0
    case HealthCall(url, up) => Mark(s, url, up)
  }

  function Run(s: State, calls: seq<Call>): (s': State)
    requires Shaped(s)
    ensures Shaped(s') && s'.targets == s.targets
    decreases |calls|
  {
    if calls == [] then s else Run(Step(s, calls[0]), calls[1..])
  }

  /** The position the next `Next` call would choose, or -1. */
  function Chosen(s: State): int
    requires Shaped(s)
  {
    Choice(s.healthy, Weights(s.targets), s.current)
  }

  function NextCalls(calls: seq<Call>): nat {
    if calls == [] then 0
    else (if calls[0].NextCall? then 1 else 0) + NextCalls(calls[1..])
  }

  /** How many of the `Next` calls of the run choose position i. */
  function PicksIn(s: State, calls: seq<Call>, i: nat): nat
    requires Shaped(s)
    decreases |calls|
  {
    if calls == [] then 0
    else (if calls[0].NextCall? then Hit(Chosen(s), i) else 0) + PicksIn(Step(s, calls[0]), calls[1..], i)
  }

  lemma {:induction false} RunConcat(s: State, a: seq<Call>, b: seq<Call>)
    requires Shaped(s)
    ensures Run(s, a + b) == Run(Run(s, a), b)
    decreases |a|
  {
    if a == [] {
      assert a + b == b;
    } else {
      assert (a + b)[1..] == a[1..] + b;
      RunConcat(Step(s, a[0]), a[1..], b);
    }
  }

  // ---- Conservation across health changes ----

  ghost predicate DownIsZero(s: State)
    requires Shaped(s)
  {
    forall i :: 0 <= i < |s.current| && !s.healthy[i] ==> s.current[i] == 0
  }

  function Balance(s: State): int
    requires Shaped(s)
  {
    Sum(All(|s.current|), s.current, |s.current|)
  }

  /** The weight that one health call takes away. */
  function Loss(s: State, url: string, up: bool): int
    requires Shaped(s)
  {
    var i := Find(s.targets, url);
    if up || i == |s.targets| then 0 else s.current[i]
  }

  /** The current weights that targets lose over a run by being marked unhealthy. */
  function Forfeited(s: State, calls: seq<Call>): int
    requires Shaped(s)
    decreases |calls|
  {
    if calls == [] then 0
    else
      (match calls[0]
       case NextCall => 0
       case HealthCall(url, up) => Loss(s, url, up))
      + Forfeited(Step(s, calls[0]), calls[1..])
  }

  lemma {:induction false} StepKeepsDownZero(s: State, call: Call)
    requires Shaped(s) && DownIsZero(s)
    ensures DownIsZero(Step(s, call))
  {
    if call.NextCall? {
      forall i | 0 <= i < |s.current| {
        SmoothAt(s.healthy, Weights(s.targets), s.current, i);
      }
    }
  }

  lemma {:induction false} RunKeepsDownZero(s: State, calls: seq<Call>)
    requires Shaped(s) && DownIsZero(s)
    ensures DownIsZero(Run(s, calls))
    decreases |calls|
  {
    if calls != [] {
      StepKeepsDownZero(s, calls[0]);
      RunKeepsDownZero(Step(s, calls[0]), calls[1..]);
    }
  }

  lemma {:induction false} PickBalance(s: State)
    requires Shaped(s)
    ensures Balance(Step(s, NextCall)) == Balance(s)
  {
    SmoothConserves(All(|s.current|), s.healthy, Weights(s.targets), s.current);
  }

  lemma {:induction false} MarkBalance(s: State, url: string, up: bool)
    requires Shaped(s)
    ensures Balance(Step(s, HealthCall(url, up))) == Balance(s) - Loss(s, url, up)
  {
    var i := Find(s.targets, url);
    if !up && i < |s.targets| {
      SumSetValue(All(|s.current|), s.current, |s.current|, i, 0);
    }
  }

  /** `Next` never changes the total of the current weights; only going down does, by what is lost. */
  lemma {:induction false} Conservation(s: State, calls: seq<Call>)
    requires Shaped(s)
    ensures Balance(Run(s, calls)) == Balance(s) - Forfeited(s, calls)
    decreases |calls|
  {
    if calls != [] {
      Conservation(Step(s, calls[0]), calls[1..]);
      match calls[0]
      case NextCall => PickBalance(s);
      case HealthCall(url, up) => MarkBalance(s, url, up);
    }
  }

  // ---- Exact fairness over runs whose health calls change no flag ----

  /** Every health call of the run repeats a flag or names an unknown URL. */
  ghost predicate Quiet(s: State, calls: seq<Call>)
    requires Shaped(s)
    decreases |calls|
  {
    calls != [] ==>
      && (calls[0].HealthCall? ==> Step(s, calls[0]).healthy == s.healthy)
      && Quiet(Step(s, calls[0]), calls[1..])
  }

  lemma {:induction false} QuietSplit(s: State, a: seq<Call>, b: seq<Call>)
    requires Shaped(s) && Quiet(s, a + b)
    ensures Quiet(s, a) && Quiet(Run(s, a), b)
    decreases |a|
  {
    if a == [] {
      assert a + b == b;
    } else {
      assert (a + b)[1..] == a[1..] + b;
      QuietSplit(Step(s, a[0]), a[1..], b);
    }
  }

  /** A health call that changes no flag changes nothing at all. */
  lemma {:induction false} QuietMark(s: State, url: string, up: bool)
    requires Shaped(s) && DownIsZero(s)
    requires Mark(s, url, up).healthy == s.healthy
    ensures Mark(s, url, up) == s
  {
    var i := Find(s.targets, url);
    if i < |s.targets| {
      assert s.healthy[i := up][i] == up;
      if !up {
        assert s.current[i := 0] == s.current;
      }
    }
  }

  /** The state s after k picks. */
  function Advanced(s: State, k: nat): (x: State)
    requires Shaped(s)
    ensures Shaped(x)
  {
    s.(current := After(s.healthy, Weights(s.targets), s.current, k))
  }

  lemma {:induction false} AdvanceMore(s: State, k: nat)
    requires Shaped(s)
    ensures Advanced(Step(s, NextCall), k) == Advanced(s, k + 1)
  {
    AfterAdds(s.healthy, Weights(s.targets), s.current, 1, k);
  }

  /** Without flag changes the state after a run is the state after its `Next` calls. */
  lemma {:induction false} QuietRun(s: State, calls: seq<Call>)
    requires Shaped(s) && DownIsZero(s) && Quiet(s, calls)
    ensures Run(s, calls) == Advanced(s, NextCalls(calls))
    decreases |calls|
  {
    if calls != [] {
      StepKeepsDownZero(s, calls[0]);
      QuietRun(Step(s, calls[0]), calls[1..]);
      match calls[0]
      case NextCall => AdvanceMore(s, NextCalls(calls[1..]));
      case HealthCall(url, up) => QuietMark(s, url, up);
    }
  }

  function AdvancedPicks(s: State, i: nat, k: nat): nat
    requires Shaped(s)
  {
    Picks(s.healthy, Weights(s.targets), s.current, i, k)
  }

  lemma {:induction false} PickMore(s: State, i: nat, k: nat)
    requires Shaped(s)
    ensures AdvancedPicks(s, i, k + 1)
         == Hit(Chosen(s), i) + AdvancedPicks(Step(s, NextCall), i, k)
  {
    PicksAdd(s.healthy, Weights(s.targets), s.current, i, k);
  }

  /** The first call of a quiet run, and the rest. */
  lemma {:induction false} QuietHead(s: State, calls: seq<Call>, i: nat)
    requires Shaped(s) && DownIsZero(s) && Quiet(s, calls) && calls != []
    ensures DownIsZero(Step(s, calls[0])) && Quiet(Step(s, calls[0]), calls[1..])
    ensures if calls[0].NextCall? then NextCalls(calls) == NextCalls(calls[1..]) + 1
            else NextCalls(calls) == NextCalls(calls[1..]) && Step(s, calls[0]) == s
    ensures PicksIn(s, calls, i)
         == (if calls[0].NextCall? then Hit(Chosen(s), i) else 0) + PicksIn(Step(s, calls[0]), calls[1..], i)
  {
    StepKeepsDownZero(s, calls[0]);
    if calls[0].HealthCall? {
      QuietMark(s, calls[0].url, calls[0].up);
    }
  }

  /** ... and its choices are theirs. */
  lemma {:induction false} QuietPicks(s: State, calls: seq<Call>, i: nat)
    requires Shaped(s) && DownIsZero(s) && Quiet(s, calls)
    ensures PicksIn(s, calls, i) == AdvancedPicks(s, i, NextCalls(calls))
    decreases |calls|
  {
    if calls != [] {
      QuietHead(s, calls, i);
      QuietPicks(Step(s, calls[0]), calls[1..], i);
      if calls[0].NextCall? {
        PickMore(s, i, NextCalls(calls[1..]));
      }
    }
  }

  /** Some target is healthy and every healthy target has current weight 0, as after construction. */
  ghost predicate FreshStart(s: State)
    requires Shaped(s)
  {
    && PositiveWeights(s.targets) && DownIsZero(s) && AllZero(s.healthy, s.current)
    && exists i :: 0 <= i < |s.healthy| && s.healthy[i]
  }

  lemma {:induction false} InitialIsFresh(targets: seq<Target>)
    requires PositiveWeights(targets) && targets != []
    ensures FreshStart(Initial(targets))
  {
    assert Initial(targets).healthy[0];
  }

  /**
   Exact proportional fairness: wherever a window with W `Next` calls sits in a run without flag
   changes, it chooses each healthy target exactly Weight times and leaves the state as it was.
   */
  lemma {:induction false} ExactFairness(s: State, before: seq<Call>, window: seq<Call>, i: nat)
    requires Shaped(s) && FreshStart(s) && i < |s.targets| && s.healthy[i]
    requires Quiet(s, before + window)
    requires NextCalls(window) == Sum(s.healthy, Weights(s.targets), |s.targets|)
    ensures PicksIn(Run(s, before), window, i) == s.targets[i].weight
    ensures Run(s, before + window) == Run(s, before)
  {
    var h, w, c := s.healthy, Weights(s.targets), s.current;
    QuietSplit(s, before, window);
    RunConcat(s, before, window);
    QuietRun(s, before);
    RunKeepsDownZero(s, before);
    QuietRun(Run(s, before), window);
    QuietPicks(Run(s, before), window, i);
    ExactWindow(h, w, c, NextCalls(window), i, NextCalls(before));
    Periodic(h, w, c, NextCalls(window), NextCalls(before));
  }

  /** A new balancer: every window with T `Next` calls chooses each target exactly Weight times. */
  lemma {:induction false} NewBalancerFairness(targets: seq<Target>, before: seq<Call>, window: seq<Call>, i: nat)
    requires PositiveWeights(targets) && i < |targets| && Quiet(Initial(targets), before + window)
    requires NextCalls(window) == Sum(All(|targets|), Weights(targets), |targets|)
    ensures PicksIn(Run(Initial(targets), before), window, i) == targets[i].weight
    ensures Run(Initial(targets), before + window) == Run(Initial(targets), before)
  {
    InitialIsFresh(targets);
    assert Initial(targets).healthy == All(|targets|);
    ExactFairness(Initial(targets), before, window, i);
  }
}
