/** What the callers of the weighted balancer get: the URLs that its `Next` calls return. */
module WeightedResults {
  import opened Masks
  import opened Targets
  import opened Weighted
  import opened WeightedFairness
  import opened WeightedRuns

  /** Target i is healthy and the first whose raised weight no healthy target exceeds. */
  ghost predicate Leads(s: State, i: int)
    requires Shaped(s)
  {
    IsLeader(s.healthy, Raised(s.healthy, s.current, Weights(s.targets)), |s.current|, i)
  }

  /** `Next` returns the URL of the leading target, and the error exactly when no target is healthy. */
  lemma {:induction false} NextReturnsLeader(s: State)
    requires Shaped(s)
    ensures forall i :: Leads(s, i) ==> Pick(s).1 == Selected(s.targets[i].url)
    ensures Pick(s).1 == NoHealthyTargets <==> forall i :: 0 <= i < |s.targets| ==> !s.healthy[i]
  {
    ChoiceIsLeader(s.healthy, Weights(s.targets), s.current);
  }

  /** What the `Next` calls of a run return, in order. */
  function Results(s: State, calls: seq<Call>): (results: seq<Selection>)
    requires Shaped(s)
    ensures |results| == NextCalls(calls)
    decreases |calls|
  {
    if calls == [] then []
    else (if calls[0].NextCall? then [Pick(s).1] else []) + Results(Step(s, calls[0]), calls[1..])
  }

  function Count(results: seq<Selection>, r: Selection): nat {
    if results == [] then 0 else (if results[0] == r then 1 else 0) + Count(results[1..], r)
  }

  /** How many of the `Next` calls choose one of the first k targets that has the URL. */
  function PicksFor(s: State, calls: seq<Call>, url: string, k: nat): nat
    requires Shaped(s) && k <= |s.targets|
  {
    if k == 0 then 0
    else PicksFor(s, calls, url, k - 1) + if s.targets[k - 1].url == url then PicksIn(s, calls, k - 1) else 0
  }

  lemma {:induction false} NothingPicked(s: State, url: string, k: nat)
    requires Shaped(s) && k <= |s.targets|
    ensures PicksFor(s, [], url, k) == 0
  {
    if k != 0 {
      NothingPicked(s, url, k - 1);
    }
  }

  /** One call adds to the picks of its URL exactly when its choice is among the first k targets. */
  lemma {:induction false} PicksForHead(s: State, calls: seq<Call>, url: string, k: nat)
    requires Shaped(s) && k <= |s.targets| && calls != []
    ensures var b := Chosen(s);
            var hit := calls[0].NextCall? && 0 <= b < k && s.targets[b].url == url;
            PicksFor(s, calls, url, k)
            == PicksFor(Step(s, calls[0]), calls[1..], url, k) + if hit then 1 else 0
  {
    if k != 0 {
      PicksForHead(s, calls, url, k - 1);
    }
  }

  lemma {:induction false} ResultOfChoice(s: State, url: string)
    requires Shaped(s)
    ensures Pick(s).1 == Selected(url) <==> Chosen(s) != -1 && s.targets[Chosen(s)].url == url
  {
    ChoiceIsLeader(s.healthy, Weights(s.targets), s.current);
    NextReturnsLeader(s);
  }

  /** In every run, a URL is returned as often as the targets that have it are chosen. */
  lemma {:induction false} ResultsFollowPicks(s: State, calls: seq<Call>, url: string)
    requires Shaped(s)
    ensures Count(Results(s, calls), Selected(url)) == PicksFor(s, calls, url, |s.targets|)
    decreases |calls|
  {
    if calls == [] {
      NothingPicked(s, url, |s.targets|);
    } else {
      var rest := Results(Step(s, calls[0]), calls[1..]);
      ResultsFollowPicks(Step(s, calls[0]), calls[1..], url);
      PicksForHead(s, calls, url, |s.targets|);
      ResultOfChoice(s, url);
      if calls[0].NextCall? {
        assert ([Pick(s).1] + rest)[1..] == rest;
      } else {
        assert [] + rest == rest;
      }
    }
  }

  /** The total weight of the healthy ones, among the first k targets, that have the URL. */
  function WeightFor(targets: seq<Target>, healthy: seq<bool>, url: string, k: nat): int
    requires k <= |targets| == |healthy|
  {
    if k == 0 then 0
    else
      WeightFor(targets, healthy, url, k - 1)
      + if healthy[k - 1] && targets[k - 1].url == url then targets[k - 1].weight else 0
  }

  lemma {:induction false} DownUnpicked(s: State, calls: seq<Call>, i: nat)
    requires Shaped(s) && DownIsZero(s) && Quiet(s, calls) && i < |s.targets| && !s.healthy[i]
    ensures PicksIn(s, calls, i) == 0
  {
    QuietPicks(s, calls, i);
    FrozenLedger(s.healthy, Weights(s.targets), s.current, i, NextCalls(calls));
  }

  lemma {:induction false} QuietKeepsHealth(s: State, calls: seq<Call>)
    requires Shaped(s) && DownIsZero(s) && Quiet(s, calls)
    ensures Run(s, calls).healthy == s.healthy
  {
    QuietRun(s, calls);
  }

  lemma {:induction false} WindowPicks(s: State, before: seq<Call>, window: seq<Call>, url: string, k: nat)
    requires Shaped(s) && FreshStart(s) && Quiet(s, before + window) && k <= |s.targets|
    requires NextCalls(window) == Sum(s.healthy, Weights(s.targets), |s.targets|)
    ensures PicksFor(Run(s, before), window, url, k) == WeightFor(s.targets, s.healthy, url, k)
  {
    if k != 0 {
      WindowPicks(s, before, window, url, k - 1);
      if s.healthy[k - 1] {
        ExactFairness(s, before, window, k - 1);
      } else {
        QuietSplit(s, before, window);
        QuietKeepsHealth(s, before);
        RunKeepsDownZero(s, before);
        DownUnpicked(Run(s, before), window, k - 1);
      }
    }
  }

  /**
   Exact fairness as callers see it: in a run without flag changes, wherever a window with W `Next`
   calls sits, the calls return each URL as often as the weights of the healthy targets with that
   URL add up to.
   */
  lemma {:induction false} ExactResults(s: State, before: seq<Call>, window: seq<Call>, url: string)
    requires Shaped(s) && FreshStart(s) && Quiet(s, before + window)
    requires NextCalls(window) == Sum(s.healthy, Weights(s.targets), |s.targets|)
    ensures Count(Results(Run(s, before), window), Selected(url))
         == WeightFor(s.targets, s.healthy, url, |s.targets|)
  {
    ResultsFollowPicks(Run(s, before), window, url);
    WindowPicks(s, before, window, url, |s.targets|);
  }

  /** ... and of a new balancer every window of T calls does so for all its targets. */
  lemma {:induction false} NewBalancerResults(targets: seq<Target>, before: seq<Call>, window: seq<Call>, url: string)
    requires PositiveWeights(targets) && targets != [] && Quiet(Initial(targets), before + window)
    requires NextCalls(window) == Sum(All(|targets|), Weights(targets), |targets|)
    ensures Count(Results(Run(Initial(targets), before), window), Selected(url))
         == WeightFor(targets, All(|targets|), url, |targets|)
  {
    InitialIsFresh(targets);
    assert Initial(targets).healthy == All(|targets|);
    ExactResults(Initial(targets), before, window, url);
  }
}
