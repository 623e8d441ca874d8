/** From a route's configuration to the URLs that the calls of its balancer return. */
module ConfiguredShares {
  import opened Masks
  import opened Targets
  import opened Balancers
  import Weighted
  import WeightedRuns
  import WeightedResults
  import RoundRobin

  /** The balancer after k calls of `Next`. */
  function AfterCalls(b: State, k: nat): (b': State)
    requires Shaped(b)
    ensures Shaped(b')
    decreases k
  {
    if k == 0 then b else AfterCalls(Pick(b).0, k - 1)
  }

  /** What the first m calls of `Next` return. */
  function Returned(b: State, m: nat): (results: seq<Selection>)
    requires Shaped(b)
    ensures |results| == m
    decreases m
  {
    if m == 0 then [] else [Pick(b).1] + Returned(Pick(b).0, m - 1)
  }

  // ---- What the configuration says ----

  /** The weight an entry of the configuration stands for. */
  function EntryWeight(c: Configured): int {
    if c.weight >= 1 then c.weight else 1
  }

  /** The total weight of the entries that parse. */
  function TotalWeight(configured: seq<Configured>, parse: string -> Parsed): int {
    if configured == [] then 0
    else
      var last := configured[|configured| - 1];
      TotalWeight(configured[..|configured| - 1], parse) + if parse(last.url).Rendered? then EntryWeight(last) else 0
  }

  /** The total weight of the entries that parse to the URL. */
  function UrlWeight(configured: seq<Configured>, parse: string -> Parsed, url: string): int {
    if configured == [] then 0
    else
      var last := configured[|configured| - 1];
      UrlWeight(configured[..|configured| - 1], parse, url)
      + if parse(last.url) == Rendered(url) then EntryWeight(last) else 0
  }

  // ---- The weighted strategy ----

  lemma {:induction false} WeightForPrefix(targets: seq<Target>, t: Target, url: string, k: nat)
    requires k <= |targets|
    ensures WeightedResults.WeightFor(targets + [t], All(|targets| + 1), url, k)
         == WeightedResults.WeightFor(targets, All(|targets|), url, k)
  {
    if k != 0 {
      WeightForPrefix(targets, t, url, k - 1);
    }
  }

  lemma {:induction false} SumPrefix(targets: seq<Target>, t: Target, k: nat)
    requires k <= |targets|
    ensures Sum(All(|targets| + 1), Weighted.Weights(targets + [t]), k)
         == Sum(All(|targets|), Weighted.Weights(targets), k)
  {
    if k != 0 {
      SumPrefix(targets, t, k - 1);
    }
  }

  /** The weights of the targets add up to those of the configuration. */
  lemma {:induction false} BuiltWeights(configured: seq<Configured>, parse: string -> Parsed, url: string)
    ensures var targets := Built(configured, parse);
            && Sum(All(|targets|), Weighted.Weights(targets), |targets|) == TotalWeight(configured, parse)
            && WeightedResults.WeightFor(targets, All(|targets|), url, |targets|) == UrlWeight(configured, parse, url)
  {
    if configured != [] {
      var before, last := configured[..|configured| - 1], configured[|configured| - 1];
      BuiltWeights(before, parse, url);
      if parse(last.url).Rendered? {
        var targets, t := Built(before, parse), Built(configured, parse)[|Built(before, parse)|];
        assert Built(configured, parse) == targets + [t];
        SumPrefix(targets, t, |targets|);
        WeightForPrefix(targets, t, url, |targets|);
      }
    }
  }

  function Nexts(k: nat): (calls: seq<WeightedRuns.Call>)
    ensures |calls| == k
  {
    seq(k, _ => WeightedRuns.NextCall)
  }

  lemma {:induction false} NextsQuiet(s: Weighted.State, k: nat)
    requires Weighted.Shaped(s)
    ensures WeightedRuns.Quiet(s, Nexts(k)) && WeightedRuns.NextCalls(Nexts(k)) == k
    decreases k
  {
    if k != 0 {
      assert Nexts(k)[1..] == Nexts(k - 1);
      NextsQuiet(WeightedRuns.Step(s, WeightedRuns.NextCall), k - 1);
    }
  }

  lemma {:induction false} SmoothCalls(s: Weighted.State, k: nat)
    requires Weighted.Shaped(s)
    ensures AfterCalls(Smooth(s), k) == Smooth(WeightedRuns.Run(s, Nexts(k)))
    ensures Returned(Smooth(s), k) == WeightedResults.Results(s, Nexts(k))
    decreases k
  {
    if k != 0 {
      assert Nexts(k)[1..] == Nexts(k - 1);
      SmoothCalls(Weighted.Pick(s).0, k - 1);
    }
  }

  lemma {:induction false} NextsWindow(targets: seq<Target>, k: nat, total: nat, url: string)
    requires Weighted.PositiveWeights(targets) && targets != []
    requires total == Sum(All(|targets|), Weighted.Weights(targets), |targets|)
    ensures var s := WeightedRuns.Run(Weighted.Initial(targets), Nexts(k));
            WeightedResults.Count(WeightedResults.Results(s, Nexts(total)), Selected(url))
            == WeightedResults.WeightFor(targets, All(|targets|), url, |targets|)
  {
    var s := Weighted.Initial(targets);
    assert Nexts(k) + Nexts(total) == Nexts(k + total);
    NextsQuiet(s, k + total);
    NextsQuiet(s, total);
    WeightedResults.NewBalancerResults(targets, Nexts(k), Nexts(total), url);
  }

  lemma {:induction false} SmoothWindow(targets: seq<Target>, k: nat, total: nat, url: string)
    requires Weighted.PositiveWeights(targets) && targets != []
    requires total == Sum(All(|targets|), Weighted.Weights(targets), |targets|)
    ensures WeightedResults.Count(Returned(AfterCalls(Initial(targets, true), k), total), Selected(url))
         == WeightedResults.WeightFor(targets, All(|targets|), url, |targets|)
  {
    var s := Weighted.Initial(targets);
    SmoothCalls(s, k);
    SmoothCalls(WeightedRuns.Run(s, Nexts(k)), total);
    NextsWindow(targets, k, total, url);
  }

  /**
   Strategy "weighted": of any T consecutive calls of `Next`, T being the total weight of the entries
   that parse, exactly as many return a URL as its entries weigh.
   */
  lemma {:induction false} WeightedShares(configured: seq<Configured>, strategy: string, parse: string -> Parsed,
                                          k: nat, url: string)
    requires strategy == "weighted" && TotalWeight(configured, parse) > 0
    ensures var b := Initial(Built(configured, parse), strategy == "weighted");
            WeightedResults.Count(Returned(AfterCalls(b, k), TotalWeight(configured, parse)), Selected(url))
            == UrlWeight(configured, parse, url)
  {
    BuiltWeights(configured, parse, url);
    SmoothWindow(Built(configured, parse), k, TotalWeight(configured, parse), url);
  }

  // ---- Every other strategy ----

  lemma {:induction false} PlainStep(s: RoundRobin.State)
    requires RoundRobin.Shaped(s) && s.targets != [] && s.counter + 1 < RoundRobin.WRAP
    ensures Pick(Plain(s)).0 == Plain(s.(counter := s.counter + 1))
  {
  }

  lemma {:induction false} PlainCalls(s: RoundRobin.State, k: nat)
    requires RoundRobin.Shaped(s) && s.targets != [] && s.counter + k < RoundRobin.WRAP
    ensures AfterCalls(Plain(s), k) == Plain(s.(counter := s.counter + k))
    decreases k
  {
    if k != 0 {
      PlainStep(s);
      PlainCalls(s.(counter := s.counter + 1), k - 1);
    }
  }

  lemma {:induction false} TicketPosition(ticket: nat, n: nat)
    requires n > 0 && ticket < RoundRobin.WRAP
    ensures RoundRobin.Position(ticket, 0, n) == ticket % n
  {
  }

  lemma {:induction false} HealthyTurn(s: RoundRobin.State)
    requires RoundRobin.Shaped(s) && s.targets != [] && s.healthy[s.counter % |s.targets|]
    ensures Pick(Plain(s)).1 == Selected(s.targets[s.counter % |s.targets|].url)
  {
    TicketPosition(s.counter, |s.healthy|);
  }

  /** Any other strategy takes the targets in turn, whatever their weights. */
  lemma {:induction false} PlainTurns(configured: seq<Configured>, strategy: string, parse: string -> Parsed, k: nat)
    requires strategy != "weighted" && Built(configured, parse) != [] && k < RoundRobin.WRAP
    ensures var targets := Built(configured, parse);
            Pick(AfterCalls(Initial(targets, strategy == "weighted"), k)).1
            == Selected(targets[k % |targets|].url)
  {
    var s := RoundRobin.Initial(Built(configured, parse));
    PlainCalls(s, k);
    HealthyTurn(s.(counter := k));
  }
}
