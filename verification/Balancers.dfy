/** The balancer interface and its construction from a route, internal/balancer/balancer.go. */
module Balancers {
  import opened Targets
  import RoundRobin
  import RoundRobinShare
  import Weighted

  /** A target as the route configures it; a weight of 0 or less means 1. */
  datatype Configured = Configured(url: string, weight: int)

  /** What url.Parse makes of a URL: its rendered form, or an error. */
  datatype Parsed = Rendered(url: string) | Malformed

  datatype State = Plain(rr: RoundRobin.State) | Smooth(wrr: Weighted.State)

  ghost predicate Shaped(b: State) {
    match b
    case Plain(rr) => RoundRobin.Shaped(rr)
    case Smooth(wrr) => Weighted.Shaped(wrr)
  }

  function TargetsOf(b: State): seq<Target> {
    match b
    case Plain(rr) => rr.targets
    case Smooth(wrr) => wrr.targets
  }

  function Flags(b: State): seq<bool> {
    match b
    case Plain(rr) => rr.healthy
    case Smooth(wrr) => wrr.healthy
  }

  function Initial(targets: seq<Target>, weighted: bool): (b: State)
    ensures Shaped(b) && TargetsOf(b) == targets
    ensures Flags(b) == seq(|targets|, _ => true)
  {
    if weighted then Smooth(Weighted.Initial(targets)) else Plain(RoundRobin.Initial(targets))
  }

  function Pick(b: State): (r: (State, Selection))
    requires Shaped(b)
    ensures Shaped(r.0) && TargetsOf(r.0) == TargetsOf(b) && Flags(r.0) == Flags(b)
  {
    match b
    case Plain(rr) => var (rr', s) := RoundRobin.Pick(rr); (Plain(rr'), s)
    case Smooth(wrr) => var (wrr', s) := Weighted.Pick(wrr); (Smooth(wrr'), s)
  }

  /** Either balancer updates the flag of the first target with the URL and no other flag. */
  function Mark(b: State, url: string, up: bool): (b': State)
    requires Shaped(b)
    ensures Shaped(b') && TargetsOf(b') == TargetsOf(b)
    ensures var i := Find(TargetsOf(b), url);
            Flags(b') == if i == |TargetsOf(b)| then Flags(b) else Flags(b)[i := up]
  {
    match b
    case Plain(rr) => Plain(RoundRobin.Mark(rr, url, up))
    case Smooth(wrr) => Smooth(Weighted.Mark(wrr, url, up))
  }

  /** The next scan is not cut short by the uint64 wrap; always so for the weighted balancer. */
  predicate CleanNext(b: State) {
    match b
    case Plain(rr) =>
      rr.targets == [] || (|rr.targets| <= RoundRobin.WRAP && RoundRobinShare.Clean(rr.counter, |rr.targets|))
    case Smooth(_) => true
  }

  /** The next call's scan looks at position p. */
  ghost predicate LooksAt(b: State, p: int) {
    match b
    case Plain(rr) =>
      rr.targets != [] && exists i :: 0 <= i < |rr.targets| && RoundRobin.Position(rr.counter, i, |rr.targets|) == p
    case Smooth(_) => true
  }

  lemma {:induction false} CleanLooksAtAll(b: State, p: nat)
    requires Shaped(b) && CleanNext(b) && p < |TargetsOf(b)|
    ensures LooksAt(b, p)
  {
    if b.Plain? {
      var n := |b.rr.targets|;
      var i := RoundRobinShare.Steps(b.rr.counter % n, p, n);
      RoundRobinShare.CleanPosition(b.rr.counter, i, n);
    }
  }

  /** `Next` fails exactly when every flag it looks at is down. */
  lemma {:induction false} FailsIffScannedDown(b: State)
    requires Shaped(b)
    ensures Pick(b).1 == NoHealthyTargets
       <==> forall p :: 0 <= p < |Flags(b)| && LooksAt(b, p) ==> !Flags(b)[p]
  {
    match b
    case Plain(rr) =>
      var d := RoundRobinShare.ScanResult(rr.healthy, rr.counter, 0);
      if d < |rr.healthy| {
        assert LooksAt(b, RoundRobin.Position(rr.counter, d, |rr.healthy|));
      }
    case Smooth(wrr) =>
      Weighted.ChoiceIsLeader(wrr.healthy, Weighted.Weights(wrr.targets), wrr.current);
  }

  /** `Next` returns a target whose flag is up, and fails only without one. */
  lemma {:induction false} PickFollowsFlags(b: State)
    requires Shaped(b)
    ensures match Pick(b).1
            case Selected(url) =>
              exists i :: 0 <= i < |Flags(b)| && Flags(b)[i] && TargetsOf(b)[i].url == url
            case NoHealthyTargets =>
              CleanNext(b) ==> forall i :: 0 <= i < |Flags(b)| ==> !Flags(b)[i]
  {
    match b
    case Plain(rr) =>
      if rr.targets != [] && CleanNext(b) {
        RoundRobinShare.CleanFindsHealthy(rr.healthy, rr.counter);
      }
    case Smooth(wrr) =>
      Weighted.ChoiceIsLeader(wrr.healthy, Weighted.Weights(wrr.targets), wrr.current);
  }

  /** The targets a route ends up with: unparsable ones are skipped, weights are at least 1. */
  function Built(configured: seq<Configured>, parse: string -> Parsed): (targets: seq<Target>)
    ensures Weighted.PositiveWeights(targets)
  {
    if configured == [] then []
    else
      var built, t := Built(configured[..|configured| - 1], parse), configured[|configured| - 1];
      match parse(t.url)
      case Rendered(url) => built + [Target(url, if t.weight <= 0 then 1 else t.weight)]
      case Malformed => built
  }

  /** A configured weight counts if it is at least 1; any other means 1. */
  ghost predicate WeighsAs(configured: int, weight: int) {
    && (configured >= 1 ==> weight == configured)
    && (configured < 1 ==> weight == 1)
  }

  /** Position j of the targets is position from[j] of the configuration, and all that parse are there. */
  ghost predicate BuiltFrom(configured: seq<Configured>, parse: string -> Parsed, targets: seq<Target>,
                            from: seq<nat>)
  {
    && |from| == |targets|
    && (forall j :: 0 <= j < |from| ==>
          && from[j] < |configured|
          && parse(configured[from[j]].url) == Rendered(targets[j].url)
          && WeighsAs(configured[from[j]].weight, targets[j].weight))
    && (forall i, j :: 0 <= i < j < |from| ==> from[i] < from[j])
    && (forall k :: 0 <= k < |configured| && parse(configured[k].url).Rendered? ==> k in from)
  }

  lemma {:induction false} BuiltFromSkip(configured: seq<Configured>, parse: string -> Parsed, targets: seq<Target>,
                                         from: seq<nat>, c: Configured)
    requires BuiltFrom(configured, parse, targets, from) && parse(c.url) == Malformed
    ensures BuiltFrom(configured + [c], parse, targets, from)
  {
  }

  lemma {:induction false} BuiltFromAppend(configured: seq<Configured>, parse: string -> Parsed, targets: seq<Target>,
                                           from: seq<nat>, c: Configured, t: Target)
    requires BuiltFrom(configured, parse, targets, from)
    requires parse(c.url) == Rendered(t.url) && WeighsAs(c.weight, t.weight)
    ensures BuiltFrom(configured + [c], parse, targets + [t], from + [|configured|])
  {
    var more := from + [|configured|];
    forall k | 0 <= k < |configured + [c]| && parse((configured + [c])[k].url).Rendered? ensures k in more {
      if k == |configured| {
        assert more[|from|] == k;
      } else {
        assert k in from;
      }
    }
  }

  /**
   A route's targets are the configured ones whose URL parses, each once and in configuration order,
   with the configured weight if that is at least 1 and with weight 1 otherwise.
   */
  lemma {:induction false} BuiltInOrder(configured: seq<Configured>, parse: string -> Parsed) returns (from: seq<nat>)
    ensures BuiltFrom(configured, parse, Built(configured, parse), from)
  {
    if configured == [] {
      return [];
    }
    var before, last := configured[..|configured| - 1], configured[|configured| - 1];
    assert configured == before + [last];
    from := BuiltInOrder(before, parse);
    match parse(last.url)
    case Malformed => BuiltFromSkip(before, parse, Built(before, parse), from, last);
    case Rendered(_) =>
      var targets := Built(configured, parse);
      BuiltFromAppend(before, parse, Built(before, parse), from, last, targets[|targets| - 1]);
      from := from + [|before|];
  }

  /** A route has a target for every configured URL that parses, and no other target. */
  lemma {:induction false} BuiltIffParsed(configured: seq<Configured>, parse: string -> Parsed, t: Target)
    ensures t in Built(configured, parse)
       <==> exists k :: 0 <= k < |configured| && parse(configured[k].url) == Rendered(t.url)
                        && WeighsAs(configured[k].weight, t.weight)
  {
    var targets := Built(configured, parse);
    var from := BuiltInOrder(configured, parse);
    if t in targets {
      var j :| 0 <= j < |targets| && targets[j] == t;
      assert WeighsAs(configured[from[j]].weight, t.weight);
    }
    if k :| 0 <= k < |configured| && parse(configured[k].url) == Rendered(t.url)
            && WeighsAs(configured[k].weight, t.weight)
    {
      var j :| 0 <= j < |from| && from[j] == k;
      assert targets[j] == t;
    }
  }

  datatype Balancer = PlainBalancer(rr: RoundRobin.RoundRobin) | SmoothBalancer(wrr: Weighted.WeightedRoundRobin)
  {
    ghost function Footprint(): set<object> {
      match this
      case PlainBalancer(rr) => {rr, rr.healthy}
      case SmoothBalancer(wrr) => {wrr.healthy, wrr.currentWeights}
    }

    ghost predicate Valid()
      reads Footprint()
    {
      match this
      case PlainBalancer(rr) => rr.Valid()
      case SmoothBalancer(wrr) => wrr.Valid()
    }

    ghost function Model(): (b: State)
      reads Footprint()
    {
      match this
      case PlainBalancer(rr) => Plain(rr.Model())
      case SmoothBalancer(wrr) => Smooth(wrr.Model())
    }

    function Targets(): seq<Target> {
      match this
      case PlainBalancer(rr) => rr.targets
      case SmoothBalancer(wrr) => wrr.targets
    }

    method Next() returns (r: Selection)
      requires Valid()
      modifies Footprint()
      ensures Valid() && Model() == Pick(old(Model())).0 && r == Pick(old(Model())).1
    {
      match this
      case PlainBalancer(rr) => r := rr.Next();
      case SmoothBalancer(wrr) => r := wrr.Next();
    }

    method SetHealthy(targetURL: string, up: bool)
      requires Valid()
      modifies Footprint()
      ensures Valid() && Model() == Mark(old(Model()), targetURL, up)
    {
      match this
      case PlainBalancer(rr) => rr.SetHealthy(targetURL, up);
      case SmoothBalancer(wrr) => wrr.SetHealthy(targetURL, up);
    }
  }

  method NewFromConfig(configured: seq<Configured>, strategy: string, parse: string -> Parsed)
    returns (b: Balancer)
    ensures b.Valid() && fresh(b.Footprint())
    ensures b.Model() == Initial(Built(configured, parse), strategy == "weighted")
  {
    var targets: seq<Target> := [];
    for k := 0 to |configured|
      invariant targets == Built(configured[..k], parse)
    {
      var t := configured[k];
      assert configured[..k + 1][..k] == configured[..k];
      match parse(t.url)
      case Malformed =>
      case Rendered(url) =>
        var weight := t.weight;
        if weight <= 0 {
          weight := 1;
        }
        targets := targets + [Target(url, weight)];
    }
    assert configured[..|configured|] == configured;
    if strategy == "weighted" {
      var wrr := new Weighted.WeightedRoundRobin(targets);
      b := SmoothBalancer(wrr);
    } else {
      var rr := new RoundRobin.RoundRobin(targets);
      b := PlainBalancer(rr);
    }
  }
}
