/** The health checker and the balancer it drives, internal/balancer/health.go. */
module Health {
  import opened Targets
  import opened Balancers

  datatype Status = Status(healthy: bool, consecutiveFailures: nat)

  /** The two copies of health state: the balancer's flags and the checker's statuses. */
  datatype System = System(balancer: State, statuses: map<string, Status>)

  ghost predicate Formed(sys: System) {
    Shaped(sys.balancer)
  }

  /** What a probe of the health endpoint yields. */
  datatype Response = TransportError | HttpStatus(code: int)

  predicate Passed(response: Response) {
    response.HttpStatus? && 200 <= response.code < 300
  }

  function FreshStatuses(targets: seq<Target>): (m: map<string, Status>)
    ensures forall url :: url in m <==> HasUrl(targets, url)
    ensures forall url :: url in m ==> m[url] == Status(true, 0)
  {
    map i | 0 <= i < |targets| :: targets[i].url := Status(true, 0)
  }

  function NewSystem(balancer: State): (sys: System) {
    System(balancer, FreshStatuses(TargetsOf(balancer)))
  }

  /** recordSuccess and recordFailure; probes of unknown URLs are ignored. */
  function Record(sys: System, threshold: int, url: string, passed: bool): (sys': System)
    requires Formed(sys)
    ensures Formed(sys') && TargetsOf(sys'.balancer) == TargetsOf(sys.balancer)
  {
    if url !in sys.statuses then sys
    else if passed then
      System(Mark(sys.balancer, url, true), sys.statuses[url := Status(true, 0)])
    else
      var was := sys.statuses[url];
      var fails := was.consecutiveFailures + 1;
      if fails >= threshold && was.healthy then
        System(Mark(sys.balancer, url, false), sys.statuses[url := Status(false, fails)])
      else
        sys.(statuses := sys.statuses[url := Status(was.healthy, fails)])
  }

  /** What the checker reports of a URL. */
  predicate ReportsUp(sys: System, url: string) {
    url in sys.statuses && sys.statuses[url].healthy
  }

  /** One round of probes over the first k targets. */
  function RecordRound(sys: System, threshold: int, targets: seq<Target>, responses: seq<Response>, k: nat)
    : (sys': System)
    requires Formed(sys) && k <= |targets| && |responses| == |targets|
    ensures Formed(sys')
  {
    if k == 0 then sys
    else
      Record(RecordRound(sys, threshold, targets, responses, k - 1), threshold,
             targets[k - 1].url, Passed(responses[k - 1]))
  }

  class HealthChecker {
    const balancer: Balancer
    const threshold: int
    var statuses: map<string, Status>

    ghost predicate Valid()
      reads this, balancer.Footprint()
    {
      this !in balancer.Footprint() && balancer.Valid()
    }

    ghost function Model(): (sys: System)
      reads this, balancer.Footprint()
    {
      System(balancer.Model(), statuses)
    }

    constructor (balancer: Balancer, threshold: int)
      requires balancer.Valid()
      ensures Valid() && this.balancer == balancer && this.threshold == threshold
      ensures Model() == NewSystem(balancer.Model())
    {
      this.balancer := balancer;
      this.threshold := threshold;
      statuses := FreshStatuses(balancer.Targets());
    }

    method RecordSuccess(targetURL: string)
      requires Valid()
      modifies this`statuses, balancer.Footprint()
      ensures Valid() && Model() == Record(old(Model()), threshold, targetURL, true)
    {
      if targetURL !in statuses {
        return;
      }
      statuses := statuses[targetURL := Status(true, 0)];
      balancer.SetHealthy(targetURL, true);
    }

    method RecordFailure(targetURL: string)
      requires Valid()
      modifies this`statuses, balancer.Footprint()
      ensures Valid() && Model() == Record(old(Model()), threshold, targetURL, false)
    {
      if targetURL !in statuses {
        return;
      }
      var status := statuses[targetURL];
      status := status.(consecutiveFailures := status.consecutiveFailures + 1);
      statuses := statuses[targetURL := status];
      if status.consecutiveFailures >= threshold && status.healthy {
        statuses := statuses[targetURL := status.(healthy := false)];
        balancer.SetHealthy(targetURL, false);
      }
    }

    method CheckTarget(targetURL: string, response: Response)
      requires Valid()
      modifies this`statuses, balancer.Footprint()
      ensures Valid() && Model() == Record(old(Model()), threshold, targetURL, Passed(response))
    {
      if response.HttpStatus? && response.code >= 200 && response.code < 300 {
        RecordSuccess(targetURL);
      } else {
        RecordFailure(targetURL);
      }
    }

    method CheckAll(responses: seq<Response>)
      requires Valid() && |responses| == |balancer.Targets()|
      modifies this`statuses, balancer.Footprint()
      ensures Valid()
      ensures Model()
           == RecordRound(old(Model()), threshold, balancer.Targets(), responses, |responses|)
    {
      var targets := balancer.Targets();
      for k := 0 to |targets|
        invariant Valid() && Model() == RecordRound(old(Model()), threshold, targets, responses, k)
      {
        CheckTarget(targets[k].url, responses[k]);
      }
    }

    method IsHealthy(targetURL: string) returns (up: bool)
      requires Valid()
      ensures up <==> ReportsUp(Model(), targetURL)
    {
      up := targetURL in statuses && statuses[targetURL].healthy;
    }
  }
}
