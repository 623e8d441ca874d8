/**
 From probe history to routing: what every sequence of probes and `Next` calls keeps, when the
 health checker is the only caller of `SetHealthy`.
 */
module HealthRouting {
  import opened Targets
  import opened Balancers
  import opened Health
  import RoundRobin
  import opened Streaks

  datatype Event = Probe(url: string, passed: bool) | NextCall

  function Step(sys: System, threshold: int, e: Event): (sys': System)
    requires Formed(sys)
    ensures Formed(sys') && TargetsOf(sys'.balancer) == TargetsOf(sys.balancer)
  {
    match e
    case Probe(url, passed) => Record(sys, threshold, url, passed)
    case NextCall => sys.(balancer := Pick(sys.balancer).0)
  }

  /** The system after the events. */
  function Continue(sys: System, threshold: int, events: seq<Event>): (sys': System)
    requires Formed(sys)
    ensures Formed(sys') && TargetsOf(sys'.balancer) == TargetsOf(sys.balancer)
  {
    if events == [] then sys
    else Step(Continue(sys, threshold, events[..|events| - 1]), threshold, events[|events| - 1])
  }

  /** ... from a new balancer and a new checker. */
  function Run(targets: seq<Target>, weighted: bool, threshold: int, events: seq<Event>): (sys: System)
    ensures Formed(sys) && TargetsOf(sys.balancer) == targets
  {
    Continue(NewSystem(Initial(targets, weighted)), threshold, events)
  }

  /** The results of the probes of one URL, in order. */
  function History(events: seq<Event>, url: string): seq<bool> {
    if events == [] then []
    else
      var before, e := History(events[..|events| - 1], url), events[|events| - 1];
      if e.Probe? && e.url == url then before + [e.passed] else before
  }

  /** A threshold of 0 or less still takes one failure. */
  function Needed(threshold: int): (m: nat)
    ensures m >= 1
  {
    if threshold < 1 then 1 else threshold
  }

  /** The specification: the last `threshold` probes of the URL all failed. */
  ghost predicate Down(events: seq<Event>, threshold: int, url: string) {
    LastFailed(History(events, url), Needed(threshold))
  }

  // ---- The runs of the checker ----

  function RoundEvents(targets: seq<Target>, responses: seq<Response>, k: nat): (events: seq<Event>)
    requires k <= |targets| == |responses|
    ensures |events| == k
  {
    seq(k, i requires 0 <= i < k => Probe(targets[i].url, Passed(responses[i])))
  }

  /** One reply per target in every round. */
  ghost predicate Replies(targets: seq<Target>, replies: seq<seq<Response>>) {
    forall r :: r in replies ==> |r| == |targets|
  }

  /** Whole rounds of checkAll, one after the other. */
  function Rounds(targets: seq<Target>, replies: seq<seq<Response>>): seq<Event>
    requires Replies(targets, replies)
  {
    if replies == [] then []
    else
      Rounds(targets, replies[..|replies| - 1]) + RoundEvents(targets, replies[|replies| - 1], |targets|)
  }

  ghost predicate IsRounds(targets: seq<Target>, events: seq<Event>) {
    exists replies: seq<seq<Response>> :: Replies(targets, replies) && events == Rounds(targets, replies)
  }

  // ---- The invariant ----

  ghost predicate StatusFollows(sys: System, events: seq<Event>, threshold: int, url: string)
    requires url in sys.statuses
  {
    var t := Trailing(History(events, url));
    sys.statuses[url] == Status(t < Needed(threshold), t)
  }

  /** The flag of a first target with its URL follows the history; a repeated one is never lowered. */
  ghost predicate FlagFollows(sys: System, events: seq<Event>, threshold: int, i: int)
    requires Formed(sys) && 0 <= i < |TargetsOf(sys.balancer)|
  {
    var targets := TargetsOf(sys.balancer);
    Flags(sys.balancer)[i]
    <==> !(IsFirst(targets, i) && Trailing(History(events, targets[i].url)) >= Needed(threshold))
  }

  ghost predicate Follows(sys: System, events: seq<Event>, threshold: int)
    requires Formed(sys)
  {
    && (forall url :: url in sys.statuses <==> HasUrl(TargetsOf(sys.balancer), url))
    && (forall url :: url in sys.statuses ==> StatusFollows(sys, events, threshold, url))
    && (forall i :: 0 <= i < |TargetsOf(sys.balancer)| ==> FlagFollows(sys, events, threshold, i))
  }

  lemma {:induction false} HistoryExtends(events: seq<Event>, e: Event, url: string)
    ensures History(events + [e], url)
         == if e.Probe? && e.url == url then History(events, url) + [e.passed] else History(events, url)
    ensures Trailing(History(events + [e], url))
         == if !(e.Probe? && e.url == url) then Trailing(History(events, url))
            else if e.passed then 0 else Trailing(History(events, url)) + 1
  {
    assert (events + [e])[..|events|] == events;
    if e.Probe? && e.url == url {
      TrailingAppend(History(events, url), e.passed);
    }
  }

  lemma {:induction false} StatusStep(sys: System, threshold: int, e: Event, url: string)
    requires Formed(sys) && url in Step(sys, threshold, e).statuses
    ensures url in sys.statuses
    ensures var was, now := sys.statuses[url], Step(sys, threshold, e).statuses[url];
            now == if !(e.Probe? && e.url == url) then was
                   else if e.passed then Status(true, 0)
                   else Status(was.healthy && was.consecutiveFailures + 1 < threshold, was.consecutiveFailures + 1)
  {
  }

  lemma {:induction false} StatusesFollow(sys: System, events: seq<Event>, threshold: int, e: Event, url: string)
    requires Formed(sys) && Follows(sys, events, threshold) && url in Step(sys, threshold, e).statuses
    ensures StatusFollows(Step(sys, threshold, e), events + [e], threshold, url)
  {
    StatusStep(sys, threshold, e, url);
    HistoryExtends(events, e, url);
    assert StatusFollows(sys, events, threshold, url);
  }

  lemma {:induction false} MarkReaches(b: State, url: string, up: bool, i: nat)
    requires Shaped(b) && i < |TargetsOf(b)|
    ensures Flags(Mark(b, url, up))[i]
         == if TargetsOf(b)[i].url == url && IsFirst(TargetsOf(b), i) then up else Flags(b)[i]
  {
  }

  /** A probe reaches the flag of target i only if i is the first with its URL. */
  lemma {:induction false} RecordReaches(sys: System, threshold: int, url: string, passed: bool, i: nat)
    requires Formed(sys) && i < |TargetsOf(sys.balancer)| && TargetsOf(sys.balancer)[i].url in sys.statuses
    ensures var targets, flag := TargetsOf(sys.balancer), Flags(sys.balancer)[i];
            var status := sys.statuses[targets[i].url];
            Flags(Record(sys, threshold, url, passed).balancer)[i]
            == if targets[i].url != url || !IsFirst(targets, i) then flag
               else if passed then true
               else if status.consecutiveFailures + 1 >= threshold && status.healthy then false
               else flag
  {
    MarkReaches(sys.balancer, url, passed, i);
  }

  lemma {:induction false} FlagsFollow(sys: System, events: seq<Event>, threshold: int, e: Event, i: nat)
    requires Formed(sys) && Follows(sys, events, threshold) && i < |TargetsOf(sys.balancer)|
    ensures FlagFollows(Step(sys, threshold, e), events + [e], threshold, i)
  {
    var url := TargetsOf(sys.balancer)[i].url;
    HistoryExtends(events, e, url);
    assert FlagFollows(sys, events, threshold, i);
    assert HasUrl(TargetsOf(sys.balancer), url) && StatusFollows(sys, events, threshold, url);
    if e.Probe? {
      RecordReaches(sys, threshold, e.url, e.passed, i);
    }
  }

  lemma {:induction false} StepFollows(sys: System, events: seq<Event>, threshold: int, e: Event)
    requires Formed(sys) && Follows(sys, events, threshold)
    ensures Follows(Step(sys, threshold, e), events + [e], threshold)
  {
    var sys' := Step(sys, threshold, e);
    assert sys'.statuses.Keys == sys.statuses.Keys;
    forall url | url in sys'.statuses ensures StatusFollows(sys', events + [e], threshold, url) {
      StatusesFollow(sys, events, threshold, e, url);
    }
    forall i | 0 <= i < |TargetsOf(sys'.balancer)| ensures FlagFollows(sys', events + [e], threshold, i) {
      FlagsFollow(sys, events, threshold, e, i);
    }
  }

  lemma {:induction false} NewFollows(targets: seq<Target>, weighted: bool, threshold: int)
    ensures Follows(NewSystem(Initial(targets, weighted)), [], threshold)
  {
  }

  lemma {:induction false} RunFollows(targets: seq<Target>, weighted: bool, threshold: int, events: seq<Event>)
    ensures Follows(Run(targets, weighted, threshold, events), events, threshold)
  {
    if events == [] {
      NewFollows(targets, weighted, threshold);
    } else {
      var before := events[..|events| - 1];
      RunFollows(targets, weighted, threshold, before);
      StepFollows(Run(targets, weighted, threshold, before), before, threshold, events[|events| - 1]);
      assert before + [events[|events| - 1]] == events;
    }
  }

  // ---- The theorems ----

  /** A status is unhealthy iff its last `threshold` probes failed; so is the flag of a first target. */
  lemma {:induction false} HealthFollowsProbes(targets: seq<Target>, weighted: bool, threshold: int,
                                               events: seq<Event>, i: nat)
    requires i < |targets|
    ensures var sys := Run(targets, weighted, threshold, events);
            && targets[i].url in sys.statuses
            && (sys.statuses[targets[i].url].healthy <==> !Down(events, threshold, targets[i].url))
            && (Flags(sys.balancer)[i] <==> !(IsFirst(targets, i) && Down(events, threshold, targets[i].url)))
  {
    var sys := Run(targets, weighted, threshold, events);
    RunFollows(targets, weighted, threshold, events);
    assert HasUrl(targets, targets[i].url);
    assert StatusFollows(sys, events, threshold, targets[i].url) && FlagFollows(sys, events, threshold, i);
    TrailingMeaning(History(events, targets[i].url), Needed(threshold));
  }

  /** The checker's status and the balancer's flag of every target agree. */
  ghost predicate Agree(sys: System)
    requires Formed(sys)
  {
    forall i :: 0 <= i < |TargetsOf(sys.balancer)| ==> AgreeOn(sys, i)
  }

  ghost predicate AgreeOn(sys: System, i: int)
    requires Formed(sys) && 0 <= i < |TargetsOf(sys.balancer)|
  {
    var url := TargetsOf(sys.balancer)[i].url;
    url in sys.statuses && sys.statuses[url].healthy == Flags(sys.balancer)[i]
  }

  /** After every run; with `rounds`, after every run of whole checkAll rounds. */
  ghost predicate AlwaysAgree(targets: seq<Target>, weighted: bool, threshold: int, rounds: bool) {
    forall events: seq<Event> :: (rounds ==> IsRounds(targets, events)) ==>
      Agree(Run(targets, weighted, threshold, events))
  }

  lemma {:induction false} DistinctAgree(targets: seq<Target>, weighted: bool, threshold: int, events: seq<Event>)
    requires DistinctUrls(targets)
    ensures Agree(Run(targets, weighted, threshold, events))
  {
    var sys := Run(targets, weighted, threshold, events);
    forall i | 0 <= i < |targets| ensures AgreeOn(sys, i) {
      HealthFollowsProbes(targets, weighted, threshold, events, i);
    }
  }

  /** An outage lowers only the first flag of a repeated URL. */
  lemma {:induction false} RepeatedDisagree(targets: seq<Target>, weighted: bool, threshold: int, j: nat)
    requires j < |targets| && !IsFirst(targets, j)
    ensures !Agree(Run(targets, weighted, threshold, Outage(targets, threshold)))
  {
    var events := Outage(targets, threshold);
    OutageDowns(targets, threshold, j);
    HealthFollowsProbes(targets, weighted, threshold, events, j);
    assert !AgreeOn(Run(targets, weighted, threshold, events), j);
  }

  /**
   The two copies of health state agree after every run if and only if the URLs are distinct; runs
   of whole rounds are enough to tell.
   */
  lemma {:induction false} AgreeIffDistinct(targets: seq<Target>, weighted: bool, threshold: int, rounds: bool)
    ensures AlwaysAgree(targets, weighted, threshold, rounds) <==> DistinctUrls(targets)
  {
    if DistinctUrls(targets) {
      forall events: seq<Event> ensures Agree(Run(targets, weighted, threshold, events)) {
        DistinctAgree(targets, weighted, threshold, events);
      }
    } else {
      var i, j :| 0 <= i < j < |targets| && targets[i].url == targets[j].url;
      assert !IsFirst(targets, j);
      OutageIsRounds(targets, threshold);
      RepeatedDisagree(targets, weighted, threshold, j);
    }
  }

  /** `IsHealthy` is true exactly of the target URLs whose last `threshold` probes did not all fail. */
  lemma {:induction false} ReportsUpIff(targets: seq<Target>, weighted: bool, threshold: int,
                                        events: seq<Event>, url: string)
    ensures ReportsUp(Run(targets, weighted, threshold, events), url)
       <==> HasUrl(targets, url) && !Down(events, threshold, url)
  {
    RunFollows(targets, weighted, threshold, events);
    if HasUrl(targets, url) {
      var i :| 0 <= i < |targets| && targets[i].url == url;
      HealthFollowsProbes(targets, weighted, threshold, events, i);
    }
  }

  // ---- Routing ----

  /** Target i is out of rotation: it is the first with its URL, and the URL is down. */
  ghost predicate Lowered(targets: seq<Target>, threshold: int, events: seq<Event>, i: int)
    requires 0 <= i < |targets|
  {
    IsFirst(targets, i) && Down(events, threshold, targets[i].url)
  }

  /** After any run `Next` returns the URL of a target that is not out of rotation. */
  lemma {:induction false} RoutedTarget(targets: seq<Target>, weighted: bool, threshold: int,
                                        events: seq<Event>, url: string)
    requires Pick(Run(targets, weighted, threshold, events).balancer).1 == Selected(url)
    ensures exists i :: 0 <= i < |targets| && targets[i].url == url && !Lowered(targets, threshold, events, i)
  {
    var balancer := Run(targets, weighted, threshold, events).balancer;
    PickFollowsFlags(balancer);
    var i :| 0 <= i < |targets| && Flags(balancer)[i] && targets[i].url == url;
    HealthFollowsProbes(targets, weighted, threshold, events, i);
    assert !Lowered(targets, threshold, events, i);
  }

  /** After any run `Next` fails exactly when every target it looks at is out of rotation. */
  lemma {:induction false} FailsIff(targets: seq<Target>, weighted: bool, threshold: int, events: seq<Event>)
    ensures var balancer := Run(targets, weighted, threshold, events).balancer;
            Pick(balancer).1 == NoHealthyTargets
            <==> forall i :: 0 <= i < |targets| && LooksAt(balancer, i) ==> Lowered(targets, threshold, events, i)
  {
    var balancer := Run(targets, weighted, threshold, events).balancer;
    FailsIffScannedDown(balancer);
    forall i | 0 <= i < |targets|
      ensures Flags(balancer)[i] <==> !Lowered(targets, threshold, events, i)
    {
      HealthFollowsProbes(targets, weighted, threshold, events, i);
    }
  }

  /** `Next` fails exactly when the last `threshold` probes of every target failed. */
  ghost predicate FailsWhenDown(targets: seq<Target>, weighted: bool, threshold: int, events: seq<Event>) {
    Pick(Run(targets, weighted, threshold, events).balancer).1 == NoHealthyTargets
    <==> forall i :: 0 <= i < |targets| ==> Down(events, threshold, targets[i].url)
  }

  /** ... after every run (of whole rounds), unless the counter wrap cuts the next scan short. */
  ghost predicate AlwaysFailsWhenDown(targets: seq<Target>, weighted: bool, threshold: int, rounds: bool) {
    forall events: seq<Event> ::
      CleanNext(Run(targets, weighted, threshold, events).balancer) && (rounds ==> IsRounds(targets, events)) ==>
        FailsWhenDown(targets, weighted, threshold, events)
  }

  lemma {:induction false} DistinctFailsWhenDown(targets: seq<Target>, weighted: bool, threshold: int,
                                                 events: seq<Event>)
    requires DistinctUrls(targets) && CleanNext(Run(targets, weighted, threshold, events).balancer)
    ensures FailsWhenDown(targets, weighted, threshold, events)
  {
    var balancer := Run(targets, weighted, threshold, events).balancer;
    FailsIff(targets, weighted, threshold, events);
    forall i | 0 <= i < |targets|
      ensures LooksAt(balancer, i)
      ensures Lowered(targets, threshold, events, i) <==> Down(events, threshold, targets[i].url)
    {
      CleanLooksAtAll(balancer, i);
    }
  }

  /** After every run (of whole rounds) `Next` returns no URL whose last `threshold` probes all failed. */
  ghost predicate NeverRoutesDown(targets: seq<Target>, weighted: bool, threshold: int, rounds: bool) {
    forall events: seq<Event>, url: string :: (rounds ==> IsRounds(targets, events)) ==>
      RoutesUp(targets, weighted, threshold, events, url)
  }

  ghost predicate RoutesUp(targets: seq<Target>, weighted: bool, threshold: int, events: seq<Event>, url: string) {
    Pick(Run(targets, weighted, threshold, events).balancer).1 == Selected(url) ==> !Down(events, threshold, url)
  }

  lemma {:induction false} DistinctRoutesUp(targets: seq<Target>, weighted: bool, threshold: int,
                                            events: seq<Event>, url: string)
    requires DistinctUrls(targets)
    ensures RoutesUp(targets, weighted, threshold, events, url)
  {
    if Pick(Run(targets, weighted, threshold, events).balancer).1 == Selected(url) {
      RoutedTarget(targets, weighted, threshold, events, url);
    }
  }

  ghost predicate OnlyFailedProbes(events: seq<Event>) {
    forall i :: 0 <= i < |events| ==> events[i].Probe? && !events[i].passed
  }

  lemma {:induction false} FailedHistory(events: seq<Event>, url: string)
    requires OnlyFailedProbes(events)
    ensures forall i :: 0 <= i < |History(events, url)| ==> !History(events, url)[i]
  {
    if events != [] {
      FailedHistory(events[..|events| - 1], url);
    }
  }

  lemma {:induction false} HistoryConcat(a: seq<Event>, b: seq<Event>, url: string)
    ensures History(a + b, url) == History(a, url) + History(b, url)
  {
    if b == [] {
      assert a + b == a;
    } else {
      assert (a + b)[..|a + b| - 1] == a + b[..|b| - 1];
      HistoryConcat(a, b[..|b| - 1], url);
    }
  }

  lemma {:induction false} RoundReaches(targets: seq<Target>, responses: seq<Response>, k: nat, i: nat)
    requires i < k <= |targets| == |responses|
    ensures |History(RoundEvents(targets, responses, k), targets[i].url)| >= 1
  {
    assert RoundEvents(targets, responses, k)[..k - 1] == RoundEvents(targets, responses, k - 1);
    if i < k - 1 {
      RoundReaches(targets, responses, k - 1, i);
    }
  }

  /** m rounds in which no target answers. */
  function Silence(targets: seq<Target>, m: nat): (replies: seq<seq<Response>>)
    ensures |replies| == m && Replies(targets, replies)
  {
    seq(m, _ => seq(|targets|, _ => TransportError))
  }

  /** The rounds that take every target down. */
  function Outage(targets: seq<Target>, threshold: int): seq<Event> {
    Rounds(targets, Silence(targets, Needed(threshold)))
  }

  lemma {:induction false} OutageIsRounds(targets: seq<Target>, threshold: int)
    ensures IsRounds(targets, Outage(targets, threshold))
  {
    assert Replies(targets, Silence(targets, Needed(threshold)));
  }

  lemma {:induction false} SilenceFails(targets: seq<Target>, m: nat)
    ensures OnlyFailedProbes(Rounds(targets, Silence(targets, m)))
  {
    if m != 0 {
      assert Silence(targets, m)[..m - 1] == Silence(targets, m - 1);
      SilenceFails(targets, m - 1);
    }
  }

  lemma {:induction false} SilenceReaches(targets: seq<Target>, m: nat, i: nat)
    requires i < |targets|
    ensures |History(Rounds(targets, Silence(targets, m)), targets[i].url)| >= m
  {
    if m != 0 {
      var last := Silence(targets, m)[m - 1];
      assert Silence(targets, m)[..m - 1] == Silence(targets, m - 1);
      SilenceReaches(targets, m - 1, i);
      RoundReaches(targets, last, |targets|, i);
      HistoryConcat(Rounds(targets, Silence(targets, m - 1)), RoundEvents(targets, last, |targets|), targets[i].url);
    }
  }

  lemma {:induction false} OutageDowns(targets: seq<Target>, threshold: int, i: nat)
    requires i < |targets|
    ensures Down(Outage(targets, threshold), threshold, targets[i].url)
  {
    SilenceFails(targets, Needed(threshold));
    FailedHistory(Outage(targets, threshold), targets[i].url);
    SilenceReaches(targets, Needed(threshold), i);
  }

  lemma {:induction false} NoCalls(events: seq<Event>)
    requires OnlyFailedProbes(events)
    ensures Calls(events) == 0
  {
    if events != [] {
      NoCalls(events[..|events| - 1]);
    }
  }

  /** A repeated URL is still routed when every URL is down. */
  lemma {:induction false} RepeatedRoutesDown(targets: seq<Target>, weighted: bool, threshold: int, j: nat)
    returns (url: string)
    requires j < |targets| <= RoundRobin.WRAP && !IsFirst(targets, j)
    ensures !RoutesUp(targets, weighted, threshold, Outage(targets, threshold), url)
  {
    var events := Outage(targets, threshold);
    var balancer := Run(targets, weighted, threshold, events).balancer;
    SilenceFails(targets, Needed(threshold));
    NoCalls(events);
    CleanUntilWrap(targets, weighted, threshold, events);
    CleanLooksAtAll(balancer, j);
    FailsIff(targets, weighted, threshold, events);
    assert LooksAt(balancer, j) && !Lowered(targets, threshold, events, j);
    url := Pick(balancer).1.url;
    RoutedTarget(targets, weighted, threshold, events, url);
    var i :| 0 <= i < |targets| && targets[i].url == url;
    OutageDowns(targets, threshold, i);
  }

  /**
   Over all runs, or all runs of whole rounds, `Next` returns only URLs that are not down if and only
   if the URLs are distinct.
   */
  lemma {:induction false} NeverRoutesDownIffDistinct(targets: seq<Target>, weighted: bool, threshold: int,
                                                      rounds: bool)
    requires |targets| <= RoundRobin.WRAP
    ensures NeverRoutesDown(targets, weighted, threshold, rounds) <==> DistinctUrls(targets)
  {
    if DistinctUrls(targets) {
      forall events: seq<Event>, url: string ensures RoutesUp(targets, weighted, threshold, events, url) {
        DistinctRoutesUp(targets, weighted, threshold, events, url);
      }
    } else {
      var i, j :| 0 <= i < j < |targets| && targets[i].url == targets[j].url;
      assert !IsFirst(targets, j);
      OutageIsRounds(targets, threshold);
      var url := RepeatedRoutesDown(targets, weighted, threshold, j);
    }
  }

  /** When every URL is down, a repeated one keeps `Next` from failing. */
  lemma {:induction false} RepeatedNeverFails(targets: seq<Target>, weighted: bool, threshold: int, j: nat)
    requires j < |targets| <= RoundRobin.WRAP && !IsFirst(targets, j)
    ensures var events := Outage(targets, threshold);
            && CleanNext(Run(targets, weighted, threshold, events).balancer)
            && !FailsWhenDown(targets, weighted, threshold, events)
  {
    var events := Outage(targets, threshold);
    SilenceFails(targets, Needed(threshold));
    NoCalls(events);
    CleanUntilWrap(targets, weighted, threshold, events);
    var url := RepeatedRoutesDown(targets, weighted, threshold, j);
    forall i | 0 <= i < |targets| ensures Down(events, threshold, targets[i].url) {
      OutageDowns(targets, threshold, i);
    }
  }

  /**
   Over all runs, or all runs of whole rounds, `Next` fails exactly when every target is down if and
   only if the URLs are distinct.
   */
  lemma {:induction false} FailsWhenDownIffDistinct(targets: seq<Target>, weighted: bool, threshold: int,
                                                    rounds: bool)
    requires |targets| <= RoundRobin.WRAP
    ensures AlwaysFailsWhenDown(targets, weighted, threshold, rounds) <==> DistinctUrls(targets)
  {
    if DistinctUrls(targets) {
      forall events: seq<Event> | CleanNext(Run(targets, weighted, threshold, events).balancer)
        ensures FailsWhenDown(targets, weighted, threshold, events)
      {
        DistinctFailsWhenDown(targets, weighted, threshold, events);
      }
    } else {
      var i, j :| 0 <= i < j < |targets| && targets[i].url == targets[j].url;
      assert !IsFirst(targets, j);
      OutageIsRounds(targets, threshold);
      RepeatedNeverFails(targets, weighted, threshold, j);
    }
  }

  // ---- The counter of the plain balancer ----

  function Calls(events: seq<Event>): nat {
    if events == [] then 0
    else Calls(events[..|events| - 1]) + (if events[|events| - 1].NextCall? then 1 else 0)
  }

  lemma {:induction false} MarkKeepsCounter(b: State, url: string, up: bool)
    requires Shaped(b) && b.Plain?
    ensures Mark(b, url, up).Plain? && Mark(b, url, up).rr.counter == b.rr.counter
  {
  }

  lemma {:induction false} RecordKeepsCounter(sys: System, threshold: int, url: string, passed: bool)
    requires Formed(sys) && sys.balancer.Plain?
    ensures var b := Record(sys, threshold, url, passed).balancer;
            b.Plain? && b.rr.counter == sys.balancer.rr.counter
  {
    MarkKeepsCounter(sys.balancer, url, true);
    MarkKeepsCounter(sys.balancer, url, false);
  }

  lemma {:induction false} StepCounter(sys: System, threshold: int, e: Event)
    requires Formed(sys) && sys.balancer.Plain? && TargetsOf(sys.balancer) != []
    requires sys.balancer.rr.counter + 1 < RoundRobin.WRAP || !e.NextCall?
    ensures var b := Step(sys, threshold, e).balancer;
            b.Plain? && b.rr.counter == sys.balancer.rr.counter + if e.NextCall? then 1 else 0
  {
    if e.Probe? {
      RecordKeepsCounter(sys, threshold, e.url, e.passed);
    }
  }

  /** The counter counts the calls of `Next` until it wraps. */
  lemma {:induction false} CounterCounts(sys: System, threshold: int, events: seq<Event>)
    requires Formed(sys) && sys.balancer.Plain? && TargetsOf(sys.balancer) != []
    requires sys.balancer.rr.counter + Calls(events) < RoundRobin.WRAP
    ensures var b := Continue(sys, threshold, events).balancer;
            b.Plain? && b.rr.counter == sys.balancer.rr.counter + Calls(events)
  {
    if events != [] {
      var before := events[..|events| - 1];
      CounterCounts(sys, threshold, before);
      StepCounter(Continue(sys, threshold, before), threshold, events[|events| - 1]);
      assert Continue(sys, threshold, events)
          == Step(Continue(sys, threshold, before), threshold, events[|events| - 1]);
    }
  }

  lemma {:induction false} StaysSmooth(sys: System, threshold: int, events: seq<Event>)
    requires Formed(sys) && sys.balancer.Smooth?
    ensures Continue(sys, threshold, events).balancer.Smooth?
  {
    if events != [] {
      StaysSmooth(sys, threshold, events[..|events| - 1]);
    }
  }

  /** The wrap is out of reach until 2^64 - n calls of `Next` were made. */
  lemma {:induction false} CleanUntilWrap(targets: seq<Target>, weighted: bool, threshold: int, events: seq<Event>)
    requires Calls(events) + |targets| <= 18_446_744_073_709_551_616
    ensures CleanNext(Run(targets, weighted, threshold, events).balancer)
  {
    var sys := NewSystem(Initial(targets, weighted));
    if weighted {
      StaysSmooth(sys, threshold, events);
    } else if targets != [] {
      CounterCounts(sys, threshold, events);
    }
  }

  // ---- Rounds of probes ----

  lemma {:induction false} ContinueMore(sys: System, threshold: int, events: seq<Event>, more: seq<Event>)
    requires Formed(sys)
    ensures Continue(Continue(sys, threshold, events), threshold, more) == Continue(sys, threshold, events + more)
  {
    if more == [] {
      assert events + more == events;
    } else {
      assert (events + more)[..|events + more| - 1] == events + more[..|more| - 1];
      ContinueMore(sys, threshold, events, more[..|more| - 1]);
    }
  }

  lemma {:induction false} RoundIsProbes(sys: System, threshold: int, targets: seq<Target>,
                                         responses: seq<Response>, k: nat)
    requires Formed(sys) && k <= |targets| == |responses|
    ensures RecordRound(sys, threshold, targets, responses, k)
         == Continue(sys, threshold, RoundEvents(targets, responses, k))
  {
    if k != 0 {
      assert RoundEvents(targets, responses, k)[..k - 1] == RoundEvents(targets, responses, k - 1);
      RoundIsProbes(sys, threshold, targets, responses, k - 1);
    }
  }

  /** A checkAll round after a run continues it by one probe per target, in target order. */
  lemma {:induction false} RoundContinuesRun(targets: seq<Target>, weighted: bool, threshold: int, events: seq<Event>,
                                             responses: seq<Response>)
    requires |targets| == |responses|
    ensures RecordRound(Run(targets, weighted, threshold, events), threshold, targets, responses, |targets|)
         == Run(targets, weighted, threshold, events + RoundEvents(targets, responses, |targets|))
  {
    RoundIsProbes(Run(targets, weighted, threshold, events), threshold, targets, responses, |targets|);
    ContinueMore(NewSystem(Initial(targets, weighted)), threshold, events, RoundEvents(targets, responses, |targets|));
  }
}
