# A verified model of the GateForge gateway's routing and protection logic

This project models four stateful algorithms of the gateway in Dafny 4.11 and proves what they
guarantee over whole runs:

- the balancers of a route: plain round-robin with an atomic ticket counter, and smooth weighted
  round-robin (`Targets`, `RoundRobin`, `RoundRobinShare`, `Weighted`, `WeightedFairness`,
  `WeightedRuns`, `WeightedResults`, `WeightedDrift`, `Balancers`, `ConfiguredShares`);
- the health checker that drives a balancer's flags from probe results (`Health`, `HealthRouting`,
  `HealthReplies`);
- the circuit breaker, as a class and as a transition system over its critical sections
  (`Breaker`, `BreakerRuns`, `BreakerShedding`, `BreakerTimeline`);
- the token bucket store with its background cleanup, and the Retry-After header (`TokenBucket`,
  `TokenBucketHistory`, `TokenBucketRuns`, `TokenBucketBursts`, `TokenBucketEviction`,
  `TokenBucketClients`, `TokenBucketDurations`, `TokenBucketHeaders`, and at the grain of its
  synchronisation `TokenBucketRaces`, `TokenBucketRaceBounds`, `TokenBucketLinear`, `TokenBucketRaceGaps`).

`Arithmetic`, `Masks` and `Streaks` hold facts about products, about sums over subsets of positions
and about trailing failures. Code that updates fields or slices in place is a class or an array
method here; each such method is proved equal to a step function on values, and the theorems are
about runs of those step functions. `dafny verify dfyconfig.toml` checks everything.

## Main results

1. **Exact weighted fairness.** From all-zero weights, in any run of `Next` and `SetHealthy` calls
   that changes no flag, every window with W `Next` calls picks each healthy target exactly
   `Weight` times and restores the state (`WeightedRuns.ExactFairness`). The calls return each URL as
   often as its healthy targets weigh (`WeightedResults.ExactResults`), and those of the balancer that
   a route's configuration builds as often as its entries weigh (`ConfiguredShares.WeightedShares`).
2. **Bounded weights under arbitrary flapping.** Over every run of `Next` and `SetHealthy`, all
   current weights stay within `start + T * (2n - 1)` (`WeightedDrift.BoundedWeights`). Hence the
   service a target gets deviates from its share by a constant and no healthy target starves
   (`BoundedDiscrepancy`), and the integers stay small (`NoOverflow`). The proof bounds the sum over
   every subset of targets by a concave function of the subset's size.
3. **Round-robin shares**, for n consecutive tickets completed in any order (`ExactShare`), with the
   exact condition under which the uint64 wrap breaks them (`ExactShareIffClean`) or makes `Next`
   overlook the only healthy target (`FindsHealthyIffClean`, `WrapOverlooksTarget`).
4. **Health routing end to end**: which targets `Next` returns and when it fails are functions of
   the probe history (`RoutedTarget`, `FailsIff`). Over all runs it returns only URLs whose last
   `threshold` probes did not all fail, fails exactly when those of every target did, and agrees
   with the checker's copy of the state, each if and only if the target URLs are distinct
   (`NeverRoutesDownIffDistinct`, `FailsWhenDownIffDistinct`, `AgreeIffDistinct`). The replies to the
   probes decide: a target is down exactly while its last `threshold` replies were all errors or
   answers other than 2xx (`RoutedByReplies`).
5. **Breaker over all interleavings**: the phase, the time of its last change and the answer to every
   request are those of a reference that keeps the whole history and no counters
   (`RunFollowsTimeline`, `RejectedByTimeline`); accounting, sliding window, half-open episodes
   (`Accounting`, `TripsIffFull`, `HalfOpenTrials`, `HalfOpenCanEnd`); and from the event that opens
   the breaker, the load-shedding bound and the recovery (`SheddingFromOpening`, `Recovers`).
6. **The O(1) bucket equals a specification over its whole history**, for timestamps in any order
   (`BucketMeetsSpecification`). A store whose calls and cleanup visits are undivided grants every
   client what that specification grants; with cleanups, timestamps out of order by at most `lag` and
   burst >= 1, if and only if a bucket fills within 300 - 2 * lag seconds
   (`AlwaysMeetsSpecificationIff`, `UnobservableIff`). The advertised Retry-After suffices
   (`RetryAfterSuffices`).
7. **The store under races.** With LoadOrStore, locked section, staleness check and Delete as separate
   steps: every bucket object meets its specification in every interleaving
   (`ObjectsMeetSpecification`); a key gets at most a burst more per Delete, and the rate for the time
   only once (`RacySafety`); and an interleaving in which no call is caught in a gap makes the decisions
   of an undivided run (`UndisturbedIsAtomic`), so that 6 applies to it (`UndisturbedMeetsSpecification`).
   Each of the three gaps alone departs from the specification in some run, if and only if burst >= 1
   (`AlwaysAsSpecifiedIff`).

## Where code and description differ

The model follows the code.

- `HalfOpenMaxReqs` reads as the number of requests allowed while half-open. The request that moves
  the breaker from open to half-open is admitted without being counted, so an episode admits
  `max(HalfOpenMaxReqs, 0) + 1` requests; `EpisodeBoundReached` shows the bound is met.
- A request admitted while the breaker was closed may return while it is half-open and then decides
  the transition. The half-open theorems do not assume that outcomes come from trial requests.
- `RoundRobin.Next` wraps `idx + i` at 2^64 before reducing it modulo n, so a scan that crosses the
  wrap looks at some positions twice and at others not at all unless n divides 2^64.
- `SetHealthy` stops at the first target with the URL, so a repeated URL keeps its later flags up
  whatever the probes say.
- The cleanup is meant to remove only buckets nobody uses. `Delete` removes whatever bucket the key
  has at that moment, so one that was used after the staleness check is lost with its spent tokens
  (`LateDeleteGrants`), and a call that already holds the bucket spends from it although the key has
  a new one (`HeldCallGrants`).
- A bucket is created with the timestamp of the call that stores it, which need not be the first to
  take its lock; an earlier timestamp then finds it less than full (`LateCreatorRefuses`).
- A `FailureWindow` of 0 or less drops every failure as it is noted: with a positive threshold the
  breaker never opens (`OpenReachableIff`).

## Assumptions of the model

- Clock readings are arguments. Inside a breaker critical section there may be two, in order; they
  never run backwards, because they are taken under the lock. The timestamps of rate limit requests
  are taken before the bucket lock and may be out of order. The theorems about cleanups bound that
  by a `lag`, and `ObservableWithoutBound` shows that they need some bound.
- Each critical section is one step. For the weighted balancer and the checker that is a whole
  method, for `Execute` each of its three locked sections, for plain round-robin the ticket draw. For
  the token bucket store it is each map operation and each locked section. `TokenBucketRuns`,
  `TokenBucketBursts`, `TokenBucketEviction`, `TokenBucketClients` and `TokenBucketDurations` take a
  whole `Allow` call, and a whole cleanup visit to a key, as one step. That leaves out three gaps,
  across which `UnobservableIff` and `AlwaysMeetsSpecificationIff` do not hold: a call that holds a
  bucket between LoadOrStore and the lock, a Delete after its staleness check, and a lock taken first
  by a call that did not create the bucket. `TokenBucketLinear` says when an interleaving avoids all
  three, `TokenBucketRaceGaps` what each costs.
- A URL is the string it renders to; `url.Parse` is a parameter of `NewFromConfig`.
- Integers are unbounded except the uint64 ticket counter; `PrefixQuota` and `NoOverflow` bound the
  weighted balancer's integers, and `AlwaysFitsIff` says when durations fit in int64. Floating point
  is modelled by reals, keeping the truncation to nanoseconds and to whole seconds.

## Model

| member | source | states |
|---|---|---|
| Targets.Find | internal/balancer/weighted.go:86-94 | a search by URL reaches the first target with it, or none exists |
| Weighted.WeightedRoundRobin.constructor | internal/balancer/weighted.go:17-29 | all targets start healthy with current weight 0 |
| Weighted.WeightedRoundRobin.Next | internal/balancer/weighted.go:32-65 | the fused loop computes the result and state of the three-pass algorithm |
| Weighted.WeightedRoundRobin.SetHealthy | internal/balancer/weighted.go:83-95 | only the first target with the URL changes; going down zeroes its weight |
| Weighted.LeaderIsFirstMaximum | internal/balancer/weighted.go:53-56 | the scan yields the lowest-index maximum among healthy positions, or none is healthy |
| Weighted.ChoiceIsLeader | internal/balancer/weighted.go:59-64 | no choice exactly when no target is healthy; otherwise the leader of the raised weights |
| WeightedFairness.Ledger | internal/balancer/weighted.go:45-63 | after k picks a healthy weight is start + k * Weight - W * picks; unhealthy ones are frozen and unpicked |
| WeightedFairness.SmoothConserves | internal/balancer/weighted.go:49-63 | one pick conserves the sum over any set that contains the healthy targets |
| WeightedFairness.RunLower | internal/balancer/weighted.go:45-63 | from zero, healthy weights stay at or above 1 - W and sum to 0 after every k picks |
| WeightedFairness.ExactPeriod | docs/ARCHITECTURE.md:75-82 | W picks from zero restore the state and pick each healthy target exactly Weight times |
| WeightedFairness.Periodic | docs/ARCHITECTURE.md:75-82 | the run from zero has period W at every point |
| WeightedFairness.ExactWindow | docs/ARCHITECTURE.md:75-82 | every window of W consecutive picks has the exact counts |
| WeightedFairness.PrefixQuota | internal/balancer/weighted.go:41-64 | after every k picks no target is a full pick ahead of its share; weights lie in [1 - W, (n - 1)(W - 1)], raised ones in [1 - W, nW] |
| WeightedRuns.RunKeepsDownZero | internal/balancer/weighted.go:86-92 | over every run unhealthy targets have current weight 0 |
| WeightedRuns.Conservation | internal/balancer/weighted.go:49-63 | over every run the total changes by exactly the weights forfeited by going down |
| WeightedRuns.QuietRun | internal/balancer/weighted.go:83-95 | health calls that change no flag change nothing: the state is that of the Next calls alone |
| WeightedRuns.QuietPicks | internal/balancer/weighted.go:83-95 | ... and so are the choices |
| WeightedRuns.ExactFairness | internal/balancer/weighted.go:32-65 | exact counts and restored state for every window of W Next calls in a run without flag changes |
| WeightedRuns.NewBalancerFairness | internal/balancer/weighted.go:17-65 | for a new balancer: in a run without flag changes every window of T Next calls picks each target exactly Weight times and restores the state |
| WeightedResults.NextReturnsLeader | internal/balancer/weighted.go:45-64 | Next returns the URL of the first healthy target with the highest raised weight, and the error exactly when none is healthy |
| WeightedResults.ResultsFollowPicks | internal/balancer/weighted.go:64 | in every run a URL is returned as often as the targets that have it are chosen |
| WeightedResults.ExactResults | internal/balancer/weighted.go:32-65 | in a run without flag changes every window of W Next calls returns each URL as often as its healthy targets weigh |
| WeightedResults.NewBalancerResults | internal/balancer/weighted.go:17-65 | for a new balancer every window of T Next calls returns each URL as often as its targets weigh |
| WeightedDrift.RunKeepsBounded | internal/balancer/weighted.go:45-63 | every run keeps every subset sum within limits that are growing and concave in the subset size |
| WeightedDrift.BoundedWeights | internal/balancer/weighted.go:45-92 | over every run with any health changes each weight stays within start + T * (2n - 1) |
| WeightedDrift.NoOverflow | internal/balancer/weighted.go:41-63 | every value the loop computes, the partial sums of totalWeight included, stays within 2 * n * T over every run of a new balancer |
| WeightedDrift.BoundedDiscrepancy | internal/balancer/weighted.go:45-64 | after any flapping, k calm picks serve a healthy target its share up to a constant, and at least once for large k |
| RoundRobin.RoundRobin.constructor | internal/balancer/roundrobin.go:19-28 | all targets start healthy, the counter at 0 |
| RoundRobin.RoundRobin.Next | internal/balancer/roundrobin.go:31-50 | draws one ticket and selects the first healthy position its scan meets |
| RoundRobin.RoundRobin.SetHealthy | internal/balancer/roundrobin.go:68-77 | only the flag of the first target with the URL changes |
| RoundRobinShare.SelectIff | internal/balancer/roundrobin.go:41-47 | a healthy position gets exactly the tickets landing on it or on the unhealthy run before it |
| RoundRobinShare.PicksDrawTickets | internal/balancer/roundrobin.go:41 | k calls advance the counter by k modulo 2^64 and change nothing else |
| RoundRobinShare.PicksSelect | internal/balancer/roundrobin.go:41-49 | call k of a sequential run returns what ticket k of the window selects |
| RoundRobinShare.ExactShare | internal/balancer/roundrobin.go:35-49 | n consecutive tickets, completed in any order, select a healthy position 1 + (length of the unhealthy run before it) times |
| RoundRobinShare.ExactShareIffClean | internal/balancer/roundrobin.go:41-43 | the shares are exact for all health vectors iff the window avoids the wrap or n divides 2^64 |
| RoundRobinShare.FindsHealthyIffClean | internal/balancer/roundrobin.go:42-49 | Next fails exactly without healthy targets, for all health vectors, iff its scan avoids the wrap or n divides 2^64 |
| RoundRobinShare.WrapOverlooksTarget | internal/balancer/roundrobin.go:43 | a concrete scan across the wrap that overlooks the only healthy target |
| Balancers.NewFromConfig | internal/balancer/balancer.go:46-71 | builds the balancer of the strategy over the parsed targets in order |
| Balancers.BuiltInOrder | internal/balancer/balancer.go:47-63 | the targets are the entries that parse, each once and in configuration order, with the configured weight if at least 1 and with 1 otherwise |
| Balancers.BuiltIffParsed | internal/balancer/balancer.go:48-63 | a target exists iff some configured URL parses to it, with the configured weight if at least 1 and with 1 otherwise |
| ConfiguredShares.WeightedShares | internal/balancer/balancer.go:46-71 | strategy "weighted": any T consecutive Next calls return each URL as often as the entries that parse to it weigh, T being the weight of all that parse |
| ConfiguredShares.PlainTurns | internal/balancer/balancer.go:65-70 | any other strategy: call k returns the URL of entry k modulo n of those that parse, whatever the weights |
| Balancers.PickFollowsFlags | internal/balancer/balancer.go:13-18 | either balancer returns a flagged-up target and fails only without one |
| Balancers.FailsIffScannedDown | internal/balancer/roundrobin.go:42-49 | Next fails iff every position it looks at is flagged down, for any ticket |
| Health.HealthChecker.constructor | internal/balancer/health.go:63-86 | every target URL starts with a healthy status |
| Health.HealthChecker.RecordSuccess | internal/balancer/health.go:136-160 | status and flag go up together; unknown URLs are ignored |
| Health.HealthChecker.RecordFailure | internal/balancer/health.go:162-186 | counts the failure and takes status and flag down at the threshold |
| Health.HealthChecker.CheckTarget | internal/balancer/health.go:113-134 | a probe passes exactly with a 2xx response |
| Health.HealthChecker.CheckAll | internal/balancer/health.go:106-111 | one round records every target's response in target order |
| HealthRouting.RunFollows | internal/balancer/health.go:136-186 | the invariant of every run: statuses and flags are functions of the probe history |
| HealthRouting.HealthFollowsProbes | internal/balancer/health.go:171-185 | after every run a status is unhealthy iff the URL's last threshold probes all failed, and so is the flag of the first target with the URL |
| HealthRouting.ReportsUpIff | internal/balancer/health.go:189-197 | after every run IsHealthy is true of a URL iff it is a target's and its last threshold probes did not all fail |
| HealthRouting.AgreeIffDistinct | internal/balancer/health.go:106-186 | checker and balancer agree after every run, or after every run of whole checkAll rounds, iff target URLs are pairwise distinct |
| HealthRouting.RoutedTarget | internal/balancer/balancer.go:13-18 | after any run a returned URL belongs to a target that is not the first of its URL, or whose last threshold probes did not all fail |
| HealthRouting.FailsIff | internal/balancer/balancer.go:42-43 | after any run Next fails iff every target it looks at is the first of its URL and has failed its last threshold probes |
| HealthRouting.NeverRoutesDownIffDistinct | internal/balancer/health.go:106-186 | over all runs, or all runs of whole checkAll rounds, Next returns only URLs whose last threshold probes did not all fail iff target URLs are pairwise distinct |
| HealthRouting.FailsWhenDownIffDistinct | internal/balancer/balancer.go:42-43 | over all runs, or all runs of whole checkAll rounds, Next, with a scan that the wrap does not cut short, fails exactly when the last threshold probes of every target failed, iff target URLs are pairwise distinct |
| HealthRouting.CleanUntilWrap | internal/balancer/roundrobin.go:41 | the wrap condition of the previous row holds until 2^64 - n calls were made |
| HealthRouting.RoundContinuesRun | internal/balancer/health.go:106-111 | a round of checks continues a run by one probe per target in order, so the theorems cover it |
| HealthReplies.ReportedByReplies | internal/balancer/health.go:113-134 | after any rounds IsHealthy is true of a URL iff it is a target's and the last threshold replies to it were not all errors or statuses outside 200-299 |
| HealthReplies.RoutedByReplies | internal/balancer/health.go:106-197 | with distinct URLs, after any rounds target i is reported down and flagged down, and then not returned by Next, iff its last threshold replies were all errors or statuses outside 200-299 |
| Breaker.Compact | internal/circuit/breaker.go:119-127 | in-place compaction keeps exactly the times after the cutoff, in order |
| Breaker.CircuitBreaker.constructor | internal/circuit/breaker.go:37-44 | starts closed with zero counters and no failures |
| Breaker.CircuitBreaker.BeforeRequest | internal/circuit/breaker.go:67-92 | the admission section computes the admission step |
| Breaker.CircuitBreaker.CountRequest | internal/circuit/breaker.go:52-54 | the counting section adds one request |
| Breaker.CircuitBreaker.OnSuccess | internal/circuit/breaker.go:94-105 | the success section clears the streak and closes a half-open breaker with an empty window |
| Breaker.CircuitBreaker.OnFailure | internal/circuit/breaker.go:107-137 | the failure section counts, slides the window and trips |
| Breaker.CircuitBreaker.ResetBreaker | internal/circuit/breaker.go:186-194 | closes, clears streak, window and half-open count, keeps the totals |
| BreakerRuns.Accounting | internal/circuit/breaker.go:47-65 | in every run admitted = totalRequests + pending, totalRequests = succeeded + failed + running, and totalFailures = failed |
| BreakerRuns.StreakFollowsOutcomes | internal/circuit/breaker.go:94-114 | in every run consecutiveFails is at least m iff the last m outcomes failed with no Reset among them |
| BreakerRuns.SlideIsRecent | internal/circuit/breaker.go:116-127 | sliding an already pruned list equals filtering the whole log |
| BreakerRuns.RunWindows | internal/circuit/breaker.go:101-133 | in every run the window is the recent part of the full log, and a closed breaker holds fewer than threshold entries |
| BreakerRuns.TripsIffFull | internal/circuit/breaker.go:129-133 | a failure opens a closed breaker iff at least threshold logged failures lie in the window |
| BreakerRuns.HalfOpenTrials | internal/circuit/breaker.go:76-88 | in every half-open state exactly halfOpenReqs + 1 requests of the episode are admitted and in flight; no episode admits more than max(HalfOpenMaxReqs, 0) + 1 |
| BreakerRuns.RejectedIff | internal/circuit/breaker.go:73-89 | in every reachable state a request is rejected iff the timeout has not passed or the episode's slots are used up |
| BreakerRuns.HalfOpenLasts | internal/circuit/breaker.go:94-137 | half-open lasts exactly as long as no request returns and no Reset comes |
| BreakerRuns.HalfOpenCanEnd | internal/circuit/breaker.go:47-65 | from every reachable half-open state a trial request in flight can return, and its result closes or reopens the breaker |
| BreakerRuns.FirstReturnDecides | internal/circuit/breaker.go:101-136 | the first return after half-open closes or reopens it, whichever request it is |
| BreakerRuns.OpenReachableIff | internal/circuit/breaker.go:107-137 | some run of a new breaker opens it iff failureThreshold <= 0 or failureWindow >= 1 |
| BreakerRuns.EpisodeBoundReached | internal/circuit/breaker.go:67-137 | every configuration that can open has a run of a new breaker with a half-open episode of exactly max(HalfOpenMaxReqs, 0) + 1 requests |
| BreakerShedding.ChangedInThePast | internal/circuit/breaker.go:139-142 | in every reachable state lastStateChange is not after the clock, as the next row requires |
| BreakerShedding.LoadShedding | internal/circuit/breaker.go:67-142 | from any open state with only failures at most max(HalfOpenMaxReqs, 0) + 1 requests pass per whole reset timeout, over all interleavings |
| BreakerTimeline.RunFollowsTimeline | internal/circuit/breaker.go:67-195 | in every run phase, lastStateChange and half-open count are those of a reference over all events that keeps every failure since the last clear |
| BreakerTimeline.RejectedByTimeline | internal/circuit/breaker.go:73-89 | in every run a request is rejected iff the timeout since the opening event has not passed or as many requests as slots arrived in the episode |
| BreakerTimeline.ChangeTime | internal/circuit/breaker.go:139-142 | in every run lastStateChange is the time of the last event after which the phase differs, or of the last Reset, or of construction |
| BreakerTimeline.SheddingFromOpening | internal/circuit/breaker.go:129-142 | from the event that opens the breaker, with only failures, at most max(HalfOpenMaxReqs, 0) + 1 requests pass per whole reset timeout |
| BreakerTimeline.Recovers | internal/circuit/breaker.go:76-82 | after the event that opens the breaker, whatever is rejected or returns within the timeout, the next request passes iff more than the timeout has passed since that event |
| TokenBucket.BucketCell.constructor | internal/ratelimit/token_bucket.go:53-57 | a new bucket is full, refilled and accessed at the caller's timestamp |
| TokenBucket.BucketCell.Take | internal/ratelimit/token_bucket.go:60-97 | the locked section updates the bucket in place to its refilled and spent value and returns the decision |
| TokenBucket.TokenBucketStore.constructor | internal/ratelimit/token_bucket.go:40-47 | starts without buckets |
| TokenBucket.TokenBucketStore.LoadOrStore | internal/ratelimit/token_bucket.go:53-58 | returns the key's object, storing a new full one exactly if there is none; no two keys share one |
| TokenBucket.TokenBucketStore.TakeHeld | internal/ratelimit/token_bucket.go:60-97 | the locked section on the key's object changes no other key's bucket |
| TokenBucket.TokenBucketStore.Delete | internal/ratelimit/token_bucket.go:123 | removes the key and whatever object it has |
| TokenBucket.TokenBucketStore.Allow | internal/ratelimit/token_bucket.go:50-97 | without interference, loads or creates the bucket, refills, decides and stores it back |
| TokenBucket.TokenBucketStore.RunCleanup | internal/ratelimit/token_bucket.go:116-127 | without interference, removes exactly the stale buckets |
| TokenBucketHistory.StateIsLeastBudget | internal/ratelimit/token_bucket.go:63-77 | the uncapped token count is the minimum over all past moments of burst + rate * elapsed - admissions since |
| TokenBucketHistory.AdmitsIffConforms | internal/ratelimit/token_bucket.go:66-76 | a request is admitted iff it keeps every window ending at it within burst + rate * elapsed |
| TokenBucketHistory.BucketMeetsSpecification | internal/ratelimit/token_bucket.go:51-84 | the bucket's decisions equal those of the history specification, for timestamps in any order |
| TokenBucketHistory.RateSafety | internal/ratelimit/token_bucket.go:51-77 | from any moment to an admission no more than burst + rate * elapsed requests are admitted |
| TokenBucketRuns.SweepsAreCleanup | internal/ratelimit/token_bucket.go:116-127 | sweeping keys one by one in any order leaves what one cleanup pass leaves |
| TokenBucketRuns.NonInterference | internal/ratelimit/token_bucket.go:53-58 | a key's decisions in any run are those of the run restricted to that key |
| TokenBucketRuns.RetrySecondsTight | internal/middleware/ratelimit.go:29 | the header is the least whole number of seconds above the exact wait |
| TokenBucketRuns.WaitSuffices | internal/ratelimit/token_bucket.go:63-84 | a rejected client whose deficit has been refilled is admitted, over every run without an admission of its key |
| TokenBucketRuns.RetryAfterSuffices | internal/ratelimit/token_bucket.go:86-96 | a rejected client returning after the advertised seconds is admitted if none of its requests was admitted meanwhile |
| TokenBucketBursts.RemainingIsExact | internal/ratelimit/token_bucket.go:73-94 | request n of a burst at the same moment is admitted iff n is at most the remaining count, for every n and also when the count is negative |
| TokenBucketHeaders.LimitAndReset | internal/ratelimit/token_bucket.go:74-95 | every decision's limit is the burst, and its resetAt lies 1 / rate after the request, early by less than a nanosecond |
| TokenBucketHeaders.RemainingTokens | internal/ratelimit/token_bucket.go:73-96 | remaining is the number of whole tokens the request leaves, and only a rejection has a retryAfter |
| TokenBucketHeaders.RetryAfterExact | internal/ratelimit/token_bucket.go:86-96 | left alone, a bucket admits nothing before the retryAfter of its rejection has passed, and admits one nanosecond later |
| TokenBucketHeaders.FoundStaleIff | internal/ratelimit/token_bucket.go:109-121 | in every interleaving a visit finds a bucket stale iff its last locked section, or else its creation, is more than 300 seconds before the visit |
| TokenBucketEviction.UnobservableIff | internal/ratelimit/token_bucket.go:100-127 | with undivided calls and visits and timestamps out of order by at most lag, cleanups never change a decision iff max(burst, 0) <= (300 - 2 * lag) * rate |
| TokenBucketEviction.OrderedUnobservableIff | internal/ratelimit/token_bucket.go:109 | with ordered timestamps that is burst <= 300 * rate |
| TokenBucketEviction.ObservableWithoutBound | internal/ratelimit/token_bucket.go:51-60 | with unbounded reordering some run notices a cleanup, for every configuration |
| TokenBucketClients.StoreMeetsSpecification | internal/ratelimit/token_bucket.go:50-84 | in every run of undivided calls without cleanups a key's bucket is that of the key's own history, and its decisions are those of the history specification |
| TokenBucketClients.CreationIrrelevantIff | internal/ratelimit/token_bucket.go:53-71 | a bucket created by another call than its first grants the same in all histories iff it was not created later, or burst < 1 |
| TokenBucketClients.AlwaysMeetsSpecificationIff | internal/ratelimit/token_bucket.go:50-127 | with undivided calls and visits, cleanups and lag, every key's decisions are those of the history specification in all runs iff burst < 1 or burst <= (300 - 2 * lag) * rate |
| TokenBucketDurations.RetryFitsIff | internal/ratelimit/token_bucket.go:86-88 | a RetryAfter is in the int64 range iff deficit * 10^9 < 2^63 * rate |
| TokenBucketDurations.AlwaysFitsIff | internal/ratelimit/token_bucket.go:86-96 | in all runs with at most lag every RetryAfter is in the int64 range iff the largest deficit, 1 - min(burst, 0) + lag * rate, meets that condition |
| TokenBucketRaces.ObjectsMeetSpecification | internal/ratelimit/token_bucket.go:53-84 | in every interleaving of LoadOrStore, locked section, staleness check and Delete each bucket object decides as the specification of its own history |
| TokenBucketRaces.KeyObjects | internal/ratelimit/token_bucket.go:53-123 | in every interleaving a key has at most one bucket object more than it had Deletes |
| TokenBucketRaces.UndeletedMeetsSpecification | internal/ratelimit/token_bucket.go:50-97 | in every interleaving without a Delete of the key its calls are granted in lock order what the specification grants for a bucket created at the timestamp of its first LoadOrStore |
| TokenBucketRaceBounds.RacySafety | internal/ratelimit/token_bucket.go:50-127 | in every interleaving with LoadOrStore timestamps in a window and out of order by at most lag, a key is granted at most (Deletes + 1) * burst + (length + Deletes * lag) * rate requests, and none if burst < 1 |
| TokenBucketRaceBounds.RacySafetyAnyOrder | internal/ratelimit/token_bucket.go:50-127 | the same with lag = length, for timestamps in any order |
| TokenBucketLinear.SerialRun | internal/ratelimit/token_bucket.go:50-127 | every run of undivided calls and visits is one of the interleavings, with the same decisions and buckets |
| TokenBucketLinear.UndisturbedIsAtomic | internal/ratelimit/token_bucket.go:50-127 | an interleaving in which every deleted bucket is still stale and held by no call, and no bucket is created later than its first call, makes the decisions of the undivided run of its locked sections and Deletes |
| TokenBucketLinear.UndisturbedMeetsSpecification | internal/ratelimit/token_bucket.go:50-127 | such an interleaving, with lag and a bucket that fills in time, grants every key what the history specification grants |
| TokenBucketRaceGaps.LateDeleteGrants | internal/ratelimit/token_bucket.go:119-124 | for every burst >= 1 a run with ordered timestamps and undivided calls in which a used bucket is deleted and two bursts are granted at one moment |
| TokenBucketRaceGaps.HeldCallGrants | internal/ratelimit/token_bucket.go:53-60 | for every burst >= 1 a run with ordered timestamps and undivided cleanup visits in which a call holds a deleted bucket and burst + 1 requests are granted at one moment |
| TokenBucketRaceGaps.LateCreatorRefuses | internal/ratelimit/token_bucket.go:53-71 | for every burst >= 1 a run without cleanups in which a first request is refused because a later timestamp created the bucket |
| TokenBucketRaceGaps.AlwaysAsSpecifiedIff | internal/ratelimit/token_bucket.go:50-127 | for each of the three gaps: in all interleavings with no other irregularity every key is granted in lock order what the history specification grants iff burst < 1 |
| TokenBucketRaceGaps.UndeletedAsSpecified | internal/ratelimit/token_bucket.go:53-84 | without a Delete of the key, and with a creation not later than the first locked call, it is |

## Left out

- HTTP proxying, transport, server lifecycle, router wiring, the fsnotify watcher and YAML parsing: I/O around code that is not part of this model.
- Logging, metrics, CORS, request IDs, recovery, configuration defaults and validation: single branches without a hard property.
- The `Targets` and `Stats` snapshots, `State.String`, LastChecked, LastError, lastFailure and lastSuccess: written for monitoring and never read by the modelled logic.
- Floating-point rounding in the bucket: reals are used, with the explicit truncations kept.
- TokenBucket.TokenBucketStore.Allow: both sections in a row, without interference; `LoadOrStore` and `BucketCell.Take` are the sections, and `TokenBucketRaces` interleaves them.
- TokenBucket.TokenBucketStore.RunCleanup: one pass without interference; `TokenBucketRaces` interleaves its checks and Deletes.
- TokenBucketEviction.UnobservableIff: calls and cleanup visits are undivided; with either gap open the statement fails for every burst >= 1, by `HeldCallGrants` and `LateDeleteGrants`.
- TokenBucketEviction.OrderedUnobservableIff: the same.
- TokenBucketClients.StoreMeetsSpecification: calls are undivided; `UndeletedMeetsSpecification` and `UndeletedAsSpecified` are the statements for interleaved calls.
- TokenBucketClients.AlwaysMeetsSpecificationIff: calls and cleanup visits are undivided; `UndisturbedMeetsSpecification` and `AlwaysAsSpecifiedIff` are the statements for interleaved ones.
- TokenBucketRuns.RetrySecondsTight: durations are integers without the int64 bound, which `AlwaysFitsIff` characterises; outside it Go leaves the conversion to the implementation.
- TokenBucketRuns.RetryAfterSuffices: the same holds for the duration it converts.
- Panicking functions inside `Execute`: neither outcome section runs then, so such a request stays in flight in the model.
- BreakerRuns.Accounting: 64-bit overflow of the breaker's counters is not modelled.
- HealthRouting.FailsWhenDownIffDistinct: for the plain balancer it speaks of tickets whose scan the counter wrap does not cut short, which is the exact condition of `FindsHealthyIffClean`; `FailsIff` covers every ticket.
