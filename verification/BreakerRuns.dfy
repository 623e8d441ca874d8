/**
 The breaker under concurrency: a transition system over the critical sections of `Execute` and
 `Reset`, interleaved in any order. The clock never runs backwards because it is read under the lock.
 */
module BreakerRuns {
  import opened Breaker
  import opened Streaks

  /** A request is pending between admission and counting, and running until its function returns. */
  datatype System = System(breaker: State, clock: int, pending: set<nat>, running: set<nat>, nextId: nat)

  datatype Event =
    | Arrive(now: int, later: int)
    | CountIn(id: nat)
    | Return(id: nat, failed: bool, now: int, later: int)
    | ResetCall(now: int)

  /** What an observer of the events knows, without looking at the breaker's counters. */
  datatype Observer = Observer(
    admitted: nat,        // requests let through
    succeeded: nat,       // functions that returned without an error
    failed: nat,          // functions that returned an error
    log: seq<int>,        // failure times since the last half-open success or Reset
    trial: set<nat>)      // requests admitted in the current or latest half-open episode

  datatype World = World(sys: System, seen: Observer)

  function NewWorld(now: int): (w: World) {
    World(System(Initial(now), now, {}, {}, 0), Observer(0, 0, 0, [], {}))
  }

  predicate Enabled(sys: System, e: Event) {
    match e
    case Arrive(now, later) => sys.clock <= now <= later
    case CountIn(id) => id in sys.pending
    case Return(id, _, now, later) => id in sys.running && sys.clock <= now <= later
    case ResetCall(now) => sys.clock <= now
  }

  function SystemStep(cfg: Config, sys: System, e: Event): System {
    match e
    case Arrive(now, later) =>
      var (b, ok) := Admit(cfg, sys.breaker, now, later);
      if ok then sys.(breaker := b, clock := later, pending := sys.pending + {sys.nextId}, nextId := sys.nextId + 1)
      else sys.(breaker := b, clock := later)
    case CountIn(id) =>
      sys.(breaker := Count(sys.breaker), pending := sys.pending - {id}, running := sys.running + {id})
    case Return(id, failed, now, later) =>
      sys.(breaker := if failed then Fail(cfg, sys.breaker, now, later) else Succeed(sys.breaker, later),
           clock := later, running := sys.running - {id})
    case ResetCall(now) =>
      sys.(breaker := Reset(sys.breaker, now), clock := now)
  }

  function Watch(o: Observer, before: System, e: Event, after: System): Observer {
    match e
    case Arrive(_, _) =>
      if after.nextId == before.nextId then o
      else o.(admitted := o.admitted + 1,
              trial := match before.breaker.phase
                       case Closed => o.trial
                       case Open => {before.nextId}
                       case HalfOpen => o.trial + {before.nextId})
    case CountIn(_) => o
    case Return(_, failed, now, _) =>
      if failed then o.(failed := o.failed + 1, log := o.log + [now])
      else o.(succeeded := o.succeeded + 1,
              log := if before.breaker.phase == HalfOpen then [] else o.log)
    case ResetCall(_) => o.(log := [])
  }

  function Step(cfg: Config, w: World, e: Event): World {
    var sys := SystemStep(cfg, w.sys, e);
    World(sys, Watch(w.seen, w.sys, e, sys))
  }

  function Exec(cfg: Config, w: World, events: seq<Event>): World {
    if events == [] then w
    else Step(cfg, Exec(cfg, w, events[..|events| - 1]), events[|events| - 1])
  }

  ghost predicate IsRun(cfg: Config, w: World, events: seq<Event>) {
    events != [] ==>
      && IsRun(cfg, w, events[..|events| - 1])
      && Enabled(Exec(cfg, w, events[..|events| - 1]).sys, events[|events| - 1])
  }

  // ---- Accounting ----

  ghost predicate Tracked(sys: System) {
    && sys.pending !! sys.running
    && (forall id :: id in sys.pending || id in sys.running ==> id < sys.nextId)
  }

  ghost predicate Counted(w: World) {
    var b := w.sys.breaker;
    && w.seen.admitted == b.totalRequests + |w.sys.pending|
    && b.totalRequests == w.seen.succeeded + w.seen.failed + |w.sys.running|
    && b.totalFailures == w.seen.failed
  }

  ghost predicate Accounted(w: World) {
    Tracked(w.sys) && Counted(w)
  }

  lemma {:induction false} StepTracks(cfg: Config, sys: System, e: Event)
    requires Tracked(sys) && Enabled(sys, e)
    ensures Tracked(SystemStep(cfg, sys, e))
  {
  }

  /** How one event changes the number of pending and of running requests. */
  lemma {:induction false} InFlightSizes(cfg: Config, sys: System, e: Event)
    requires Tracked(sys) && Enabled(sys, e)
    ensures var sys' := SystemStep(cfg, sys, e);
            && |sys'.pending| == |sys.pending| + sys'.nextId - sys.nextId - (if e.CountIn? then 1 else 0)
            && |sys'.running| == |sys.running| + (if e.CountIn? then 1 else 0) - (if e.Return? then 1 else 0)
  {
    match e
    case Arrive(now, later) =>
      assert sys.nextId !in sys.pending;
    case CountIn(id) =>
      assert id !in sys.running;
    case Return(id, failed, now, later) =>
    case ResetCall(now) =>
  }

  /** The breaker's counters see what the observer sees. */
  lemma {:induction false} CountersFollow(cfg: Config, w: World, e: Event)
    ensures var b, b', o, o' := w.sys.breaker, SystemStep(cfg, w.sys, e).breaker, w.seen, Step(cfg, w, e).seen;
            && b'.totalRequests == b.totalRequests + (if e.CountIn? then 1 else 0)
            && b'.totalFailures - b.totalFailures == o'.failed - o.failed
            && o'.succeeded + o'.failed == o.succeeded + o.failed + (if e.Return? then 1 else 0)
            && o'.admitted == o.admitted + SystemStep(cfg, w.sys, e).nextId - w.sys.nextId
  {
  }

  lemma {:induction false} StepCounts(cfg: Config, w: World, e: Event)
    requires Tracked(w.sys) && Counted(w) && Enabled(w.sys, e)
    ensures Counted(World(SystemStep(cfg, w.sys, e), Step(cfg, w, e).seen))
  {
    InFlightSizes(cfg, w.sys, e);
    CountersFollow(cfg, w, e);
  }

  lemma {:induction false} StepAccounts(cfg: Config, w: World, e: Event)
    requires Accounted(w) && Enabled(w.sys, e)
    ensures Accounted(Step(cfg, w, e))
  {
    StepTracks(cfg, w.sys, e);
    StepCounts(cfg, w, e);
  }

  /** Every admitted request is pending, running, succeeded or failed, and the counters say so. */
  lemma {:induction false} Accounting(cfg: Config, start: int, events: seq<Event>)
    requires IsRun(cfg, NewWorld(start), events)
    ensures Accounted(Exec(cfg, NewWorld(start), events))
  {
    if events != [] {
      var before := events[..|events| - 1];
      Accounting(cfg, start, before);
      StepAccounts(cfg, Exec(cfg, NewWorld(start), before), events[|events| - 1]);
    }
  }

  /** The outcomes of the requests that returned, in order; a Reset counts like a success. */
  function Outcomes(events: seq<Event>): seq<bool> {
    if events == [] then []
    else
      var before := Outcomes(events[..|events| - 1]);
      match events[|events| - 1]
      case Return(_, failed, _, _) => before + [!failed]
      case ResetCall(_) => before + [true]
      case Arrive(_, _) => before
      case CountIn(_) => before
  }

  lemma {:induction false} StreakStep(cfg: Config, sys: System, e: Event)
    ensures SystemStep(cfg, sys, e).breaker.consecutiveFails
         == match e
            case Return(_, failed, _, _) => if failed then sys.breaker.consecutiveFails + 1 else 0
            case ResetCall(_) => 0
            case _ => sys.breaker.consecutiveFails
  {
  }

  lemma {:induction false} ConsecutiveFailsTrail(cfg: Config, start: int, events: seq<Event>)
    ensures Exec(cfg, NewWorld(start), events).sys.breaker.consecutiveFails == Trailing(Outcomes(events))
  {
    if events != [] {
      var before, e := events[..|events| - 1], events[|events| - 1];
      ConsecutiveFailsTrail(cfg, start, before);
      StreakStep(cfg, Exec(cfg, NewWorld(start), before).sys, e);
      if e.Return? || e.ResetCall? {
        TrailingAppend(Outcomes(before), e.ResetCall? || !e.failed);
      }
    }
  }

  /** The streak is at least m exactly when the last m outcomes failed, with no Reset among them. */
  lemma {:induction false} StreakFollowsOutcomes(cfg: Config, start: int, events: seq<Event>, m: nat)
    ensures Exec(cfg, NewWorld(start), events).sys.breaker.consecutiveFails >= m
       <==> LastFailed(Outcomes(events), m)
  {
    ConsecutiveFailsTrail(cfg, start, events);
    TrailingMeaning(Outcomes(events), m);
  }

  // ---- The sliding window ----

  /** The failures of the log inside the window that ends at the latest one. */
  function Recent(log: seq<int>, window: int): seq<int> {
    if log == [] then [] else After(log, log[|log| - 1] - window)
  }

  /** Pruning twice with rising cutoffs is pruning once. */
  lemma {:induction false} AfterAfter(times: seq<int>, early: int, late: int)
    requires early <= late
    ensures After(After(times, early), late) == After(times, late)
  {
    if times != [] {
      var before, last := times[..|times| - 1], times[|times| - 1];
      AfterAfter(before, early, late);
      if last > early {
        var kept := After(before, early);
        assert (kept + [last])[..|kept|] == kept;
      }
    }
  }

  lemma {:induction false} AfterAppend(times: seq<int>, t: int, cutoff: int)
    ensures After(times + [t], cutoff) == After(times, cutoff) + if t > cutoff then [t] else []
  {
    assert (times + [t])[..|times|] == times;
  }

  ghost predicate LoggedBy(log: seq<int>, clock: int) {
    log != [] ==> log[|log| - 1] <= clock
  }

  ghost predicate Windowed(cfg: Config, w: World) {
    && LoggedBy(w.seen.log, w.sys.clock)
    && w.sys.breaker.failures == Recent(w.seen.log, cfg.failureWindow)
    && (w.sys.breaker.phase == Closed && cfg.failureThreshold >= 1 ==>
          |w.sys.breaker.failures| < cfg.failureThreshold)
  }

  lemma {:induction false} SlideAfter(log: seq<int>, early: int, late: int, now: int)
    requires early <= late
    ensures After(After(log, early) + [now], late) == After(log + [now], late)
  {
    AfterAppend(After(log, early), now, late);
    AfterAppend(log, now, late);
    AfterAfter(log, early, late);
  }

  lemma {:induction false} RecentAppend(log: seq<int>, now: int, window: int)
    ensures Recent(log + [now], window) == After(log + [now], now - window)
  {
    assert (log + [now])[|log + [now]| - 1] == now;
  }

  /** Sliding an already pruned list gives what filtering the whole log gives. */
  lemma {:induction false} SlideIsRecent(log: seq<int>, now: int, window: int)
    requires LoggedBy(log, now)
    ensures After(Recent(log, window) + [now], now - window) == Recent(log + [now], window)
  {
    RecentAppend(log, now, window);
    if log == [] {
      assert Recent(log, window) + [now] == log + [now];
    } else {
      SlideAfter(log, log[|log| - 1] - window, now - window, now);
    }
  }

  lemma {:induction false} FailureWindows(cfg: Config, w: World, e: Event)
    requires Windowed(cfg, w) && Enabled(w.sys, e) && e.Return? && e.failed
    ensures Windowed(cfg, Step(cfg, w, e))
  {
    var b, log := w.sys.breaker, w.seen.log + [e.now];
    SlideIsRecent(w.seen.log, e.now, cfg.failureWindow);
    assert Noted(cfg, b, e.now).failures == Recent(log, cfg.failureWindow);
    assert Step(cfg, w, e).seen.log == log;
    assert LoggedBy(log, e.later);
  }

  lemma {:induction false} StepWindows(cfg: Config, w: World, e: Event)
    requires Windowed(cfg, w) && Enabled(w.sys, e)
    ensures Windowed(cfg, Step(cfg, w, e))
  {
    match e
    case Arrive(_, _) =>
    case CountIn(_) =>
    case Return(_, failed, _, _) =>
      if failed {
        FailureWindows(cfg, w, e);
      }
    case ResetCall(_) =>
  }

  lemma {:induction false} RunWindows(cfg: Config, start: int, events: seq<Event>)
    requires IsRun(cfg, NewWorld(start), events)
    ensures Windowed(cfg, Exec(cfg, NewWorld(start), events))
  {
    if events != [] {
      var before := events[..|events| - 1];
      RunWindows(cfg, start, before);
      StepWindows(cfg, Exec(cfg, NewWorld(start), before), events[|events| - 1]);
    }
  }

  /**
   In every run, a failure at `now` leaves exactly the logged failures after now - window, and it
   opens a closed breaker if and only if there are at least failureThreshold of them.
   */
  lemma {:induction false} TripsIffFull(cfg: Config, start: int, events: seq<Event>, e: Event)
    requires IsRun(cfg, NewWorld(start), events + [e]) && e.Return? && e.failed
    ensures var w := Exec(cfg, NewWorld(start), events);
            var after, recent := Step(cfg, w, e).sys.breaker, After(w.seen.log + [e.now], e.now - cfg.failureWindow);
            && after.failures == recent
            && (w.sys.breaker.phase == Closed ==>
                  after.phase == if |recent| >= cfg.failureThreshold then Open else Closed)
  {
    assert (events + [e])[..|events|] == events;
    RunWindows(cfg, start, events);
    SlideIsRecent(Exec(cfg, NewWorld(start), events).seen.log, e.now, cfg.failureWindow);
  }

  // ---- Half-open episodes ----

  /** One request opens the episode without being counted; the others are. */
  function Slots(cfg: Config): (n: nat) {
    if cfg.halfOpenMaxReqs < 0 then 1 else cfg.halfOpenMaxReqs + 1
  }

  ghost predicate TrialsInFlight(cfg: Config, w: World) {
    var b := w.sys.breaker;
    && (forall id :: id in w.sys.pending || id in w.sys.running || id in w.seen.trial ==> id < w.sys.nextId)
    && |w.seen.trial| <= Slots(cfg)
    && (b.phase == HalfOpen ==>
          && b.halfOpenReqs >= 0
          && |w.seen.trial| == b.halfOpenReqs + 1
          && w.seen.trial <= w.sys.pending + w.sys.running)
  }

  lemma {:induction false} StepKeepsTrials(cfg: Config, w: World, e: Event)
    requires TrialsInFlight(cfg, w) && Enabled(w.sys, e)
    ensures TrialsInFlight(cfg, Step(cfg, w, e))
  {
    match e
    case Arrive(now, later) =>
      if w.sys.breaker.phase == HalfOpen {
        assert w.sys.nextId !in w.seen.trial;
        assert |w.seen.trial + {w.sys.nextId}| == |w.seen.trial| + 1;
      }
    case CountIn(id) =>
      assert w.sys.pending + w.sys.running == (w.sys.pending - {id}) + (w.sys.running + {id});
    case Return(_, _, _, _) =>
    case ResetCall(_) =>
  }

  /**
   In every reachable half-open state exactly halfOpenReqs + 1 requests were admitted in the
   episode and all are still in flight; no episode admits more than max(HalfOpenMaxReqs, 0) + 1.
   */
  lemma {:induction false} HalfOpenTrials(cfg: Config, start: int, events: seq<Event>)
    requires IsRun(cfg, NewWorld(start), events)
    ensures TrialsInFlight(cfg, Exec(cfg, NewWorld(start), events))
  {
    if events != [] {
      var before := events[..|events| - 1];
      HalfOpenTrials(cfg, start, before);
      StepKeepsTrials(cfg, Exec(cfg, NewWorld(start), before), events[|events| - 1]);
    }
  }

  /**
   In every reachable state a request is turned away exactly when the breaker has been open for no
   more than the reset timeout, or its half-open episode has used all its slots.
   */
  lemma {:induction false} RejectedIff(cfg: Config, start: int, events: seq<Event>, now: int, later: int)
    requires IsRun(cfg, NewWorld(start), events)
    ensures var w := Exec(cfg, NewWorld(start), events);
            var b := w.sys.breaker;
            !Admit(cfg, b, now, later).1
            <==> || (b.phase == Open && now - b.lastStateChange <= cfg.resetTimeout)
                 || (b.phase == HalfOpen && |w.seen.trial| == Slots(cfg))
  {
    HalfOpenTrials(cfg, start, events);
  }

  ghost predicate StaysHalfOpen(cfg: Config, w: World, events: seq<Event>) {
    && w.sys.breaker.phase == HalfOpen
    && (events != [] ==>
          && StaysHalfOpen(cfg, w, events[..|events| - 1])
          && Exec(cfg, w, events).sys.breaker.phase == HalfOpen)
  }

  /** Half-open lasts exactly as long as no request returns and no Reset comes. */
  lemma {:induction false} HalfOpenLasts(cfg: Config, w: World, events: seq<Event>)
    requires w.sys.breaker.phase == HalfOpen
    ensures StaysHalfOpen(cfg, w, events)
       <==> forall i :: 0 <= i < |events| ==> !events[i].Return? && !events[i].ResetCall?
  {
    if events != [] {
      var before, e := events[..|events| - 1], events[|events| - 1];
      HalfOpenLasts(cfg, w, before);
      assert forall i :: 0 <= i < |before| ==> before[i] == events[i];
      if StaysHalfOpen(cfg, w, before) && !e.Return? && !e.ResetCall? {
        StaysAtEnd(cfg, w, before);
      }
      if StaysHalfOpen(cfg, w, events) {
        StaysAtEnd(cfg, w, before);
        assert !e.Return? && !e.ResetCall?;
      }
    }
  }

  /**
   Half-open is never stuck: in every reachable half-open state some trial request is in flight,
   and its remaining steps are enabled and lead out of half-open, whatever its outcome.
   */
  lemma {:induction false} HalfOpenCanEnd(cfg: Config, start: int, events: seq<Event>, failed: bool)
    returns (id: nat, more: seq<Event>)
    requires IsRun(cfg, NewWorld(start), events)
    requires Exec(cfg, NewWorld(start), events).sys.breaker.phase == HalfOpen
    ensures id in Exec(cfg, NewWorld(start), events).seen.trial
    ensures forall e :: e in more ==> e.CountIn? || (e.Return? && e.failed == failed)
    ensures forall e :: e in more ==> e.id == id
    ensures IsRun(cfg, NewWorld(start), events + more)
    ensures Exec(cfg, NewWorld(start), events + more).sys.breaker.phase == if failed then Open else Closed
  {
    HalfOpenTrials(cfg, start, events);
    var w := Exec(cfg, NewWorld(start), events);
    assert w.seen.trial != {};
    id :| id in w.seen.trial;
    var back := Return(id, failed, w.sys.clock, w.sys.clock);
    if id in w.sys.running {
      more := [back];
      RunAppend(cfg, NewWorld(start), events, back);
    } else {
      RunAppend(cfg, NewWorld(start), events, CountIn(id));
      RunAppend(cfg, NewWorld(start), events + [CountIn(id)], back);
      more := [CountIn(id), back];
      assert events + more == events + [CountIn(id)] + [back];
    }
  }

  lemma {:induction false} RunAppend(cfg: Config, w: World, events: seq<Event>, e: Event)
    requires IsRun(cfg, w, events) && Enabled(Exec(cfg, w, events).sys, e)
    ensures IsRun(cfg, w, events + [e]) && Exec(cfg, w, events + [e]) == Step(cfg, Exec(cfg, w, events), e)
  {
    assert (events + [e])[..|events|] == events;
  }

  /** The first request to return, whenever it was admitted, decides a half-open breaker. */
  lemma {:induction false} FirstReturnDecides(cfg: Config, w: World, events: seq<Event>, e: Event)
    requires w.sys.breaker.phase == HalfOpen && e.Return?
    requires forall i :: 0 <= i < |events| ==> !events[i].Return? && !events[i].ResetCall?
    ensures var b := Exec(cfg, w, events + [e]).sys.breaker;
            && b.phase == (if e.failed then Open else Closed)
            && b.lastStateChange == e.later
            && (!e.failed ==> b.failures == [])
  {
    HalfOpenLasts(cfg, w, events);
    StaysAtEnd(cfg, w, events);
    assert (events + [e])[..|events|] == events;
  }

  lemma {:induction false} StaysAtEnd(cfg: Config, w: World, events: seq<Event>)
    requires StaysHalfOpen(cfg, w, events)
    ensures Exec(cfg, w, events).sys.breaker.phase == HalfOpen
  {
  }

  // ---- Which configurations can open ----

  lemma {:induction false} RunConcat(cfg: Config, w: World, a: seq<Event>, b: seq<Event>)
    requires IsRun(cfg, w, a) && IsRun(cfg, Exec(cfg, w, a), b)
    ensures IsRun(cfg, w, a + b) && Exec(cfg, w, a + b) == Exec(cfg, Exec(cfg, w, a), b)
    decreases |b|
  {
    if b == [] {
      assert a + b == a;
    } else {
      var b', e := b[..|b| - 1], b[|b| - 1];
      RunConcat(cfg, w, a, b');
      RunAppend(cfg, w, a + b', e);
      assert a + b == a + b' + [e];
    }
  }

  /** A failure fits into the window it is noted in, or no failure is needed. */
  predicate CanTrip(cfg: Config) {
    cfg.failureThreshold <= 0 || cfg.failureWindow >= 1
  }

  ghost predicate NeverNoted(w: World) {
    w.sys.breaker.phase == Closed && w.sys.breaker.failures == []
  }

  /** A window that no failure fits into stays empty, and the breaker closed. */
  lemma {:induction false} StepStaysClosed(cfg: Config, w: World, e: Event)
    requires !CanTrip(cfg) && NeverNoted(w)
    ensures NeverNoted(Step(cfg, w, e))
  {
    if e.Return? && e.failed {
      AfterAppend([], e.now, e.now - cfg.failureWindow);
      assert [] + [e.now] == [e.now];
    }
  }

  lemma {:induction false} RunStaysClosed(cfg: Config, start: int, events: seq<Event>)
    requires !CanTrip(cfg)
    ensures NeverNoted(Exec(cfg, NewWorld(start), events))
  {
    if events != [] {
      var before := events[..|events| - 1];
      RunStaysClosed(cfg, start, before);
      StepStaysClosed(cfg, Exec(cfg, NewWorld(start), before), events[|events| - 1]);
    }
  }

  /** One call that is let through and fails, all at time t. */
  function FailedCall(id: nat, t: int): (events: seq<Event>) {
    [Arrive(t, t), CountIn(id), Return(id, true, t, t)]
  }

  /** A closed breaker at time t that has seen k failures, all at t. */
  ghost predicate Counting(w: World, t: int, k: nat) {
    var b := w.sys.breaker;
    b.phase == Closed && w.sys.clock == t && b.lastStateChange == t && b.failures == seq(k, _ => t)
  }

  lemma {:induction false} AllRecent(t: int, k: nat, cutoff: int)
    requires cutoff < t
    ensures After(seq(k, _ => t), cutoff) == seq(k, _ => t)
  {
    if k != 0 {
      assert seq(k, _ => t)[..k - 1] == seq(k - 1, _ => t);
      AllRecent(t, k - 1, cutoff);
    }
  }

  lemma {:induction false} FailedCallRuns(cfg: Config, w: World, t: int)
    requires w.sys.breaker.phase == Closed && w.sys.clock == t
    ensures var events := FailedCall(w.sys.nextId, t);
            && IsRun(cfg, w, events)
            && Exec(cfg, w, events).sys.clock == t
            && Exec(cfg, w, events).sys.breaker == Fail(cfg, Count(w.sys.breaker), t, t)
  {
    var id := w.sys.nextId;
    RunAppend(cfg, w, [], Arrive(t, t));
    RunAppend(cfg, w, [Arrive(t, t)], CountIn(id));
    RunAppend(cfg, w, [Arrive(t, t), CountIn(id)], Return(id, true, t, t));
    assert [] + [Arrive(t, t)] == [Arrive(t, t)];
    assert [Arrive(t, t)] + [CountIn(id)] == [Arrive(t, t), CountIn(id)];
    assert [Arrive(t, t), CountIn(id)] + [Return(id, true, t, t)] == FailedCall(id, t);
  }

  /** One more failure at t is kept in the window, and opens the breaker once there are enough. */
  lemma {:induction false} OneMoreFailure(cfg: Config, w: World, t: int, k: nat)
    requires cfg.failureWindow >= 1 && Counting(w, t, k)
    ensures var w' := Exec(cfg, w, FailedCall(w.sys.nextId, t));
            if k + 1 >= cfg.failureThreshold then Opened(w', t) else Counting(w', t, k + 1)
  {
    FailedCallRuns(cfg, w, t);
    assert seq(k, _ => t) + [t] == seq(k + 1, _ => t);
    AllRecent(t, k + 1, t - cfg.failureWindow);
  }

  ghost predicate Opened(w: World, t: int) {
    w.sys.breaker.phase == Open && w.sys.clock == t && w.sys.breaker.lastStateChange == t
  }

  /** From k failures at t, as many more as it takes. */
  lemma {:induction false} FailUntilOpen(cfg: Config, w: World, t: int, k: nat) returns (events: seq<Event>)
    requires cfg.failureWindow >= 1 && Counting(w, t, k)
    ensures IsRun(cfg, w, events) && Opened(Exec(cfg, w, events), t)
    decreases cfg.failureThreshold - k
  {
    events := FailedCall(w.sys.nextId, t);
    FailedCallRuns(cfg, w, t);
    OneMoreFailure(cfg, w, t, k);
    if k + 1 < cfg.failureThreshold {
      var more := FailUntilOpen(cfg, Exec(cfg, w, events), t, k + 1);
      RunConcat(cfg, w, events, more);
      events := events + more;
    }
  }

  /** A configuration that can open does so from a new breaker, at once. */
  lemma {:induction false} Opens(cfg: Config, start: int) returns (events: seq<Event>)
    requires CanTrip(cfg)
    ensures IsRun(cfg, NewWorld(start), events) && Opened(Exec(cfg, NewWorld(start), events), start)
  {
    var w := NewWorld(start);
    if cfg.failureWindow >= 1 {
      assert seq(0, _ => start) == [];
      events := FailUntilOpen(cfg, w, start, 0);
    } else {
      events := FailedCall(0, start);
      FailedCallRuns(cfg, w, start);
    }
  }

  ghost predicate OpenReachable(cfg: Config, start: int) {
    exists events: seq<Event> :: IsRun(cfg, NewWorld(start), events) && IsOpen(cfg, start, events)
  }

  ghost predicate IsOpen(cfg: Config, start: int, events: seq<Event>) {
    Exec(cfg, NewWorld(start), events).sys.breaker.phase == Open
  }

  /**
   A breaker can ever open if and only if failureThreshold is not positive or failureWindow is; a
   window of 0 or less drops every failure it is given, and the breaker never protects anything.
   */
  lemma {:induction false} OpenReachableIff(cfg: Config, start: int)
    ensures OpenReachable(cfg, start) <==> CanTrip(cfg)
  {
    if CanTrip(cfg) {
      var events := Opens(cfg, start);
      assert IsOpen(cfg, start, events);
    } else {
      forall events: seq<Event> ensures !IsOpen(cfg, start, events) {
        RunStaysClosed(cfg, start, events);
      }
    }
  }

  // ---- The bound of an episode is reached ----

  function Arrivals(t: int, m: nat): (events: seq<Event>)
    ensures |events| == m
  {
    seq(m, _ => Arrive(t, t))
  }

  /** Simultaneous arrivals at an open breaker whose reset timeout has passed. */
  lemma {:induction false} EpisodeFills(cfg: Config, w: World, t: int, m: nat)
    requires w.sys.breaker.phase == Open && w.sys.clock <= t && t - w.sys.breaker.lastStateChange > cfg.resetTimeout
    requires 1 <= m <= Slots(cfg)
    ensures IsRun(cfg, w, Arrivals(t, m))
    ensures Exec(cfg, w, Arrivals(t, m)).seen.admitted == w.seen.admitted + m
    ensures var sys := Exec(cfg, w, Arrivals(t, m)).sys;
            sys.breaker.phase == HalfOpen && sys.breaker.halfOpenReqs == m - 1 && sys.clock == t
  {
    assert Arrivals(t, m)[..m - 1] == Arrivals(t, m - 1);
    if m == 1 {
      assert Arrivals(t, 0) == [];
    } else {
      EpisodeFills(cfg, w, t, m - 1);
    }
  }

  /**
   Every configuration that can open has a run of a new breaker in which a half-open episode admits
   max(HalfOpenMaxReqs, 0) + 1 requests, one more than the configured maximum when that is positive.
   */
  lemma {:induction false} EpisodeBoundReached(cfg: Config, start: int) returns (events: seq<Event>)
    requires CanTrip(cfg)
    ensures IsRun(cfg, NewWorld(start), events)
    ensures var w := Exec(cfg, NewWorld(start), events);
            w.sys.breaker.phase == HalfOpen && |w.seen.trial| == Slots(cfg)
  {
    events := Opens(cfg, start);
    var open := Exec(cfg, NewWorld(start), events);
    var t := if cfg.resetTimeout < 0 then start else start + cfg.resetTimeout + 1;
    EpisodeFills(cfg, open, t, Slots(cfg));
    RunConcat(cfg, NewWorld(start), events, Arrivals(t, Slots(cfg)));
    events := events + Arrivals(t, Slots(cfg));
    HalfOpenTrials(cfg, start, events);
  }
}
