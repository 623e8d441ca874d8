/** How much load an open breaker lets through while the upstream keeps failing. */
module BreakerShedding {
  import opened Arithmetic
  import opened Breaker
  import opened BreakerRuns

  /** Every function that returns fails, and nobody calls Reset. */
  ghost predicate OnlyFailures(events: seq<Event>) {
    forall i :: 0 <= i < |events| ==> !events[i].ResetCall? && (events[i].Return? ==> events[i].failed)
  }

  /**
   After `episodes` half-open episodes, the admissions fill the past episodes and at most the
   current one, and each episode waited for a full reset timeout.
   */
  ghost predicate Shed(cfg: Config, w: World, since: int, base: int, episodes: nat) {
    var b, slots, waited := w.sys.breaker, Slots(cfg), episodes * cfg.resetTimeout;
    match b.phase
    case Closed => false
    case Open =>
      && w.seen.admitted - base <= slots * episodes
      && waited <= b.lastStateChange - since && b.lastStateChange <= w.sys.clock
    case HalfOpen =>
      && 0 <= b.halfOpenReqs < slots
      && w.seen.admitted - base <= slots * episodes - slots + b.halfOpenReqs + 1
      && w.sys.clock - since >= waited && b.lastStateChange <= w.sys.clock
  }

  lemma {:induction false} OneMore(slots: nat, timeout: int, episodes: nat)
    ensures slots * (episodes + 1) == slots * episodes + slots
    ensures (episodes + 1) * timeout == episodes * timeout + timeout
  {
  }

  lemma {:induction false} StepSheds(cfg: Config, w: World, e: Event, since: int, base: int, episodes: nat)
    returns (episodes': nat)
    requires Shed(cfg, w, since, base, episodes) && Enabled(w.sys, e)
    requires !e.ResetCall? && (e.Return? ==> e.failed)
    ensures Shed(cfg, Step(cfg, w, e), since, base, episodes')
  {
    episodes' := episodes;
    if e.Arrive? && w.sys.breaker.phase == Open && e.now - w.sys.breaker.lastStateChange > cfg.resetTimeout {
      episodes' := episodes + 1;
      OneMore(Slots(cfg), cfg.resetTimeout, episodes);
    }
  }

  lemma {:induction false} RunSheds(cfg: Config, w: World, events: seq<Event>) returns (episodes: nat)
    requires w.sys.breaker.phase == Open && w.sys.breaker.lastStateChange <= w.sys.clock
    requires IsRun(cfg, w, events) && OnlyFailures(events)
    ensures Shed(cfg, Exec(cfg, w, events), w.sys.breaker.lastStateChange, w.seen.admitted, episodes)
  {
    if events == [] {
      episodes := 0;
    } else {
      var before := events[..|events| - 1];
      assert forall i :: 0 <= i < |before| ==> before[i] == events[i];
      episodes := RunSheds(cfg, w, before);
      episodes := StepSheds(cfg, Exec(cfg, w, before), events[|events| - 1],
                            w.sys.breaker.lastStateChange, w.seen.admitted, episodes);
    }
  }

  lemma {:induction false} WholeTimeouts(timeout: int, elapsed: int, episodes: nat, slots: nat)
    requires timeout > 0 && episodes * timeout <= elapsed
    ensures slots * episodes <= slots * (elapsed / timeout)
  {
    QuotientCovers(timeout, elapsed, episodes, elapsed / timeout);
    Scale(slots, episodes, elapsed / timeout);
  }

  /** In every reachable state the last state change is in the past. */
  lemma {:induction false} ChangedInThePast(cfg: Config, start: int, events: seq<Event>)
    requires IsRun(cfg, NewWorld(start), events)
    ensures var sys := Exec(cfg, NewWorld(start), events).sys;
            sys.breaker.lastStateChange <= sys.clock
  {
    if events != [] {
      ChangedInThePast(cfg, start, events[..|events| - 1]);
    }
  }

  /**
   Load shedding over all interleavings: from any state in which the breaker is open, while every
   request that returns fails and nobody resets, at most (max(HalfOpenMaxReqs, 0) + 1) requests are
   admitted per whole reset timeout that has passed since it opened.
   */
  lemma {:induction false} LoadShedding(cfg: Config, w: World, events: seq<Event>)
    requires cfg.resetTimeout > 0
    requires w.sys.breaker.phase == Open && w.sys.breaker.lastStateChange <= w.sys.clock
    requires IsRun(cfg, w, events) && OnlyFailures(events)
    ensures var end := Exec(cfg, w, events);
            end.seen.admitted - w.seen.admitted
            <= Slots(cfg) * ((end.sys.clock - w.sys.breaker.lastStateChange) / cfg.resetTimeout)
  {
    var episodes := RunSheds(cfg, w, events);
    var end := Exec(cfg, w, events);
    WholeTimeouts(cfg.resetTimeout, end.sys.clock - w.sys.breaker.lastStateChange, episodes, Slots(cfg));
  }
}
