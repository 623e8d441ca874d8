/**
 The breaker against its whole history. The reference keeps every failure since the last clear, and
 no counters; the phase, its starting time and the answer to every request follow from the events.
 */
module BreakerTimeline {
  import opened Breaker
  import opened BreakerRuns
  import opened BreakerShedding

  /**
   Where the events lead: the phase, the time of the event that began it, the requests that arrived
   in the current or latest half-open episode since a Reset, with the one that began it, and all
   failure times since the last clear.
   */
  datatype Stage = Stage(phase: Phase, since: int, arrivals: nat, failed: seq<int>)

  /** The number of times after the cutoff. */
  function CountAfter(times: seq<int>, cutoff: int): nat {
    if times == [] then 0 else CountAfter(times[1..], cutoff) + if times[0] > cutoff then 1 else 0
  }

  function StageAfter(cfg: Config, start: int, events: seq<Event>): Stage {
    if events == [] then Stage(Closed, start, 0, [])
    else
      var st := StageAfter(cfg, start, events[..|events| - 1]);
      match events[|events| - 1]
      case ResetCall(now) => Stage(Closed, now, 0, [])
      case CountIn(_) => st
      case Arrive(now, later) =>
        if st.phase == Open && now - st.since > cfg.resetTimeout then
          st.(phase := HalfOpen, since := later, arrivals := 1)
        else if st.phase == HalfOpen then st.(arrivals := st.arrivals + 1)
        else st
      case Return(_, failed, now, later) =>
        var all := if failed then st.failed + [now] else st.failed;
        if st.phase == HalfOpen then
          if failed then Stage(Open, later, st.arrivals, all) else Stage(Closed, later, st.arrivals, [])
        else if st.phase == Closed && failed && CountAfter(all, now - cfg.failureWindow) >= cfg.failureThreshold then
          Stage(Open, later, st.arrivals, all)
        else
          st.(failed := all)
  }

  // ---- The breaker follows the reference ----

  lemma {:induction false} CountAppend(times: seq<int>, t: int, cutoff: int)
    ensures CountAfter(times + [t], cutoff) == CountAfter(times, cutoff) + if t > cutoff then 1 else 0
    decreases |times|
  {
    if times == [] {
      assert times + [t] == [t];
    } else {
      assert (times + [t])[1..] == times[1..] + [t];
      CountAppend(times[1..], t, cutoff);
    }
  }

  lemma {:induction false} CountIsLength(times: seq<int>, cutoff: int)
    ensures CountAfter(times, cutoff) == |After(times, cutoff)|
    decreases |times|
  {
    if times != [] {
      var before, last := times[..|times| - 1], times[|times| - 1];
      CountIsLength(before, cutoff);
      CountAppend(before, last, cutoff);
      assert times == before + [last];
    }
  }

  /** Of the arrivals of an episode, the first is not counted and those beyond the slots are rejected. */
  function SlotsUsed(cfg: Config, arrivals: nat): int {
    if arrivals == 0 then 0 else (if arrivals <= Slots(cfg) then arrivals else Slots(cfg)) - 1
  }

  /** The world is where the reference says. */
  ghost predicate AtStage(cfg: Config, w: World, st: Stage) {
    var b := w.sys.breaker;
    && b.phase == st.phase && b.lastStateChange == st.since && w.seen.log == st.failed
    && b.halfOpenReqs == SlotsUsed(cfg, st.arrivals) && (b.phase == HalfOpen ==> st.arrivals >= 1)
  }

  lemma {:induction false} ArriveFollows(cfg: Config, w: World, st: Stage, now: int, later: int)
    requires AtStage(cfg, w, st)
    ensures var st' := if st.phase == Open && now - st.since > cfg.resetTimeout
                       then st.(phase := HalfOpen, since := later, arrivals := 1)
                       else if st.phase == HalfOpen then st.(arrivals := st.arrivals + 1) else st;
            AtStage(cfg, Step(cfg, w, Arrive(now, later)), st')
  {
  }

  lemma {:induction false} SuccessFollows(cfg: Config, w: World, st: Stage, id: nat, now: int, later: int)
    requires AtStage(cfg, w, st)
    ensures var st' := if st.phase == HalfOpen then Stage(Closed, later, st.arrivals, []) else st;
            AtStage(cfg, Step(cfg, w, Return(id, false, now, later)), st')
  {
  }

  lemma {:induction false} NotedCount(cfg: Config, w: World, now: int)
    requires Windowed(cfg, w) && w.sys.clock <= now
    ensures |Noted(cfg, w.sys.breaker, now).failures| == CountAfter(w.seen.log + [now], now - cfg.failureWindow)
  {
    SlideIsRecent(w.seen.log, now, cfg.failureWindow);
    RecentAppend(w.seen.log, now, cfg.failureWindow);
    CountIsLength(w.seen.log + [now], now - cfg.failureWindow);
  }

  /** A failure fills the window with what the whole log has after the cutoff. */
  lemma {:induction false} FailureFollows(cfg: Config, w: World, st: Stage, id: nat, now: int, later: int)
    requires AtStage(cfg, w, st) && Windowed(cfg, w) && w.sys.clock <= now
    ensures var all := st.failed + [now];
            var full := CountAfter(all, now - cfg.failureWindow) >= cfg.failureThreshold;
            var st' := if st.phase == HalfOpen || (st.phase == Closed && full) then Stage(Open, later, st.arrivals, all)
                       else st.(failed := all);
            AtStage(cfg, Step(cfg, w, Return(id, true, now, later)), st')
  {
    NotedCount(cfg, w, now);
  }

  lemma {:induction false} StepFollows(cfg: Config, start: int, events: seq<Event>)
    requires events != [] && IsRun(cfg, NewWorld(start), events)
    requires var before := events[..|events| - 1];
             AtStage(cfg, Exec(cfg, NewWorld(start), before), StageAfter(cfg, start, before))
    ensures AtStage(cfg, Exec(cfg, NewWorld(start), events), StageAfter(cfg, start, events))
  {
    var before, e := events[..|events| - 1], events[|events| - 1];
    var w, st := Exec(cfg, NewWorld(start), before), StageAfter(cfg, start, before);
    match e
    case Arrive(now, later) => ArriveFollows(cfg, w, st, now, later);
    case CountIn(_) =>
    case ResetCall(_) =>
    case Return(id, failed, now, later) =>
      RunWindows(cfg, start, before);
      if failed {
        FailureFollows(cfg, w, st, id, now, later);
      } else {
        SuccessFollows(cfg, w, st, id, now, later);
      }
  }

  /**
   In every run the phase, and the time of the last state change, are those of the reference: the
   pruned window, the counters and the state machine lose nothing of the history.
   */
  lemma {:induction false} RunFollowsTimeline(cfg: Config, start: int, events: seq<Event>)
    requires IsRun(cfg, NewWorld(start), events)
    ensures AtStage(cfg, Exec(cfg, NewWorld(start), events), StageAfter(cfg, start, events))
  {
    if events != [] {
      RunFollowsTimeline(cfg, start, events[..|events| - 1]);
      StepFollows(cfg, start, events);
    }
  }

  /**
   In every run a request is turned away exactly when the breaker has been open, since the event
   that opened it, for no more than the reset timeout, or when as many requests as there are slots
   arrived in the half-open episode before it.
   */
  lemma {:induction false} RejectedByTimeline(cfg: Config, start: int, events: seq<Event>, now: int, later: int)
    requires IsRun(cfg, NewWorld(start), events)
    ensures var st := StageAfter(cfg, start, events);
            !Admit(cfg, Exec(cfg, NewWorld(start), events).sys.breaker, now, later).1
            <==> || (st.phase == Open && now - st.since <= cfg.resetTimeout)
                 || (st.phase == HalfOpen && st.arrivals >= Slots(cfg))
  {
    RunFollowsTimeline(cfg, start, events);
  }

  // ---- The time of the last change ----

  function PhaseAfter(cfg: Config, start: int, events: seq<Event>): Phase {
    Exec(cfg, NewWorld(start), events).sys.breaker.phase
  }

  /** The last event is a Reset, or the phase after it is another than before it. */
  predicate ChangesLast(cfg: Config, start: int, events: seq<Event>)
    requires events != []
  {
    events[|events| - 1].ResetCall?
    || PhaseAfter(cfg, start, events) != PhaseAfter(cfg, start, events[..|events| - 1])
  }

  /** When an event takes effect: its last clock reading. */
  function EffectTime(e: Event): int
    requires !e.CountIn?
  {
    if e.ResetCall? then e.now else e.later
  }

  /** The time of the last event that changed the phase or reset it, or of the construction. */
  function LastChange(cfg: Config, start: int, events: seq<Event>): int {
    if events == [] then start
    else if ChangesLast(cfg, start, events) && !events[|events| - 1].CountIn? then EffectTime(events[|events| - 1])
    else LastChange(cfg, start, events[..|events| - 1])
  }

  /** lastStateChange is the time of the last event after which the phase differs, in every run. */
  lemma {:induction false} ChangeTime(cfg: Config, start: int, events: seq<Event>)
    requires IsRun(cfg, NewWorld(start), events)
    ensures Exec(cfg, NewWorld(start), events).sys.breaker.lastStateChange == LastChange(cfg, start, events)
  {
    if events != [] {
      var before := events[..|events| - 1];
      ChangeTime(cfg, start, before);
      RunFollowsTimeline(cfg, start, before);
      RunFollowsTimeline(cfg, start, events);
    }
  }

  // ---- From the event that opens the breaker ----

  /** The run leads to a closed or half-open breaker, and the return e opens it. */
  ghost predicate OpenedBy(cfg: Config, start: int, events: seq<Event>, e: Event) {
    && IsRun(cfg, NewWorld(start), events + [e]) && e.Return?
    && PhaseAfter(cfg, start, events) != Open && PhaseAfter(cfg, start, events + [e]) == Open
  }

  lemma {:induction false} OpenedAt(cfg: Config, start: int, events: seq<Event>, e: Event)
    requires OpenedBy(cfg, start, events, e)
    ensures var b := Exec(cfg, NewWorld(start), events + [e]).sys.breaker;
            b.phase == Open && b.lastStateChange == e.later
  {
    assert (events + [e])[..|events|] == events;
    ChangeTime(cfg, start, events + [e]);
    RunFollowsTimeline(cfg, start, events);
    RunFollowsTimeline(cfg, start, events + [e]);
  }

  lemma {:induction false} RunSplit(cfg: Config, w: World, a: seq<Event>, b: seq<Event>)
    requires IsRun(cfg, w, a + b)
    ensures IsRun(cfg, w, a) && IsRun(cfg, Exec(cfg, w, a), b)
    ensures Exec(cfg, w, a + b) == Exec(cfg, Exec(cfg, w, a), b)
    decreases |b|
  {
    if b == [] {
      assert a + b == a;
    } else {
      assert (a + b)[..|a + b| - 1] == a + b[..|b| - 1];
      RunSplit(cfg, w, a, b[..|b| - 1]);
    }
  }

  /**
   Load shedding from the event that opens the breaker: while every request that returns fails and
   nobody resets, at most max(HalfOpenMaxReqs, 0) + 1 requests are admitted per whole reset timeout
   since that event.
   */
  lemma {:induction false} SheddingFromOpening(cfg: Config, start: int, events: seq<Event>, e: Event, more: seq<Event>)
    requires cfg.resetTimeout > 0 && OpenedBy(cfg, start, events, e)
    requires IsRun(cfg, NewWorld(start), events + [e] + more) && OnlyFailures(more)
    ensures var w, end := Exec(cfg, NewWorld(start), events + [e]), Exec(cfg, NewWorld(start), events + [e] + more);
            end.seen.admitted - w.seen.admitted
            <= Slots(cfg) * ((end.sys.clock - e.later) / cfg.resetTimeout)
  {
    OpenedAt(cfg, start, events, e);
    RunSplit(cfg, NewWorld(start), events + [e], more);
    ChangedInThePast(cfg, start, events + [e]);
    LoadShedding(cfg, Exec(cfg, NewWorld(start), events + [e]), more);
  }

  /** Requests that arrive no later than the timeout after t, and anything but a Reset besides. */
  ghost predicate WithinTimeout(cfg: Config, t: int, events: seq<Event>) {
    forall i :: 0 <= i < |events| ==>
      !events[i].ResetCall? && (events[i].Arrive? ==> events[i].now - t <= cfg.resetTimeout)
  }

  lemma {:induction false} StaysOpen(cfg: Config, w: World, events: seq<Event>)
    requires w.sys.breaker.phase == Open && WithinTimeout(cfg, w.sys.breaker.lastStateChange, events)
    ensures var b := Exec(cfg, w, events).sys.breaker;
            b.phase == Open && b.lastStateChange == w.sys.breaker.lastStateChange
  {
    if events != [] {
      var before := events[..|events| - 1];
      assert forall i :: 0 <= i < |before| ==> before[i] == events[i];
      StaysOpen(cfg, w, before);
    }
  }

  /**
   Recovery: after the event that opens the breaker, however many requests are rejected and whatever
   returns within the timeout, the next request is let through exactly when more than the timeout has
   passed since that event, and it begins a half-open episode.
   */
  lemma {:induction false} Recovers(cfg: Config, start: int, events: seq<Event>, e: Event, between: seq<Event>,
                                    now: int, later: int)
    requires OpenedBy(cfg, start, events, e)
    requires IsRun(cfg, NewWorld(start), events + [e] + between) && WithinTimeout(cfg, e.later, between)
    ensures var (b, ok) := Admit(cfg, Exec(cfg, NewWorld(start), events + [e] + between).sys.breaker, now, later);
            && (ok <==> now - e.later > cfg.resetTimeout)
            && b.phase == if ok then HalfOpen else Open
  {
    OpenedAt(cfg, start, events, e);
    RunSplit(cfg, NewWorld(start), events + [e], between);
    StaysOpen(cfg, Exec(cfg, NewWorld(start), events + [e]), between);
  }
}
