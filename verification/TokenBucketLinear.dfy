/**
 The atomic store of `TokenBucketRuns` against the interleavings: each of its runs is one of them, and
 an interleaving whose deletes are undisturbed is one of its runs.
 */
module TokenBucketLinear {
  import opened TokenBucket
  import opened TokenBucketHistory
  import opened TokenBucketRuns
  import opened TokenBucketEviction
  import opened TokenBucketClients
  import opened TokenBucketRaces

  // ---- The atomic store is the serial case ----

  /** What the store maps keys to. */
  function View(w: World): (m: Store) {
    map k | k in w.store && w.store[k] < |w.entries| :: w.entries[w.store[k]].bucket
  }

  /** The object that a load of the key returns. */
  function IdOf(w: World, key: string): nat {
    if key in w.store then w.store[key] else |w.entries|
  }

  lemma {:induction false} LoadView(l: Limit, w: World, key: string, now: real)
    requires StoreLinked(w)
    ensures var w' := Loads(l, w, key, now);
            && key in w'.store && w'.store[key] == IdOf(w, key)
            && View(w') == View(w)[key := Loaded(l, View(w), key, now)]
  {
  }

  /** Different keys have different objects, so a locked section touches one key only. */
  lemma {:induction false} TakeView(l: Limit, w: World, key: string, now: real)
    requires StoreLinked(w) && key in w.store
    ensures View(Takes(l, w, Call(w.store[key], now))) == View(w)[key := Spend(l, View(w)[key], now)]
  {
    forall k | k in w.store && k != key ensures w.store[k] != w.store[key] {
      assert w.entries[w.store[k]].key == k;
    }
  }

  /** What the atomic store finds for the requests of a run. */
  function Finds(l: Limit, m: Store, events: seq<Event>): seq<Served>
    decreases |events|
  {
    if events == [] then []
    else
      var e, rest := events[0], Finds(l, Apply(l, m, events[0]), events[1..]);
      if e.Request? then [Served(e.key, Loaded(l, m, e.key, e.now), e.now)] + rest else rest
  }

  function Answers(l: Limit, served: seq<Served>): (ds: seq<Decision>)
    requires l.rate > 0.0
    ensures |ds| == |served|
  {
    seq(|served|, i requires 0 <= i < |served| => Decide(l, served[i].bucket, served[i].now))
  }

  lemma {:induction false} AnswersCons(l: Limit, first: Served, rest: seq<Served>)
    requires l.rate > 0.0
    ensures Answers(l, [first] + rest) == [Decide(l, first.bucket, first.now)] + Answers(l, rest)
  {
  }

  /** The decisions of a run are the answers to what it finds. */
  lemma {:induction false} FindsDecide(l: Limit, m: Store, events: seq<Event>)
    requires l.rate > 0.0
    ensures Decisions(l, m, events) == Answers(l, Finds(l, m, events))
    decreases |events|
  {
    if events != [] {
      var e, m' := events[0], Apply(l, m, events[0]);
      FindsDecide(l, m', events[1..]);
      if e.Request? {
        AnswersCons(l, Served(e.key, Loaded(l, m, e.key, e.now), e.now), Finds(l, m', events[1..]));
      }
    }
  }

  /** The two steps of one `Allow`. */
  function AllowSteps(key: string, id: nat, now: real): seq<Step> {
    [Load(key, now), Take(Call(id, now))]
  }

  /** The steps of one event of the atomic store, without a pause. */
  function Serially(w: World, e: Event): seq<Step> {
    match e
    case Request(key, now) => AllowSteps(key, IdOf(w, key), now)
    case Sweep(key, tick) =>
      if key !in View(w) then []
      else if View(w)[key].lastAccess < tick - MAX_AGE then [Check(w.store[key], tick), Delete(Visit(key, tick))]
      else [Check(w.store[key], tick)]
  }

  lemma {:induction false} AllowRuns(l: Limit, w: World, key: string, now: real)
    ensures var steps := AllowSteps(key, IdOf(w, key), now);
            && IsRun(l, w, steps)
            && Exec(l, w, steps) == Takes(l, Loads(l, w, key, now), Call(IdOf(w, key), now))
  {
    var c := Call(IdOf(w, key), now);
    assert Enabled(Loads(l, w, key, now), Take(c));
    TwoSteps(l, w, Load(key, now), Take(c));
  }

  lemma {:induction false} SerialView(l: Limit, w: World, key: string, now: real)
    requires StoreLinked(w)
    ensures View(Exec(l, w, AllowSteps(key, IdOf(w, key), now))) == Serve(l, View(w), key, now)
  {
    AllowRuns(l, w, key, now);
    LoadView(l, w, key, now);
    ActLinksStore(l, w, Load(key, now));
    TakeView(l, Loads(l, w, key, now), key, now);
  }

  lemma {:induction false} SerialServed(l: Limit, w: World, key: string, now: real)
    requires StoreLinked(w)
    ensures Exec(l, w, AllowSteps(key, IdOf(w, key), now)).served
         == w.served + [Served(key, Loaded(l, View(w), key, now), now)]
  {
    AllowRuns(l, w, key, now);
    assert Loads(l, w, key, now).entries[IdOf(w, key)].bucket == Loaded(l, View(w), key, now);
  }

  lemma {:induction false} SerialSweep(l: Limit, w: World, key: string, tick: real)
    requires StoreLinked(w)
    ensures var steps := Serially(w, Sweep(key, tick));
            && IsRun(l, w, steps)
            && View(Exec(l, w, steps)) == Evict(View(w), key, tick - MAX_AGE)
            && Exec(l, w, steps).served == w.served
  {
    if key in View(w) {
      var id := w.store[key];
      if View(w)[key].lastAccess < tick - MAX_AGE {
        TwoSteps(l, w, Check(id, tick), Delete(Visit(key, tick)));
      } else {
        OneStep(l, w, Check(id, tick));
      }
    }
  }

  /** From one world to the other the buckets change, and calls are served, as by the events. */
  ghost predicate Matches(l: Limit, w: World, w': World, events: seq<Event>) {
    View(w') == StoreAfter(l, View(w), events) && w'.served == w.served + Finds(l, View(w), events)
  }

  ghost predicate Simulates(l: Limit, w: World, steps: seq<Step>, events: seq<Event>) {
    IsRun(l, w, steps) && Matches(l, w, Exec(l, w, steps), events)
  }

  lemma {:induction false} FindsConcat(l: Limit, m: Store, a: seq<Event>, b: seq<Event>)
    ensures Finds(l, m, a + b) == Finds(l, m, a) + Finds(l, StoreAfter(l, m, a), b)
    decreases |a|
  {
    if a == [] {
      assert a + b == b;
    } else {
      assert (a + b)[1..] == a[1..] + b;
      FindsConcat(l, Apply(l, m, a[0]), a[1..], b);
    }
  }

  lemma {:induction false} SerialEvent(l: Limit, w: World, e: Event)
    requires StoreLinked(w)
    ensures Simulates(l, w, Serially(w, e), [e])
  {
    assert [e][1..] == [];
    match e
    case Request(key, now) =>
      AllowRuns(l, w, key, now);
      SerialView(l, w, key, now);
      SerialServed(l, w, key, now);
    case Sweep(key, tick) => SerialSweep(l, w, key, tick);
  }

  lemma {:induction false} MatchesConcat(l: Limit, a: World, b: World, c: World, ea: seq<Event>, eb: seq<Event>)
    requires Matches(l, a, b, ea) && Matches(l, b, c, eb)
    ensures Matches(l, a, c, ea + eb)
  {
    StoreConcat(l, View(a), ea, eb);
    FindsConcat(l, View(a), ea, eb);
  }

  lemma {:induction false} SimulatesConcat(l: Limit, w: World, a: seq<Step>, ea: seq<Event>,
                                           b: seq<Step>, eb: seq<Event>)
    requires Simulates(l, w, a, ea) && Simulates(l, Exec(l, w, a), b, eb)
    ensures Simulates(l, w, a + b, ea + eb)
  {
    RunConcat(l, w, a, b);
    MatchesConcat(l, w, Exec(l, w, a), Exec(l, Exec(l, w, a), b), ea, eb);
  }

  lemma {:induction false} SerialSteps(l: Limit, w: World, events: seq<Event>) returns (steps: seq<Step>)
    requires Linked(w)
    ensures Simulates(l, w, steps, events)
    decreases |events|
  {
    if events == [] {
      return [];
    }
    var first := Serially(w, events[0]);
    SerialEvent(l, w, events[0]);
    RunLinks(l, w, first);
    var rest := SerialSteps(l, Exec(l, w, first), events[1..]);
    SimulatesConcat(l, w, first, [events[0]], rest, events[1..]);
    assert events == [events[0]] + events[1..];
    return first + rest;
  }

  /**
   Every run of the atomic store is one of these interleavings: some run of steps makes the same
   decisions and ends with the same buckets.
   */
  lemma {:induction false} SerialRun(l: Limit, events: seq<Event>) returns (steps: seq<Step>)
    requires l.rate > 0.0
    ensures IsRun(l, NewWorld, steps)
    ensures View(Exec(l, NewWorld, steps)) == StoreAfter(l, map[], events)
    ensures Answers(l, Exec(l, NewWorld, steps).served) == Decisions(l, map[], events)
  {
    steps := SerialSteps(l, NewWorld, events);
    assert View(NewWorld) == map[];
    assert [] + Finds(l, map[], events) == Finds(l, map[], events);
    FindsDecide(l, map[], events);
  }

  // ---- Undisturbed interleavings are atomic runs ----

  /** A call takes effect in its locked section, a cleanup visit in its Delete. */
  function Effect(w: World, s: Step): seq<Event> {
    match s
    case Take(c) => if c.id < |w.entries| then [Request(w.entries[c.id].key, c.now)] else []
    case Delete(v) => [Sweep(v.key, v.tick)]
    case Load(_, _) => []
    case Check(_, _) => []
  }

  function Effects(l: Limit, w: World, steps: seq<Step>): seq<Event>
    decreases |steps|
  {
    if steps == [] then [] else Effect(w, steps[0]) + Effects(l, Act(l, w, steps[0]), steps[1..])
  }

  ghost predicate HeldFor(w: World, key: string) {
    exists c :: c in w.calls && c.id < |w.entries| && w.entries[c.id].key == key
  }

  /**
   No call is caught in a gap: when a bucket is deleted, it is still stale for that visit and no call
   holds one for the key; and a bucket is not created by a later call than the first it serves.
   */
  ghost predicate Undisturbed(w: World, s: Step) {
    match s
    case Take(c) =>
      c.id < |w.entries| && w.entries[c.id].takes == [] ==> w.entries[c.id].created <= c.now
    case Delete(v) =>
      && !HeldFor(w, v.key)
      && (v.key in w.store && w.store[v.key] < |w.entries| ==>
            w.entries[w.store[v.key]].bucket.lastAccess < v.tick - MAX_AGE)
    case Load(_, _) => true
    case Check(_, _) => true
  }

  ghost predicate AllUndisturbed(l: Limit, w: World, steps: seq<Step>)
    decreases |steps|
  {
    steps != [] ==> Undisturbed(w, steps[0]) && AllUndisturbed(l, Act(l, w, steps[0]), steps[1..])
  }

  /** Calls hold only objects that are in the store. */
  ghost predicate CallsCurrent(w: World)
    requires CallsLinked(w)
  {
    forall c :: c in w.calls ==> Current(w, c.id)
  }

  ghost predicate Current(w: World, id: nat)
    requires id < |w.entries|
  {
    var key := w.entries[id].key;
    key in w.store && w.store[key] == id
  }

  /** An object that has served no call is full, and the call that created it is still to come. */
  ghost predicate AwaitsCall(l: Limit, w: World, key: string)
    requires StoreLinked(w)
  {
    key in w.store && w.entries[w.store[key]].takes == [] ==>
      && w.entries[w.store[key]].bucket == FullBucket(l, w.entries[w.store[key]].created)
      && HeldFor(w, key)
  }

  /** The atomic store has the key's bucket if that has served a call. */
  ghost predicate Pictures(w: World, m: Store, key: string)
    requires StoreLinked(w)
  {
    && (key in m <==> key in w.store && w.entries[w.store[key]].takes != [])
    && (key in m ==> m[key] == w.entries[w.store[key]].bucket)
  }

  ghost predicate Abstracts(l: Limit, w: World, m: Store) {
    Linked(w) && CallsCurrent(w) && forall k :: AwaitsCall(l, w, k) && Pictures(w, m, k)
  }

  lemma {:induction false} StillHeld(w: World, w': World, key: string)
    requires HeldFor(w, key) && w.calls <= w'.calls && Extends(w.entries, w'.entries)
    ensures HeldFor(w', key)
  {
    var c :| c in w.calls && c.id < |w.entries| && w.entries[c.id].key == key;
    assert c in w'.calls;
  }

  lemma {:induction false} LoadCurrent(l: Limit, w: World, key: string, now: real)
    requires Linked(w) && CallsCurrent(w)
    ensures Linked(Loads(l, w, key, now)) && CallsCurrent(Loads(l, w, key, now))
  {
    var w' := Loads(l, w, key, now);
    ActLinks(l, w, Load(key, now));
    forall c | c in w'.calls ensures Current(w', c.id) {
      if c in w.calls {
        assert Current(w, c.id);
      }
    }
  }

  lemma {:induction false} LoadAwaits(l: Limit, w: World, key: string, now: real, k: string)
    requires Linked(w) && AwaitsCall(l, w, k)
    ensures Linked(Loads(l, w, key, now)) && AwaitsCall(l, Loads(l, w, key, now), k)
  {
    var w' := Loads(l, w, key, now);
    ActLinks(l, w, Load(key, now));
    ActExtends(l, w, Load(key, now));
    if k in w.store {
      if w.entries[w.store[k]].takes == [] {
        StillHeld(w, w', k);
      }
    } else if k == key {
      assert Call(|w.entries|, now) in w'.calls;
    }
  }

  lemma {:induction false} LoadPictures(l: Limit, w: World, m: Store, key: string, now: real, k: string)
    requires StoreLinked(w) && Pictures(w, m, k)
    ensures StoreLinked(Loads(l, w, key, now)) && Pictures(Loads(l, w, key, now), m, k)
  {
    ActLinksStore(l, w, Load(key, now));
  }

  lemma {:induction false} LoadAbstracts(l: Limit, w: World, m: Store, key: string, now: real)
    requires Abstracts(l, w, m)
    ensures Abstracts(l, Loads(l, w, key, now), m)
  {
    LoadCurrent(l, w, key, now);
    forall k ensures AwaitsCall(l, Loads(l, w, key, now), k) && Pictures(Loads(l, w, key, now), m, k) {
      LoadAwaits(l, w, key, now, k);
      LoadPictures(l, w, m, key, now, k);
    }
  }

  /** The locked section and the atomic store find buckets that decide alike and end alike. */
  lemma {:induction false} SameFound(l: Limit, w: World, m: Store, c: Call)
    requires l.rate > 0.0 && Abstracts(l, w, m) && c in w.calls && Undisturbed(w, Take(c))
    ensures var e := w.entries[c.id];
            var found := Loaded(l, m, e.key, c.now);
            && Refilled(l, e.bucket, c.now) == Refilled(l, found, c.now)
            && Spend(l, e.bucket, c.now) == Spend(l, found, c.now)
  {
    var e := w.entries[c.id];
    assert Current(w, c.id) && Pictures(w, m, e.key) && AwaitsCall(l, w, e.key);
    if e.takes == [] {
      EarlyRefill(l, e.created, c.now);
    }
  }

  lemma {:induction false} TakeCurrent(l: Limit, w: World, c: Call)
    requires Linked(w) && CallsCurrent(w) && c in w.calls
    ensures Linked(Takes(l, w, c)) && CallsCurrent(Takes(l, w, c))
  {
    ActLinks(l, w, Take(c));
    forall c' | c' in Takes(l, w, c).calls ensures Current(Takes(l, w, c), c'.id) {
      assert c' in w.calls && Current(w, c'.id);
    }
  }

  lemma {:induction false} TakeAwaits(l: Limit, w: World, c: Call, k: string)
    requires Linked(w) && CallsCurrent(w) && c in w.calls && AwaitsCall(l, w, k)
    ensures Linked(Takes(l, w, c)) && AwaitsCall(l, Takes(l, w, c), k)
  {
    var w' := Takes(l, w, c);
    ActLinks(l, w, Take(c));
    assert Current(w, c.id);
    if k in w.store && w.store[k] != c.id && w.entries[w.store[k]].takes == [] {
      var other :| other in w.calls && other.id < |w.entries| && w.entries[other.id].key == k;
      assert Current(w, other.id);
      assert other in w'.calls;
    }
  }

  lemma {:induction false} TakePictures(l: Limit, w: World, m: Store, c: Call, k: string)
    requires l.rate > 0.0 && Abstracts(l, w, m) && c in w.calls && Undisturbed(w, Take(c))
    ensures StoreLinked(Takes(l, w, c))
    ensures Pictures(Takes(l, w, c), Serve(l, m, w.entries[c.id].key, c.now), k)
  {
    ActLinksStore(l, w, Take(c));
    SameFound(l, w, m, c);
    assert Current(w, c.id) && Pictures(w, m, k);
  }

  lemma {:induction false} TakeAbstracts(l: Limit, w: World, m: Store, c: Call)
    requires l.rate > 0.0 && Abstracts(l, w, m) && c in w.calls && Undisturbed(w, Take(c))
    ensures Abstracts(l, Takes(l, w, c), Serve(l, m, w.entries[c.id].key, c.now))
  {
    var w', m' := Takes(l, w, c), Serve(l, m, w.entries[c.id].key, c.now);
    TakeCurrent(l, w, c);
    forall k ensures AwaitsCall(l, w', k) && Pictures(w', m', k) {
      TakeAwaits(l, w, c, k);
      TakePictures(l, w, m, c, k);
    }
  }

  lemma {:induction false} DeleteCurrent(w: World, v: Visit)
    requires Linked(w) && CallsCurrent(w) && !HeldFor(w, v.key)
    ensures Linked(Deletes(w, v)) && CallsCurrent(Deletes(w, v))
  {
    forall c | c in w.calls ensures Current(Deletes(w, v), c.id) {
      assert Current(w, c.id) && w.entries[c.id].key != v.key;
    }
  }

  lemma {:induction false} DeletePictures(l: Limit, w: World, m: Store, v: Visit, k: string)
    requires Abstracts(l, w, m) && Undisturbed(w, Delete(v))
    ensures StoreLinked(Deletes(w, v))
    ensures Pictures(Deletes(w, v), Evict(m, v.key, v.tick - MAX_AGE), k)
  {
    assert Pictures(w, m, k) && Pictures(w, m, v.key) && AwaitsCall(l, w, v.key);
  }

  lemma {:induction false} DeleteAwaits(l: Limit, w: World, v: Visit, k: string)
    requires StoreLinked(w) && AwaitsCall(l, w, k)
    ensures StoreLinked(Deletes(w, v)) && AwaitsCall(l, Deletes(w, v), k)
  {
    if HeldFor(w, k) {
      StillHeld(w, Deletes(w, v), k);
    }
  }

  lemma {:induction false} DeleteAbstracts(l: Limit, w: World, m: Store, v: Visit)
    requires Abstracts(l, w, m) && Undisturbed(w, Delete(v))
    ensures Abstracts(l, Deletes(w, v), Evict(m, v.key, v.tick - MAX_AGE))
  {
    var w', m' := Deletes(w, v), Evict(m, v.key, v.tick - MAX_AGE);
    DeleteCurrent(w, v);
    forall k ensures AwaitsCall(l, w', k) && Pictures(w', m', k) {
      DeleteAwaits(l, w, v, k);
      DeletePictures(l, w, m, v, k);
    }
  }

  lemma {:induction false} CheckAbstracts(l: Limit, w: World, m: Store, id: nat, tick: real)
    requires Abstracts(l, w, m)
    ensures Abstracts(l, Checks(w, id, tick), m)
  {
    var w' := Checks(w, id, tick);
    forall c | c in w'.calls ensures Current(w', c.id) {
      assert Current(w, c.id);
    }
    forall k ensures AwaitsCall(l, w', k) && Pictures(w', m, k) {
      assert AwaitsCall(l, w, k) && Pictures(w, m, k);
      if HeldFor(w, k) {
        StillHeld(w, w', k);
      }
    }
  }

  lemma {:induction false} OneEvent(l: Limit, m: Store, e: Event)
    ensures StoreAfter(l, m, [e]) == Apply(l, m, e)
  {
    assert [e][1..] == [];
  }

  lemma {:induction false} StepAbstracts(l: Limit, w: World, m: Store, s: Step)
    requires l.rate > 0.0 && Abstracts(l, w, m) && Enabled(w, s) && Undisturbed(w, s)
    ensures Abstracts(l, Act(l, w, s), StoreAfter(l, m, Effect(w, s)))
  {
    match s
    case Load(key, now) => LoadAbstracts(l, w, m, key, now);
    case Take(c) =>
      OneEvent(l, m, Request(w.entries[c.id].key, c.now));
      TakeAbstracts(l, w, m, c);
    case Check(id, tick) => CheckAbstracts(l, w, m, id, tick);
    case Delete(v) =>
      OneEvent(l, m, Sweep(v.key, v.tick));
      DeleteAbstracts(l, w, m, v);
  }

  /** Between the two worlds all clients, and those of one key, are answered as the events are. */
  ghost predicate Answered(l: Limit, w: World, w': World, m: Store, events: seq<Event>, key: string)
    requires l.rate > 0.0
  {
    && Answers(l, w'.served) == Answers(l, w.served) + Decisions(l, m, events)
    && TakesOf(w'.served, key) == TakesOf(w.served, key) + TimesOf(events, key)
    && GrantsTo(l, w'.served, key) == GrantsTo(l, w.served, key) + Flags(DecisionsFor(l, m, events, key))
  }

  lemma {:induction false} NothingAnswered(l: Limit, w: World, w': World, m: Store, events: seq<Event>, key: string)
    requires l.rate > 0.0 && w'.served == w.served && (events == [] || (|events| == 1 && events[0].Sweep?))
    ensures Answered(l, w, w', m, events, key)
  {
    if events != [] {
      assert events[1..] == [];
    }
    assert Decisions(l, m, events) == DecisionsFor(l, m, events, key) == [] && TimesOf(events, key) == [];
  }

  lemma {:induction false} AnswersAppend(l: Limit, served: seq<Served>, s: Served)
    requires l.rate > 0.0
    ensures Answers(l, served + [s]) == Answers(l, served) + [Decide(l, s.bucket, s.now)]
  {
  }

  lemma {:induction false} DecidesBy(l: Limit, a: Bucket, b: Bucket, now: real)
    requires l.rate > 0.0 && Refilled(l, a, now) == Refilled(l, b, now)
    ensures Decide(l, a, now) == Decide(l, b, now) && Admits(l, a, now) == Admits(l, b, now)
  {
  }

  /** The decisions and times of a single request, for all clients and for one key. */
  lemma {:induction false} RequestSeen(l: Limit, m: Store, who: string, now: real, key: string)
    requires l.rate > 0.0
    ensures var e, found := Request(who, now), Loaded(l, m, who, now);
            && Decisions(l, m, [e]) == [Decide(l, found, now)]
            && TimesOf([e], key) == (if who == key then [now] else [])
            && Flags(DecisionsFor(l, m, [e], key)) == (if who == key then [Admits(l, found, now)] else [])
  {
    var e := Request(who, now);
    assert [e][1..] == [];
    SingleRequest(l, m, who, now);
    assert TimesOf([], key) == [] && DecisionsFor(l, Apply(l, m, e), [], key) == [];
  }

  lemma {:induction false} TakeAnswered(l: Limit, w: World, m: Store, c: Call, key: string)
    requires l.rate > 0.0 && Abstracts(l, w, m) && c in w.calls && Undisturbed(w, Take(c))
    ensures Answered(l, w, Takes(l, w, c), m, [Request(w.entries[c.id].key, c.now)], key)
  {
    var e := w.entries[c.id];
    var served := Served(e.key, e.bucket, c.now);
    SameFound(l, w, m, c);
    DecidesBy(l, e.bucket, Loaded(l, m, e.key, c.now), c.now);
    RequestSeen(l, m, e.key, c.now, key);
    AnswersAppend(l, w.served, served);
    SeenAppend(l, w.served, served, key);
  }

  lemma {:induction false} StepAnswered(l: Limit, w: World, m: Store, s: Step, key: string)
    requires l.rate > 0.0 && Abstracts(l, w, m) && Enabled(w, s) && Undisturbed(w, s)
    ensures Answered(l, w, Act(l, w, s), m, Effect(w, s), key)
  {
    if s.Take? {
      TakeAnswered(l, w, m, s.call, key);
    } else {
      NothingAnswered(l, w, Act(l, w, s), m, Effect(w, s), key);
    }
  }

  lemma {:induction false} FlagsConcat(a: seq<Decision>, b: seq<Decision>)
    ensures Flags(a + b) == Flags(a) + Flags(b)
  {
  }

  lemma {:induction false} FlagsForConcat(l: Limit, m: Store, a: seq<Event>, b: seq<Event>, key: string)
    requires l.rate > 0.0
    ensures Flags(DecisionsFor(l, m, a + b, key))
         == Flags(DecisionsFor(l, m, a, key)) + Flags(DecisionsFor(l, StoreAfter(l, m, a), b, key))
  {
    DecisionsForConcat(l, m, a, b, key);
    FlagsConcat(DecisionsFor(l, m, a, key), DecisionsFor(l, StoreAfter(l, m, a), b, key));
  }

  lemma {:induction false} Regrouped<T>(x: seq<T>, a: seq<T>, b: seq<T>)
    ensures x + a + b == x + (a + b)
  {
  }

  lemma {:induction false} AnsweredConcat(l: Limit, a: World, b: World, c: World, m: Store, ea: seq<Event>,
                                          eb: seq<Event>, key: string)
    requires l.rate > 0.0
    requires Answered(l, a, b, m, ea, key) && Answered(l, b, c, StoreAfter(l, m, ea), eb, key)
    ensures Answered(l, a, c, m, ea + eb, key)
  {
    var m' := StoreAfter(l, m, ea);
    DecisionsConcat(l, m, ea, eb);
    Regrouped(Answers(l, a.served), Decisions(l, m, ea), Decisions(l, m', eb));
    TimesConcat(ea, eb, key);
    Regrouped(TakesOf(a.served, key), TimesOf(ea, key), TimesOf(eb, key));
    FlagsForConcat(l, m, ea, eb, key);
    Regrouped(GrantsTo(l, a.served, key), Flags(DecisionsFor(l, m, ea, key)), Flags(DecisionsFor(l, m', eb, key)));
  }

  lemma {:induction false} RunAnswered(l: Limit, w: World, m: Store, steps: seq<Step>, key: string)
    requires l.rate > 0.0 && Abstracts(l, w, m) && IsRun(l, w, steps) && AllUndisturbed(l, w, steps)
    ensures Answered(l, w, Exec(l, w, steps), m, Effects(l, w, steps), key)
    decreases |steps|
  {
    if steps == [] {
      NothingAnswered(l, w, w, m, [], key);
    } else {
      var w1, first := Act(l, w, steps[0]), Effect(w, steps[0]);
      StepAbstracts(l, w, m, steps[0]);
      StepAnswered(l, w, m, steps[0], key);
      RunAnswered(l, w1, StoreAfter(l, m, first), steps[1..], key);
      AnsweredConcat(l, w, w1, Exec(l, w1, steps[1..]), m, first, Effects(l, w1, steps[1..]), key);
    }
  }

  lemma {:induction false} NewAbstracts(l: Limit)
    ensures Abstracts(l, NewWorld, map[])
  {
  }

  /**
   An interleaving in which no call is caught in a gap makes the decisions of the atomic run of its
   locked sections and deletes, in the order in which they happen.
   */
  lemma {:induction false} UndisturbedIsAtomic(l: Limit, steps: seq<Step>)
    requires l.rate > 0.0 && IsRun(l, NewWorld, steps) && AllUndisturbed(l, NewWorld, steps)
    ensures Answers(l, Exec(l, NewWorld, steps).served) == Decisions(l, map[], Effects(l, NewWorld, steps))
  {
    NewAbstracts(l);
    RunAnswered(l, NewWorld, map[], steps, "");
    assert Answers(l, NewWorld.served) == [];
  }

  /**
   ... and so, if its timestamps lag by at most `lag` and a bucket fills in time, it grants every key
   what the history specification grants.
   */
  lemma {:induction false} UndisturbedMeetsSpecification(l: Limit, steps: seq<Step>, clock: real, lag: real,
                                                         key: string)
    requires l.rate > 0.0 && lag >= 0.0 && FillsInTime(l, lag)
    requires IsRun(l, NewWorld, steps) && AllUndisturbed(l, NewWorld, steps)
    requires Lagging(Effects(l, NewWorld, steps), clock, lag)
    ensures var served := Exec(l, NewWorld, steps).served;
            GrantsTo(l, served, key) == Granted(l, TakesOf(served, key))
  {
    NewAbstracts(l);
    RunAnswered(l, NewWorld, map[], steps, key);
    var events := Effects(l, NewWorld, steps);
    CleanupsMeetSpecification(l, events, clock, lag, key);
    assert [] + TimesOf(events, key) == TimesOf(events, key);
    assert [] + Flags(DecisionsFor(l, map[], events, key)) == Flags(DecisionsFor(l, map[], events, key));
  }
}
