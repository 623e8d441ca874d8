/**
 How much a key is granted over all interleavings. A key's successive objects share the time that
 passes: each is charged from its creation to the creation of the next, plus what the timestamps lag.
 */
module TokenBucketRaceBounds {
  import opened TokenBucket
  import opened TokenBucketHistory
  import opened TokenBucketRaces
  import opened TokenBucketEviction

  /** No LoadOrStore is timestamped more than `lag` before one that came earlier. */
  ghost predicate LoadsLag(steps: seq<Step>, clock: real, lag: real)
    decreases |steps|
  {
    steps != [] ==>
      && (steps[0].Load? ==> clock - lag <= steps[0].now)
      && LoadsLag(steps[1..], LoadClock(clock, steps[0]), lag)
  }

  function LoadClock(clock: real, s: Step): real {
    if s.Load? then Later(clock, s.now) else clock
  }

  ghost predicate LoadsWithin(steps: seq<Step>, from: real, to: real) {
    forall i :: 0 <= i < |steps| && steps[i].Load? ==> from <= steps[i].now <= to
  }

  // ---- Where the timestamps of an object lie ----

  ghost predicate Below(e: Entry, ceiling: real) {
    e.created <= ceiling && forall i :: 0 <= i < |e.takes| ==> e.takes[i] <= ceiling
  }

  /** All timestamps of an object are at most `lag` after the creation of a later one of the key. */
  ghost predicate Spread(entries: seq<Entry>, key: string, lag: real) {
    forall i, j :: 0 <= i < j < |entries| && entries[i].key == key && entries[j].key == key ==>
      Below(entries[i], entries[j].created + lag)
  }

  ghost predicate AllBelow(entries: seq<Entry>, key: string, ceiling: real) {
    forall i :: 0 <= i < |entries| && entries[i].key == key ==> Below(entries[i], ceiling)
  }

  /** ... and so are those of the calls that hold it. */
  ghost predicate CallsSpread(w: World, key: string, lag: real)
    requires CallsLinked(w)
  {
    forall c, j :: c in w.calls && c.id < j < |w.entries| && w.entries[c.id].key == key && w.entries[j].key == key ==>
      c.now <= w.entries[j].created + lag
  }

  /** The object in the store is the key's last. */
  ghost predicate StoresLast(w: World, key: string) {
    key in w.store ==> forall i :: w.store[key] < i < |w.entries| ==> w.entries[i].key != key
  }

  ghost predicate Timed(w: World, key: string, clock: real, lag: real) {
    && Linked(w) && StoresLast(w, key)
    && Spread(w.entries, key, lag) && AllBelow(w.entries, key, clock)
    && CallsSpread(w, key, lag) && (forall c :: c in w.calls ==> c.now <= clock)
  }

  lemma {:induction false} BelowLater(e: Entry, a: real, b: real)
    requires Below(e, a) && a <= b
    ensures Below(e, b)
  {
  }

  lemma {:induction false} StillBelow(entries: seq<Entry>, key: string, a: real, b: real)
    requires AllBelow(entries, key, a) && a <= b
    ensures AllBelow(entries, key, b)
  {
    forall i | 0 <= i < |entries| && entries[i].key == key ensures Below(entries[i], b) {
      BelowLater(entries[i], a, b);
    }
  }

  lemma {:induction false} LoadSpreads(l: Limit, w: World, who: string, now: real, key: string, clock: real, lag: real)
    requires Timed(w, key, clock, lag) && clock - lag <= now
    ensures Spread(Loads(l, w, who, now).entries, key, lag)
    ensures AllBelow(Loads(l, w, who, now).entries, key, Later(clock, now))
  {
    StillBelow(w.entries, key, clock, Later(clock, now));
    if who !in w.store {
      StillBelow(w.entries, key, clock, now + lag);
    }
  }

  lemma {:induction false} LoadCallsSpread(l: Limit, w: World, who: string, now: real, key: string, clock: real,
                                           lag: real)
    requires Timed(w, key, clock, lag) && clock - lag <= now
    ensures CallsLinked(Loads(l, w, who, now)) && CallsSpread(Loads(l, w, who, now), key, lag)
  {
    var w' := Loads(l, w, who, now);
    ActLinks(l, w, Load(who, now));
    forall c, j | c in w'.calls && c.id < j < |w'.entries| && w'.entries[c.id].key == key && w'.entries[j].key == key
      ensures c.now <= w'.entries[j].created + lag
    {
      if c in w.calls {
        assert c.id < |w.entries|;
      }
    }
  }

  lemma {:induction false} LoadTimed(l: Limit, w: World, who: string, now: real, key: string, clock: real, lag: real)
    requires Timed(w, key, clock, lag) && clock - lag <= now
    ensures Timed(Loads(l, w, who, now), key, Later(clock, now), lag)
  {
    var w' := Loads(l, w, who, now);
    ActLinks(l, w, Load(who, now));
    LoadSpreads(l, w, who, now, key, clock, lag);
    LoadCallsSpread(l, w, who, now, key, clock, lag);
    forall c | c in w'.calls ensures c.now <= Later(clock, now) {
      assert c in w.calls || c.now == now;
    }
  }

  lemma {:induction false} TakenBelow(l: Limit, e: Entry, now: real, ceiling: real)
    requires Below(e, ceiling) && now <= ceiling
    ensures Below(Taken(l, e, now), ceiling)
  {
  }

  lemma {:induction false} TakeSpreads(l: Limit, w: World, c: Call, key: string, clock: real, lag: real)
    requires Timed(w, key, clock, lag) && c in w.calls
    ensures Spread(Takes(l, w, c).entries, key, lag) && AllBelow(Takes(l, w, c).entries, key, clock)
  {
    var e, after := w.entries[c.id], Takes(l, w, c).entries;
    forall i, j | 0 <= i < j < |after| && after[i].key == key && after[j].key == key
      ensures Below(after[i], after[j].created + lag)
    {
      assert Below(w.entries[i], w.entries[j].created + lag);
      if i == c.id {
        TakenBelow(l, e, c.now, w.entries[j].created + lag);
      }
    }
    if e.key == key {
      TakenBelow(l, e, c.now, clock);
    }
  }

  lemma {:induction false} TakeTimed(l: Limit, w: World, c: Call, key: string, clock: real, lag: real)
    requires Timed(w, key, clock, lag) && c in w.calls
    ensures Timed(Takes(l, w, c), key, clock, lag)
  {
    ActLinks(l, w, Take(c));
    TakeSpreads(l, w, c, key, clock, lag);
    assert forall c' :: c' in Takes(l, w, c).calls ==> c' in w.calls;
  }

  lemma {:induction false} ActTimed(l: Limit, w: World, s: Step, key: string, clock: real, lag: real)
    requires Timed(w, key, clock, lag) && Enabled(w, s) && (s.Load? ==> clock - lag <= s.now)
    ensures Timed(Act(l, w, s), key, LoadClock(clock, s), lag)
  {
    match s
    case Load(who, now) => LoadTimed(l, w, who, now, key, clock, lag);
    case Take(c) => TakeTimed(l, w, c, key, clock, lag);
    case Check(_, _) =>
    case Delete(_) =>
  }

  ghost predicate CreatedFrom(entries: seq<Entry>, from: real) {
    forall i :: 0 <= i < |entries| ==> from <= entries[i].created
  }

  /** Every run keeps the objects apart, and its clock stays in the window of the timestamps. */
  lemma {:induction false} RunTimed(l: Limit, w: World, steps: seq<Step>, key: string, clock: real, lag: real,
                                    from: real, to: real)
    requires Timed(w, key, clock, lag) && IsRun(l, w, steps) && LoadsLag(steps, clock, lag)
    requires clock <= to && CreatedFrom(w.entries, from) && LoadsWithin(steps, from, to)
    ensures var w' := Exec(l, w, steps);
            Spread(w'.entries, key, lag) && AllBelow(w'.entries, key, to) && CreatedFrom(w'.entries, from)
    decreases |steps|
  {
    if steps == [] {
      StillBelow(w.entries, key, clock, to);
    } else {
      var s := steps[0];
      ActTimed(l, w, s, key, clock, lag);
      assert LoadsWithin(steps[1..], from, to);
      RunTimed(l, Act(l, w, s), steps[1..], key, LoadClock(clock, s), lag, from, to);
    }
  }

  // ---- What the objects grant ----

  function GrantsOf(entries: seq<Entry>, key: string): nat {
    if entries == [] then 0
    else
      var last := entries[|entries| - 1];
      GrantsOf(entries[..|entries| - 1], key) + if last.key == key then Since(last.admitted, 0) else 0
  }

  /** The time that must pass for an object to grant so many requests. */
  function Needs(l: Limit, grants: nat): real
    requires l.rate > 0.0
  {
    (grants as real - l.burst as real) / l.rate
  }

  lemma {:induction false} NeedsElapsed(l: Limit, grants: nat, elapsed: real)
    requires l.rate > 0.0 && grants as real <= l.burst as real + elapsed * l.rate
    ensures Needs(l, grants) <= elapsed
  {
    var needs := Needs(l, grants);
    assert needs * l.rate == grants as real - l.burst as real;
    if needs > elapsed {
      assert (needs - elapsed) * l.rate > 0.0;
    }
  }

  lemma {:induction false} AllowanceNeeds(l: Limit, grants: nat, created: real, now: real)
    requires l.rate > 0.0 && grants as real <= Allowance(l, created, now)
    ensures Needs(l, grants) <= now - created
  {
    NeedsElapsed(l, grants, now - created);
  }

  /** Up to an admission at `now`, an object needs no more time than has passed. */
  lemma {:induction false} AdmissionNeeds(l: Limit, created: real, takes: seq<real>, now: real)
    requires l.rate > 0.0 && Admits(l, After(l, created, takes), now)
    ensures Needs(l, Since(Admitted(l, created, takes + [now]), 0)) <= now - created
  {
    RateSafety(l, created, takes, now, 0);
    assert Times(created, takes)[0] == created;
    AllowanceNeeds(l, Since(Admitted(l, created, takes + [now]), 0), created, now);
  }

  lemma {:induction false} NeedsNothing(l: Limit)
    requires l.rate > 0.0 && l.burst >= 1
    ensures Needs(l, 0) <= 0.0
  {
    NeedsElapsed(l, 0, 0.0);
  }

  lemma {:induction false} RejectionAdds(l: Limit, created: real, takes: seq<real>, now: real)
    requires !Admits(l, After(l, created, takes), now)
    ensures Since(Admitted(l, created, takes + [now]), 0) == Since(Admitted(l, created, takes), 0)
  {
    AfterAppend(l, created, takes, now);
    SinceAppend(Admitted(l, created, takes), false, 0);
  }

  lemma {:induction false} NoneYet(l: Limit, created: real)
    ensures Since(Admitted(l, created, []), 0) == 0
  {
    assert Since([false], 1) == 0;
  }

  /** An object needs no more time than lies between its creation and its last timestamp. */
  lemma {:induction false} ObjectNeeds(l: Limit, created: real, takes: seq<real>, ceiling: real)
    requires l.rate > 0.0 && l.burst >= 1
    requires created <= ceiling && forall i :: 0 <= i < |takes| ==> takes[i] <= ceiling
    ensures Needs(l, Since(Admitted(l, created, takes), 0)) <= ceiling - created
    decreases |takes|
  {
    if takes == [] {
      NoneYet(l, created);
      NeedsNothing(l);
    } else {
      var before, now := takes[..|takes| - 1], takes[|takes| - 1];
      assert takes == before + [now];
      if Admits(l, After(l, created, before), now) {
        AdmissionNeeds(l, created, before, now);
      } else {
        ObjectNeeds(l, created, before, ceiling);
        RejectionAdds(l, created, before, now);
      }
    }
  }

  /** n times x, added up. */
  function Sum(n: nat, x: real): real {
    if n == 0 then 0.0 else Sum(n - 1, x) + x
  }

  lemma {:induction false} SumIsProduct(n: nat, x: real)
    ensures Sum(n, x) == n as real * x
  {
    if n > 0 {
      SumIsProduct(n - 1, x);
      assert n as real * x == (n - 1) as real * x + x;
    }
  }

  lemma {:induction false} SumGrows(a: nat, b: nat, x: real)
    requires a <= b && x >= 0.0
    ensures Sum(a, x) <= Sum(b, x)
    decreases b
  {
    if a < b {
      SumGrows(a, b - 1, x);
    }
  }

  ghost predicate AreNeeds(entries: seq<Entry>, needs: seq<real>) {
    |needs| == |entries| && forall i :: 0 <= i < |entries| ==> NeedsAtMost(entries[i], needs[i])
  }

  /** The object's timestamps cannot all come sooner after its creation. */
  ghost predicate NeedsAtMost(e: Entry, need: real) {
    forall ceiling: real :: Below(e, ceiling) ==> need <= ceiling - e.created
  }

  function TotalOf(entries: seq<Entry>, needs: seq<real>, key: string): real
    requires |needs| == |entries|
  {
    if entries == [] then 0.0
    else
      var n := |entries| - 1;
      TotalOf(entries[..n], needs[..n], key) + if entries[n].key == key then needs[n] else 0.0
  }

  lemma {:induction false} SpreadPrefix(entries: seq<Entry>, key: string, lag: real)
    requires entries != [] && Spread(entries, key, lag) && entries[|entries| - 1].key == key
    ensures AllBelow(entries[..|entries| - 1], key, entries[|entries| - 1].created + lag)
  {
  }

  /** The objects of a key share the time from `from` to `ceiling`, up to one lag between two of them. */
  lemma {:induction false} SharedTime(entries: seq<Entry>, needs: seq<real>, key: string, from: real, ceiling: real,
                                      lag: real)
    requires AreNeeds(entries, needs) && CreatedFrom(entries, from)
    requires Spread(entries, key, lag) && AllBelow(entries, key, ceiling)
    ensures var n := ObjectsOf(entries, key);
            TotalOf(entries, needs, key) <= if n == 0 then 0.0 else ceiling - from + Sum(n - 1, lag)
    decreases |entries|
  {
    if entries != [] {
      var n := |entries| - 1;
      var init, last := entries[..n], entries[n];
      assert AreNeeds(init, needs[..n]);
      if last.key == key {
        assert Below(last, ceiling) && NeedsAtMost(last, needs[n]);
        SpreadPrefix(entries, key, lag);
        SharedTime(init, needs[..n], key, from, last.created + lag, lag);
      } else {
        SharedTime(init, needs[..n], key, from, ceiling, lag);
      }
    }
  }

  ghost predicate EntriesRecorded(l: Limit, entries: seq<Entry>) {
    forall i :: 0 <= i < |entries| ==> Recorded(l, entries[i])
  }

  lemma {:induction false} RecordedNeeds(l: Limit, e: Entry)
    requires l.rate > 0.0 && l.burst >= 1 && Recorded(l, e)
    ensures NeedsAtMost(e, Needs(l, Since(e.admitted, 0)))
  {
    forall ceiling: real | Below(e, ceiling) ensures Needs(l, Since(e.admitted, 0)) <= ceiling - e.created {
      ObjectNeeds(l, e.created, e.takes, ceiling);
    }
  }

  function AllNeeds(l: Limit, entries: seq<Entry>): (needs: seq<real>)
    requires l.rate > 0.0
    ensures |needs| == |entries|
  {
    seq(|entries|, i requires 0 <= i < |entries| => Needs(l, Since(entries[i].admitted, 0)))
  }

  lemma {:induction false} EntriesNeed(l: Limit, entries: seq<Entry>)
    requires l.rate > 0.0 && l.burst >= 1 && EntriesRecorded(l, entries)
    ensures AreNeeds(entries, AllNeeds(l, entries))
  {
    forall i | 0 <= i < |entries| ensures NeedsAtMost(entries[i], AllNeeds(l, entries)[i]) {
      RecordedNeeds(l, entries[i]);
    }
  }

  /** What each object granted beyond a burst. */
  function Extras(l: Limit, entries: seq<Entry>): (extras: seq<real>)
    ensures |extras| == |entries|
  {
    seq(|entries|, i requires 0 <= i < |entries| => Since(entries[i].admitted, 0) as real - l.burst as real)
  }

  lemma {:induction false} GrantsFromExtras(l: Limit, entries: seq<Entry>, key: string)
    ensures GrantsOf(entries, key) as real
         == Sum(ObjectsOf(entries, key), l.burst as real) + TotalOf(entries, Extras(l, entries), key)
    decreases |entries|
  {
    if entries != [] {
      var n := |entries| - 1;
      assert Extras(l, entries)[..n] == Extras(l, entries[..n]);
      GrantsFromExtras(l, entries[..n], key);
    }
  }

  ghost predicate ScaledBy(rate: real, extra: real, need: real) {
    extra == need * rate
  }

  ghost predicate Scaled(extras: seq<real>, needs: seq<real>, rate: real) {
    && |extras| == |needs|
    && forall i {:trigger ScaledBy(rate, extras[i], needs[i])} :: 0 <= i < |needs| ==>
         ScaledBy(rate, extras[i], needs[i])
  }

  lemma {:induction false} NeedsTimesRate(l: Limit, grants: nat)
    requires l.rate > 0.0
    ensures ScaledBy(l.rate, grants as real - l.burst as real, Needs(l, grants))
  {
  }

  lemma {:induction false} NeedsScale(l: Limit, entries: seq<Entry>)
    requires l.rate > 0.0
    ensures Scaled(Extras(l, entries), AllNeeds(l, entries), l.rate)
  {
    var extras, needs := Extras(l, entries), AllNeeds(l, entries);
    forall i | 0 <= i < |needs| ensures ScaledBy(l.rate, extras[i], needs[i]) {
      NeedsTimesRate(l, Since(entries[i].admitted, 0));
    }
  }

  lemma {:induction false} ScaledAdd(rate: real, extra: real, total: real, own: real, need: real)
    requires ScaledBy(rate, extra, total) && ScaledBy(rate, own, need)
    ensures ScaledBy(rate, extra + own, total + need)
  {
  }

  lemma {:induction false} ScaledInit(extras: seq<real>, needs: seq<real>, rate: real, n: nat)
    requires Scaled(extras, needs, rate) && n < |needs|
    ensures Scaled(extras[..n], needs[..n], rate) && ScaledBy(rate, extras[n], needs[n])
  {
    forall i | 0 <= i < n ensures ScaledBy(rate, extras[..n][i], needs[..n][i]) {
      assert ScaledBy(rate, extras[i], needs[i]);
    }
    assert ScaledBy(rate, extras[n], needs[n]);
  }

  lemma {:induction false} TotalScales(entries: seq<Entry>, needs: seq<real>, extras: seq<real>, key: string,
                                       rate: real)
    requires |entries| == |needs| && Scaled(extras, needs, rate)
    ensures ScaledBy(rate, TotalOf(entries, extras, key), TotalOf(entries, needs, key))
    decreases |entries|
  {
    if entries != [] {
      var n := |entries| - 1;
      ScaledInit(extras, needs, rate, n);
      TotalScales(entries[..n], needs[..n], extras[..n], key, rate);
      if entries[n].key == key {
        ScaledAdd(rate, TotalOf(entries[..n], extras[..n], key), TotalOf(entries[..n], needs[..n], key), extras[n],
                  needs[n]);
      }
    }
  }

  lemma {:induction false} RunTimes(l: Limit, steps: seq<Step>, needs: seq<real>, key: string, from: real, to: real,
                                    lag: real)
    requires lag >= 0.0 && from <= to && IsRun(l, NewWorld, steps)
    requires LoadsWithin(steps, from, to) && LoadsLag(steps, from, lag)
    requires AreNeeds(Exec(l, NewWorld, steps).entries, needs)
    ensures TotalOf(Exec(l, NewWorld, steps).entries, needs, key) <= to - from + Sum(DeletesOf(steps, key), lag)
  {
    var entries := Exec(l, NewWorld, steps).entries;
    var n := ObjectsOf(entries, key);
    RunTimed(l, NewWorld, steps, key, from, lag, from, to);
    SharedTime(entries, needs, key, from, to, lag);
    KeyObjects(l, steps, key);
    SumGrows(if n == 0 then 0 else n - 1, DeletesOf(steps, key), lag);
    assert Sum(0, lag) == 0.0;
  }

  // ---- What the client sees of it ----

  function Trues(flags: seq<bool>): nat {
    if flags == [] then 0 else Trues(flags[..|flags| - 1]) + if flags[|flags| - 1] then 1 else 0
  }

  lemma {:induction false} TruesAppend(flags: seq<bool>, more: bool)
    ensures Trues(flags + [more]) == Trues(flags) + if more then 1 else 0
  {
    assert (flags + [more])[..|flags|] == flags;
  }

  lemma {:induction false} GrantsUpdate(entries: seq<Entry>, id: nat, e: Entry, key: string)
    requires id < |entries| && entries[id].key == e.key
    ensures var change := Since(e.admitted, 0) - Since(entries[id].admitted, 0);
            GrantsOf(entries[id := e], key) == GrantsOf(entries, key) + if e.key == key then change else 0
    decreases |entries|
  {
    var init := entries[..|entries| - 1];
    if id == |init| {
      assert entries[id := e][..|init|] == init;
    } else {
      assert entries[id := e][..|init|] == init[id := e];
      GrantsUpdate(init, id, e, key);
    }
  }

  /** The grants of all objects of a key are the grants its clients saw. */
  ghost predicate Tallied(l: Limit, w: World, key: string) {
    GrantsOf(w.entries, key) == Trues(GrantsTo(l, w.served, key))
  }

  lemma {:induction false} LoadTallies(l: Limit, w: World, who: string, now: real, key: string)
    requires Tallied(l, w, key)
    ensures Tallied(l, Loads(l, w, who, now), key)
  {
    if who !in w.store {
      assert (w.entries + [NewEntry(l, who, now)])[..|w.entries|] == w.entries;
      assert Since([false], 1) == 0;
    }
  }

  /** A locked section adds its answer to the object's grants ... */
  lemma {:induction false} TakeGrants(l: Limit, w: World, c: Call, key: string)
    requires c.id < |w.entries| && w.entries[c.id].key == key
    ensures GrantsOf(Takes(l, w, c).entries, key)
         == GrantsOf(w.entries, key) + if Admits(l, w.entries[c.id].bucket, c.now) then 1 else 0
  {
    var e := w.entries[c.id];
    SinceAppend(e.admitted, Admits(l, e.bucket, c.now), 0);
    GrantsUpdate(w.entries, c.id, Taken(l, e, c.now), key);
  }

  /** ... and to what the client sees. */
  lemma {:induction false} TakeTrues(l: Limit, w: World, c: Call, key: string)
    requires c.id < |w.entries| && w.entries[c.id].key == key
    ensures Trues(GrantsTo(l, Takes(l, w, c).served, key))
         == Trues(GrantsTo(l, w.served, key)) + if Admits(l, w.entries[c.id].bucket, c.now) then 1 else 0
  {
    var e := w.entries[c.id];
    SeenAppend(l, w.served, Served(key, e.bucket, c.now), key);
    TruesAppend(GrantsTo(l, w.served, key), Admits(l, e.bucket, c.now));
  }

  lemma {:induction false} OwnTakeTallies(l: Limit, w: World, c: Call, key: string)
    requires Tallied(l, w, key) && c.id < |w.entries| && w.entries[c.id].key == key
    ensures Tallied(l, Takes(l, w, c), key)
  {
    TakeGrants(l, w, c, key);
    TakeTrues(l, w, c, key);
  }

  lemma {:induction false} OtherTakeTallies(l: Limit, w: World, c: Call, key: string)
    requires Tallied(l, w, key) && c.id < |w.entries| && w.entries[c.id].key != key
    ensures Tallied(l, Takes(l, w, c), key)
  {
    var e := w.entries[c.id];
    GrantsUpdate(w.entries, c.id, Taken(l, e, c.now), key);
    SeenAppend(l, w.served, Served(e.key, e.bucket, c.now), key);
    assert GrantsTo(l, w.served, key) + [] == GrantsTo(l, w.served, key);
  }

  lemma {:induction false} RunTallies(l: Limit, w: World, steps: seq<Step>, key: string)
    requires Tallied(l, w, key)
    ensures Tallied(l, Exec(l, w, steps), key)
    decreases |steps|
  {
    if steps != [] {
      match steps[0] {
        case Load(who, now) => LoadTallies(l, w, who, now, key);
        case Take(c) =>
          if c.id < |w.entries| && w.entries[c.id].key == key {
            OwnTakeTallies(l, w, c, key);
          } else if c.id < |w.entries| {
            OtherTakeTallies(l, w, c, key);
          }
        case Check(_, _) =>
        case Delete(_) =>
      }
      RunTallies(l, Act(l, w, steps[0]), steps[1..], key);
    }
  }

  /** The number of requests of the key that were granted. */
  ghost function GrantCount(l: Limit, steps: seq<Step>, key: string): nat {
    Trues(GrantsTo(l, Exec(l, NewWorld, steps).served, key))
  }

  lemma {:induction false} NoGrants(l: Limit, served: seq<Served>, key: string)
    requires l.burst < 1
    ensures Trues(GrantsTo(l, served, key)) == 0
  {
    if served != [] {
      var before, last := served[..|served| - 1], served[|served| - 1];
      NoGrants(l, before, key);
      if last.key == key {
        TruesAppend(GrantsTo(l, before, key), false);
      } else {
        assert GrantsTo(l, before, key) + [] == GrantsTo(l, before, key);
      }
    }
  }

  /** What a run grants beyond a burst for every Delete and one more. */
  lemma {:induction false} RunExtras(l: Limit, steps: seq<Step>, key: string)
    requires l.burst >= 1 && IsRun(l, NewWorld, steps)
    ensures var entries := Exec(l, NewWorld, steps).entries;
            GrantCount(l, steps, key) as real
            <= Sum(DeletesOf(steps, key) + 1, l.burst as real) + TotalOf(entries, Extras(l, entries), key)
  {
    var entries := Exec(l, NewWorld, steps).entries;
    RunTallies(l, NewWorld, steps, key);
    GrantsFromExtras(l, entries, key);
    KeyObjects(l, steps, key);
    SumGrows(ObjectsOf(entries, key), DeletesOf(steps, key) + 1, l.burst as real);
  }

  /** What the objects of a run need, and what they grant beyond a burst each. */
  lemma {:induction false} RunNeeds(l: Limit, steps: seq<Step>, key: string)
    returns (needs: seq<real>, extras: seq<real>)
    requires l.rate > 0.0 && l.burst >= 1 && IsRun(l, NewWorld, steps)
    ensures var entries := Exec(l, NewWorld, steps).entries;
            && AreNeeds(entries, needs) && Scaled(extras, needs, l.rate)
            && GrantCount(l, steps, key) as real
               <= Sum(DeletesOf(steps, key) + 1, l.burst as real) + TotalOf(entries, extras, key)
  {
    var entries := Exec(l, NewWorld, steps).entries;
    needs, extras := AllNeeds(l, entries), Extras(l, entries);
    RunRecords(l, NewWorld, steps);
    EntriesNeed(l, entries);
    NeedsScale(l, entries);
    RunExtras(l, steps, key);
  }

  /** The grants of a run, and the time that accounts for them. */
  lemma {:induction false} RunTotal(l: Limit, steps: seq<Step>, key: string, from: real, to: real, lag: real)
    returns (extra: real, total: real)
    requires l.rate > 0.0 && l.burst >= 1 && lag >= 0.0 && from <= to && IsRun(l, NewWorld, steps)
    requires LoadsWithin(steps, from, to) && LoadsLag(steps, from, lag)
    ensures GrantCount(l, steps, key) as real <= Sum(DeletesOf(steps, key) + 1, l.burst as real) + extra
    ensures ScaledBy(l.rate, extra, total) && total <= to - from + Sum(DeletesOf(steps, key), lag)
  {
    var entries := Exec(l, NewWorld, steps).entries;
    var needs, extras := RunNeeds(l, steps, key);
    RunTimes(l, steps, needs, key, from, to, lag);
    TotalScales(entries, needs, extras, key, l.rate);
    extra, total := TotalOf(entries, extras, key), TotalOf(entries, needs, key);
  }

  lemma {:induction false} InTime(grants: real, bursts: real, total: real, time: real, rate: real)
    requires rate > 0.0 && grants <= bursts + total * rate && total <= time
    ensures grants <= bursts + time * rate
  {
    NonNegative(time - total, rate);
    assert (time - total) * rate == time * rate - total * rate;
  }

  /** With n deletes: n + 1 bursts, the length of the window, and n lags. */
  function Limited(l: Limit, n: nat, span: real, lag: real): real {
    (n + 1) as real * l.burst as real + (span + n as real * lag) * l.rate
  }

  lemma {:induction false} SumsLimited(l: Limit, grants: real, n: nat, extra: real, total: real, span: real, lag: real)
    requires l.rate > 0.0 && grants <= Sum(n + 1, l.burst as real) + extra && ScaledBy(l.rate, extra, total)
    requires total <= span + Sum(n, lag)
    ensures grants <= Limited(l, n, span, lag)
  {
    SumIsProduct(n + 1, l.burst as real);
    SumIsProduct(n, lag);
    InTime(grants, Sum(n + 1, l.burst as real), total, span + Sum(n, lag), l.rate);
  }

  /**
   Rate safety over all interleavings. When the timestamps of LoadOrStore lie in a window and lag by
   at most `lag`, a key is granted at most one burst more per Delete of it, and the rate for the
   length of the window and one lag per Delete.
   */
  lemma {:induction false} RacySafety(l: Limit, steps: seq<Step>, key: string, from: real, to: real, lag: real)
    requires l.rate > 0.0 && lag >= 0.0 && from <= to && IsRun(l, NewWorld, steps)
    requires LoadsWithin(steps, from, to) && LoadsLag(steps, from, lag)
    ensures if l.burst < 1 then GrantCount(l, steps, key) == 0
            else GrantCount(l, steps, key) as real <= Limited(l, DeletesOf(steps, key), to - from, lag)
  {
    if l.burst < 1 {
      NoGrants(l, Exec(l, NewWorld, steps).served, key);
    } else {
      var extra, total := RunTotal(l, steps, key, from, to, lag);
      SumsLimited(l, GrantCount(l, steps, key) as real, DeletesOf(steps, key), extra, total, to - from, lag);
    }
  }

  lemma {:induction false} WindowLags(steps: seq<Step>, clock: real, from: real, to: real)
    requires clock <= to && LoadsWithin(steps, from, to)
    ensures LoadsLag(steps, clock, to - from)
    decreases |steps|
  {
    if steps != [] {
      assert LoadsWithin(steps[1..], from, to);
      WindowLags(steps[1..], LoadClock(clock, steps[0]), from, to);
    }
  }

  /** Timestamps in any order lag by no more than the window is long. */
  lemma {:induction false} RacySafetyAnyOrder(l: Limit, steps: seq<Step>, key: string, from: real, to: real)
    requires l.rate > 0.0 && from <= to && IsRun(l, NewWorld, steps) && LoadsWithin(steps, from, to)
    ensures if l.burst < 1 then GrantCount(l, steps, key) == 0
            else GrantCount(l, steps, key) as real <= Limited(l, DeletesOf(steps, key), to - from, to - from)
  {
    WindowLags(steps, from, from, to);
    RacySafety(l, steps, key, from, to, to - from);
  }
}
