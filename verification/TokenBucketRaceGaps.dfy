/**
 The three gaps of the store that its synchronisation leaves open. Each of them alone, with everything
 else in order, lets some run depart from the history specification, for every burst of at least 1.
 */
module TokenBucketRaceGaps {
  import opened Masks
  import opened TokenBucket
  import opened TokenBucketHistory
  import opened TokenBucketRuns
  import opened TokenBucketBursts
  import opened TokenBucketClients
  import opened TokenBucketRaces
  import opened TokenBucketLinear

  datatype Gap =
    | HeldCall      // between LoadOrStore and the locked section
    | LateDelete    // between the staleness check and the Delete
    | LateCreator   // a call other than the creator takes the lock first

  function Stamp(s: Step): real {
    match s
    case Load(_, now) => now
    case Take(c) => c.now
    case Check(_, tick) => tick
    case Delete(v) => v.tick
  }

  ghost predicate InOrder(steps: seq<Step>) {
    forall i, j :: 0 <= i < j < |steps| ==> Stamp(steps[i]) <= Stamp(steps[j])
  }

  /**
   Whether a step keeps the other gaps shut: a positive check is followed by its Delete at once, a
   LoadOrStore by its locked section, or nothing is deleted.
   */
  ghost predicate Shut(gap: Gap, w: World, s: Step) {
    match gap
    case HeldCall => !s.Delete? ==> w.visits == multiset{}
    case LateDelete => !s.Take? ==> w.calls == multiset{}
    case LateCreator => !s.Delete?
  }

  ghost predicate AllShut(l: Limit, gap: Gap, w: World, steps: seq<Step>)
    decreases |steps|
  {
    steps != [] ==> Shut(gap, w, steps[0]) && AllShut(l, gap, Act(l, w, steps[0]), steps[1..])
  }

  /** The run has no other irregularity than this gap. */
  ghost predicate Only(l: Limit, gap: Gap, steps: seq<Step>) {
    IsRun(l, NewWorld, steps) && AllShut(l, gap, NewWorld, steps) && (gap != LateCreator ==> InOrder(steps))
  }

  ghost predicate GrantsAsSpecified(l: Limit, steps: seq<Step>, key: string) {
    var served := Exec(l, NewWorld, steps).served;
    GrantsTo(l, served, key) == Granted(l, TakesOf(served, key))
  }

  ghost predicate AlwaysAsSpecified(l: Limit, gap: Gap) {
    forall steps: seq<Step>, key: string :: Only(l, gap, steps) ==> GrantsAsSpecified(l, steps, key)
  }

  lemma {:induction false} ShutConcat(l: Limit, gap: Gap, w: World, a: seq<Step>, b: seq<Step>)
    requires AllShut(l, gap, w, a) && AllShut(l, gap, Exec(l, w, a), b)
    ensures AllShut(l, gap, w, a + b)
    decreases |a|
  {
    if a == [] {
      assert a + b == b;
    } else {
      var w' := Act(l, w, a[0]);
      assert (a + b)[0] == a[0] && (a + b)[1..] == a[1..] + b;
      assert Exec(l, w, a) == Exec(l, w', a[1..]);
      ShutConcat(l, gap, w', a[1..], b);
    }
  }

  // ---- Calls that are granted one after the other ----

  /** n calls of `Allow` one after the other, all served by the same object. */
  function Again(key: string, id: nat, t: real, n: nat): seq<Step> {
    if n == 0 then [] else AllowSteps(key, id, t) + Again(key, id, t, n - 1)
  }

  /** What n calls for a key at t leave when all are granted. */
  ghost predicate Granting(l: Limit, w: World, w': World, key: string, t: real, n: nat) {
    && w'.store == w.store[key := IdOf(w, key)] && w'.visits == w.visits && w'.calls == w.calls
    && Kept(w, w', key) && Told(l, w, w', key, t, n)
  }

  /** The other objects are as they were. */
  ghost predicate Kept(w: World, w': World, key: string) {
    && |w'.entries| == (if key in w.store then |w.entries| else |w.entries| + 1)
    && forall i :: 0 <= i < |w.entries| && i != IdOf(w, key) ==> w'.entries[i] == w.entries[i]
  }

  ghost predicate Told(l: Limit, w: World, w': World, key: string, t: real, n: nat) {
    && TakesOf(w'.served, key) == TakesOf(w.served, key) + Same(t, n)
    && GrantsTo(l, w'.served, key) == GrantsTo(l, w.served, key) + All(n)
  }

  lemma {:induction false} ToldAdd(l: Limit, a: World, b: World, c: World, key: string, t: real, m: nat, n: nat)
    requires Told(l, a, b, key, t, m) && Told(l, b, c, key, t, n)
    ensures Told(l, a, c, key, t, m + n)
  {
    assert Same(t, m) + Same(t, n) == Same(t, m + n);
    assert All(m) + All(n) == All(m + n);
    Regrouped(TakesOf(a.served, key), Same(t, m), Same(t, n));
    Regrouped(GrantsTo(l, a.served, key), All(m), All(n));
  }

  lemma {:induction false} GrantingAdd(l: Limit, a: World, b: World, c: World, key: string, t: real, m: nat, n: nat)
    requires Granting(l, a, b, key, t, m) && Granting(l, b, c, key, t, n)
    ensures Granting(l, a, c, key, t, m + n)
  {
    ToldAdd(l, a, b, c, key, t, m, n);
    assert IdOf(b, key) == IdOf(a, key);
  }

  lemma {:induction false} OneTold(l: Limit, w: World, key: string, t: real)
    requires StoreLinked(w) && Admits(l, Loaded(l, View(w), key, t), t)
    ensures Told(l, w, Exec(l, w, AllowSteps(key, IdOf(w, key), t)), key, t, 1)
  {
    var found := Served(key, Loaded(l, View(w), key, t), t);
    SerialServed(l, w, key, t);
    SeenAppend(l, w.served, found, key);
    assert Same(t, 1) == [t] && All(1) == [true];
  }

  lemma {:induction false} OneGrant(l: Limit, w: World, key: string, t: real)
    requires StoreLinked(w) && Admits(l, Loaded(l, View(w), key, t), t)
    ensures var w' := Exec(l, w, AllowSteps(key, IdOf(w, key), t));
            StoreLinked(w') && Granting(l, w, w', key, t, 1)
  {
    var w1, c := Loads(l, w, key, t), Call(IdOf(w, key), t);
    AllowRuns(l, w, key, t);
    ActLinksStore(l, w, Load(key, t));
    ActLinksStore(l, w1, Take(c));
    OneTold(l, w, key, t);
  }

  lemma {:induction false} NextRefilled(l: Limit, m: Store, key: string, t: real)
    requires Admits(l, Loaded(l, m, key, t), t)
    ensures Refilled(l, Serve(l, m, key, t)[key], t) == Refilled(l, Loaded(l, m, key, t), t) - 1.0
  {
    RefilledAtOnce(l, Loaded(l, m, key, t), t);
  }

  ghost predicate AllGranted(l: Limit, w: World, steps: seq<Step>, key: string, t: real, n: nat) {
    IsRun(l, w, steps) && StoreLinked(Exec(l, w, steps)) && Granting(l, w, Exec(l, w, steps), key, t, n)
  }

  lemma {:induction false} AllGrantedAdd(l: Limit, w: World, a: seq<Step>, b: seq<Step>, key: string, t: real,
                                         m: nat, n: nat)
    requires AllGranted(l, w, a, key, t, m) && AllGranted(l, Exec(l, w, a), b, key, t, n)
    ensures AllGranted(l, w, a + b, key, t, m + n)
  {
    RunConcat(l, w, a, b);
    GrantingAdd(l, w, Exec(l, w, a), Exec(l, Exec(l, w, a), b), key, t, m, n);
  }

  lemma {:induction false} FirstGrant(l: Limit, w: World, key: string, t: real)
    requires StoreLinked(w) && Admits(l, Loaded(l, View(w), key, t), t)
    ensures var w' := Exec(l, w, AllowSteps(key, IdOf(w, key), t));
            && AllGranted(l, w, AllowSteps(key, IdOf(w, key), t), key, t, 1)
            && IdOf(w', key) == IdOf(w, key)
            && Refilled(l, Loaded(l, View(w'), key, t), t) == Refilled(l, Loaded(l, View(w), key, t), t) - 1.0
  {
    AllowRuns(l, w, key, t);
    OneGrant(l, w, key, t);
    SerialView(l, w, key, t);
    NextRefilled(l, View(w), key, t);
  }

  lemma {:induction false} AgainOnce(key: string, id: nat, t: real)
    ensures Again(key, id, t, 1) == AllowSteps(key, id, t)
  {
    assert Again(key, id, t, 0) == [];
  }

  lemma {:induction false} AgainMore(l: Limit, w: World, key: string, t: real, n: nat)
    requires n >= 2 && AllGranted(l, w, AllowSteps(key, IdOf(w, key), t), key, t, 1)
    requires var w' := Exec(l, w, AllowSteps(key, IdOf(w, key), t));
             AllGranted(l, w', Again(key, IdOf(w, key), t, n - 1), key, t, n - 1)
    ensures AllGranted(l, w, Again(key, IdOf(w, key), t, n), key, t, n)
  {
    var id := IdOf(w, key);
    assert Again(key, id, t, n) == AllowSteps(key, id, t) + Again(key, id, t, n - 1);
    AllGrantedAdd(l, w, AllowSteps(key, id, t), Again(key, id, t, n - 1), key, t, 1, n - 1);
  }

  ghost predicate Covers(l: Limit, w: World, key: string, t: real, n: nat) {
    Refilled(l, Loaded(l, View(w), key, t), t) >= n as real
  }

  lemma {:induction false} CoveredNext(l: Limit, w: World, key: string, t: real, n: nat)
    requires StoreLinked(w) && n >= 1 && Covers(l, w, key, t, n)
    ensures var w' := Exec(l, w, AllowSteps(key, IdOf(w, key), t));
            && AllGranted(l, w, AllowSteps(key, IdOf(w, key), t), key, t, 1)
            && StoreLinked(w') && IdOf(w', key) == IdOf(w, key) && Covers(l, w', key, t, n - 1)
  {
    FirstGrant(l, w, key, t);
  }

  /** Calls that the tokens cover are all granted. */
  lemma {:induction false} AgainGrants(l: Limit, w: World, key: string, t: real, n: nat)
    requires StoreLinked(w) && n >= 1 && Covers(l, w, key, t, n)
    ensures AllGranted(l, w, Again(key, IdOf(w, key), t, n), key, t, n)
    decreases n
  {
    CoveredNext(l, w, key, t, n);
    if n == 1 {
      AgainOnce(key, IdOf(w, key), t);
    } else {
      AgainGrants(l, Exec(l, w, AllowSteps(key, IdOf(w, key), t)), key, t, n - 1);
      AgainMore(l, w, key, t, n);
    }
  }

  lemma {:induction false} AllowShut(l: Limit, gap: Gap, w: World, key: string, t: real)
    requires if gap == LateDelete then w.calls == multiset{} else w.visits == multiset{}
    ensures AllShut(l, gap, w, AllowSteps(key, IdOf(w, key), t))
  {
    var steps := AllowSteps(key, IdOf(w, key), t);
    assert steps[1..] == [steps[1]] && steps[1..][1..] == [];
    assert AllShut(l, gap, Act(l, w, steps[0]), [steps[1]]);
  }

  lemma {:induction false} AllowKeeps(l: Limit, w: World, key: string, t: real)
    requires StoreLinked(w)
    ensures var w' := Exec(l, w, AllowSteps(key, IdOf(w, key), t));
            StoreLinked(w') && w'.calls == w.calls && w'.visits == w.visits && IdOf(w', key) == IdOf(w, key)
  {
    AllowRuns(l, w, key, t);
    ActLinksStore(l, w, Load(key, t));
    ActLinksStore(l, Loads(l, w, key, t), Take(Call(IdOf(w, key), t)));
  }

  /** Calls in a row open no other gap. */
  lemma {:induction false} AgainShut(l: Limit, gap: Gap, w: World, key: string, t: real, n: nat)
    requires StoreLinked(w)
    requires if gap == LateDelete then w.calls == multiset{} else w.visits == multiset{}
    ensures AllShut(l, gap, w, Again(key, IdOf(w, key), t, n))
    decreases n
  {
    if n > 0 {
      var first := AllowSteps(key, IdOf(w, key), t);
      var w1 := Exec(l, w, first);
      AllowShut(l, gap, w, key, t);
      AllowKeeps(l, w, key, t);
      AgainShut(l, gap, w1, key, t, n - 1);
      ShutConcat(l, gap, w, first, Again(key, IdOf(w, key), t, n - 1));
    }
  }

  ghost predicate AllAt(steps: seq<Step>, t: real) {
    forall i :: 0 <= i < |steps| ==> Stamp(steps[i]) == t
  }

  lemma {:induction false} AgainAt(key: string, id: nat, t: real, n: nat)
    ensures AllAt(Again(key, id, t, n), t)
    decreases n
  {
    if n > 0 {
      AgainAt(key, id, t, n - 1);
    }
  }

  lemma {:induction false} TwoMoments(a: seq<Step>, b: seq<Step>, t: real)
    requires AllAt(a, 0.0) && AllAt(b, t) && t >= 0.0
    ensures InOrder(a + b)
  {
  }

  /** The steps are possible and open no other gap. */
  ghost predicate Runs(l: Limit, gap: Gap, w: World, steps: seq<Step>) {
    IsRun(l, w, steps) && AllShut(l, gap, w, steps)
  }

  lemma {:induction false} RunsConcat(l: Limit, gap: Gap, w: World, a: seq<Step>, b: seq<Step>)
    requires Runs(l, gap, w, a) && Runs(l, gap, Exec(l, w, a), b)
    ensures Runs(l, gap, w, a + b) && Exec(l, w, a + b) == Exec(l, Exec(l, w, a), b)
  {
    RunConcat(l, w, a, b);
    ShutConcat(l, gap, w, a, b);
  }

  lemma {:induction false} RunsStep(l: Limit, gap: Gap, w: World, steps: seq<Step>, s: Step)
    requires Runs(l, gap, w, steps) && Enabled(Exec(l, w, steps), s) && Shut(gap, Exec(l, w, steps), s)
    ensures Runs(l, gap, w, steps + [s]) && Exec(l, w, steps + [s]) == Act(l, Exec(l, w, steps), s)
  {
    var w' := Exec(l, w, steps);
    OneStep(l, w', s);
    assert [s][1..] == [];
    assert AllShut(l, gap, w', [s]);
    RunsConcat(l, gap, w, steps, [s]);
  }

  lemma {:induction false} AgainRuns(l: Limit, gap: Gap, w: World, key: string, t: real, n: nat)
    requires StoreLinked(w) && n >= 1 && Refilled(l, Loaded(l, View(w), key, t), t) >= n as real
    requires if gap == LateDelete then w.calls == multiset{} else w.visits == multiset{}
    ensures var steps := Again(key, IdOf(w, key), t, n);
            && Runs(l, gap, w, steps)
            && StoreLinked(Exec(l, w, steps)) && Granting(l, w, Exec(l, w, steps), key, t, n)
  {
    AgainGrants(l, w, key, t, n);
    AgainShut(l, gap, w, key, t, n);
  }

  // ---- The runs ----

  /** A request at 0 creates the bucket and leaves all tokens but one. */
  function Opening(key: string): seq<Step> {
    Again(key, 0, 0.0, 1)
  }

  ghost predicate Opened(l: Limit, w: World, key: string) {
    && w.store == map[key := 0] && |w.entries| == 1 && w.calls == multiset{} && w.visits == multiset{}
    && w.entries[0].key == key && w.entries[0].bucket == Bucket(l.burst as real - 1.0, 0.0, 0.0)
    && TakesOf(w.served, key) == [0.0] && GrantsTo(l, w.served, key) == [true]
  }

  lemma {:induction false} FirstSpend(l: Limit)
    requires l.burst >= 1
    ensures Spend(l, FullBucket(l, 0.0), 0.0) == Bucket(l.burst as real - 1.0, 0.0, 0.0)
  {
    FullRefilled(l, 0.0);
  }

  lemma {:induction false} OpeningRuns(l: Limit, gap: Gap, key: string) returns (w: World)
    requires l.burst >= 1
    ensures Runs(l, gap, NewWorld, Opening(key)) && w == Exec(l, NewWorld, Opening(key)) && Opened(l, w, key)
  {
    var first := AllowSteps(key, 0, 0.0);
    FullRefilled(l, 0.0);
    assert View(NewWorld) == map[];
    AgainRuns(l, gap, NewWorld, key, 0.0, 1);
    assert Again(key, 0, 0.0, 0) == [] && first + [] == first;
    SerialView(l, NewWorld, key, 0.0);
    FirstSpend(l);
    w := Exec(l, NewWorld, first);
    assert w.entries[0].bucket == View(w)[key];
    assert [] + Same(0.0, 1) == [0.0] && [] + All(1) == [true];
  }

  lemma {:induction false} FullAgain(l: Limit, t: real)
    requires t * l.rate >= 1.0
    ensures Refilled(l, Bucket(l.burst as real - 1.0, 0.0, 0.0), t) == l.burst as real
  {
  }

  /** The bucket is found stale, is used up before the Delete, and is replaced by a full one. */
  function LateSteps(l: Limit, key: string, t: real): seq<Step>
    requires l.burst >= 1
  {
    [Check(0, t)] + Again(key, 0, t, l.burst) + [Delete(Visit(key, t))] + Again(key, 1, t, l.burst)
  }

  lemma {:induction false} UsedUp(l: Limit, w: World, key: string, t: real) returns (w': World)
    requires l.burst >= 1 && t > MAX_AGE && t * l.rate >= 1.0 && Opened(l, w, key)
    ensures var steps := [Check(0, t)] + Again(key, 0, t, l.burst);
            Runs(l, LateDelete, w, steps) && w' == Exec(l, w, steps)
    ensures w'.store == map[key := 0] && |w'.entries| == 1 && StoreLinked(w')
    ensures w'.calls == multiset{} && w'.visits == multiset{Visit(key, t)} && Told(l, w, w', key, t, l.burst)
  {
    assert IsRun(l, w, []) && AllShut(l, LateDelete, w, []);
    RunsStep(l, LateDelete, w, [], Check(0, t));
    assert [] + [Check(0, t)] == [Check(0, t)];
    var w1 := Checks(w, 0, t);
    FullAgain(l, t);
    assert View(w1)[key] == w.entries[0].bucket;
    AgainRuns(l, LateDelete, w1, key, t, l.burst);
    RunsConcat(l, LateDelete, w, [Check(0, t)], Again(key, 0, t, l.burst));
    w' := Exec(l, w1, Again(key, 0, t, l.burst));
  }

  lemma {:induction false} Renewed(l: Limit, gap: Gap, w: World, key: string, t: real)
    requires l.burst >= 1 && w.store == map[] && |w.entries| == 1
    requires if gap == LateDelete then w.calls == multiset{} else w.visits == multiset{}
    ensures var steps := Again(key, 1, t, l.burst);
            Runs(l, gap, w, steps) && Granting(l, w, Exec(l, w, steps), key, t, l.burst)
  {
    FullRefilled(l, t);
    assert key !in View(w);
    AgainRuns(l, gap, w, key, t, l.burst);
  }

  lemma {:induction false} LateRuns(l: Limit, w: World, key: string, t: real)
    requires l.burst >= 1 && t > MAX_AGE && t * l.rate >= 1.0 && Opened(l, w, key)
    ensures Runs(l, LateDelete, w, LateSteps(l, key, t))
    ensures Told(l, w, Exec(l, w, LateSteps(l, key, t)), key, t, 2 * l.burst)
  {
    var used, v := [Check(0, t)] + Again(key, 0, t, l.burst), Visit(key, t);
    var w1 := UsedUp(l, w, key, t);
    RunsStep(l, LateDelete, w, used, Delete(v));
    var w2 := Deletes(w1, v);
    Renewed(l, LateDelete, w2, key, t);
    RunsConcat(l, LateDelete, w, used + [Delete(v)], Again(key, 1, t, l.burst));
    ToldAdd(l, w, w2, Exec(l, w2, Again(key, 1, t, l.burst)), key, t, l.burst, l.burst);
  }

  /** A call holds the bucket while it is found stale, deleted at once, and replaced by a full one. */
  function HeldSteps(l: Limit, key: string, t: real): seq<Step>
    requires l.burst >= 1
  {
    [Load(key, t)] + [Check(0, t)] + [Delete(Visit(key, t))] + Again(key, 1, t, l.burst) + [Take(Call(0, t))]
  }

  lemma {:induction false} Orphaned(l: Limit, w: World, key: string, t: real) returns (w': World)
    requires l.burst >= 1 && t > MAX_AGE && Opened(l, w, key)
    ensures var steps := [Load(key, t)] + [Check(0, t)] + [Delete(Visit(key, t))];
            Runs(l, HeldCall, w, steps) && w' == Exec(l, w, steps)
    ensures w'.store == map[] && w'.entries == w.entries && w'.served == w.served
    ensures w'.calls == multiset{Call(0, t)} && w'.visits == multiset{}
  {
    var v := Visit(key, t);
    assert IsRun(l, w, []) && AllShut(l, HeldCall, w, []);
    RunsStep(l, HeldCall, w, [], Load(key, t));
    assert [] + [Load(key, t)] == [Load(key, t)];
    RunsStep(l, HeldCall, w, [Load(key, t)], Check(0, t));
    RunsStep(l, HeldCall, w, [Load(key, t)] + [Check(0, t)], Delete(v));
    w' := Deletes(Checks(Loads(l, w, key, t), 0, t), v);
  }

  lemma {:induction false} HeldTold(l: Limit, w: World, key: string, t: real)
    requires |w.entries| >= 1 && w.entries[0].key == key && Admits(l, w.entries[0].bucket, t)
    ensures Told(l, w, Takes(l, w, Call(0, t)), key, t, 1)
  {
    SeenAppend(l, w.served, Served(key, w.entries[0].bucket, t), key);
    assert Same(t, 1) == [t] && All(1) == [true];
  }

  lemma {:induction false} HeldRuns(l: Limit, w: World, key: string, t: real)
    requires l.burst >= 1 && t > MAX_AGE && t * l.rate >= 1.0 && Opened(l, w, key)
    ensures Runs(l, HeldCall, w, HeldSteps(l, key, t))
    ensures Told(l, w, Exec(l, w, HeldSteps(l, key, t)), key, t, l.burst + 1)
  {
    var gone, again := [Load(key, t)] + [Check(0, t)] + [Delete(Visit(key, t))], Again(key, 1, t, l.burst);
    var w1 := Orphaned(l, w, key, t);
    Renewed(l, HeldCall, w1, key, t);
    RunsConcat(l, HeldCall, w, gone, again);
    var w2 := Exec(l, w1, again);
    assert w2.entries[0] == w.entries[0];
    RunsStep(l, HeldCall, w, gone + again, Take(Call(0, t)));
    FullAgain(l, t);
    HeldTold(l, w2, key, t);
    ToldAdd(l, w1, w2, Takes(l, w2, Call(0, t)), key, t, l.burst, 1);
  }

  // ---- ... and what the specification says of them ----

  /** After a request at 0, the specification does not grant more than a burst at t. */
  lemma {:induction false} BurstExceeded(l: Limit, t: real, n: nat)
    requires l.rate > 0.0 && n >= 1 && n > l.burst
    ensures Granted(l, [0.0] + Same(t, n)) != [true] + All(n)
  {
    var first, burst := [Request("", 0.0)], Burst("", t, n);
    var m := StoreAfter(l, map[], first);
    UncoveredBurst(l, m, "", t, n);
    DecisionsConcat(l, map[], first, burst);
    OneKey(l, map[], first + burst, "");
    TimesConcat(first, burst, "");
    BurstTimes("", t, n);
    assert first[1..] == [] && TimesOf(first, "") == [0.0];
    StoreMeetsSpecification(l, first + burst, "");
    var ds := Decisions(l, map[], first + burst);
    assert |ds| == n + 1 && !ds[n].allowed;
    assert Flags(ds)[n] == false && ([true] + All(n))[n];
  }

  /** A time at which the bucket is stale and full again. */
  lemma {:induction false} StaleTime(l: Limit) returns (t: real)
    requires l.rate > 0.0
    ensures t > MAX_AGE && t * l.rate >= 1.0
  {
    var fill := 1.0 / l.rate;
    assert fill * l.rate == 1.0;
    t := MAX_AGE + 1.0 + fill;
    assert (MAX_AGE + 1.0) * l.rate > 0.0;
    assert t * l.rate == (MAX_AGE + 1.0) * l.rate + fill * l.rate;
  }

  lemma {:induction false} LateInOrder(l: Limit, key: string, t: real)
    requires l.burst >= 1 && t >= 0.0
    ensures InOrder(Opening(key) + LateSteps(l, key, t))
  {
    AgainAt(key, 0, 0.0, 1);
    AgainAt(key, 0, t, l.burst);
    AgainAt(key, 1, t, l.burst);
    TwoMoments(Opening(key), LateSteps(l, key, t), t);
  }

  lemma {:induction false} HeldInOrder(l: Limit, key: string, t: real)
    requires l.burst >= 1 && t >= 0.0
    ensures InOrder(Opening(key) + HeldSteps(l, key, t))
  {
    AgainAt(key, 0, 0.0, 1);
    AgainAt(key, 1, t, l.burst);
    TwoMoments(Opening(key), HeldSteps(l, key, t), t);
  }

  /**
   A call that is served between the staleness check and the Delete: all of two bursts at one moment
   are granted, with timestamps in order and every call undivided.
   */
  lemma {:induction false} LateDeleteGrants(l: Limit, key: string, t: real)
    requires l.burst >= 1 && t > MAX_AGE && t * l.rate >= 1.0
    ensures var steps := Opening(key) + LateSteps(l, key, t);
            var served := Exec(l, NewWorld, steps).served;
            && Only(l, LateDelete, steps)
            && TakesOf(served, key) == [0.0] + Same(t, 2 * l.burst)
            && GrantsTo(l, served, key) == [true] + All(2 * l.burst)
  {
    var w := OpeningRuns(l, LateDelete, key);
    LateRuns(l, w, key, t);
    LateInOrder(l, key, t);
    RunsConcat(l, LateDelete, NewWorld, Opening(key), LateSteps(l, key, t));
  }

  /**
   A call that holds the bucket when it is deleted: one request more than a burst is granted at one
   moment, with timestamps in order and every cleanup visit undivided.
   */
  lemma {:induction false} HeldCallGrants(l: Limit, key: string, t: real)
    requires l.burst >= 1 && t > MAX_AGE && t * l.rate >= 1.0
    ensures var steps := Opening(key) + HeldSteps(l, key, t);
            var served := Exec(l, NewWorld, steps).served;
            && Only(l, HeldCall, steps)
            && TakesOf(served, key) == [0.0] + Same(t, l.burst + 1)
            && GrantsTo(l, served, key) == [true] + All(l.burst + 1)
  {
    var w := OpeningRuns(l, HeldCall, key);
    HeldRuns(l, w, key, t);
    HeldInOrder(l, key, t);
    RunsConcat(l, HeldCall, NewWorld, Opening(key), HeldSteps(l, key, t));
  }

  /** The bucket is stored by a call at `late`, and a call at 0 takes the lock first. */
  function CreatorSteps(key: string, late: real): seq<Step> {
    [Load(key, late)] + [Load(key, 0.0)] + [Take(Call(0, 0.0))]
  }

  lemma {:induction false} CreatorRuns(l: Limit, key: string, late: real)
    ensures var w := Exec(l, NewWorld, CreatorSteps(key, late));
            && Only(l, LateCreator, CreatorSteps(key, late))
            && w.served == [Served(key, FullBucket(l, late), 0.0)]
  {
    assert IsRun(l, NewWorld, []) && AllShut(l, LateCreator, NewWorld, []);
    RunsStep(l, LateCreator, NewWorld, [], Load(key, late));
    assert [] + [Load(key, late)] == [Load(key, late)];
    RunsStep(l, LateCreator, NewWorld, [Load(key, late)], Load(key, 0.0));
    RunsStep(l, LateCreator, NewWorld, [Load(key, late)] + [Load(key, 0.0)], Take(Call(0, 0.0)));
  }

  lemma {:induction false} EmptyAtZero(l: Limit, late: real)
    requires late * l.rate == l.burst as real
    ensures !Admits(l, FullBucket(l, late), 0.0)
  {
    assert (0.0 - late) * l.rate == -(late * l.rate);
  }

  /** A call that creates the bucket but does not lock it first: a first request is refused. */
  lemma {:induction false} LateCreatorRefuses(l: Limit, key: string) returns (late: real)
    requires l.rate > 0.0 && l.burst >= 1
    ensures var steps := CreatorSteps(key, late);
            var served := Exec(l, NewWorld, steps).served;
            && Only(l, LateCreator, steps)
            && TakesOf(served, key) == [0.0] && GrantsTo(l, served, key) == [false] && Granted(l, [0.0]) == [true]
  {
    late := l.burst as real / l.rate;
    CreatorRuns(l, key, late);
    EmptyAtZero(l, late);
    SeenAppend(l, [], Served(key, FullBucket(l, late), 0.0), key);
    assert [] + [Served(key, FullBucket(l, late), 0.0)] == [Served(key, FullBucket(l, late), 0.0)];
    FirstGranted(l);
  }

  lemma {:induction false} FirstGranted(l: Limit)
    requires l.burst >= 1
    ensures Granted(l, [0.0]) == [true]
  {
    BucketMeetsSpecification(l, 0.0, [0.0]);
    AfterAppend(l, 0.0, [], 0.0);
    assert [] + [0.0] == [0.0];
    FullAdmits(l, 0.0);
  }

  lemma {:induction false} NothingTold(l: Limit, served: seq<Served>, key: string)
    requires l.burst < 1
    ensures forall i :: 0 <= i < |GrantsTo(l, served, key)| ==> !GrantsTo(l, served, key)[i]
  {
    if served != [] {
      NothingTold(l, served[..|served| - 1], key);
    }
  }

  lemma {:induction false} HeldCallDeparts(l: Limit, t: real)
    requires l.rate > 0.0 && l.burst >= 1 && t > MAX_AGE && t * l.rate >= 1.0
    ensures !AlwaysAsSpecified(l, HeldCall)
  {
    HeldCallGrants(l, "client", t);
    BurstExceeded(l, t, l.burst + 1);
    assert !GrantsAsSpecified(l, Opening("client") + HeldSteps(l, "client", t), "client");
  }

  lemma {:induction false} LateDeleteDeparts(l: Limit, t: real)
    requires l.rate > 0.0 && l.burst >= 1 && t > MAX_AGE && t * l.rate >= 1.0
    ensures !AlwaysAsSpecified(l, LateDelete)
  {
    LateDeleteGrants(l, "client", t);
    BurstExceeded(l, t, 2 * l.burst);
    assert !GrantsAsSpecified(l, Opening("client") + LateSteps(l, "client", t), "client");
  }

  lemma {:induction false} LateCreatorDeparts(l: Limit)
    requires l.rate > 0.0 && l.burst >= 1
    ensures !AlwaysAsSpecified(l, LateCreator)
  {
    var late := LateCreatorRefuses(l, "client");
    assert !GrantsAsSpecified(l, CreatorSteps("client", late), "client");
  }

  /**
   Over all runs with only this gap, every key is granted what the history specification grants if
   and only if nothing can be granted at all. This holds for each of the three gaps.
   */
  lemma {:induction false} AlwaysAsSpecifiedIff(l: Limit, gap: Gap)
    requires l.rate > 0.0
    ensures AlwaysAsSpecified(l, gap) <==> l.burst < 1
  {
    if l.burst < 1 {
      forall steps: seq<Step>, key: string ensures GrantsAsSpecified(l, steps, key) {
        var served := Exec(l, NewWorld, steps).served;
        NothingTold(l, served, key);
        NothingSpecified(l, TakesOf(served, key));
      }
    } else {
      var t := StaleTime(l);
      match gap
      case HeldCall => HeldCallDeparts(l, t);
      case LateDelete => LateDeleteDeparts(l, t);
      case LateCreator => LateCreatorDeparts(l);
    }
  }

  /** With no Delete of the key and the creation not later than the first locked call, none is open. */
  lemma {:induction false} UndeletedAsSpecified(l: Limit, steps: seq<Step>, key: string)
    requires l.rate > 0.0 && IsRun(l, NewWorld, steps) && DeletesOf(steps, key) == 0
    requires var takes := TakesOf(Exec(l, NewWorld, steps).served, key);
             takes != [] ==> FirstLoad(steps, key) <= takes[0]
    ensures GrantsAsSpecified(l, steps, key)
  {
    UndeletedMeetsSpecification(l, steps, key);
    EarlyGranted(l, FirstLoad(steps, key), TakesOf(Exec(l, NewWorld, steps).served, key));
  }
}
