/**
 The store at the grain of its synchronisation. `Allow` is a LoadOrStore and then a locked section;
 a cleanup visit is a locked staleness check and then a Delete by key, which removes whatever bucket
 the key has by then. The four kinds of step interleave in any order.
 */
module TokenBucketRaces {
  import opened TokenBucket
  import opened TokenBucketHistory

  /** A bucket object, with what an observer of its locked sections has seen of it. */
  datatype Entry = Entry(key: string, created: real, bucket: Bucket, takes: seq<real>, admitted: seq<bool>)

  /** An `Allow` call that holds a bucket and has not locked it yet. */
  datatype Call = Call(id: nat, now: real)

  /** A cleanup visit that found the key's bucket stale and has not deleted it yet. */
  datatype Visit = Visit(key: string, tick: real)

  /** What a locked section found: the bucket and the time that decide the call. */
  datatype Served = Served(key: string, bucket: Bucket, now: real)

  /** Objects are never forgotten: a call may hold one that the store no longer has. */
  datatype World = World(
    entries: seq<Entry>,
    store: map<string, nat>,
    calls: multiset<Call>,
    visits: multiset<Visit>,
    served: seq<Served>)         // in lock order

  datatype Step =
    | Load(key: string, now: real)
    | Take(call: Call)
    | Check(id: nat, tick: real)
    | Delete(visit: Visit)

  const NewWorld: World := World([], map[], multiset{}, multiset{}, [])

  predicate Enabled(w: World, s: Step) {
    match s
    case Load(_, _) => true
    case Take(c) => c in w.calls
    case Check(id, _) => id < |w.entries|
    case Delete(v) => v in w.visits
  }

  function NewEntry(l: Limit, key: string, now: real): Entry {
    Entry(key, now, FullBucket(l, now), [], [false])
  }

  function Taken(l: Limit, e: Entry, now: real): Entry {
    e.(bucket := Spend(l, e.bucket, now), takes := e.takes + [now],
       admitted := e.admitted + [Admits(l, e.bucket, now)])
  }

  function Loads(l: Limit, w: World, key: string, now: real): World {
    if key in w.store then w.(calls := w.calls + multiset{Call(w.store[key], now)})
    else
      var id := |w.entries|;
      w.(entries := w.entries + [NewEntry(l, key, now)], store := w.store[key := id],
         calls := w.calls + multiset{Call(id, now)})
  }

  function Takes(l: Limit, w: World, c: Call): World {
    if c.id < |w.entries| then
      var e := w.entries[c.id];
      w.(entries := w.entries[c.id := Taken(l, e, c.now)], calls := w.calls - multiset{c},
         served := w.served + [Served(e.key, e.bucket, c.now)])
    else w
  }

  function Checks(w: World, id: nat, tick: real): World {
    if id < |w.entries| && w.entries[id].bucket.lastAccess < tick - MAX_AGE then
      w.(visits := w.visits + multiset{Visit(w.entries[id].key, tick)})
    else w
  }

  /** Whatever object the key has by now is removed. */
  function Deletes(w: World, v: Visit): World {
    w.(store := w.store - {v.key}, visits := w.visits - multiset{v})
  }

  function Act(l: Limit, w: World, s: Step): World {
    match s
    case Load(key, now) => Loads(l, w, key, now)
    case Take(c) => Takes(l, w, c)
    case Check(id, tick) => Checks(w, id, tick)
    case Delete(v) => Deletes(w, v)
  }

  function Exec(l: Limit, w: World, steps: seq<Step>): World
    decreases |steps|
  {
    if steps == [] then w else Exec(l, Act(l, w, steps[0]), steps[1..])
  }

  /** Every step is possible when its turn comes. */
  ghost predicate IsRun(l: Limit, w: World, steps: seq<Step>)
    decreases |steps|
  {
    steps != [] ==> Enabled(w, steps[0]) && IsRun(l, Act(l, w, steps[0]), steps[1..])
  }

  lemma {:induction false} RunConcat(l: Limit, w: World, a: seq<Step>, b: seq<Step>)
    ensures IsRun(l, w, a + b) <==> IsRun(l, w, a) && IsRun(l, Exec(l, w, a), b)
    ensures Exec(l, w, a + b) == Exec(l, Exec(l, w, a), b)
    decreases |a|
  {
    if a == [] {
      assert a + b == b;
    } else {
      assert (a + b)[1..] == a[1..] + b;
      RunConcat(l, Act(l, w, a[0]), a[1..], b);
    }
  }

  lemma {:induction false} OneStep(l: Limit, w: World, s: Step)
    ensures IsRun(l, w, [s]) <==> Enabled(w, s)
    ensures Exec(l, w, [s]) == Act(l, w, s)
  {
    assert [s][1..] == [];
  }

  lemma {:induction false} TwoSteps(l: Limit, w: World, a: Step, b: Step)
    requires Enabled(w, a) && Enabled(Act(l, w, a), b)
    ensures IsRun(l, w, [a, b]) && Exec(l, w, [a, b]) == Act(l, Act(l, w, a), b)
  {
    OneStep(l, w, a);
    OneStep(l, Act(l, w, a), b);
    RunConcat(l, w, [a], [b]);
    assert [a] + [b] == [a, b];
  }

  // ---- The store and the calls refer to existing objects ----

  ghost predicate StoreLinked(w: World) {
    forall k :: k in w.store ==> w.store[k] < |w.entries| && w.entries[w.store[k]].key == k
  }

  ghost predicate CallsLinked(w: World) {
    forall c :: c in w.calls ==> c.id < |w.entries|
  }

  ghost predicate Linked(w: World) {
    StoreLinked(w) && CallsLinked(w)
  }

  /** Objects stay, with their keys. */
  ghost predicate Extends(a: seq<Entry>, b: seq<Entry>) {
    |a| <= |b| && forall i :: 0 <= i < |a| ==> b[i].key == a[i].key
  }

  lemma {:induction false} ActExtends(l: Limit, w: World, s: Step)
    ensures Extends(w.entries, Act(l, w, s).entries)
  {
  }

  lemma {:induction false} ActLinksStore(l: Limit, w: World, s: Step)
    requires StoreLinked(w)
    ensures StoreLinked(Act(l, w, s))
  {
    ActExtends(l, w, s);
  }

  lemma {:induction false} ActLinksCalls(l: Limit, w: World, s: Step)
    requires Linked(w)
    ensures CallsLinked(Act(l, w, s))
  {
    var w' := Act(l, w, s);
    ActExtends(l, w, s);
    forall c | c in w'.calls && c !in w.calls ensures c.id < |w'.entries| {
      assert s.Load?;
    }
  }

  lemma {:induction false} ActLinks(l: Limit, w: World, s: Step)
    requires Linked(w)
    ensures Linked(Act(l, w, s))
  {
    ActLinksStore(l, w, s);
    ActLinksCalls(l, w, s);
  }

  lemma {:induction false} RunLinks(l: Limit, w: World, steps: seq<Step>)
    requires Linked(w)
    ensures Linked(Exec(l, w, steps))
    decreases |steps|
  {
    if steps != [] {
      ActLinks(l, w, steps[0]);
      RunLinks(l, Act(l, w, steps[0]), steps[1..]);
    }
  }

  // ---- Every object meets the specification of its own history ----

  ghost predicate Recorded(l: Limit, e: Entry) {
    e.bucket == After(l, e.created, e.takes) && e.admitted == Admitted(l, e.created, e.takes)
  }

  ghost predicate AllRecorded(l: Limit, w: World) {
    forall i :: 0 <= i < |w.entries| ==> Recorded(l, w.entries[i])
  }

  lemma {:induction false} TakenRecorded(l: Limit, e: Entry, now: real)
    requires Recorded(l, e)
    ensures Recorded(l, Taken(l, e, now))
  {
    AfterAppend(l, e.created, e.takes, now);
  }

  lemma {:induction false} NewRecorded(l: Limit, key: string, now: real)
    ensures Recorded(l, NewEntry(l, key, now))
  {
  }

  lemma {:induction false} ActRecords(l: Limit, w: World, s: Step)
    requires AllRecorded(l, w)
    ensures AllRecorded(l, Act(l, w, s))
  {
    match s
    case Load(key, now) => NewRecorded(l, key, now);
    case Take(c) =>
      if c.id < |w.entries| {
        TakenRecorded(l, w.entries[c.id], c.now);
      }
    case Check(_, _) =>
    case Delete(_) =>
  }

  lemma {:induction false} RunRecords(l: Limit, w: World, steps: seq<Step>)
    requires AllRecorded(l, w)
    ensures AllRecorded(l, Exec(l, w, steps))
    decreases |steps|
  {
    if steps != [] {
      ActRecords(l, w, steps[0]);
      RunRecords(l, Act(l, w, steps[0]), steps[1..]);
    }
  }

  /**
   In every interleaving of loads, locked sections, checks and deletes, each bucket object has
   granted what the specification grants to the requests that locked it, in lock order.
   */
  lemma {:induction false} ObjectsMeetSpecification(l: Limit, steps: seq<Step>, id: nat)
    requires IsRun(l, NewWorld, steps) && id < |Exec(l, NewWorld, steps).entries|
    ensures var e := Exec(l, NewWorld, steps).entries[id];
            e.bucket == After(l, e.created, e.takes) && e.admitted == Specified(l, e.created, e.takes)
  {
    RunRecords(l, NewWorld, steps);
    var e := Exec(l, NewWorld, steps).entries[id];
    assert Recorded(l, e);
    BucketMeetsSpecification(l, e.created, e.takes);
  }

  // ---- A key has at most one object more than it had deletes ----

  function ObjectsOf(entries: seq<Entry>, key: string): nat {
    if entries == [] then 0
    else ObjectsOf(entries[..|entries| - 1], key) + if entries[|entries| - 1].key == key then 1 else 0
  }

  function DeletesOf(steps: seq<Step>, key: string): nat {
    if steps == [] then 0 else (if DeletesKey(steps[0], key) then 1 else 0) + DeletesOf(steps[1..], key)
  }

  predicate DeletesKey(s: Step, key: string) {
    s.Delete? && s.visit.key == key
  }

  lemma {:induction false} SameKeys(a: seq<Entry>, b: seq<Entry>, key: string)
    requires |a| == |b| && forall i :: 0 <= i < |a| ==> a[i].key == b[i].key
    ensures ObjectsOf(a, key) == ObjectsOf(b, key)
    decreases |a|
  {
    if a != [] {
      SameKeys(a[..|a| - 1], b[..|b| - 1], key);
    }
  }

  /** The objects of a key that the store no longer has. */
  function Replaced(w: World, key: string): int {
    ObjectsOf(w.entries, key) - if key in w.store then 1 else 0
  }

  lemma {:induction false} ActObjects(l: Limit, w: World, s: Step, key: string)
    ensures Replaced(Act(l, w, s), key) <= Replaced(w, key) + if DeletesKey(s, key) then 1 else 0
  {
    if s.Load? && s.key !in w.store {
      assert (w.entries + [NewEntry(l, s.key, s.now)])[..|w.entries|] == w.entries;
    } else {
      SameKeys(w.entries, Act(l, w, s).entries, key);
    }
  }

  lemma {:induction false} RunObjects(l: Limit, w: World, steps: seq<Step>, key: string)
    ensures Replaced(Exec(l, w, steps), key) <= Replaced(w, key) + DeletesOf(steps, key)
    decreases |steps|
  {
    if steps != [] {
      ActObjects(l, w, steps[0], key);
      RunObjects(l, Act(l, w, steps[0]), steps[1..], key);
    }
  }

  lemma {:induction false} KeyObjects(l: Limit, steps: seq<Step>, key: string)
    requires IsRun(l, NewWorld, steps)
    ensures ObjectsOf(Exec(l, NewWorld, steps).entries, key) <= DeletesOf(steps, key) + 1
  {
    RunObjects(l, NewWorld, steps, key);
  }

  // ---- What a client sees ----

  /** The timestamps of a key's calls, in lock order. */
  function TakesOf(served: seq<Served>, key: string): seq<real> {
    if served == [] then []
    else
      var last := served[|served| - 1];
      TakesOf(served[..|served| - 1], key) + if last.key == key then [last.now] else []
  }

  /** ... and what they were answered. */
  function GrantsTo(l: Limit, served: seq<Served>, key: string): (flags: seq<bool>)
    ensures |flags| == |TakesOf(served, key)|
  {
    if served == [] then []
    else
      var last := served[|served| - 1];
      GrantsTo(l, served[..|served| - 1], key) + if last.key == key then [Admits(l, last.bucket, last.now)] else []
  }

  lemma {:induction false} SeenAppend(l: Limit, served: seq<Served>, s: Served, key: string)
    ensures TakesOf(served + [s], key) == TakesOf(served, key) + if s.key == key then [s.now] else []
    ensures GrantsTo(l, served + [s], key)
         == GrantsTo(l, served, key) + if s.key == key then [Admits(l, s.bucket, s.now)] else []
  {
    assert (served + [s])[..|served|] == served;
  }

  /** The key has had no object but the one in the store, if any. */
  ghost predicate Sole(w: World, key: string) {
    forall i :: 0 <= i < |w.entries| && w.entries[i].key == key ==> key in w.store && w.store[key] == i
  }

  /** What the client saw of a sole object is the object's own record. */
  ghost predicate Seen(l: Limit, w: World, key: string)
    requires StoreLinked(w)
  {
    if key in w.store then
      var e := w.entries[w.store[key]];
      TakesOf(w.served, key) == e.takes && [false] + GrantsTo(l, w.served, key) == e.admitted
    else TakesOf(w.served, key) == []
  }

  lemma {:induction false} ActSole(l: Limit, w: World, s: Step, key: string)
    requires StoreLinked(w) && Sole(w, key) && !DeletesKey(s, key)
    ensures Sole(Act(l, w, s), key)
  {
    var w' := Act(l, w, s);
    forall i | 0 <= i < |w'.entries| && w'.entries[i].key == key ensures key in w'.store && w'.store[key] == i {
      if i < |w.entries| {
        ActExtends(l, w, s);
        assert key in w.store && w.store[key] == i;
      }
    }
  }

  lemma {:induction false} TakeSeen(l: Limit, w: World, c: Call, key: string)
    requires StoreLinked(w) && Sole(w, key) && Seen(l, w, key) && c.id < |w.entries|
    ensures StoreLinked(Takes(l, w, c)) && Seen(l, Takes(l, w, c), key)
  {
    var e := w.entries[c.id];
    ActLinksStore(l, w, Take(c));
    SeenAppend(l, w.served, Served(e.key, e.bucket, c.now), key);
  }

  lemma {:induction false} ActSeen(l: Limit, w: World, s: Step, key: string)
    requires StoreLinked(w) && Sole(w, key) && Seen(l, w, key) && !DeletesKey(s, key)
    ensures StoreLinked(Act(l, w, s)) && Seen(l, Act(l, w, s), key)
  {
    ActLinksStore(l, w, s);
    if s.Take? && s.call.id < |w.entries| {
      TakeSeen(l, w, s.call, key);
    }
  }

  lemma {:induction false} RunSeen(l: Limit, w: World, steps: seq<Step>, key: string)
    requires StoreLinked(w) && Sole(w, key) && Seen(l, w, key) && DeletesOf(steps, key) == 0
    ensures var w' := Exec(l, w, steps);
            StoreLinked(w') && Sole(w', key) && Seen(l, w', key)
    decreases |steps|
  {
    if steps != [] {
      ActSole(l, w, steps[0], key);
      ActSeen(l, w, steps[0], key);
      RunSeen(l, Act(l, w, steps[0]), steps[1..], key);
    }
  }

  /** The timestamp of the call that stored the key's first object. */
  function FirstLoad(steps: seq<Step>, key: string): real {
    if steps == [] then 0.0
    else if steps[0].Load? && steps[0].key == key then steps[0].now
    else FirstLoad(steps[1..], key)
  }

  /** The stored object was created at `at`. */
  ghost predicate CreatedAt(w: World, key: string, at: real) {
    key in w.store && w.store[key] < |w.entries| && w.entries[w.store[key]].created == at
  }

  lemma {:induction false} ActCreated(l: Limit, w: World, s: Step, key: string, at: real)
    requires StoreLinked(w) && !DeletesKey(s, key)
    ensures CreatedAt(w, key, at) ==> CreatedAt(Act(l, w, s), key, at)
    ensures key !in w.store ==>
              if s.Load? && s.key == key then CreatedAt(Act(l, w, s), key, s.now) else key !in Act(l, w, s).store
  {
  }

  lemma {:induction false} RunCreated(l: Limit, w: World, steps: seq<Step>, key: string, at: real)
    requires StoreLinked(w) && DeletesOf(steps, key) == 0
    requires if key in w.store then CreatedAt(w, key, at) else at == FirstLoad(steps, key)
    ensures key in Exec(l, w, steps).store ==> CreatedAt(Exec(l, w, steps), key, at)
    decreases |steps|
  {
    if steps != [] {
      ActCreated(l, w, steps[0], key, at);
      ActLinksStore(l, w, steps[0]);
      RunCreated(l, Act(l, w, steps[0]), steps[1..], key, at);
    }
  }

  lemma {:induction false} NewSeen(l: Limit, key: string)
    ensures StoreLinked(NewWorld) && Sole(NewWorld, key) && Seen(l, NewWorld, key)
  {
  }

  /**
   In every interleaving without a Delete of the key, its calls are answered in lock order as the
   specification grants them for a bucket created at the timestamp of the key's first LoadOrStore,
   whose call need not be the first to take the lock.
   */
  lemma {:induction false} UndeletedMeetsSpecification(l: Limit, steps: seq<Step>, key: string)
    requires IsRun(l, NewWorld, steps) && DeletesOf(steps, key) == 0
    ensures var served := Exec(l, NewWorld, steps).served;
            GrantsTo(l, served, key) == Specified(l, FirstLoad(steps, key), TakesOf(served, key))[1..]
  {
    var w, created := Exec(l, NewWorld, steps), FirstLoad(steps, key);
    NewSeen(l, key);
    RunSeen(l, NewWorld, steps, key);
    RunCreated(l, NewWorld, steps, key, created);
    if key in w.store {
      ObjectsMeetSpecification(l, steps, w.store[key]);
      assert ([false] + GrantsTo(l, w.served, key))[1..] == GrantsTo(l, w.served, key);
    }
  }
}
