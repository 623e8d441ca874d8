/** The lock-free round-robin balancer, internal/balancer/roundrobin.go. */
module RoundRobin {
  import opened Targets

  /** The counter is an atomic uint64; it and every index computed from it wrap at 2^64. */
  const WRAP: nat := 0x1_0000_0000_0000_0000

  datatype State = State(targets: seq<Target>, healthy: seq<bool>, counter: nat)

  ghost predicate Shaped(s: State) {
    |s.targets| == |s.healthy| && s.counter < WRAP
  }

  function Initial(targets: seq<Target>): (s: State)
    ensures Shaped(s)
  {
    State(targets, seq(|targets|, _ => true), 0)
  }

  /** The position that step i of the scan with the given ticket looks at. */
  function Position(ticket: nat, i: nat, n: nat): (p: nat)
    requires n > 0
    ensures p < n
  {
    (ticket + i) % WRAP % n
  }

  /** The first healthy position from step i of the scan on, or -1 if the scan ends without one. */
  function Scan(h: seq<bool>, ticket: nat, i: nat): (p: int)
    requires i <= |h|
    ensures -1 <= p < |h|
    ensures p != -1 ==> h[p]
    decreases |h| - i
  {
    if i == |h| then -1
    else if h[Position(ticket, i, |h|)] then Position(ticket, i, |h|)
    else Scan(h, ticket, i + 1)
  }

  /** The position the holder of a ticket selects. */
  function Select(h: seq<bool>, ticket: nat): (p: int)
    ensures -1 <= p < |h|
    ensures p != -1 ==> h[p]
  {
    Scan(h, ticket, 0)
  }

  /** What a call leaves behind; without targets no ticket is drawn. */
  function Advanced(s: State): (s': State)
    requires Shaped(s)
    ensures Shaped(s')
  {
    if s.targets == [] then s else s.(counter := (s.counter + 1) % WRAP)
  }

  function Pick(s: State): (r: (State, Selection))
    requires Shaped(s)
    ensures Shaped(r.0)
  {
    var p := Select(s.healthy, s.counter);
    (Advanced(s), if p == -1 then NoHealthyTargets else Selected(s.targets[p].url))
  }

  function Mark(s: State, url: string, up: bool): (s': State)
    requires Shaped(s)
    ensures Shaped(s')
  {
    var i := Find(s.targets, url);
    if i == |s.targets| then s else s.(healthy := s.healthy[i := up])
  }

  class RoundRobin {
    const targets: seq<Target>
    const healthy: array<bool>
    var counter: nat

    ghost predicate Valid()
      reads this`counter
    {
      healthy.Length == |targets| && counter < WRAP
    }

    ghost function Model(): (s: State)
      reads this`counter, healthy
    {
      State(targets, healthy[..], counter)
    }

    constructor (targets: seq<Target>)
      ensures Valid() && fresh(healthy)
      ensures this.targets == targets && Model() == Initial(targets)
    {
      this.targets := targets;
      healthy := new bool[|targets|](_ => true);
      counter := 0;
    }

    method Next() returns (r: Selection)
      requires Valid()
      modifies this`counter
      ensures Valid() && Model() == Pick(old(Model())).0 && r == Pick(old(Model())).1
    {
      var n := |targets|;
      if n == 0 {
        return NoHealthyTargets;
      }
      var idx := counter;
      counter := (counter + 1) % WRAP;
      for i := 0 to n
        invariant Select(healthy[..], idx) == Scan(healthy[..], idx, i)
      {
        var pos := (idx + i) % WRAP % n;
        if healthy[pos] {
          return Selected(targets[pos].url);
        }
      }
      return NoHealthyTargets;
    }

    method SetHealthy(targetURL: string, up: bool)
      requires Valid()
      modifies healthy
      ensures Valid() && Model() == Mark(old(Model()), targetURL, up)
    {
      for i := 0 to |targets|
        invariant Model() == old(Model())
        invariant forall j :: 0 <= j < i ==> targets[j].url != targetURL
      {
        if targets[i].url == targetURL {
          assert i == Find(targets, targetURL);
          healthy[i] := up;
          return;
        }
      }
    }
  }
}
