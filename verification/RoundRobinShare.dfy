/**
 Who gets which ticket of the round-robin balancer while health is fixed, and what the uint64 wrap
 does. A ticket is one value of the atomic counter; concurrent `Next` calls hold different tickets
 and may finish in any order.
 */
module RoundRobinShare {
  import opened Arithmetic
  import opened RoundRobin
  import opened Targets

  /** The scan with this ticket does not cross the wrap, or the wrap falls on a multiple of n. */
  predicate Clean(ticket: nat, n: nat)
    requires n > 0
  {
    ticket + n <= WRAP || WRAP % n == 0
  }

  // ---- Arithmetic on a circle of n positions, b steps in ----

  function Turn(b: nat, i: nat, n: nat): (p: nat)
    requires b < n && i <= n
    ensures p < n
  {
    if b + i < n then b + i else b + i - n
  }

  /** How many steps lead from b to p. */
  function Steps(b: nat, p: nat, n: nat): (d: nat)
    requires b < n && p < n
    ensures d < n && Turn(b, d, n) == p
  {
    if b <= p then p - b else p - b + n
  }

  /** The position d steps before p. */
  function Back(p: nat, d: nat, n: nat): (b: nat)
    requires p < n && d <= n
    ensures b < n
  {
    if d <= p then p - d else p - d + n
  }

  lemma {:induction false} ModShift(x: nat, n: nat, m: nat)
    requires n > 0
    ensures (x + m * n) % n == x % n
  {
    if m != 0 {
      ModShift(x, n, m - 1);
      assert x + m * n == (x + (m - 1) * n) + n;
      ModAddOne(x + (m - 1) * n, n);
    }
  }

  lemma {:induction false} ModAddOne(x: nat, n: nat)
    requires n > 0
    ensures (x + n) % n == x % n
  {
    ModTurn(x, n, n);
  }

  /** Advancing a ticket by i <= n turns its position on the circle by i. */
  lemma {:induction false} ModTurn(x: nat, i: nat, n: nat)
    requires n > 0 && i <= n
    ensures (x + i) % n == Turn(x % n, i, n)
  {
    var q, b := x / n, x % n;
    assert x == q * n + b;
    if b + i < n {
      ModUnique(x + i, n, q, b + i);
    } else {
      NextMultiple(q, n);
      ModUnique(x + i, n, q + 1, b + i - n);
    }
  }

  /** When n divides the wrap, wrapping does not move the position. */
  lemma {:induction false} WrapKeepsResidue(x: nat, n: nat)
    requires n > 0 && WRAP % n == 0 && x < 2 * WRAP
    ensures x % WRAP % n == x % n
  {
    if x >= WRAP {
      assert x % WRAP == x - WRAP;
      assert WRAP == (WRAP / n) * n;
      ModShift(x - WRAP, n, WRAP / n);
    }
  }

  lemma {:induction false} CleanPosition(ticket: nat, i: nat, n: nat)
    requires n > 0 && i < n && n <= WRAP && ticket < WRAP && Clean(ticket, n)
    ensures Position(ticket, i, n) == Turn(ticket % n, i, n)
  {
    if ticket + n > WRAP {
      WrapKeepsResidue(ticket + i, n);
    }
    ModTurn(ticket, i, n);
  }

  // ---- Which ticket selects which position ----

  lemma {:induction false} ScanSkips(h: seq<bool>, ticket: nat, i: nat, d: nat)
    requires i <= d < |h|
    requires forall j :: i <= j < d ==> !h[Position(ticket, j, |h|)]
    ensures Scan(h, ticket, i) == Scan(h, ticket, d)
    decreases d - i
  {
    if i < d {
      ScanSkips(h, ticket, i + 1, d);
    }
  }

  /** What the scan selects is what it meets first. */
  lemma {:induction false} ScanResult(h: seq<bool>, ticket: nat, i: nat) returns (d: nat)
    requires i <= |h|
    ensures i <= d <= |h|
    ensures forall j :: i <= j < d ==> !h[Position(ticket, j, |h|)]
    ensures if d < |h| then Scan(h, ticket, i) == Position(ticket, d, |h|) else Scan(h, ticket, i) == -1
    decreases |h| - i
  {
    if i == |h| || h[Position(ticket, i, |h|)] {
      d := i;
    } else {
      d := ScanResult(h, ticket, i + 1);
    }
  }

  /** The length of the run of unhealthy positions cyclically before p, counted from r on. */
  function RunBefore(h: seq<bool>, p: nat, r: nat): (g: nat)
    requires p < |h| && r < |h|
    ensures r <= g < |h|
    decreases |h| - r
  {
    if r + 1 < |h| && !h[Back(p, r + 1, |h|)] then RunBefore(h, p, r + 1) else r
  }

  function Gap(h: seq<bool>, p: nat): (g: nat)
    requires p < |h|
    ensures g < |h|
  {
    RunBefore(h, p, 0)
  }

  lemma {:induction false} RunBeforeMeaning(h: seq<bool>, p: nat, r: nat)
    requires p < |h| && r < |h|
    ensures var g := RunBefore(h, p, r);
            && (forall d :: r < d <= g ==> !h[Back(p, d, |h|)])
            && (g + 1 < |h| ==> h[Back(p, g + 1, |h|)])
    decreases |h| - r
  {
    if r + 1 < |h| && !h[Back(p, r + 1, |h|)] {
      RunBeforeMeaning(h, p, r + 1);
    }
  }

  /** A healthy position gets exactly the tickets that land on it or on the unhealthy run before it. */
  lemma {:induction false} SelectIff(h: seq<bool>, ticket: nat, p: nat)
    requires 0 < |h| <= WRAP && p < |h| && h[p] && ticket < WRAP && Clean(ticket, |h|)
    ensures Select(h, ticket) == p <==> Steps(ticket % |h|, p, |h|) <= Gap(h, p)
  {
    var n := |h|;
    var b := ticket % n;
    var d, g := Steps(b, p, n), Gap(h, p);
    RunBeforeMeaning(h, p, 0);
    forall j | 0 <= j < n ensures Position(ticket, j, n) == Turn(b, j, n) {
      CleanPosition(ticket, j, n);
    }
    if d <= g {
      forall j | 0 <= j < d ensures !h[Position(ticket, j, n)] {
        assert Turn(b, j, n) == Back(p, d - j, n);
      }
      ScanSkips(h, ticket, 0, d);
    } else {
      var blocker := d - (g + 1);
      assert Turn(b, blocker, n) == Back(p, g + 1, n);
      assert h[Position(ticket, blocker, n)];
      var e := ScanResult(h, ticket, 0);
      assert e <= blocker;
    }
  }

  // ---- Shares over a window of n tickets ----

  /** How many of the tickets select position p. */
  function Hits(h: seq<bool>, p: nat, tickets: seq<nat>): nat {
    if tickets == [] then 0
    else (if Select(h, tickets[|tickets| - 1]) == p then 1 else 0) + Hits(h, p, tickets[..|tickets| - 1])
  }

  /** m successive values of the counter from start on. */
  function Window(start: nat, m: nat): (tickets: seq<nat>)
    ensures |tickets| == m
  {
    seq(m, j requires j >= 0 => (start + j) % WRAP)
  }

  /** The state after k calls of `Next`. */
  function AfterPicks(s: State, k: nat): (s': State)
    requires Shaped(s)
    ensures Shaped(s')
  {
    if k == 0 then s else Advanced(AfterPicks(s, k - 1))
  }

  lemma {:induction false} WrapNext(x: nat)
    ensures (x % WRAP + 1) % WRAP == (x + 1) % WRAP
  {
  }

  /** The calls draw the successive values of the counter and change nothing else. */
  lemma {:induction false} PicksDrawTickets(s: State, k: nat)
    requires Shaped(s) && s.targets != []
    ensures AfterPicks(s, k) == s.(counter := (s.counter + k) % WRAP)
  {
    if k != 0 {
      PicksDrawTickets(s, k - 1);
      WrapNext(s.counter + k - 1);
    }
  }

  /** Call number k of a sequential run selects with ticket number k of the window. */
  lemma {:induction false} PicksSelect(s: State, m: nat, k: nat)
    requires Shaped(s) && s.targets != [] && k < m
    ensures AfterPicks(s, k + 1) == Pick(AfterPicks(s, k)).0
    ensures var p := Select(s.healthy, Window(s.counter, m)[k]);
            Pick(AfterPicks(s, k)).1 == if p == -1 then NoHealthyTargets else Selected(s.targets[p].url)
  {
    PicksDrawTickets(s, k);
  }

  /** Every ticket of the window, and every step of its scan, stays below the wrap, or n divides it. */
  predicate CleanWindow(start: nat, n: nat)
    requires n > 0
  {
    start + 2 * n <= WRAP + 1 || WRAP % n == 0
  }

  /** A ticket of a clean window is clean and stands j positions after the first one. */
  lemma {:induction false} TicketResidue(start: nat, j: nat, n: nat)
    requires 0 < n <= WRAP && start < WRAP && j < n && CleanWindow(start, n)
    ensures Clean((start + j) % WRAP, n)
    ensures (start + j) % WRAP % n == Turn(start % n, j, n)
  {
    if WRAP % n == 0 {
      WrapKeepsResidue(start + j, n);
    }
    ModTurn(start, j, n);
  }

  /** Moving j positions on shortens the way to p by j, or by j - n past it. */
  lemma {:induction false} StepsAlong(b: nat, j: nat, p: nat, n: nat)
    requires b < n && p < n && j < n
    ensures Steps(Turn(b, j, n), p, n) == var d := Steps(b, p, n); if j <= d then d - j else d - j + n
  {
  }

  /** Whether ticket j of a window whose first ticket is d steps before p selects p. */
  predicate Reaches(d: nat, g: nat, n: nat, j: nat) {
    (if j <= d then d - j else d - j + n) <= g
  }

  lemma {:induction false} WindowTicket(h: seq<bool>, p: nat, start: nat, j: nat)
    requires 0 < |h| <= WRAP && p < |h| && h[p] && start < WRAP && j < |h| && CleanWindow(start, |h|)
    ensures Select(h, (start + j) % WRAP) == p <==> Reaches(Steps(start % |h|, p, |h|), Gap(h, p), |h|, j)
  {
    TicketResidue(start, j, |h|);
    StepsAlong(start % |h|, j, p, |h|);
    SelectIff(h, (start + j) % WRAP, p);
  }

  /** The closed form behind the share: at most two stretches of the window select p. */
  function Share(d: nat, g: nat, n: nat, m: nat): int {
    (if m <= d - g then 0 else (if m <= d + 1 then m else d + 1) - (if d >= g then d - g else 0))
    + (if m <= n + d - g then 0 else m - (n + d - g))
  }

  lemma {:induction false} ShareStep(d: nat, g: nat, n: nat, m: nat)
    requires d < n && g < n && m < n
    ensures Share(d, g, n, m + 1) == Share(d, g, n, m) + if Reaches(d, g, n, m) then 1 else 0
  {
  }

  lemma {:induction false} WindowHits(h: seq<bool>, p: nat, start: nat, m: nat)
    ensures Hits(h, p, Window(start, m + 1))
         == Hits(h, p, Window(start, m)) + if Select(h, (start + m) % WRAP) == p then 1 else 0
  {
    assert Window(start, m + 1) == Window(start, m) + [(start + m) % WRAP];
    HitsAppend(h, p, Window(start, m), (start + m) % WRAP);
  }

  lemma {:induction false} WindowReaches(h: seq<bool>, p: nat, start: nat, j: nat, d: nat)
    requires 0 < |h| <= WRAP && p < |h| && h[p] && start < WRAP && j < |h| && CleanWindow(start, |h|)
    requires d == Steps(start % |h|, p, |h|)
    ensures Hits(h, p, Window(start, j + 1))
         == Hits(h, p, Window(start, j)) + if Reaches(d, Gap(h, p), |h|, j) then 1 else 0
  {
    WindowHits(h, p, start, j);
    WindowTicket(h, p, start, j);
  }

  lemma {:induction false} PrefixShare(h: seq<bool>, p: nat, start: nat, m: nat, d: nat)
    requires 0 < |h| <= WRAP && p < |h| && h[p] && start < WRAP && m <= |h| && CleanWindow(start, |h|)
    requires d == Steps(start % |h|, p, |h|) < |h|
    ensures Hits(h, p, Window(start, m)) == Share(d, Gap(h, p), |h|, m)
  {
    if m != 0 {
      PrefixShare(h, p, start, m - 1, d);
      WindowReaches(h, p, start, m - 1, d);
      ShareStep(d, Gap(h, p), |h|, m - 1);
    }
  }

  lemma {:induction false} HitsAppend(h: seq<bool>, p: nat, a: seq<nat>, x: nat)
    ensures Hits(h, p, a + [x]) == Hits(h, p, a) + if Select(h, x) == p then 1 else 0
  {
    assert (a + [x])[..|a|] == a;
  }

  lemma {:induction false} HitsConcat(h: seq<bool>, p: nat, a: seq<nat>, b: seq<nat>)
    ensures Hits(h, p, a + b) == Hits(h, p, a) + Hits(h, p, b)
  {
    if b == [] {
      assert a + b == a;
    } else {
      var b', x := b[..|b| - 1], b[|b| - 1];
      HitsConcat(h, p, a, b');
      HitsAppend(h, p, a + b', x);
      assert a + b == a + b' + [x];
    }
  }

  lemma {:induction false} HitsSplit(h: seq<bool>, p: nat, a: seq<nat>, i: nat)
    requires i < |a|
    ensures Hits(h, p, a) == (if Select(h, a[i]) == p then 1 else 0) + Hits(h, p, a[..i] + a[i + 1..])
  {
    HitsConcat(h, p, a[..i] + [a[i]], a[i + 1..]);
    HitsAppend(h, p, a[..i], a[i]);
    HitsConcat(h, p, a[..i], a[i + 1..]);
    assert a == a[..i] + [a[i]] + a[i + 1..];
  }

  /** The order in which calls finish does not matter. */
  lemma {:induction false} HitsAnyOrder(h: seq<bool>, p: nat, a: seq<nat>, b: seq<nat>)
    requires multiset(a) == multiset(b)
    ensures Hits(h, p, a) == Hits(h, p, b)
  {
    if a == [] {
      assert |multiset(b)| == 0;
    } else {
      var x, a' := a[|a| - 1], a[..|a| - 1];
      assert a == a' + [x];
      HitsAppend(h, p, a', x);
      assert x in multiset(b);
      var i :| 0 <= i < |b| && b[i] == x;
      var b' := b[..i] + b[i + 1..];
      assert b == b[..i] + [x] + b[i + 1..];
      assert multiset(b') == multiset(b) - multiset{x};
      HitsAnyOrder(h, p, a', b');
      HitsSplit(h, p, b, i);
    }
  }

  /**
   Exact share: any n consecutive tickets, completed in any order, select a healthy position once
   for itself and once for every unhealthy position in the run cyclically before it.
   */
  lemma {:induction false} ExactShare(h: seq<bool>, p: nat, start: nat, done: seq<nat>)
    requires 0 < |h| <= WRAP && p < |h| && h[p] && start < WRAP && CleanWindow(start, |h|)
    requires multiset(done) == multiset(Window(start, |h|))
    ensures Hits(h, p, done) == 1 + Gap(h, p)
  {
    PrefixShare(h, p, start, |h|, Steps(start % |h|, p, |h|));
    HitsAnyOrder(h, p, done, Window(start, |h|));
  }

  // ---- The wrap ----

  /** A position the scan does not look at when it crosses a wrap that n does not divide. */
  function Missed(ticket: nat, n: nat): (p: nat)
    requires 0 < n && ticket < WRAP && !Clean(ticket, n)
    ensures p < n
  {
    var before, rest := WRAP - ticket, WRAP % n;
    if before <= rest then n - 1 else n + rest - before - 1
  }

  lemma {:induction false} MissedIsMissed(ticket: nat, n: nat, i: nat)
    requires 0 < n <= WRAP && ticket < WRAP && !Clean(ticket, n) && i < n
    ensures Position(ticket, i, n) != Missed(ticket, n)
  {
    var before, rest := WRAP - ticket, WRAP % n;
    if i >= before {
      assert (ticket + i) % WRAP == i - before;
      ModUnique(i - before, n, 0, i - before);
    } else {
      ModTurn(ticket + i, before - i, n);
    }
  }

  ghost predicate FindsHealthy(ticket: nat, n: nat) {
    forall h: seq<bool> :: |h| == n ==> (Select(h, ticket) == -1 <==> forall p :: 0 <= p < n ==> !h[p])
  }

  lemma {:induction false} CleanFindsHealthy(h: seq<bool>, ticket: nat)
    requires 0 < |h| <= WRAP && ticket < WRAP && Clean(ticket, |h|)
    ensures Select(h, ticket) == -1 <==> forall p :: 0 <= p < |h| ==> !h[p]
  {
    if p :| 0 <= p < |h| && h[p] {
      var d := Steps(ticket % |h|, p, |h|);
      CleanPosition(ticket, d, |h|);
      var e := ScanResult(h, ticket, 0);
      assert e <= d;
    }
  }

  /**
   `Next` reports no healthy target exactly when there is none, for every health vector, if and
   only if the ticket's scan is clean; otherwise it overlooks a position.
   */
  lemma {:induction false} FindsHealthyIffClean(ticket: nat, n: nat)
    requires 0 < n <= WRAP && ticket < WRAP
    ensures FindsHealthy(ticket, n) <==> Clean(ticket, n)
  {
    if Clean(ticket, n) {
      forall h: seq<bool> | |h| == n
        ensures Select(h, ticket) == -1 <==> forall p :: 0 <= p < n ==> !h[p]
      {
        CleanFindsHealthy(h, ticket);
      }
    } else {
      var p := Missed(ticket, n);
      var h := seq(n, i => i == p);
      var e := ScanResult(h, ticket, 0);
      if e < n {
        MissedIsMissed(ticket, n, e);
      }
      assert Select(h, ticket) == -1 && h[p];
    }
  }

  lemma {:induction false} HitsAtMost(h: seq<bool>, p: nat, tickets: seq<nat>)
    ensures Hits(h, p, tickets) <= |tickets|
  {
    if tickets != [] {
      HitsAtMost(h, p, tickets[..|tickets| - 1]);
    }
  }

  /** A window that is not clean contains a ticket whose scan is not clean. */
  lemma {:induction false} UncleanTicket(start: nat, n: nat) returns (j: nat)
    requires 0 < n && start < WRAP && !CleanWindow(start, n)
    ensures j < n && !Clean((start + j) % WRAP, n)
  {
    j := if start + n <= WRAP then n - 1 else WRAP - 1 - start;
  }

  /** The only healthy position p owns every ticket of a window in theory, but not the one that misses it. */
  lemma {:induction false} UncleanShare(start: nat, n: nat) returns (h: seq<bool>, p: nat)
    requires 0 < n <= WRAP && start < WRAP && !CleanWindow(start, n)
    ensures |h| == n && p < n && h[p] && Hits(h, p, Window(start, n)) < 1 + Gap(h, p)
  {
    var j := UncleanTicket(start, n);
    var tickets := Window(start, n);
    p := Missed(tickets[j], n);
    h := seq(n, i => i == p);
    var e := ScanResult(h, tickets[j], 0);
    if e < n {
      MissedIsMissed(tickets[j], n, e);
    }
    HitsSplit(h, p, tickets, j);
    HitsAtMost(h, p, tickets[..j] + tickets[j + 1..]);
    RunBeforeMeaning(h, p, 0);
  }

  ghost predicate ExactFor(start: nat, n: nat, h: seq<bool>, p: nat) {
    |h| == n && p < n && h[p] ==> Hits(h, p, Window(start, n)) == 1 + Gap(h, p)
  }

  /** The shares are exact for every health vector if and only if the window is clean. */
  lemma {:induction false} ExactShareIffClean(start: nat, n: nat)
    requires 0 < n <= WRAP && start < WRAP
    ensures (forall h: seq<bool>, p: nat :: ExactFor(start, n, h, p)) <==> CleanWindow(start, n)
  {
    if CleanWindow(start, n) {
      forall h: seq<bool>, p: nat ensures ExactFor(start, n, h, p) {
        if |h| == n && p < n && h[p] {
          ExactShare(h, p, start, Window(start, n));
        }
      }
    } else {
      var h, p := UncleanShare(start, n);
      assert !ExactFor(start, n, h, p);
    }
  }

  /** Three targets, the last ticket before the wrap, only the third target healthy: an error. */
  lemma {:induction false} WrapOverlooksTarget()
    ensures Select([false, false, true], 18_446_744_073_709_551_615) == -1
  {
    var h, ticket := [false, false, true], 18_446_744_073_709_551_615;
    assert Position(ticket, 0, 3) == 0 && Position(ticket, 1, 3) == 0 && Position(ticket, 2, 3) == 1;
    assert Scan(h, ticket, 3) == -1;
    assert Scan(h, ticket, 2) == -1;
    assert Scan(h, ticket, 1) == -1;
  }
}
