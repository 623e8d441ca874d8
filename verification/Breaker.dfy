/**
 The circuit breaker, internal/circuit/breaker.go and internal/circuit/state.go. Times are
 nanoseconds on the monotonic clock. `Execute` takes the lock three times; each critical section is
 one method here, and the clock readings inside it are its arguments.
 */
module Breaker {

  datatype Phase = Closed | Open | HalfOpen

  datatype Config = Config(failureThreshold: int, resetTimeout: int, halfOpenMaxReqs: int, failureWindow: int)

  datatype State = State(
    phase: Phase,
    consecutiveFails: int,
    totalRequests: int,
    totalFailures: int,
    halfOpenReqs: int,
    lastStateChange: int,
    failures: seq<int>)

  function Initial(now: int): (b: State) {
    State(Closed, 0, 0, 0, 0, now, [])
  }

  /** The times after the cutoff, in order. */
  function After(times: seq<int>, cutoff: int): (kept: seq<int>) {
    if times == [] then []
    else
      var kept, last := After(times[..|times| - 1], cutoff), times[|times| - 1];
      if last > cutoff then kept + [last] else kept
  }

  function MoveTo(b: State, phase: Phase, at: int): State {
    b.(phase := phase, lastStateChange := at)
  }

  /** beforeRequest, reading the clock at `now` and, to change state, again at `later`. */
  function Admit(cfg: Config, b: State, now: int, later: int): (r: (State, bool)) {
    match b.phase
    case Closed => (b, true)
    case Open =>
      if now - b.lastStateChange > cfg.resetTimeout
      then (MoveTo(b, HalfOpen, later).(halfOpenReqs := 0), true)
      else (b, false)
    case HalfOpen =>
      if b.halfOpenReqs >= cfg.halfOpenMaxReqs then (b, false)
      else (b.(halfOpenReqs := b.halfOpenReqs + 1), true)
  }

  /** The counting section of Execute. */
  function Count(b: State): State {
    b.(totalRequests := b.totalRequests + 1)
  }

  function Succeed(b: State, later: int): State {
    var b' := b.(consecutiveFails := 0);
    if b.phase == HalfOpen then MoveTo(b', Closed, later).(failures := []) else b'
  }

  /** The first half of onFailure: the counters and the sliding window. */
  function Noted(cfg: Config, b: State, now: int): State {
    b.(totalFailures := b.totalFailures + 1,
       consecutiveFails := b.consecutiveFails + 1,
       failures := After(b.failures + [now], now - cfg.failureWindow))
  }

  /** The second half: a full window opens a closed breaker, any failure a half-open one. */
  function Tripped(cfg: Config, b: State, later: int): State {
    match b.phase
    case Closed => if |b.failures| >= cfg.failureThreshold then MoveTo(b, Open, later) else b
    case HalfOpen => MoveTo(b, Open, later)
    case Open => b
  }

  function Fail(cfg: Config, b: State, now: int, later: int): State {
    Tripped(cfg, Noted(cfg, b, now), later)
  }

  function Reset(b: State, now: int): State {
    b.(phase := Closed, consecutiveFails := 0, halfOpenReqs := 0, failures := [], lastStateChange := now)
  }

  /** Keeps the times after the cutoff by moving them to the front of the same buffer. */
  method Compact(buffer: array<int>, len: nat, cutoff: int) returns (kept: nat)
    requires len <= buffer.Length
    modifies buffer
    ensures kept <= len && buffer[..kept] == After(old(buffer[..len]), cutoff)
  {
    ghost var times := buffer[..len];
    kept := 0;
    for i := 0 to len
      invariant kept <= i
      invariant buffer[..kept] == After(times[..i], cutoff)
      invariant buffer[i..len] == times[i..]
    {
      assert times[..i + 1][..i] == times[..i];
      assert buffer[i] == buffer[i..len][0] == times[i];
      var ft := buffer[i];
      assert buffer[i + 1..len] == buffer[i..len][1..] == times[i + 1..];
      if ft > cutoff {
        buffer[kept] := ft;
        assert buffer[..kept + 1] == buffer[..kept] + [ft];
        kept := kept + 1;
      }
    }
    assert times[..len] == times;
  }

  class CircuitBreaker {
    const config: Config
    var phase: Phase
    var consecutiveFails: int
    var totalRequests: int
    var totalFailures: int
    var halfOpenReqs: int
    var lastStateChange: int
    var buffer: array<int>   // the failures slice: its backing array ...
    var len: nat             // ... and its length

    ghost predicate Valid()
      reads this
    {
      len <= buffer.Length
    }

    ghost function Model(): (b: State)
      reads this, buffer
      requires Valid()
    {
      State(phase, consecutiveFails, totalRequests, totalFailures, halfOpenReqs, lastStateChange, buffer[..len])
    }

    constructor (config: Config, now: int)
      ensures Valid() && fresh(buffer)
      ensures this.config == config && Model() == Initial(now)
    {
      this.config := config;
      phase := Closed;
      consecutiveFails, totalRequests, totalFailures, halfOpenReqs := 0, 0, 0, 0;
      lastStateChange := now;
      buffer := new int[0];
      len := 0;
    }

    method BeforeRequest(now: int, later: int) returns (admitted: bool)
      requires Valid()
      modifies this
      ensures Valid() && buffer == old(buffer)
      ensures Model() == Admit(config, old(Model()), now, later).0
      ensures admitted == Admit(config, old(Model()), now, later).1
    {
      match phase
      case Closed => return true;
      case Open =>
        if now - lastStateChange > config.resetTimeout {
          phase, lastStateChange := HalfOpen, later;
          halfOpenReqs := 0;
          return true;
        }
        return false;
      case HalfOpen =>
        if halfOpenReqs >= config.halfOpenMaxReqs {
          return false;
        }
        halfOpenReqs := halfOpenReqs + 1;
        return true;
    }

    method CountRequest()
      requires Valid()
      modifies this
      ensures Valid() && buffer == old(buffer) && Model() == Count(old(Model()))
    {
      totalRequests := totalRequests + 1;
    }

    method OnSuccess(later: int)
      requires Valid()
      modifies this
      ensures Valid() && buffer == old(buffer) && Model() == Succeed(old(Model()), later)
    {
      consecutiveFails := 0;
      if phase == HalfOpen {
        phase, lastStateChange := Closed, later;
        len := 0;
      }
    }

    /** append: writes behind the last element, or moves to a larger backing array. */
    method Append(t: int)
      requires Valid()
      modifies this`buffer, this`len, buffer
      ensures Valid() && (buffer == old(buffer) || fresh(buffer))
      ensures buffer[..len] == old(buffer[..len]) + [t]
    {
      if len == buffer.Length {
        var old', n := buffer, len;
        var larger := new int[2 * n + 1](
          i requires 0 <= i reads old' => if i < n && i < old'.Length then old'[i] else 0);
        assert larger[..n] == old'[..n];
        buffer := larger;
      }
      buffer[len] := t;
      len := len + 1;
      assert buffer[..len] == buffer[..len - 1] + [t];
    }

    /** Adds a failure and drops those outside the window. */
    method Slide(now: int)
      requires Valid()
      modifies this`buffer, this`len, buffer
      ensures Valid() && (buffer == old(buffer) || fresh(buffer))
      ensures buffer[..len] == After(old(buffer[..len]) + [now], now - config.failureWindow)
    {
      Append(now);
      len := Compact(buffer, len, now - config.failureWindow);
    }

    method OnFailure(now: int, later: int)
      requires Valid()
      modifies this, buffer
      ensures Valid() && (buffer == old(buffer) || fresh(buffer))
      ensures Model() == Fail(config, old(Model()), now, later)
    {
      totalFailures := totalFailures + 1;
      consecutiveFails := consecutiveFails + 1;
      Slide(now);
      assert Model() == Noted(config, old(Model()), now);
      match phase
      case Closed =>
        if len >= config.failureThreshold {
          phase, lastStateChange := Open, later;
        }
      case HalfOpen =>
        phase, lastStateChange := Open, later;
      case Open =>
    }

    method ResetBreaker(now: int)
      requires Valid()
      modifies this
      ensures Valid() && buffer == old(buffer) && Model() == Reset(old(Model()), now)
    {
      phase := Closed;
      consecutiveFails := 0;
      halfOpenReqs := 0;
      len := 0;
      lastStateChange := now;
    }
  }
}
