/**
 The token bucket limiter, internal/ratelimit/token_bucket.go, and the Retry-After header of
 internal/middleware/ratelimit.go. Tokens and times (in seconds) are reals; durations that the code
 truncates to nanoseconds are integers.
 */
module TokenBucket {

  const NANOS: int := 1_000_000_000

  /** Staleness age used by the background cleanup: five minutes. */
  const MAX_AGE: real := 300.0

  /** Validated configuration: rate > 0 and burst >= 1; only the clauses that need this say so. */
  datatype Limit = Limit(rate: real, burst: int)

  datatype Bucket = Bucket(tokens: real, lastRefill: real, lastAccess: real)

  datatype Decision = Decision(allowed: bool, limit: int, remaining: int, resetAt: real, retryAfter: int)

  function FullBucket(l: Limit, now: real): Bucket {
    Bucket(l.burst as real, now, now)
  }

  /** The tokens at `now`, before the request at `now` is decided. */
  function Refilled(l: Limit, b: Bucket, now: real): (tokens: real)
    ensures tokens <= l.burst as real
  {
    var grown := b.tokens + (now - b.lastRefill) * l.rate;
    if grown > l.burst as real then l.burst as real else grown
  }

  predicate Admits(l: Limit, b: Bucket, now: real) {
    Refilled(l, b, now) >= 1.0
  }

  function Spend(l: Limit, b: Bucket, now: real): Bucket {
    var tokens := Refilled(l, b, now);
    Bucket(if tokens >= 1.0 then tokens - 1.0 else tokens, now, now)
  }

  /** A Go conversion of a non-negative float to an integer drops the fraction. */
  function Truncated(x: real): int
    requires x >= 0.0
  {
    x.Floor
  }

  /** One token's worth of time after `now`, in whole nanoseconds. */
  function ResetAt(l: Limit, now: real): real
    requires l.rate > 0.0
  {
    now + Truncated(NANOS as real / l.rate) as real / NANOS as real
  }

  /** The time until a whole token is there, in whole nanoseconds. */
  function RetryAfter(l: Limit, tokens: real): int
    requires l.rate > 0.0 && tokens < 1.0
  {
    Truncated((1.0 - tokens) / l.rate * NANOS as real)
  }

  function Decide(l: Limit, b: Bucket, now: real): (d: Decision)
    requires l.rate > 0.0
  {
    var tokens := Refilled(l, b, now);
    var resetAt := ResetAt(l, now);
    if tokens >= 1.0 then Decision(true, l.burst, (tokens - 1.0).Floor, resetAt, 0)
    else
      Decision(false, l.burst, tokens.Floor, resetAt, RetryAfter(l, tokens))
  }

  type Store = map<string, Bucket>

  /** The bucket LoadOrStore finds or creates. */
  function Loaded(l: Limit, m: Store, key: string, now: real): Bucket {
    if key in m then m[key] else FullBucket(l, now)
  }

  function Serve(l: Limit, m: Store, key: string, now: real): Store {
    m[key := Spend(l, Loaded(l, m, key, now), now)]
  }

  /** Deletes the bucket of the key if its last access is before the threshold. */
  function Evict(m: Store, key: string, threshold: real): Store {
    if key in m && m[key].lastAccess < threshold then m - {key} else m
  }

  /** The whole seconds in the Retry-After header: truncated, plus one. */
  function RetrySeconds(retryAfter: int): int {
    retryAfter / NANOS + 1
  }

  /** One client's bucket object; its methods are the sections that hold its lock. */
  class BucketCell {
    var tokens: real
    var lastRefill: real
    var lastAccess: real

    ghost function Value(): (b: Bucket)
      reads this
    {
      Bucket(tokens, lastRefill, lastAccess)
    }

    constructor (limit: Limit, now: real)
      ensures Value() == FullBucket(limit, now)
    {
      tokens := limit.burst as real;
      lastRefill := now;
      lastAccess := now;
    }

    /** The locked section of `Allow`. */
    method Take(limit: Limit, now: real) returns (d: Decision)
      requires limit.rate > 0.0
      modifies this
      ensures Value() == Spend(limit, old(Value()), now)
      ensures d == Decide(limit, old(Value()), now)
    {
      lastAccess := now;
      var elapsed := now - lastRefill;
      tokens := tokens + elapsed * limit.rate;
      if tokens > limit.burst as real {
        tokens := limit.burst as real;
      }
      lastRefill := now;
      assert tokens == Refilled(limit, old(Value()), now);
      var remaining := tokens.Floor;
      var resetAt := ResetAt(limit, now);
      if tokens >= 1.0 {
        tokens := tokens - 1.0;
        return Decision(true, limit.burst, tokens.Floor, resetAt, 0);
      }
      return Decision(false, limit.burst, remaining, resetAt, RetryAfter(limit, tokens));
    }
  }

  class TokenBucketStore {
    const limit: Limit
    var cells: map<string, BucketCell>

    /** No two keys share an object. */
    ghost predicate Valid()
      reads this
    {
      forall j, k :: j in cells && k in cells && cells[j] == cells[k] ==> j == k
    }

    ghost function Buckets(): (m: Store)
      reads this, cells.Values
    {
      map k | k in cells :: cells[k].Value()
    }

    constructor (limit: Limit)
      ensures Valid() && this.limit == limit && Buckets() == map[]
    {
      this.limit := limit;
      cells := map[];
    }

    /** The atomic map operation of `Allow`: the key's object, or a new one with a full bucket. */
    method LoadOrStore(key: string, now: real) returns (b: BucketCell)
      requires Valid()
      modifies this
      ensures Valid() && key in cells && b == cells[key]
      ensures if key in old(cells) then cells == old(cells) else fresh(b) && cells == old(cells)[key := b]
      ensures Buckets() == old(Buckets())[key := Loaded(limit, old(Buckets()), key, now)]
    {
      var created := new BucketCell(limit, now);
      if key !in cells {
        cells := cells[key := created];
      }
      b := cells[key];
    }

    /** The locked section of a call that holds the key's object touches no other bucket. */
    method TakeHeld(key: string, b: BucketCell, now: real) returns (d: Decision)
      requires Valid() && limit.rate > 0.0 && key in cells && b == cells[key]
      modifies b
      ensures Buckets() == old(Buckets())[key := Spend(limit, old(Buckets())[key], now)]
      ensures d == Decide(limit, old(Buckets())[key], now)
    {
      ghost var before := Buckets();
      d := b.Take(limit, now);
      ghost var after := Spend(limit, before[key], now);
      assert b.Value() == after;
      assert forall k :: k in cells && k != key ==> cells[k].Value() == before[k];
      assert Buckets() == before[key := after];
    }

    /** Both sections of a call, without interference. */
    method Allow(key: string, now: real) returns (d: Decision)
      requires Valid() && limit.rate > 0.0
      modifies this, cells.Values
      ensures Valid()
      ensures Buckets() == Serve(limit, old(Buckets()), key, now)
      ensures d == Decide(limit, Loaded(limit, old(Buckets()), key, now), now)
    {
      ghost var m := Buckets();
      var b := LoadOrStore(key, now);
      assert Buckets()[key] == Loaded(limit, m, key, now);
      d := TakeHeld(key, b, now);
    }

    /** The atomic map operation of the cleanup. */
    method Delete(key: string)
      requires Valid()
      modifies this
      ensures Valid() && cells == old(cells) - {key}
      ensures Buckets() == old(Buckets()) - {key}
    {
      cells := cells - {key};
    }

    /** Ranges over the keys in some order and deletes the stale ones, without interference. */
    method RunCleanup(threshold: real)
      requires Valid()
      modifies this
      ensures Valid()
      ensures Buckets()
           == map k | k in old(Buckets()) && !(old(Buckets())[k].lastAccess < threshold) :: old(Buckets())[k]
    {
      var keys := cells.Keys;
      while keys != {}
        invariant Valid() && keys <= cells.Keys <= old(cells).Keys
        invariant forall k :: k in cells ==> cells[k] == old(cells)[k]
        invariant forall k :: k in old(cells) ==>
                    (k in cells <==> k in keys || !(old(cells)[k].lastAccess < threshold))
      {
        var key :| key in keys;
        var isStale := cells[key].lastAccess < threshold;
        if isStale {
          Delete(key);
        }
        keys := keys - {key};
      }
    }
  }
}
