/**
 The per-process fixed-window rate counter: buckets swept lazily, a hard cap on distinct keys, and the
 throttles that check before they count.
 */
module RateLimiter {
  import opened Sets

  const SWEEP_THRESHOLD: nat := 1000
  const SWEEP_INTERVAL: nat := 500
  const MAX_BUCKETS: nat := 20000

  datatype Bucket = Bucket(start: real, count: nat)

  type Buckets = map<string, Bucket>

  datatype Counter = Counter(buckets: Buckets, accesses: nat)

  datatype Answer = Answer(over: bool, retryAfter: int)

  predicate Stale(b: Bucket, now: real, window: real) { now - b.start >= window }

  /** Truncation toward zero, as `int()` does on floats. */
  function Truncated(x: real): int { if x >= 0.0 then x.Floor else -((-x).Floor) }

  // ---------------------------------------------------------------- what each operation does

  function Evicted(m: Buckets, now: real, window: real): Buckets {
    map k | k in m && !Stale(m[k], now, window) :: m[k]
  }

  function Swept(c: Counter, now: real, window: real): Counter {
    if |c.buckets| <= SWEEP_THRESHOLD then Counter(Evicted(c.buckets, now, window), 0)
    else if c.accesses + 1 >= SWEEP_INTERVAL then Counter(Evicted(c.buckets, now, window), 0)
    else Counter(c.buckets, c.accesses + 1)
  }

  predicate AtCapacity(m: Buckets, key: string) { key !in m && |m| >= MAX_BUCKETS }

  /** The counter after the sweeps that precede every access. */
  function Prepared(c: Counter, key: string, now: real, window: real): Counter {
    var s := Swept(c, now, window);
    if AtCapacity(s.buckets, key) then Counter(Evicted(s.buckets, now, window), 0) else s
  }

  predicate Refused(c: Counter, key: string, now: real, window: real) {
    AtCapacity(Prepared(c, key, now, window).buckets, key)
  }

  function Current(m: Buckets, key: string, now: real, window: real): Bucket {
    if key in m && !Stale(m[key], now, window) then m[key] else Bucket(now, 0)
  }

  /** The answer for a key whose current bucket is `b`. */
  function CountAnswer(b: Bucket, now: real, limit: int, window: real): Answer {
    if b.count >= limit then Answer(true, Truncated(window - (now - b.start)) + 1) else Answer(false, 0)
  }

  function Peeked(c: Counter, key: string, now: real, limit: int, window: real): Answer {
    if Refused(c, key, now, window) then Answer(true, Truncated(window))
    else CountAnswer(Current(Prepared(c, key, now, window).buckets, key, now, window), now, limit, window)
  }

  function Incremented(c: Counter, key: string, now: real, window: real): Counter {
    var p := Prepared(c, key, now, window);
    if Refused(c, key, now, window) then p
    else
      var b := Current(p.buckets, key, now, window);
      p.(buckets := p.buckets[key := Bucket(b.start, b.count + 1)])
  }

  // ---------------------------------------------------------------- the counter itself

  class FixedWindowCounter {
    const limit: int
    const window: real
    var buckets: Buckets
    var accessesSinceSweep: nat

    ghost function Value(): Counter
      reads this
    {
      Counter(buckets, accessesSinceSweep)
    }

    constructor (limit: int, window: real)
      ensures this.limit == limit && this.window == window && Value() == Counter(map[], 0)
    {
      this.limit, this.window := limit, window;
      buckets, accessesSinceSweep := map[], 0;
    }

    method EvictStale(now: real)
      modifies this`buckets
      ensures buckets == Evicted(old(buckets), now, window)
    {
      var stale := set k | k in buckets && Stale(buckets[k], now, window);
      ghost var all := buckets;
      while stale != {}
        invariant forall k :: k in stale ==> k in all && Stale(all[k], now, window)
        invariant buckets == map k | k in all && (!Stale(all[k], now, window) || k in stale) :: all[k]
      {
        var k :| k in stale;
        stale := stale - {k};
        buckets := buckets - {k};
      }
    }

    method MaybeSweep(now: real)
      modifies this
      ensures Value() == Swept(old(Value()), now, window)
    {
      if |buckets| <= SWEEP_THRESHOLD {
        accessesSinceSweep := 0;
        EvictStale(now);
        return;
      }
      accessesSinceSweep := accessesSinceSweep + 1;
      if accessesSinceSweep >= SWEEP_INTERVAL {
        accessesSinceSweep := 0;
        EvictStale(now);
      }
    }

    /** Sweeps, then decides whether the key may be tracked at all. */
    method Admit(key: string, now: real) returns (refuse: bool)
      modifies this
      ensures Value() == Prepared(old(Value()), key, now, window)
      ensures refuse == Refused(old(Value()), key, now, window)
    {
      MaybeSweep(now);
      if !AtCapacity(buckets, key) {
        return false;
      }
      accessesSinceSweep := 0;
      EvictStale(now);
      return AtCapacity(buckets, key);
    }

    /** Peeks; does not count. */
    method OverLimit(key: string, now: real) returns (answer: Answer)
      modifies this
      ensures Value() == Prepared(old(Value()), key, now, window)
      ensures answer == Peeked(old(Value()), key, now, limit, window)
    {
      var refuse := Admit(key, now);
      if refuse {
        return Answer(true, Truncated(window));
      }
      var b := Current(buckets, key, now, window);
      if b.count >= limit {
        return Answer(true, Truncated(window - (now - b.start)) + 1);
      }
      return Answer(false, 0);
    }

    method Increment(key: string, now: real)
      modifies this
      ensures Value() == Incremented(old(Value()), key, now, window)
    {
      var refuse := Admit(key, now);
      if refuse {
        return;
      }
      var b := Current(buckets, key, now, window);
      buckets := buckets[key := Bucket(b.start, b.count + 1)];
    }
  }

  // ---------------------------------------------------------------- size and refusal

  lemma EvictedSize(m: Buckets, now: real, window: real)
    ensures |Evicted(m, now, window)| <= |m|
  {
    SubsetSize(Evicted(m, now, window).Keys, m.Keys);
  }

  lemma PreparedSize(c: Counter, key: string, now: real, window: real)
    ensures |Prepared(c, key, now, window).buckets| <= |c.buckets|
  {
    EvictedSize(c.buckets, now, window);
    EvictedSize(Swept(c, now, window).buckets, now, window);
  }

  /** The table never grows past the cap. */
  lemma TableBounded(c: Counter, key: string, now: real, window: real)
    requires |c.buckets| <= MAX_BUCKETS
    ensures |Incremented(c, key, now, window).buckets| <= MAX_BUCKETS
    ensures |Prepared(c, key, now, window).buckets| <= MAX_BUCKETS
  {
    PreparedSize(c, key, now, window);
    var p := Prepared(c, key, now, window);
    if key !in p.buckets {
      var b := Current(p.buckets, key, now, window);
      assert p.buckets[key := Bucket(b.start, b.count + 1)].Keys == p.buckets.Keys + {key};
    } else {
      var b := Current(p.buckets, key, now, window);
      assert p.buckets[key := Bucket(b.start, b.count + 1)].Keys == p.buckets.Keys;
    }
  }

  /** A key is refused for capacity exactly when it is not tracked and the cap is filled by keys whose windows have
      not run out. */
  lemma RefusedMeansFull(c: Counter, key: string, now: real, window: real)
    requires |c.buckets| <= MAX_BUCKETS
    ensures Refused(c, key, now, window) <==>
      |c.buckets| == MAX_BUCKETS && key !in c.buckets && forall k :: k in c.buckets ==>
        !Stale(c.buckets[k], now, window)
  {
    var s, live := Swept(c, now, window), Evicted(c.buckets, now, window);
    assert Evicted(s.buckets, now, window) == live;
    EvictedSize(s.buckets, now, window);
    EvictedSize(c.buckets, now, window);
    if |live| == |c.buckets| {
      SameSize(live.Keys, c.buckets.Keys);
      assert live == c.buckets;
    }
    if forall k :: k in c.buckets ==> !Stale(c.buckets[k], now, window) {
      assert live == c.buckets;
    }
  }
}
