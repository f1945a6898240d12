/** The per-provider token buckets of internal/registrydata/limiter_memory.go and limiter_redis.go.

    Times are whole milliseconds since the epoch and token counts are reals. `Decide` is the bucket
    both implementations are meant to be; `AbstractStep` keeps one such bucket per provider for ever.
    The memory limiter forgets idle buckets when somebody acquires, the Redis limiter lets its keys
    expire; `LimiterRefinement` says when neither can be noticed.
 */
module Limiter {
  import opened Ordering

  datatype Limits = Limits(rate: real, burst: real, block: int)

  predicate ValidLimits(lim: Limits) { lim.rate >= 0.0 && lim.burst >= 0.0 }

  /** Tokens earned in `delta` milliseconds. */
  function Refill(lim: Limits, delta: int): real { delta as real * lim.rate / 1000.0 }

  function Elapsed(since: int, now: int): int { if now < since then 0 else now - since }

  function MinReal(a: real, b: real): real { if a < b then a else b }

  function Retry(lim: Limits): int { if lim.block <= 0 then 2000 else lim.block }

  const DEFAULT_PROVIDER := "default"

  function Normal(provider: string): string { if provider == "" then DEFAULT_PROVIDER else provider }

  datatype Answer = Granted | Denied(retryAfter: int) | Blocked

  datatype Call =
    | Acquire(provider: string, now: int)
    | BlockUntil(provider: string, until: int, now: int)

  // ----- One bucket -----

  datatype Bucket = Bucket(tokens: real, lastRefill: int, blockedUntil: int)

  function Available(lim: Limits, b: Bucket, now: int): real
  {
    MinReal(lim.burst, b.tokens + Refill(lim, Elapsed(b.lastRefill, now)))
  }

  function Decide(lim: Limits, b: Bucket, now: int): (Bucket, Answer)
  {
    if b.blockedUntil > now then (b, Denied(b.blockedUntil - now))
    else
      var tokens := Available(lim, b, now);
      if tokens >= 1.0 then (Bucket(tokens - 1.0, now, b.blockedUntil), Granted)
      else (Bucket(tokens, now, now + Retry(lim)), Denied(Retry(lim)))
  }

  function Max(a: int, b: int): int { if a < b then b else a }

  // ----- The abstract limiter -----

  type Abstract = map<string, Bucket>

  function AbstractBucket(lim: Limits, a: Abstract, p: string, now: int): Bucket
  {
    if p in a then a[p] else Bucket(lim.burst, now, 0)
  }

  function AbstractStep(lim: Limits, a: Abstract, c: Call): (Abstract, Answer)
  {
    var p := Normal(c.provider);
    var b := AbstractBucket(lim, a, p, c.now);
    match c
    case Acquire(_, now) =>
      var (b', answer) := Decide(lim, b, now);
      (a[p := b'], answer)
    case BlockUntil(_, until, now) => (a[p := b.(blockedUntil := Max(b.blockedUntil, until))], Blocked)
  }

  // ----- The in-memory limiter -----

  /** Go's zero time, in milliseconds: the first of January of year 1. */
  const ZERO_TIME := -62_135_596_800_000

  datatype MemBucket = MemBucket(tokens: real, lastRefill: int, blockedUntil: int, lastTouched: int)

  type Memory = map<string, MemBucket>

  function MemoryBucket(lim: Limits, m: Memory, p: string, now: int): MemBucket
  {
    if p in m then m[p] else MemBucket(lim.burst, now, ZERO_TIME, ZERO_TIME)
  }

  predicate Stale(ttl: int, b: MemBucket, now: int)
  {
    ttl > 0 && b.lastTouched != ZERO_TIME && now - b.lastTouched > ttl
  }

  function Evict(ttl: int, m: Memory, now: int): Memory
  {
    map p | p in m && !Stale(ttl, m[p], now) :: m[p]
  }

  function MemoryAcquire(lim: Limits, ttl: int, m: Memory, provider: string, now: int): (Memory, Answer)
  {
    var p := Normal(provider);
    var b := MemoryBucket(lim, m, p, now).(lastTouched := now);
    var m1 := Evict(ttl, m[p := b], now);
    if b.blockedUntil != ZERO_TIME && b.blockedUntil > now then (m1, Denied(b.blockedUntil - now))
    else
      var tokens := MinReal(lim.burst, b.tokens + Refill(lim, Elapsed(b.lastRefill, now)));
      if tokens >= 1.0 then (m1[p := MemBucket(tokens - 1.0, now, b.blockedUntil, now)], Granted)
      else (m1[p := MemBucket(tokens, now, now + Retry(lim), now)], Denied(Retry(lim)))
  }

  function MemoryBlock(lim: Limits, m: Memory, provider: string, until: int, now: int): Memory
  {
    var p := Normal(provider);
    var b := MemoryBucket(lim, m, p, now);
    m[p := b.(lastTouched := now, blockedUntil := Max(b.blockedUntil, until))]
  }

  function MemoryStep(lim: Limits, ttl: int, m: Memory, c: Call): (Memory, Answer)
  {
    match c
    case Acquire(p, now) => MemoryAcquire(lim, ttl, m, p, now)
    case BlockUntil(p, until, now) => (MemoryBlock(lim, m, p, until, now), Blocked)
  }

  class MemoryLimiter {
    const limits: Limits
    const stateTTL: int
    var buckets: Memory

    constructor (limits: Limits, stateTTL: int)
      requires stateTTL > 0
      ensures this.limits == limits && this.stateTTL == stateTTL && buckets == map[]
    {
      this.limits, this.stateTTL, buckets := limits, stateTTL, map[];
    }

    /** The opportunistic cleanup: a loop over the buckets, in any order, deleting the stale ones. */
    method EvictStale(now: int)
      modifies this
      ensures buckets == Evict(stateTTL, old(buckets), now)
    {
      var keys := buckets.Keys;
      while keys != {}
        invariant keys <= buckets.Keys <= old(buckets).Keys
        invariant forall k :: k in buckets ==> buckets[k] == old(buckets)[k]
        invariant forall k :: k in old(buckets) && k !in keys ==> (k in buckets <==> !Stale(stateTTL, old(buckets)[k], now))
        decreases |keys|
      {
        var k :| k in keys;
        keys := keys - {k};
        if stateTTL > 0 && buckets[k].lastTouched != ZERO_TIME && now - buckets[k].lastTouched > stateTTL {
          buckets := buckets - {k};
        }
      }
    }

    method Acquire(provider: string, now: int) returns (answer: Answer)
      requires stateTTL > 0
      modifies this
      ensures (buckets, answer) == MemoryAcquire(limits, stateTTL, old(buckets), provider, now)
    {
      var p := if provider == "" then DEFAULT_PROVIDER else provider;
      if p !in buckets {
        buckets := buckets[p := MemBucket(limits.burst, now, ZERO_TIME, ZERO_TIME)];
      }
      buckets := buckets[p := buckets[p].(lastTouched := now)];
      assert buckets == old(buckets)[p := MemoryBucket(limits, old(buckets), p, now).(lastTouched := now)];
      EvictStale(now);
      var b := buckets[p];
      if b.blockedUntil != ZERO_TIME && b.blockedUntil > now {
        return Denied(b.blockedUntil - now);
      }
      var delta := now - b.lastRefill;
      if delta < 0 {
        delta := 0;
      }
      b := b.(tokens := MinReal(limits.burst, b.tokens + Refill(limits, delta)), lastRefill := now);
      if b.tokens >= 1.0 {
        buckets := buckets[p := b.(tokens := b.tokens - 1.0)];
        return Granted;
      }
      var retry := limits.block;
      if retry <= 0 {
        retry := 2000;
      }
      buckets := buckets[p := b.(blockedUntil := now + retry)];
      answer := Denied(retry);
    }

    method BlockUntil(provider: string, until: int, now: int)
      modifies this
      ensures buckets == MemoryBlock(limits, old(buckets), provider, until, now)
    {
      var p := if provider == "" then DEFAULT_PROVIDER else provider;
      if p !in buckets {
        buckets := buckets[p := MemBucket(limits.burst, now, ZERO_TIME, ZERO_TIME)];
      }
      var b := buckets[p].(lastTouched := now);
      if b.blockedUntil < until {
        b := b.(blockedUntil := until);
      }
      buckets := buckets[p := b];
      assert buckets == old(buckets)[p := b];
    }
  }

  // ----- The Redis limiter -----

  /** A hash with its expiry; a field that was never set is `None`. */
  datatype Hash = Hash(tokens: Option<real>, lastRefill: Option<int>, blockedUntil: Option<int>, expireAt: int)

  type Redis = map<string, Hash>

  const NO_HASH := Hash(None, None, None, 0)

  /** What the server still has under a key at a time. */
  function Lookup(r: Redis, p: string, now: int): Option<Hash>
  {
    if p in r && now <= r[p].expireAt then Some(r[p]) else None
  }

  function HashBucket(lim: Limits, h: Hash, now: int): Bucket
  {
    Bucket(if h.tokens.Some? then h.tokens.value else lim.burst,
           if h.lastRefill.Some? then h.lastRefill.value else now,
           if h.blockedUntil.Some? then h.blockedUntil.value else 0)
  }

  function RedisAcquire(lim: Limits, ttl: int, r: Redis, provider: string, now: int): (Redis, Answer)
  {
    var p := Normal(provider);
    var found := Lookup(r, p, now);
    var h := if found.Some? then found.value else NO_HASH;
    var b := HashBucket(lim, h, now);
    if b.blockedUntil > now then (r, Denied(b.blockedUntil - now))
    else
      var tokens := MinReal(lim.burst, b.tokens + Refill(lim, Elapsed(b.lastRefill, now)));
      if tokens >= 1.0 then (r[p := Hash(Some(tokens - 1.0), Some(now), h.blockedUntil, now + ttl)], Granted)
      else (r[p := Hash(Some(tokens), Some(now), Some(now + Retry(lim)), now + ttl)], Denied(Retry(lim)))
  }

  function RedisBlock(ttl: int, r: Redis, provider: string, until: int, now: int): Redis
  {
    var p := Normal(provider);
    var found := Lookup(r, p, now);
    var h := if found.Some? then found.value else NO_HASH;
    var cur := if h.blockedUntil.Some? then h.blockedUntil.value else 0;
    if until > cur then r[p := h.(blockedUntil := Some(until), expireAt := now + ttl)]
    else if found.Some? then r[p := h.(expireAt := now + ttl)]
    else r
  }

  function RedisStep(lim: Limits, ttl: int, r: Redis, c: Call): (Redis, Answer)
  {
    match c
    case Acquire(p, now) => RedisAcquire(lim, ttl, r, p, now)
    case BlockUntil(p, until, now) => (RedisBlock(ttl, r, p, until, now), Blocked)
  }

  /** The two Lua scripts, run by the server one at a time, reading and writing one hash. */
  class RedisLimiter {
    const limits: Limits
    const stateTTL: int
    var store: Redis

    constructor (limits: Limits, stateTTL: int)
      requires stateTTL > 0
      ensures this.limits == limits && this.stateTTL == stateTTL && store == map[]
    {
      this.limits, this.stateTTL, store := limits, stateTTL, map[];
    }

    method Acquire(provider: string, now: int) returns (answer: Answer)
      modifies this
      ensures (store, answer) == RedisAcquire(limits, stateTTL, old(store), provider, now)
    {
      var key := if provider == "" then DEFAULT_PROVIDER else provider;
      var h := if key in store && now <= store[key].expireAt then store[key] else NO_HASH;
      var tokens := if h.tokens.Some? then h.tokens.value else limits.burst;
      var lastRefill := if h.lastRefill.Some? then h.lastRefill.value else now;
      var blockedUntil := if h.blockedUntil.Some? then h.blockedUntil.value else 0;
      if blockedUntil > now {
        return Denied(blockedUntil - now);
      }
      var delta := now - lastRefill;
      if delta < 0 {
        delta := 0;
      }
      tokens := MinReal(limits.burst, tokens + Refill(limits, delta));
      if tokens >= 1.0 {
        tokens := tokens - 1.0;
        h := h.(tokens := Some(tokens), lastRefill := Some(now));
        store := store[key := h.(expireAt := now + stateTTL)];
        answer := Granted;
      } else {
        var defaultBlock := if limits.block <= 0 then 2000 else limits.block;
        h := h.(tokens := Some(tokens), lastRefill := Some(now), blockedUntil := Some(now + defaultBlock));
        store := store[key := h.(expireAt := now + stateTTL)];
        answer := Denied(defaultBlock);
      }
    }

    method BlockUntil(provider: string, until: int, now: int)
      modifies this
      ensures store == RedisBlock(stateTTL, old(store), provider, until, now)
    {
      var key := if provider == "" then DEFAULT_PROVIDER else provider;
      var live := key in store && now <= store[key].expireAt;
      var h := if live then store[key] else NO_HASH;
      var cur := if h.blockedUntil.Some? then h.blockedUntil.value else 0;
      if until > cur {
        h := h.(blockedUntil := Some(until));
        live := true;
      }
      if live {
        store := store[key := h.(expireAt := now + stateTTL)];
      }
    }
  }

  // ----- Runs -----

  function AbstractRun(lim: Limits, cs: seq<Call>): (Abstract, seq<Answer>)
  {
    if cs == [] then (map[], [])
    else
      var (a, answers) := AbstractRun(lim, cs[..|cs| - 1]);
      var (a', x) := AbstractStep(lim, a, cs[|cs| - 1]);
      (a', answers + [x])
  }

  function MemoryRun(lim: Limits, ttl: int, cs: seq<Call>): (Memory, seq<Answer>)
  {
    if cs == [] then (map[], [])
    else
      var (m, answers) := MemoryRun(lim, ttl, cs[..|cs| - 1]);
      var (m', x) := MemoryStep(lim, ttl, m, cs[|cs| - 1]);
      (m', answers + [x])
  }

  function RedisRun(lim: Limits, ttl: int, cs: seq<Call>): (Redis, seq<Answer>)
  {
    if cs == [] then (map[], [])
    else
      var (r, answers) := RedisRun(lim, ttl, cs[..|cs| - 1]);
      var (r', x) := RedisStep(lim, ttl, r, cs[|cs| - 1]);
      (r', answers + [x])
  }

  /** Clock readings never go back and start at or after the epoch. */
  predicate Ordered(cs: seq<Call>)
  {
    && (forall i :: 0 <= i < |cs| ==> cs[i].now >= 0)
    && (forall i, j :: 0 <= i < j < |cs| ==> cs[i].now <= cs[j].now)
  }

  // ----- Refill arithmetic -----

  /** `delta` milliseconds earn `delta` thousandths of the rate. */
  lemma RefillIsPerSecond(lim: Limits, delta: int)
    ensures Refill(lim, delta) == lim.rate * delta as real / 1000.0
  {
  }

  lemma RefillAdds(lim: Limits, a: int, b: int)
    ensures Refill(lim, a + b) == Refill(lim, a) + Refill(lim, b)
  {
  }

  lemma RefillGrows(lim: Limits, a: int, b: int)
    requires ValidLimits(lim) && a <= b
    ensures Refill(lim, a) <= Refill(lim, b)
  {
    RefillAdds(lim, a, b - a);
  }
}
