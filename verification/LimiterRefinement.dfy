/** What forgetting idle buckets costs.

    A bucket that is forgotten comes back full and unblocked. When a bucket idle for longer than the
    state lifetime is full anyway (`LimiterBusy.Covered`) and no block outlives the state, the
    evicting memory limiter and the expiring Redis limiter answer every run of calls exactly as the
    abstract limiter does. `LimiterExactness` shows both conditions exact
    for either limiter, and `LimiterBlocks` which requested blocks are honoured.
 */
module LimiterRefinement {
  import opened Ordering
  import opened Limiter
  import opened LimiterBusy

  // ----- Buckets that cannot be told apart -----

  predicate Same(lim: Limits, x: Bucket, y: Bucket, now: int)
  {
    && (x.blockedUntil == y.blockedUntil || (x.blockedUntil <= now && y.blockedUntil <= now))
    && ((x.tokens == y.tokens && x.lastRefill == y.lastRefill) || (Full(lim, x, now) && Full(lim, y, now)))
  }

  lemma FullStays(lim: Limits, b: Bucket, now: int, later: int)
    requires ValidLimits(lim) && now <= later && Full(lim, b, now)
    ensures Full(lim, b, later)
  {
    RefillGrows(lim, Elapsed(b.lastRefill, now), Elapsed(b.lastRefill, later));
  }

  lemma SameStays(lim: Limits, x: Bucket, y: Bucket, now: int, later: int)
    requires ValidLimits(lim) && now <= later && Same(lim, x, y, now)
    ensures Same(lim, x, y, later)
  {
    if Full(lim, x, now) && Full(lim, y, now) {
      FullStays(lim, x, now, later);
      FullStays(lim, y, now, later);
    }
  }

  lemma SameDecidesSame(lim: Limits, x: Bucket, y: Bucket, now: int)
    requires ValidLimits(lim) && Same(lim, x, y, now)
    ensures Decide(lim, x, now).1 == Decide(lim, y, now).1
    ensures Same(lim, Decide(lim, x, now).0, Decide(lim, y, now).0, now)
  {
  }

  // ----- The memory limiter -----

  function MemoryView(lim: Limits, m: Memory, p: string, now: int): Bucket
  {
    var b := MemoryBucket(lim, m, p, now);
    Bucket(b.tokens, b.lastRefill, b.blockedUntil)
  }

  ghost predicate BucketKept(lim: Limits, b: MemBucket, now: int)
    requires ValidLimits(lim)
  {
    0.0 <= b.tokens <= lim.burst && Earned(lim, b.tokens) && 0 <= b.lastTouched <= now && b.lastRefill <= b.lastTouched
  }

  ghost predicate MemoryKept(lim: Limits, m: Memory, now: int)
    requires ValidLimits(lim)
  {
    forall p :: p in m ==> BucketKept(lim, m[p], now)
  }

  predicate BlocksKept(m: Memory, ttl: int)
  {
    forall p :: p in m ==> m[p].blockedUntil <= m[p].lastTouched + ttl + 1
  }

  lemma AcquiredIs(lim: Limits, ttl: int, m: Memory, p: string, now: int)
    requires ttl > 0 && now >= 0
    ensures var (m', v) := (MemoryAcquire(lim, ttl, m, p, now).0, MemoryView(lim, m, Normal(p), now));
            && Normal(p) in m' && m'[Normal(p)].lastTouched == now
            && (m'[Normal(p)].tokens, m'[Normal(p)].lastRefill) == (Decide(lim, v, now).0.tokens, Decide(lim, v, now).0.lastRefill)
            && (forall q :: q in m' && q != Normal(p) ==> q in m && m'[q] == m[q])
  {
  }

  lemma MemoryAcquireKeeps(lim: Limits, ttl: int, m: Memory, p: string, now: int)
    requires ValidLimits(lim) && ttl > 0 && 0 <= now && MemoryKept(lim, m, now)
    ensures MemoryKept(lim, MemoryAcquire(lim, ttl, m, p, now).0, now)
  {
    AcquiredIs(lim, ttl, m, p, now);
    FullIsEarned(lim);
    assert Normal(p) in m ==> BucketKept(lim, m[Normal(p)], now);
    DecideKeepsEarned(lim, MemoryView(lim, m, Normal(p), now), now);
    DecidedBefore(lim, MemoryView(lim, m, Normal(p), now), now);
  }

  lemma DecidedBefore(lim: Limits, b: Bucket, now: int)
    requires b.lastRefill <= now
    ensures Decide(lim, b, now).0.lastRefill <= now
  {
  }

  lemma MemoryStepKeeps(lim: Limits, ttl: int, m: Memory, c: Call, before: int)
    requires ValidLimits(lim) && ttl > 0 && 0 <= before <= c.now && MemoryKept(lim, m, before)
    ensures MemoryKept(lim, MemoryStep(lim, ttl, m, c).0, c.now)
  {
    assert MemoryKept(lim, m, c.now);
    match c {
      case Acquire(p, now) => MemoryAcquireKeeps(lim, ttl, m, p, now);
      case BlockUntil(p, until, now) => FullIsEarned(lim);
    }
  }

  predicate ShortRequests(ttl: int, cs: seq<Call>)
  {
    forall i :: 0 <= i < |cs| && cs[i].BlockUntil? ==> cs[i].until <= cs[i].now + ttl + 1
  }

  /** No block the caller asks for, and none the limiter sets itself, outlives an idle bucket. */
  predicate ShortBlocks(lim: Limits, ttl: int, cs: seq<Call>)
  {
    && Retry(lim) <= ttl + 1
    && ShortRequests(ttl, cs)
  }

  lemma MemoryStepKeepsBlocks(lim: Limits, ttl: int, m: Memory, c: Call, before: int)
    requires ValidLimits(lim) && ttl > 0 && 0 <= before <= c.now && MemoryKept(lim, m, before) && BlocksKept(m, ttl)
    requires ShortBlocks(lim, ttl, [c])
    ensures BlocksKept(MemoryStep(lim, ttl, m, c).0, ttl)
  {
    assert c.BlockUntil? ==> [c][0].until <= c.now + ttl + 1;
  }

  ghost predicate MemoryRefines(lim: Limits, m: Memory, a: Abstract, now: int)
  {
    forall p :: Same(lim, AbstractBucket(lim, a, p, now), MemoryView(lim, m, p, now), now)
  }

  lemma StaleIsFull(lim: Limits, ttl: int, m: Memory, now: int, p: string)
    requires ValidLimits(lim) && ttl > 0 && Covered(lim, ttl) && MemoryKept(lim, m, now) && BlocksKept(m, ttl)
    requires p in m && Stale(ttl, m[p], now)
    ensures Full(lim, MemoryView(lim, m, p, now), now) && m[p].blockedUntil <= now
  {
    assert BucketKept(lim, m[p], now);
    RestIsFull(lim, ttl, MemoryView(lim, m, p, now), now);
  }

  lemma FreshIsSame(lim: Limits, x: Bucket, y: Bucket, now: int)
    requires now >= 0 && Same(lim, x, y, now) && Full(lim, y, now) && y.blockedUntil <= now
    ensures Same(lim, x, Bucket(lim.burst, now, ZERO_TIME), now)
  {
    assert Refill(lim, 0) == 0.0;
  }

  lemma EvictionUnseen(lim: Limits, ttl: int, m: Memory, a: Abstract, now: int, p: string)
    requires ValidLimits(lim) && ttl > 0 && Covered(lim, ttl)
    requires MemoryKept(lim, m, now) && BlocksKept(m, ttl)
    requires Same(lim, AbstractBucket(lim, a, p, now), MemoryView(lim, m, p, now), now)
    requires now >= 0
    ensures Same(lim, AbstractBucket(lim, a, p, now), MemoryView(lim, Evict(ttl, m, now), p, now), now)
  {
    if p in m && Stale(ttl, m[p], now) {
      StaleIsFull(lim, ttl, m, now, p);
      FreshIsSame(lim, AbstractBucket(lim, a, p, now), MemoryView(lim, m, p, now), now);
    }
  }

  lemma MemoryRefinesLater(lim: Limits, m: Memory, a: Abstract, now: int, later: int)
    requires ValidLimits(lim) && 0 <= now <= later && MemoryRefines(lim, m, a, now)
    ensures MemoryRefines(lim, m, a, later)
  {
    forall p ensures Same(lim, AbstractBucket(lim, a, p, later), MemoryView(lim, m, p, later), later) {
      var x, y := AbstractBucket(lim, a, p, now), MemoryView(lim, m, p, now);
      assert Same(lim, x, y, now);
      SameStays(lim, x, y, now, later);
    }
  }

  lemma MemoryAcquireView(lim: Limits, ttl: int, m: Memory, q: string, now: int)
    requires ttl > 0 && now >= 0
    ensures MemoryAcquire(lim, ttl, m, q, now).1 == Decide(lim, MemoryView(lim, m, Normal(q), now), now).1
    ensures MemoryView(lim, MemoryAcquire(lim, ttl, m, q, now).0, Normal(q), now) == Decide(lim, MemoryView(lim, m, Normal(q), now), now).0
    ensures forall p :: p != Normal(q) ==>
      MemoryView(lim, MemoryAcquire(lim, ttl, m, q, now).0, p, now) == MemoryView(lim, Evict(ttl, m, now), p, now)
  {
  }

  lemma MemoryBlockView(lim: Limits, m: Memory, q: string, until: int, now: int)
    ensures var b := MemoryView(lim, m, Normal(q), now);
            MemoryView(lim, MemoryBlock(lim, m, q, until, now), Normal(q), now) == b.(blockedUntil := Max(b.blockedUntil, until))
    ensures forall p :: p != Normal(q) ==> MemoryView(lim, MemoryBlock(lim, m, q, until, now), p, now) == MemoryView(lim, m, p, now)
  {
  }

  lemma AbstractStepView(lim: Limits, a: Abstract, c: Call)
    ensures var q := Normal(c.provider);
            var b := AbstractBucket(lim, a, q, c.now);
            var (a', x) := AbstractStep(lim, a, c);
            && (forall p :: p != q ==> AbstractBucket(lim, a', p, c.now) == AbstractBucket(lim, a, p, c.now))
            && (c.Acquire? ==> (AbstractBucket(lim, a', q, c.now), x) == Decide(lim, b, c.now))
            && (c.BlockUntil? ==> AbstractBucket(lim, a', q, c.now) == b.(blockedUntil := Max(b.blockedUntil, c.until)))
  {
  }

  lemma MemoryStepRefines(lim: Limits, ttl: int, m: Memory, a: Abstract, c: Call)
    requires ValidLimits(lim) && ttl > 0 && Covered(lim, ttl) && c.now >= 0
    requires MemoryKept(lim, m, c.now) && BlocksKept(m, ttl)
    requires MemoryRefines(lim, m, a, c.now)
    ensures MemoryStep(lim, ttl, m, c).1 == AbstractStep(lim, a, c).1
    ensures MemoryRefines(lim, MemoryStep(lim, ttl, m, c).0, AbstractStep(lim, a, c).0, c.now)
  {
    var q := Normal(c.provider);
    var x, y := AbstractBucket(lim, a, q, c.now), MemoryView(lim, m, q, c.now);
    assert Same(lim, x, y, c.now);
    AbstractStepView(lim, a, c);
    var m', a' := MemoryStep(lim, ttl, m, c).0, AbstractStep(lim, a, c).0;
    match c {
      case Acquire(provider, now) =>
        MemoryAcquireView(lim, ttl, m, provider, now);
        SameDecidesSame(lim, x, y, now);
        forall p | p != q ensures Same(lim, AbstractBucket(lim, a', p, c.now), MemoryView(lim, m', p, c.now), c.now) {
          EvictionUnseen(lim, ttl, m, a, now, p);
        }
      case BlockUntil(provider, until, now) =>
        MemoryBlockView(lim, m, provider, until, now);
    }
  }

  lemma {:induction false} MemoryRunRefines(lim: Limits, ttl: int, cs: seq<Call>, now: int)
    requires ValidLimits(lim) && ttl > 0 && Covered(lim, ttl) && Ordered(cs) && ShortBlocks(lim, ttl, cs)
    requires now >= 0 && forall i :: 0 <= i < |cs| ==> cs[i].now <= now
    ensures MemoryRun(lim, ttl, cs).1 == AbstractRun(lim, cs).1
    ensures MemoryKept(lim, MemoryRun(lim, ttl, cs).0, now) && BlocksKept(MemoryRun(lim, ttl, cs).0, ttl)
    ensures MemoryRefines(lim, MemoryRun(lim, ttl, cs).0, AbstractRun(lim, cs).0, now)
  {
    if cs == [] {
      return;
    }
    var init, c := cs[..|cs| - 1], cs[|cs| - 1];
    MemoryRunRefines(lim, ttl, init, c.now);
    var m, a := MemoryRun(lim, ttl, init).0, AbstractRun(lim, init).0;
    MemoryStepRefines(lim, ttl, m, a, c);
    MemoryStepKeeps(lim, ttl, m, c, c.now);
    MemoryStepKeepsBlocks(lim, ttl, m, c, c.now);
    MemoryRefinesLater(lim, MemoryStep(lim, ttl, m, c).0, AbstractStep(lim, a, c).0, c.now, now);
  }

  // ----- The Redis limiter -----

  function RedisView(lim: Limits, r: Redis, p: string, now: int): Bucket
  {
    var found := Lookup(r, p, now);
    HashBucket(lim, if found.Some? then found.value else NO_HASH, now)
  }

  ghost predicate HashKept(lim: Limits, ttl: int, h: Hash, now: int)
    requires ValidLimits(lim)
  {
    && h.expireAt <= now + ttl
    && h.tokens.Some? == h.lastRefill.Some?
    && (h.tokens.Some? ==> 0.0 <= h.tokens.value <= lim.burst && Earned(lim, h.tokens.value)
                           && h.lastRefill.value <= now && h.lastRefill.value + ttl <= h.expireAt)
  }

  ghost predicate RedisKept(lim: Limits, ttl: int, r: Redis, now: int)
    requires ValidLimits(lim)
  {
    forall p :: p in r ==> HashKept(lim, ttl, r[p], now)
  }

  predicate HashBlocksKept(r: Redis)
  {
    forall p :: p in r && r[p].blockedUntil.Some? ==> r[p].blockedUntil.value <= r[p].expireAt + 1
  }

  lemma AcquiredHashIs(lim: Limits, ttl: int, r: Redis, p: string, now: int)
    ensures var (r', v) := (RedisAcquire(lim, ttl, r, p, now).0, RedisView(lim, r, Normal(p), now));
            || r' == r
            || (exists h :: r' == r[Normal(p) := h] && h.tokens == Some(Decide(lim, v, now).0.tokens) && h.lastRefill == Some(now) && h.expireAt == now + ttl)
  {
    var r' := RedisAcquire(lim, ttl, r, p, now).0;
    if r' != r { assert r' == r[Normal(p) := r'[Normal(p)]]; }
  }

  lemma RedisAcquireKeeps(lim: Limits, ttl: int, r: Redis, p: string, now: int)
    requires ValidLimits(lim) && ttl > 0 && RedisKept(lim, ttl, r, now)
    ensures RedisKept(lim, ttl, RedisAcquire(lim, ttl, r, p, now).0, now)
  {
    AcquiredHashIs(lim, ttl, r, p, now);
    FullIsEarned(lim);
    assert Normal(p) in r ==> HashKept(lim, ttl, r[Normal(p)], now);
    DecideKeepsEarned(lim, RedisView(lim, r, Normal(p), now), now);
  }

  lemma RedisStepKeeps(lim: Limits, ttl: int, r: Redis, c: Call, before: int)
    requires ValidLimits(lim) && ttl > 0 && before <= c.now && RedisKept(lim, ttl, r, before)
    ensures RedisKept(lim, ttl, RedisStep(lim, ttl, r, c).0, c.now)
  {
    assert RedisKept(lim, ttl, r, c.now);
    if c.Acquire? { RedisAcquireKeeps(lim, ttl, r, c.provider, c.now); }
  }

  lemma RedisStepKeepsBlocks(lim: Limits, ttl: int, r: Redis, c: Call)
    requires ValidLimits(lim) && ttl > 0 && ShortBlocks(lim, ttl, [c]) && RedisKept(lim, ttl, r, c.now) && HashBlocksKept(r)
    ensures HashBlocksKept(RedisStep(lim, ttl, r, c).0)
  {
    assert c.BlockUntil? ==> [c][0].until <= c.now + ttl + 1;
  }

  ghost predicate RedisRefines(lim: Limits, r: Redis, a: Abstract, now: int)
  {
    forall p :: Same(lim, AbstractBucket(lim, a, p, now), RedisView(lim, r, p, now), now)
  }

  lemma ExpiredIsFull(lim: Limits, ttl: int, r: Redis, p: string, now: int, later: int)
    requires ValidLimits(lim) && ttl > 0 && Covered(lim, ttl) && RedisKept(lim, ttl, r, now) && HashBlocksKept(r)
    requires 0 <= now <= later && p in r && now <= r[p].expireAt < later
    ensures Full(lim, RedisView(lim, r, p, now), later) && RedisView(lim, r, p, now).blockedUntil <= later
  {
    assert HashKept(lim, ttl, r[p], now);
    if r[p].tokens.Some? {
      RestIsFull(lim, ttl, RedisView(lim, r, p, now), later);
    } else {
      RefillGrows(lim, 0, later - now);
    }
  }

  lemma AbsentIsSame(lim: Limits, x: Bucket, y: Bucket, now: int)
    requires now >= 0 && Same(lim, x, y, now) && Full(lim, y, now) && y.blockedUntil <= now
    ensures Same(lim, x, Bucket(lim.burst, now, 0), now)
  {
    assert Refill(lim, 0) == 0.0;
  }

  /** Without a token count there is a full bucket, whenever one looks. */
  lemma UncountedIsSame(lim: Limits, r: Redis, x: Bucket, p: string, now: int, later: int)
    requires ValidLimits(lim) && 0 <= now <= later && Same(lim, x, RedisView(lim, r, p, now), later)
    requires p in r && later <= r[p].expireAt && r[p].tokens.None? && r[p].lastRefill.None?
    ensures Same(lim, x, RedisView(lim, r, p, later), later)
  {
    RefillGrows(lim, 0, later - now);
    assert Refill(lim, 0) == 0.0;
  }

  lemma ExpiryUnseen(lim: Limits, ttl: int, r: Redis, x: Bucket, p: string, now: int, later: int)
    requires ValidLimits(lim) && ttl > 0 && Covered(lim, ttl) && 0 <= now <= later && RedisKept(lim, ttl, r, now) && HashBlocksKept(r)
    requires Same(lim, x, RedisView(lim, r, p, now), later)
    ensures Same(lim, x, RedisView(lim, r, p, later), later)
  {
    var y := RedisView(lim, r, p, now);
    if p !in r || r[p].expireAt < now {
      RefillGrows(lim, 0, later - now);
      AbsentIsSame(lim, x, y, later);
    } else if r[p].expireAt < later {
      ExpiredIsFull(lim, ttl, r, p, now, later);
      AbsentIsSame(lim, x, y, later);
    } else if r[p].tokens.None? {
      assert HashKept(lim, ttl, r[p], now);
      UncountedIsSame(lim, r, x, p, now, later);
    }
  }

  /** Waiting, with the keys expiring meanwhile. */
  lemma RedisRefinesLater(lim: Limits, ttl: int, r: Redis, a: Abstract, now: int, later: int)
    requires ValidLimits(lim) && ttl > 0 && Covered(lim, ttl) && 0 <= now <= later
    requires RedisKept(lim, ttl, r, now) && HashBlocksKept(r) && RedisRefines(lim, r, a, now)
    ensures RedisRefines(lim, r, a, later)
  {
    forall p ensures Same(lim, AbstractBucket(lim, a, p, later), RedisView(lim, r, p, later), later) {
      var x, y := AbstractBucket(lim, a, p, now), RedisView(lim, r, p, now);
      assert Same(lim, x, y, now);
      if p in a {
        SameStays(lim, x, y, now, later);
      } else {
        FreshStays(lim, y, now, later);
      }
      ExpiryUnseen(lim, ttl, r, AbstractBucket(lim, a, p, later), p, now, later);
    }
  }

  lemma FreshStays(lim: Limits, y: Bucket, now: int, later: int)
    requires ValidLimits(lim) && 0 <= now <= later && Same(lim, Bucket(lim.burst, now, 0), y, now)
    ensures Same(lim, Bucket(lim.burst, later, 0), y, later)
  {
    assert Full(lim, y, now);
    FullStays(lim, y, now, later);
  }

  lemma RedisAcquireView(lim: Limits, ttl: int, r: Redis, q: string, now: int)
    requires ttl > 0
    ensures RedisAcquire(lim, ttl, r, q, now).1 == Decide(lim, RedisView(lim, r, Normal(q), now), now).1
    ensures RedisView(lim, RedisAcquire(lim, ttl, r, q, now).0, Normal(q), now) == Decide(lim, RedisView(lim, r, Normal(q), now), now).0
    ensures forall p :: p != Normal(q) ==> RedisView(lim, RedisAcquire(lim, ttl, r, q, now).0, p, now) == RedisView(lim, r, p, now)
  {
  }

  lemma RedisBlockView(lim: Limits, ttl: int, r: Redis, q: string, until: int, now: int)
    requires ttl > 0
    ensures var b := RedisView(lim, r, Normal(q), now);
            RedisView(lim, RedisBlock(ttl, r, q, until, now), Normal(q), now) == b.(blockedUntil := Max(b.blockedUntil, until))
    ensures forall p :: p != Normal(q) ==> RedisView(lim, RedisBlock(ttl, r, q, until, now), p, now) == RedisView(lim, r, p, now)
  {
  }

  lemma RedisStepRefines(lim: Limits, ttl: int, r: Redis, a: Abstract, c: Call)
    requires ValidLimits(lim) && ttl > 0 && RedisRefines(lim, r, a, c.now)
    ensures RedisStep(lim, ttl, r, c).1 == AbstractStep(lim, a, c).1
    ensures RedisRefines(lim, RedisStep(lim, ttl, r, c).0, AbstractStep(lim, a, c).0, c.now)
  {
    var q := Normal(c.provider);
    var x, y := AbstractBucket(lim, a, q, c.now), RedisView(lim, r, q, c.now);
    assert Same(lim, x, y, c.now);
    AbstractStepView(lim, a, c);
    match c {
      case Acquire(provider, now) =>
        RedisAcquireView(lim, ttl, r, provider, now);
        SameDecidesSame(lim, x, y, now);
      case BlockUntil(provider, until, now) =>
        RedisBlockView(lim, ttl, r, provider, until, now);
    }
    var r', a' := RedisStep(lim, ttl, r, c).0, AbstractStep(lim, a, c).0;
    forall p ensures Same(lim, AbstractBucket(lim, a', p, c.now), RedisView(lim, r', p, c.now), c.now) {
      assert Same(lim, AbstractBucket(lim, a, p, c.now), RedisView(lim, r, p, c.now), c.now);
    }
  }

  lemma {:induction false} RedisRunRefines(lim: Limits, ttl: int, cs: seq<Call>, now: int)
    requires ValidLimits(lim) && ttl > 0 && Covered(lim, ttl) && Ordered(cs) && ShortBlocks(lim, ttl, cs)
    requires now >= 0 && forall i :: 0 <= i < |cs| ==> cs[i].now <= now
    ensures RedisRun(lim, ttl, cs).1 == AbstractRun(lim, cs).1
    ensures RedisKept(lim, ttl, RedisRun(lim, ttl, cs).0, now) && HashBlocksKept(RedisRun(lim, ttl, cs).0)
    ensures RedisRefines(lim, RedisRun(lim, ttl, cs).0, AbstractRun(lim, cs).0, now)
  {
    if cs == [] {
      return;
    }
    var init, c := cs[..|cs| - 1], cs[|cs| - 1];
    RedisRunRefines(lim, ttl, init, c.now);
    var r, a := RedisRun(lim, ttl, init).0, AbstractRun(lim, init).0;
    RedisStepRefines(lim, ttl, r, a, c);
    RedisStepKeeps(lim, ttl, r, c, c.now);
    RedisStepKeepsBlocks(lim, ttl, r, c);
    RedisRefinesLater(lim, ttl, RedisStep(lim, ttl, r, c).0, AbstractStep(lim, a, c).0, c.now, now);
  }

  /** Forgetting is invisible: both limiters give the answers of the limiter that never forgets. */
  lemma BothRefineOneBucket(lim: Limits, ttl: int, cs: seq<Call>)
    requires ValidLimits(lim) && ttl > 0 && Covered(lim, ttl) && Ordered(cs) && ShortBlocks(lim, ttl, cs)
    ensures MemoryRun(lim, ttl, cs).1 == AbstractRun(lim, cs).1 == RedisRun(lim, ttl, cs).1
  {
    var now := if cs == [] then 0 else cs[|cs| - 1].now;
    MemoryRunRefines(lim, ttl, cs, now);
    RedisRunRefines(lim, ttl, cs, now);
  }
}
