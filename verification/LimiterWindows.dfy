/** How much a limiter can grant in a window.

    What a bucket can hand out is a potential: a grant lowers it by one, waiting raises it by the
    refill, and forgetting the bucket leaves it alone as long as the bucket was full. `LifeIsBounded`
    makes the argument once, for one provider's level over time; the memory, Redis and abstract
    limiters each give such a life.
 */
module LimiterWindows {
  import opened Ordering
  import opened Limiter
  import opened LimiterBusy
  import opened LimiterRefinement

  function Grant(p: string, c: Call, x: Answer): nat
  {
    if c.Acquire? && Normal(c.provider) == p && x == Granted then 1 else 0
  }

  /** How often `p` was granted among the calls i, …, j - 1. */
  function Grants(p: string, cs: seq<Call>, answers: seq<Answer>, i: nat, j: nat): nat
    requires i <= j <= |cs| == |answers|
  {
    if i == j then 0 else Grants(p, cs, answers, i, j - 1) + Grant(p, cs[j - 1], answers[j - 1])
  }

  /** Grants in the calls i, …, j - 1 stay within burst + rate × the seconds they span. */
  predicate Bounded(lim: Limits, p: string, cs: seq<Call>, answers: seq<Answer>, i: nat, j: nat)
    requires i < j <= |cs| == |answers|
  {
    Grants(p, cs, answers, i, j) as real <= lim.burst + lim.rate * (cs[j - 1].now - cs[i].now) as real / 1000.0
  }

  // ----- One provider's level over time -----

  datatype Level = Level(tokens: real, lastRefill: int)

  function Potential(lim: Limits, l: Option<Level>, now: int): real
  {
    if l.None? then lim.burst else MinReal(lim.burst, l.value.tokens + Refill(lim, Elapsed(l.value.lastRefill, now)))
  }

  predicate LevelKept(lim: Limits, l: Option<Level>, now: int)
  {
    l.Some? ==> 0.0 <= l.value.tokens <= lim.burst && l.value.lastRefill <= now
  }

  /** What a call at `now` may do to the level: leave it, forget it when full, or top it up and grant. */
  predicate Moves(lim: Limits, before: Option<Level>, after: Option<Level>, now: int, grant: nat)
  {
    && LevelKept(lim, after, now)
    && (|| (after == before && grant == 0)
        || (after.None? && grant == 0 && Potential(lim, before, now) == lim.burst)
        || (after.Some? && after.value.lastRefill == now && after.value.tokens + grant as real == Potential(lim, before, now)))
  }

  /** The levels of a provider before and after each call of a run. */
  predicate Life(lim: Limits, p: string, cs: seq<Call>, answers: seq<Answer>, ls: seq<Option<Level>>)
  {
    && |answers| == |cs| && |ls| == |cs| + 1 && ls[0].None?
    && forall k :: 0 <= k < |cs| ==> Moves(lim, ls[k], ls[k + 1], cs[k].now, Grant(p, cs[k], answers[k]))
  }

  lemma MovePays(lim: Limits, before: Option<Level>, after: Option<Level>, now: int, grant: nat)
    requires ValidLimits(lim) && Moves(lim, before, after, now, grant)
    ensures Potential(lim, after, now) + grant as real == Potential(lim, before, now)
  {
  }

  lemma PotentialWaits(lim: Limits, l: Option<Level>, now: int, later: int)
    requires ValidLimits(lim) && LevelKept(lim, l, now) && now <= later
    ensures Potential(lim, l, later) <= Potential(lim, l, now) + Refill(lim, later - now)
  {
    RefillGrows(lim, 0, later - now);
    if l.Some? { RefillAdds(lim, now - l.value.lastRefill, later - now); }
  }

  lemma {:induction false} LifeSpends(lim: Limits, p: string, cs: seq<Call>, answers: seq<Answer>, ls: seq<Option<Level>>, i: nat, j: nat)
    requires ValidLimits(lim) && Ordered(cs) && Life(lim, p, cs, answers, ls) && i < j <= |cs|
    ensures Grants(p, cs, answers, i, j) as real + Potential(lim, ls[j], cs[j - 1].now) <= lim.burst + Refill(lim, cs[j - 1].now - cs[i].now)
  {
    var k := j - 1;
    assert Moves(lim, ls[k], ls[k + 1], cs[k].now, Grant(p, cs[k], answers[k]));
    MovePays(lim, ls[k], ls[j], cs[k].now, Grant(p, cs[k], answers[k]));
    if k == i {
      assert Grants(p, cs, answers, i, i) == 0;
    } else {
      LifeSpends(lim, p, cs, answers, ls, i, k);
      assert Moves(lim, ls[k - 1], ls[k], cs[k - 1].now, Grant(p, cs[k - 1], answers[k - 1]));
      PotentialWaits(lim, ls[k], cs[k - 1].now, cs[k].now);
      RefillAdds(lim, cs[k].now - cs[k - 1].now, cs[k - 1].now - cs[i].now);
    }
  }

  lemma LifeIsBounded(lim: Limits, p: string, cs: seq<Call>, answers: seq<Answer>, ls: seq<Option<Level>>, i: nat, j: nat)
    requires ValidLimits(lim) && Ordered(cs) && Life(lim, p, cs, answers, ls) && i < j <= |cs|
    ensures Bounded(lim, p, cs, answers, i, j)
  {
    LifeSpends(lim, p, cs, answers, ls, i, j);
    RefillIsPerSecond(lim, cs[j - 1].now - cs[i].now);
    assert Moves(lim, ls[j - 1], ls[j], cs[j - 1].now, Grant(p, cs[j - 1], answers[j - 1]));
    if ls[j].Some? { RefillGrows(lim, 0, Elapsed(ls[j].value.lastRefill, cs[j - 1].now)); }
  }

  lemma LifeExtends(lim: Limits, p: string, cs: seq<Call>, answers: seq<Answer>, ls: seq<Option<Level>>, c: Call, x: Answer, l: Option<Level>)
    requires Life(lim, p, cs, answers, ls) && Moves(lim, ls[|cs|], l, c.now, Grant(p, c, x))
    ensures Life(lim, p, cs + [c], answers + [x], ls + [l])
  {
  }

  /** A decision on a bucket, seen as a move of its level. */
  lemma DecideMoves(lim: Limits, b: Bucket, before: Option<Level>, now: int)
    requires ValidLimits(lim) && 0.0 <= b.tokens <= lim.burst && Potential(lim, before, now) == Available(lim, b, now)
    requires b.blockedUntil <= now
    ensures var (b', x) := Decide(lim, b, now);
            Moves(lim, before, Some(Level(b'.tokens, b'.lastRefill)), now, if x == Granted then 1 else 0)
  {
    RefillGrows(lim, 0, Elapsed(b.lastRefill, now));
  }

  // ----- The memory limiter -----

  function MemoryLevel(m: Memory, p: string): Option<Level>
  {
    if p in m then Some(Level(m[p].tokens, m[p].lastRefill)) else None
  }

  lemma EvictionMoves(lim: Limits, ttl: int, m: Memory, p: string, now: int)
    requires ValidLimits(lim) && ttl > 0 && Covered(lim, ttl) && MemoryKept(lim, m, now)
    ensures Moves(lim, MemoryLevel(m, p), MemoryLevel(Evict(ttl, m, now), p), now, 0)
  {
    if p in m && Stale(ttl, m[p], now) {
      RestIsFull(lim, ttl, MemoryView(lim, m, p, now), now);
    }
  }

  lemma MemoryAcquireMoves(lim: Limits, ttl: int, m: Memory, q: string, now: int, p: string)
    requires ValidLimits(lim) && ttl > 0 && Covered(lim, ttl) && now >= 0 && MemoryKept(lim, m, now)
    ensures var (m', x) := MemoryAcquire(lim, ttl, m, q, now);
            Moves(lim, MemoryLevel(m, p), MemoryLevel(m', p), now, Grant(p, Acquire(q, now), x))
  {
    if p != Normal(q) {
      EvictionMoves(lim, ttl, m, p, now);
    } else {
      var v := MemoryView(lim, m, p, now);
      if v.blockedUntil <= now { DecideMoves(lim, v, MemoryLevel(m, p), now); }
    }
  }

  lemma MemoryStepMoves(lim: Limits, ttl: int, m: Memory, c: Call, p: string)
    requires ValidLimits(lim) && ttl > 0 && Covered(lim, ttl) && c.now >= 0 && MemoryKept(lim, m, c.now)
    ensures var (m', x) := MemoryStep(lim, ttl, m, c);
            Moves(lim, MemoryLevel(m, p), MemoryLevel(m', p), c.now, Grant(p, c, x))
  {
    if c.Acquire? { MemoryAcquireMoves(lim, ttl, m, c.provider, c.now, p); }
  }

  lemma {:induction false} MemoryRunKeeps(lim: Limits, ttl: int, cs: seq<Call>, now: int)
    requires ValidLimits(lim) && ttl > 0 && Ordered(cs) && now >= 0 && forall i :: 0 <= i < |cs| ==> cs[i].now <= now
    ensures MemoryKept(lim, MemoryRun(lim, ttl, cs).0, now)
  {
    if cs != [] {
      var c := cs[|cs| - 1];
      MemoryRunKeeps(lim, ttl, cs[..|cs| - 1], c.now);
      MemoryStepKeeps(lim, ttl, MemoryRun(lim, ttl, cs[..|cs| - 1]).0, c, c.now);
    }
  }

  lemma {:induction false} MemoryLife(lim: Limits, ttl: int, cs: seq<Call>, p: string) returns (ls: seq<Option<Level>>)
    requires ValidLimits(lim) && ttl > 0 && Covered(lim, ttl) && Ordered(cs)
    ensures Life(lim, p, cs, MemoryRun(lim, ttl, cs).1, ls) && ls[|cs|] == MemoryLevel(MemoryRun(lim, ttl, cs).0, p)
  {
    if cs == [] {
      ls := [None];
    } else {
      var init, c := cs[..|cs| - 1], cs[|cs| - 1];
      var (m, answers) := MemoryRun(lim, ttl, init);
      var before := MemoryLife(lim, ttl, init, p);
      MemoryRunKeeps(lim, ttl, init, c.now);
      MemoryStepMoves(lim, ttl, m, c, p);
      var (m', x) := MemoryStep(lim, ttl, m, c);
      LifeExtends(lim, p, init, answers, before, c, x, MemoryLevel(m', p));
      assert init + [c] == cs;
      ls := before + [MemoryLevel(m', p)];
    }
  }

  lemma MemoryGrantsAreBounded(lim: Limits, ttl: int, cs: seq<Call>, p: string, i: nat, j: nat)
    requires ValidLimits(lim) && ttl > 0 && Covered(lim, ttl) && Ordered(cs) && i < j <= |cs|
    ensures |MemoryRun(lim, ttl, cs).1| == |cs| && Bounded(lim, p, cs, MemoryRun(lim, ttl, cs).1, i, j)
  {
    var ls := MemoryLife(lim, ttl, cs, p);
    LifeIsBounded(lim, p, cs, MemoryRun(lim, ttl, cs).1, ls, i, j);
  }

  /** The tokens of every bucket stay between nothing and the burst, whatever the lifetime and the blocks. */
  lemma TokensStayInRange(lim: Limits, ttl: int, cs: seq<Call>, p: string)
    requires ValidLimits(lim) && ttl > 0 && Ordered(cs) && p in MemoryRun(lim, ttl, cs).0
    ensures 0.0 <= MemoryRun(lim, ttl, cs).0[p].tokens <= lim.burst
  {
    MemoryRunKeeps(lim, ttl, cs, cs[|cs| - 1].now);
    assert BucketKept(lim, MemoryRun(lim, ttl, cs).0[p], cs[|cs| - 1].now);
  }

  // ----- The Redis limiter -----

  /** The level stored under a key, expired or not. */
  function RedisLevel(r: Redis, p: string): Option<Level>
  {
    if p in r && r[p].tokens.Some? && r[p].lastRefill.Some? then Some(Level(r[p].tokens.value, r[p].lastRefill.value)) else None
  }

  lemma ExpiredHasAll(lim: Limits, ttl: int, r: Redis, p: string, now: int)
    requires ValidLimits(lim) && ttl > 0 && Covered(lim, ttl) && RedisKept(lim, ttl, r, now) && p in r && now > r[p].expireAt
    ensures Potential(lim, RedisLevel(r, p), now) == lim.burst
  {
    assert HashKept(lim, ttl, r[p], now);
    if RedisLevel(r, p).Some? {
      RestIsFull(lim, ttl, Bucket(r[p].tokens.value, r[p].lastRefill.value, 0), now);
    }
  }

  lemma RedisPotential(lim: Limits, ttl: int, r: Redis, p: string, now: int)
    requires ValidLimits(lim) && ttl > 0 && Covered(lim, ttl) && RedisKept(lim, ttl, r, now)
    ensures var v := RedisView(lim, r, p, now);
            Potential(lim, RedisLevel(r, p), now) == Available(lim, v, now) && 0.0 <= v.tokens <= lim.burst
  {
    if p in r {
      assert HashKept(lim, ttl, r[p], now);
      if now > r[p].expireAt { ExpiredHasAll(lim, ttl, r, p, now); }
    }
  }

  lemma RedisAcquireMoves(lim: Limits, ttl: int, r: Redis, q: string, now: int, p: string)
    requires ValidLimits(lim) && ttl > 0 && Covered(lim, ttl) && RedisKept(lim, ttl, r, now)
    ensures var (r', x) := RedisAcquire(lim, ttl, r, q, now);
            Moves(lim, RedisLevel(r, p), RedisLevel(r', p), now, Grant(p, Acquire(q, now), x))
  {
    assert p in r ==> HashKept(lim, ttl, r[p], now);
    if p == Normal(q) {
      var v := RedisView(lim, r, p, now);
      RedisPotential(lim, ttl, r, p, now);
      if v.blockedUntil <= now { DecideMoves(lim, v, RedisLevel(r, p), now); }
    }
  }

  lemma RedisBlockMoves(lim: Limits, ttl: int, r: Redis, q: string, until: int, now: int, p: string)
    requires ValidLimits(lim) && ttl > 0 && Covered(lim, ttl) && RedisKept(lim, ttl, r, now)
    ensures Moves(lim, RedisLevel(r, p), RedisLevel(RedisBlock(ttl, r, q, until, now), p), now, 0)
  {
    assert p in r ==> HashKept(lim, ttl, r[p], now);
    if p in r && now > r[p].expireAt { ExpiredHasAll(lim, ttl, r, p, now); }
  }

  lemma {:induction false} RedisRunKeeps(lim: Limits, ttl: int, cs: seq<Call>, now: int)
    requires ValidLimits(lim) && ttl > 0 && Ordered(cs) && forall i :: 0 <= i < |cs| ==> cs[i].now <= now
    ensures RedisKept(lim, ttl, RedisRun(lim, ttl, cs).0, now)
  {
    if cs != [] {
      var c := cs[|cs| - 1];
      RedisRunKeeps(lim, ttl, cs[..|cs| - 1], c.now);
      RedisStepKeeps(lim, ttl, RedisRun(lim, ttl, cs[..|cs| - 1]).0, c, c.now);
    }
  }

  lemma RedisStepMoves(lim: Limits, ttl: int, r: Redis, c: Call, p: string)
    requires ValidLimits(lim) && ttl > 0 && Covered(lim, ttl) && RedisKept(lim, ttl, r, c.now)
    ensures var (r', x) := RedisStep(lim, ttl, r, c);
            Moves(lim, RedisLevel(r, p), RedisLevel(r', p), c.now, Grant(p, c, x))
  {
    match c {
      case Acquire(q, now) => RedisAcquireMoves(lim, ttl, r, q, now, p);
      case BlockUntil(q, until, now) => RedisBlockMoves(lim, ttl, r, q, until, now, p);
    }
  }

  lemma {:induction false} RedisLife(lim: Limits, ttl: int, cs: seq<Call>, p: string) returns (ls: seq<Option<Level>>)
    requires ValidLimits(lim) && ttl > 0 && Covered(lim, ttl) && Ordered(cs)
    ensures Life(lim, p, cs, RedisRun(lim, ttl, cs).1, ls) && ls[|cs|] == RedisLevel(RedisRun(lim, ttl, cs).0, p)
  {
    if cs == [] {
      ls := [None];
    } else {
      var init, c := cs[..|cs| - 1], cs[|cs| - 1];
      var (r, answers) := RedisRun(lim, ttl, init);
      var before := RedisLife(lim, ttl, init, p);
      RedisRunKeeps(lim, ttl, init, c.now);
      RedisStepMoves(lim, ttl, r, c, p);
      var (r', x) := RedisStep(lim, ttl, r, c);
      LifeExtends(lim, p, init, answers, before, c, x, RedisLevel(r', p));
      assert init + [c] == cs;
      ls := before + [RedisLevel(r', p)];
    }
  }

  lemma RedisGrantsAreBounded(lim: Limits, ttl: int, cs: seq<Call>, p: string, i: nat, j: nat)
    requires ValidLimits(lim) && ttl > 0 && Covered(lim, ttl) && Ordered(cs) && i < j <= |cs|
    ensures |RedisRun(lim, ttl, cs).1| == |cs| && Bounded(lim, p, cs, RedisRun(lim, ttl, cs).1, i, j)
  {
    var ls := RedisLife(lim, ttl, cs, p);
    LifeIsBounded(lim, p, cs, RedisRun(lim, ttl, cs).1, ls, i, j);
  }

  // ----- The abstract limiter -----

  function AbstractLevel(a: Abstract, p: string): Option<Level>
  {
    if p in a then Some(Level(a[p].tokens, a[p].lastRefill)) else None
  }

  lemma AbstractStepMoves(lim: Limits, a: Abstract, c: Call, p: string)
    requires ValidLimits(lim) && LevelKept(lim, AbstractLevel(a, p), c.now)
    ensures var (a', x) := AbstractStep(lim, a, c);
            Moves(lim, AbstractLevel(a, p), AbstractLevel(a', p), c.now, Grant(p, c, x))
  {
    var v := AbstractBucket(lim, a, p, c.now);
    if c.Acquire? && v.blockedUntil <= c.now { DecideMoves(lim, v, AbstractLevel(a, p), c.now); }
  }

  lemma LevelKeptLater(lim: Limits, p: string, cs: seq<Call>, answers: seq<Answer>, ls: seq<Option<Level>>, now: int)
    requires Life(lim, p, cs, answers, ls) && (cs != [] ==> cs[|cs| - 1].now <= now)
    ensures LevelKept(lim, ls[|cs|], now)
  {
    if cs != [] {
      var k := |cs| - 1;
      assert Moves(lim, ls[k], ls[k + 1], cs[k].now, Grant(p, cs[k], answers[k]));
    }
  }

  lemma {:induction false} AbstractLife(lim: Limits, cs: seq<Call>, p: string) returns (ls: seq<Option<Level>>)
    requires ValidLimits(lim) && Ordered(cs)
    ensures Life(lim, p, cs, AbstractRun(lim, cs).1, ls) && ls[|cs|] == AbstractLevel(AbstractRun(lim, cs).0, p)
  {
    if cs == [] {
      ls := [None];
    } else {
      var init, c := cs[..|cs| - 1], cs[|cs| - 1];
      var (a, answers) := AbstractRun(lim, init);
      var before := AbstractLife(lim, init, p);
      LevelKeptLater(lim, p, init, answers, before, c.now);
      AbstractStepMoves(lim, a, c, p);
      var (a', x) := AbstractStep(lim, a, c);
      LifeExtends(lim, p, init, answers, before, c, x, AbstractLevel(a', p));
      assert init + [c] == cs;
      ls := before + [AbstractLevel(a', p)];
    }
  }

  /** The bucket that is never forgotten keeps the bound whatever the lifetime. */
  lemma AbstractGrantsAreBounded(lim: Limits, cs: seq<Call>, p: string, i: nat, j: nat)
    requires ValidLimits(lim) && Ordered(cs) && i < j <= |cs|
    ensures |AbstractRun(lim, cs).1| == |cs| && Bounded(lim, p, cs, AbstractRun(lim, cs).1, i, j)
  {
    var ls := AbstractLife(lim, cs, p);
    LifeIsBounded(lim, p, cs, AbstractRun(lim, cs).1, ls, i, j);
  }
}
