/** The conditions of the limiter theorems are exact, for every rate and burst, for both limiters.

    `LimiterPlans` breaks the window bound whenever the coverage condition fails. One refused call more
    shows that a block longer than the lifetime is lost.
 */
module LimiterExactness {
  import opened Ordering
  import opened Limiter
  import opened LimiterBusy
  import opened LimiterRefinement
  import opened LimiterWindows
  import opened LimiterPlans

  // ----- A bucket that holds at least so much -----

  predicate Holds(lim: Limits, b: Bucket, t: real, now: int)
  {
    b.blockedUntil <= now && b.lastRefill <= now && Available(lim, b, now) >= t
  }

  lemma DecideGrants(lim: Limits, b: Bucket, t: real, now: int)
    requires ValidLimits(lim) && t >= 1.0 && Holds(lim, b, t, now)
    ensures Decide(lim, b, now).1 == Granted && Holds(lim, Decide(lim, b, now).0, t - 1.0, now)
  {
  }

  lemma HoldsLater(lim: Limits, b: Bucket, t: real, now: int)
    requires ValidLimits(lim) && Holds(lim, b, t, now)
    ensures Holds(lim, b, MinReal(lim.burst, t + Refill(lim, 1)), now + 1)
  {
    MinStep(lim, b.tokens, now + 1 - b.lastRefill);
  }

  lemma FreshHolds(lim: Limits, blockedUntil: int, now: int)
    requires blockedUntil <= now
    ensures Holds(lim, Bucket(lim.burst, now, blockedUntil), lim.burst, now)
    ensures Decide(lim, Bucket(lim.burst, now, blockedUntil), now).1 in [Granted, Denied(Retry(lim))]
  {
    assert Refill(lim, 0) == 0.0;
  }

  // ----- The memory limiter is forgetful -----

  function MemoryAnswers(lim: Limits, ttl: int): Answers { cs => MemoryRun(lim, ttl, cs).1 }

  ghost predicate MemoryHolds(lim: Limits, m: Memory, t: real, now: int)
  {
    ValidLimits(lim) && now >= 0 && MemoryKept(lim, m, now) && Holds(lim, MemoryView(lim, m, SPENDER, now), t, now)
  }

  ghost function MemoryCan(lim: Limits, ttl: int): Ability { (cs, t, now) => MemoryHolds(lim, MemoryRun(lim, ttl, cs).0, t, now) }

  lemma MemoryRunAppends(lim: Limits, ttl: int, cs: seq<Call>, c: Call)
    ensures var (m, answers) := MemoryRun(lim, ttl, cs);
            var (m', x) := MemoryStep(lim, ttl, m, c);
            MemoryRun(lim, ttl, cs + [c]) == (m', answers + [x])
  {
    assert (cs + [c])[..|cs|] == cs;
  }

  lemma MemorySpends(lim: Limits, ttl: int, m: Memory, t: real, now: int)
    requires ttl > 0 && t >= 1.0 && MemoryHolds(lim, m, t, now)
    ensures MemoryStep(lim, ttl, m, Acquire(SPENDER, now)).1 == Granted && MemoryHolds(lim, MemoryStep(lim, ttl, m, Acquire(SPENDER, now)).0, t - 1.0, now)
  {
    MemoryAcquireKeeps(lim, ttl, m, SPENDER, now);
    MemoryAcquireView(lim, ttl, m, SPENDER, now);
    DecideGrants(lim, MemoryView(lim, m, SPENDER, now), t, now);
  }

  lemma MemoryRefills(lim: Limits, m: Memory, t: real, now: int)
    requires MemoryHolds(lim, m, t, now)
    ensures MemoryHolds(lim, m, MinReal(lim.burst, t + Refill(lim, 1)), now + 1)
  {
    if SPENDER in m { HoldsLater(lim, MemoryView(lim, m, SPENDER, now), t, now); } else { FreshHolds(lim, ZERO_TIME, now + 1); }
  }

  lemma EvictsSpender(lim: Limits, ttl: int, m: Memory, now: int)
    requires ttl > 0 && (SPENDER in m ==> m[SPENDER].lastTouched != ZERO_TIME && m[SPENDER].lastTouched + ttl < now)
    ensures SPENDER !in MemoryStep(lim, ttl, m, Evicting(now)).0
  {
  }

  lemma MemoryForgets(lim: Limits, ttl: int, m: Memory, before: int, now: int)
    requires ValidLimits(lim) && ttl > 0 && MemoryKept(lim, m, before) && 0 <= before && before + ttl < now
    ensures var m' := MemoryStep(lim, ttl, m, Evicting(now)).0;
            && MemoryHolds(lim, m', lim.burst, now)
            && MemoryStep(lim, ttl, m', Acquire(SPENDER, now)).1 in [Granted, Denied(Retry(lim))]
  {
    if SPENDER in m { assert BucketKept(lim, m[SPENDER], before); }
    EvictsSpender(lim, ttl, m, now);
    MemoryStepKeeps(lim, ttl, m, Evicting(now), before);
    FreshHolds(lim, ZERO_TIME, now);
    MemoryAcquireView(lim, ttl, MemoryStep(lim, ttl, m, Evicting(now)).0, SPENDER, now);
  }

  lemma MemoryAnswersOne(lim: Limits, ttl: int, cs: seq<Call>, c: Call)
    ensures AnswersOne(MemoryAnswers(lim, ttl), cs, c)
  {
    MemoryRunAppends(lim, ttl, cs, c);
  }

  lemma MemoryGrantsOne(lim: Limits, ttl: int, cs: seq<Call>, t: real, now: int)
    requires ttl > 0
    ensures GrantsOne(MemoryAnswers(lim, ttl), MemoryCan(lim, ttl), cs, t, now)
  {
    MemoryRunAppends(lim, ttl, cs, Acquire(SPENDER, now));
    if MemoryCan(lim, ttl)(cs, t, now) && t >= 1.0 { MemorySpends(lim, ttl, MemoryRun(lim, ttl, cs).0, t, now); }
  }

  lemma MemoryRefillsOne(lim: Limits, ttl: int, cs: seq<Call>, t: real, now: int)
    requires ttl > 0
    ensures RefillsOne(lim, MemoryCan(lim, ttl), cs, t, now)
  {
    if MemoryCan(lim, ttl)(cs, t, now) { MemoryRefills(lim, MemoryRun(lim, ttl, cs).0, t, now); }
  }

  lemma MemoryForgetsAfter(lim: Limits, ttl: int, cs: seq<Call>, now: int, later: int)
    requires ValidLimits(lim) && ttl > 0
    ensures Forgets(lim, ttl, MemoryAnswers(lim, ttl), MemoryCan(lim, ttl), cs, now, later)
  {
    if now >= 0 && Between(cs, 0, now) && now + ttl < later {
      MemoryRunAppends(lim, ttl, cs, Evicting(later));
      MemoryRunAppends(lim, ttl, cs + [Evicting(later)], Acquire(SPENDER, later));
      MemoryRunKeeps(lim, ttl, cs, now);
      MemoryForgets(lim, ttl, MemoryRun(lim, ttl, cs).0, now, later);
    }
  }

  lemma MemoryStartsFull(lim: Limits, ttl: int)
    requires ValidLimits(lim) && ttl > 0
    ensures MemoryAnswers(lim, ttl)([]) == [] && MemoryCan(lim, ttl)([], lim.burst, 0)
  {
    FreshHolds(lim, ZERO_TIME, 0);
  }

  lemma MemoryIsForgetful(lim: Limits, ttl: int)
    requires ValidLimits(lim) && ttl > 0
    ensures IsForgetful(lim, ttl, MemoryAnswers(lim, ttl), MemoryCan(lim, ttl))
  {
    MemoryStartsFull(lim, ttl);
    forall cs, c ensures AnswersOne(MemoryAnswers(lim, ttl), cs, c) { MemoryAnswersOne(lim, ttl, cs, c); }
    forall cs, t, now
      ensures GrantsOne(MemoryAnswers(lim, ttl), MemoryCan(lim, ttl), cs, t, now) && RefillsOne(lim, MemoryCan(lim, ttl), cs, t, now)
    {
      MemoryGrantsOne(lim, ttl, cs, t, now);
      MemoryRefillsOne(lim, ttl, cs, t, now);
    }
    forall cs, now, later ensures Forgets(lim, ttl, MemoryAnswers(lim, ttl), MemoryCan(lim, ttl), cs, now, later) {
      MemoryForgetsAfter(lim, ttl, cs, now, later);
    }
  }

  // ----- So is the Redis limiter -----

  function RedisAnswers(lim: Limits, ttl: int): Answers { cs => RedisRun(lim, ttl, cs).1 }

  ghost predicate RedisHolds(lim: Limits, ttl: int, r: Redis, t: real, now: int)
  {
    ValidLimits(lim) && now >= 0 && RedisKept(lim, ttl, r, now) && Holds(lim, RedisView(lim, r, SPENDER, now), t, now)
  }

  ghost function RedisCan(lim: Limits, ttl: int): Ability { (cs, t, now) => RedisHolds(lim, ttl, RedisRun(lim, ttl, cs).0, t, now) }

  lemma RedisRunAppends(lim: Limits, ttl: int, cs: seq<Call>, c: Call)
    ensures var (r, answers) := RedisRun(lim, ttl, cs);
            var (r', x) := RedisStep(lim, ttl, r, c);
            RedisRun(lim, ttl, cs + [c]) == (r', answers + [x])
  {
    assert (cs + [c])[..|cs|] == cs;
  }

  lemma RedisSpends(lim: Limits, ttl: int, r: Redis, t: real, now: int)
    requires ttl > 0 && t >= 1.0 && RedisHolds(lim, ttl, r, t, now)
    ensures RedisStep(lim, ttl, r, Acquire(SPENDER, now)).1 == Granted && RedisHolds(lim, ttl, RedisStep(lim, ttl, r, Acquire(SPENDER, now)).0, t - 1.0, now)
  {
    RedisAcquireKeeps(lim, ttl, r, SPENDER, now);
    RedisAcquireView(lim, ttl, r, SPENDER, now);
    DecideGrants(lim, RedisView(lim, r, SPENDER, now), t, now);
  }

  lemma RedisRefills(lim: Limits, ttl: int, r: Redis, t: real, now: int)
    requires ttl > 0 && RedisHolds(lim, ttl, r, t, now)
    ensures RedisHolds(lim, ttl, r, MinReal(lim.burst, t + Refill(lim, 1)), now + 1)
  {
    var v := RedisView(lim, r, SPENDER, now);
    if SPENDER in r && now + 1 <= r[SPENDER].expireAt && r[SPENDER].lastRefill.Some? {
      HoldsLater(lim, v, t, now);
    } else {
      FreshHolds(lim, RedisView(lim, r, SPENDER, now + 1).blockedUntil, now + 1);
      assert SPENDER in r ==> HashKept(lim, ttl, r[SPENDER], now);
    }
    assert RedisKept(lim, ttl, r, now + 1);
  }

  lemma RedisForgets(lim: Limits, ttl: int, r: Redis, before: int, now: int)
    requires ValidLimits(lim) && ttl > 0 && RedisKept(lim, ttl, r, before) && 0 <= before && before + ttl < now
    ensures var r' := RedisStep(lim, ttl, r, Evicting(now)).0;
            && RedisHolds(lim, ttl, r', lim.burst, now)
            && RedisStep(lim, ttl, r', Acquire(SPENDER, now)).1 in [Granted, Denied(Retry(lim))]
  {
    if SPENDER in r { assert HashKept(lim, ttl, r[SPENDER], before); }
    RedisStepKeeps(lim, ttl, r, Evicting(now), before);
    RedisAcquireView(lim, ttl, r, OTHER, now);
    FreshHolds(lim, 0, now);
    RedisAcquireView(lim, ttl, RedisStep(lim, ttl, r, Evicting(now)).0, SPENDER, now);
  }

  lemma RedisAnswersOne(lim: Limits, ttl: int, cs: seq<Call>, c: Call)
    ensures AnswersOne(RedisAnswers(lim, ttl), cs, c)
  {
    RedisRunAppends(lim, ttl, cs, c);
  }

  lemma RedisGrantsOne(lim: Limits, ttl: int, cs: seq<Call>, t: real, now: int)
    requires ttl > 0
    ensures GrantsOne(RedisAnswers(lim, ttl), RedisCan(lim, ttl), cs, t, now)
  {
    RedisRunAppends(lim, ttl, cs, Acquire(SPENDER, now));
    if RedisCan(lim, ttl)(cs, t, now) && t >= 1.0 { RedisSpends(lim, ttl, RedisRun(lim, ttl, cs).0, t, now); }
  }

  lemma RedisRefillsOne(lim: Limits, ttl: int, cs: seq<Call>, t: real, now: int)
    requires ttl > 0
    ensures RefillsOne(lim, RedisCan(lim, ttl), cs, t, now)
  {
    if RedisCan(lim, ttl)(cs, t, now) { RedisRefills(lim, ttl, RedisRun(lim, ttl, cs).0, t, now); }
  }

  lemma RedisForgetsAfter(lim: Limits, ttl: int, cs: seq<Call>, now: int, later: int)
    requires ValidLimits(lim) && ttl > 0
    ensures Forgets(lim, ttl, RedisAnswers(lim, ttl), RedisCan(lim, ttl), cs, now, later)
  {
    if now >= 0 && Between(cs, 0, now) && now + ttl < later {
      RedisRunAppends(lim, ttl, cs, Evicting(later));
      RedisRunAppends(lim, ttl, cs + [Evicting(later)], Acquire(SPENDER, later));
      RedisRunKeeps(lim, ttl, cs, now);
      RedisForgets(lim, ttl, RedisRun(lim, ttl, cs).0, now, later);
    }
  }

  lemma RedisStartsFull(lim: Limits, ttl: int)
    requires ValidLimits(lim) && ttl > 0
    ensures RedisAnswers(lim, ttl)([]) == [] && RedisCan(lim, ttl)([], lim.burst, 0)
  {
    FreshHolds(lim, 0, 0);
  }

  lemma RedisIsForgetful(lim: Limits, ttl: int)
    requires ValidLimits(lim) && ttl > 0
    ensures IsForgetful(lim, ttl, RedisAnswers(lim, ttl), RedisCan(lim, ttl))
  {
    RedisStartsFull(lim, ttl);
    forall cs, c ensures AnswersOne(RedisAnswers(lim, ttl), cs, c) { RedisAnswersOne(lim, ttl, cs, c); }
    forall cs, t, now
      ensures GrantsOne(RedisAnswers(lim, ttl), RedisCan(lim, ttl), cs, t, now) && RefillsOne(lim, RedisCan(lim, ttl), cs, t, now)
    {
      RedisGrantsOne(lim, ttl, cs, t, now);
      RedisRefillsOne(lim, ttl, cs, t, now);
    }
    forall cs, now, later ensures Forgets(lim, ttl, RedisAnswers(lim, ttl), RedisCan(lim, ttl), cs, now, later) {
      RedisForgetsAfter(lim, ttl, cs, now, later);
    }
  }

  // ----- The window bound -----

  ghost predicate AlwaysBounded(lim: Limits, ans: Answers)
  {
    forall cs, p, i: nat, j: nat :: Ordered(cs) && i < j <= |cs| && |ans(cs)| == |cs| ==> Bounded(lim, p, cs, ans(cs), i, j)
  }

  lemma UncoveredIsUnbounded(lim: Limits, ttl: int, ans: Answers, can: Ability)
    requires ValidLimits(lim) && ttl > 0 && IsForgetful(lim, ttl, ans, can) && !Covered(lim, ttl)
    ensures !AlwaysBounded(lim, ans)
  {
    var cs := ForgetfulExceeds(lim, ttl, ans, can);
    assert !Bounded(lim, SPENDER, cs, ans(cs), 0, |cs|);
  }

  /** The window bound survives eviction, and key expiry, exactly when a busy bucket's grants are covered
      by the refill. */
  lemma BoundedExactlyWhenCovered(lim: Limits, ttl: int)
    requires ValidLimits(lim) && ttl > 0
    ensures AlwaysBounded(lim, MemoryAnswers(lim, ttl)) <==> Covered(lim, ttl)
    ensures AlwaysBounded(lim, RedisAnswers(lim, ttl)) <==> Covered(lim, ttl)
  {
    if Covered(lim, ttl) {
      forall cs, p, i: nat, j: nat | Ordered(cs) && i < j <= |cs|
        ensures |MemoryAnswers(lim, ttl)(cs)| == |cs| ==> Bounded(lim, p, cs, MemoryAnswers(lim, ttl)(cs), i, j)
        ensures |RedisAnswers(lim, ttl)(cs)| == |cs| ==> Bounded(lim, p, cs, RedisAnswers(lim, ttl)(cs), i, j)
      {
        MemoryGrantsAreBounded(lim, ttl, cs, p, i, j);
        RedisGrantsAreBounded(lim, ttl, cs, p, i, j);
      }
    } else {
      MemoryIsForgetful(lim, ttl);
      UncoveredIsUnbounded(lim, ttl, MemoryAnswers(lim, ttl), MemoryCan(lim, ttl));
      RedisIsForgetful(lim, ttl);
      UncoveredIsUnbounded(lim, ttl, RedisAnswers(lim, ttl), RedisCan(lim, ttl));
    }
  }

  /** The bound is reached: with room for a millisecond's refill beside a whole token, a provider that asks
      whenever it can is granted, in the first `d` milliseconds, burst and rate per second rounded down. */
  lemma BoundIsReached(lim: Limits, ttl: int, d: nat) returns (cs: seq<Call>)
    requires ValidLimits(lim) && ttl > 0 && 1.0 + lim.rate / 1000.0 <= lim.burst
    ensures Between(cs, 0, d) && AllSpending(cs) && |cs| == (lim.burst + lim.rate * d as real / 1000.0).Floor
    ensures MemoryAnswers(lim, ttl)(cs) == Yes(|cs|) == RedisAnswers(lim, ttl)(cs)
  {
    var pace := PaceOf(lim);
    cs := BusyCalls(pace, 0, d);
    BusyIsPaced(lim);
    BusyCallsAre(lim, pace, 0, d);
    BusyLosesNothing(lim, d);
    MemoryIsForgetful(lim, ttl);
    BusyIsGranted(lim, ttl, MemoryAnswers(lim, ttl), MemoryCan(lim, ttl), pace, d);
    RedisIsForgetful(lim, ttl);
    BusyIsGranted(lim, ttl, RedisAnswers(lim, ttl), RedisCan(lim, ttl), pace, d);
  }

  lemma BusyIsGranted(lim: Limits, ttl: int, ans: Answers, can: Ability, pace: Pace, d: nat)
    requires IsForgetful(lim, ttl, ans, can) && IsPaced(lim, pace)
    ensures ans(BusyCalls(pace, 0, d)) == Yes(pace(d).grants)
  {
    KeepsBusy(lim, ttl, ans, can, pace, [], [], 0, d);
    assert [] + BusyCalls(pace, 0, d) == BusyCalls(pace, 0, d) && [] + Yes(pace(d).grants) == Yes(pace(d).grants);
  }

  // ----- A forgotten bucket forgets its block -----

  function Refused(n: nat): seq<Call> { Again(n, 0) + [Acquire(SPENDER, 0)] }

  /** Spend every whole token at once, be refused, be forgotten, ask again. */
  function LoseBlock(n: nat, ttl: int): seq<Call> { Refused(n) + [Evicting(ttl + 1)] + [Acquire(SPENDER, ttl + 1)] }

  lemma AbstractRunAppends(lim: Limits, cs: seq<Call>, c: Call)
    ensures var (a, answers) := AbstractRun(lim, cs);
            var (a', x) := AbstractStep(lim, a, c);
            AbstractRun(lim, cs + [c]) == (a', answers + [x])
  {
    assert (cs + [c])[..|cs|] == cs;
  }

  /** After `k` grants at once the abstract bucket is down by `k`. */
  lemma {:induction false} AbstractSpends(lim: Limits, k: nat)
    requires ValidLimits(lim) && k as real <= lim.burst
    ensures AbstractBucket(lim, AbstractRun(lim, Again(k, 0)).0, SPENDER, 0) == Bucket(lim.burst - k as real, 0, 0)
  {
    if k > 0 {
      AbstractSpends(lim, k - 1);
      assert Again(k, 0) == Again(k - 1, 0) + [Acquire(SPENDER, 0)];
      AbstractRunAppends(lim, Again(k - 1, 0), Acquire(SPENDER, 0));
      assert Refill(lim, 0) == 0.0;
    }
  }

  lemma AbstractRefuses(lim: Limits)
    requires ValidLimits(lim)
    ensures var a := AbstractRun(lim, Refused(lim.burst.Floor)).0; SPENDER in a && a[SPENDER].blockedUntil == Retry(lim)
  {
    var n := lim.burst.Floor;
    AbstractSpends(lim, n);
    AbstractRunAppends(lim, Again(n, 0), Acquire(SPENDER, 0));
    assert Refill(lim, 0) == 0.0;
  }

  lemma AbstractStaysBlocked(lim: Limits, a: Abstract, now: int)
    requires SPENDER in a && a[SPENDER].blockedUntil > now
    ensures var a' := AbstractStep(lim, a, Evicting(now)).0;
            AbstractStep(lim, a', Acquire(SPENDER, now)).1 == Denied(a[SPENDER].blockedUntil - now)
  {
  }

  /** The abstract limiter still refuses at the end of the play. */
  lemma AbstractKeepsBlock(lim: Limits, ttl: int)
    requires ValidLimits(lim) && ttl > 0 && Retry(lim) > ttl + 1
    ensures var before := Refused(lim.burst.Floor) + [Evicting(ttl + 1)];
            AbstractRun(lim, LoseBlock(lim.burst.Floor, ttl)).1 == AbstractRun(lim, before).1 + [Denied(Retry(lim) - (ttl + 1))]
  {
    var cs := Refused(lim.burst.Floor);
    AbstractRefuses(lim);
    AbstractStaysBlocked(lim, AbstractRun(lim, cs).0, ttl + 1);
    AbstractRunAppends(lim, cs, Evicting(ttl + 1));
    AbstractRunAppends(lim, cs + [Evicting(ttl + 1)], Acquire(SPENDER, ttl + 1));
  }

  lemma LoseBlockShape(n: nat, ttl: int)
    requires ttl > 0
    ensures Between(Refused(n), 0, 0) && Ordered(LoseBlock(n, ttl)) && ShortRequests(ttl, LoseBlock(n, ttl))
  {
  }

  ghost predicate NeverNoticed(lim: Limits, ttl: int, ans: Answers)
  {
    forall cs :: Ordered(cs) && ShortRequests(ttl, cs) ==> ans(cs) == AbstractRun(lim, cs).1
  }

  lemma LostBlockIsNoticed(lim: Limits, ttl: int, ans: Answers, can: Ability)
    requires ValidLimits(lim) && ttl > 0 && Retry(lim) > ttl + 1 && IsForgetful(lim, ttl, ans, can)
    ensures !NeverNoticed(lim, ttl, ans)
  {
    var n := lim.burst.Floor;
    LoseBlockShape(n, ttl);
    assert Forgets(lim, ttl, ans, can, Refused(n), 0, ttl + 1);
    AbstractKeepsBlock(lim, ttl);
    var mine, theirs := ans(LoseBlock(n, ttl)), AbstractRun(lim, LoseBlock(n, ttl)).1;
    assert mine[|mine| - 1] != theirs[|theirs| - 1];
  }

  lemma ExtraGrantsAreNoticed(lim: Limits, ttl: int, ans: Answers, can: Ability)
    requires ValidLimits(lim) && ttl > 0 && !Covered(lim, ttl) && IsForgetful(lim, ttl, ans, can)
    ensures !NeverNoticed(lim, ttl, ans)
  {
    var cs := ForgetfulExceeds(lim, ttl, ans, can);
    AbstractGrantsAreBounded(lim, cs, SPENDER, 0, |cs|);
    assert ans(cs) != AbstractRun(lim, cs).1;
  }

  lemma NoticedUnless(lim: Limits, ttl: int, ans: Answers, can: Ability)
    requires ValidLimits(lim) && ttl > 0 && IsForgetful(lim, ttl, ans, can) && NeverNoticed(lim, ttl, ans)
    ensures Covered(lim, ttl) && Retry(lim) <= ttl + 1
  {
    if !Covered(lim, ttl) {
      ExtraGrantsAreNoticed(lim, ttl, ans, can);
    } else if Retry(lim) > ttl + 1 {
      LostBlockIsNoticed(lim, ttl, ans, can);
    }
  }

  /** Eviction, and key expiry, is invisible exactly when a forgotten bucket is full and its own block is over. */
  lemma UnnoticedExactlyWhen(lim: Limits, ttl: int)
    requires ValidLimits(lim) && ttl > 0
    ensures NeverNoticed(lim, ttl, MemoryAnswers(lim, ttl)) <==> Covered(lim, ttl) && Retry(lim) <= ttl + 1
    ensures NeverNoticed(lim, ttl, RedisAnswers(lim, ttl)) <==> Covered(lim, ttl) && Retry(lim) <= ttl + 1
  {
    if Covered(lim, ttl) && Retry(lim) <= ttl + 1 {
      forall cs | Ordered(cs) && ShortRequests(ttl, cs)
        ensures MemoryAnswers(lim, ttl)(cs) == AbstractRun(lim, cs).1 == RedisAnswers(lim, ttl)(cs)
      {
        BothRefineOneBucket(lim, ttl, cs);
      }
    } else {
      MemoryIsForgetful(lim, ttl);
      RedisIsForgetful(lim, ttl);
      if NeverNoticed(lim, ttl, MemoryAnswers(lim, ttl)) { NoticedUnless(lim, ttl, MemoryAnswers(lim, ttl), MemoryCan(lim, ttl)); }
      if NeverNoticed(lim, ttl, RedisAnswers(lim, ttl)) { NoticedUnless(lim, ttl, RedisAnswers(lim, ttl), RedisCan(lim, ttl)); }
    }
  }
}
