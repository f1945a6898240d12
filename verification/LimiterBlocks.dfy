/** Which requested blocks are honoured.

    `BlockUntil(provider, until)` asks that the provider be refused until a time. Both limiters forget
    a provider they have not seen for longer than the state lifetime, and the block with it, so the
    request is kept in every continuation exactly when it ends by then, whatever the rate is, whatever
    happened before and whatever else is requested.
 */
module LimiterBlocks {
  import opened Ordering
  import opened Limiter
  import opened LimiterPlans
  import opened LimiterExactness

  function Requested(cs: seq<Call>, p: string, until: int, now: int): seq<Call> { cs + [BlockUntil(p, until, now)] }

  predicate RefusesLast(answers: seq<Answer>) { answers != [] && answers[|answers| - 1].Denied? }

  /** The request is honoured: whatever is called next, the provider is refused at every time before `until`. */
  ghost predicate Honours(ans: Answers, cs: seq<Call>, p: string, until: int, now: int)
  {
    forall ds, t | Ordered(Requested(cs, p, until, now) + ds + [Acquire(p, t)]) && t < until ::
      RefusesLast(ans(Requested(cs, p, until, now) + ds + [Acquire(p, t)]))
  }

  /** After the calls `cs` and `ds` the call is granted. */
  predicate GrantsAfter(ans: Answers, cs: seq<Call>, ds: seq<Call>, c: Call) { GrantsLast(ans(cs + ds + [c])) }

  predicate GrantsLast(answers: seq<Answer>) { answers != [] && answers[|answers| - 1] == Granted }

  lemma OrderedParts(cs: seq<Call>, ds: seq<Call>, p: string, until: int, now: int, t: int)
    requires Ordered(Requested(cs, p, until, now) + ds + [Acquire(p, t)])
    ensures 0 <= now <= t && Between(ds, now, t)
  {
    var all := Requested(cs, p, until, now) + ds + [Acquire(p, t)];
    assert all[|cs|] == BlockUntil(p, until, now) && all[|all| - 1] == Acquire(p, t);
    forall i | 0 <= i < |ds| ensures all[|cs| + 1 + i] == ds[i] {
    }
  }

  lemma OrderedAfter(cs: seq<Call>, ds: seq<Call>, from: int, to: int)
    requires Ordered(cs) && cs != [] && cs[|cs| - 1].now == from && Between(ds, from, to)
    ensures Ordered(cs + ds)
  {
    var all := cs + ds;
    forall i, j | 0 <= i < j < |all| ensures all[i].now <= all[j].now {
      assert i < |cs| ==> cs[i].now <= from;
    }
  }

  // ----- The memory limiter -----

  /** The provider's bucket was touched at or after `since` and is blocked at least until `until`. */
  predicate MemoryBlocked(m: Memory, p: string, until: int, since: int)
  {
    p in m && m[p].blockedUntil >= until && m[p].lastTouched >= since
  }

  lemma MemoryStepKeepsBlock(lim: Limits, ttl: int, m: Memory, c: Call, p: string, until: int, since: int)
    requires ttl > 0 && 0 <= since <= c.now < until <= since + ttl + 1 && MemoryBlocked(m, p, until, since)
    ensures MemoryBlocked(MemoryStep(lim, ttl, m, c).0, p, until, since)
    ensures c.Acquire? && Normal(c.provider) == p ==>
              MemoryStep(lim, ttl, m, c).1.Denied? && MemoryStep(lim, ttl, m, c).1.retryAfter >= until - c.now
  {
  }

  lemma {:induction false} MemoryKeepsBlock(lim: Limits, ttl: int, cs: seq<Call>, ds: seq<Call>, p: string, until: int, now: int, t: int)
    requires ttl > 0 && 0 <= now <= t < until <= now + ttl + 1 && Between(ds, now, t)
    ensures MemoryBlocked(MemoryRun(lim, ttl, Requested(cs, p, until, now) + ds).0, Normal(p), until, now)
  {
    var all := Requested(cs, p, until, now) + ds;
    if ds == [] {
      assert all == cs + [BlockUntil(p, until, now)];
      MemoryRunAppends(lim, ttl, cs, BlockUntil(p, until, now));
    } else {
      var n := |ds| - 1;
      MemoryKeepsBlock(lim, ttl, cs, ds[..n], p, until, now, t);
      var less := Requested(cs, p, until, now) + ds[..n];
      assert all == less + [ds[n]];
      MemoryRunAppends(lim, ttl, less, ds[n]);
      MemoryStepKeepsBlock(lim, ttl, MemoryRun(lim, ttl, less).0, ds[n], Normal(p), until, now);
    }
  }

  /** A block that ends by the state lifetime holds, and every refusal names at least the time that is left. */
  lemma MemoryHonours(lim: Limits, ttl: int, cs: seq<Call>, ds: seq<Call>, p: string, until: int, now: int, t: int)
    requires ttl > 0 && Ordered(Requested(cs, p, until, now) + ds + [Acquire(p, t)]) && t < until <= now + ttl + 1
    ensures var before := Requested(cs, p, until, now) + ds;
            exists wait :: wait >= until - t && MemoryRun(lim, ttl, before + [Acquire(p, t)]).1 == MemoryRun(lim, ttl, before).1 + [Denied(wait)]
  {
    OrderedParts(cs, ds, p, until, now, t);
    MemoryKeepsBlock(lim, ttl, cs, ds, p, until, now, t);
    var before := Requested(cs, p, until, now) + ds;
    MemoryStepKeepsBlock(lim, ttl, MemoryRun(lim, ttl, before).0, Acquire(p, t), Normal(p), until, now);
    MemoryRunAppends(lim, ttl, before, Acquire(p, t));
  }

  lemma OtherIsEvicted(lim: Limits, ttl: int, m: Memory, p: string, q: string, now: int)
    requires ttl > 0 && p != Normal(q) && p in m && 0 <= m[p].lastTouched && m[p].lastTouched + ttl < now
    ensures p !in MemoryAcquire(lim, ttl, m, q, now).0
  {
  }

  lemma NewcomerIsGranted(lim: Limits, ttl: int, m: Memory, p: string, now: int)
    requires lim.burst >= 1.0 && now >= 0 && Normal(p) !in m
    ensures MemoryAcquire(lim, ttl, m, p, now).1 == Granted
  {
    assert Refill(lim, 0) == 0.0;
  }

  /** The answer to the last of three calls. */
  lemma ThirdAnswer(lim: Limits, ttl: int, cs: seq<Call>, a: Call, b: Call, c: Call)
    ensures var m := MemoryRun(lim, ttl, cs).0;
            var x := MemoryStep(lim, ttl, MemoryStep(lim, ttl, MemoryStep(lim, ttl, m, a).0, b).0, c).1;
            var answers := MemoryAnswers(lim, ttl)(cs + [a] + [b] + [c]);
            answers != [] && answers[|answers| - 1] == x
  {
    MemoryRunAppends(lim, ttl, cs, a);
    MemoryRunAppends(lim, ttl, cs + [a], b);
    MemoryRunAppends(lim, ttl, cs + [a] + [b], c);
  }

  lemma ForgottenIsGranted(lim: Limits, ttl: int, m: Memory, p: string, until: int, now: int, q: string)
    requires ttl > 0 && now >= 0 && lim.burst >= 1.0 && Normal(p) != Normal(q)
    ensures var asked := MemoryStep(lim, ttl, m, BlockUntil(p, until, now)).0;
            var seen := MemoryStep(lim, ttl, asked, Acquire(q, now + ttl + 1)).0;
            MemoryStep(lim, ttl, seen, Acquire(p, now + ttl + 1)).1 == Granted
  {
    var asked := MemoryStep(lim, ttl, m, BlockUntil(p, until, now)).0;
    OtherIsEvicted(lim, ttl, asked, Normal(p), q, now + ttl + 1);
    NewcomerIsGranted(lim, ttl, MemoryStep(lim, ttl, asked, Acquire(q, now + ttl + 1)).0, p, now + ttl + 1);
  }

  /** Anyone else's call past the lifetime, and the blocked provider is granted. */
  lemma MemoryForgetsBlock(lim: Limits, ttl: int, cs: seq<Call>, p: string, until: int, now: int, q: string)
    requires ttl > 0 && now >= 0 && lim.burst >= 1.0 && Normal(p) != Normal(q)
    ensures GrantsAfter(MemoryAnswers(lim, ttl), Requested(cs, p, until, now), [Acquire(q, now + ttl + 1)], Acquire(p, now + ttl + 1))
  {
    ForgottenIsGranted(lim, ttl, MemoryRun(lim, ttl, cs).0, p, until, now, q);
    ThirdAnswer(lim, ttl, cs, BlockUntil(p, until, now), Acquire(q, now + ttl + 1), Acquire(p, now + ttl + 1));
  }

  /** A bucket that cannot hold a token grants nothing. */
  lemma NothingToGrant(lim: Limits, ttl: int, m: Memory, r: Redis, p: string, now: int)
    requires lim.burst < 1.0
    ensures MemoryStep(lim, ttl, m, Acquire(p, now)).1.Denied? && RedisStep(lim, ttl, r, Acquire(p, now)).1.Denied?
  {
  }

  // ----- The Redis limiter -----

  predicate RedisBlocked(r: Redis, ttl: int, p: string, until: int, since: int)
  {
    p in r && r[p].blockedUntil.Some? && r[p].blockedUntil.value >= until && r[p].expireAt >= since + ttl
  }

  lemma RedisStepKeepsBlock(lim: Limits, ttl: int, r: Redis, c: Call, p: string, until: int, since: int)
    requires ttl > 0 && 0 <= since <= c.now < until <= since + ttl + 1 && RedisBlocked(r, ttl, p, until, since)
    ensures RedisBlocked(RedisStep(lim, ttl, r, c).0, ttl, p, until, since)
    ensures c.Acquire? && Normal(c.provider) == p ==>
              RedisStep(lim, ttl, r, c).1.Denied? && RedisStep(lim, ttl, r, c).1.retryAfter >= until - c.now
  {
  }

  lemma {:induction false} RedisKeepsBlock(lim: Limits, ttl: int, cs: seq<Call>, ds: seq<Call>, p: string, until: int, now: int, t: int)
    requires ttl > 0 && 0 <= now <= t < until <= now + ttl + 1 && Between(ds, now, t)
    ensures RedisBlocked(RedisRun(lim, ttl, Requested(cs, p, until, now) + ds).0, ttl, Normal(p), until, now)
  {
    var all := Requested(cs, p, until, now) + ds;
    if ds == [] {
      assert all == cs + [BlockUntil(p, until, now)];
      RedisRunAppends(lim, ttl, cs, BlockUntil(p, until, now));
    } else {
      var n := |ds| - 1;
      RedisKeepsBlock(lim, ttl, cs, ds[..n], p, until, now, t);
      var less := Requested(cs, p, until, now) + ds[..n];
      assert all == less + [ds[n]];
      RedisRunAppends(lim, ttl, less, ds[n]);
      RedisStepKeepsBlock(lim, ttl, RedisRun(lim, ttl, less).0, ds[n], Normal(p), until, now);
    }
  }

  lemma RedisHonours(lim: Limits, ttl: int, cs: seq<Call>, ds: seq<Call>, p: string, until: int, now: int, t: int)
    requires ttl > 0 && Ordered(Requested(cs, p, until, now) + ds + [Acquire(p, t)]) && t < until <= now + ttl + 1
    ensures var before := Requested(cs, p, until, now) + ds;
            exists wait :: wait >= until - t && RedisRun(lim, ttl, before + [Acquire(p, t)]).1 == RedisRun(lim, ttl, before).1 + [Denied(wait)]
  {
    OrderedParts(cs, ds, p, until, now, t);
    RedisKeepsBlock(lim, ttl, cs, ds, p, until, now, t);
    var before := Requested(cs, p, until, now) + ds;
    RedisStepKeepsBlock(lim, ttl, RedisRun(lim, ttl, before).0, Acquire(p, t), Normal(p), until, now);
    RedisRunAppends(lim, ttl, before, Acquire(p, t));
  }

  /** The key expires by itself, and the blocked provider is granted. */
  lemma RedisForgetsBlock(lim: Limits, ttl: int, cs: seq<Call>, p: string, until: int, now: int)
    requires ttl > 0 && now >= 0 && lim.burst >= 1.0 && until > now + ttl + 1
    ensures GrantsAfter(RedisAnswers(lim, ttl), Requested(cs, p, until, now), [], Acquire(p, now + ttl + 1))
  {
    RedisRunAppends(lim, ttl, cs, BlockUntil(p, until, now));
    assert Requested(cs, p, until, now) + [] == Requested(cs, p, until, now);
    RedisRunAppends(lim, ttl, Requested(cs, p, until, now), Acquire(p, now + ttl + 1));
    assert Refill(lim, 0) == 0.0;
  }

  // ----- Exactly which requests are honoured -----

  lemma Refuses(lim: Limits, ttl: int, cs: seq<Call>, ds: seq<Call>, p: string, until: int, now: int, t: int)
    requires ttl > 0 && Ordered(Requested(cs, p, until, now) + ds + [Acquire(p, t)]) && t < until
    requires until <= now + ttl + 1 || lim.burst < 1.0
    ensures var all := Requested(cs, p, until, now) + ds + [Acquire(p, t)];
            RefusesLast(MemoryAnswers(lim, ttl)(all)) && RefusesLast(RedisAnswers(lim, ttl)(all))
  {
    if until <= now + ttl + 1 {
      MemoryHonours(lim, ttl, cs, ds, p, until, now, t);
      RedisHonours(lim, ttl, cs, ds, p, until, now, t);
    } else {
      var before := Requested(cs, p, until, now) + ds;
      NothingToGrant(lim, ttl, MemoryRun(lim, ttl, before).0, RedisRun(lim, ttl, before).0, p, t);
      MemoryRunAppends(lim, ttl, before, Acquire(p, t));
      RedisRunAppends(lim, ttl, before, Acquire(p, t));
    }
  }

  lemma BrokenBy(ans: Answers, cs: seq<Call>, ds: seq<Call>, p: string, until: int, now: int, t: int)
    requires Ordered(Requested(cs, p, until, now)) && Between(ds, now, t) && now <= t < until
    requires GrantsAfter(ans, Requested(cs, p, until, now), ds, Acquire(p, t))
    ensures !Honours(ans, cs, p, until, now)
  {
    var asked := Requested(cs, p, until, now);
    OrderedAfter(asked, ds + [Acquire(p, t)], now, t);
    assert asked + (ds + [Acquire(p, t)]) == asked + ds + [Acquire(p, t)];
  }

  lemma SomeoneElse(p: string) returns (q: string)
    ensures Normal(q) != Normal(p)
  {
    q := if Normal(p) == "a" then "b" else "a";
  }

  lemma BrokenByOne(ans: Answers, cs: seq<Call>, q: string, p: string, until: int, now: int, t: int)
    requires Ordered(Requested(cs, p, until, now)) && now <= t < until
    requires GrantsAfter(ans, Requested(cs, p, until, now), [Acquire(q, t)], Acquire(p, t))
    ensures !Honours(ans, cs, p, until, now)
  {
    BrokenBy(ans, cs, [Acquire(q, t)], p, until, now, t);
  }

  lemma MemoryLosesLong(lim: Limits, ttl: int, cs: seq<Call>, p: string, until: int, now: int)
    requires ttl > 0 && now >= 0 && Ordered(Requested(cs, p, until, now)) && until > now + ttl + 1 && lim.burst >= 1.0
    ensures !Honours(MemoryAnswers(lim, ttl), cs, p, until, now)
  {
    var q := SomeoneElse(p);
    MemoryForgetsBlock(lim, ttl, cs, p, until, now, q);
    BrokenByOne(MemoryAnswers(lim, ttl), cs, q, p, until, now, now + ttl + 1);
  }

  lemma RedisLosesLong(lim: Limits, ttl: int, cs: seq<Call>, p: string, until: int, now: int)
    requires ttl > 0 && now >= 0 && Ordered(Requested(cs, p, until, now)) && until > now + ttl + 1 && lim.burst >= 1.0
    ensures !Honours(RedisAnswers(lim, ttl), cs, p, until, now)
  {
    RedisForgetsBlock(lim, ttl, cs, p, until, now);
    BrokenBy(RedisAnswers(lim, ttl), cs, [], p, until, now, now + ttl + 1);
  }

  /** After any run, a requested block is kept in every continuation exactly when it is over by the time its
      bucket can be forgotten, or when nothing is ever granted anyway. */
  lemma HonouredExactlyWhen(lim: Limits, ttl: int, cs: seq<Call>, p: string, until: int, now: int)
    requires ttl > 0 && Ordered(Requested(cs, p, until, now))
    ensures Honours(MemoryAnswers(lim, ttl), cs, p, until, now) <==> until <= now + ttl + 1 || lim.burst < 1.0
    ensures Honours(RedisAnswers(lim, ttl), cs, p, until, now) <==> until <= now + ttl + 1 || lim.burst < 1.0
  {
    if until <= now + ttl + 1 || lim.burst < 1.0 {
      forall ds, t | Ordered(Requested(cs, p, until, now) + ds + [Acquire(p, t)]) && t < until
        ensures RefusesLast(MemoryAnswers(lim, ttl)(Requested(cs, p, until, now) + ds + [Acquire(p, t)]))
        ensures RefusesLast(RedisAnswers(lim, ttl)(Requested(cs, p, until, now) + ds + [Acquire(p, t)]))
      {
        Refuses(lim, ttl, cs, ds, p, until, now, t);
      }
    } else {
      assert Requested(cs, p, until, now)[|cs|].now == now;
      MemoryLosesLong(lim, ttl, cs, p, until, now);
      RedisLosesLong(lim, ttl, cs, p, until, now);
    }
  }

  // ----- The block a limiter imposes itself -----

  /** What a refusal says: the time left of a block that was there, or else the configured block, two seconds if none
      is configured. */
  predicate Waits(lim: Limits, before: Option<int>, now: int, wait: int)
  {
    wait > 0 && (before == Some(now + wait) || wait == (if lim.block > 0 then lim.block else 2000))
  }

  lemma MemoryRefusalBlocks(lim: Limits, ttl: int, m: Memory, p: string, now: int)
    requires ttl > 0 && now >= 0 && MemoryStep(lim, ttl, m, Acquire(p, now)).1.Denied?
    ensures var (m', x) := MemoryStep(lim, ttl, m, Acquire(p, now));
            && Normal(p) in m' && m'[Normal(p)].blockedUntil == now + x.retryAfter && m'[Normal(p)].lastTouched == now
            && Waits(lim, if Normal(p) in m then Some(m[Normal(p)].blockedUntil) else None, now, x.retryAfter)
  {
  }

  /** Asking again before the time a refusal named is refused for exactly the rest of it. */
  lemma MemoryRefusalIsKept(lim: Limits, ttl: int, m: Memory, p: string, t: int, later: int)
    requires ttl > 0 && 0 <= t <= later
    requires var answer := MemoryStep(lim, ttl, m, Acquire(p, t)).1; answer.Denied? && later < t + answer.retryAfter
    ensures var (m', first) := MemoryStep(lim, ttl, m, Acquire(p, t));
            MemoryStep(lim, ttl, m', Acquire(p, later)).1 == Denied(t + first.retryAfter - later)
  {
    MemoryRefusalBlocks(lim, ttl, m, p, t);
  }

  lemma RedisRefusalBlocks(lim: Limits, ttl: int, r: Redis, p: string, now: int)
    requires ttl > 0 && now >= 0 && RedisStep(lim, ttl, r, Acquire(p, now)).1.Denied?
    ensures var (r', x) := RedisStep(lim, ttl, r, Acquire(p, now));
            && Normal(p) in r' && r'[Normal(p)].blockedUntil == Some(now + x.retryAfter) && now <= r'[Normal(p)].expireAt
            && Waits(lim, if Normal(p) in r then r[Normal(p)].blockedUntil else None, now, x.retryAfter)
  {
  }

  lemma StillRefused(lim: Limits, ttl: int, r: Redis, p: string, until: int, later: int)
    requires Normal(p) in r && r[Normal(p)].blockedUntil == Some(until) && later < until && later <= r[Normal(p)].expireAt
    ensures RedisStep(lim, ttl, r, Acquire(p, later)).1 == Denied(until - later)
  {
  }

  /** The same as long as the key has not expired. */
  lemma RedisRefusalIsKept(lim: Limits, ttl: int, r: Redis, p: string, t: int, later: int)
    requires ttl > 0 && 0 <= t <= later
    requires var (r', answer) := RedisStep(lim, ttl, r, Acquire(p, t));
             answer.Denied? && later < t + answer.retryAfter && (Normal(p) in r' ==> later <= r'[Normal(p)].expireAt)
    ensures var (r', first) := RedisStep(lim, ttl, r, Acquire(p, t));
            RedisStep(lim, ttl, r', Acquire(p, later)).1 == Denied(t + first.retryAfter - later)
  {
    var (r', first) := RedisStep(lim, ttl, r, Acquire(p, t));
    RedisRefusalBlocks(lim, ttl, r, p, t);
    StillRefused(lim, ttl, r', p, t + first.retryAfter, later);
  }

  /** A call that names no provider is the default provider's. */
  lemma UnnamedIsDefault(lim: Limits, ttl: int, m: Memory, r: Redis, until: int, now: int)
    ensures MemoryStep(lim, ttl, m, Acquire("", now)) == MemoryStep(lim, ttl, m, Acquire("default", now))
    ensures MemoryStep(lim, ttl, m, BlockUntil("", until, now)) == MemoryStep(lim, ttl, m, BlockUntil("default", until, now))
    ensures RedisStep(lim, ttl, r, Acquire("", now)) == RedisStep(lim, ttl, r, Acquire("default", now))
    ensures RedisStep(lim, ttl, r, BlockUntil("", until, now)) == RedisStep(lim, ttl, r, BlockUntil("default", until, now))
  {
  }
}
