/** A bucket kept busy: starting full, it is drained of its whole tokens every millisecond.

    No way of using a bucket gets more out of it (`NoneBeatsBusy`), so what the busy bucket has handed
    out after `d` milliseconds decides whether forgetting an idle bucket can be told: `Covered` is the
    exact condition of the refinement and window theorems, for every rate and burst.
 */
module LimiterBusy {
  import opened Limiter

  datatype Busy = Busy(tokens: real, grants: nat)

  function Drain(tokens: real, grants: nat): (b: Busy)
    requires tokens >= 0.0
    ensures 0.0 <= b.tokens < 1.0 && b.tokens + b.grants as real == tokens + grants as real && b.grants >= grants
  {
    Busy(tokens - tokens.Floor as real, grants + tokens.Floor)
  }

  function BusyFor(lim: Limits, d: nat): (b: Busy)
    requires ValidLimits(lim)
    ensures 0.0 <= b.tokens < 1.0
  {
    if d == 0 then Drain(lim.burst, 0)
    else
      var b := BusyFor(lim, d - 1);
      RefillGrows(lim, 0, 1);
      Drain(MinReal(lim.burst, b.tokens + Refill(lim, 1)), b.grants)
  }

  /** All the busy bucket has seen: handed out and still there. */
  function Total(lim: Limits, d: nat): real
    requires ValidLimits(lim)
  {
    BusyFor(lim, d).tokens + BusyFor(lim, d).grants as real
  }

  /** A bucket that hands out as much as it can, full at first, has handed out no more than the refill
      up to the first millisecond at which it could be forgotten. */
  ghost predicate Covered(lim: Limits, ttl: int)
    requires ValidLimits(lim)
  {
    forall d: nat :: BusyFor(lim, d).grants as real <= Refill(lim, d + ttl + 1)
  }

  lemma TotalNext(lim: Limits, d: nat)
    requires ValidLimits(lim)
    ensures Total(lim, d + 1) == MinReal(lim.burst + BusyFor(lim, d).grants as real, Total(lim, d) + Refill(lim, 1))
  {
    RefillGrows(lim, 0, 1);
  }

  lemma {:induction false} TotalIsEarned(lim: Limits, d: nat)
    requires ValidLimits(lim)
    ensures Total(lim, d) <= lim.burst + Refill(lim, d)
  {
    if d > 0 {
      TotalIsEarned(lim, d - 1);
      assert Total(lim, d) <= Total(lim, d - 1) + Refill(lim, 1) by { TotalNext(lim, d - 1); }
      RefillAdds(lim, d - 1, 1);
    }
  }

  lemma {:induction false} BusyGrows(lim: Limits, d: nat, e: nat)
    requires ValidLimits(lim) && d <= e
    ensures BusyFor(lim, d).grants <= BusyFor(lim, e).grants
  {
    if d < e {
      BusyGrows(lim, d, e - 1);
      RefillGrows(lim, 0, 1);
    }
  }

  /** Grants are whole, so having seen no more than the busy bucket means having granted no more. */
  lemma GrantsWithin(lim: Limits, tokens: real, g: nat, d: nat)
    requires ValidLimits(lim) && tokens >= 0.0 && tokens + g as real <= Total(lim, d)
    ensures g <= BusyFor(lim, d).grants
  {
  }

  lemma MinStep(lim: Limits, tokens: real, n: nat)
    requires ValidLimits(lim) && n > 0
    ensures MinReal(lim.burst, tokens + Refill(lim, n)) ==
            MinReal(lim.burst, MinReal(lim.burst, tokens + Refill(lim, n - 1)) + Refill(lim, 1))
  {
    RefillAdds(lim, n - 1, 1);
    RefillGrows(lim, 0, 1);
  }

  lemma NoneBeatsBusyOnce(lim: Limits, tokens: real, g: nat, d: nat)
    requires ValidLimits(lim) && d > 0 && tokens >= 0.0 && tokens + g as real <= Total(lim, d - 1)
    ensures MinReal(lim.burst, tokens + Refill(lim, 1)) + g as real <= Total(lim, d)
  {
    GrantsWithin(lim, tokens, g, d - 1);
    TotalNext(lim, d - 1);
  }

  /** A bucket that has seen no more than the busy one after `d` milliseconds has not after `n` more. */
  lemma {:induction false} NoneBeatsBusy(lim: Limits, tokens: real, g: nat, d: nat, n: nat)
    requires ValidLimits(lim) && tokens >= 0.0 && tokens + g as real <= Total(lim, d)
    ensures MinReal(lim.burst, tokens + Refill(lim, n)) + g as real <= Total(lim, d + n)
  {
    if n == 0 {
      assert Refill(lim, 0) == 0.0;
    } else {
      NoneBeatsBusy(lim, tokens, g, d, n - 1);
      var t := MinReal(lim.burst, tokens + Refill(lim, n - 1));
      assert t >= 0.0 by { RefillGrows(lim, 0, n - 1); }
      NoneBeatsBusyOnce(lim, t, g, d + n);
      assert MinReal(lim.burst, tokens + Refill(lim, n)) == MinReal(lim.burst, t + Refill(lim, 1)) by { MinStep(lim, tokens, n); }
    }
  }

  // ----- Levels a bucket can have -----

  ghost predicate EarnedBy(lim: Limits, tokens: real, d: nat, g: nat)
    requires ValidLimits(lim)
  {
    tokens + g as real == lim.burst + Refill(lim, d) <= Total(lim, d)
  }

  /** The level comes from a full bucket, `g` grants and `d` milliseconds of refill that lost nothing. */
  ghost predicate Earned(lim: Limits, tokens: real)
    requires ValidLimits(lim)
  {
    exists d: nat, g: nat :: EarnedBy(lim, tokens, d, g)
  }

  lemma FullIsEarned(lim: Limits)
    requires ValidLimits(lim)
    ensures Earned(lim, lim.burst)
  {
    assert EarnedBy(lim, lim.burst, 0, 0);
  }

  lemma RefilledIsEarned(lim: Limits, tokens: real, n: nat)
    requires ValidLimits(lim) && tokens >= 0.0 && Earned(lim, tokens)
    ensures Earned(lim, MinReal(lim.burst, tokens + Refill(lim, n)))
  {
    if tokens + Refill(lim, n) > lim.burst {
      FullIsEarned(lim);
    } else {
      var d: nat, g: nat :| EarnedBy(lim, tokens, d, g);
      NoneBeatsBusy(lim, tokens, g, d, n);
      RefillAdds(lim, d, n);
      assert EarnedBy(lim, tokens + Refill(lim, n), d + n, g);
    }
  }

  lemma SpentIsEarned(lim: Limits, tokens: real)
    requires ValidLimits(lim) && Earned(lim, tokens)
    ensures Earned(lim, tokens - 1.0)
  {
    var d: nat, g: nat :| EarnedBy(lim, tokens, d, g);
    assert EarnedBy(lim, tokens - 1.0, d, g + 1);
  }

  /** Deciding keeps a level earned and between nothing and the burst. */
  lemma DecideKeepsEarned(lim: Limits, b: Bucket, now: int)
    requires ValidLimits(lim) && 0.0 <= b.tokens <= lim.burst && Earned(lim, b.tokens)
    ensures var b' := Decide(lim, b, now).0; 0.0 <= b'.tokens <= lim.burst && Earned(lim, b'.tokens)
  {
    var n := Elapsed(b.lastRefill, now);
    RefillGrows(lim, 0, n);
    RefilledIsEarned(lim, b.tokens, n);
    SpentIsEarned(lim, Available(lim, b, now));
  }

  predicate Full(lim: Limits, b: Bucket, now: int)
  {
    b.tokens + Refill(lim, Elapsed(b.lastRefill, now)) >= lim.burst
  }

  /** Under the condition, a bucket idle long enough to be forgotten is full anyway. */
  lemma RestIsFull(lim: Limits, ttl: int, b: Bucket, now: int)
    requires ValidLimits(lim) && Covered(lim, ttl) && b.tokens >= 0.0 && Earned(lim, b.tokens) && now - b.lastRefill > ttl >= 0
    ensures Full(lim, b, now)
  {
    var d: nat, g: nat :| EarnedBy(lim, b.tokens, d, g);
    GrantsWithin(lim, b.tokens, g, d);
    RefillAdds(lim, d, ttl + 1);
    RefillGrows(lim, ttl + 1, now - b.lastRefill);
  }

  // ----- Simpler forms of the condition -----

  /** An idle bucket, however empty, is full by the first millisecond at which it can be forgotten. */
  predicate Capacity(lim: Limits, ttl: int) { lim.burst <= lim.rate * (ttl + 1) as real / 1000.0 }

  /** The documented condition, burst at most rate times lifetime, is enough. */
  lemma LifetimeCoversBurst(lim: Limits, ttl: int)
    requires ValidLimits(lim) && lim.burst <= lim.rate * ttl as real / 1000.0
    ensures Covered(lim, ttl)
  {
    RefillIsPerSecond(lim, ttl);
    RefillIsPerSecond(lim, ttl + 1);
    RefillGrows(lim, ttl, ttl + 1);
    RefillCovers(lim, ttl);
  }

  lemma RefillCovers(lim: Limits, ttl: int)
    requires ValidLimits(lim) && lim.burst <= Refill(lim, ttl + 1)
    ensures Covered(lim, ttl)
  {
    forall d: nat ensures BusyFor(lim, d).grants as real <= Refill(lim, d + ttl + 1) {
      TotalIsEarned(lim, d);
      RefillAdds(lim, d, ttl + 1);
    }
  }

  /** For a whole burst the capacity is all there is to it. */
  lemma CoveredExactlyWithCapacity(lim: Limits, ttl: int, n: nat)
    requires ValidLimits(lim) && lim.burst == n as real
    ensures Covered(lim, ttl) <==> Capacity(lim, ttl)
  {
    RefillIsPerSecond(lim, ttl + 1);
    if Capacity(lim, ttl) { RefillCovers(lim, ttl); }
    assert BusyFor(lim, 0).grants == n;
    if Covered(lim, ttl) { assert BusyFor(lim, 0).grants as real <= Refill(lim, 0 + ttl + 1); }
  }

  lemma {:induction false} BusyKeepsAll(lim: Limits, d: nat)
    requires ValidLimits(lim) && 1.0 + Refill(lim, 1) <= lim.burst
    ensures Total(lim, d) == lim.burst + Refill(lim, d)
  {
    if d > 0 {
      BusyKeepsAll(lim, d - 1);
      TotalNext(lim, d - 1);
      RefillAdds(lim, d - 1, 1);
    }
  }

  /** With room for one more millisecond's refill beside a whole token nothing is ever lost, and after `d`
      milliseconds the busy bucket has granted burst and rate per second, rounded down. */
  lemma BusyLosesNothing(lim: Limits, d: nat)
    requires ValidLimits(lim) && 1.0 + lim.rate / 1000.0 <= lim.burst
    ensures BusyFor(lim, d).grants == (lim.burst + lim.rate * d as real / 1000.0).Floor
  {
    RefillIsPerSecond(lim, 1);
    RefillIsPerSecond(lim, d);
    BusyKeepsAll(lim, d);
  }
}
