/** A plan of calls that gets more out of a forgetful limiter than the window bound allows.

    When a bucket kept busy for `d` milliseconds hands out more than the refill up to the moment it can
    be forgotten, one provider can keep it busy, let it be forgotten, and start over: every round
    gains, so some number of rounds breaks the bound. All that is asked of the limiter is `IsForgetful`.
 */
module LimiterPlans {
  import opened Ordering
  import opened Limiter
  import opened LimiterBusy
  import opened LimiterWindows

  const SPENDER := "a"
  const OTHER := "b"

  function Again(k: nat, now: int): seq<Call> { seq(k, _ => Acquire(SPENDER, now)) }

  function Yes(k: nat): seq<Answer> { seq(k, _ => Granted) }

  /** Another provider's call, which makes the memory limiter evict. */
  function Evicting(now: int): Call { Acquire(OTHER, now) }

  // ----- Forgetful limiters -----

  /** The answers a limiter gives to a run of calls. */
  type Answers = seq<Call> -> seq<Answer>

  /** After a run the spender's bucket is unblocked and holds at least so many tokens at a time. */
  type Ability = (seq<Call>, real, int) -> bool

  predicate AnswersOne(ans: Answers, cs: seq<Call>, c: Call)
  {
    |ans(cs + [c])| == |ans(cs)| + 1 && ans(cs) <= ans(cs + [c])
  }

  predicate GrantsOne(ans: Answers, can: Ability, cs: seq<Call>, t: real, now: int)
  {
    can(cs, t, now) && t >= 1.0 ==>
      ans(cs + [Acquire(SPENDER, now)]) == ans(cs) + [Granted] && can(cs + [Acquire(SPENDER, now)], t - 1.0, now)
  }

  predicate RefillsOne(lim: Limits, can: Ability, cs: seq<Call>, t: real, now: int)
  {
    can(cs, t, now) ==> can(cs, MinReal(lim.burst, t + Refill(lim, 1)), now + 1)
  }

  /** One more answer, as a full and unblocked bucket gives it. */
  predicate AsNew(lim: Limits, xs: seq<Answer>, ys: seq<Answer>) { ys == xs + [Granted] || ys == xs + [Denied(Retry(lim))] }

  /** Idle for longer than the lifetime, the spender is as good as new at another provider's call. */
  predicate Forgets(lim: Limits, ttl: int, ans: Answers, can: Ability, cs: seq<Call>, now: int, later: int)
  {
    now >= 0 && Between(cs, 0, now) && now + ttl < later ==>
      && can(cs + [Evicting(later)], lim.burst, later)
      && AsNew(lim, ans(cs + [Evicting(later)]), ans(cs + [Evicting(later)] + [Acquire(SPENDER, later)]))
  }

  ghost predicate IsForgetful(lim: Limits, ttl: int, ans: Answers, can: Ability)
  {
    && ans([]) == [] && can([], lim.burst, 0)
    && (forall cs, c :: AnswersOne(ans, cs, c))
    && (forall cs, t, now :: GrantsOne(ans, can, cs, t, now))
    && (forall cs, t, now :: RefillsOne(lim, can, cs, t, now))
    && (forall cs, now, later :: Forgets(lim, ttl, ans, can, cs, now, later))
  }

  // ----- Spending -----

  /** A run after which the spender holds `t` tokens, whose last `k` calls were granted. */
  predicate Spent(ans: Answers, can: Ability, cs: seq<Call>, start: seq<Answer>, t: real, k: nat, now: int)
  {
    can(cs, t, now) && ans(cs) == start + Yes(k)
  }

  lemma SpendsNext(ans: Answers, can: Ability, cs: seq<Call>, start: seq<Answer>, t: real, k: nat, now: int)
    requires GrantsOne(ans, can, cs, t, now) && t >= 1.0 && Spent(ans, can, cs, start, t, k, now)
    ensures Spent(ans, can, cs + [Acquire(SPENDER, now)], start, t - 1.0, k + 1, now)
  {
    assert ans(cs) + [Granted] == start + Yes(k + 1);
  }

  lemma {:induction false} Spends(
    lim: Limits, ttl: int, ans: Answers, can: Ability, cs: seq<Call>, start: seq<Answer>, t: real, before: nat, k: nat, now: int)
    requires IsForgetful(lim, ttl, ans, can) && k as real <= t && Spent(ans, can, cs, start, t, before, now)
    ensures Spent(ans, can, cs + Again(k, now), start, t - k as real, before + k, now)
  {
    if k == 0 {
      assert cs + Again(k, now) == cs;
    } else {
      Spends(lim, ttl, ans, can, cs, start, t, before, k - 1, now);
      var less := cs + Again(k - 1, now);
      assert GrantsOne(ans, can, less, t - (k - 1) as real, now);
      SpendsNext(ans, can, less, start, t - (k - 1) as real, before + k - 1, now);
      assert cs + Again(k, now) == less + [Acquire(SPENDER, now)];
    }
  }

  // ----- A busy period -----

  type Pace = nat -> Busy

  function Before(busy: Pace, d: nat): Busy { if d == 0 then Busy(0.0, 0) else busy(d - 1) }

  /** What the pace grants in millisecond `d`. */
  function GrantsAt(busy: Pace, d: nat): nat
  {
    if busy(d).grants <= Before(busy, d).grants then 0 else busy(d).grants - Before(busy, d).grants
  }

  function Refilled(lim: Limits, busy: Pace, d: nat): real
  {
    if d == 0 then lim.burst else MinReal(lim.burst, busy(d - 1).tokens + Refill(lim, 1))
  }

  predicate PacedAt(lim: Limits, busy: Pace, d: nat)
  {
    && busy(d).grants == Before(busy, d).grants + GrantsAt(busy, d)
    && busy(d).tokens == Refilled(lim, busy, d) - GrantsAt(busy, d) as real
    && GrantsAt(busy, d) as real <= Refilled(lim, busy, d)
  }

  /** What the proofs below need to know about the busy bucket: it spends what it has, in whole tokens. */
  ghost predicate IsPaced(lim: Limits, busy: Pace) { forall d: nat :: PacedAt(lim, busy, d) }

  function PaceOf(lim: Limits): Pace
    requires ValidLimits(lim)
  {
    (d: nat) => BusyFor(lim, d)
  }

  lemma BusyIsPaced(lim: Limits)
    requires ValidLimits(lim)
    ensures IsPaced(lim, PaceOf(lim))
  {
    forall d: nat ensures PacedAt(lim, PaceOf(lim), d) {
      if d > 0 { RefillGrows(lim, 0, 1); }
    }
  }

  function BusyCalls(busy: Pace, start: int, d: nat): seq<Call>
  {
    if d == 0 then Again(GrantsAt(busy, 0), start) else BusyCalls(busy, start, d - 1) + Again(GrantsAt(busy, d), start + d)
  }

  /** One more millisecond of spending what is there by then, in whole tokens. */
  lemma BusyMore(lim: Limits, ttl: int, ans: Answers, can: Ability, busy: Pace, cs: seq<Call>, start: seq<Answer>, d: nat, now: int)
    requires d > 0 && IsForgetful(lim, ttl, ans, can) && PacedAt(lim, busy, d)
    requires Spent(ans, can, cs, start, busy(d - 1).tokens, busy(d - 1).grants, now - 1)
    ensures Spent(ans, can, cs + Again(GrantsAt(busy, d), now), start, busy(d).tokens, busy(d).grants, now)
  {
    assert RefillsOne(lim, can, cs, busy(d - 1).tokens, now - 1);
    Spends(lim, ttl, ans, can, cs, start, Refilled(lim, busy, d), busy(d - 1).grants, GrantsAt(busy, d), now);
  }

  lemma BusyCallsNext(cs: seq<Call>, busy: Pace, from: int, d: nat)
    requires d > 0
    ensures cs + BusyCalls(busy, from, d) == (cs + BusyCalls(busy, from, d - 1)) + Again(GrantsAt(busy, d), from + d)
  {
  }

  lemma {:induction false} KeepsBusy(lim: Limits, ttl: int, ans: Answers, can: Ability, busy: Pace, cs: seq<Call>, start: seq<Answer>, from: int, d: nat)
    requires IsForgetful(lim, ttl, ans, can) && IsPaced(lim, busy) && Spent(ans, can, cs, start, lim.burst, 0, from)
    ensures Spent(ans, can, cs + BusyCalls(busy, from, d), start, busy(d).tokens, busy(d).grants, from + d)
    decreases d
  {
    assert PacedAt(lim, busy, d);
    if d == 0 {
      Spends(lim, ttl, ans, can, cs, start, lim.burst, 0, GrantsAt(busy, 0), from);
    } else {
      KeepsBusy(lim, ttl, ans, can, busy, cs, start, from, d - 1);
      BusyMore(lim, ttl, ans, can, busy, cs + BusyCalls(busy, from, d - 1), start, d, from + d);
      BusyCallsNext(cs, busy, from, d);
    }
  }

  // ----- Rounds of busy periods -----

  /** `k` times `n`, by repeated addition. */
  function Times(k: nat, n: nat): nat { if k == 0 then 0 else Times(k - 1, n) + n }

  lemma {:induction false} TimesIs(k: nat, n: nat)
    ensures Times(k, n) == k * n
  {
    if k > 0 {
      TimesIs(k - 1, n);
      assert (k - 1) * n + n == k * n;
    }
  }

  /** Rounds of `period` milliseconds: busy for the first `d`, forgotten at the end. */
  function Rounds(busy: Pace, period: nat, d: nat, k: nat): seq<Call>
  {
    if k == 0 then []
    else Rounds(busy, period, d, k - 1) + BusyCalls(busy, Times(k - 1, period), d) + [Evicting(Times(k, period))]
  }

  /** All grants to the spender in a run. */
  function Count(cs: seq<Call>, xs: seq<Answer>): nat
    requires |cs| == |xs|
  {
    Grants(SPENDER, cs, xs, 0, |cs|)
  }

  lemma {:induction false} GrantsOfPrefix(cs: seq<Call>, ds: seq<Call>, xs: seq<Answer>, ys: seq<Answer>, j: nat)
    requires |cs| == |xs| && |ds| == |ys| && cs <= ds && xs <= ys && j <= |cs|
    ensures Grants(SPENDER, cs, xs, 0, j) == Grants(SPENDER, ds, ys, 0, j)
  {
    if j > 0 { GrantsOfPrefix(cs, ds, xs, ys, j - 1); }
  }

  lemma CountOne(cs: seq<Call>, xs: seq<Answer>, c: Call, x: Answer)
    requires |cs| == |xs|
    ensures Count(cs + [c], xs + [x]) == Count(cs, xs) + Grant(SPENDER, c, x)
  {
    GrantsOfPrefix(cs, cs + [c], xs, xs + [x], |cs|);
  }

  predicate AllSpending(cs: seq<Call>) { forall i :: 0 <= i < |cs| ==> cs[i].Acquire? && cs[i].provider == SPENDER }

  lemma {:induction false} CountGranted(cs: seq<Call>, xs: seq<Answer>, ds: seq<Call>)
    requires |cs| == |xs| && AllSpending(ds)
    ensures Count(cs + ds, xs + Yes(|ds|)) == Count(cs, xs) + |ds|
  {
    if ds == [] {
      assert cs + ds == cs && xs + Yes(0) == xs;
    } else {
      var n := |ds| - 1;
      CountGranted(cs, xs, ds[..n]);
      CountOne(cs + ds[..n], xs + Yes(n), ds[n], Granted);
      assert cs + ds == cs + ds[..n] + [ds[n]] && xs + Yes(|ds|) == xs + Yes(n) + [Granted];
    }
  }

  lemma {:induction false} BusyCallsAre(lim: Limits, busy: Pace, start: int, d: nat)
    requires IsPaced(lim, busy)
    ensures |BusyCalls(busy, start, d)| == busy(d).grants && AllSpending(BusyCalls(busy, start, d))
    ensures Between(BusyCalls(busy, start, d), start, start + d)
  {
    assert PacedAt(lim, busy, d);
    var now := Again(GrantsAt(busy, d), start + d);
    if d > 0 {
      BusyCallsAre(lim, busy, start, d - 1);
      JoinBetween(BusyCalls(busy, start, d - 1), now, start, start + d, start + d);
    }
  }

  /** Calls in order of time, all between two times. */
  predicate Between(cs: seq<Call>, from: int, to: int)
  {
    && (forall i :: 0 <= i < |cs| ==> from <= cs[i].now <= to)
    && (forall i, j :: 0 <= i < j < |cs| ==> cs[i].now <= cs[j].now)
  }

  lemma JoinBetween(cs: seq<Call>, ds: seq<Call>, a: int, b: int, c: int)
    requires a <= b <= c && Between(cs, a, b) && Between(ds, b, c)
    ensures Between(cs + ds, a, c)
  {
  }

  predicate AllAcquire(cs: seq<Call>) { forall i :: 0 <= i < |cs| ==> cs[i].Acquire? }

  /** One more round after a run of acquires that ended by `from`. */
  lemma RoundFits(cs: seq<Call>, ds: seq<Call>, from: int, to: int, later: int)
    requires 0 <= from <= to <= later && Between(cs, 0, from) && AllAcquire(cs) && Between(ds, from, to) && AllSpending(ds)
    ensures Between(cs + ds + [Evicting(later)], 0, later) && AllAcquire(cs + ds + [Evicting(later)])
  {
    JoinBetween(cs, ds, 0, from, to);
    JoinBetween(cs + ds, [Evicting(later)], 0, to, later);
  }

  lemma {:induction false} RoundsAre(lim: Limits, busy: Pace, period: nat, d: nat, k: nat)
    requires IsPaced(lim, busy) && d < period
    ensures Between(Rounds(busy, period, d, k), 0, Times(k, period)) && AllAcquire(Rounds(busy, period, d, k))
  {
    if k > 0 {
      var from := Times(k - 1, period);
      RoundsAre(lim, busy, period, d, k - 1);
      BusyCallsAre(lim, busy, from, d);
      RoundFits(Rounds(busy, period, d, k - 1), BusyCalls(busy, from, d), from, from + d, Times(k, period));
    }
  }

  /** The spender's bucket is as good as new and was granted `count` times. */
  predicate AfterRounds(lim: Limits, ans: Answers, can: Ability, cs: seq<Call>, now: int, count: nat)
  {
    |ans(cs)| == |cs| && can(cs, lim.burst, now) && Count(cs, ans(cs)) == count
  }

  lemma BusyPeriod(lim: Limits, ttl: int, ans: Answers, can: Ability, busy: Pace, cs: seq<Call>, now: int, count: nat, d: nat)
    requires IsForgetful(lim, ttl, ans, can) && IsPaced(lim, busy) && AfterRounds(lim, ans, can, cs, now, count)
    ensures var all := cs + BusyCalls(busy, now, d); |ans(all)| == |all| && Count(all, ans(all)) == count + busy(d).grants
  {
    var start := ans(cs);
    assert start + Yes(0) == start;
    KeepsBusy(lim, ttl, ans, can, busy, cs, start, now, d);
    BusyCallsAre(lim, busy, now, d);
    CountGranted(cs, start, BusyCalls(busy, now, d));
  }

  lemma ForgetRound(lim: Limits, ttl: int, ans: Answers, can: Ability, cs: seq<Call>, now: int, later: int, count: nat)
    requires IsForgetful(lim, ttl, ans, can) && now >= 0 && Between(cs, 0, now) && now + ttl < later && |ans(cs)| == |cs| && Count(cs, ans(cs)) == count
    ensures AfterRounds(lim, ans, can, cs + [Evicting(later)], later, count)
  {
    assert AnswersOne(ans, cs, Evicting(later));
    assert Forgets(lim, ttl, ans, can, cs, now, later);
    var xs := ans(cs + [Evicting(later)]);
    CountOne(cs, ans(cs), Evicting(later), xs[|cs|]);
    assert xs == ans(cs) + [xs[|cs|]];
  }

  lemma {:induction false} RoundsCount(lim: Limits, ttl: nat, ans: Answers, can: Ability, busy: Pace, period: nat, d: nat, k: nat)
    requires IsForgetful(lim, ttl, ans, can) && IsPaced(lim, busy) && d + ttl < period
    ensures AfterRounds(lim, ans, can, Rounds(busy, period, d, k), Times(k, period), Times(k, busy(d).grants))
  {
    if k > 0 {
      var from, to := Times(k - 1, period), Times(k, period);
      var before, count := Rounds(busy, period, d, k - 1), Times(k - 1, busy(d).grants);
      RoundsCount(lim, ttl, ans, can, busy, period, d, k - 1);
      BusyPeriod(lim, ttl, ans, can, busy, before, from, count, d);
      RoundsAre(lim, busy, period, d, k - 1);
      BusyCallsAre(lim, busy, from, d);
      JoinBetween(before, BusyCalls(busy, from, d), 0, from, from + d);
      ForgetRound(lim, ttl, ans, can, before + BusyCalls(busy, from, d), from + d, to, count + busy(d).grants);
    }
  }

  function Plan(busy: Pace, period: nat, d: nat, k: nat): seq<Call>
  {
    Rounds(busy, period, d, k) + BusyCalls(busy, Times(k, period), d)
  }

  lemma PlanShape(lim: Limits, busy: Pace, period: nat, d: nat, k: nat)
    requires IsPaced(lim, busy) && d < period
    ensures var cs := Plan(busy, period, d, k); Ordered(cs) && AllAcquire(cs) && Between(cs, 0, Times(k, period) + d)
  {
    var now := Times(k, period);
    RoundsAre(lim, busy, period, d, k);
    BusyCallsAre(lim, busy, now, d);
    JoinBetween(Rounds(busy, period, d, k), BusyCalls(busy, now, d), 0, now, now + d);
  }

  lemma MakePlan(lim: Limits, ttl: nat, ans: Answers, can: Ability, busy: Pace, d: nat, k: nat) returns (cs: seq<Call>)
    requires IsForgetful(lim, ttl, ans, can) && IsPaced(lim, busy)
    ensures Ordered(cs) && AllAcquire(cs) && Between(cs, 0, Times(k, d + ttl + 1) + d)
    ensures |ans(cs)| == |cs| && Count(cs, ans(cs)) == Times(k, busy(d).grants) + busy(d).grants
  {
    var period := d + ttl + 1;
    cs := Plan(busy, period, d, k);
    RoundsCount(lim, ttl, ans, can, busy, period, d, k);
    BusyPeriod(lim, ttl, ans, can, busy, Rounds(busy, period, d, k), Times(k, period), Times(k, busy(d).grants), d);
    PlanShape(lim, busy, period, d, k);
  }

  // ----- Exceeding the bound -----

  lemma RefillTimes(lim: Limits, k: nat, n: nat)
    ensures Refill(lim, k * n) == k as real * Refill(lim, n)
  {
    assert (k * n) as real == k as real * n as real;
  }

  /** Enough rounds gain more than any fixed amount. */
  lemma EnoughRounds(gain: real, more: real) returns (k: nat)
    requires gain > 0.0
    ensures k as real * gain > more
  {
    if more < 0.0 {
      k := 0;
    } else {
      k := (more / gain).Floor + 1;
      assert k as real > more / gain;
      assert k as real * gain > more / gain * gain;
    }
  }

  lemma Gains(k: real, g: real, refill: real, more: real)
    requires k * (g - refill) > more && g >= 0.0
    ensures k * g + g > k * refill + more
  {
    assert k * (g - refill) == k * g - k * refill;
  }

  lemma GainBreaksBound(lim: Limits, g: nat, p: nat, d: nat, k: nat)
    requires k as real * (g as real - Refill(lim, p)) > lim.burst + Refill(lim, d)
    ensures (Times(k, g) + g) as real > lim.burst + Refill(lim, Times(k, p) + d)
  {
    Gains(k as real, g as real, Refill(lim, p), lim.burst + Refill(lim, d));
    TimesIs(k, g);
    TimesIs(k, p);
    assert (k * g) as real == k as real * g as real;
    RefillTimes(lim, k, p);
    RefillAdds(lim, k * p, d);
  }

  lemma {:induction false} CountFrom(cs: seq<Call>, xs: seq<Answer>)
    requires |cs| == |xs|
    ensures Count(cs, xs) <= |cs|
  {
    GrantsAtMost(cs, xs, |cs|);
  }

  lemma {:induction false} GrantsAtMost(cs: seq<Call>, xs: seq<Answer>, j: nat)
    requires j <= |cs| == |xs|
    ensures Grants(SPENDER, cs, xs, 0, j) <= j
  {
    if j > 0 { GrantsAtMost(cs, xs, j - 1); }
  }

  /** More grants than burst and refill of a longer time than the calls span break the bound. */
  lemma ExceedsOver(lim: Limits, cs: seq<Call>, answers: seq<Answer>, span: nat)
    requires ValidLimits(lim) && |answers| == |cs| && Between(cs, 0, span) && Count(cs, answers) as real > lim.burst + Refill(lim, span)
    ensures cs != [] && !Bounded(lim, SPENDER, cs, answers, 0, |cs|)
  {
    CountFrom(cs, answers);
    RefillGrows(lim, 0, span);
    if cs != [] {
      RefillGrows(lim, cs[|cs| - 1].now - cs[0].now, span);
      RefillIsPerSecond(lim, cs[|cs| - 1].now - cs[0].now);
    }
  }

  /** If the condition fails, some run of the limiter exceeds the bound: over its whole length. */
  lemma PlanExceeds(lim: Limits, ttl: nat, ans: Answers, can: Ability, busy: Pace, d: nat) returns (cs: seq<Call>)
    requires ValidLimits(lim) && IsForgetful(lim, ttl, ans, can) && IsPaced(lim, busy) && busy(d).grants as real > Refill(lim, d + ttl + 1)
    ensures Ordered(cs) && AllAcquire(cs) && cs != [] && |ans(cs)| == |cs| && !Bounded(lim, SPENDER, cs, ans(cs), 0, |cs|)
  {
    var g, p := busy(d).grants, d + ttl + 1;
    var k := EnoughRounds(g as real - Refill(lim, p), lim.burst + Refill(lim, d));
    cs := MakePlan(lim, ttl, ans, can, busy, d, k);
    GainBreaksBound(lim, g, p, d, k);
    ExceedsOver(lim, cs, ans(cs), Times(k, p) + d);
  }

  lemma ForgetfulExceeds(lim: Limits, ttl: nat, ans: Answers, can: Ability) returns (cs: seq<Call>)
    requires ValidLimits(lim) && IsForgetful(lim, ttl, ans, can) && !Covered(lim, ttl)
    ensures Ordered(cs) && AllAcquire(cs) && cs != [] && |ans(cs)| == |cs| && !Bounded(lim, SPENDER, cs, ans(cs), 0, |cs|)
  {
    var d: nat :| BusyFor(lim, d).grants as real > Refill(lim, d + ttl + 1);
    BusyIsPaced(lim);
    cs := PlanExceeds(lim, ttl, ans, can, PaceOf(lim), d);
  }
}
