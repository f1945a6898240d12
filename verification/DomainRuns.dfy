/** Every run of a Domain: reconciles at nondecreasing clock readings, whose status update may fail,
    and users changing the desired refresh times.

    A reconcile reads the clock once for verification and again, later, for registration. A system
    state carries the history of the attempts that were recorded; `DomainAttempts` speaks about all
    attempts that were made, recorded or not.
 */
module DomainRuns {
  import opened Ordering
  import opened DomainController

  datatype Config = Config(intervals: seq<RetryInterval>, registration: RegistrationConfig)

  datatype Event =
    | Reconcile(now: int, refreshAt: int, probe: Probe, lookup: Lookup, spread: nat, saved: bool)
    | Want(desired: Desired)

  datatype System = System(status: Status, desired: Desired, verifications: seq<Attempt>, refreshes: seq<Attempt>, proved: bool)

  function Record(log: seq<Attempt>, a: Option<Attempt>): seq<Attempt> { if a.Some? then log + [a.value] else log }

  /** Some probe of this reconcile shows control of the domain. */
  predicate Proves(p: Probe) { p.zone || p.dns || p.http }

  function Step(cfg: Config, s: System, e: Event): System
  {
    match e
    case Want(d) => s.(desired := d)
    case Reconcile(_, _, probe, _, _, saved) =>
      if !saved then s
      else
        var v, r := VerifyAt(cfg, s, e), RegisterAt(cfg, s, e);
        System(Saved(v.status.(registration := r.timers)), s.desired,
               Record(s.verifications, v.attempt), Record(s.refreshes, r.attempt), s.proved || Proves(probe))
  }

  function VerifyAt(cfg: Config, s: System, e: Event): Verification
    requires e.Reconcile?
  {
    Verify(cfg.intervals, s.status, s.desired.verification, e.now, e.probe)
  }

  function RegisterAt(cfg: Config, s: System, e: Event): Refresh
    requires e.Reconcile?
  {
    Register(cfg.registration, s.status.registration, s.desired.registration, e.refreshAt, e.lookup, e.spread)
  }

  function Run(cfg: Config, s: System, es: seq<Event>): System
  {
    if es == [] then s else Step(cfg, Run(cfg, s, es[..|es| - 1]), es[|es| - 1])
  }

  predicate FreshDomain(s: System)
  {
    && s.status.verified.status != Yes && s.status.dns != Yes && s.status.http != Yes && s.status.zone != Yes
    && s.status.scaffold.None? && s.status.registration == Timers(None, None)
    && s.verifications == [] && s.refreshes == [] && !s.proved && WholeSeconds(s.desired)
  }

  predicate Whole(t: Option<int>) { t.Some? ==> t.value % SECOND == 0 }

  /** Desired times come from the API, in whole seconds. */
  predicate WholeSeconds(d: Desired) { Whole(d.verification) && Whole(d.registration) }

  predicate ClockBy(es: seq<Event>, now: int)
  {
    && (forall i :: 0 <= i < |es| && es[i].Reconcile? ==> es[i].now <= es[i].refreshAt <= now)
    && (forall i, j :: 0 <= i < j < |es| && es[i].Reconcile? && es[j].Reconcile? ==> es[i].refreshAt <= es[j].now)
    && (forall i :: 0 <= i < |es| && es[i].Want? ==> WholeSeconds(es[i].desired))
  }

  // ----- The history and the timers -----

  /** Attempts in order; an expedited one is the first since its desired time; any other waits out its predecessor's interval. */
  predicate Disciplined(log: seq<Attempt>, now: int)
  {
    && (forall i :: 0 <= i < |log| ==> log[i].at <= now)
    && (forall i :: 0 <= i < |log| && log[i].expedited.Some? ==> log[i].expedited.value <= Trunc(log[i].at))
    && (forall i, j :: 0 <= i < j < |log| && log[j].expedited.Some? ==> Trunc(log[i].at) < log[j].expedited.value)
    && (forall j :: 0 < j < |log| && log[j].expedited.None? ==>
          log[j].at > log[j - 1].at + log[j - 1].interval + log[j - 1].jitter - SECOND)
    && (forall i, j :: 0 <= i < j < |log| ==> log[i].at <= log[j].at)
  }

  predicate Tracks(t: Timers, log: seq<Attempt>)
  {
    if log == [] then t.last.None? else t == SavedTimers(After(log[|log| - 1]))
  }

  lemma TruncBounds(t: int)
    ensures Trunc(t) <= t < Trunc(t) + SECOND
    ensures Trunc(Trunc(t)) == Trunc(t)
  {
  }

  lemma TruncGrows(a: int, b: int)
    requires a <= b
    ensures Trunc(a) <= Trunc(b)
  {
    TruncBounds(a);
    TruncBounds(b);
  }

  lemma WholeReached(desired: Option<int>, at: int)
    requires Whole(desired) && desired.Some? && desired.value <= at
    ensures desired.value <= Trunc(at)
  {
    TruncGrows(desired.value, at);
  }

  /** One more attempt keeps the discipline, whichever loop makes it. */
  lemma AttemptKeepsDiscipline(t: Timers, log: seq<Attempt>, desired: Option<int>, a: Attempt, before: int)
    requires Disciplined(log, before) && Tracks(t, log) && before <= a.at
    requires a.expedited.Some? ==> Whole(desired) && a.expedited == desired && Expedites(t, desired, a.at)
    requires a.expedited.None? ==> t.next.None? || t.next.value <= a.at
    ensures Disciplined(log + [a], a.at)
  {
    if a.expedited.Some? { WholeReached(desired, a.at); }
    if log != [] {
      var last := log[|log| - 1];
      TruncBounds(last.at + last.interval + last.jitter);
      forall i | 0 <= i < |log| ensures Trunc(log[i].at) <= Trunc(last.at) {
        TruncGrows(log[i].at, last.at);
      }
    }
  }

  // ----- The invariant -----

  predicate Kept(s: System, now: int)
  {
    && VerificationKept(s.status, s.verifications, s.proved, now)
    && RegistrationKept(s.status.registration, s.refreshes, now)
    && WholeSeconds(s.desired)
  }

  predicate RegistrationKept(t: Timers, log: seq<Attempt>, now: int) { Disciplined(log, now) && Tracks(t, log) }

  predicate VerificationKept(st: Status, log: seq<Attempt>, proved: bool, now: int)
  {
    && Disciplined(log, now)
    && (st.scaffold.Some? ==> Tracks(st.scaffold.value.timers, log))
    && (st.scaffold.None? && st.verified.status != Yes ==> log == [])
    && (st.verified.status == Yes ==> st.scaffold.None? && proved)
    && (st.verified.status != Yes ==> st.dns != Yes && st.http != Yes && st.zone != Yes)
  }

  lemma DisciplineLater(log: seq<Attempt>, before: int, now: int)
    requires Disciplined(log, before) && before <= now
    ensures Disciplined(log, now)
  {
  }

  lemma SavedIsStable(t: Timers)
    ensures SavedTimers(SavedTimers(t)) == SavedTimers(t)
  {
    if t.next.Some? { TruncBounds(t.next.value); }
    if t.last.Some? { TruncBounds(t.last.value); }
  }

  lemma TracksSaved(t: Timers, log: seq<Attempt>)
    requires Tracks(t, log)
    ensures Tracks(SavedTimers(t), log)
  {
    if log != [] { SavedIsStable(After(log[|log| - 1])); }
  }

  lemma VerifyKeepsLog(rs: seq<RetryInterval>, st: Status, log: seq<Attempt>, proved: bool, desired: Option<int>, now: int, p: Probe, before: int)
    requires VerificationKept(st, log, proved, before) && before <= now && Whole(desired)
    ensures Disciplined(Record(log, Verify(rs, st, desired, now, p).attempt), now)
  {
    var v := Verify(rs, st, desired, now, p);
    DisciplineLater(log, before, now);
    if v.attempt.Some? {
      AttemptKeepsDiscipline(st.scaffold.value.timers, log, desired, v.attempt.value, before);
    }
  }

  lemma VerifyKeepsTimers(rs: seq<RetryInterval>, st: Status, log: seq<Attempt>, proved: bool, desired: Option<int>, now: int, p: Probe, before: int)
    requires VerificationKept(st, log, proved, before)
    ensures var v := Verify(rs, st, desired, now, p);
            var next := Saved(v.status);
            next.scaffold.Some? ==> Tracks(next.scaffold.value.timers, Record(log, v.attempt))
  {
    if st.scaffold.Some? { TracksSaved(st.scaffold.value.timers, log); }
  }

  lemma VerifyKeepsTruth(rs: seq<RetryInterval>, st: Status, log: seq<Attempt>, proved: bool, desired: Option<int>, now: int, p: Probe, before: int)
    requires VerificationKept(st, log, proved, before)
    ensures var v := Verify(rs, st, desired, now, p);
            && (v.status.verified.status == Yes ==> v.status.scaffold.None? && (proved || Proves(p)))
            && (v.status.verified.status != Yes ==> v.status.dns != Yes && v.status.http != Yes && v.status.zone != Yes)
            && (v.status.scaffold.None? && v.status.verified.status != Yes ==> Record(log, v.attempt) == [])
  {
  }

  lemma VerifyKeeps(rs: seq<RetryInterval>, st: Status, log: seq<Attempt>, proved: bool, desired: Option<int>, now: int, p: Probe, before: int)
    requires VerificationKept(st, log, proved, before) && before <= now && Whole(desired)
    ensures var v := Verify(rs, st, desired, now, p);
            VerificationKept(Saved(v.status), Record(log, v.attempt), proved || Proves(p), now)
  {
    VerifyKeepsLog(rs, st, log, proved, desired, now, p, before);
    VerifyKeepsTimers(rs, st, log, proved, desired, now, p, before);
    VerifyKeepsTruth(rs, st, log, proved, desired, now, p, before);
  }

  lemma RegisterKeeps(cfg: RegistrationConfig, t: Timers, log: seq<Attempt>, desired: Option<int>, now: int, l: Lookup, jitter: nat, before: int)
    requires RegistrationKept(t, log, before) && before <= now && Whole(desired)
    ensures var r := Register(cfg, t, desired, now, l, jitter);
            RegistrationKept(SavedTimers(r.timers), Record(log, r.attempt), now)
  {
    var r := Register(cfg, t, desired, now, l, jitter);
    if r.attempt.Some? {
      AttemptKeepsDiscipline(t, log, desired, r.attempt.value, before);
    } else {
      DisciplineLater(log, before, now);
      TracksSaved(t, log);
    }
  }

  lemma VerifyLeavesRegistration(rs: seq<RetryInterval>, st: Status, desired: Option<int>, now: int, p: Probe)
    ensures Verify(rs, st, desired, now, p).status.registration == st.registration
  {
  }

  lemma RegistrationIsApart(st: Status, t: Timers, log: seq<Attempt>, proved: bool, now: int)
    requires VerificationKept(Saved(st), log, proved, now)
    ensures VerificationKept(Saved(st.(registration := t)), log, proved, now)
    ensures Saved(st.(registration := t)).registration == SavedTimers(t)
  {
  }

  lemma ReconcileKeeps(cfg: Config, s: System, e: Event, before: int)
    requires e.Reconcile? && e.saved && Kept(s, before) && before <= e.now <= e.refreshAt
    ensures Kept(Step(cfg, s, e), e.refreshAt)
  {
    var v, r := VerifyAt(cfg, s, e), RegisterAt(cfg, s, e);
    VerifyKeeps(cfg.intervals, s.status, s.verifications, s.proved, s.desired.verification, e.now, e.probe, before);
    VerifyLeavesRegistration(cfg.intervals, s.status, s.desired.verification, e.now, e.probe);
    RegisterKeeps(cfg.registration, s.status.registration, s.refreshes, s.desired.registration, e.refreshAt, e.lookup, e.spread, before);
    RegistrationIsApart(v.status, r.timers, Record(s.verifications, v.attempt), s.proved || Proves(e.probe), e.now);
    DisciplineLater(Record(s.verifications, v.attempt), e.now, e.refreshAt);
  }

  lemma KeptLater(s: System, before: int, now: int)
    requires Kept(s, before) && before <= now
    ensures Kept(s, now)
  {
  }

  lemma StepKeeps(cfg: Config, s: System, e: Event, before: int, now: int)
    requires Kept(s, before) && before <= now
    requires e.Reconcile? ==> before <= e.now <= e.refreshAt <= now
    requires e.Want? ==> WholeSeconds(e.desired)
    ensures Kept(Step(cfg, s, e), now)
  {
    if e.Reconcile? && e.saved {
      ReconcileKeeps(cfg, s, e, before);
      KeptLater(Step(cfg, s, e), e.refreshAt, now);
    } else {
      KeptLater(s, before, now);
    }
  }

  lemma {:induction false} RunKeeps(cfg: Config, s: System, es: seq<Event>, now: int)
    requires FreshDomain(s) && ClockBy(es, now)
    ensures Kept(Run(cfg, s, es), now)
  {
    if es != [] {
      var e := es[|es| - 1];
      var before := if e.Reconcile? then e.now else now;
      RunKeeps(cfg, s, es[..|es| - 1], before);
      StepKeeps(cfg, Run(cfg, s, es[..|es| - 1]), e, before, now);
    }
  }

  // ----- The theorems -----

  /** Verified is absorbing, with no scaffolding and no timer, whatever the probes say later. */
  lemma {:induction false} VerifiedIsAbsorbing(cfg: Config, s: System, es: seq<Event>)
    requires s.status.verified.status == Yes && s.status.scaffold.None?
    ensures Run(cfg, s, es).status.verified.status == Yes && Run(cfg, s, es).status.scaffold.None?
    ensures Run(cfg, s, es).verifications == s.verifications
  {
    if es != [] { VerifiedIsAbsorbing(cfg, s, es[..|es| - 1]); }
  }

  /** In every run from a fresh Domain: being verified takes a probe that succeeded, and the scaffolding is gone. */
  lemma VerifiedWasProved(cfg: Config, s: System, es: seq<Event>, now: int)
    requires FreshDomain(s) && ClockBy(es, now) && Run(cfg, s, es).status.verified.status == Yes
    ensures Run(cfg, s, es).status.scaffold.None?
    ensures exists i :: 0 <= i < |es| && es[i].Reconcile? && es[i].saved && Proves(es[i].probe)
  {
    RunKeeps(cfg, s, es, now);
    ProofIsInTheRun(cfg, s, es);
  }

  lemma {:induction false} ProofIsInTheRun(cfg: Config, s: System, es: seq<Event>)
    requires !s.proved && Run(cfg, s, es).proved
    ensures exists i :: 0 <= i < |es| && es[i].Reconcile? && es[i].saved && Proves(es[i].probe)
  {
    var e := es[|es| - 1];
    if !(e.Reconcile? && e.saved && Proves(e.probe)) {
      ProofIsInTheRun(cfg, s, es[..|es| - 1]);
    }
  }

  /** A verification attempt is in order: there is scaffolding and its timer is due, or a desired time has come
      since the last attempt. */
  predicate AttemptDue(st: Status, desired: Option<int>, now: int)
  {
    && st.scaffold.Some?
    && var t := st.scaffold.value.timers;
       || t.next.None? || t.next.value <= now
       || (desired.Some? && desired.value <= now && (t.last.None? || t.last.value < desired.value))
  }

  /** No probe has succeeded that did not verify the Domain. */
  predicate Unproved(st: Status) { st.dns != Yes && st.http != Yes && st.zone != Yes }

  lemma UnverifiedIsUnproved(cfg: Config, s: System, es: seq<Event>, now: int)
    requires FreshDomain(s) && ClockBy(es, now) && Run(cfg, s, es).status.verified.status != Yes
    ensures Unproved(Run(cfg, s, es).status)
  {
    RunKeeps(cfg, s, es, now);
  }

  lemma SavedStep(cfg: Config, s: System, es: seq<Event>, e: Event)
    requires e.Reconcile? && e.saved
    ensures var v := VerifyAt(cfg, Run(cfg, s, es), e).status;
            Run(cfg, s, es + [e]).status.verified.status == v.verified.status && Run(cfg, s, es + [e]).status.scaffold == Saved(v).scaffold
  {
    assert (es + [e])[..|es|] == es;
  }

  lemma VerifyIsExact(rs: seq<RetryInterval>, st: Status, desired: Option<int>, now: int, p: Probe)
    requires st.verified.status != Yes ==> Unproved(st)
    ensures Verify(rs, st, desired, now, p).status.verified.status == Yes <==>
            st.verified.status == Yes || p.zone || (AttemptDue(st, desired, now) && (p.dns || p.http))
  {
  }

  /** After any run from a fresh Domain, a saved reconcile leaves it verified if and only if it was verified
      already, or a DNSZone proves it, or an attempt is due and its DNS or its HTTP probe succeeds. */
  lemma VerifiedExactlyWhen(cfg: Config, s: System, es: seq<Event>, e: Event, now: int)
    requires FreshDomain(s) && ClockBy(es, now) && e.Reconcile? && e.saved
    ensures var before := Run(cfg, s, es);
            Run(cfg, s, es + [e]).status.verified.status == Yes <==>
            || before.status.verified.status == Yes || e.probe.zone
            || (AttemptDue(before.status, before.desired.verification, e.now) && (e.probe.dns || e.probe.http))
  {
    var before := Run(cfg, s, es);
    if before.status.verified.status != Yes { UnverifiedIsUnproved(cfg, s, es, now); }
    VerifyIsExact(cfg.intervals, before.status, before.desired.verification, e.now, e.probe);
    SavedStep(cfg, s, es, e);
  }

  /** The first reconcile of a fresh Domain publishes the scaffolding with an attempt due at once, so the next
      one verifies the Domain if and only if some probe succeeds. */
  lemma SecondReconcileVerifies(cfg: Config, s: System, e: Event, f: Event)
    requires FreshDomain(s) && e.Reconcile? && f.Reconcile? && e.saved && f.saved && !e.probe.zone && e.now <= e.refreshAt <= f.now <= f.refreshAt
    ensures var t := Run(cfg, s, [e]).status; t.verified.status == No && t.scaffold.Some? && t.scaffold.value.content == e.probe.content
    ensures Run(cfg, s, [e, f]).status.verified.status == Yes <==> Proves(f.probe)
  {
    assert [e][..0] == [] && [e] + [f] == [e, f];
    TruncBounds(e.now);
    VerifiedExactlyWhen(cfg, s, [e], f, f.refreshAt);
  }

  /** While a Domain is not verified, every saved reconcile reports each way of verifying it as not verified. */
  lemma UnverifiedReportsNo(cfg: Config, s: System, es: seq<Event>, e: Event, now: int)
    requires FreshDomain(s) && ClockBy(es, now) && e.Reconcile? && e.saved && Run(cfg, s, es + [e]).status.verified.status != Yes
    ensures var t := Run(cfg, s, es + [e]).status; t.verified.status == No && t.dns == No && t.http == No && t.zone == No
  {
    var before := Run(cfg, s, es);
    assert (es + [e])[..|es|] == es;
    VerifiedExactlyWhen(cfg, s, es, e, now);
    UnverifiedIsUnproved(cfg, s, es, now);
    VerifyReportsNo(cfg.intervals, before.status, before.desired.verification, e.now, e.probe);
  }

  lemma VerifyReportsNo(rs: seq<RetryInterval>, st: Status, desired: Option<int>, now: int, p: Probe)
    requires Unproved(st) && Verify(rs, st, desired, now, p).status.verified.status != Yes
    ensures var t := Verify(rs, st, desired, now, p).status; t.verified.status == No && t.dns == No && t.http == No && t.zone == No
  {
  }

  /** The token to publish is the one generated with the scaffolding: it never changes while the Domain waits
      to be verified. */
  lemma {:induction false} TokenStays(cfg: Config, s: System, es: seq<Event>)
    requires s.status.scaffold.Some?
    ensures var t := Run(cfg, s, es).status;
            t.scaffold.Some? ==> t.scaffold.value.content == s.status.scaffold.value.content
    ensures Run(cfg, s, es).status.scaffold.None? ==> Run(cfg, s, es).status.verified.status == Yes
  {
    if es != [] {
      var init, e := es[..|es| - 1], es[|es| - 1];
      TokenStays(cfg, s, init);
      if e.Reconcile? { VerifyKeepsToken(cfg.intervals, Run(cfg, s, init).status, Run(cfg, s, init).desired.verification, e.now, e.probe); }
    }
  }

  lemma VerifyKeepsToken(rs: seq<RetryInterval>, st: Status, desired: Option<int>, now: int, p: Probe)
    ensures var v := Verify(rs, st, desired, now, p).status;
            && (st.verified.status == Yes || v.scaffold.None? ==> v.verified.status == Yes)
            && (st.scaffold.Some? && v.scaffold.Some? ==> v.scaffold.value.content == st.scaffold.value.content)
            && (st.scaffold.None? && st.verified.status == Yes ==> v.scaffold.None?)
  {
  }

  // ----- How long the next attempt waits -----

  predicate TooShort(r: RetryInterval, elapsed: int) { r.maxElapsed.Some? && r.maxElapsed.value < elapsed }

  /** The first interval that is not too short for the elapsed time, or five minutes when all are. */
  ghost predicate FirstCovering(rs: seq<RetryInterval>, elapsed: int, wait: int)
  {
    || (exists i :: 0 <= i < |rs| && !TooShort(rs[i], elapsed) && wait == rs[i].interval && forall k :: 0 <= k < i ==> TooShort(rs[k], elapsed))
    || (wait == 300_000_000_000 && forall k :: 0 <= k < |rs| ==> TooShort(rs[k], elapsed))
  }

  lemma {:induction false} IntervalIsFirstCovering(rs: seq<RetryInterval>, elapsed: int, n: nat)
    requires n <= |rs| && forall k :: 0 <= k < n ==> TooShort(rs[k], elapsed)
    ensures FirstCovering(rs, elapsed, IntervalFor(rs[n..], elapsed))
    decreases |rs| - n
  {
    if n < |rs| && TooShort(rs[n], elapsed) {
      assert rs[n..][1..] == rs[n + 1..];
      IntervalIsFirstCovering(rs, elapsed, n + 1);
    }
  }

  lemma FailedAttemptWaits(rs: seq<RetryInterval>, st: Status, desired: Option<int>, now: int, p: Probe)
    requires st.verified.status == No && Unproved(st) && !Proves(p) && AttemptDue(st, desired, now)
    ensures var t := Saved(Verify(rs, st, desired, now, p).status);
            t.scaffold.Some? && t.scaffold.value.timers ==
              Timers(Some(Trunc(now + IntervalFor(rs, now - st.verified.transition) + p.jitter)), Some(Trunc(now)))
  {
  }

  /** After a saved attempt whose probes fail, the next one is due after the interval for the time the Domain has
      been unverified, and the jitter, in whole seconds; and the attempt is remembered. */
  lemma FailedVerificationWaits(cfg: Config, s: System, es: seq<Event>, e: Event, now: int) returns (wait: int)
    requires FreshDomain(s) && ClockBy(es, now) && e.Reconcile? && e.saved && !Proves(e.probe)
    requires var before := Run(cfg, s, es); before.status.verified.status == No && AttemptDue(before.status, before.desired.verification, e.now)
    ensures FirstCovering(cfg.intervals, e.now - Run(cfg, s, es).status.verified.transition, wait)
    ensures var t := Run(cfg, s, es + [e]).status;
            t.scaffold.Some? && t.scaffold.value.timers == Timers(Some(Trunc(e.now + wait + e.probe.jitter)), Some(Trunc(e.now)))
  {
    var before := Run(cfg, s, es);
    UnverifiedIsUnproved(cfg, s, es, now);
    SavedStep(cfg, s, es, e);
    FailedAttemptWaits(cfg.intervals, before.status, before.desired.verification, e.now, e.probe);
    assert cfg.intervals[0..] == cfg.intervals;
    IntervalIsFirstCovering(cfg.intervals, e.now - before.status.verified.transition, 0);
    wait := IntervalFor(cfg.intervals, e.now - before.status.verified.transition);
  }

  /** What a registration lookup asks to wait: a success the refresh interval, or longer if the registry says so; a
      rate limit what it says, if it says anything; every other failure the backoff. */
  predicate RefreshWait(cfg: RegistrationConfig, l: Lookup, jitter: nat, wait: int)
  {
    match l
    case Refreshed(suggested) => wait - jitter in {cfg.refreshInterval, suggested} && wait - jitter >= cfg.refreshInterval && wait - jitter >= suggested
    case RateLimited(retryAfter, suggested) =>
      if retryAfter <= 0 && suggested <= 0 then wait == cfg.retryBackoff + jitter
      else wait - jitter in {retryAfter, suggested} && wait - jitter >= retryAfter && wait - jitter >= suggested
    case Failed => wait == cfg.retryBackoff
  }

  /** A saved lookup is remembered and the next one is due that much later, in whole seconds. */
  lemma LookupWaits(cfg: Config, s: System, e: Event) returns (wait: int)
    requires e.Reconcile? && e.saved && RegisterAt(cfg, s, e).attempt.Some?
    ensures RefreshWait(cfg.registration, e.lookup, e.spread, wait)
    ensures Step(cfg, s, e).status.registration == Timers(Some(Trunc(e.refreshAt + wait)), Some(Trunc(e.refreshAt)))
  {
    var a := RegisterAt(cfg, s, e).attempt.value;
    wait := a.interval + a.jitter;
  }

  /** Waking at the returned time, or later, with the status saved and nothing else changed, makes the attempt. */
  lemma WakingAttempts(rs: seq<RetryInterval>, st: Status, desired: Option<int>, now: int, p: Probe, later: int, q: Probe)
    requires st.zone != Yes && Whole(desired)
    requires Verify(rs, st, desired, now, p).next.Some? && later >= Verify(rs, st, desired, now, p).next.value && later >= now && !q.zone
    ensures Verify(rs, Saved(Verify(rs, st, desired, now, p).status), desired, later, q).attempt.Some?
  {
    var v := Verify(rs, st, desired, now, p);
    if v.attempt.Some? {
      TruncBounds(v.next.value);
    } else if st.scaffold.None? {
      TruncBounds(now);
    } else {
      var t := st.scaffold.value.timers;
      TruncBounds(t.next.value);
      if t.last.Some? { TruncBounds(t.last.value); }
    }
  }
}
