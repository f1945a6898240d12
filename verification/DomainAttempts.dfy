/** Every attempt a Domain's reconciles make, whether or not the status update recorded it.

    Expediting once and spacing retries both rest on the record: an attempt whose status update
    failed is forgotten. `UnsavedAttemptIsRepeated` is a run in which one desired time expedites
    twice; the two `…ExactlyWhenUnsaved` theorems say for every run that this is the only way.
 */
module DomainAttempts {
  import opened Ordering
  import opened DomainController
  import opened DomainRuns

  datatype Made = Made(attempt: Attempt, saved: bool)

  function Note(log: seq<Made>, a: Option<Attempt>, saved: bool): seq<Made>
  {
    if a.Some? then log + [Made(a.value, saved)] else log
  }

  /** All verification attempts of a run, in order. */
  function Verifications(cfg: Config, s: System, es: seq<Event>): seq<Made>
  {
    if es == [] then []
    else
      var init, e := es[..|es| - 1], es[|es| - 1];
      var before := Verifications(cfg, s, init);
      if e.Reconcile? then Note(before, VerifyAt(cfg, Run(cfg, s, init), e).attempt, e.saved) else before
  }

  /** All registration lookups of a run, in order. */
  function Refreshes(cfg: Config, s: System, es: seq<Event>): seq<Made>
  {
    if es == [] then []
    else
      var init, e := es[..|es| - 1], es[|es| - 1];
      var before := Refreshes(cfg, s, init);
      if e.Reconcile? then Note(before, RegisterAt(cfg, Run(cfg, s, init), e).attempt, e.saved) else before
  }

  function Recorded(log: seq<Made>): seq<Attempt>
  {
    if log == [] then []
    else
      var before, last := Recorded(log[..|log| - 1]), log[|log| - 1];
      if last.saved then before + [last.attempt] else before
  }

  lemma RecordedNote(log: seq<Made>, a: Option<Attempt>, saved: bool)
    ensures Recorded(Note(log, a, saved)) == if saved then Record(Recorded(log), a) else Recorded(log)
  {
    if a.Some? { assert (log + [Made(a.value, saved)])[..|log|] == log; }
  }

  /** The attempts with a record are those the status remembers. */
  lemma {:induction false} RecordedAttempts(cfg: Config, s: System, es: seq<Event>)
    requires s.verifications == [] && s.refreshes == []
    ensures Recorded(Verifications(cfg, s, es)) == Run(cfg, s, es).verifications
    ensures Recorded(Refreshes(cfg, s, es)) == Run(cfg, s, es).refreshes
  {
    if es != [] {
      var init, e := es[..|es| - 1], es[|es| - 1];
      RecordedAttempts(cfg, s, init);
      if e.Reconcile? {
        RecordedNote(Verifications(cfg, s, init), VerifyAt(cfg, Run(cfg, s, init), e).attempt, e.saved);
        RecordedNote(Refreshes(cfg, s, init), RegisterAt(cfg, Run(cfg, s, init), e).attempt, e.saved);
      }
    }
  }

  // ----- Every attempt respects the recorded ones before it -----

  predicate Respects(log: seq<Made>, j: nat)
    requires j < |log|
  {
    Disciplined(Recorded(log[..j]) + [log[j].attempt], log[j].attempt.at)
  }

  predicate AllRespect(log: seq<Made>) { forall j: nat :: j < |log| ==> Respects(log, j) }

  lemma NoteRespects(log: seq<Made>, a: Option<Attempt>, saved: bool)
    requires AllRespect(log) && (a.Some? ==> Disciplined(Recorded(log) + [a.value], a.value.at))
    ensures AllRespect(Note(log, a, saved))
  {
    if a.Some? {
      var next := log + [Made(a.value, saved)];
      forall j: nat | j < |next| ensures Respects(next, j) {
        if j < |log| {
          assert Respects(log, j) && next[..j] == log[..j];
        } else {
          assert next[..j] == log;
        }
      }
    }
  }

  lemma VerifyRespects(cfg: Config, s: System, e: Event, before: int)
    requires e.Reconcile? && Kept(s, before) && before <= e.now && VerifyAt(cfg, s, e).attempt.Some?
    ensures var a := VerifyAt(cfg, s, e).attempt.value; Disciplined(s.verifications + [a], a.at)
  {
    AttemptKeepsDiscipline(s.status.scaffold.value.timers, s.verifications, s.desired.verification, VerifyAt(cfg, s, e).attempt.value, before);
  }

  lemma RegisterRespects(cfg: Config, s: System, e: Event, before: int)
    requires e.Reconcile? && Kept(s, before) && before <= e.refreshAt && RegisterAt(cfg, s, e).attempt.Some?
    ensures var a := RegisterAt(cfg, s, e).attempt.value; Disciplined(s.refreshes + [a], a.at)
  {
    AttemptKeepsDiscipline(s.status.registration, s.refreshes, s.desired.registration, RegisterAt(cfg, s, e).attempt.value, before);
  }

  lemma {:induction false} AllAttemptsRespect(cfg: Config, s: System, es: seq<Event>, now: int)
    requires FreshDomain(s) && ClockBy(es, now)
    ensures AllRespect(Verifications(cfg, s, es)) && AllRespect(Refreshes(cfg, s, es))
  {
    if es != [] {
      var init, e := es[..|es| - 1], es[|es| - 1];
      if e.Want? {
        AllAttemptsRespect(cfg, s, init, now);
      } else {
        var before := Run(cfg, s, init);
        AllAttemptsRespect(cfg, s, init, e.now);
        RunKeeps(cfg, s, init, e.now);
        RecordedAttempts(cfg, s, init);
        var v, r := VerifyAt(cfg, before, e).attempt, RegisterAt(cfg, before, e).attempt;
        if v.Some? { VerifyRespects(cfg, before, e, e.now); }
        if r.Some? { RegisterRespects(cfg, before, e, e.now); }
        NoteRespects(Verifications(cfg, s, init), v, e.saved);
        NoteRespects(Refreshes(cfg, s, init), r, e.saved);
      }
    }
  }

  lemma {:induction false} SavedIsRecorded(log: seq<Made>, i: nat) returns (k: nat)
    requires i < |log| && log[i].saved
    ensures k < |Recorded(log)| && Recorded(log)[k] == log[i].attempt
    ensures (forall j :: i < j < |log| ==> !log[j].saved) ==> k == |Recorded(log)| - 1
  {
    var init := log[..|log| - 1];
    if i < |init| { k := SavedIsRecorded(init, i); } else { k := |Recorded(init)|; }
  }

  /** A desired time that expedites twice did not get its first attempt recorded. */
  predicate RepeatsOnlyUnsaved(log: seq<Made>)
  {
    forall i, j :: 0 <= i < j < |log| && log[i].attempt.expedited.Some? && log[i].attempt.expedited == log[j].attempt.expedited ==> !log[i].saved
  }

  /** An attempt nobody expedited waits out the interval of the last recorded one. */
  predicate SpacedFromRecorded(log: seq<Made>)
  {
    forall i, j :: 0 <= i < j < |log| && log[j].attempt.expedited.None? && log[i].saved && (forall k :: i < k < j ==> !log[k].saved) ==>
      log[j].attempt.at > log[i].attempt.at + log[i].attempt.interval - SECOND
  }

  lemma RespectGives(log: seq<Made>, i: nat, j: nat)
    requires i < j < |log| && Respects(log, j) && log[i].saved && Respects(log, i)
    ensures log[i].attempt.expedited.Some? ==> log[i].attempt.expedited != log[j].attempt.expedited
    ensures log[j].attempt.expedited.None? && (forall k :: i < k < j ==> !log[k].saved) ==>
      log[j].attempt.at > log[i].attempt.at + log[i].attempt.interval - SECOND
  {
    var before := Recorded(log[..j]);
    var k := SavedIsRecorded(log[..j], i);
    var all := before + [log[j].attempt];
    assert all[k] == log[i].attempt && all[|before|] == log[j].attempt;
    var mine := Recorded(log[..i]) + [log[i].attempt];
    assert mine[|mine| - 1] == log[i].attempt;
  }

  /** Over every run, all attempts made: a desired time expedites again only while no attempt it
      expedited has been recorded, and retries are spaced from the last recorded attempt. */
  lemma EveryAttemptIsDisciplined(cfg: Config, s: System, es: seq<Event>, now: int)
    requires FreshDomain(s) && ClockBy(es, now)
    ensures RepeatsOnlyUnsaved(Verifications(cfg, s, es)) && SpacedFromRecorded(Verifications(cfg, s, es))
    ensures RepeatsOnlyUnsaved(Refreshes(cfg, s, es)) && SpacedFromRecorded(Refreshes(cfg, s, es))
  {
    AllAttemptsRespect(cfg, s, es, now);
    RespectingIsEnough(Verifications(cfg, s, es));
    RespectingIsEnough(Refreshes(cfg, s, es));
  }

  lemma RespectingIsEnough(log: seq<Made>)
    requires AllRespect(log)
    ensures RepeatsOnlyUnsaved(log) && SpacedFromRecorded(log)
  {
    forall i, j | 0 <= i < j < |log| && log[i].saved
      ensures log[i].attempt.expedited.Some? ==> log[i].attempt.expedited != log[j].attempt.expedited
      ensures log[j].attempt.expedited.None? && (forall k :: i < k < j ==> !log[k].saved) ==>
        log[j].attempt.at > log[i].attempt.at + log[i].attempt.interval - SECOND
    {
      assert Respects(log, i) && Respects(log, j);
      RespectGives(log, i, j);
    }
  }

  // ----- Exactly when a desired time expedites again -----

  /** Reconciles one after another, from `start` on. */
  predicate Reconciles(es: seq<Event>, start: int)
  {
    && (forall i :: 0 <= i < |es| ==> es[i].Reconcile? && start <= es[i].now <= es[i].refreshAt)
    && (forall i, j :: 0 <= i < j < |es| ==> es[i].refreshAt <= es[j].now)
  }

  predicate NoneSaved(es: seq<Event>) { forall i :: 0 <= i < |es| && es[i].Reconcile? ==> !es[i].saved }

  predicate ExpeditedBy(a: Option<Attempt>, d: int) { a.Some? && a.value.expedited == Some(d) }

  lemma {:induction false} UnsavedLeavesState(cfg: Config, s: System, es: seq<Event>)
    requires (forall i :: 0 <= i < |es| ==> es[i].Reconcile?) && NoneSaved(es)
    ensures Run(cfg, s, es) == s
  {
    if es != [] { UnsavedLeavesState(cfg, s, es[..|es| - 1]); }
  }

  /** `d` has nothing left to expedite. */
  predicate VerificationSettled(s: System, d: int)
  {
    s.status.verified.status == Yes || (s.status.scaffold.Some? && !Pending(s.status.scaffold.value.timers, d))
  }

  predicate RegistrationSettled(s: System, d: int) { !Pending(s.status.registration, d) }

  lemma SettlesVerification(cfg: Config, s: System, e: Event, d: int)
    requires e.Reconcile? && e.saved && d <= e.now && d % SECOND == 0
    ensures VerificationSettled(s, d) ==> VerificationSettled(Step(cfg, s, e), d)
    ensures s.desired.verification == Some(d) && s.status.scaffold.Some? ==> VerificationSettled(Step(cfg, s, e), d)
  {
    WholeReached(Some(d), e.now);
    if s.status.scaffold.Some? && s.status.scaffold.value.timers.last.Some? && s.status.scaffold.value.timers.last.value >= d {
      WholeReached(Some(d), s.status.scaffold.value.timers.last.value);
    }
  }

  lemma SettlesRegistration(cfg: Config, s: System, e: Event, d: int)
    requires e.Reconcile? && e.saved && d <= e.refreshAt && d % SECOND == 0
    ensures RegistrationSettled(s, d) ==> RegistrationSettled(Step(cfg, s, e), d)
    ensures s.desired.registration == Some(d) ==> RegistrationSettled(Step(cfg, s, e), d)
  {
    WholeReached(Some(d), e.refreshAt);
    if s.status.registration.last.Some? && s.status.registration.last.value >= d {
      WholeReached(Some(d), s.status.registration.last.value);
    }
  }

  /** While the desired time stays `d`, one saved reconcile settles it and it stays settled. */
  lemma {:induction false} SavedOnceIsVerified(cfg: Config, s: System, es: seq<Event>, d: int)
    requires (forall i :: 0 <= i < |es| ==> es[i].Reconcile? && d <= es[i].now) && !NoneSaved(es) && d % SECOND == 0
    requires s.desired.verification == Some(d) && s.status.scaffold.Some?
    ensures VerificationSettled(Run(cfg, s, es), d)
  {
    var init, e := es[..|es| - 1], es[|es| - 1];
    if NoneSaved(init) {
      UnsavedLeavesState(cfg, s, init);
      assert e.saved;
    } else {
      SavedOnceIsVerified(cfg, s, init, d);
    }
    if e.saved { SettlesVerification(cfg, Run(cfg, s, init), e, d); }
  }

  lemma {:induction false} SavedOnceIsRefreshed(cfg: Config, s: System, es: seq<Event>, d: int)
    requires (forall i :: 0 <= i < |es| ==> es[i].Reconcile? && d <= es[i].refreshAt) && !NoneSaved(es) && d % SECOND == 0
    requires s.desired.registration == Some(d)
    ensures RegistrationSettled(Run(cfg, s, es), d)
  {
    var init, e := es[..|es| - 1], es[|es| - 1];
    if NoneSaved(init) {
      UnsavedLeavesState(cfg, s, init);
      assert e.saved;
    } else {
      SavedOnceIsRefreshed(cfg, s, init, d);
    }
    if e.saved { SettlesRegistration(cfg, Run(cfg, s, init), e, d); }
  }

  lemma ReconcilesFrom(es: seq<Event>, e: Event)
    requires es != [] && es[0].Reconcile? && Reconciles(es + [e], es[0].now)
    ensures e.Reconcile? && es[0].now <= e.now && es[0].refreshAt <= e.refreshAt
    ensures forall i :: 0 <= i < |es| ==> es[i].Reconcile? && es[0].now <= es[i].now && es[0].refreshAt <= es[i].refreshAt
  {
    var all := es + [e];
    assert all[|es|] == e && all[0] == es[0] && forall i :: 0 <= i < |es| ==> all[i] == es[i];
  }

  lemma UnsavedVerifiesAgain(cfg: Config, s: System, first: Event, e: Event, d: int)
    requires first.Reconcile? && e.Reconcile? && first.now <= e.now && s.status.zone != Yes
    requires ExpeditedBy(VerifyAt(cfg, s, first).attempt, d)
    ensures ExpeditedBy(VerifyAt(cfg, s, e).attempt, d) <==> !e.probe.zone
  {
  }

  lemma SettledVerifiesNoMore(cfg: Config, s: System, e: Event, d: int)
    requires e.Reconcile? && VerificationSettled(s, d)
    ensures !ExpeditedBy(VerifyAt(cfg, s, e).attempt, d)
  {
  }

  lemma WasExpedited(cfg: Config, s: System, e: Event, d: int)
    requires e.Reconcile? && WholeSeconds(s.desired)
    ensures ExpeditedBy(VerifyAt(cfg, s, e).attempt, d) ==>
      s.desired.verification == Some(d) && d % SECOND == 0 && d <= e.now && s.status.scaffold.Some? && s.status.verified.status != Yes
    ensures ExpeditedBy(RegisterAt(cfg, s, e).attempt, d) ==> s.desired.registration == Some(d) && d % SECOND == 0 && d <= e.refreshAt
  {
  }

  /** Verification. After any run, if the first of some reconciles is expedited by `d`, a later one is
      expedited by `d` again if and only if none of those before it was saved (and no DNSZone proves
      the domain first). */
  lemma VerifiesAgainExactlyWhenUnsaved(cfg: Config, s0: System, run: seq<Event>, es: seq<Event>, e: Event, d: int)
    requires FreshDomain(s0) && es != [] && es[0].Reconcile? && e.Reconcile? && ClockBy(run, es[0].now) && Reconciles(es + [e], es[0].now)
    requires ExpeditedBy(VerifyAt(cfg, Run(cfg, s0, run), es[0]).attempt, d)
    ensures ExpeditedBy(VerifyAt(cfg, Run(cfg, Run(cfg, s0, run), es), e).attempt, d) <==> NoneSaved(es) && !e.probe.zone
  {
    var s := Run(cfg, s0, run);
    RunKeeps(cfg, s0, run, es[0].now);
    ReconcilesFrom(es, e);
    WasExpedited(cfg, s, es[0], d);
    if NoneSaved(es) {
      UnsavedLeavesState(cfg, s, es);
      UnsavedVerifiesAgain(cfg, s, es[0], e, d);
    } else {
      SavedOnceIsVerified(cfg, s, es, d);
      SettledVerifiesNoMore(cfg, Run(cfg, s, es), e, d);
    }
  }

  lemma UnsavedRefreshesAgain(cfg: Config, s: System, first: Event, e: Event, d: int)
    requires first.Reconcile? && e.Reconcile? && first.refreshAt <= e.refreshAt && ExpeditedBy(RegisterAt(cfg, s, first).attempt, d)
    ensures ExpeditedBy(RegisterAt(cfg, s, e).attempt, d)
  {
  }

  lemma SettledRefreshesNoMore(cfg: Config, s: System, e: Event, d: int)
    requires e.Reconcile? && RegistrationSettled(s, d)
    ensures !ExpeditedBy(RegisterAt(cfg, s, e).attempt, d)
  {
  }

  /** Registration, likewise. */
  lemma RefreshesAgainExactlyWhenUnsaved(cfg: Config, s0: System, run: seq<Event>, es: seq<Event>, e: Event, d: int)
    requires FreshDomain(s0) && es != [] && es[0].Reconcile? && e.Reconcile? && ClockBy(run, es[0].now) && Reconciles(es + [e], es[0].now)
    requires ExpeditedBy(RegisterAt(cfg, Run(cfg, s0, run), es[0]).attempt, d)
    ensures ExpeditedBy(RegisterAt(cfg, Run(cfg, Run(cfg, s0, run), es), e).attempt, d) <==> NoneSaved(es)
  {
    var s := Run(cfg, s0, run);
    RunKeeps(cfg, s0, run, es[0].now);
    ReconcilesFrom(es, e);
    WasExpedited(cfg, s, es[0], d);
    if NoneSaved(es) {
      UnsavedLeavesState(cfg, s, es);
      UnsavedRefreshesAgain(cfg, s, es[0], e, d);
    } else {
      SavedOnceIsRefreshed(cfg, s, es, d);
      SettledRefreshesNoMore(cfg, Run(cfg, s, es), e, d);
    }
  }

  // ----- Exactly when the next reconcile attempts again -----

  /** The status update failed, or the stored interval is over, or a desired time expedites. */
  predicate DueAgain(cfg: Config, s: System, e: Event, next: Event)
    requires e.Reconcile? && next.Reconcile? && VerifyAt(cfg, s, e).attempt.Some?
  {
    var v := VerifyAt(cfg, s, e);
    var a := v.attempt.value;
    || !e.saved
    || (v.status.verified.status != Yes
        && (Trunc(a.at + a.interval + a.jitter) <= next.now || Expedites(SavedTimers(After(a)), s.desired.verification, next.now)))
  }

  /** After any run, and an attempt, the next reconcile attempts again exactly when it is due again. */
  lemma VerifiesNextExactlyWhen(cfg: Config, s0: System, run: seq<Event>, e: Event, next: Event)
    requires FreshDomain(s0) && e.Reconcile? && next.Reconcile? && ClockBy(run, e.now) && e.now <= next.now && !next.probe.zone
    requires VerifyAt(cfg, Run(cfg, s0, run), e).attempt.Some?
    ensures VerifyAt(cfg, Step(cfg, Run(cfg, s0, run), e), next).attempt.Some? <==> DueAgain(cfg, Run(cfg, s0, run), e, next)
  {
    RunKeeps(cfg, s0, run, e.now);
    VerifiesNext(cfg, Run(cfg, s0, run), e, next);
  }

  lemma VerifiesNext(cfg: Config, s: System, e: Event, next: Event)
    requires e.Reconcile? && next.Reconcile? && e.now <= next.now && !next.probe.zone
    requires s.status.verified.status != Yes ==> s.status.zone != Yes
    requires VerifyAt(cfg, s, e).attempt.Some?
    ensures VerifyAt(cfg, Step(cfg, s, e), next).attempt.Some? <==> DueAgain(cfg, s, e, next)
  {
  }

  /** Registration, likewise; a desired time still to come holds a due refresh back. */
  lemma RefreshesNextExactlyWhen(cfg: Config, s: System, e: Event, next: Event)
    requires e.Reconcile? && next.Reconcile? && e.refreshAt <= next.refreshAt && RegisterAt(cfg, s, e).attempt.Some?
    ensures var a := RegisterAt(cfg, s, e).attempt.value;
            var t := SavedTimers(After(a));
            RegisterAt(cfg, Step(cfg, s, e), next).attempt.Some? <==>
            (|| !e.saved
             || Expedites(t, s.desired.registration, next.refreshAt)
             || (Trunc(a.at + a.interval + a.jitter) <= next.refreshAt && DesiredWake(t, s.desired.registration, next.refreshAt).None?))
  {
  }

  // ----- A due refresh may be held back -----

  /** A registration lookup happens exactly when a desired time expedites it, or it is due and no pending
      desired time lies ahead. */
  lemma RefreshHappensExactlyWhen(cfg: RegistrationConfig, t: Timers, desired: Option<int>, now: int, l: Lookup, jitter: nat)
    ensures Register(cfg, t, desired, now, l, jitter).attempt.Some? <==>
      (Expedites(t, desired, now) || ((t.next.None? || t.next.value <= now) && DesiredWake(t, desired, now).None?))
  {
  }

  /** For every refresh that is due, a desired time still to come holds it back until then. */
  lemma DueRefreshIsPostponed(cfg: RegistrationConfig, t: Timers, desired: int, now: int, l: Lookup, jitter: nat)
    requires (t.next.None? || t.next.value <= now) && desired > now && Pending(t, desired)
    ensures Register(cfg, t, Some(desired), now, l, jitter) == Refresh(t, Some(desired), None)
  {
  }

  // ----- The failing run -----

  const NOTHING := Probe(false, false, false, "", 0)

  function Round(t: int, saved: bool): Event { Reconcile(t, t, NOTHING, Failed, 0, saved) }

  function Repeating(d: int, t: int): seq<Event>
  {
    [Want(Desired(Some(d), Some(d))), Round(t, false), Round(t, true), Round(t, false), Round(t, false)]
  }

  lemma LogsAppend(cfg: Config, s: System, es: seq<Event>, e: Event)
    requires e.Reconcile?
    ensures Run(cfg, s, es + [e]) == Step(cfg, Run(cfg, s, es), e)
    ensures Verifications(cfg, s, es + [e]) == Note(Verifications(cfg, s, es), VerifyAt(cfg, Run(cfg, s, es), e).attempt, e.saved)
    ensures Refreshes(cfg, s, es + [e]) == Note(Refreshes(cfg, s, es), RegisterAt(cfg, Run(cfg, s, es), e).attempt, e.saved)
  {
    assert (es + [e])[..|es|] == es;
  }

  lemma FirstRound(cfg: Config, s: System, d: int, t: int)
    requires FreshDomain(s) && s.desired == Desired(Some(d), Some(d)) && d <= t
    ensures VerifyAt(cfg, s, Round(t, true)).attempt.None? && VerifyAt(cfg, s, Round(t, false)).attempt.None?
    ensures ExpeditedBy(RegisterAt(cfg, s, Round(t, true)).attempt, d) && ExpeditedBy(RegisterAt(cfg, s, Round(t, false)).attempt, d)
    ensures ExpeditedBy(VerifyAt(cfg, Step(cfg, s, Round(t, true)), Round(t, false)).attempt, d)
  {
  }

  predicate Twice(log: seq<Made>, d: int)
  {
    |log| >= 2 && log[0].attempt.expedited == log[1].attempt.expedited == Some(d) && !log[0].saved
  }

  lemma NoteTwice(a: Option<Attempt>, b: Option<Attempt>, saved: bool, d: int)
    requires ExpeditedBy(a, d) && ExpeditedBy(b, d)
    ensures Twice(Note(Note([], a, false), b, saved), d)
  {
  }

  /** One desired time expedites two verifications and two registration lookups, each pair because the
      first of the two was not recorded. */
  lemma UnsavedAttemptIsRepeated(cfg: Config, s: System, d: int, t: int)
    requires FreshDomain(s) && d % SECOND == 0 && d <= t
    ensures ClockBy(Repeating(d, t), t)
    ensures Twice(Verifications(cfg, s, Repeating(d, t)), d) && Twice(Refreshes(cfg, s, Repeating(d, t)), d)
  {
    var s1 := s.(desired := Desired(Some(d), Some(d)));
    var u, v := Round(t, false), Round(t, true);
    var e1 := [Want(s1.desired)];
    FirstRound(cfg, s1, d, t);
    WantOnly(cfg, s, s1.desired);
    LogsAppend(cfg, s, e1, u);
    LogsAppend(cfg, s, e1 + [u], v);
    NoteTwice(RegisterAt(cfg, s1, u).attempt, RegisterAt(cfg, s1, v).attempt, true, d);
    var s2 := Step(cfg, s1, v);
    LogsAppend(cfg, s, e1 + [u] + [v], u);
    LogsAppend(cfg, s, e1 + [u] + [v] + [u], u);
    NoteTwice(VerifyAt(cfg, s2, u).attempt, VerifyAt(cfg, s2, u).attempt, false, d);
    assert Repeating(d, t) == e1 + [u] + [v] + [u] + [u];
  }

  lemma WantOnly(cfg: Config, s: System, d: Desired)
    ensures Run(cfg, s, [Want(d)]) == s.(desired := d) && Verifications(cfg, s, [Want(d)]) == [] && Refreshes(cfg, s, [Want(d)]) == []
  {
    var es := [Want(d)];
    assert es[..0] == [];
    assert Verifications(cfg, s, []) == [] && Refreshes(cfg, s, []) == [];
  }
}
