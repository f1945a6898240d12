/** The Secret labels of gateway_resource_replicator_securitypolicy_propagate.go as a protocol.

    A pass lists the policies, reads and patches the referenced Secrets one by one, lists the labelled
    Secrets and patches those to unlabel. Every one of these API calls is one step, and between any two
    the policies may change and users may create, edit and delete Secrets. A patch is a merge patch: it
    carries the fields that differ from the copy that was read, and hits whatever is there by then.
 */
module SecretInterleaving {
  import opened Ordering
  import opened SecretLabels

  datatype Phase =
    | Idle
    | Ensuring(referenced: iset<string>, todo: iset<string>)
    | Patching(referenced: iset<string>, todo: iset<string>, name: string, marked: bool)  // read `name` without the label
    | Collecting(referenced: iset<string>, todo: iset<string>)                            // listed, about to unlabel `todo`

  datatype Event =
    | SetPolicies(policies: seq<Policy>)
    | EditSecret(name: string, secret: Option<Secret>)
    | Begin
    | Look(name: string)
    | Patch
    | ListSecrets
    | Unlabel(name: string)
    | Finish
    | Fail                                                // any API error ends the pass

  /** `edited` holds every Secret as its user last left it. */
  datatype State = State(policies: seq<Policy>, secrets: Secrets, edited: Secrets, phase: Phase)

  ghost predicate Start(s: State) { s.phase.Idle? && s.edited == s.secrets }

  /** The patch of a Secret read without the label: the annotation is in it unless it was there already. */
  function Labelling(marked: bool, s: Secret): Secret
  {
    if marked then s.(syncLabel := Some("true")) else s.(syncLabel := Some("true"), managed := Some("true"))
  }

  function Unlabelling(s: Secret): Secret { s.(syncLabel := None, managed := None) }

  ghost function Step(ns: string, s: State, e: Event): State
  {
    match e
    case SetPolicies(ps) => s.(policies := ps)
    case EditSecret(n, None) => s.(secrets := s.secrets - {n}, edited := s.edited - {n})
    case EditSecret(n, Some(x)) => s.(secrets := s.secrets[n := x], edited := s.edited[n := x])
    case Begin =>
      if s.phase.Idle? then
        var referenced := iset n | Needed(s.policies, ns, n);
        s.(phase := Ensuring(referenced, referenced))
      else s
    case Look(n) =>
      if s.phase.Ensuring? && n in s.phase.todo then
        var rest := s.phase.todo - iset{n};
        if n !in s.secrets || s.secrets[n].syncLabel.Some? then s.(phase := Ensuring(s.phase.referenced, rest))
        else s.(phase := Patching(s.phase.referenced, rest, n, s.secrets[n].managed == Some("true")))
      else s
    case Patch =>
      if s.phase.Patching? then
        var n := s.phase.name;
        if n !in s.secrets then s.(phase := Idle)
        else s.(secrets := s.secrets[n := Labelling(s.phase.marked, s.secrets[n])], phase := Ensuring(s.phase.referenced, s.phase.todo))
      else s
    case ListSecrets =>
      if s.phase.Ensuring? && s.phase.todo == iset{} then
        s.(phase := Collecting(s.phase.referenced, iset n | n in s.secrets && Managed(s.secrets[n]) && n !in s.phase.referenced))
      else s
    case Unlabel(n) =>
      if s.phase.Collecting? && n in s.phase.todo then
        if n !in s.secrets then s.(phase := Idle)
        else s.(secrets := s.secrets[n := Unlabelling(s.secrets[n])], phase := Collecting(s.phase.referenced, s.phase.todo - iset{n}))
      else s
    case Finish => if Finishing(s) then s.(phase := Idle) else s
    case Fail => s.(phase := Idle)
  }

  /** The pass has made its last call. */
  ghost predicate Finishing(s: State) { s.phase.Collecting? && s.phase.todo == iset{} }

  ghost function Run(ns: string, s: State, es: seq<Event>): State
  {
    if es == [] then s else Step(ns, Run(ns, s, es[..|es| - 1]), es[|es| - 1])
  }

  /** A patch of the Secret is on its way, made from a copy read earlier. */
  ghost predicate Pending(s: State, n: string)
  {
    (s.phase.Patching? && s.phase.name == n) || (s.phase.Collecting? && n in s.phase.todo)
  }

  predicate Edits(e: Event, n: string) { e.EditSecret? && e.name == n }

  predicate Unedited(es: seq<Event>, n: string) { forall i :: 0 <= i < |es| ==> !Edits(es[i], n) }

  predicate WithinPass(es: seq<Event>) { forall i :: 0 <= i < |es| ==> !es[i].Begin? }

  // ----- One pass, with everything else going on -----

  /** Where a pass that found the Secret as `x` is with it. */
  ghost predicate Underway(s: State, n: string, x: Secret, needed: bool)
  {
    s.phase.Idle? || (n in s.secrets && (n in s.phase.referenced <==> needed) && Progress(s.phase, n, x, s.secrets[n], needed))
  }

  ghost predicate Progress(p: Phase, n: string, x: Secret, now: Secret, needed: bool)
  {
    match p
    case Idle => true
    case Ensuring(_, todo) => (n in todo ==> needed) && now == if needed && n !in todo then Ensured(x) else x
    case Patching(_, todo, name, marked) =>
      && (n in todo ==> needed && name != n)
      && (name == n ==> needed && now == x && x.syncLabel.None? && (marked <==> x.managed == Some("true")))
      && (name != n ==> now == if needed && n !in todo then Ensured(x) else x)
    case Collecting(_, todo) =>
      if needed then n !in todo && now == Ensured(x)
      else if n in todo then now == x && Managed(x)
      else now == Collected(x)
  }

  lemma StepProgresses(ns: string, s: State, e: Event, n: string, x: Secret, needed: bool)
    requires Underway(s, n, x, needed) && !Edits(e, n) && !e.Begin?
    ensures Underway(Step(ns, s, e), n, x, needed)
  {
  }

  lemma {:induction false} RunProgresses(ns: string, s: State, es: seq<Event>, n: string, x: Secret, needed: bool)
    requires Underway(s, n, x, needed) && Unedited(es, n) && WithinPass(es)
    ensures Underway(Run(ns, s, es), n, x, needed)
  {
    if es != [] {
      RunProgresses(ns, s, es[..|es| - 1], n, x, needed);
      StepProgresses(ns, Run(ns, s, es[..|es| - 1]), es[|es| - 1], n, x, needed);
    }
  }

  /** A pass that gets to its end has made of every Secret nobody edited meanwhile exactly what one
      uninterrupted pass over the policies as listed makes of it, whatever else changed in between. */
  lemma PassSettles(ns: string, s: State, es: seq<Event>, n: string)
    requires s.phase.Idle? && n in s.secrets && Unedited(es, n) && WithinPass(es)
    requires Finishing(Run(ns, Step(ns, s, Begin), es))
    ensures var t := Run(ns, Step(ns, s, Begin), es);
            n in t.secrets && t.secrets[n] == PassOn(s.secrets[n], Needed(s.policies, ns, n))
  {
    var needed := Needed(s.policies, ns, n);
    RunProgresses(ns, Step(ns, s, Begin), es, n, s.secrets[n], needed);
  }

  // ----- Runs -----

  /** No edit of the Secret fell between the reading of a copy and its patch. */
  ghost predicate Unraced(ns: string, s: State, es: seq<Event>, n: string)
  {
    forall i :: 0 <= i < |es| && Edits(es[i], n) ==> !Pending(Run(ns, s, es[..i]), n)
  }

  lemma UnracedInit(ns: string, s: State, es: seq<Event>, n: string)
    requires es != [] && Unraced(ns, s, es, n)
    ensures Unraced(ns, s, es[..|es| - 1], n)
  {
    var init := es[..|es| - 1];
    forall i | 0 <= i < |init| && Edits(init[i], n) ensures !Pending(Run(ns, s, init[..i]), n) {
      assert init[..i] == es[..i] && init[i] == es[i];
    }
  }

  /** What is known of a Secret: it derives from its user's last edit, and a pending patch fits it. */
  ghost predicate Tracked(s: State, n: string)
  {
    && (n in s.secrets <==> n in s.edited)
    && (n in s.secrets ==> Derived(s.edited[n], s.secrets[n]))
    && (s.phase.Patching? && s.phase.name == n ==>
          n in s.secrets && s.secrets[n].syncLabel.None? && (s.phase.marked <==> s.secrets[n].managed == Some("true")))
    && (s.phase.Collecting? && n in s.phase.todo ==> n in s.secrets && Managed(s.secrets[n]))
  }

  lemma StepTracks(ns: string, s: State, e: Event, n: string)
    requires Tracked(s, n) && (Edits(e, n) ==> !Pending(s, n))
    ensures Tracked(Step(ns, s, e), n)
  {
    if n in s.secrets {
      PassKeepsDerived(s.edited[n], s.secrets[n], true);
      PassKeepsDerived(s.edited[n], s.secrets[n], false);
    }
  }

  lemma {:induction false} RunTracks(ns: string, s: State, es: seq<Event>, n: string)
    requires Start(s) && Unraced(ns, s, es, n)
    ensures Tracked(Run(ns, s, es), n)
  {
    if es != [] {
      UnracedInit(ns, s, es, n);
      RunTracks(ns, s, es[..|es| - 1], n);
      assert es[..|es| - 1] == es[..|es| - 1];
      StepTracks(ns, Run(ns, s, es[..|es| - 1]), es[|es| - 1], n);
    }
  }

  /** After any interleaving and a pass begun after the Secret's last edit: it is labelled if and only if
      a live policy, as listed, needs it or its user labelled it; the user's labels and all data are as
      the user left them; and, where the user left no trace of an earlier pass, it is what one pass
      makes of it. */
  lemma LabelsFollowPolicies(ns: string, s: State, es: seq<Event>, rest: seq<Event>, n: string)
    requires Start(s) && Unraced(ns, s, es, n)
    requires Run(ns, s, es).phase.Idle? && n in Run(ns, s, es).secrets && Unedited(rest, n) && WithinPass(rest)
    requires Finishing(Run(ns, Step(ns, Run(ns, s, es), Begin), rest))
    ensures var before, after := Run(ns, s, es), Run(ns, Step(ns, Run(ns, s, es), Begin), rest);
            && n in before.edited && n in after.secrets
            && var x, r, needed := before.edited[n], after.secrets[n], Needed(before.policies, ns, n);
            && (r.syncLabel.Some? <==> needed || UserLabelled(x))
            && r.data == x.data && (UserLabelled(x) ==> r == x)
            && (Clean(x) ==> r == PassOn(x, needed))
  {
    var before := Run(ns, s, es);
    RunTracks(ns, s, es, n);
    PassSettles(ns, before, rest, n);
    PassKeepsDerived(before.edited[n], before.secrets[n], Needed(before.policies, ns, n));
  }

  // ----- A label that is needed -----

  ghost predicate Safe(s: State, n: string)
  {
    && n in s.secrets && s.secrets[n].syncLabel.Some?
    && (s.phase.Idle? || n in s.phase.referenced) && (s.phase.Collecting? ==> n !in s.phase.todo)
  }

  lemma SafeStep(ns: string, s: State, e: Event, n: string)
    requires Safe(s, n) && !Edits(e, n) && (e.Begin? ==> Needed(s.policies, ns, n))
    ensures Safe(Step(ns, s, e), n)
  {
  }

  /** A label survives everything but its user, between any two calls, while every pass that begins finds
      some live policy needing it. */
  lemma {:induction false} LabelSurvives(ns: string, s: State, es: seq<Event>, n: string)
    requires s.phase.Idle? && n in s.secrets && s.secrets[n].syncLabel.Some? && Unedited(es, n)
    requires forall i :: 0 <= i < |es| && es[i].Begin? ==> Needed(Run(ns, s, es[..i]).policies, ns, n)
    ensures Safe(Run(ns, s, es), n)
  {
    if es != [] {
      var init := es[..|es| - 1];
      forall i | 0 <= i < |init| && init[i].Begin? ensures Needed(Run(ns, s, init[..i]).policies, ns, n) {
        assert init[..i] == es[..i] && init[i] == es[i];
      }
      LabelSurvives(ns, s, init, n);
      SafeStep(ns, Run(ns, s, init), es[|es| - 1], n);
    }
  }

  // ----- A user's label and a patch on its way -----

  /** The pending patch, if any, leaves a Secret that reads `x` as it is. */
  ghost predicate Harmless(s: State, n: string, x: Secret)
  {
    !Pending(s, n) || (s.phase.Patching? && s.phase.marked && x.syncLabel == Some("true"))
  }

  /** The user's edit stands: no run changes the Secret until the user does. */
  ghost predicate Stands(ns: string, s: State, n: string, x: Secret)
  {
    forall es :: Unedited(es, n) ==> Has(Run(ns, Step(ns, s, EditSecret(n, Some(x))), es), n, x)
  }

  ghost predicate Has(s: State, n: string, x: Secret) { n in s.secrets && s.secrets[n] == x }

  lemma {:induction false} HarmlessStands(ns: string, s: State, es: seq<Event>, n: string, x: Secret)
    requires UserLabelled(x) && Unedited(es, n) && Has(s, n, x) && Harmless(s, n, x)
    ensures Has(Run(ns, s, es), n, x) && Harmless(Run(ns, s, es), n, x)
  {
    if es != [] { HarmlessStands(ns, s, es[..|es| - 1], n, x); }
  }

  /** A label the user sets stays as set, in every continuation, if and only if no patch of that Secret is
      on its way or that patch would not change it. */
  lemma UserLabelStandsExactlyWhen(ns: string, s: State, n: string, x: Secret)
    requires UserLabelled(x)
    ensures Stands(ns, s, n, x) <==> Harmless(s, n, x)
  {
    var t := Step(ns, s, EditSecret(n, Some(x)));
    if Harmless(s, n, x) {
      forall es | Unedited(es, n) ensures Has(Run(ns, t, es), n, x) { HarmlessStands(ns, t, es, n, x); }
    } else {
      var es := if s.phase.Patching? then [Patch] else [Unlabel(n)];
      assert es[..0] == [] && Run(ns, t, es) == Step(ns, t, es[0]);
      assert Unedited(es, n) && !Has(Run(ns, t, es), n, x);
    }
  }

  // ----- The race -----

  function UserOf(ns: string, n: string): Policy { Policy(ns, false, Some(Spec(None, Some(Ref(None, n)), []))) }

  lemma NeedsOne(ns: string, n: string, m: string)
    requires n != ""
    ensures Needed([UserOf(ns, n)], ns, m) <==> m == n
    ensures !Needed([], ns, m)
  {
    var p := UserOf(ns, n);
    assert [p][0] == p;
    assert Mentions(p.spec.value, Ref(None, n)) && Names(p, Ref(None, n), SecretRef(ns, n));
    assert forall r :: Mentions(p.spec.value, r) ==> r == Ref(None, n);
  }

  /** A label set between the read and the patch counts as managed from then on. */
  function Race(n: string, x: Secret): seq<Event> { [Begin, Look(n), EditSecret(n, Some(x))] + [Patch, ListSecrets, Finish] }

  lemma {:induction false} RunConcat(ns: string, s: State, a: seq<Event>, b: seq<Event>)
    ensures Run(ns, s, a + b) == Run(ns, Run(ns, s, a), b)
  {
    if b == [] {
      assert a + b == a;
    } else {
      assert (a + b)[..|a + b| - 1] == a + b[..|b| - 1];
      RunConcat(ns, s, a, b[..|b| - 1]);
    }
  }

  lemma RunThree(ns: string, s: State, a: Event, b: Event, c: Event)
    ensures Run(ns, s, [a]) == Step(ns, s, a)
    ensures Run(ns, s, [a, b]) == Step(ns, Step(ns, s, a), b)
    ensures Run(ns, s, [a, b, c]) == Step(ns, Step(ns, Step(ns, s, a), b), c)
  {
    assert [a][..0] == [] && [a, b][..1] == [a] && [a, b, c][..2] == [a, b];
  }

  lemma FirstHalf(ns: string, n: string, was: Secret, x: Secret)
    requires n != "" && was.syncLabel.None? && was.managed.None?
    ensures Step(ns, Step(ns, Step(ns, State([UserOf(ns, n)], map[n := was], map[n := was], Idle), Begin), Look(n)), EditSecret(n, Some(x)))
      == State([UserOf(ns, n)], map[n := x], map[n := x], Patching(iset{n}, iset{}, n, false))
  {
    var ps := [UserOf(ns, n)];
    forall m ensures Needed(ps, ns, m) <==> m == n { NeedsOne(ns, n, m); }
    assert (iset m | Needed(ps, ns, m)) == iset{n} && iset{n} - iset{n} == iset{};
  }

  lemma SecondHalf(ns: string, ps: seq<Policy>, n: string, x: Secret)
    ensures Step(ns, Step(ns, Step(ns, State(ps, map[n := x], map[n := x], Patching(iset{n}, iset{}, n, false)), Patch), ListSecrets), Finish)
      == State(ps, map[n := Labelling(false, x)], map[n := x], Idle)
  {
    var s := Step(ns, State(ps, map[n := x], map[n := x], Patching(iset{n}, iset{}, n, false)), Patch);
    assert (iset m | m in s.secrets && Managed(s.secrets[m]) && m !in iset{n}) == iset{};
  }

  lemma RaceRuns(ns: string, n: string, was: Secret, x: Secret)
    requires n != "" && was.syncLabel.None? && was.managed.None?
    ensures Run(ns, State([UserOf(ns, n)], map[n := was], map[n := was], Idle), Race(n, x)) ==
      State([UserOf(ns, n)], map[n := Labelling(false, x)], map[n := x], Idle)
  {
    var s := State([UserOf(ns, n)], map[n := was], map[n := was], Idle);
    FirstHalf(ns, n, was, x);
    SecondHalf(ns, [UserOf(ns, n)], n, x);
    RunThree(ns, s, Begin, Look(n), EditSecret(n, Some(x)));
    RunConcat(ns, s, [Begin, Look(n), EditSecret(n, Some(x))], [Patch, ListSecrets, Finish]);
    RunThree(ns, State([UserOf(ns, n)], map[n := x], map[n := x], Patching(iset{n}, iset{}, n, false)), Patch, ListSecrets, Finish);
  }

  lemma GoneWithPolicy(ns: string, n: string, x: Secret)
    requires n != ""
    ensures var begun := Step(ns, State([], map[n := Labelling(false, x)], map[n := x], Idle), Begin);
            Step(ns, Step(ns, begun, ListSecrets), Unlabel(n)) ==
              State([], map[n := Unlabelling(Labelling(false, x))], map[n := x], Collecting(iset{}, iset{}))
  {
    var s := State([], map[n := Labelling(false, x)], map[n := x], Idle);
    forall m ensures !Needed([], ns, m) { NeedsOne(ns, n, m); }
    var begun := Step(ns, s, Begin);
    assert begun.phase == Ensuring(iset{}, iset{}) by { assert (iset m | Needed(s.policies, ns, m)) == iset{}; }
    var listed := Step(ns, begun, ListSecrets);
    assert listed.phase == Collecting(iset{}, iset{n}) by { assert listed.phase.todo == iset{n}; }
    assert iset{n} - iset{n} == iset{};
  }

  /** So the pass after the policy is gone takes the user's label away. */
  lemma RaceLosesLabel(ns: string, n: string, was: Secret, x: Secret)
    requires n != "" && was.syncLabel.None? && was.managed.None? && UserLabelled(x)
    ensures var before := Run(ns, State([UserOf(ns, n)], map[n := was], map[n := was], Idle), Race(n, x) + [SetPolicies([])]);
            var after := Run(ns, Step(ns, before, Begin), [ListSecrets, Unlabel(n)]);
            && before.phase.Idle? && n in before.secrets && Finishing(after)
            && n in after.edited && after.edited[n] == x && n in after.secrets && after.secrets[n].syncLabel.None?
  {
    var s := State([UserOf(ns, n)], map[n := was], map[n := was], Idle);
    RaceRuns(ns, n, was, x);
    RunConcat(ns, s, Race(n, x), [SetPolicies([])]);
    RunThree(ns, Run(ns, s, Race(n, x)), SetPolicies([]), Begin, Begin);
    GoneWithPolicy(ns, n, x);
    RunThree(ns, Step(ns, State([], map[n := Labelling(false, x)], map[n := x], Idle), Begin), ListSecrets, Unlabel(n), Begin);
  }
}
