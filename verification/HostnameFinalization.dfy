/** What a finalized gateway leaves in the hostname ledger.

    `finalizeGateway` looks for the downstream gateway first and returns early when it is gone, before
    it deletes the hostname entries. A new Gateway of the same name is the same owner, so a leftover
    ends with a pass of that one and not before.
 */
module HostnameFinalization {
  import opened OwnerNames
  import opened HostnameClaims

  ghost predicate HoldsNothing(l: Ledger, g: Owner) { forall h :: !Owns(l, g, h) }

  /** In `es` the gateway itself does nothing but carry on with what it began. */
  predicate CarriesOn(es: seq<Event>, g: Owner)
  {
    forall i :: 0 <= i < |es| && es[i].g == g ==> es[i].Advance? || es[i].Release?
  }

  predicate NotRecreated(es: seq<Event>, g: Owner) { forall i :: 0 <= i < |es| ==> es[i] != Recreate(g) }

  lemma OthersLeave(gs: set<Owner>, s: State, e: Event, g: Owner)
    requires Group(gs) && Inv(s, gs) && By(e, gs) && g in gs && e.g != g
    ensures PhaseOf(Step(s, e), g) == PhaseOf(s, g)
    ensures forall h :: Owns(Step(s, e).ledger, g, h) <==> Owns(s.ledger, g, h)
  {
    StepIsGood(s, gs, e);
    OthersKeepTheirPhase(gs, s, Step(s, e), e.g, g);
  }

  /** Until a Gateway of that name is created again, a finalized gateway's entries never change. */
  lemma {:induction false} FinalizedEntriesStay(gs: set<Owner>, s: State, es: seq<Event>, g: Owner)
    requires Group(gs) && Inv(s, gs) && (forall e :: e in es ==> By(e, gs)) && g in gs
    requires PhaseOf(s, g).Finalized? && NotRecreated(es, g)
    ensures PhaseOf(Run(s, es), g).Finalized?
    ensures forall h :: Owns(s.ledger, g, h) <==> Owns(Run(s, es).ledger, g, h)
  {
    if es != [] {
      var n := |es| - 1;
      FinalizedEntriesStay(gs, s, es[..n], g);
      RunKeepsInv(s, gs, es[..n]);
      if es[n].g != g { OthersLeave(gs, Run(s, es[..n]), es[n], g); }
    }
  }

  /** Where a finalization that found the downstream gateway can be. */
  ghost predicate Underway(s: State, g: Owner)
  {
    var p := PhaseOf(s, g);
    p.FinalListing? || p.FinalReleasing? || p.Idle? || (p.Finalized? && HoldsNothing(s.ledger, g))
  }

  lemma OwnStepKeepsReleasing(s: State, e: Event)
    requires PhaseInv(s.ledger, e.g, PhaseOf(s, e.g)) && Underway(s, e.g) && (e.Advance? || e.Release?)
    ensures Underway(Step(s, e), e.g)
  {
  }

  lemma {:induction false} FinalizationReleases(gs: set<Owner>, s: State, es: seq<Event>, g: Owner)
    requires Group(gs) && Inv(s, gs) && (forall e :: e in es ==> By(e, gs)) && g in gs
    requires Underway(s, g) && CarriesOn(es, g)
    ensures Underway(Run(s, es), g)
  {
    if es != [] {
      var n := |es| - 1;
      var m := Run(s, es[..n]);
      FinalizationReleases(gs, s, es[..n], g);
      RunKeepsInv(s, gs, es[..n]);
      if es[n].g != g { OthersLeave(gs, m, es[n], g); } else { OwnStepKeepsReleasing(m, es[n]); }
    }
  }

  /** From any run, a finalization that completes, interleaved with anything other gateways do, leaves
      the gateway with nothing if and only if the downstream gateway was found or it held nothing. */
  lemma HoldsNothingExactlyWhenFound(gs: set<Owner>, es: seq<Event>, g: Owner, gone: bool, rest: seq<Event>)
    requires Group(gs) && (forall e :: e in es + rest ==> By(e, gs)) && g in gs
    requires Ready(Run(EMPTY, es), g) && CarriesOn(rest, g)
    requires PhaseOf(Run(Step(Run(EMPTY, es), BeginFinalize(g, gone)), rest), g).Finalized?
    ensures HoldsNothing(Run(Step(Run(EMPTY, es), BeginFinalize(g, gone)), rest).ledger, g) <==>
      !gone || HoldsNothing(Run(EMPTY, es).ledger, g)
  {
    var s := Run(EMPTY, es);
    var t := Step(s, BeginFinalize(g, gone));
    assert forall e :: e in es ==> e in es + rest;
    assert forall e :: e in rest ==> e in es + rest;
    RunKeepsInv(EMPTY, gs, es);
    StepKeepsInv(s, gs, BeginFinalize(g, gone));
    if gone { FinalizedEntriesStay(gs, t, rest, g); } else { FinalizationReleases(gs, t, rest, g); }
  }

  /** When the downstream gateway was already gone, what the gateway held it still holds after any
      events up to the creation of a new Gateway of that name. */
  lemma SkippedFinalizeLeaks(gs: set<Owner>, es: seq<Event>, later: seq<Event>, g: Owner, h: string)
    requires Group(gs) && (forall e :: e in es ==> By(e, gs)) && (forall e :: e in later ==> By(e, gs)) && g in gs
    requires Ready(Run(EMPTY, es), g) && NotRecreated(later, g)
    ensures Owns(Run(Step(Run(EMPTY, es), BeginFinalize(g, true)), later).ledger, g, h) <==> Owns(Run(EMPTY, es).ledger, g, h)
  {
    var s := Run(EMPTY, es);
    RunKeepsInv(EMPTY, gs, es);
    StepKeepsInv(s, gs, BeginFinalize(g, true));
    FinalizedEntriesStay(gs, Step(s, BeginFinalize(g, true)), later, g);
  }

  /** One whole pass that claims a hostname nobody has. */
  function ClaimsOne(g: Owner, h: string): seq<Event>
  {
    [Begin(g, [h], {}), Advance(g), Advance(g), Advance(g), Advance(g)]
  }

  lemma ClaimsOneRuns(g: Owner, h: string)
    ensures Run(EMPTY, ClaimsOne(g, h)) == State(map[h := EntryOf(g)], map[g := Reported(Pass([h], {}, [h], []))])
  {
    var es := ClaimsOne(g, h);
    var p := Pass([h], {}, [], []);
    assert Run(EMPTY, es[..1]) == State(map[], map[g := Checking([h], p)]) by { RunSnoc(EMPTY, [], es[0]); }
    assert Run(EMPTY, es[..2]) == State(map[], map[g := Creating([h], p)]) by { assert es[..2] == es[..1] + [es[1]]; RunSnoc(EMPTY, es[..1], es[1]); }
    var q := p.(claimed := [h]);
    var ledger := map[h := EntryOf(g)];
    assert Run(EMPTY, es[..3]) == State(ledger, map[g := Checking([], q)]) by { assert es[..3] == es[..2] + [es[2]] && [] + [h] == [h] && [h][1..] == []; RunSnoc(EMPTY, es[..2], es[2]); }
    assert Listed(ledger, g) - (set x | x in q.claimed) == {};
    assert Run(EMPTY, es[..4]) == State(ledger, map[g := Releasing({}, q)]) by { assert es[..4] == es[..3] + [es[3]]; RunSnoc(EMPTY, es[..3], es[3]); }
    assert es == es[..4] + [es[4]];
    RunSnoc(EMPTY, es[..4], es[4]);
  }

  /** The leaking run, for every gateway and hostname: a reported claim, a finalization that does not find
      the downstream gateway, and an entry that names a gateway which is gone. */
  lemma LeakingRun(g: Owner, h: string)
    ensures var s := Run(EMPTY, ClaimsOne(g, h)); Ready(s, g) && Owns(s.ledger, g, h)
    ensures var t := Run(EMPTY, ClaimsOne(g, h) + [BeginFinalize(g, true)]);
            PhaseOf(t, g).Finalized? && Owns(t.ledger, g, h)
  {
    ClaimsOneRuns(g, h);
    RunSnoc(EMPTY, ClaimsOne(g, h), BeginFinalize(g, true));
  }

  lemma OneMore(s: State, es: seq<Event>, e: Event, t: State)
    requires Step(Run(s, es), e) == t
    ensures Run(s, es + [e]) == t
  {
    RunSnoc(s, es, e);
  }

  /** The re-created gateway starts a pass that claims nothing, and lists its leftover. */
  lemma Relists(g: Owner, h: string, s: State)
    requires s == State(map[h := EntryOf(g)], map[g := Finalized])
    ensures Run(s, [Recreate(g)] + [Begin(g, [], {})] + [Advance(g)]) == State(map[h := EntryOf(g)], map[g := Releasing({h}, Pass([], {}, [], []))])
  {
    var p, ledger := Pass([], {}, [], []), map[h := EntryOf(g)];
    OneMore(s, [], Recreate(g), State(ledger, map[g := Idle]));
    assert [] + [Recreate(g)] == [Recreate(g)];
    OneMore(s, [Recreate(g)], Begin(g, [], {}), State(ledger, map[g := Checking([], p)]));
    assert Listed(ledger, g) - (set x | x in p.claimed) == {h};
    OneMore(s, [Recreate(g)] + [Begin(g, [], {})], Advance(g), State(ledger, map[g := Releasing({h}, p)]));
  }

  lemma Rereleases(g: Owner, h: string, s: State)
    requires s == State(map[h := EntryOf(g)], map[g := Releasing({h}, Pass([], {}, [], []))])
    ensures Run(s, [Release(g, h)] + [Advance(g)]) == State(map[], map[g := Reported(Pass([], {}, [], []))])
  {
    var p := Pass([], {}, [], []);
    assert {h} - {h} == {} && map[h := EntryOf(g)] - {h} == map[];
    OneMore(s, [], Release(g, h), State(map[], map[g := Releasing({}, p)]));
    assert [] + [Release(g, h)] == [Release(g, h)];
    OneMore(s, [Release(g, h)], Advance(g), State(map[], map[g := Reported(p)]));
  }

  lemma LeakedState(g: Owner, h: string)
    ensures Run(EMPTY, ClaimsOne(g, h) + [BeginFinalize(g, true)]) == State(map[h := EntryOf(g)], map[g := Finalized])
  {
    ClaimsOneRuns(g, h);
    RunSnoc(EMPTY, ClaimsOne(g, h), BeginFinalize(g, true));
  }

  /** Such a pass deletes the leftover. */
  lemma RepairingRun(g: Owner, h: string)
    ensures var leaked := Run(EMPTY, ClaimsOne(g, h) + [BeginFinalize(g, true)]);
            var t := Run(leaked, [Recreate(g)] + [Begin(g, [], {})] + [Advance(g)] + ([Release(g, h)] + [Advance(g)]));
            PhaseOf(t, g).Reported? && h !in t.ledger
  {
    var leaked := Run(EMPTY, ClaimsOne(g, h) + [BeginFinalize(g, true)]);
    LeakedState(g, h);
    Relists(g, h, leaked);
    Rereleases(g, h, Run(leaked, [Recreate(g)] + [Begin(g, [], {})] + [Advance(g)]));
    RunConcat(leaked, [Recreate(g)] + [Begin(g, [], {})] + [Advance(g)], [Release(g, h)] + [Advance(g)]);
  }

  lemma OnlyReleaseRemoves(s: State, e: Event, h: string)
    requires h in s.ledger && !(e.Release? && e.host == h)
    ensures h in Step(s, e).ledger && Step(s, e).ledger[h] == s.ledger[h]
  {
  }

  lemma OwnLossIsRelease(gs: set<Owner>, s: State, e: Event, g: Owner, h: string)
    requires Group(gs) && Inv(s, gs) && By(e, gs) && g in gs && Owns(s.ledger, g, h) && !Owns(Step(s, e).ledger, g, h)
    ensures e == Release(g, h)
  {
    if e.g != g {
      OthersLeave(gs, s, e, g);
    } else if e != Release(g, h) {
      OnlyReleaseRemoves(s, e, h);
    }
  }

  /** A leftover ends only by a delete of the gateway created anew. */
  lemma {:induction false} LeftoverEndsAfterRecreation(gs: set<Owner>, s: State, es: seq<Event>, g: Owner, h: string) returns (i: nat, k: nat)
    requires Group(gs) && Inv(s, gs) && (forall e :: e in es ==> By(e, gs)) && g in gs
    requires PhaseOf(s, g).Finalized? && Owns(s.ledger, g, h) && !Owns(Run(s, es).ledger, g, h)
    ensures i < k < |es| && es[i] == Recreate(g) && es[k] == Release(g, h)
  {
    var n := |es| - 1;
    var init := es[..n];
    RunKeepsInv(s, gs, init);
    if !Owns(Run(s, init).ledger, g, h) {
      i, k := LeftoverEndsAfterRecreation(gs, s, init, g, h);
    } else {
      OwnLossIsRelease(gs, Run(s, init), es[n], g, h);
      k := n;
      i := RecreatedBefore(gs, s, es, g, h);
    }
  }

  lemma RecreatedBefore(gs: set<Owner>, s: State, es: seq<Event>, g: Owner, h: string) returns (i: nat)
    requires Group(gs) && Inv(s, gs) && (forall e :: e in es ==> By(e, gs)) && g in gs
    requires PhaseOf(s, g).Finalized? && Owns(s.ledger, g, h) && !Owns(Run(s, es).ledger, g, h)
    ensures i < |es| && es[i] == Recreate(g)
  {
    if NotRecreated(es, g) {
      FinalizedEntriesStay(gs, s, es, g);
      assert false;
    }
    i :| 0 <= i < |es| && es[i] == Recreate(g);
  }

  /** The first pass a re-created gateway completes settles its leftovers: it owns again what it
      verified and could claim, and nothing else. */
  lemma RecreatedPassSettles(gs: set<Owner>, es: seq<Event>, rest: seq<Event>, g: Owner, h: string)
    requires Group(gs) && (forall e :: e in es + rest ==> By(e, gs)) && g in gs
    requires PhaseOf(Run(EMPTY, es), g).Finalized? && PhaseOf(Run(EMPTY, es + rest), g).Reported?
    ensures exists i :: 0 <= i < |rest| && rest[i] == Recreate(g)
    ensures var p := PhaseOf(Run(EMPTY, es + rest), g).pass;
            h !in p.managed ==> (Owns(Run(EMPTY, es + rest).ledger, g, h) <==> h in p.claimed)
  {
    assert forall e :: e in es ==> e in es + rest;
    assert forall e :: e in rest ==> e in es + rest;
    ReportIsExact(gs, es + rest, g);
    RunConcat(EMPTY, es, rest);
    RunKeepsInv(EMPTY, gs, es);
    if NotRecreated(rest, g) { FinalizedEntriesStay(gs, Run(EMPTY, es), rest, g); }
  }

  lemma {:induction false} RunConcat(s: State, a: seq<Event>, b: seq<Event>)
    ensures Run(s, a + b) == Run(Run(s, a), b)
  {
    if b == [] {
      assert a + b == a;
    } else {
      assert (a + b)[..|a + b| - 1] == a + b[..|b| - 1];
      RunConcat(s, a, b[..|b| - 1]);
    }
  }
}
