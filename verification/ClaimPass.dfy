/** One uninterrupted `ensureHostnamesClaimed` of internal/controller/gateway_controller.go in its
    imperative form. Its contract exhibits the run of the `HostnameClaims` protocol it performs, so
    everything proved of interleavings holds of it, and pins down the lists it returns.
 */
module ClaimPass {
  import opened OwnerNames
  import opened HostnameClaims
  import opened HostnameVerification

  /** A pass over the hostnames verified for it releases, by the time it reports, every hostname that
      is on no upstream listener and, unless verification is switched off, in no status address, even one
      still on the old downstream gateway; this holds under every interleaving with other gateways. */
  lemma UndeclaredHostnameIsReleased(
    gs: set<Owner>, es: seq<Event>, g: Owner, c: Config, u: Upstream, d: Downstream, domains: seq<Domain>, host: string)
    requires Group(gs) && (forall e :: e in es ==> By(e, gs)) && g in gs
    requires PhaseOf(Run(EMPTY, es), g).Reported?
    requires forall h :: h in PhaseOf(Run(EMPTY, es), g).pass.verified <==> VerifiedNow(c, u, d, domains, h)
    requires Undeclared(c, u, host)
    ensures !Owns(Run(EMPTY, es).ledger, g, host)
  {
    UndeclaredIsUnverified(c, u, d, domains, host);
    ReportIsExact(gs, es, g);
  }

  /** One hostname checked: platform-managed, already ours, or foreign. */
  lemma CheckRuns(s0: State, es: seq<Event>, s: State, g: Owner, todo: seq<string>, p: Pass, mine: bool)
    requires Run(s0, es) == To(s, g, Checking(todo, p)) && todo != []
    requires mine ==> todo[0] in p.managed || (todo[0] in s.ledger && s.ledger[todo[0]].owner == OwnerReference(g))
    requires !mine ==> todo[0] !in p.managed && todo[0] in s.ledger && s.ledger[todo[0]].owner != OwnerReference(g)
    ensures var q := if mine then p.(claimed := p.claimed + [todo[0]]) else p.(notClaimed := p.notClaimed + [todo[0]]);
            Run(s0, es + [Advance(g)]) == To(s, g, Checking(todo[1..], q))
  {
    RunSnoc(s0, es, Advance(g));
  }

  lemma CreateRuns(s0: State, es: seq<Event>, s: State, g: Owner, todo: seq<string>, p: Pass)
    requires Run(s0, es) == To(s, g, Checking(todo, p)) && todo != [] && todo[0] !in p.managed && todo[0] !in s.ledger
    ensures Run(s0, es + [Advance(g)] + [Advance(g)]) ==
      To(State(s.ledger[todo[0] := EntryOf(g)], s.phases), g, Checking(todo[1..], p.(claimed := p.claimed + [todo[0]])))
  {
    RunSnoc(s0, es, Advance(g));
    assert Run(s0, es + [Advance(g)]) == To(s, g, Creating(todo, p));
    RunSnoc(s0, es + [Advance(g)], Advance(g));
  }

  lemma ListRuns(s0: State, es: seq<Event>, s: State, g: Owner, p: Pass)
    requires Run(s0, es) == To(s, g, Checking([], p))
    ensures Run(s0, es + [Advance(g)]) == To(s, g, Releasing(Listed(s.ledger, g) - (set h | h in p.claimed), p))
  {
    RunSnoc(s0, es, Advance(g));
  }

  lemma ReleaseRuns(s0: State, es: seq<Event>, s: State, g: Owner, name: string, stale: set<string>, p: Pass)
    requires Run(s0, es) == To(s, g, Releasing(stale, p)) && name in stale && name in s.ledger
    ensures Run(s0, es + [Release(g, name)]) == To(State(s.ledger - {name}, s.phases), g, Releasing(stale - {name}, p))
  {
    RunSnoc(s0, es, Release(g, name));
  }

  lemma ReportRuns(s0: State, es: seq<Event>, s: State, g: Owner, p: Pass)
    requires Run(s0, es) == To(s, g, Releasing({}, p))
    ensures Run(s0, es + [Advance(g)]) == To(s, g, Reported(p))
  {
    RunSnoc(s0, es, Advance(g));
    assert Step(To(s, g, Releasing({}, p)), Advance(g)) == To(To(s, g, Releasing({}, p)), g, Reported(p));
  }

  lemma FinalListRuns(s0: State, es: seq<Event>, s: State, g: Owner)
    requires Run(s0, es) == To(s, g, FinalListing)
    ensures Run(s0, es + [Advance(g)]) == To(s, g, FinalReleasing(Listed(s.ledger, g)))
  {
    RunSnoc(s0, es, Advance(g));
  }

  lemma BeginFinalizeRuns(s: State, g: Owner, gone: bool)
    requires Ready(s, g)
    ensures Run(s, [] + [BeginFinalize(g, gone)]) == To(s, g, if gone then Finalized else FinalListing)
  {
    RunSnoc(s, [], BeginFinalize(g, gone));
  }

  lemma FinalReleaseRuns(s0: State, es: seq<Event>, s: State, g: Owner, name: string, stale: set<string>)
    requires Run(s0, es) == To(s, g, FinalReleasing(stale)) && name in stale && name in s.ledger
    ensures Run(s0, es + [Release(g, name)]) == To(State(s.ledger - {name}, s.phases), g, FinalReleasing(stale - {name}))
  {
    RunSnoc(s0, es, Release(g, name));
  }

  lemma FinalizedRuns(s0: State, es: seq<Event>, s: State, g: Owner)
    requires Run(s0, es) == To(s, g, FinalReleasing({}))
    ensures Run(s0, es + [Advance(g)]) == To(s, g, Finalized)
  {
    RunSnoc(s0, es, Advance(g));
    assert Step(To(s, g, FinalReleasing({})), Advance(g)) == To(To(s, g, FinalReleasing({})), g, Finalized);
  }

  class Accounting {
    var ledger: Ledger

    constructor ()
      ensures ledger == map[]
    {
      ledger := map[];
    }

    /** The loop body: one hostname is claimed, found claimed, or found foreign. */
    method ClaimOne(g: Owner, hostname: string, managed: bool,
                    ghost s0: State, ghost phases: map<Owner, Phase>, ghost es: seq<Event>, ghost todo: seq<string>, ghost p: Pass)
      returns (mine: bool, ghost es': seq<Event>)
      requires Run(s0, es) == State(ledger, phases[g := Checking(todo, p)])
      requires todo != [] && todo[0] == hostname && (managed <==> hostname in p.managed) && Partition(todo, p)
      modifies this
      ensures var q := if mine then p.(claimed := p.claimed + [hostname]) else p.(notClaimed := p.notClaimed + [hostname]);
        Partition(todo[1..], q) && Run(s0, es') == State(ledger, phases[g := Checking(todo[1..], q)])
      ensures !mine ==> ledger == old(ledger) && hostname in ledger && ledger[hostname].owner != OwnerReference(g)
      ensures ledger == old(ledger) || (hostname !in old(ledger) && ledger == old(ledger)[hostname := EntryOf(g)])
    {
      ghost var s := State(ledger, phases);
      mine := managed;
      if !managed {
        mine := hostname !in ledger || ledger[hostname].owner == OwnerReference(g);
        if hostname !in ledger {
          CreateRuns(s0, es, s, g, todo, p);
          PartitionMoves(todo, p, p.(claimed := p.claimed + [hostname]));
          es' := es + [Advance(g)] + [Advance(g)];
          ledger := ledger[hostname := Entry(OwnerReference(g), LabelsOf(g))];
          return;
        }
      }
      CheckRuns(s0, es, s, g, todo, p, mine);
      PartitionMoves(todo, p, if mine then p.(claimed := p.claimed + [hostname]) else p.(notClaimed := p.notClaimed + [hostname]));
      es' := es + [Advance(g)];
    }

    /** Lists the gateway's entries and deletes those it did not claim in this pass. */
    method ReleaseStale(g: Owner, claimed: seq<string>,
                        ghost s0: State, ghost phases: map<Owner, Phase>, ghost es: seq<Event>, ghost p: Pass)
      returns (ghost es': seq<Event>)
      requires Run(s0, es) == State(ledger, phases[g := Checking([], p)]) && p.claimed == claimed
      modifies this
      ensures Run(s0, es') == State(ledger, phases[g := Reported(p)])
    {
      ListRuns(s0, es, State(ledger, phases), g, p);
      es' := es + [Advance(g)];
      var stale := Listed(ledger, g) - set h | h in claimed;
      while stale != {}
        invariant stale <= ledger.Keys
        invariant Run(s0, es') == To(State(ledger, phases), g, Releasing(stale, p))
        decreases |stale|
      {
        var name :| name in stale;
        ReleaseRuns(s0, es', State(ledger, phases), g, name, stale, p);
        es' := es' + [Release(g, name)];
        ledger := ledger - {name};
        stale := stale - {name};
      }
      ReportRuns(s0, es', State(ledger, phases), g, p);
      es' := es' + [Advance(g)];
    }

    method EnsureHostnamesClaimed(g: Owner, verified: seq<string>, managed: set<string>, ghost phases: map<Owner, Phase>)
      returns (claimed: seq<string>, notClaimed: seq<string>, ghost es: seq<Event>)
      requires Distinct(verified) && Ready(State(ledger, phases), g)
      modifies this
      ensures Run(State(old(ledger), phases), es) ==
              State(ledger, phases[g := Reported(Pass(verified, managed, claimed, notClaimed))])
      ensures Partition([], Pass(verified, managed, claimed, notClaimed))
    {
      ghost var s0 := State(ledger, phases);
      claimed, notClaimed := [], [];
      es := [] + [Begin(g, verified, managed)];
      RunSnoc(s0, [], Begin(g, verified, managed));
      ghost var p := Pass(verified, managed, [], []);
      assert verified[0..] == verified;
      for i := 0 to |verified|
        invariant p == Pass(verified, managed, claimed, notClaimed) && Partition(verified[i..], p)
        invariant Run(s0, es) == State(ledger, phases[g := Checking(verified[i..], p)])
      {
        var mine;
        assert verified[i..][1..] == verified[i + 1..];
        mine, es := ClaimOne(g, verified[i], verified[i] in managed, s0, phases, es, verified[i..], p);
        if mine {
          claimed := claimed + [verified[i]];
        } else {
          notClaimed := notClaimed + [verified[i]];
        }
        p := Pass(verified, managed, claimed, notClaimed);
      }
      assert verified[|verified|..] == [];
      es := ReleaseStale(g, claimed, s0, phases, es, p);
    }

    /** The claims part of `finalizeGateway`, which returns early when the downstream gateway is gone. */
    method FinalizeClaims(g: Owner, downstreamGone: bool, ghost phases: map<Owner, Phase>) returns (ghost es: seq<Event>)
      requires Ready(State(ledger, phases), g)
      modifies this
      ensures Run(State(old(ledger), phases), es) == State(ledger, phases[g := Finalized])
      ensures downstreamGone ==> ledger == old(ledger)
      ensures Listed(ledger, g) == {} <==> !downstreamGone || Listed(old(ledger), g) == {}
    {
      ghost var s0 := State(ledger, phases);
      es := [] + [BeginFinalize(g, downstreamGone)];
      BeginFinalizeRuns(s0, g, downstreamGone);
      if downstreamGone {
        return;
      }
      FinalListRuns(s0, es, State(ledger, phases), g);
      es := es + [Advance(g)];
      var stale := Listed(ledger, g);
      while stale != {}
        invariant stale == Listed(ledger, g)
        invariant Run(s0, es) == To(State(ledger, phases), g, FinalReleasing(stale))
        decreases |stale|
      {
        var name :| name in stale;
        FinalReleaseRuns(s0, es, State(ledger, phases), g, name, stale);
        es := es + [Release(g, name)];
        ledger := ledger - {name};
        stale := stale - {name};
      }
      FinalizedRuns(s0, es, State(ledger, phases), g);
      es := es + [Advance(g)];
    }
  }
}
