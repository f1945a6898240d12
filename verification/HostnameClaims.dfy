/** The hostname ledger of internal/controller/gateway_controller.go as a protocol.

    Every hostname in use has one ConfigMap in a shared namespace. Gateways of any number of upstream
    clusters claim and release these entries concurrently; each API call is one atomic step, and one
    gateway runs one reconcile at a time. `Step` gives the effect of a step, a list of events is an
    interleaving, and the results speak of every interleaving.
 */
module HostnameClaims {
  import opened OwnerNames

  datatype Entry = Entry(owner: string, labels: Labels)

  type Ledger = map<string, Entry>

  function EntryOf(g: Owner): Entry { Entry(OwnerReference(g), LabelsOf(g)) }

  /** What a claim pass carries: its inputs and the two lists it builds. */
  datatype Pass = Pass(verified: seq<string>, managed: set<string>, claimed: seq<string>, notClaimed: seq<string>)

  datatype Phase =
    | Idle
    | Checking(todo: seq<string>, pass: Pass)    // about to read the entry of todo[0]
    | Creating(todo: seq<string>, pass: Pass)    // todo[0] was absent, about to create it
    | Releasing(stale: set<string>, pass: Pass)  // listed own entries, deleting the unclaimed ones
    | Reported(pass: Pass)                       // the pass returned these lists
    | FinalListing
    | FinalReleasing(stale: set<string>)
    | Finalized

  datatype State = State(ledger: Ledger, phases: map<Owner, Phase>)

  datatype Event =
    | Begin(g: Owner, verified: seq<string>, managed: set<string>)
    | Advance(g: Owner)
    | Release(g: Owner, host: string)
    | Abort(g: Owner)                                   // any API error ends the reconcile
    | BeginFinalize(g: Owner, downstreamGone: bool)
    | Recreate(g: Owner)                                // a new Gateway object of the same name

  const EMPTY := State(map[], map[])

  function PhaseOf(s: State, g: Owner): Phase
  {
    if g in s.phases then s.phases[g] else Idle
  }

  /** No reconcile of the gateway is under way. */
  predicate Ready(s: State, g: Owner) { PhaseOf(s, g).Idle? || PhaseOf(s, g).Reported? }

  function To(s: State, g: Owner, p: Phase): State { s.(phases := s.phases[g := p]) }

  /** The names a label-selector List returns for a gateway. */
  function Listed(l: Ledger, g: Owner): set<string>
  {
    set h | h in l && l[h].labels == LabelsOf(g)
  }

  predicate Distinct(s: seq<string>)
  {
    forall i, j :: 0 <= i < j < |s| ==> s[i] != s[j]
  }

  function Step(s: State, e: Event): State
  {
    match e
    case Begin(g, verified, managed) =>
      if Ready(s, g) && Distinct(verified)
      then To(s, g, Checking(verified, Pass(verified, managed, [], [])))
      else s
    case Advance(g) => AdvanceStep(s, g)
    case Release(g, h) => ReleaseStep(s, g, h)
    case Abort(g) => if PhaseOf(s, g).Finalized? then s else To(s, g, Idle)
    case BeginFinalize(g, gone) =>
      if Ready(s, g)
      then To(s, g, if gone then Finalized else FinalListing)
      else s
    case Recreate(g) => if PhaseOf(s, g).Finalized? then To(s, g, Idle) else s
  }

  function AdvanceStep(s: State, g: Owner): State
  {
    match PhaseOf(s, g)
    case Checking(todo, p) =>
      if todo == [] then To(s, g, Releasing(Listed(s.ledger, g) - (set h | h in p.claimed), p))
      else if todo[0] in p.managed then To(s, g, Checking(todo[1..], p.(claimed := p.claimed + [todo[0]])))
      else if todo[0] !in s.ledger then To(s, g, Creating(todo, p))
      else if s.ledger[todo[0]].owner != OwnerReference(g)
      then To(s, g, Checking(todo[1..], p.(notClaimed := p.notClaimed + [todo[0]])))
      else To(s, g, Checking(todo[1..], p.(claimed := p.claimed + [todo[0]])))
    case Creating(todo, p) =>
      // Losing the race is AlreadyExists, which the code does not treat as a conflict: the pass fails.
      if todo == [] || todo[0] in s.ledger then To(s, g, Idle)
      else To(s.(ledger := s.ledger[todo[0] := EntryOf(g)]), g, Checking(todo[1..], p.(claimed := p.claimed + [todo[0]])))
    case Releasing(stale, p) => if stale == {} then To(s, g, Reported(p)) else s
    case FinalListing => To(s, g, FinalReleasing(Listed(s.ledger, g)))
    case FinalReleasing(stale) => if stale == {} then To(s, g, Finalized) else s
    case _ => s
  }

  /** A delete names the object only; deleting an absent object is an error. */
  function ReleaseStep(s: State, g: Owner, h: string): State
  {
    match PhaseOf(s, g)
    case Releasing(stale, p) =>
      if h !in stale then s
      else if h !in s.ledger then To(s, g, Idle)
      else To(s.(ledger := s.ledger - {h}), g, Releasing(stale - {h}, p))
    case FinalReleasing(stale) =>
      if h !in stale then s
      else if h !in s.ledger then To(s, g, Idle)
      else To(s.(ledger := s.ledger - {h}), g, FinalReleasing(stale - {h}))
    case _ => s
  }

  function Run(s: State, es: seq<Event>): State
  {
    if es == [] then s else Step(Run(s, es[..|es| - 1]), es[|es| - 1])
  }

  predicate By(e: Event, gs: set<Owner>) { e.g in gs }

  // ----- Invariant -----

  /** Distinct gateways of the group are told apart by the labels their entries are listed with. */
  ghost predicate LabelsSeparate(gs: set<Owner>)
  {
    forall a, b :: a in gs && b in gs && LabelsOf(a) == LabelsOf(b) ==> a == b
  }

  ghost predicate Group(gs: set<Owner>)
  {
    LabelsSeparate(gs) && forall g :: g in gs ==> WellNamed(g)
  }

  ghost predicate Owns(l: Ledger, g: Owner, h: string) { h in l && l[h] == EntryOf(g) }

  /** A claim a pass has recorded is backed by the ledger, platform-managed hostnames aside. */
  ghost predicate Backed(l: Ledger, g: Owner, p: Pass)
  {
    forall h :: h in p.claimed && h !in p.managed ==> Owns(l, g, h)
  }

  /** The two lists and the rest to do partition the verified hostnames, in order. */
  ghost predicate Partition(todo: seq<string>, p: Pass)
  {
    && |p.verified| == |p.claimed| + |p.notClaimed| + |todo|
    && todo == p.verified[|p.verified| - |todo|..]
    && Distinct(p.verified)
    && (forall h :: h in p.claimed || h in p.notClaimed <==> h in p.verified[..|p.verified| - |todo|])
    && (forall h :: !(h in p.claimed && h in p.notClaimed))
    && (forall h :: h in p.notClaimed ==> h !in p.managed)
  }

  ghost predicate PhaseInv(l: Ledger, g: Owner, ph: Phase)
  {
    match ph
    case Checking(todo, p) => Backed(l, g, p) && Partition(todo, p)
    case Creating(todo, p) => todo != [] && todo[0] !in p.managed && Backed(l, g, p) && Partition(todo, p)
    case Releasing(stale, p) =>
      && Backed(l, g, p) && Partition([], p)
      && (forall h :: h in stale ==> Owns(l, g, h) && h !in p.claimed)
      && (forall h :: Owns(l, g, h) ==> h in stale || h in p.claimed)
    case Reported(p) => Backed(l, g, p) && Partition([], p) && forall h :: Owns(l, g, h) ==> h in p.claimed
    case FinalReleasing(stale) => forall h :: h in stale <==> Owns(l, g, h)
    case _ => true
  }

  /** Every entry was written whole by one gateway of the group, and every phase is truthful. */
  ghost predicate Inv(s: State, gs: set<Owner>)
  {
    && (forall h :: h in s.ledger ==> exists g :: g in gs && s.ledger[h] == EntryOf(g))
    && (forall g :: g in gs ==> PhaseInv(s.ledger, g, PhaseOf(s, g)))
  }

  lemma EntriesIdentify(gs: set<Owner>, a: Owner, b: Owner)
    requires Group(gs) && a in gs && b in gs
    ensures EntryOf(a) == EntryOf(b) ==> a == b
    ensures OwnerReference(a) == OwnerReference(b) ==> a == b
    ensures LabelsOf(a) == LabelsOf(b) ==> a == b
  {
    if OwnerReference(a) == OwnerReference(b) {
      OwnerReferenceInjective(a, b);
    }
  }

  /** Reading an entry's owner or listing by labels tells who wrote it. */
  lemma LedgerIsReadable(s: State, gs: set<Owner>, g: Owner, h: string)
    requires Group(gs) && Inv(s, gs) && g in gs && h in s.ledger
    ensures Owns(s.ledger, g, h) <==> s.ledger[h].owner == OwnerReference(g)
    ensures Owns(s.ledger, g, h) <==> s.ledger[h].labels == LabelsOf(g)
  {
    var a :| a in gs && s.ledger[h] == EntryOf(a);
    EntriesIdentify(gs, a, g);
  }

  /** A step changes at most one entry: it creates a missing one or deletes one of its own. */
  ghost predicate Touches(s: State, t: State, g: Owner)
  {
    || t.ledger == s.ledger
    || (exists h :: h !in s.ledger && t.ledger == s.ledger[h := EntryOf(g)])
    || (exists h :: Owns(s.ledger, g, h) && t.ledger == s.ledger - {h})
  }

  lemma OthersKeepTheirPhase(gs: set<Owner>, s: State, t: State, g: Owner, o: Owner)
    requires Group(gs) && Inv(s, gs) && g in gs && o in gs && g != o && Touches(s, t, g)
    ensures forall h :: Owns(s.ledger, o, h) <==> Owns(t.ledger, o, h)
    ensures PhaseInv(t.ledger, o, PhaseOf(s, o))
  {
    EntriesIdentify(gs, g, o);
    forall h ensures Owns(s.ledger, o, h) <==> Owns(t.ledger, o, h) {}
  }

  lemma TouchedLedgerIsWritten(gs: set<Owner>, s: State, t: State, g: Owner)
    requires Inv(s, gs) && g in gs && Touches(s, t, g)
    ensures forall h :: h in t.ledger ==> exists a :: a in gs && t.ledger[h] == EntryOf(a)
  {
  }

  lemma PartitionMoves(todo: seq<string>, p: Pass, q: Pass)
    requires todo != [] && Partition(todo, p)
    requires q == p.(claimed := p.claimed + [todo[0]])
          || (q == p.(notClaimed := p.notClaimed + [todo[0]]) && todo[0] !in p.managed)
    ensures Partition(todo[1..], q)
  {
    var n := |p.verified| - |todo|;
    assert p.verified[..n + 1] == p.verified[..n] + [p.verified[n]];
    assert p.verified[n] == todo[0] && todo[0] !in p.verified[..n];
    assert todo[1..] == p.verified[n + 1..];
  }

  /** The acting gateway's next phase is truthful and its write is within bounds. */
  ghost predicate Good(s: State, t: State, g: Owner)
  {
    Touches(s, t, g) && PhaseInv(t.ledger, g, PhaseOf(t, g))
  }

  lemma CheckingIsGood(s: State, gs: set<Owner>, g: Owner)
    requires Group(gs) && Inv(s, gs) && g in gs && PhaseOf(s, g).Checking? && PhaseOf(s, g).todo != []
    ensures Good(s, AdvanceStep(s, g), g)
  {
    var todo, p := PhaseOf(s, g).todo, PhaseOf(s, g).pass;
    PartitionMoves(todo, p, p.(claimed := p.claimed + [todo[0]]));
    if todo[0] !in p.managed {
      PartitionMoves(todo, p, p.(notClaimed := p.notClaimed + [todo[0]]));
      if todo[0] in s.ledger {
        LedgerIsReadable(s, gs, g, todo[0]);
      }
    }
  }

  lemma CreatingIsGood(s: State, gs: set<Owner>, g: Owner)
    requires Inv(s, gs) && g in gs && PhaseOf(s, g).Creating?
    ensures Good(s, AdvanceStep(s, g), g)
  {
    var todo, p := PhaseOf(s, g).todo, PhaseOf(s, g).pass;
    PartitionMoves(todo, p, p.(claimed := p.claimed + [todo[0]]));
  }

  lemma ListedAreOwned(s: State, gs: set<Owner>, g: Owner)
    requires Group(gs) && Inv(s, gs) && g in gs
    ensures forall h :: h in Listed(s.ledger, g) <==> Owns(s.ledger, g, h)
  {
    forall h | h in s.ledger ensures h in Listed(s.ledger, g) <==> Owns(s.ledger, g, h) {
      LedgerIsReadable(s, gs, g, h);
    }
  }

  lemma AdvanceIsGood(s: State, gs: set<Owner>, g: Owner)
    requires Group(gs) && Inv(s, gs) && g in gs
    ensures Good(s, AdvanceStep(s, g), g)
  {
    match PhaseOf(s, g) {
      case Checking(todo, p) =>
        if todo != [] { CheckingIsGood(s, gs, g); } else { ListedAreOwned(s, gs, g); }
      case Creating(_, _) => CreatingIsGood(s, gs, g);
      case FinalListing => ListedAreOwned(s, gs, g);
      case _ =>
    }
  }

  lemma ReleaseIsGood(s: State, gs: set<Owner>, g: Owner, host: string)
    requires Inv(s, gs) && g in gs
    ensures Good(s, ReleaseStep(s, g, host), g)
  {
  }

  lemma RestIsGood(s: State, gs: set<Owner>, e: Event)
    requires Inv(s, gs) && By(e, gs) && !e.Advance? && !e.Release?
    ensures Good(s, Step(s, e), e.g)
  {
  }

  lemma StepLeavesOtherPhases(s: State, e: Event)
    ensures forall o :: o != e.g ==> PhaseOf(Step(s, e), o) == PhaseOf(s, o)
  {
  }

  lemma StepIsGood(s: State, gs: set<Owner>, e: Event)
    requires Group(gs) && Inv(s, gs) && By(e, gs)
    ensures Good(s, Step(s, e), e.g)
    ensures forall o :: o != e.g ==> PhaseOf(Step(s, e), o) == PhaseOf(s, o)
  {
    StepLeavesOtherPhases(s, e);
    match e {
      case Advance(g) => AdvanceIsGood(s, gs, g);
      case Release(g, h) => ReleaseIsGood(s, gs, g, h);
      case _ => RestIsGood(s, gs, e);
    }
  }

  lemma StepKeepsInv(s: State, gs: set<Owner>, e: Event)
    requires Group(gs) && Inv(s, gs) && By(e, gs)
    ensures Inv(Step(s, e), gs)
  {
    var t := Step(s, e);
    StepIsGood(s, gs, e);
    TouchedLedgerIsWritten(gs, s, t, e.g);
    forall o | o in gs && o != e.g ensures PhaseInv(t.ledger, o, PhaseOf(t, o)) {
      OthersKeepTheirPhase(gs, s, t, e.g, o);
    }
  }

  lemma {:induction false} RunKeepsInv(s: State, gs: set<Owner>, es: seq<Event>)
    requires Group(gs) && Inv(s, gs) && forall e :: e in es ==> By(e, gs)
    ensures Inv(Run(s, es), gs)
  {
    if es != [] {
      RunKeepsInv(s, gs, es[..|es| - 1]);
      StepKeepsInv(Run(s, es[..|es| - 1]), gs, es[|es| - 1]);
    }
  }

  // ----- Results over every interleaving -----

  /** No step of one gateway creates, changes or deletes an entry of another. */
  lemma NoGatewayTouchesAnother(gs: set<Owner>, es: seq<Event>, i: nat, o: Owner, h: string)
    requires Group(gs) && (forall e :: e in es ==> By(e, gs)) && i < |es| && o in gs && es[i].g != o
    ensures Owns(Run(EMPTY, es[..i]).ledger, o, h) <==> Owns(Run(EMPTY, es[..i + 1]).ledger, o, h)
  {
    var s := Run(EMPTY, es[..i]);
    RunKeepsInv(EMPTY, gs, es[..i]);
    assert es[..i + 1][..i] == es[..i];
    StepIsGood(s, gs, es[i]);
    OthersKeepTheirPhase(gs, s, Step(s, es[i]), es[i].g, o);
  }

  /** The gateway's current pass, finished or not, lists `h` as claimed and not platform-managed. */
  predicate RecordsClaim(ph: Phase, h: string)
  {
    && (ph.Checking? || ph.Creating? || ph.Releasing? || ph.Reported?)
    && h in ph.pass.claimed && h !in ph.pass.managed
  }

  /** A hostname recorded as claimed stays owned until the gateway's own delete of it, whatever
      anyone does in between. */
  lemma {:induction false} ClaimHoldsUntilOwnDelete(gs: set<Owner>, es: seq<Event>, i: nat, j: nat, g: Owner, h: string)
    requires Group(gs) && (forall e :: e in es ==> By(e, gs)) && i <= j <= |es| && g in gs
    requires RecordsClaim(PhaseOf(Run(EMPTY, es[..i]), g), h)
    requires forall k :: i <= k < j ==> es[k] != Release(g, h)
    ensures Owns(Run(EMPTY, es[..j]).ledger, g, h)
  {
    if i == j {
      RunKeepsInv(EMPTY, gs, es[..i]);
    } else {
      ClaimHoldsUntilOwnDelete(gs, es, i, j - 1, g, h);
      assert es[..j][..j - 1] == es[..j - 1];
      if es[j - 1].g != g {
        NoGatewayTouchesAnother(gs, es, j - 1, g, h);
      }
    }
  }

  /** When a pass reports, its lists partition the verified hostnames and, platform-managed names
      aside, the gateway's ledger entries are exactly the claimed ones; anything else it held is gone. */
  lemma ReportIsExact(gs: set<Owner>, es: seq<Event>, g: Owner)
    requires Group(gs) && (forall e :: e in es ==> By(e, gs)) && g in gs
    requires PhaseOf(Run(EMPTY, es), g).Reported?
    ensures var s, p := Run(EMPTY, es), PhaseOf(Run(EMPTY, es), g).pass;
      && (forall h :: h !in p.managed ==> (h in p.claimed <==> Owns(s.ledger, g, h)))
      && (forall h :: h in p.verified <==> h in p.claimed || h in p.notClaimed)
      && (forall h :: !(h in p.claimed && h in p.notClaimed))
      && (forall h :: h !in p.verified ==> !Owns(s.ledger, g, h))
  {
    RunKeepsInv(EMPTY, gs, es);
    var p := PhaseOf(Run(EMPTY, es), g).pass;
    assert p.verified[..|p.verified|] == p.verified;
  }

  // ----- The labels must separate the gateways -----

  /** In no interleaving does a step of one gateway lose another's entry. */
  ghost predicate Safe(gs: set<Owner>)
  {
    forall es: seq<Event>, e: Event, o: Owner, h: string ::
      (forall x :: x in es + [e] ==> By(x, gs)) && o in gs && e.g != o && Owns(Run(EMPTY, es).ledger, o, h)
      ==> Owns(Step(Run(EMPTY, es), e).ledger, o, h)
  }

  lemma RunSnoc(s: State, es: seq<Event>, e: Event)
    ensures Run(s, es + [e]) == Step(Run(s, es), e)
  {
    assert (es + [e])[..|es|] == es;
  }

  /** Two gateways with equal labels: the second's empty pass deletes what the first claimed. */
  lemma EqualLabelsLoseClaims(a: Owner, b: Owner, host: string) returns (es: seq<Event>, e: Event)
    requires a != b && LabelsOf(a) == LabelsOf(b)
    ensures (forall x :: x in es + [e] ==> x.g == a || x.g == b) && e.g == b
    ensures Owns(Run(EMPTY, es).ledger, a, host) && host !in Step(Run(EMPTY, es), e).ledger
  {
    var e0, e1, e2 := Begin(a, [host], {}), Advance(a), Advance(a);
    var e3, e4 := Begin(b, [], {}), Advance(b);
    e := Release(b, host);
    es := [] + [e0] + [e1] + [e2] + [e3] + [e4];
    RunSnoc(EMPTY, [], e0);
    RunSnoc(EMPTY, [] + [e0], e1);
    RunSnoc(EMPTY, [] + [e0] + [e1], e2);
    RunSnoc(EMPTY, [] + [e0] + [e1] + [e2], e3);
    RunSnoc(EMPTY, [] + [e0] + [e1] + [e2] + [e3], e4);
    var s1 := Step(EMPTY, e0);
    var s2 := Step(s1, e1);
    assert PhaseOf(s2, a) == Creating([host], Pass([host], {}, [], []));
    var s3 := Step(s2, e2);
    assert s3.ledger == map[host := EntryOf(a)];
    var s4 := Step(s3, e3);
    var s5 := Step(s4, e4);
    assert host in Listed(s5.ledger, b);
    assert PhaseOf(s5, b).Releasing? && host in PhaseOf(s5, b).stale;
  }

  /** The protocol is safe for a group of gateways exactly when their labels tell them apart. */
  lemma SafeExactlyWhenLabelsSeparate(gs: set<Owner>)
    requires forall g :: g in gs ==> WellNamed(g)
    ensures Safe(gs) <==> LabelsSeparate(gs)
  {
    if LabelsSeparate(gs) {
      forall es: seq<Event>, e: Event, o: Owner, h: string |
        (forall x :: x in es + [e] ==> By(x, gs)) && o in gs && e.g != o && Owns(Run(EMPTY, es).ledger, o, h)
        ensures Owns(Step(Run(EMPTY, es), e).ledger, o, h)
      {
        var all := es + [e];
        assert all[..|es|] == es && all[..|es| + 1] == all && all[|es|] == e;
        NoGatewayTouchesAnother(gs, all, |es|, o, h);
        RunSnoc(EMPTY, es, e);
      }
    } else {
      var a, b :| a in gs && b in gs && LabelsOf(a) == LabelsOf(b) && a != b;
      var es, e := EqualLabelsLoseClaims(a, b, "example.com");
      assert forall x :: x in es + [e] ==> By(x, gs);
      assert !Owns(Step(Run(EMPTY, es), e).ledger, a, "example.com");
    }
  }

  /** Cluster names without `_` are enough; `a/b` and `a_b` are a pair that is not. */
  lemma UnderscoreFreeIsSafe(gs: set<Owner>)
    requires forall g :: g in gs ==> WellNamed(g) && '_' !in g.cluster
    ensures Safe(gs)
  {
    forall a, b | a in gs && b in gs && LabelsOf(a) == LabelsOf(b) ensures a == b {
      LabelsInjectiveWithoutUnderscore(a, b);
    }
    SafeExactlyWhenLabelsSeparate(gs);
  }

  lemma SlashAndUnderscoreCollide()
    ensures !Safe({Owner("a/b", "ns", "gw"), Owner("a_b", "ns", "gw")})
  {
    var a, b := Owner("a/b", "ns", "gw"), Owner("a_b", "ns", "gw");
    assert Replace("a/b", '/', '_') == Replace("a_b", '/', '_');
    SafeExactlyWhenLabelsSeparate({a, b});
    assert a.cluster[1] != b.cluster[1];
  }
}
