/** Losing the race for a hostname.

    Between reading an entry as absent and creating it another gateway may create it. The API server
    then answers AlreadyExists, which the code does not take for a conflict: the whole pass fails and
    the hostname is not reported as not claimed. `CreateFailsExactlyWhenTaken` says when, and who did it.
 */
module HostnameRaces {
  import opened OwnerNames
  import opened HostnameClaims

  /** The state after the first `k` events. */
  ghost function At(es: seq<Event>, k: nat): State
    requires k <= |es|
  {
    Run(EMPTY, es[..k])
  }

  lemma AtNext(es: seq<Event>, k: nat)
    requires k < |es|
    ensures At(es, k + 1) == Step(At(es, k), es[k])
  {
    assert es[..k + 1][..k] == es[..k];
  }

  /** At event `i` the gateway read the first hostname of `todo` as absent. */
  ghost predicate ReadAbsent(es: seq<Event>, i: nat, g: Owner, todo: seq<string>)
    requires i < |es|
  {
    var s := At(es, i);
    es[i] == Advance(g) && PhaseOf(s, g).Checking? && PhaseOf(s, g).todo == todo != [] && todo[0] !in s.ledger
  }

  /** At event `j` its actor created the entry of `h`. */
  ghost predicate Created(es: seq<Event>, j: nat, h: string)
    requires j < |es|
  {
    h !in At(es, j).ledger && Owns(At(es, j + 1).ledger, es[j].g, h)
  }

  /** While a gateway is about to create, its own events that leave it so change nothing. */
  lemma CreatingHolds(s: State, e: Event)
    requires PhaseOf(s, e.g).Creating? && PhaseOf(Step(s, e), e.g) == PhaseOf(s, e.g)
    ensures Step(s, e).ledger == s.ledger
  {
  }

  lemma BecomesCreating(s: State, e: Event)
    requires PhaseOf(Step(s, e), e.g).Creating? && PhaseOf(Step(s, e), e.g) != PhaseOf(s, e.g)
    ensures e.Advance? && PhaseOf(s, e.g).Checking? && PhaseOf(s, e.g).todo == PhaseOf(Step(s, e), e.g).todo != []
    ensures PhaseOf(s, e.g).todo[0] !in s.ledger && Step(s, e).ledger == s.ledger
  {
  }

  lemma {:induction false} ReadBefore(es: seq<Event>, n: nat, g: Owner) returns (i: nat)
    requires n <= |es| && PhaseOf(At(es, n), g).Creating?
    ensures i < n && ReadAbsent(es, i, g, PhaseOf(At(es, n), g).todo) && At(es, i + 1).ledger == At(es, i).ledger
    ensures forall k :: i < k <= n ==> PhaseOf(At(es, k), g) == PhaseOf(At(es, n), g)
  {
    if n == 0 {
      assert false;
    }
    AtNext(es, n - 1);
    var s := At(es, n - 1);
    if PhaseOf(s, g) == PhaseOf(At(es, n), g) {
      i := ReadBefore(es, n - 1, g);
    } else {
      StepLeavesOtherPhases(s, es[n - 1]);
      BecomesCreating(s, es[n - 1]);
      i := n - 1;
    }
  }

  /** The last event up to `n` that brought an entry into the ledger. */
  lemma {:induction false} Appears(es: seq<Event>, i: nat, n: nat, h: string) returns (j: nat)
    requires i <= n <= |es| && h !in At(es, i).ledger && h in At(es, n).ledger
    ensures i <= j < n && h !in At(es, j).ledger && forall k :: j < k <= n ==> h in At(es, k).ledger
    decreases n
  {
    if h !in At(es, n - 1).ledger { j := n - 1; } else { j := Appears(es, i, n - 1, h); }
  }

  lemma PresentIsKept(gs: set<Owner>, s: State, e: Event, h: string)
    requires Group(gs) && Inv(s, gs) && By(e, gs) && h in s.ledger && h in Step(s, e).ledger
    ensures Step(s, e).ledger[h] == s.ledger[h]
  {
    StepIsGood(s, gs, e);
  }

  lemma {:induction false} EntryStays(gs: set<Owner>, es: seq<Event>, j: nat, n: nat, h: string)
    requires Group(gs) && (forall e :: e in es ==> By(e, gs)) && j <= n <= |es|
    requires forall k :: j <= k <= n ==> h in At(es, k).ledger
    ensures At(es, n).ledger[h] == At(es, j).ledger[h]
  {
    if j < n {
      EntryStays(gs, es, j, n - 1, h);
      RunKeepsInv(EMPTY, gs, es[..n - 1]);
      AtNext(es, n - 1);
      PresentIsKept(gs, At(es, n - 1), es[n - 1], h);
    }
  }

  lemma AppearedIsCreated(gs: set<Owner>, es: seq<Event>, j: nat, h: string)
    requires Group(gs) && (forall e :: e in es ==> By(e, gs)) && j < |es| && h !in At(es, j).ledger && h in At(es, j + 1).ledger
    ensures Created(es, j, h)
  {
    RunKeepsInv(EMPTY, gs, es[..j]);
    AtNext(es, j);
    StepIsGood(At(es, j), gs, es[j]);
  }

  /** Another gateway created `h` after `g` had read it as absent, and owns it. */
  ghost predicate TakenSinceRead(es: seq<Event>, g: Owner, todo: seq<string>, i: nat, j: nat)
    requires i < j < |es| && todo != []
  {
    ReadAbsent(es, i, g, todo) && Created(es, j, todo[0]) && es[j].g != g && Owns(Run(EMPTY, es).ledger, es[j].g, todo[0])
  }

  lemma FindTaker(gs: set<Owner>, es: seq<Event>, g: Owner, todo: seq<string>) returns (i: nat, j: nat)
    requires Group(gs) && (forall e :: e in es ==> By(e, gs)) && todo != []
    requires PhaseOf(Run(EMPTY, es), g).Creating? && PhaseOf(Run(EMPTY, es), g).todo == todo && todo[0] in Run(EMPTY, es).ledger
    ensures i < j < |es| && TakenSinceRead(es, g, todo, i, j)
  {
    var n := |es|;
    assert es[..n] == es;
    i := ReadBefore(es, n, g);
    j := Appears(es, i + 1, n, todo[0]);
    AppearedIsCreated(gs, es, j, todo[0]);
    EntryStays(gs, es, j + 1, n, todo[0]);
    AtNext(es, j);
    if es[j].g == g { CreatingHolds(At(es, j), es[j]); }
  }

  lemma CreatingHasMore(gs: set<Owner>, es: seq<Event>, g: Owner)
    requires Group(gs) && (forall e :: e in es ==> By(e, gs)) && g in gs && PhaseOf(Run(EMPTY, es), g).Creating?
    ensures PhaseOf(Run(EMPTY, es), g).todo != []
  {
    RunKeepsInv(EMPTY, gs, es);
  }

  /** Over every interleaving: a pass about to create its next hostname fails at its next step if and
      only if the hostname is in the ledger by then; and then another gateway of the group, which
      owns it, created it after the pass had read it as absent. */
  lemma CreateFailsExactlyWhenTaken(gs: set<Owner>, es: seq<Event>, g: Owner)
    requires Group(gs) && (forall e :: e in es ==> By(e, gs)) && g in gs && PhaseOf(Run(EMPTY, es), g).Creating?
    ensures var s := Run(EMPTY, es);
            var todo := PhaseOf(s, g).todo;
            && todo != []
            && (PhaseOf(Step(s, Advance(g)), g).Idle? <==> todo[0] in s.ledger)
            && (todo[0] in s.ledger ==> exists i, j :: 0 <= i < j < |es| && TakenSinceRead(es, g, todo, i, j))
  {
    CreatingHasMore(gs, es, g);
    var s := Run(EMPTY, es);
    var todo := PhaseOf(s, g).todo;
    if todo[0] in s.ledger {
      var i, j := FindTaker(gs, es, g, todo);
    }
  }

  /** The run: `a` reads the hostname as absent, `b` claims it, and `a`'s pass ends with an error, with
      the hostname in neither of its lists. */
  lemma RaceIsLost(a: Owner, b: Owner, host: string) returns (es: seq<Event>)
    requires a != b
    ensures (forall e :: e in es ==> e.g == a || e.g == b)
    ensures PhaseOf(Run(EMPTY, es), a) == Creating([host], Pass([host], {}, [], [])) && Owns(Run(EMPTY, es).ledger, b, host)
    ensures PhaseOf(Step(Run(EMPTY, es), Advance(a)), a).Idle?
  {
    var e0, e1, e2, e3 := Begin(a, [host], {}), Advance(a), Begin(b, [host], {}), Advance(b);
    es := [] + [e0] + [e1] + [e2] + [e3] + [e3];
    RunSnoc(EMPTY, [], e0);
    RunSnoc(EMPTY, [] + [e0], e1);
    RunSnoc(EMPTY, [] + [e0] + [e1], e2);
    RunSnoc(EMPTY, [] + [e0] + [e1] + [e2], e3);
    RunSnoc(EMPTY, [] + [e0] + [e1] + [e2] + [e3], e3);
    var s2 := Step(Step(EMPTY, e0), e1);
    assert PhaseOf(s2, a) == Creating([host], Pass([host], {}, [], [])) && s2.ledger == map[];
    var s4 := Step(Step(s2, e2), e3);
    assert PhaseOf(s4, b) == Creating([host], Pass([host], {}, [], [])) && s4.ledger == map[];
    assert PhaseOf(s4, a) == PhaseOf(s2, a);
    var s5 := Step(s4, e3);
    assert s5.ledger == map[host := EntryOf(b)];
  }
}
