/** What a reconcile of internal/controller/iroh_dns_controller.go publishes.

    A reconcile works on the Connector it read at its start. Between that read, its read of the record
    and its write anything may happen; the results say, for every interleaving, what the record holds
    afterwards and for how long.
 */
module IrohPublishing {
  import opened Ordering
  import opened IrohClaims

  /** Nothing in `es` starts, advances or ends a reconcile of `u`. */
  predicate Passive(es: seq<Event>, u: Uid)
  {
    forall i :: 0 <= i < |es| && es[i].u == u ==> !es[i].Reconcile? && !es[i].Advance? && !es[i].Abort?
  }

  /** The record is the Connector's and holds this content. */
  predicate Published(s: State, name: string, u: Uid, content: seq<string>)
  {
    name in s.records && s.records[name] == Record(u, content)
  }

  /** To `u`'s reconcile the two states are one: it is where it was and its records are what they were. */
  ghost predicate Undisturbed(s: State, t: State, u: Uid)
  {
    && PhaseOf(t, u) == PhaseOf(s, u)
    && (forall name :: Bears(s, name, u) <==> Bears(t, name, u))
    && (forall name :: Bears(s, name, u) ==> t.records[name] == s.records[name])
  }

  lemma PublishedLikewise(s: State, t: State, u: Uid, name: string, content: seq<string>)
    requires Undisturbed(s, t, u)
    ensures Published(s, name, u, content) <==> Published(t, name, u, content)
  {
    assert Bears(s, name, u) <==> Bears(t, name, u);
  }

  lemma StepUndisturbed(s: State, e: Event, u: Uid)
    requires Inv(s) && Passive([e], u)
    ensures Undisturbed(s, Step(s, e), u)
  {
    assert [e][0] == e;
    if e.u != u {
      OthersStepsLookAlike(s, e, u);
      assert PhaseInv(s, e.u);
    }
  }

  lemma {:induction false} RunUndisturbed(s: State, es: seq<Event>, u: Uid)
    requires Inv(s) && Passive(es, u)
    ensures Inv(Run(s, es)) && Undisturbed(s, Run(s, es), u)
  {
    if es != [] {
      var n := |es| - 1;
      RunUndisturbed(s, es[..n], u);
      StepKeepsInv(Run(s, es[..n]), es[n]);
      StepUndisturbed(Run(s, es[..n]), es[n], u);
    }
  }

  /** The reconcile: it starts in `s`, reads the record after `a` and writes after `b` more events. */
  function AtRead(s: State, u: Uid, a: seq<Event>): State { Run(Step(s, Reconcile(u)), a) }

  function AtWrite(s: State, u: Uid, a: seq<Event>, b: seq<Event>): State { Run(Step(AtRead(s, u, a), Advance(u)), b) }

  function Afterwards(s: State, u: Uid, a: seq<Event>, b: seq<Event>, rest: seq<Event>): State
  {
    Run(Step(AtWrite(s, u, a, b), Advance(u)), rest)
  }

  /** The Connector is to be served under a record name: alive, routed, with its finalizer, reporting an id
      with that meaning and something to publish. */
  predicate WantsRecord(c: Connector, name: string)
  {
    !c.deleting && c.routed && c.finalizer && c.content != [] && EndpointName(c.endpoint) == Some(name)
  }

  /** It is to have none: being deleted, no longer routed, or with nothing to publish. */
  predicate WantsNone(c: Connector, name: string)
  {
    && EndpointName(c.endpoint) == Some(name)
    && if c.deleting then c.finalizer else !c.routed || (c.finalizer && c.content == [])
  }

  lemma ReadsRecord(s: State, u: Uid, a: seq<Event>, name: string)
    requires Inv(s) && u in s.connectors && PhaseOf(s, u).Idle? && Passive(a, u)
    ensures Inv(AtRead(s, u, a)) && Undisturbed(s, AtRead(s, u, a).(phases := s.phases), u)
    ensures WantsRecord(s.connectors[u], name) ==> PhaseOf(AtRead(s, u, a), u) == Claiming(name, s.connectors[u].content)
    ensures WantsNone(s.connectors[u], name) ==> PhaseOf(AtRead(s, u, a), u) == Looking(name, s.connectors[u])
  {
    StepKeepsInv(s, Reconcile(u));
    RunUndisturbed(Step(s, Reconcile(u)), a, u);
    assert forall n :: Bears(Step(s, Reconcile(u)), n, u) <==> Bears(s, n, u);
    assert forall n :: Bears(AtRead(s, u, a).(phases := s.phases), n, u) <==> Bears(AtRead(s, u, a), n, u);
  }

  /** In every interleaving the reconcile leaves the record holding the content it saw, until its Connector's
      next reconcile, if and only if the record was the Connector's own when it was read, or absent then
      and still absent at the write. */
  lemma ReconcilePublishes(pre: seq<Event>, u: Uid, a: seq<Event>, b: seq<Event>, rest: seq<Event>, name: string)
    requires var s := Run(EMPTY, pre); u in s.connectors && PhaseOf(s, u).Idle? && WantsRecord(s.connectors[u], name)
    requires Passive(a, u) && Passive(b, u) && Passive(rest, u)
    ensures var s := Run(EMPTY, pre);
            Published(Afterwards(s, u, a, b, rest), name, u, s.connectors[u].content) <==>
            || Bears(AtRead(s, u, a), name, u)
            || (name !in AtRead(s, u, a).records && name !in AtWrite(s, u, a, b).records)
  {
    var s := Run(EMPTY, pre);
    var content := s.connectors[u].content;
    RunKeepsInv(pre);
    ReadsRecord(s, u, a, name);
    var s1 := AtRead(s, u, a);
    StepKeepsInv(s1, Advance(u));
    RunUndisturbed(Step(s1, Advance(u)), b, u);
    ClaimWrites(s1, AtWrite(s, u, a, b), u, name, content);
    var s3 := Step(AtWrite(s, u, a, b), Advance(u));
    StepKeepsInv(AtWrite(s, u, a, b), Advance(u));
    RunUndisturbed(s3, rest, u);
    PublishedLikewise(s3, Run(s3, rest), u, name, content);
  }

  /** The read and the write of a claim, with nothing of the Connector's own in between. */
  lemma ClaimWrites(s1: State, s2: State, u: Uid, name: string, content: seq<string>)
    requires PhaseOf(s1, u) == Claiming(name, content) && Undisturbed(Step(s1, Advance(u)), s2, u)
    ensures Published(Step(s2, Advance(u)), name, u, content) <==> Bears(s1, name, u) || (name !in s1.records && name !in s2.records)
  {
    assert Bears(s2, name, u) <==> Bears(Step(s1, Advance(u)), name, u);
    assert Bears(Step(s1, Advance(u)), name, u) <==> Bears(s1, name, u);
  }

  /** A Connector that is to have no record has none under its present id after its reconcile, and none until
      the next one. */
  lemma ReconcileReleases(pre: seq<Event>, u: Uid, a: seq<Event>, b: seq<Event>, rest: seq<Event>, name: string)
    requires var s := Run(EMPTY, pre); u in s.connectors && PhaseOf(s, u).Idle? && WantsNone(s.connectors[u], name)
    requires Passive(a, u) && Passive(b, u) && Passive(rest, u)
    ensures !Bears(Afterwards(Run(EMPTY, pre), u, a, b, rest), name, u)
  {
    var s := Run(EMPTY, pre);
    RunKeepsInv(pre);
    ReadsRecord(s, u, a, name);
    var s1 := AtRead(s, u, a);
    StepKeepsInv(s1, Advance(u));
    RunUndisturbed(Step(s1, Advance(u)), b, u);
    ReleaseDeletes(s1, AtWrite(s, u, a, b), u, name, s.connectors[u]);
    var s3 := Step(AtWrite(s, u, a, b), Advance(u));
    StepKeepsInv(AtWrite(s, u, a, b), Advance(u));
    RunUndisturbed(s3, rest, u);
    assert Bears(s3, name, u) <==> Bears(Run(s3, rest), name, u);
  }

  lemma ReleaseDeletes(s1: State, s2: State, u: Uid, name: string, c: Connector)
    requires PhaseOf(s1, u) == Looking(name, c) && Undisturbed(Step(s1, Advance(u)), s2, u)
    ensures !Bears(Step(s2, Advance(u)), name, u)
  {
    assert Bears(s2, name, u) <==> Bears(Step(s1, Advance(u)), name, u);
    assert Bears(Step(s1, Advance(u)), name, u) <==> Bears(s1, name, u);
  }

  // ----- While the Connector does not change -----

  predicate Unchanged(es: seq<Event>, u: Uid)
  {
    forall i :: 0 <= i < |es| && es[i].u == u ==> !es[i].SetEndpoint? && !es[i].SetRouted? && !es[i].Delete?
  }

  lemma {:induction false} ConnectorStays(s: State, es: seq<Event>, u: Uid, c: Connector)
    requires Passive(es, u) && Unchanged(es, u) && u in s.connectors && u in s.born && s.connectors[u] == c
    ensures var t := Run(s, es); u in t.connectors && u in t.born && t.connectors[u] == c
  {
    if es != [] {
      ConnectorStays(s, es[..|es| - 1], u, c);
      StepLeavesConnector(Run(s, es[..|es| - 1]), es[|es| - 1], u);
    }
  }

  lemma StepLeavesConnector(s: State, e: Event, u: Uid)
    requires u in s.connectors && u in s.born && Passive([e], u) && Unchanged([e], u)
    ensures var t := Step(s, e); u in t.connectors && u in t.born && t.connectors[u] == s.connectors[u]
  {
    assert [e][0] == e;
  }

  lemma {:induction false} ConnectorsAreBorn(es: seq<Event>, u: Uid)
    requires u in Run(EMPTY, es).connectors
    ensures u in Run(EMPTY, es).born
  {
    if es != [] && u in Run(EMPTY, es[..|es| - 1]).connectors { ConnectorsAreBorn(es[..|es| - 1], u); }
  }

  /** So, while the Connector does not change, a reconcile that met nobody else's claim leaves the Connector's
      current content published. */
  lemma CurrentContentIsPublished(pre: seq<Event>, u: Uid, a: seq<Event>, b: seq<Event>, rest: seq<Event>, name: string)
    requires var s := Run(EMPTY, pre); u in s.connectors && PhaseOf(s, u).Idle? && WantsRecord(s.connectors[u], name)
    requires Passive(a, u) && Passive(b, u) && Passive(rest, u) && Unchanged(a, u) && Unchanged(b, u) && Unchanged(rest, u)
    requires var s := Run(EMPTY, pre);
             Bears(AtRead(s, u, a), name, u) || (name !in AtRead(s, u, a).records && name !in AtWrite(s, u, a, b).records)
    ensures var t := Afterwards(Run(EMPTY, pre), u, a, b, rest);
            u in t.connectors && WantsRecord(t.connectors[u], name) && Published(t, name, u, t.connectors[u].content)
  {
    var s := Run(EMPTY, pre);
    var c := s.connectors[u];
    ReconcilePublishes(pre, u, a, b, rest, name);
    ConnectorsAreBorn(pre, u);
    ConnectorStays(Step(s, Reconcile(u)), a, u, c);
    RunKeepsInv(pre);
    ReadsRecord(s, u, a, name);
    ConnectorStays(Step(AtRead(s, u, a), Advance(u)), b, u, c);
    StepKeepsInv(AtRead(s, u, a), Advance(u));
    RunUndisturbed(Step(AtRead(s, u, a), Advance(u)), b, u);
    ConnectorStays(Step(AtWrite(s, u, a, b), Advance(u)), rest, u, c);
  }
}
