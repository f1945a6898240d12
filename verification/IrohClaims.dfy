/** The DNS-record claims of internal/controller/iroh_dns_controller.go as a protocol.

    Connectors that share an iroh key collapse onto one record; the first to create it owns it. Every
    API call is an atomic step, one Connector runs one reconcile at a time on the copy of itself it
    read at the start, and agents and users change Connectors between any two steps.
 */
module IrohClaims {
  import opened Ordering
  import opened Zbase32

  type Uid = string

  datatype Connector = Connector(
    endpoint: string,    // hex endpoint id from the status; "" while the agent has not reported
    content: seq<string>, // relay and address entries; [] when there is nothing useful to publish
    routed: bool,        // its class routes to iroh
    deleting: bool,
    finalizer: bool)

  datatype Record = Record(claimedBy: Uid, content: seq<string>)

  datatype Phase =
    | Idle
    | AddingFinalizer(seen: Connector)
    | Claiming(name: string, content: seq<string>)   // about to read the record
    | Creating(name: string, content: seq<string>)   // it was absent
    | Patching(name: string, content: seq<string>)   // it carried our claim
    | Looking(name: string, seen: Connector)         // releasing: about to read the record
    | Deleting(name: string, seen: Connector)        // releasing: it carried our claim
    | RemovingFinalizer(seen: Connector)

  datatype State = State(
    records: map<string, Record>, connectors: map<Uid, Connector>, phases: map<Uid, Phase>, born: set<Uid>)

  datatype Event =
    | New(u: Uid, routed: bool)
    | SetEndpoint(u: Uid, endpoint: string, content: seq<string>)
    | SetRouted(u: Uid, routed: bool)
    | Delete(u: Uid)
    | Reconcile(u: Uid)
    | Advance(u: Uid)
    | Abort(u: Uid)

  const EMPTY := State(map[], map[], map[], {})

  function PhaseOf(s: State, u: Uid): Phase { if u in s.phases then s.phases[u] else Idle }

  function To(s: State, u: Uid, p: Phase): State { s.(phases := s.phases[u := p]) }

  function With(s: State, u: Uid, c: Connector): State { s.(connectors := s.connectors[u := c]) }

  /** The record an endpoint id points at; none when the id is missing or malformed. */
  function EndpointName(endpoint: string): Option<string>
  {
    if endpoint == "" || EndpointHexToZ32(endpoint).None? then None
    else Some(RecordSetName(EndpointHexToZ32(endpoint).value))
  }

  /** An id of 64 hex digits, and no other, names a record: by its bytes in z-base-32. */
  lemma EndpointNameSays(endpoint: string)
    ensures EndpointName(endpoint).Some? <==> |endpoint| == 64 && forall i :: 0 <= i < 64 ==> HexDigit(endpoint[i]).Some?
    ensures EndpointName(endpoint).Some? ==>
      exists z :: EndpointName(endpoint).value == "iroh-" + z && |z| == 52 && (forall i :: 0 <= i < 52 ==> z[i] in ALPHABET) && Some(Decode(z)) == HexDecode(endpoint)
  {
    EndpointNameIsFaithful(endpoint);
  }

  function NameOf(c: Connector): Option<string> { EndpointName(c.endpoint) }

  /** Where a release goes when it has nothing (more) to delete. */
  function AfterRelease(c: Connector): Phase { if c.deleting then RemovingFinalizer(c) else Idle }

  function StartRelease(c: Connector): Phase
  {
    if NameOf(c).None? then AfterRelease(c) else Looking(NameOf(c).value, c)
  }

  /** The branches of `Reconcile` on the Connector just read. */
  function StartPhase(c: Connector): Phase
  {
    if c.deleting then (if c.finalizer then StartRelease(c) else Idle)
    else if !c.routed then StartRelease(c)
    else if !c.finalizer then AddingFinalizer(c)
    else if c.endpoint != "" && NameOf(c).None? then Idle
    else if NameOf(c).None? || c.content == [] then StartRelease(c)
    else Claiming(NameOf(c).value, c.content)
  }

  function AdvanceStep(s: State, u: Uid): State
  {
    match PhaseOf(s, u)
    case Idle => s
    case AddingFinalizer(c) =>
      if u in s.connectors && s.connectors[u] == c then To(With(s, u, c.(finalizer := true)), u, Idle) else To(s, u, Idle)
    case Claiming(name, content) =>
      if name !in s.records then To(s, u, Creating(name, content))
      else if s.records[name].claimedBy != u then To(s, u, Idle)
      else To(s, u, Patching(name, content))
    case Creating(name, content) =>
      if name in s.records then To(s, u, Idle)
      else To(s.(records := s.records[name := Record(u, content)]), u, Idle)
    case Patching(name, content) =>
      // server-side apply with forced ownership writes the labels whatever is there
      To(s.(records := s.records[name := Record(u, content)]), u, Idle)
    case Looking(name, c) =>
      if name in s.records && s.records[name].claimedBy == u then To(s, u, Deleting(name, c)) else To(s, u, AfterRelease(c))
    case Deleting(name, c) => To(s.(records := s.records - {name}), u, AfterRelease(c))
    case RemovingFinalizer(c) =>
      if u in s.connectors && s.connectors[u] == c then To(s.(connectors := s.connectors - {u}), u, Idle) else To(s, u, Idle)
  }

  function Step(s: State, e: Event): State
  {
    match e
    case New(u, routed) =>
      if u in s.born then s
      else With(s.(born := s.born + {u}), u, Connector("", [], routed, false, false))
    case SetEndpoint(u, endpoint, content) =>
      if u in s.connectors then With(s, u, s.connectors[u].(endpoint := endpoint, content := content)) else s
    case SetRouted(u, routed) =>
      if u in s.connectors then With(s, u, s.connectors[u].(routed := routed)) else s
    case Delete(u) =>
      // without the finalizer the object is gone at once
      if u !in s.connectors then s
      else if s.connectors[u].finalizer then With(s, u, s.connectors[u].(deleting := true))
      else s.(connectors := s.connectors - {u})
    case Reconcile(u) =>
      if u in s.connectors && PhaseOf(s, u).Idle? then To(s, u, StartPhase(s.connectors[u])) else s
    case Advance(u) => AdvanceStep(s, u)
    case Abort(u) => To(s, u, Idle)
  }

  function Run(s: State, es: seq<Event>): State
  {
    if es == [] then s else Step(Run(s, es[..|es| - 1]), es[|es| - 1])
  }

  // ----- Invariant -----

  predicate Bears(s: State, name: string, u: Uid) { name in s.records && s.records[name].claimedBy == u }

  /** A claim a Connector has read stays its own: only it can end it. */
  ghost predicate PhaseInv(s: State, u: Uid)
  {
    match PhaseOf(s, u)
    case Patching(name, _) => Bears(s, name, u)
    case Looking(name, c) => NameOf(c) == Some(name)
    case Deleting(name, c) => Bears(s, name, u) && NameOf(c) == Some(name)
    case RemovingFinalizer(c) => c.deleting && (NameOf(c).Some? ==> !Bears(s, NameOf(c).value, u))
    case _ => true
  }

  ghost predicate Inv(s: State) { forall u :: PhaseInv(s, u) }

  /** `t` differs from `s` in no record of anyone but `u`, unless by filling an empty place for `u`. */
  ghost predicate OnlyOwnRecords(s: State, t: State, u: Uid)
  {
    forall name, v :: v != u ==> (Bears(s, name, v) <==> Bears(t, name, v))
  }

  lemma StepWritesOwnRecords(s: State, e: Event)
    requires PhaseInv(s, e.u)
    ensures OnlyOwnRecords(s, Step(s, e), e.u)
  {
  }

  lemma StepKeepsOwnPhase(s: State, e: Event)
    requires PhaseInv(s, e.u)
    ensures PhaseInv(Step(s, e), e.u)
  {
  }

  lemma StepLeavesOtherPhases(s: State, e: Event, u: Uid)
    requires u != e.u
    ensures PhaseOf(Step(s, e), u) == PhaseOf(s, u)
  {
  }

  lemma StepKeepsInv(s: State, e: Event)
    requires Inv(s)
    ensures Inv(Step(s, e)) && OnlyOwnRecords(s, Step(s, e), e.u)
  {
    var t := Step(s, e);
    assert PhaseInv(s, e.u);
    StepWritesOwnRecords(s, e);
    StepKeepsOwnPhase(s, e);
    forall u | u != e.u ensures PhaseInv(t, u) {
      assert PhaseInv(s, u);
      StepLeavesOtherPhases(s, e, u);
    }
  }

  lemma {:induction false} RunKeepsInv(es: seq<Event>)
    ensures Inv(Run(EMPTY, es))
  {
    if es != [] {
      RunKeepsInv(es[..|es| - 1]);
      StepKeepsInv(Run(EMPTY, es[..|es| - 1]), es[|es| - 1]);
    }
  }

  // ----- Results over every interleaving -----

  /** A claim ends only by its holder's own delete; no step passes it to another Connector. */
  lemma ClaimEndsByOwnDelete(es: seq<Event>, e: Event, name: string, u: Uid)
    requires Bears(Run(EMPTY, es), name, u)
    ensures var s := Run(EMPTY, es); var t := Step(s, e);
      Bears(t, name, u) || (name !in t.records && e == Advance(u) && PhaseOf(s, u).Deleting? && PhaseOf(s, u).name == name)
  {
    RunKeepsInv(es);
    var s := Run(EMPTY, es);
    StepKeepsInv(s, e);
    assert PhaseInv(s, u);
  }

  /** Whatever a step writes or removes was absent or the actor's own. */
  lemma WritesAreOwn(es: seq<Event>, e: Event, name: string)
    ensures var s := Run(EMPTY, es); var t := Step(s, e);
      || (name !in s.records && (name in t.records ==> t.records[name].claimedBy == e.u))
      || (name in s.records && s.records[name].claimedBy == e.u)
      || (name in s.records && name in t.records && s.records[name] == t.records[name])
  {
    RunKeepsInv(es);
    assert PhaseInv(Run(EMPTY, es), e.u);
  }

  /** When the finalizer is about to go, the record of the endpoint id the reconcile saw is released;
      what the Connector still holds, if anything, is under other names. */
  lemma FinalizerLeavesOnlyOtherNames(es: seq<Event>, u: Uid)
    requires PhaseOf(Run(EMPTY, es), u).RemovingFinalizer?
    ensures forall name :: Bears(Run(EMPTY, es), name, u) ==> Some(name) != NameOf(PhaseOf(Run(EMPTY, es), u).seen)
    ensures Step(Run(EMPTY, es), Advance(u)).records == Run(EMPTY, es).records
  {
    RunKeepsInv(es);
    assert PhaseInv(Run(EMPTY, es), u);
  }

  // ----- When the endpoint id keeps its meaning -----

  /** The agent reports, for `u`, only ids that lead to the record name `n` (`None`: to no name). */
  ghost predicate Reports(es: seq<Event>, u: Uid, n: Option<string>)
  {
    forall e :: e in es && e.SetEndpoint? && e.u == u ==> EndpointName(e.endpoint) == n
  }

  ghost predicate Holding(s: State, u: Uid) { exists name :: Bears(s, name, u) }

  /** The phase may still write the record called `name`. */
  predicate Targets(p: Phase, name: string)
  {
    (p.Claiming? || p.Creating? || p.Patching?) && p.name == name
  }

  ghost predicate SteadyInv(s: State, u: Uid, n: Option<string>)
  {
    && (u !in s.born ==> u !in s.connectors && PhaseOf(s, u).Idle?)
    && (u in s.connectors ==> s.connectors[u].endpoint == "" || NameOf(s.connectors[u]) == n)
    && (forall name :: Bears(s, name, u) || Targets(PhaseOf(s, u), name) ==>
          u in s.connectors && s.connectors[u].finalizer && NameOf(s.connectors[u]) == Some(name) == n)
    && match PhaseOf(s, u)
       case AddingFinalizer(c) => !c.deleting
       case Looking(_, c) => NameOf(c) == n
       case Deleting(_, c) => NameOf(c) == n
       case RemovingFinalizer(c) => !Holding(s, u)
       case _ => true
  }

  /** What a Connector holds or is about to write was already so before it advanced. */
  lemma AdvanceAddsNoTarget(s: State, u: Uid, name: string)
    requires Bears(AdvanceStep(s, u), name, u) || Targets(PhaseOf(AdvanceStep(s, u), u), name)
    ensures Bears(s, name, u) || Targets(PhaseOf(s, u), name)
  {
  }

  /** Removing the finalizer comes after the one record is gone. */
  lemma ReleasedBeforeFinalizer(s: State, u: Uid, n: Option<string>)
    requires PhaseInv(s, u) && SteadyInv(s, u, n) && PhaseOf(AdvanceStep(s, u), u).RemovingFinalizer?
    ensures !Holding(AdvanceStep(s, u), u)
  {
    var t := AdvanceStep(s, u);
    var c := PhaseOf(t, u).seen;
    forall name ensures !Bears(t, name, u) {
      assert Bears(s, name, u) ==> NameOf(s.connectors[u]) == Some(name) == NameOf(c);
    }
  }

  lemma AdvanceKeepsConnector(s: State, u: Uid)
    ensures var t := AdvanceStep(s, u);
            && t.born == s.born
            && (u in t.connectors ==> u in s.connectors && (t.connectors[u] == s.connectors[u] || t.connectors[u] == s.connectors[u].(finalizer := true)))
            && (u in s.connectors && u !in t.connectors ==> PhaseOf(s, u).RemovingFinalizer?)
  {
  }

  lemma SteadyAdvance(s: State, u: Uid, n: Option<string>)
    requires Inv(s) && SteadyInv(s, u, n)
    ensures SteadyInv(AdvanceStep(s, u), u, n)
  {
    var t := AdvanceStep(s, u);
    assert PhaseInv(s, u);
    AdvanceKeepsConnector(s, u);
    forall name | Bears(t, name, u) || Targets(PhaseOf(t, u), name)
      ensures Bears(s, name, u) || Targets(PhaseOf(s, u), name)
    {
      AdvanceAddsNoTarget(s, u, name);
    }
    if PhaseOf(t, u).RemovingFinalizer? { ReleasedBeforeFinalizer(s, u, n); }
  }

  lemma SteadyReconcile(s: State, u: Uid, n: Option<string>)
    requires SteadyInv(s, u, n)
    ensures SteadyInv(Step(s, Reconcile(u)), u, n)
  {
    var t := Step(s, Reconcile(u));
    assert forall name :: Bears(t, name, u) <==> Bears(s, name, u);
    assert PhaseOf(t, u) != PhaseOf(s, u) ==> PhaseOf(t, u) == StartPhase(s.connectors[u]);
  }

  /** Agents and users change Connectors, not records, and end no phase but by an error. */
  lemma SteadyElsewhere(s: State, e: Event, u: Uid, n: Option<string>)
    requires SteadyInv(s, u, n) && e.u == u && !e.Advance? && !e.Reconcile?
    requires e.SetEndpoint? ==> EndpointName(e.endpoint) == n
    ensures SteadyInv(Step(s, e), u, n)
  {
    var t := Step(s, e);
    assert forall name :: Bears(t, name, u) <==> Bears(s, name, u);
    assert e.Abort? || PhaseOf(t, u) == PhaseOf(s, u);
  }

  /** Two states look alike to `u`. */
  ghost predicate Alike(s: State, t: State, u: Uid)
  {
    && PhaseOf(t, u) == PhaseOf(s, u)
    && (u in t.connectors <==> u in s.connectors)
    && (u in s.connectors ==> t.connectors[u] == s.connectors[u])
    && (u in t.born <==> u in s.born)
    && forall name :: Bears(t, name, u) <==> Bears(s, name, u)
  }

  lemma OthersStepsLookAlike(s: State, e: Event, u: Uid)
    requires Inv(s) && e.u != u
    ensures Alike(s, Step(s, e), u)
  {
    StepKeepsInv(s, e);
  }

  lemma AlikeKeepsSteady(s: State, t: State, u: Uid, n: Option<string>)
    requires SteadyInv(s, u, n) && Alike(s, t, u)
    ensures SteadyInv(t, u, n)
  {
    assert Holding(t, u) <==> Holding(s, u);
  }

  lemma SteadyStep(s: State, e: Event, u: Uid, n: Option<string>)
    requires Inv(s) && SteadyInv(s, u, n) && Reports([e], u, n)
    ensures SteadyInv(Step(s, e), u, n)
  {
    assert e in [e];
    if e.u != u {
      OthersStepsLookAlike(s, e, u);
      AlikeKeepsSteady(s, Step(s, e), u, n);
    } else if e.Advance? {
      SteadyAdvance(s, u, n);
    } else if e.Reconcile? {
      SteadyReconcile(s, u, n);
    } else {
      SteadyElsewhere(s, e, u, n);
    }
  }

  lemma {:induction false} SteadyRun(es: seq<Event>, u: Uid, n: Option<string>)
    requires Reports(es, u, n)
    ensures SteadyInv(Run(EMPTY, es), u, n)
  {
    if es != [] {
      var k := |es| - 1;
      SteadyRun(es[..k], u, n);
      RunKeepsInv(es[..k]);
      SteadyStep(Run(EMPTY, es[..k]), es[k], u, n);
    }
  }

  // ----- Exactly when deletion leaves nothing behind -----

  /** Ids that all mean the same record, or none of which means any. */
  ghost predicate OneMeaning(ids: set<string>)
  {
    forall a, b :: a in ids && b in ids ==> EndpointName(a) == EndpointName(b)
  }

  ghost predicate ReportsFrom(es: seq<Event>, u: Uid, ids: set<string>)
  {
    forall e :: e in es && e.SetEndpoint? && e.u == u ==> e.endpoint in ids
  }

  /** Whatever happens, a Connector reporting only these ids holds no record once it is gone. */
  ghost predicate LeavesNothing(u: Uid, ids: set<string>)
  {
    forall es :: ReportsFrom(es, u, ids) && u !in Run(EMPTY, es).connectors ==> !Holding(Run(EMPTY, es), u)
  }

  lemma RunSnoc(es: seq<Event>, e: Event)
    ensures Run(EMPTY, es + [e]) == Step(Run(EMPTY, es), e)
  {
    assert (es + [e])[..|es|] == es;
  }

  /** Only `u` exists, it is idle, looks like `c`, and the records are `rs`. */
  predicate Alone(s: State, u: Uid, c: Connector, rs: map<string, Record>)
  {
    s.connectors == map[u := c] && PhaseOf(s, u).Idle? && s.records == rs
  }

  const FRESH := Connector("", [], true, false, true)

  lemma CreateConnector(u: Uid) returns (es: seq<Event>)
    ensures ReportsFrom(es, u, {}) && Alone(Run(EMPTY, es), u, FRESH, map[])
  {
    es := [];
    RunSnoc(es, New(u, true));
    es := es + [New(u, true)];
    RunSnoc(es, Reconcile(u));
    es := es + [Reconcile(u)];
    assert PhaseOf(Run(EMPTY, es), u) == AddingFinalizer(FRESH.(finalizer := false));
    RunSnoc(es, Advance(u));
    es := es + [Advance(u)];
  }

  /** `u` alone, in a phase of its reconcile. */
  predicate AloneIn(s: State, u: Uid, c: Connector, rs: map<string, Record>, p: Phase)
  {
    s.connectors == map[u := c] && PhaseOf(s, u) == p && s.records == rs
  }

  lemma AgentReports(s: State, u: Uid, c: Connector, rs: map<string, Record>, id: string, content: seq<string>)
    requires AloneIn(s, u, c, rs, Idle)
    ensures AloneIn(Step(s, SetEndpoint(u, id, content)), u, c.(endpoint := id, content := content), rs, Idle)
  {
  }

  lemma ReconcileStarts(s: State, u: Uid, c: Connector, rs: map<string, Record>)
    requires AloneIn(s, u, c, rs, Idle)
    ensures AloneIn(Step(s, Reconcile(u)), u, c, rs, StartPhase(c))
  {
  }

  lemma ClaimUnder(es0: seq<Event>, u: Uid, a: string) returns (es: seq<Event>)
    requires ReportsFrom(es0, u, {}) && Alone(Run(EMPTY, es0), u, FRESH, map[]) && EndpointName(a).Some?
    ensures ReportsFrom(es, u, {a})
    ensures Alone(Run(EMPTY, es), u, FRESH.(endpoint := a, content := ["relay"]),
                  map[EndpointName(a).value := Record(u, ["relay"])])
  {
    var c, name := FRESH.(endpoint := a, content := ["relay"]), EndpointName(a).value;
    AgentReports(Run(EMPTY, es0), u, FRESH, map[], a, ["relay"]);
    RunSnoc(es0, SetEndpoint(u, a, ["relay"]));
    es := es0 + [SetEndpoint(u, a, ["relay"])];
    ReconcileStarts(Run(EMPTY, es), u, c, map[]);
    RunSnoc(es, Reconcile(u));
    es := es + [Reconcile(u)];
    RunSnoc(es, Advance(u));
    es := es + [Advance(u)];
    assert AloneIn(Run(EMPTY, es), u, c, map[], Creating(name, ["relay"]));
    RunSnoc(es, Advance(u));
    es := es + [Advance(u)];
  }

  lemma StartDelete(es0: seq<Event>, u: Uid, c: Connector, rs: map<string, Record>, a: string, b: string) returns (es: seq<Event>)
    requires ReportsFrom(es0, u, {a}) && Alone(Run(EMPTY, es0), u, c, rs) && c.finalizer && !c.deleting
    ensures var d := c.(endpoint := b, content := [], deleting := true);
            ReportsFrom(es, u, {a, b}) && AloneIn(Run(EMPTY, es), u, d, rs, StartRelease(d))
  {
    var d := c.(endpoint := b, content := []);
    AgentReports(Run(EMPTY, es0), u, c, rs, b, []);
    RunSnoc(es0, SetEndpoint(u, b, []));
    es := es0 + [SetEndpoint(u, b, [])];
    RunSnoc(es, Delete(u));
    es := es + [Delete(u)];
    assert AloneIn(Run(EMPTY, es), u, d.(deleting := true), rs, Idle);
    ReconcileStarts(Run(EMPTY, es), u, d.(deleting := true), rs);
    RunSnoc(es, Reconcile(u));
    es := es + [Reconcile(u)];
  }

  lemma DeleteUnder(es0: seq<Event>, u: Uid, c: Connector, rs: map<string, Record>, a: string, b: string) returns (es: seq<Event>)
    requires ReportsFrom(es0, u, {a}) && Alone(Run(EMPTY, es0), u, c, rs) && c.finalizer && !c.deleting
    requires EndpointName(b).Some? ==> EndpointName(b).value !in rs
    ensures ReportsFrom(es, u, {a, b}) && Run(EMPTY, es).connectors == map[] && Run(EMPTY, es).records == rs
  {
    var d := c.(endpoint := b, content := [], deleting := true);
    es := StartDelete(es0, u, c, rs, a, b);
    if EndpointName(b).Some? {
      RunSnoc(es, Advance(u));
      es := es + [Advance(u)];
    }
    assert AloneIn(Run(EMPTY, es), u, d, rs, RemovingFinalizer(d));
    RunSnoc(es, Advance(u));
    es := es + [Advance(u)];
  }

  /** Claim under one id, report another, delete: the first record stays, claimed by nobody alive. */
  lemma ChangedIdOrphansRecord(u: Uid, a: string, b: string) returns (es: seq<Event>)
    requires EndpointName(a).Some? && EndpointName(a) != EndpointName(b)
    ensures ReportsFrom(es, u, {a, b})
    ensures u !in Run(EMPTY, es).connectors && Bears(Run(EMPTY, es), EndpointName(a).value, u)
  {
    es := CreateConnector(u);
    es := ClaimUnder(es, u, a);
    es := DeleteUnder(es, u, FRESH.(endpoint := a, content := ["relay"]),
                      map[EndpointName(a).value := Record(u, ["relay"])], a, b);
  }

  /** Deleting a Connector is sure to leave no record of it exactly when every id its agent may report
      means the same record. */
  lemma LeavesNothingExactlyWhenIdsAgree(u: Uid, ids: set<string>)
    ensures LeavesNothing(u, ids) <==> OneMeaning(ids)
  {
    if OneMeaning(ids) {
      forall es | ReportsFrom(es, u, ids) && u !in Run(EMPTY, es).connectors ensures !Holding(Run(EMPTY, es), u) {
        var n := if a :| a in ids then EndpointName(a) else None;
        SteadyRun(es, u, n);
      }
    } else {
      var a, b :| a in ids && b in ids && EndpointName(a) != EndpointName(b);
      var (x, y) := if EndpointName(a).Some? then (a, b) else (b, a);
      var es := ChangedIdOrphansRecord(u, x, y);
      assert ReportsFrom(es, u, ids) && Holding(Run(EMPTY, es), u);
    }
  }
}
