/** One gateway reconcile from end to end: hostname verification, the claim pass and listener gating of
    internal/controller/gateway_controller.go, chained.

    `ProgrammedExactlyWhenServable` says, after every interleaving of gateways, what it takes for a
    listener to be served, and that the downstream gateway and the upstream status agree on it.
 */
module GatewayReconcile {
  import opened Ordering
  import opened OwnerNames
  import opened DnsNames
  import opened HostnameVerification
  import HC = HostnameClaims
  import opened ClaimPass
  import opened ListenerGating

  predicate DistinctNames(ls: seq<Listener>) { forall i, j :: 0 <= i < j < |ls| ==> ls[i].name != ls[j].name }

  /** A reported pass claims what it verified and owns, and what the platform manages. */
  lemma ClaimedMeansOwned(gs: set<Owner>, es: seq<HC.Event>, g: Owner, h: string)
    requires HC.Group(gs) && (forall e :: e in es ==> HC.By(e, gs)) && g in gs && HC.PhaseOf(HC.Run(HC.EMPTY, es), g).Reported?
    ensures var s := HC.Run(HC.EMPTY, es);
            var p := HC.PhaseOf(s, g).pass;
            h in p.claimed <==> h in p.verified && (h in p.managed || HC.Owns(s.ledger, g, h))
  {
    HC.ReportIsExact(gs, es, g);
    HC.RunKeepsInv(HC.EMPTY, gs, es);
    assert HC.Partition([], HC.PhaseOf(HC.Run(HC.EMPTY, es), g).pass);
  }

  lemma WithheldMeansUnhealthy(c: GatingConfig, v: CertView, ls: seq<Listener>, claimed: seq<string>, l: Listener)
    requires DistinctNames(ls) && l in ls
    ensures Withheld(Health(c, v, ls, claimed), l) <==> OwnsCertificate(c, l, claimed) && !ListenerCertHealth(v, l.name).healthy
  {
    var i :| 0 <= i < |ls| && ls[i] == l;
    assert OwnsCertificate(c, l, claimed) ==> l.name in Health(c, v, ls, claimed);
    forall j | 0 <= j < |ls| && ls[j].name == l.name ensures j == i {}
  }

  /** The hostname is verified, and the gateway owns it or the platform manages it. */
  ghost predicate Entitled(s: HC.State, g: Owner, vc: Config, u: Upstream, d: Downstream, domains: seq<Domain>, h: string)
    requires HC.PhaseOf(s, g).Reported?
  {
    VerifiedNow(vc, u, d, domains, h) && (h in HC.PhaseOf(s, g).pass.managed || HC.Owns(s.ledger, g, h))
  }

  /** An issuer is named for the listener, and its hostname is not served by a shared secret for the target domain. */
  predicate NeedsCertificate(gc: GatingConfig, l: Listener)
    requires l.hostname.Some?
  {
    && l.certificateIssuer.Some? && l.certificateIssuer.value != ""
    && !(gc.sharedSecret && Encloses(gc.targetDomain, l.hostname.value))
  }

  /** A listener can be served: the gateway may use its hostname, and the certificate it needs, if any of
      its own, is usable. */
  ghost predicate Servable(s: HC.State, g: Owner, vc: Config, u: Upstream, d: Downstream, domains: seq<Domain>,
                           gc: GatingConfig, v: CertView, l: Listener)
    requires HC.PhaseOf(s, g).Reported? && l.hostname.Some?
  {
    && Entitled(s, g, vc, u, d, domains, l.hostname.value)
    && (NeedsCertificate(gc, l) ==> UsableCertificate(v, l.name))
  }

  /** After every interleaving: when the gateway's claim pass over the hostnames verified for it has
      reported, a listener with a hostname is in the desired downstream gateway if and only if its
      status is Programmed, and both if and only if it can be served; the status says which half is
      missing, and Programmed is Accepted with its references resolved. */
  lemma ProgrammedExactlyWhenServable(
    gs: set<Owner>, es: seq<HC.Event>, g: Owner, vc: Config, u: Upstream, d: Downstream, domains: seq<Domain>,
    gc: GatingConfig, v: CertView, ls: seq<Listener>, l: Listener)
    requires HC.Group(gs) && (forall e :: e in es ==> HC.By(e, gs)) && g in gs && HC.PhaseOf(HC.Run(HC.EMPTY, es), g).Reported?
    requires forall h :: h in HC.PhaseOf(HC.Run(HC.EMPTY, es), g).pass.verified <==> VerifiedNow(vc, u, d, domains, h)
    requires DistinctNames(ls) && l in ls && l.hostname.Some?
    ensures var s := HC.Run(HC.EMPTY, es);
            var p := HC.PhaseOf(s, g).pass;
            var health := Health(gc, v, ls, p.claimed);
            var status := StatusOf(l, p.verified, p.notClaimed, health);
            && (Propagated(l, p.claimed, health) <==> Servable(s, g, vc, u, d, domains, gc, v, l))
            && (status.programmed.Fine? <==> Servable(s, g, vc, u, d, domains, gc, v, l))
            && (status.accepted.Fine? <==> Entitled(s, g, vc, u, d, domains, l.hostname.value))
            && (status.programmed.Fine? <==> status.accepted.Fine? && status.resolvedRefs.Fine?)
  {
    var s := HC.Run(HC.EMPTY, es);
    var p := HC.PhaseOf(s, g).pass;
    ClaimedMeansOwned(gs, es, g, l.hostname.value);
    WithheldMeansUnhealthy(gc, v, ls, p.claimed, l);
    HealthyMeansUsable(v, l.name);
    TargetDomainIsByLabels(gc, l.hostname.value);
    HC.RunKeepsInv(HC.EMPTY, gs, es);
    ClaimPassSplitsVerified(p);
    PropagatedExactlyWhenProgrammed(l, p.verified, p.claimed, p.notClaimed, Health(gc, v, ls, p.claimed));
    ProgrammedIsAcceptedAndResolved(l, p.verified, p.notClaimed, Health(gc, v, ls, p.claimed));
  }

  /** The chain itself, with nobody in between. */
  method ReconcileListeners(
    accounting: Accounting, g: Owner, managed: set<string>, vc: Config, u: Upstream, d: Downstream, domains: seq<Domain>,
    gc: GatingConfig, v: CertView, ls: seq<Listener>, ghost phases: map<Owner, HC.Phase>)
    returns (desired: seq<DesiredListener>, statuses: seq<ListenerStatus>, ghost pass: HC.Pass, ghost es: seq<HC.Event>)
    requires HC.Ready(HC.State(accounting.ledger, phases), g)
    modifies accounting
    ensures HC.Run(HC.State(old(accounting.ledger), phases), es) == HC.State(accounting.ledger, phases[g := HC.Reported(pass)])
    ensures forall h :: h in pass.verified <==> VerifiedNow(vc, u, d, domains, h)
    ensures desired == Desired(gc, ls, pass.claimed, Health(gc, v, ls, pass.claimed)) && |statuses| == |ls|
    ensures forall i :: 0 <= i < |ls| && ls[i].hostname.Some? ==>
      (statuses[i].programmed.Fine? <==> exists k :: 0 <= k < |desired| && desired[k].listener == ls[i])
  {
    var verified, _ := EnsureHostnameVerification(vc, u, d, domains);
    var claimed, notClaimed;
    claimed, notClaimed, es := accounting.EnsureHostnamesClaimed(g, verified, managed, phases);
    pass := HC.Pass(verified, managed, claimed, notClaimed);
    ClaimPassSplitsVerified(pass);
    desired, statuses := GateListeners(gc, v, ls, verified, claimed, notClaimed);
  }
}
