/** Listener gating in internal/controller/gateway_controller.go: certificate health, the desired
    downstream gateway and the upstream listener status, and why the last two never disagree about a
    listener that has a hostname.
 */
module ListenerGating {
  import opened Ordering
  import opened DnsNames
  import opened HostnameVerification
  import HostnameClaims

  datatype Listener = Listener(name: string, hostname: Option<string>, certificateIssuer: Option<string>)

  /** `None` is a missing or unreadable object: the code treats both alike. */
  datatype Certificate = Certificate(ready: bool, notBefore: Option<int>, notAfter: Option<int>)

  datatype Secret = Secret(keyPairLoads: bool, leafNotAfter: Option<int>)

  /** The downstream certificate objects of each listener, by listener name, and the time in ms. */
  datatype CertView = CertView(certificates: map<string, Certificate>, secrets: map<string, Secret>, now: int)

  datatype GatingConfig = GatingConfig(targetDomain: string, sharedSecret: bool)

  datatype CertStatus = CertStatus(healthy: bool, pending: bool)

  const EXPIRY_MARGIN_MS := 60_000

  function ListenerCertHealth(v: CertView, name: string): CertStatus
  {
    if name !in v.certificates || !v.certificates[name].ready then CertStatus(false, true)
    else
      var c := v.certificates[name];
      if c.notBefore.Some? && c.notBefore.value > v.now then CertStatus(false, false)
      else if c.notAfter.Some? && c.notAfter.value <= v.now + EXPIRY_MARGIN_MS then CertStatus(false, false)
      else if name !in v.secrets then CertStatus(false, true)
      else if !v.secrets[name].keyPairLoads then CertStatus(false, false)
      else if v.secrets[name].leafNotAfter.Some? && v.secrets[name].leafNotAfter.value <= v.now then CertStatus(false, false)
      else CertStatus(true, false)
  }

  /** An issued certificate inside its dates, with a margin, and a loadable, unexpired key pair. */
  predicate UsableCertificate(v: CertView, name: string)
  {
    && name in v.certificates && v.certificates[name].ready
    && (v.certificates[name].notBefore.Some? ==> v.certificates[name].notBefore.value <= v.now)
    && (v.certificates[name].notAfter.Some? ==> v.now + 60_000 < v.certificates[name].notAfter.value)
    && name in v.secrets && v.secrets[name].keyPairLoads
    && (v.secrets[name].leafNotAfter.Some? ==> v.now < v.secrets[name].leafNotAfter.value)
  }

  /** Healthy is usable. Pending is exactly what issuance is still to bring: the certificate, or the key pair of one that is
      in date. */
  lemma HealthyMeansUsable(v: CertView, name: string)
    ensures ListenerCertHealth(v, name).healthy <==> UsableCertificate(v, name)
    ensures ListenerCertHealth(v, name).pending <==>
      || name !in v.certificates || !v.certificates[name].ready
      || (&& name !in v.secrets
          && (v.certificates[name].notBefore.Some? ==> v.certificates[name].notBefore.value <= v.now)
          && (v.certificates[name].notAfter.Some? ==> v.now + 60_000 < v.certificates[name].notAfter.value))
  {
  }

  predicate UnderTargetDomain(c: GatingConfig, h: string)
  {
    HasSuffix(h, "." + c.targetDomain) || h == c.targetDomain
  }

  /** The listener owns a per-hostname certificate whose health gates it. */
  predicate OwnsCertificate(c: GatingConfig, l: Listener, claimed: seq<string>)
  {
    && l.certificateIssuer.Some? && l.certificateIssuer.value != "" && l.hostname.Some?
    && l.hostname.value in claimed
    && !(c.sharedSecret && UnderTargetDomain(c, l.hostname.value))
  }

  function Health(c: GatingConfig, v: CertView, ls: seq<Listener>, claimed: seq<string>): map<string, CertStatus>
  {
    map i | 0 <= i < |ls| && OwnsCertificate(c, ls[i], claimed) :: ls[i].name := ListenerCertHealth(v, ls[i].name)
  }

  method EvaluateListenerCertHealth(c: GatingConfig, v: CertView, ls: seq<Listener>, claimed: seq<string>)
    returns (health: map<string, CertStatus>)
    ensures health == Health(c, v, ls, claimed)
  {
    health := map[];
    for i := 0 to |ls|
      invariant forall n :: n in health <==> exists j :: 0 <= j < i && OwnsCertificate(c, ls[j], claimed) && ls[j].name == n
      invariant forall n :: n in health ==> health[n] == ListenerCertHealth(v, n)
    {
      if OwnsCertificate(c, ls[i], claimed) {
        health := health[ls[i].name := ListenerCertHealth(v, ls[i].name)];
      }
    }
  }

  // ----- The desired downstream gateway -----

  datatype TlsSource = Unchanged | SharedSecret | ListenerSecret

  datatype DesiredListener = DesiredListener(listener: Listener, tls: TlsSource)

  predicate Withheld(health: map<string, CertStatus>, l: Listener)
  {
    l.name in health && !health[l.name].healthy
  }

  predicate Propagated(l: Listener, claimed: seq<string>, health: map<string, CertStatus>)
  {
    l.hostname.Some? && l.hostname.value in claimed && !Withheld(health, l)
  }

  function TlsFor(c: GatingConfig, l: Listener): TlsSource
    requires l.hostname.Some?
  {
    if l.certificateIssuer.None? || l.certificateIssuer.value == "" then Unchanged
    else if UnderTargetDomain(c, l.hostname.value) && c.sharedSecret then SharedSecret
    else ListenerSecret
  }

  /** The propagated listeners, in the order of the upstream gateway. */
  function Desired(c: GatingConfig, ls: seq<Listener>, claimed: seq<string>, health: map<string, CertStatus>): seq<DesiredListener>
  {
    if ls == [] then []
    else
      var before, l := Desired(c, ls[..|ls| - 1], claimed, health), ls[|ls| - 1];
      if Propagated(l, claimed, health) then before + [DesiredListener(l, TlsFor(c, l))] else before
  }

  method GetDesiredDownstreamGateway(c: GatingConfig, ls: seq<Listener>, claimed: seq<string>, health: map<string, CertStatus>)
    returns (desired: seq<DesiredListener>)
    ensures desired == Desired(c, ls, claimed, health)
    ensures forall l :: (exists k :: 0 <= k < |desired| && desired[k].listener == l) <==> l in ls && Propagated(l, claimed, health)
    ensures forall k :: 0 <= k < |desired| ==> desired[k].listener.hostname.Some? && desired[k].tls == TlsFor(c, desired[k].listener)
  {
    desired := [];
    for i := 0 to |ls|
      invariant desired == Desired(c, ls[..i], claimed, health)
      invariant forall l :: (exists k :: 0 <= k < |desired| && desired[k].listener == l) <==> l in ls[..i] && Propagated(l, claimed, health)
      invariant forall k :: 0 <= k < |desired| ==> desired[k].listener.hostname.Some? && desired[k].tls == TlsFor(c, desired[k].listener)
    {
      var l := ls[i];
      assert ls[..i + 1] == ls[..i] + [l] && ls[..i + 1][..i] == ls[..i];
      if l.hostname.Some? && l.hostname.value !in claimed {
        continue;
      }
      if l.name in health && !health[l.name].healthy {
        continue;
      }
      if l.hostname.Some? {
        ghost var was := desired;
        desired := desired + [DesiredListener(l, TlsFor(c, l))];
        assert desired[|was|].listener == l && forall k :: 0 <= k < |was| ==> desired[k] == was[k];
      }
    }
    assert ls[..|ls|] == ls;
  }

  // ----- The upstream status -----

  datatype Reason = Fine | UnverifiedHostname | HostnameInUse | InvalidCertificate

  datatype ListenerStatus = ListenerStatus(name: string, accepted: Reason, programmed: Reason, resolvedRefs: Reason)

  function StatusOf(l: Listener, verified: seq<string>, notClaimed: seq<string>, health: map<string, CertStatus>): ListenerStatus
  {
    if l.hostname.Some? && l.hostname.value !in verified then
      ListenerStatus(l.name, UnverifiedHostname, UnverifiedHostname, Fine)
    else if l.hostname.Some? && l.hostname.value in notClaimed then
      ListenerStatus(l.name, HostnameInUse, HostnameInUse, Fine)
    else if Withheld(health, l) then
      ListenerStatus(l.name, Fine, InvalidCertificate, InvalidCertificate)
    else
      ListenerStatus(l.name, Fine, Fine, Fine)
  }

  method UpdateListenerStatus(ls: seq<Listener>, verified: seq<string>, notClaimed: seq<string>, health: map<string, CertStatus>)
    returns (statuses: seq<ListenerStatus>)
    ensures |statuses| == |ls|
    ensures forall i :: 0 <= i < |ls| ==> statuses[i] == StatusOf(ls[i], verified, notClaimed, health)
  {
    statuses := [];
    for i := 0 to |ls|
      invariant |statuses| == i
      invariant forall j :: 0 <= j < i ==> statuses[j] == StatusOf(ls[j], verified, notClaimed, health)
    {
      var l := ls[i];
      var accepted, programmed, resolvedRefs := Fine, Fine, Fine;
      var hostnameProblem := false;
      if l.hostname.Some? {
        if l.hostname.value !in verified {
          hostnameProblem, accepted, programmed := true, UnverifiedHostname, UnverifiedHostname;
        } else if l.hostname.value in notClaimed {
          hostnameProblem, accepted, programmed := true, HostnameInUse, HostnameInUse;
        }
      }
      if !hostnameProblem && l.name in health && !health[l.name].healthy {
        resolvedRefs, programmed := InvalidCertificate, InvalidCertificate;
      }
      statuses := statuses + [ListenerStatus(l.name, accepted, programmed, resolvedRefs)];
    }
  }

  // ----- Agreement -----

  /** The verified hostnames are the disjoint union of the claimed and the not-claimed ones. */
  ghost predicate SplitsVerified(verified: seq<string>, claimed: seq<string>, notClaimed: seq<string>)
  {
    && (forall h :: h in verified <==> h in claimed || h in notClaimed)
    && (forall h :: !(h in claimed && h in notClaimed))
  }

  /** Every claim pass that reports provides that split. */
  lemma ClaimPassSplitsVerified(p: HostnameClaims.Pass)
    requires HostnameClaims.Partition([], p)
    ensures SplitsVerified(p.verified, p.claimed, p.notClaimed)
  {
    assert p.verified[..|p.verified|] == p.verified;
  }

  /** Propagation and the reported Programmed condition agree on a listener exactly when it has a
      hostname or is withheld for its certificate; a listener without a hostname is reported
      Programmed although it is never propagated. */
  lemma PropagatedExactlyWhenProgrammed(
    l: Listener, verified: seq<string>, claimed: seq<string>, notClaimed: seq<string>, health: map<string, CertStatus>)
    requires SplitsVerified(verified, claimed, notClaimed)
    ensures (Propagated(l, claimed, health) <==> StatusOf(l, verified, notClaimed, health).programmed.Fine?)
       <==> l.hostname.Some? || Withheld(health, l)
  {
  }

  /** Programmed is Accepted and ResolvedRefs together, and a hostname problem hides a certificate one. */
  lemma ProgrammedIsAcceptedAndResolved(l: Listener, verified: seq<string>, notClaimed: seq<string>, health: map<string, CertStatus>)
    ensures var s := StatusOf(l, verified, notClaimed, health);
      && (s.programmed.Fine? <==> s.accepted.Fine? && s.resolvedRefs.Fine?)
      && (!s.accepted.Fine? ==> s.resolvedRefs.Fine? && s.programmed == s.accepted)
  {
  }

  /** A served listener has a claimed hostname. It keeps its own TLS settings unless an issuer is named; then the
      shared secret, if there is one, serves the target domain and the names within it, and every other
      hostname has a certificate of its own, which is usable. */
  predicate ServedRightly(c: GatingConfig, v: CertView, claimed: seq<string>, d: DesiredListener)
  {
    && d.listener.hostname.Some? && d.listener.hostname.value in claimed
    && var issued := d.listener.certificateIssuer.Some? && d.listener.certificateIssuer.value != "";
       var shared := c.sharedSecret && Encloses(c.targetDomain, d.listener.hostname.value);
    && d.tls == (if !issued then Unchanged else if shared then SharedSecret else ListenerSecret)
    && (d.tls == ListenerSecret ==> UsableCertificate(v, d.listener.name))
  }

  lemma TargetDomainIsByLabels(c: GatingConfig, h: string)
    ensures UnderTargetDomain(c, h) <==> Encloses(c.targetDomain, h)
  {
    CoversIsByLabels(Domain(c.targetDomain, true), h);
  }

  /** One reconcile: the certificate-health map is computed once and shared by both consumers. */
  method GateListeners(c: GatingConfig, v: CertView, ls: seq<Listener>, verified: seq<string>, claimed: seq<string>, notClaimed: seq<string>)
    returns (desired: seq<DesiredListener>, statuses: seq<ListenerStatus>)
    requires SplitsVerified(verified, claimed, notClaimed)
    ensures desired == Desired(c, ls, claimed, Health(c, v, ls, claimed)) && |statuses| == |ls|
    ensures forall i :: 0 <= i < |ls| && ls[i].hostname.Some? ==>
      (statuses[i].programmed.Fine? <==> exists k :: 0 <= k < |desired| && desired[k].listener == ls[i])
    ensures forall k :: 0 <= k < |desired| ==> ServedRightly(c, v, claimed, desired[k])
  {
    var health := EvaluateListenerCertHealth(c, v, ls, claimed);
    desired := GetDesiredDownstreamGateway(c, ls, claimed, health);
    statuses := UpdateListenerStatus(ls, verified, notClaimed, health);
    forall i | 0 <= i < |ls| && ls[i].hostname.Some?
      ensures statuses[i].programmed.Fine? <==> exists k :: 0 <= k < |desired| && desired[k].listener == ls[i]
    {
      PropagatedExactlyWhenProgrammed(ls[i], verified, claimed, notClaimed, health);
    }
    forall k | 0 <= k < |desired|
      ensures ServedRightly(c, v, claimed, desired[k])
    {
      HealthyMeansUsable(v, desired[k].listener.name);
      TargetDomainIsByLabels(c, desired[k].listener.hostname.value);
      var l := desired[k].listener;
      assert l in ls && Propagated(l, claimed, health);
      var i :| 0 <= i < |ls| && ls[i] == l;
      assert OwnsCertificate(c, ls[i], claimed) ==> l.name in health;
    }
  }
}
