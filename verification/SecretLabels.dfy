/** Which upstream Secrets carry the gateway-sync label:
    internal/controller/gateway_resource_replicator_securitypolicy_propagate.go, with the reference
    enumeration of gateway_resource_replicator_securitypolicy_guard.go.

    The store holds the Secrets of one namespace. A label without the managed annotation is the
    user's. Here a pass is one uninterrupted call; `SecretInterleaving` takes it apart into its API
    calls and lets policies and Secrets change in between.
 */
module SecretLabels {
  import opened Ordering

  datatype Secret = Secret(syncLabel: Option<string>, managed: Option<string>, data: string)
  datatype Ref = Ref(namespace: Option<string>, name: string)
  datatype Oidc = Oidc(clientSecret: Option<Ref>, clientIDRef: Option<Ref>)
  datatype Spec = Spec(oidc: Option<Oidc>, users: Option<Ref>, credentialRefs: seq<Option<Ref>>)
  datatype Policy = Policy(namespace: string, deleting: bool, spec: Option<Spec>)
  datatype SecretRef = SecretRef(namespace: string, name: string)

  // ----- The Secrets a policy references -----

  /** The references written in a spec, in any of its four places. */
  ghost predicate Mentions(s: Spec, r: Ref)
  {
    || (s.oidc.Some? && (s.oidc.value.clientSecret == Some(r) || s.oidc.value.clientIDRef == Some(r)))
    || s.users == Some(r)
    || Some(r) in s.credentialRefs
  }

  function Resolve(p: Policy, r: Ref): SecretRef
  {
    SecretRef(if r.namespace.Some? && r.namespace.value != "" then r.namespace.value else p.namespace, r.name)
  }

  /** A reference names a Secret of its own namespace or, if it gives none, of the policy's. */
  predicate Names(p: Policy, r: Ref, t: SecretRef)
  {
    r.name != "" && t.name == r.name && t.namespace == if r.namespace.None? || r.namespace.value == "" then p.namespace else r.namespace.value
  }

  ghost predicate References(p: Policy, t: SecretRef)
  {
    p.spec.Some? && exists r :: Mentions(p.spec.value, r) && Names(p, r, t)
  }

  function AddRef(p: Policy, r: Option<Ref>): seq<SecretRef>
  {
    if r.None? || r.value.name == "" then [] else [Resolve(p, r.value)]
  }

  lemma AddedAreReferenced(p: Policy, r: Option<Ref>)
    requires p.spec.Some? && (r.Some? ==> Mentions(p.spec.value, r.value))
    ensures forall t :: t in AddRef(p, r) ==> References(p, t)
  {
    if r.Some? && r.value.name != "" { assert Names(p, r.value, Resolve(p, r.value)); }
  }

  /** A list with what each of the four places adds has everything the policy references. */
  lemma MentionedAreListed(p: Policy, refs: seq<SecretRef>)
    requires p.spec.Some?
    requires var s := p.spec.value;
      && (forall t :: t in AddRef(p, s.users) ==> t in refs)
      && (s.oidc.Some? ==> forall t :: t in AddRef(p, s.oidc.value.clientSecret) + AddRef(p, s.oidc.value.clientIDRef) ==> t in refs)
      && (forall k :: 0 <= k < |s.credentialRefs| ==> forall t :: t in AddRef(p, s.credentialRefs[k]) ==> t in refs)
    ensures forall t :: References(p, t) ==> t in refs
  {
    var s := p.spec.value;
    forall t | References(p, t) ensures t in refs {
      var r :| Mentions(s, r) && Names(p, r, t);
      assert t in AddRef(p, Some(r));
      if Some(r) in s.credentialRefs {
        var k :| 0 <= k < |s.credentialRefs| && s.credentialRefs[k] == Some(r);
        assert t in AddRef(p, s.credentialRefs[k]);
      }
    }
  }

  method SecurityPolicySecretRefs(p: Policy) returns (refs: seq<SecretRef>)
    ensures forall t :: t in refs <==> References(p, t)
  {
    if p.spec.None? {
      return [];
    }
    var s := p.spec.value;
    refs := [];
    AddedAreReferenced(p, s.users);
    if s.oidc.Some? {
      AddedAreReferenced(p, s.oidc.value.clientSecret);
      AddedAreReferenced(p, s.oidc.value.clientIDRef);
      refs := refs + AddRef(p, s.oidc.value.clientSecret);
      refs := refs + AddRef(p, s.oidc.value.clientIDRef);
    }
    refs := refs + AddRef(p, s.users);
    ghost var fixed := refs;
    for i := 0 to |s.credentialRefs|
      invariant forall t :: t in fixed ==> t in refs
      invariant forall t :: t in refs ==> References(p, t)
      invariant forall k :: 0 <= k < i ==> forall t :: t in AddRef(p, s.credentialRefs[k]) ==> t in refs
    {
      var c := s.credentialRefs[i];
      AddedAreReferenced(p, c);
      refs := refs + AddRef(p, c);
    }
    MentionedAreListed(p, refs);
  }

  /** A name that some policy not being deleted references within the namespace. */
  ghost predicate Needed(ps: seq<Policy>, namespace: string, name: string)
  {
    exists i :: 0 <= i < |ps| && !ps[i].deleting && References(ps[i], SecretRef(namespace, name))
  }

  method ReferencedNames(ps: seq<Policy>, namespace: string) returns (referenced: set<string>)
    ensures forall n :: n in referenced <==> Needed(ps, namespace, n)
  {
    referenced := {};
    for i := 0 to |ps|
      invariant forall n :: n in referenced <==> exists k :: 0 <= k < i && !ps[k].deleting && References(ps[k], SecretRef(namespace, n))
    {
      if !ps[i].deleting {
        var refs := SecurityPolicySecretRefs(ps[i]);
        var own := set r | r in refs && r.namespace == namespace :: r.name;
        forall n ensures n in own <==> References(ps[i], SecretRef(namespace, n)) {
          assert n in own <==> SecretRef(namespace, n) in refs;
        }
        referenced := referenced + own;
      }
    }
  }

  // ----- One pass -----

  type Secrets = map<string, Secret>

  predicate Managed(s: Secret) { s.syncLabel.Some? && s.managed == Some("true") }

  function Ensured(s: Secret): Secret
  {
    if s.syncLabel.Some? then s else s.(syncLabel := Some("true"), managed := Some("true"))
  }

  function Collected(s: Secret): Secret
  {
    if Managed(s) then s.(syncLabel := None, managed := None) else s
  }

  function PassOn(s: Secret, needed: bool): Secret { if needed then Ensured(s) else Collected(s) }

  function Pass(m: Secrets, referenced: set<string>): Secrets
  {
    map n | n in m :: PassOn(m[n], n in referenced)
  }

  class Namespace {
    var secrets: Secrets

    method EnsureSecretSyncLabel(name: string)
      modifies this
      ensures secrets == if name in old(secrets) then old(secrets)[name := Ensured(old(secrets)[name])] else old(secrets)
    {
      if name !in secrets {
        return;
      }
      if secrets[name].syncLabel.Some? {
        return;
      }
      secrets := secrets[name := secrets[name].(syncLabel := Some("true"), managed := Some("true"))];
    }

    /** Lists the labelled Secrets, then patches them one by one, in any order. */
    method GcSecretSyncLabels(referenced: set<string>)
      modifies this
      ensures secrets == map n | n in old(secrets) :: if n in referenced then old(secrets)[n] else Collected(old(secrets)[n])
    {
      var todo := set n | n in secrets && secrets[n].syncLabel.Some?;
      while todo != {}
        invariant secrets.Keys == old(secrets).Keys && todo <= secrets.Keys
        invariant forall n :: n in secrets && (n in todo || old(secrets)[n].syncLabel.None?) ==> secrets[n] == old(secrets)[n]
        invariant forall n :: n in secrets && n !in todo && old(secrets)[n].syncLabel.Some? ==>
          secrets[n] == if n in referenced then old(secrets)[n] else Collected(old(secrets)[n])
        decreases |todo|
      {
        var n :| n in todo;
        todo := todo - {n};
        if secrets[n].syncLabel.Some? && secrets[n].managed == Some("true") && n !in referenced {
          secrets := secrets[n := secrets[n].(syncLabel := None, managed := None)];
        }
      }
    }

    method ReconcileReferencedSecretLabels(ps: seq<Policy>, namespace: string) returns (ghost referenced: set<string>)
      modifies this
      ensures secrets == Pass(old(secrets), referenced)
      ensures forall n :: n in referenced <==> Needed(ps, namespace, n)
    {
      var names := ReferencedNames(ps, namespace);
      referenced := names;
      var todo := names;
      while todo != {}
        invariant todo <= names && secrets.Keys == old(secrets).Keys
        invariant forall n :: n in secrets ==> secrets[n] == if n in names - todo then Ensured(old(secrets)[n]) else old(secrets)[n]
        decreases |todo|
      {
        var n :| n in todo;
        todo := todo - {n};
        EnsureSecretSyncLabel(n);
      }
      GcSecretSyncLabels(names);
    }
  }

  // ----- What a pass achieves -----

  /** Every needed Secret is labelled, every managed label is needed, the user's labels are untouched. */
  lemma PassIsRight(m: Secrets, referenced: set<string>)
    ensures Pass(m, referenced).Keys == m.Keys
    ensures forall n :: n in m && n in referenced ==> Pass(m, referenced)[n].syncLabel.Some?
    ensures forall n :: n in m && Managed(Pass(m, referenced)[n]) ==> n in referenced
    ensures forall n :: n in m && m[n].syncLabel.Some? && !Managed(m[n]) ==> Pass(m, referenced)[n] == m[n]
    ensures forall n :: n in m ==> Pass(m, referenced)[n].data == m[n].data
    ensures Pass(Pass(m, referenced), referenced) == Pass(m, referenced)
  {
  }

  // ----- Passes one after another -----

  /** The user's own label: the controller neither sets nor removes it. */
  predicate UserLabelled(s: Secret) { s.syncLabel.Some? && !Managed(s) }

  /** No leftover annotation, and a managed label carries the controller's own value. */
  predicate Clean(s: Secret)
  {
    (s.syncLabel.None? ==> s.managed.None?) && (Managed(s) ==> s.syncLabel == Some("true"))
  }

  /** What passes can have made of a Secret since its user last left it as `x`. */
  predicate Derived(x: Secret, s: Secret)
  {
    && s.data == x.data && UserLabelled(s) == UserLabelled(x)
    && (UserLabelled(x) ==> s == x)
    && (Clean(x) ==> s == x || s == PassOn(x, true) || s == PassOn(x, false))
  }

  lemma PassKeepsDerived(x: Secret, s: Secret, needed: bool)
    requires Derived(x, s)
    ensures Derived(x, PassOn(s, needed))
    ensures PassOn(s, needed).syncLabel.Some? <==> needed || UserLabelled(x)
    ensures Clean(x) ==> PassOn(s, needed) == PassOn(x, needed)
  {
  }

  /** Passes with these needs, one after another, on one Secret. */
  function Passes(s: Secret, needs: seq<bool>): Secret
  {
    if needs == [] then s else PassOn(Passes(s, needs[..|needs| - 1]), needs[|needs| - 1])
  }

  ghost predicate OnlyLastMatters(s: Secret)
  {
    forall needs: seq<bool> :: needs != [] ==> Passes(s, needs) == PassOn(s, needs[|needs| - 1])
  }

  lemma {:induction false} CleanForgets(s: Secret, needs: seq<bool>)
    requires Clean(s) && needs != []
    ensures Passes(s, needs) == PassOn(s, needs[|needs| - 1])
  {
    var init := needs[..|needs| - 1];
    if init != [] { CleanForgets(s, init); }
  }

  /** Only the last pass decides what a Secret is, down to values and annotations, if and only if it
      was clean to begin with. */
  lemma HistoryForgottenExactlyWhenClean(s: Secret)
    ensures OnlyLastMatters(s) <==> Clean(s)
  {
    if Clean(s) {
      forall needs: seq<bool> | needs != [] ensures Passes(s, needs) == PassOn(s, needs[|needs| - 1]) { CleanForgets(s, needs); }
    } else {
      var needs := if s.syncLabel.None? then [true, false] else [false, true];
      assert needs[..1] == [needs[0]] && [needs[0]][..0] == [];
      assert Passes(s, []) == s && Passes(s, [needs[0]]) == PassOn(s, needs[0]);
      assert Passes(s, needs) == PassOn(PassOn(s, needs[0]), needs[1]);
      assert Passes(s, needs) != PassOn(s, needs[1]);
    }
  }
}
