/** Listener filters: the emitted policies insert the Coraza filter exactly once into every HTTPS
    filter chain whose route table they configure, and into no other chain.
 */
module TrafficProtectionFilters {
  import opened Ordering
  import opened TrafficProtection
  import opened TrafficProtectionConflicts
  import opened TrafficProtectionPatches
  import opened TrafficProtectionMeaning

  /** Some patch writes directives into the chain's route configuration. */
  ghost predicate Configures(patches: seq<Patch>, chain: RouteConfig)
  {
    exists p :: p in patches && p.Coraza? && p.config == chain
  }

  function Insertions(patches: seq<Patch>, chain: RouteConfig): nat
  {
    multiset(patches)[ListenerFilter(chain)]
  }

  function TotalInsertions(es: seq<EnvoyPatchPolicy>, chain: RouteConfig): nat
  {
    if es == [] then 0
    else TotalInsertions(es[..|es| - 1], chain) + Insertions(es[|es| - 1].patches, chain)
  }

  lemma {:induction false} HttpsConfigures(e: Attachment, ls: seq<Listener>, chains: seq<string>, chain: RouteConfig)
    requires NoDuplicates(chains)
    ensures NoDuplicates(AddHttpsChains(chains, ls))
    ensures forall l :: l in AddHttpsChains(chains, ls) <==> l in chains || Listener(l, HTTPS) in ls
    ensures Configures(HttpsPatches(e, ls), chain) <==>
      chain.Https? && chain.gateway == e.gateway.name && Listener(chain.listener, HTTPS) in ls
    ensures forall p :: p in HttpsPatches(e, ls) ==> !p.ListenerFilter?
  {
    if ls != [] {
      var n := |ls| - 1;
      assert ls == ls[..n] + [ls[n]];
      HttpsConfigures(e, ls[..n], chains, chain);
      if ls[n].protocol.HTTPS? {
        assert ls[n] == Listener(ls[n].name, HTTPS);
        var two := [MetadataFor(e, Https(e.gateway.name, ls[n].name)), Coraza(Https(e.gateway.name, ls[n].name), SelectorFor(e), e.directives)];
        ConfiguresConcat(HttpsPatches(e, ls[..n]), two, chain);
        assert two[1] in two;
      } else {
        assert HttpsPatches(e, ls[..n]) + [] == HttpsPatches(e, ls[..n]);
      }
    }
  }

  lemma ConfiguresConcat(xs: seq<Patch>, ys: seq<Patch>, chain: RouteConfig)
    ensures Configures(xs + ys, chain) <==> Configures(xs, chain) || Configures(ys, chain)
  {
    assert forall p :: p in xs + ys <==> p in xs || p in ys;
  }

  lemma AttachmentConfigures(e: Attachment, chains: seq<string>, l: string)
    requires NoDuplicates(chains)
    ensures NoDuplicates(AddChains(chains, e))
    ensures l in AddChains(chains, e) <==> l in chains || Configures(AttachmentPatches(e), Https(e.gateway.name, l))
    ensures forall p :: p in AttachmentPatches(e) ==> !p.ListenerFilter? && (p.Coraza? && p.config.Https? ==> p.config.gateway == e.gateway.name)
  {
    var chain := Https(e.gateway.name, l);
    HttpsConfigures(e, e.gateway.listeners, chains, chain);
    if e.directives != [] {
      match e.listener {
        case None =>
          var http := [MetadataFor(e, Http80)] + [Coraza(Http80, SelectorFor(e), e.directives)];
          var https := HttpsPatches(e, e.gateway.listeners);
          assert AttachmentPatches(e) == http + https;
          ConfiguresConcat(http, https, chain);
          forall p | p in https && p.Coraza? && p.config.Https? ensures p.config.gateway == e.gateway.name {
            HttpsConfigures(e, e.gateway.listeners, chains, p.config);
          }
        case Some(name) =>
          HomeIsAListener(e.gateway.name, e.gateway.listeners, name);
          assert AttachmentPatches(e)[1] in AttachmentPatches(e);
      }
    }
  }

  lemma {:induction false} ChainsAreConfigured(es: seq<Attachment>, gateway: string, l: string)
    requires forall e :: e in es ==> e.gateway.name == gateway
    ensures NoDuplicates(Chains(es))
    ensures l in Chains(es) <==> Configures(GatewayPatches(es), Https(gateway, l))
    ensures forall p :: p in GatewayPatches(es) ==> !p.ListenerFilter? && (p.Coraza? && p.config.Https? ==> p.config.gateway == gateway)
  {
    if es != [] {
      var n := |es| - 1;
      assert es[n] in es;
      ChainsAreConfigured(es[..n], gateway, l);
      AttachmentConfigures(es[n], Chains(es[..n]), l);
      ConfiguresConcat(GatewayPatches(es[..n]), AttachmentPatches(es[n]), Https(gateway, l));
    }
  }

  lemma {:induction false} FilterCount(gateway: string, chains: seq<string>, chain: RouteConfig)
    requires NoDuplicates(chains) && chain.Https?
    ensures multiset(Filters(gateway, chains))[ListenerFilter(chain)] ==
      if chain.gateway == gateway && chain.listener in chains then 1 else 0
    ensures !Configures(Filters(gateway, chains), chain)
  {
    if chains != [] {
      var n := |chains| - 1;
      assert chains == chains[..n] + [chains[n]];
      FilterCount(gateway, chains[..n], chain);
      assert Filters(gateway, chains) == Filters(gateway, chains[..n]) + [ListenerFilter(Https(gateway, chains[n]))];
    }
  }

  lemma InsertionsConcat(xs: seq<Patch>, ys: seq<Patch>, chain: RouteConfig)
    requires forall p :: p in xs ==> !p.ListenerFilter?
    ensures Insertions(xs + ys, chain) == Insertions(ys, chain)
  {
    assert ListenerFilter(chain) !in xs && ListenerFilter(chain) !in multiset(xs);
    assert multiset(xs + ys) == multiset(xs) + multiset(ys);
  }

  lemma PolicyInsertions(es: seq<Attachment>, gateway: string, chain: RouteConfig)
    requires es != [] && chain.Https? && forall e :: e in es ==> e.gateway.name == gateway
    ensures chain.gateway != gateway ==> !Configures(PolicyPatches(es), chain)
    ensures Insertions(PolicyPatches(es), chain) == if Configures(PolicyPatches(es), chain) then 1 else 0
  {
    assert es[0] in es;
    ChainsAreConfigured(es, gateway, chain.listener);
    var cs := Sort(StringLess, Chains(es));
    PermutationHasNoDuplicates(Chains(es), cs);
    FilterCount(gateway, cs, chain);
    ConfiguresConcat(GatewayPatches(es), Filters(gateway, cs), chain);
    InsertionsConcat(GatewayPatches(es), Filters(gateway, cs), chain);
  }

  lemma {:induction false} TotalConcat(xs: seq<EnvoyPatchPolicy>, y: EnvoyPatchPolicy, chain: RouteConfig)
    ensures TotalInsertions(xs + [y], chain) == TotalInsertions(xs, chain) + Insertions(y.patches, chain)
  {
    assert (xs + [y])[..|xs|] == xs;
  }

  predicate ConfiguredBy(es: seq<EnvoyPatchPolicy>, chain: RouteConfig)
  {
    exists i, j :: 0 <= i < |es| && 0 <= j < |es[i].patches| && es[i].patches[j].Coraza? && es[i].patches[j].config == chain
  }

  /** The policy of one gateway key inserts once what it configures, and configures only its own gateway's chains. */
  lemma KeyInsertions(es: seq<Attachment>, ns: string, key: string, chain: RouteConfig)
    requires chain.Https? && ForGateway(es, key) != [] && forall e :: e in es ==> e.gateway.ns == ns && e.directives != []
    ensures var ps := PolicyPatches(ForGateway(es, key));
            && ps != [] && Insertions(ps, chain) == (if Configures(ps, chain) then 1 else 0)
            && (Configures(ps, chain) ==> key == ns + "/" + chain.gateway)
  {
    var mine := ForGateway(es, key);
    ForGatewayMembers(es, key);
    assert mine[0] in mine;
    var gateway := mine[0].gateway.name;
    forall e | e in mine ensures e.gateway.name == gateway {
      assert GatewayKey(e)[|ns| + 1..] == e.gateway.name && GatewayKey(mine[0])[|ns| + 1..] == gateway;
    }
    PatchesAreEmitted(mine);
    PolicyInsertions(mine, gateway, chain);
  }

  /** What the policies of some keys amount to, and what adding one more policy does to that. */
  predicate InsertOnce(es: seq<EnvoyPatchPolicy>, keys: seq<string>, own: string, chain: RouteConfig)
  {
    && (ConfiguredBy(es, chain) ==> own in keys)
    && TotalInsertions(es, chain) == if ConfiguredBy(es, chain) then 1 else 0
  }

  lemma InsertOnceSnoc(es: seq<EnvoyPatchPolicy>, keys: seq<string>, y: EnvoyPatchPolicy, key: string, own: string, chain: RouteConfig)
    requires InsertOnce(es, keys, own, chain) && key !in keys
    requires Insertions(y.patches, chain) == (if Configures(y.patches, chain) then 1 else 0) && (Configures(y.patches, chain) ==> key == own)
    ensures InsertOnce(es + [y], keys + [key], own, chain)
  {
    TotalConcat(es, y, chain);
    ConfiguredBySnoc(es, y, chain);
  }

  lemma {:induction false} PoliciesInsertOnce(es: seq<Attachment>, ns: string, keys: seq<string>, chain: RouteConfig)
    requires chain.Https? && NoDuplicates(keys)
    requires forall e :: e in es ==> e.gateway.ns == ns && e.directives != []
    ensures InsertOnce(PoliciesFor(es, keys), keys, ns + "/" + chain.gateway, chain)
  {
    if keys != [] {
      var n := |keys| - 1;
      var mine, rest := ForGateway(es, keys[n]), PoliciesFor(es, keys[..n]);
      assert keys == keys[..n] + [keys[n]] && keys[n] !in keys[..n];
      PoliciesInsertOnce(es, ns, keys[..n], chain);
      if mine == [] {
        assert rest + [] == rest;
      } else {
        KeyInsertions(es, ns, keys[n], chain);
        InsertOnceSnoc(rest, keys[..n], EnvoyPatchPolicy("tpp-" + mine[0].gateway.name, PolicyPatches(mine)), keys[n], ns + "/" + chain.gateway, chain);
      }
    }
  }

  lemma ConfiguredBySnoc(xs: seq<EnvoyPatchPolicy>, y: EnvoyPatchPolicy, chain: RouteConfig)
    ensures ConfiguredBy(xs + [y], chain) <==> ConfiguredBy(xs, chain) || Configures(y.patches, chain)
  {
    var all := xs + [y];
    if ConfiguredBy(all, chain) {
      var i, j :| 0 <= i < |all| && 0 <= j < |all[i].patches| && all[i].patches[j].Coraza? && all[i].patches[j].config == chain;
      if i < |xs| {
        assert xs[i].patches[j].Coraza?;
      } else {
        assert y.patches[j] in y.patches;
      }
    }
    if ConfiguredBy(xs, chain) {
      var i, j :| 0 <= i < |xs| && 0 <= j < |xs[i].patches| && xs[i].patches[j].Coraza? && xs[i].patches[j].config == chain;
      assert all[i].patches[j].Coraza?;
    }
    if p :| p in y.patches && p.Coraza? && p.config == chain {
      var j :| 0 <= j < |y.patches| && y.patches[j] == p;
      assert all[|xs|].patches[j].Coraza?;
    }
  }

  lemma {:induction false} GatewayKeysDistinct(es: seq<Attachment>)
    ensures NoDuplicates(GatewayKeys(es))
  {
    if es != [] {
      GatewayKeysDistinct(es[..|es| - 1]);
    }
  }

  /** A chain gets one listener filter when some emitted patch configures its routes, else none. */
  lemma OneFilterPerChain(w: World, base: seq<Directive>, ns: string, ps: seq<Policy>, chain: RouteConfig)
    requires InNamespace(w, ps, ns) && chain.Https?
    ensures var ds := DesiredPolicies(Collected(w, base, ps).attachments);
      TotalInsertions(ds, chain) == if ConfiguredBy(ds, chain) then 1 else 0
  {
    var es := Collected(w, base, ps).attachments;
    AttachmentsAreListed(w, base, AllAttempts(Contexts(ps)));
    forall e | e in es ensures e.gateway.ns == ns && e.directives != [] {
      var k :| k in w.gateways && w.gateways[k] == e.gateway;
    }
    var keys := Sort(StringLess, GatewayKeys(es));
    GatewayKeysDistinct(es);
    PermutationHasNoDuplicates(GatewayKeys(es), keys);
    PoliciesInsertOnce(es, ns, keys, chain);
  }
}
