/** The patch emitter of internal/controller/trafficprotectionpolicy_controller.go and the meaning of
    its output.

    The emitter turns the ordered attachments into JSON patches on Envoy's route tables. Replaying them
    is modelled cell by cell: `add` on an existing object member replaces it (section 4.1 of RFC 6902),
    so the last patch selecting a cell decides its directives. JSONPath selectors are modelled as
    predicates on cells and RouteConfiguration names as values.
 */
module TrafficProtectionPatches {
  import opened Ordering
  import opened TrafficProtection

  /** The RouteConfiguration shared by all HTTP listeners, or that of one HTTPS listener. */
  datatype RouteConfig = Http80 | Https(gateway: string, listener: string)

  datatype Selector = Selector(gateway: string, listener: Option<string>, route: Option<string>, rule: Option<string>)

  datatype Patch =
    | Coraza(config: RouteConfig, selector: Selector, directives: seq<Directive>)
    | Metadata(config: RouteConfig, selector: Selector, policy: Key, mode: Mode)
    | ListenerFilter(chain: RouteConfig)

  datatype EnvoyPatchPolicy = EnvoyPatchPolicy(name: string, patches: seq<Patch>)

  /** One Envoy route: where it lives and which Gateway API objects it was generated from. */
  datatype Cell = Cell(config: RouteConfig, gateway: string, section: string, route: string, rule: Option<string>)

  type Table = map<Cell, Option<seq<Directive>>>

  predicate SelectorMatches(s: Selector, c: Cell)
  {
    && s.gateway == c.gateway
    && (s.listener.None? || s.listener.value == c.section)
    && (s.route.None? || s.route.value == c.route)
    && (s.rule.None? || Some(s.rule.value) == c.rule)
  }

  function Apply(p: Patch, t: Table): (r: Table)
    ensures r.Keys == t.Keys
  {
    map c | c in t :: if p.Coraza? && p.config == c.config && SelectorMatches(p.selector, c) then Some(p.directives) else t[c]
  }

  function Replay(patches: seq<Patch>, t: Table): (r: Table)
    ensures r.Keys == t.Keys
  {
    if patches == [] then t
    else Apply(patches[|patches| - 1], Replay(patches[..|patches| - 1], t))
  }

  function ReplayPolicies(policies: seq<EnvoyPatchPolicy>, t: Table): (r: Table)
    ensures r.Keys == t.Keys
  {
    if policies == [] then t
    else Replay(policies[|policies| - 1].patches, ReplayPolicies(policies[..|policies| - 1], t))
  }

  // ----- Emission -----

  /** The RouteConfiguration of the first listener called `section`; HTTP's when there is none. */
  function Home(g: Gateway, section: string): RouteConfig
  {
    HomeAmong(g.name, g.listeners, section)
  }

  function HomeAmong(gateway: string, ls: seq<Listener>, section: string): RouteConfig
  {
    if ls == [] then Http80
    else if ls[0].name == section then (if ls[0].protocol.HTTPS? then Https(gateway, section) else Http80)
    else HomeAmong(gateway, ls[1..], section)
  }

  function SelectorFor(e: Attachment): Selector
  {
    Selector(e.gateway.name, e.listener,
             if e.route.Some? then Some(e.route.value.name) else None,
             if e.route.Some? then e.rule else None)
  }

  function MetadataFor(e: Attachment, config: RouteConfig): Patch
  {
    Metadata(config, SelectorFor(e), KeyOf(e.policy), e.policy.mode)
  }

  function HttpsPatches(e: Attachment, ls: seq<Listener>): seq<Patch>
  {
    if ls == [] then []
    else
      var n := |ls| - 1;
      var config := Https(e.gateway.name, ls[n].name);
      HttpsPatches(e, ls[..n])
      + if ls[n].protocol.HTTPS? then [MetadataFor(e, config), Coraza(config, SelectorFor(e), e.directives)] else []
  }

  function AttachmentPatches(e: Attachment): seq<Patch>
  {
    if e.directives == [] then []
    else
      [MetadataFor(e, Http80)]
      + if e.listener.None?
        then [Coraza(Http80, SelectorFor(e), e.directives)] + HttpsPatches(e, e.gateway.listeners)
        else [Coraza(Home(e.gateway, e.listener.value), SelectorFor(e), e.directives)]
  }

  function GatewayPatches(es: seq<Attachment>): seq<Patch>
  {
    if es == [] then [] else GatewayPatches(es[..|es| - 1]) + AttachmentPatches(es[|es| - 1])
  }

  /** Set insertion, the set kept as a list without duplicates. */
  function AddChain(chains: seq<string>, listener: string): seq<string>
  {
    if listener in chains then chains else chains + [listener]
  }

  function AddHttpsChains(chains: seq<string>, ls: seq<Listener>): seq<string>
  {
    if ls == [] then chains
    else
      var n := |ls| - 1;
      var cs := AddHttpsChains(chains, ls[..n]);
      if ls[n].protocol.HTTPS? then AddChain(cs, ls[n].name) else cs
  }

  function AddChains(chains: seq<string>, e: Attachment): seq<string>
  {
    if e.directives == [] then chains
    else match e.listener
      case None => AddHttpsChains(chains, e.gateway.listeners)
      case Some(l) => if Home(e.gateway, l).Https? then AddChain(chains, l) else chains
  }

  /** The HTTPS filter chains (listener names) that received a route configuration. */
  function Chains(es: seq<Attachment>): seq<string>
  {
    if es == [] then [] else AddChains(Chains(es[..|es| - 1]), es[|es| - 1])
  }

  function Filters(gateway: string, chains: seq<string>): seq<Patch>
  {
    seq(|chains|, i requires 0 <= i < |chains| => ListenerFilter(Https(gateway, chains[i])))
  }

  function PolicyPatches(es: seq<Attachment>): seq<Patch>
    requires es != []
  {
    GatewayPatches(es) + Filters(es[0].gateway.name, Sort(StringLess, Chains(es)))
  }

  function GatewayKey(e: Attachment): string { e.gateway.ns + "/" + e.gateway.name }

  function GatewayKeys(es: seq<Attachment>): seq<string>
  {
    if es == [] then []
    else
      var n := |es| - 1;
      var ks := GatewayKeys(es[..n]);
      if GatewayKey(es[n]) in ks then ks else ks + [GatewayKey(es[n])]
  }

  function ForGateway(es: seq<Attachment>, key: string): seq<Attachment>
  {
    if es == [] then []
    else
      var n := |es| - 1;
      ForGateway(es[..n], key) + if GatewayKey(es[n]) == key then [es[n]] else []
  }

  function PoliciesFor(es: seq<Attachment>, keys: seq<string>): seq<EnvoyPatchPolicy>
  {
    if keys == [] then []
    else
      var n := |keys| - 1;
      PoliciesFor(es, keys[..n]) + GroupPolicy(ForGateway(es, keys[n]))
  }

  /** The policy of one gateway's attachments; none when there is nothing to patch. */
  function GroupPolicy(mine: seq<Attachment>): seq<EnvoyPatchPolicy>
  {
    if mine == [] || PolicyPatches(mine) == [] then []
    else [EnvoyPatchPolicy("tpp-" + mine[0].gateway.name, PolicyPatches(mine))]
  }

  function DesiredPolicies(es: seq<Attachment>): seq<EnvoyPatchPolicy>
  {
    PoliciesFor(es, Sort(StringLess, GatewayKeys(es)))
  }

  /** The loop over one gateway's attachments. */
  method BuildPatches(es: seq<Attachment>) returns (patches: seq<Patch>)
    requires es != []
    ensures patches == PolicyPatches(es)
  {
    patches := [];
    var chains: seq<string> := [];
    for i := 0 to |es|
      invariant patches == GatewayPatches(es[..i]) && chains == Chains(es[..i])
    {
      assert es[..i + 1][..i] == es[..i];
      var e := es[i];
      if e.directives != [] {
        if e.listener.None? {
          var https, cs := BuildHttpsPatches(e, chains);
          patches := patches + ([MetadataFor(e, Http80)] + ([Coraza(Http80, SelectorFor(e), e.directives)] + https));
          chains := cs;
        } else {
          var config := Home(e.gateway, e.listener.value);
          patches := patches + ([MetadataFor(e, Http80)] + [Coraza(config, SelectorFor(e), e.directives)]);
          if config.Https? {
            chains := AddChain(chains, e.listener.value);
          }
        }
      } else {
        assert patches + [] == patches;
      }
    }
    assert es[..|es|] == es;
    patches := patches + Filters(es[0].gateway.name, Sort(StringLess, chains));
  }

  /** The loop over the HTTPS listeners for an attachment that names no listener. */
  method BuildHttpsPatches(e: Attachment, chains: seq<string>) returns (patches: seq<Patch>, cs: seq<string>)
    ensures patches == HttpsPatches(e, e.gateway.listeners)
    ensures cs == AddHttpsChains(chains, e.gateway.listeners)
  {
    patches, cs := [], chains;
    var ls := e.gateway.listeners;
    for i := 0 to |ls|
      invariant patches == HttpsPatches(e, ls[..i]) && cs == AddHttpsChains(chains, ls[..i])
    {
      assert ls[..i + 1][..i] == ls[..i];
      if ls[i].protocol.HTTPS? {
        var config := Https(e.gateway.name, ls[i].name);
        patches := patches + [MetadataFor(e, config), Coraza(config, SelectorFor(e), e.directives)];
        cs := AddChain(cs, ls[i].name);
      } else {
        assert patches + [] == patches;
      }
    }
    assert ls[..|ls|] == ls;
  }

  lemma ForGatewaySnoc(es: seq<Attachment>, e: Attachment, key: string)
    ensures ForGateway(es + [e], key) == ForGateway(es, key) + if GatewayKey(e) == key then [e] else []
  {
    assert (es + [e])[..|es|] == es;
  }

  /** The map holds the groups of `es`, under its keys. */
  ghost predicate Groups(byGateway: map<string, seq<Attachment>>, keys: seq<string>, es: seq<Attachment>)
  {
    && keys == GatewayKeys(es)
    && (forall k :: k in byGateway <==> k in keys)
    && (forall k :: HoldsGroup(byGateway, es, k))
  }

  ghost predicate HoldsGroup(byGateway: map<string, seq<Attachment>>, es: seq<Attachment>, k: string)
  {
    ForGateway(es, k) == if k in byGateway then byGateway[k] else []
  }

  lemma HoldsGroupSnoc(byGateway: map<string, seq<Attachment>>, es: seq<Attachment>, e: Attachment, k: string)
    requires HoldsGroup(byGateway, es, k)
    ensures var key := GatewayKey(e);
            HoldsGroup(byGateway[key := (if key in byGateway then byGateway[key] else []) + [e]], es + [e], k)
  {
    ForGatewaySnoc(es, e, k);
    assert ForGateway(es, k) + [] == ForGateway(es, k);
  }

  lemma GroupsSnoc(byGateway: map<string, seq<Attachment>>, keys: seq<string>, es: seq<Attachment>, e: Attachment)
    requires Groups(byGateway, keys, es)
    ensures var key := GatewayKey(e);
            var group := (if key in byGateway then byGateway[key] else []) + [e];
            Groups(byGateway[key := group], if key in byGateway then keys else keys + [key], es + [e])
  {
    assert (es + [e])[..|es|] == es;
    var key := GatewayKey(e);
    var next := byGateway[key := (if key in byGateway then byGateway[key] else []) + [e]];
    forall k ensures HoldsGroup(next, es + [e], k) {
      HoldsGroupSnoc(byGateway, es, e, k);
    }
  }

  /** The first loop: attachments grouped by gateway key, keys in order of first appearance. */
  method GroupByGateway(es: seq<Attachment>) returns (byGateway: map<string, seq<Attachment>>, keys: seq<string>)
    ensures Groups(byGateway, keys, es)
  {
    byGateway, keys := map[], [];
    for i := 0 to |es|
      invariant Groups(byGateway, keys, es[..i])
    {
      assert es[..i + 1] == es[..i] + [es[i]];
      GroupsSnoc(byGateway, keys, es[..i], es[i]);
      var key := GatewayKey(es[i]);
      if key !in byGateway {
        keys := keys + [key];
      }
      byGateway := byGateway[key := (if key in byGateway then byGateway[key] else []) + [es[i]]];
    }
    assert es[..|es|] == es;
  }

  method GetDesiredEnvoyPatchPolicies(es: seq<Attachment>) returns (policies: seq<EnvoyPatchPolicy>)
    ensures policies == DesiredPolicies(es)
  {
    var byGateway, keys := GroupByGateway(es);
    keys := Sort(StringLess, keys);
    policies := BuildPolicies(byGateway, keys, es);
  }

  lemma PoliciesForSnoc(es: seq<Attachment>, keys: seq<string>, key: string)
    ensures PoliciesFor(es, keys + [key]) == PoliciesFor(es, keys) + GroupPolicy(ForGateway(es, key))
  {
    assert (keys + [key])[..|keys|] == keys;
  }

  method BuildPolicies(byGateway: map<string, seq<Attachment>>, keys: seq<string>, ghost es: seq<Attachment>) returns (policies: seq<EnvoyPatchPolicy>)
    requires (forall k :: HoldsGroup(byGateway, es, k)) && forall k :: k in keys ==> k in byGateway
    ensures policies == PoliciesFor(es, keys)
  {
    policies := [];
    for i := 0 to |keys|
      invariant policies == PoliciesFor(es, keys[..i])
    {
      assert keys[..i + 1] == keys[..i] + [keys[i]];
      PoliciesForSnoc(es, keys[..i], keys[i]);
      assert HoldsGroup(byGateway, es, keys[i]);
      var emitted := BuildPolicy(byGateway[keys[i]]);
      policies := policies + emitted;
    }
    assert keys[..|keys|] == keys;
  }

  method BuildPolicy(mine: seq<Attachment>) returns (policy: seq<EnvoyPatchPolicy>)
    ensures policy == GroupPolicy(mine)
  {
    if mine == [] {
      return [];
    }
    var patches := BuildPatches(mine);
    if patches == [] {
      return [];
    }
    policy := [EnvoyPatchPolicy("tpp-" + mine[0].gateway.name, patches)];
  }

  /** The part of a namespace reconcile that turns listed objects into the policies to apply. */
  method ReconcilePolicies(base: seq<Directive>, policies: seq<Policy>, gateways: seq<Gateway>, routes: seq<Route>)
    returns (desired: seq<EnvoyPatchPolicy>, reports: seq<Report>)
    requires DistinctKeys(policies)
    ensures desired == DesiredPolicies(Collected(WorldOf(gateways, routes), base, policies).attachments)
    ensures reports == Collected(WorldOf(gateways, routes), base, policies).reports
  {
    var contexts := GetTrafficProtectionPolicyContexts(policies);
    var collector := new Collector(base, gateways, routes);
    collector.Collect(contexts, WorldOf(gateways, routes));
    desired := GetDesiredEnvoyPatchPolicies(collector.attachments);
    reports := collector.reports;
  }
}
