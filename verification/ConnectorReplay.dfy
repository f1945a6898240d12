/** What Envoy's clusters, domains and first-match route tables are after the connector patches.

    A patch is applied as sections 4.1 and 4.3 of RFC 6902 say: `add` at index 0 of an array inserts
    before the first element, `add` at `-` appends, `replace` overwrites an existing object. A patch
    whose target is missing has no effect. The patterns of the routes that were there before are a
    parameter; the CONNECT matcher is taken to accept every CONNECT request.
 */
module ConnectorReplay {
  import opened Ordering
  import opened ConnectorRouting

  datatype Cluster = Original(id: nat) | Tunneled(tunnel: Tunnel)
  datatype VirtualHost = VirtualHost(domains: seq<string>, routes: seq<Route>)
  datatype Xds = Xds(clusters: map<string, Cluster>, configs: map<string, seq<VirtualHost>>)

  function Apply(x: Xds, p: Patch): Xds
  {
    match p
    case ReplaceCluster(name, t) => if name in x.clusters then x.(clusters := x.clusters[name := Tunneled(t)]) else x
    case AddDomain(c, d) =>
      if c in x.configs && x.configs[c] != [] then
        var h := x.configs[c][0];
        x.(configs := x.configs[c := [h.(domains := h.domains + [d])] + x.configs[c][1..]])
      else x
    case InsertRoute(c, r) =>
      if c in x.configs && x.configs[c] != [] then
        var h := x.configs[c][0];
        x.(configs := x.configs[c := [h.(routes := [r] + h.routes)] + x.configs[c][1..]])
      else x
  }

  function Replay(x: Xds, ps: seq<Patch>): Xds
  {
    if ps == [] then x else Apply(Replay(x, ps[..|ps| - 1]), ps[|ps| - 1])
  }

  // ----- What a list of patches does to one configuration and to one cluster -----

  function Prepended(ps: seq<Patch>, c: string): seq<Route>
  {
    if ps == [] then []
    else
      var before := Prepended(ps[..|ps| - 1], c);
      var p := ps[|ps| - 1];
      if p.InsertRoute? && p.config == c then [p.route] + before else before
  }

  function Appended(ps: seq<Patch>, c: string): seq<string>
  {
    if ps == [] then []
    else
      var before := Appended(ps[..|ps| - 1], c);
      var p := ps[|ps| - 1];
      if p.AddDomain? && p.config == c then before + [p.domain] else before
  }

  function LastTunnel(ps: seq<Patch>, name: string): Option<Tunnel>
  {
    if ps == [] then None
    else
      var p := ps[|ps| - 1];
      if p.ReplaceCluster? && p.cluster == name then Some(p.tunnel) else LastTunnel(ps[..|ps| - 1], name)
  }

  function Patched(h: VirtualHost, ps: seq<Patch>, c: string): VirtualHost
  {
    VirtualHost(h.domains + Appended(ps, c), Prepended(ps, c) + h.routes)
  }

  lemma {:induction false} ReplayConfig(x: Xds, ps: seq<Patch>, c: string)
    requires c in x.configs
    ensures Replay(x, ps).configs.Keys == x.configs.Keys
    ensures x.configs[c] == [] ==> Replay(x, ps).configs[c] == []
    ensures x.configs[c] != [] ==> Replay(x, ps).configs[c] == [Patched(x.configs[c][0], ps, c)] + x.configs[c][1..]
  {
    var hs := x.configs[c];
    if ps == [] {
      if hs != [] {
        assert hs[0].domains + [] == hs[0].domains && [] + hs[0].routes == hs[0].routes;
        assert Patched(hs[0], ps, c) == hs[0] && hs == [hs[0]] + hs[1..];
      }
    } else {
      var init, p := ps[..|ps| - 1], ps[|ps| - 1];
      ReplayConfig(x, init, c);
      if hs != [] {
        var before := Patched(hs[0], init, c);
        assert ([before] + hs[1..])[1..] == hs[1..];
        if p.AddDomain? && p.config == c {
          assert before.domains + [p.domain] == hs[0].domains + Appended(ps, c);
        } else if p.InsertRoute? && p.config == c {
          assert [p.route] + before.routes == Prepended(ps, c) + hs[0].routes;
        }
      }
    }
  }

  lemma {:induction false} ReplayCluster(x: Xds, ps: seq<Patch>, name: string)
    ensures Replay(x, ps).clusters.Keys == x.clusters.Keys
    ensures name in x.clusters ==>
      Replay(x, ps).clusters[name] == if LastTunnel(ps, name).Some? then Tunneled(LastTunnel(ps, name).value) else x.clusters[name]
  {
    if ps != [] { ReplayCluster(x, ps[..|ps| - 1], name); }
  }

  lemma {:induction false} PrependedAppend(ps: seq<Patch>, qs: seq<Patch>, c: string)
    ensures Prepended(ps + qs, c) == Prepended(qs, c) + Prepended(ps, c)
  {
    if qs == [] {
      assert ps + qs == ps;
    } else {
      assert (ps + qs)[..|ps + qs| - 1] == ps + qs[..|qs| - 1];
      PrependedAppend(ps, qs[..|qs| - 1], c);
    }
  }

  lemma {:induction false} AppendedAppend(ps: seq<Patch>, qs: seq<Patch>, c: string)
    ensures Appended(ps + qs, c) == Appended(ps, c) + Appended(qs, c)
  {
    if qs == [] {
      assert ps + qs == ps;
    } else {
      assert (ps + qs)[..|ps + qs| - 1] == ps + qs[..|qs| - 1];
      AppendedAppend(ps, qs[..|qs| - 1], c);
    }
  }

  lemma {:induction false} LastTunnelAppend(ps: seq<Patch>, qs: seq<Patch>, name: string)
    ensures LastTunnel(ps + qs, name) == if LastTunnel(qs, name).Some? then LastTunnel(qs, name) else LastTunnel(ps, name)
  {
    if qs == [] {
      assert ps + qs == ps;
    } else {
      assert (ps + qs)[..|ps + qs| - 1] == ps + qs[..|qs| - 1];
      LastTunnelAppend(ps, qs[..|qs| - 1], name);
    }
  }

  lemma {:induction false} NoEffect(ps: seq<Patch>, c: string)
    ensures (forall p :: p in ps ==> !p.InsertRoute?) ==> Prepended(ps, c) == []
    ensures (forall p :: p in ps ==> !p.AddDomain?) ==> Appended(ps, c) == []
    ensures (forall p :: p in ps ==> !p.ReplaceCluster?) ==> LastTunnel(ps, c) == None
  {
    if ps != [] { NoEffect(ps[..|ps| - 1], c); }
  }

  // ----- The three groups -----

  lemma {:induction false} DomainPatchesKind(host: string, configs: seq<string>, before: seq<Patch>)
    requires forall p :: p in before ==> p.AddDomain?
    ensures forall p :: p in DomainPatches(host, configs, before) ==> p.AddDomain?
  {
    if configs != [] { DomainPatchesKind(host, configs[..|configs| - 1], before); }
  }

  lemma {:induction false} AllDomainPatchesKind(ns: string, g: Gateway, eligible: set<string>, backends: seq<BackendPatch>)
    ensures forall p :: p in AllDomainPatches(ns, g, eligible, backends) ==> p.AddDomain?
  {
    if backends != [] {
      AllDomainPatchesKind(ns, g, eligible, backends[..|backends| - 1]);
      var b := backends[|backends| - 1];
      DomainPatchesKind(b.host, NamesFor(ns, g, b.section, eligible), AllDomainPatches(ns, g, eligible, backends[..|backends| - 1]));
    }
  }

  lemma {:induction false} RoutePatchesKind(ns: string, g: Gateway, eligible: set<string>, routes: seq<ConnectRoute>)
    ensures forall p :: p in RoutePatches(ns, g, eligible, routes) ==> p.InsertRoute?
  {
    if routes != [] { RoutePatchesKind(ns, g, eligible, routes[..|routes| - 1]); }
  }

  /** Of three groups of patches, each of one kind, each acts alone on its kind of target. */
  lemma OnlyRoutesPrepend(clusters: seq<Patch>, domains: seq<Patch>, routes: seq<Patch>, c: string)
    requires (forall p :: p in clusters ==> p.ReplaceCluster?) && (forall p :: p in domains ==> p.AddDomain?)
    ensures Prepended(clusters + domains + routes, c) == Prepended(routes, c)
  {
    PrependedAppend(clusters, domains, c);
    PrependedAppend(clusters + domains, routes, c);
    NoEffect(clusters, c);
    NoEffect(domains, c);
  }

  lemma OnlyDomainsAppend(clusters: seq<Patch>, domains: seq<Patch>, routes: seq<Patch>, c: string)
    requires (forall p :: p in clusters ==> p.ReplaceCluster?) && (forall p :: p in routes ==> p.InsertRoute?)
    ensures Appended(clusters + domains + routes, c) == Appended(domains, c)
  {
    AppendedAppend(clusters, domains, c);
    AppendedAppend(clusters + domains, routes, c);
    NoEffect(clusters, c);
    NoEffect(routes, c);
  }

  lemma OnlyClustersReplace(clusters: seq<Patch>, domains: seq<Patch>, routes: seq<Patch>, name: string)
    requires (forall p :: p in domains ==> p.AddDomain?) && (forall p :: p in routes ==> p.InsertRoute?)
    ensures LastTunnel(clusters + domains + routes, name) == LastTunnel(clusters, name)
  {
    LastTunnelAppend(clusters, domains, name);
    LastTunnelAppend(clusters + domains, routes, name);
    NoEffect(domains, name);
    NoEffect(routes, name);
  }

  /** Each group only acts on its own kind of target. */
  lemma GroupsAreSeparate(ns: string, listener: string, g: Gateway, proxy: HTTPProxy, backends: seq<BackendPatch>, eligible: set<string>, c: string)
    ensures var ps := Patches(ns, listener, g, proxy, backends, eligible);
            && Prepended(ps, c) == Prepended(RoutePatches(ns, g, eligible, ConnectRoutes(ns, proxy, backends)), c)
            && Appended(ps, c) == Appended(AllDomainPatches(ns, g, eligible, backends), c)
            && LastTunnel(ps, c) == LastTunnel(ClusterPatches(ns, listener, proxy.name, backends), c)
  {
    var clusters, domains := ClusterPatches(ns, listener, proxy.name, backends), AllDomainPatches(ns, g, eligible, backends);
    var crs := ConnectRoutes(ns, proxy, backends);
    AllDomainPatchesKind(ns, g, eligible, backends);
    RoutePatchesKind(ns, g, eligible, crs);
    OnlyRoutesPrepend(clusters, domains, RoutePatches(ns, g, eligible, crs), c);
    OnlyDomainsAppend(clusters, domains, RoutePatches(ns, g, eligible, crs), c);
    OnlyClustersReplace(clusters, domains, RoutePatches(ns, g, eligible, crs), c);
  }

  // ----- Routes -----

  function Reverse<T>(s: seq<T>): seq<T>
  {
    seq(|s|, i requires 0 <= i < |s| => s[|s| - 1 - i])
  }

  lemma ReverseAppend(s: seq<Route>, r: Route)
    ensures Reverse(s + [r]) == [r] + Reverse(s)
  {
  }

  /** The emitted CONNECT routes that go to one configuration, in the order they are emitted. */
  function RoutesAt(ns: string, g: Gateway, eligible: set<string>, routes: seq<ConnectRoute>, c: string): seq<Route>
  {
    if routes == [] then []
    else
      var before := RoutesAt(ns, g, eligible, routes[..|routes| - 1], c);
      var cr := routes[|routes| - 1];
      if c in NamesFor(ns, g, cr.section, eligible) then before + [cr.route] else before
  }

  lemma {:induction false} InsertsAtOnce(configs: seq<string>, route: Route, c: string)
    requires NoDuplicates(configs)
    ensures Prepended(Inserts(configs, route), c) == if c in configs then [route] else []
  {
    if configs != [] {
      var init := configs[..|configs| - 1];
      assert Inserts(configs, route)[..|configs| - 1] == Inserts(init, route);
      assert configs == init + [configs[|configs| - 1]];
      InsertsAtOnce(init, route, c);
    }
  }

  lemma NamesForDistinct(ns: string, g: Gateway, section: Option<string>, eligible: set<string>)
    ensures NoDuplicates(NamesFor(ns, g, section, eligible))
  {
    AllNamesAre(ns, g, eligible, |g.listeners|);
  }

  lemma {:induction false} RoutesAreReversed(ns: string, g: Gateway, eligible: set<string>, routes: seq<ConnectRoute>, c: string)
    ensures Prepended(RoutePatches(ns, g, eligible, routes), c) == Reverse(RoutesAt(ns, g, eligible, routes, c))
  {
    if routes != [] {
      var init, cr := routes[..|routes| - 1], routes[|routes| - 1];
      RoutesAreReversed(ns, g, eligible, init, c);
      var configs := NamesFor(ns, g, cr.section, eligible);
      NamesForDistinct(ns, g, cr.section, eligible);
      PrependedAppend(RoutePatches(ns, g, eligible, init), Inserts(configs, cr.route), c);
      InsertsAtOnce(configs, cr.route, c);
      var before := RoutesAt(ns, g, eligible, init, c);
      ReverseAppend(before, cr.route);
      assert [] + Reverse(before) == Reverse(before);
    }
  }

  datatype Request = Request(method_: string, path: string)

  predicate Accepts(given: (nat, Request) -> bool, m: RouteMatch, q: Request)
  {
    match m
    case ConnectMatcher => q.method_ == "CONNECT"
    case ConnectPath(exact, path) => q.method_ == "CONNECT" && (if exact then q.path == path else path <= q.path)
    case Given(id) => given(id, q)
  }

  function FirstMatch(given: (nat, Request) -> bool, routes: seq<Route>, q: Request): Option<Route>
  {
    if routes == [] then None
    else if Accepts(given, routes[0].pattern, q) then Some(routes[0])
    else FirstMatch(given, routes[1..], q)
  }

  lemma {:induction false} SkipUnmatched(given: (nat, Request) -> bool, before: seq<Route>, after: seq<Route>, q: Request)
    requires forall r :: r in before ==> !Accepts(given, r.pattern, q)
    ensures FirstMatch(given, before + after, q) == FirstMatch(given, after, q)
  {
    if before == [] {
      assert before + after == after;
    } else {
      assert (before + after)[1..] == before[1..] + after;
      SkipUnmatched(given, before[1..], after, q);
    }
  }

  lemma {:induction false} PathRoutesMatchConnect(ns: string, name: string, section: Option<string>, rule: nat, ms: seq<Match>)
    ensures forall cr :: cr in PathRoutes(ns, name, section, rule, ms) ==> cr.route.pattern.ConnectPath? && cr.section == section
  {
    if ms != [] { PathRoutesMatchConnect(ns, name, section, rule, ms[..|ms| - 1]); }
  }

  lemma {:induction false} AllPathRoutesMatchConnect(ns: string, name: string, backends: seq<BackendPatch>, rules: seq<Rule>)
    ensures forall cr :: cr in AllPathRoutes(ns, name, backends, rules) ==> cr.route.pattern.ConnectPath?
  {
    if rules != [] {
      var i := |rules| - 1;
      AllPathRoutesMatchConnect(ns, name, backends, rules[..i]);
      var first := FirstFor(backends, i);
      if first.Some? { PathRoutesMatchConnect(ns, name, first.value.section, i, rules[i].matches); }
    }
  }

  lemma {:induction false} RoutesAtAreEmitted(ns: string, g: Gateway, eligible: set<string>, routes: seq<ConnectRoute>, c: string)
    ensures forall r :: r in RoutesAt(ns, g, eligible, routes, c) ==> exists cr :: cr in routes && cr.route == r
  {
    if routes != [] {
      RoutesAtAreEmitted(ns, g, eligible, routes[..|routes| - 1], c);
      assert routes[|routes| - 1] in routes;
    }
  }

  lemma ConnectRoutesMatchConnect(ns: string, g: Gateway, proxy: HTTPProxy, backends: seq<BackendPatch>, eligible: set<string>, c: string)
    ensures forall r :: r in Reverse(RoutesAt(ns, g, eligible, ConnectRoutes(ns, proxy, backends), c)) ==> !r.pattern.Given?
  {
    AllPathRoutesMatchConnect(ns, proxy.name, backends, proxy.rules);
    var crs := ConnectRoutes(ns, proxy, backends);
    RoutesAtAreEmitted(ns, g, eligible, crs, c);
    assert forall cr :: cr in crs ==> !cr.route.pattern.Given?;
    var rs := RoutesAt(ns, g, eligible, crs, c);
    forall r | r in Reverse(rs) ensures r in rs {
      var i :| 0 <= i < |rs| && Reverse(rs)[i] == r;
      assert r == rs[|rs| - 1 - i];
    }
  }

  /** The first virtual host of a configuration after the patches; the other virtual hosts are untouched. */
  lemma TableAfterPatches(x: Xds, ns: string, listener: string, g: Gateway, proxy: HTTPProxy, backends: seq<BackendPatch>, eligible: set<string>, c: string)
    requires c in x.configs && x.configs[c] != []
    ensures var hosts := Replay(x, Patches(ns, listener, g, proxy, backends, eligible)).configs;
            && hosts.Keys == x.configs.Keys && hosts[c] != [] && hosts[c][1..] == x.configs[c][1..]
            && hosts[c][0].routes == Reverse(RoutesAt(ns, g, eligible, ConnectRoutes(ns, proxy, backends), c)) + x.configs[c][0].routes
            && hosts[c][0].domains == x.configs[c][0].domains + Appended(AllDomainPatches(ns, g, eligible, backends), c)
  {
    ReplayConfig(x, Patches(ns, listener, g, proxy, backends, eligible), c);
    GroupsAreSeparate(ns, listener, g, proxy, backends, eligible, c);
    RoutesAreReversed(ns, g, eligible, ConnectRoutes(ns, proxy, backends), c);
  }

  /** Nothing but CONNECT requests can notice the inserted routes. */
  lemma OtherRequestsUnchanged(x: Xds, ns: string, listener: string, g: Gateway, proxy: HTTPProxy, backends: seq<BackendPatch>, eligible: set<string>,
                               c: string, given: (nat, Request) -> bool, q: Request)
    requires c in x.configs && x.configs[c] != [] && q.method_ != "CONNECT"
    ensures var hosts := Replay(x, Patches(ns, listener, g, proxy, backends, eligible)).configs;
            && c in hosts && hosts[c] != []
            && FirstMatch(given, hosts[c][0].routes, q) == FirstMatch(given, x.configs[c][0].routes, q)
  {
    TableAfterPatches(x, ns, listener, g, proxy, backends, eligible, c);
    ConnectRoutesMatchConnect(ns, g, proxy, backends, eligible, c);
    SkipUnmatched(given, Reverse(RoutesAt(ns, g, eligible, ConnectRoutes(ns, proxy, backends), c)), x.configs[c][0].routes, q);
  }

  /** The fallback is emitted last, so it ends up first and takes every CONNECT request,
      also those a path-aware CONNECT route was emitted for. */
  lemma ConnectGoesToFallback(x: Xds, ns: string, listener: string, g: Gateway, proxy: HTTPProxy, backends: seq<BackendPatch>, eligible: set<string>,
                              c: string, given: (nat, Request) -> bool, q: Request)
    requires backends != [] && c in x.configs && x.configs[c] != [] && q.method_ == "CONNECT"
    requires c in NamesFor(ns, g, FallbackRoute(ns, proxy.name, backends, proxy.rules).section, eligible)
    ensures var hosts := Replay(x, Patches(ns, listener, g, proxy, backends, eligible)).configs;
            && c in hosts && hosts[c] != []
            && FirstMatch(given, hosts[c][0].routes, q) == Some(FallbackRoute(ns, proxy.name, backends, proxy.rules).route)
  {
    TableAfterPatches(x, ns, listener, g, proxy, backends, eligible, c);
    var crs := ConnectRoutes(ns, proxy, backends);
    assert crs[..|crs| - 1] == AllPathRoutes(ns, proxy.name, backends, proxy.rules);
    var rs := RoutesAt(ns, g, eligible, crs, c);
    assert rs[|rs| - 1] == FallbackRoute(ns, proxy.name, backends, proxy.rules).route;
    assert (Reverse(rs) + x.configs[c][0].routes)[0] == rs[|rs| - 1];
  }

  /** The rule matches CONNECT at the root path, spelled empty or as a slash. */
  predicate MatchesRoot(r: Rule)
  {
    exists m :: m in r.matches && m.method_ == Some("CONNECT") && m.path.Some? && m.path.value.value in [Some(""), Some("/")]
  }

  ghost predicate RootRule(backends: seq<BackendPatch>, rules: seq<Rule>, i: nat)
    requires i < |rules|
  {
    HasEntry(backends, i) && MatchesRoot(rules[i])
  }

  lemma {:induction false} FirstForSome(backends: seq<BackendPatch>, rule: nat)
    ensures FirstFor(backends, rule).Some? <==> HasEntry(backends, rule)
  {
    if backends != [] {
      FirstForSome(backends[..|backends| - 1], rule);
      assert backends == backends[..|backends| - 1] + [backends[|backends| - 1]];
    }
  }

  lemma RootsAre(r: Rule)
    ensures MatchesRoot(r) <==> exists m :: m in r.matches && IsRoot(m)
  {
    if m :| m in r.matches && IsRoot(m) { assert m.path.value.value in [Some(""), Some("/")]; }
    if m :| m in r.matches && m.method_ == Some("CONNECT") && m.path.Some? && m.path.value.value in [Some(""), Some("/")] { assert IsRoot(m); }
  }

  /** Which rule the fallback is: the last rule with a ready backend that matches CONNECT at the root, or the
      first backend's. */
  lemma {:induction false} FallbackIs(backends: seq<BackendPatch>, rules: seq<Rule>)
    requires backends != []
    ensures var f := FallbackRule(backends, rules);
            || (f < |rules| && RootRule(backends, rules, f) && forall i: nat :: f < i < |rules| ==> !RootRule(backends, rules, i))
            || (f == backends[0].rule && forall i: nat :: i < |rules| ==> !RootRule(backends, rules, i))
  {
    if rules != [] {
      var n := |rules| - 1;
      var init := rules[..n];
      FallbackIs(backends, init);
      FirstForSome(backends, n);
      RootsAre(rules[n]);
      assert forall i: nat :: i < |init| ==> RootRule(backends, init, i) == RootRule(backends, rules, i);
    }
  }

  /** The route configuration of an eligible HTTPS listener. */
  ghost predicate PatchableConfig(ns: string, g: Gateway, eligible: set<string>, c: string)
  {
    exists l :: l in g.listeners && l.https && l.name in eligible && c == ns + "/" + g.name + "/" + l.name
  }

  lemma NamesArePatchable(ns: string, g: Gateway, eligible: set<string>, c: string)
    ensures c in AllNames(ns, g, eligible, |g.listeners|) <==> PatchableConfig(ns, g, eligible, c)
  {
    AllNamesAre(ns, g, eligible, |g.listeners|);
    if l :| l in g.listeners && l.https && l.name in eligible && c == ns + "/" + g.name + "/" + l.name {
      var i :| 0 <= i < |g.listeners| && g.listeners[i] == l;
      assert Patchable(g, eligible, i) && c == ConfigName(ns, g, g.listeners[i].name);
    }
  }

  /** The route a CONNECT match with a path of its own asks for. */
  predicate PathRouteFor(ns: string, name: string, section: Option<string>, rule: nat, m: Match, cr: ConnectRoute)
  {
    && m.method_ == Some("CONNECT") && m.path.Some? && m.path.value.value.Some?
    && m.path.value.value.value !in ["", "/"] && m.path.value.kind != Some(RegularExpression)
    && cr.section == section && cr.route.name == "connector-connect-" + name + "-rule-" + Decimal(rule)
    && cr.route.pattern == ConnectPath(m.path.value.kind == Some(Exact), m.path.value.value.value)
    && cr.route.action == ToCluster("httproute/" + ns + "/" + name + "/rule/" + Decimal(rule))
  }

  lemma {:induction false} PathRoutesAre(ns: string, name: string, section: Option<string>, rule: nat, ms: seq<Match>, cr: ConnectRoute)
    ensures cr in PathRoutes(ns, name, section, rule, ms) <==> exists m :: m in ms && PathRouteFor(ns, name, section, rule, m, cr)
  {
    if ms != [] {
      PathRoutesAre(ns, name, section, rule, ms[..|ms| - 1], cr);
      var m := ms[|ms| - 1];
      assert ms == ms[..|ms| - 1] + [m];
      assert HasPathRoute(m) && cr == PathRoute(ns, name, section, rule, m) <==> PathRouteFor(ns, name, section, rule, m, cr);
    }
  }

  /** The path-aware CONNECT routes are exactly those asked for by the rules that have a ready backend, each in the
      section of the rule's first one. */
  lemma {:induction false} AllPathRoutesAre(ns: string, name: string, backends: seq<BackendPatch>, rules: seq<Rule>, cr: ConnectRoute)
    ensures cr in AllPathRoutes(ns, name, backends, rules) <==>
      exists i: nat, m :: i < |rules| && m in rules[i].matches && FirstFor(backends, i).Some?
        && PathRouteFor(ns, name, FirstFor(backends, i).value.section, i, m, cr)
  {
    if rules != [] {
      var i := |rules| - 1;
      AllPathRoutesAre(ns, name, backends, rules[..i], cr);
      if FirstFor(backends, i).Some? { PathRoutesAre(ns, name, FirstFor(backends, i).value.section, i, rules[i].matches, cr); }
    }
  }

  // ----- Domains -----

  lemma {:induction false} DomainsOf(host: string, configs: seq<string>, before: seq<Patch>, c: string)
    requires forall p :: p in before ==> p.AddDomain?
    requires NoDuplicates(Appended(before, c)) && forall d :: d in Appended(before, c) <==> AddDomain(c, d) in before
    ensures var ps := DomainPatches(host, configs, before);
            && NoDuplicates(Appended(ps, c)) && (forall d :: d in Appended(ps, c) <==> AddDomain(c, d) in ps)
            && (forall d :: d in Appended(ps, c) <==> d in Appended(before, c) || (d == host && c in configs))
  {
    if configs != [] {
      var init := configs[..|configs| - 1];
      DomainsOf(host, init, before, c);
      var ps, p := DomainPatches(host, init, before), AddDomain(configs[|configs| - 1], host);
      assert configs == init + [p.config];
      assert (ps + [p])[..|ps|] == ps;
    }
  }

  /** Every tunnel host is appended to every configuration it is for, once, and nothing else is. */
  lemma {:induction false} DomainsAppendedOnce(ns: string, g: Gateway, eligible: set<string>, backends: seq<BackendPatch>, c: string)
    ensures var ds := Appended(AllDomainPatches(ns, g, eligible, backends), c);
            && NoDuplicates(ds)
            && (forall d :: d in ds <==> AddDomain(c, d) in AllDomainPatches(ns, g, eligible, backends))
            && (forall d :: d in ds <==> exists b :: b in backends && b.host == d && c in NamesFor(ns, g, b.section, eligible))
  {
    if backends != [] {
      var init, b := backends[..|backends| - 1], backends[|backends| - 1];
      DomainsAppendedOnce(ns, g, eligible, init, c);
      AllDomainPatchesKind(ns, g, eligible, init);
      DomainsOf(b.host, NamesFor(ns, g, b.section, eligible), AllDomainPatches(ns, g, eligible, init), c);
      assert backends == init + [b];
    }
  }

  // ----- Clusters -----

  function LastFor(backends: seq<BackendPatch>, rule: nat): Option<BackendPatch>
  {
    if backends == [] then None
    else if backends[|backends| - 1].rule == rule then Some(backends[|backends| - 1])
    else LastFor(backends[..|backends| - 1], rule)
  }

  lemma {:induction false} LastTunnelOfRule(ns: string, listener: string, name: string, backends: seq<BackendPatch>, rule: nat)
    ensures var t := LastTunnel(ClusterPatches(ns, listener, name, backends), ClusterName(ns, name, rule));
            var b := LastFor(backends, rule);
            t == if b.Some? then Some(TunnelOf(listener, b.value)) else None
  {
    if backends != [] {
      var init := backends[..|backends| - 1];
      assert ClusterPatches(ns, listener, name, backends)[..|init|] == ClusterPatches(ns, listener, name, init);
      LastTunnelOfRule(ns, listener, name, init, rule);
      ClusterNamesDiffer(ns, name, backends[|init|].rule, rule);
    }
  }

  lemma {:induction false} OtherClustersUntouched(ns: string, listener: string, name: string, backends: seq<BackendPatch>, cluster: string)
    requires forall b :: b in backends ==> cluster != ClusterName(ns, name, b.rule)
    ensures LastTunnel(ClusterPatches(ns, listener, name, backends), cluster) == None
  {
    if backends != [] {
      var init := backends[..|backends| - 1];
      assert ClusterPatches(ns, listener, name, backends)[..|init|] == ClusterPatches(ns, listener, name, init);
      OtherClustersUntouched(ns, listener, name, init, cluster);
    }
  }

  lemma {:induction false} LastForAppend(xs: seq<BackendPatch>, ys: seq<BackendPatch>, rule: nat)
    ensures LastFor(xs + ys, rule) == if LastFor(ys, rule).Some? then LastFor(ys, rule) else LastFor(xs, rule)
  {
    if ys == [] {
      assert xs + ys == xs;
    } else {
      assert (xs + ys)[..|xs + ys| - 1] == xs + ys[..|ys| - 1];
      LastForAppend(xs, ys[..|ys| - 1], rule);
    }
  }

  function LastReady(w: World, bs: seq<Backend>): Option<Backend>
  {
    if bs == [] then None
    else if IsReady(w, bs[|bs| - 1]) then Some(bs[|bs| - 1])
    else LastReady(w, bs[..|bs| - 1])
  }

  function TunnelTo(w: World, listener: string, b: Backend): Tunnel
    requires IsReady(w, b)
  {
    var t := w.target(b.endpoint).value;
    Tunnel(listener, t.host, t.port, w.connector(b.connector.value).node)
  }

  lemma {:induction false} LastReadyIsReady(w: World, bs: seq<Backend>)
    ensures LastReady(w, bs).Some? ==> IsReady(w, LastReady(w, bs).value) && LastReady(w, bs).value in bs
    ensures LastReady(w, bs).None? <==> forall b :: b in bs ==> !IsReady(w, b)
  {
    if bs != [] {
      LastReadyIsReady(w, bs[..|bs| - 1]);
      assert bs == bs[..|bs| - 1] + [bs[|bs| - 1]];
    }
  }

  /** The tunnel a rule's entries leave behind is that of its last ready backend. */
  ghost predicate LeavesLastReady(w: World, listener: string, bs: seq<Backend>, last: Option<BackendPatch>)
  {
    && last.Some? == LastReady(w, bs).Some?
    && (last.Some? ==> IsReady(w, LastReady(w, bs).value) && TunnelOf(listener, last.value) == TunnelTo(w, listener, LastReady(w, bs).value))
  }

  lemma {:induction false} LastOfMatch(w: World, listener: string, bs: seq<Backend>, rule: nat, m: nat)
    ensures LeavesLastReady(w, listener, bs, LastFor(ReadyOf(w, bs, rule, m), rule))
    ensures forall i: nat :: i != rule ==> LastFor(ReadyOf(w, bs, rule, m), i) == None
  {
    if bs != [] { LastOfMatch(w, listener, bs[..|bs| - 1], rule, m); }
  }

  lemma {:induction false} LastOfRule(w: World, listener: string, bs: seq<Backend>, rule: nat, n: nat)
    ensures n > 0 ==> LeavesLastReady(w, listener, bs, LastFor(ReadyOfRule(w, bs, rule, n), rule))
    ensures forall i: nat :: i != rule ==> LastFor(ReadyOfRule(w, bs, rule, n), i) == None
  {
    if n > 0 {
      LastOfRule(w, listener, bs, rule, n - 1);
      LastOfMatch(w, listener, bs, rule, n - 1);
      if n == 1 {
        assert ReadyOfRule(w, bs, rule, n) == ReadyOf(w, bs, rule, 0);
      }
      forall i: nat ensures LastFor(ReadyOfRule(w, bs, rule, n), i) ==
        (if LastFor(ReadyOf(w, bs, rule, n - 1), i).Some? then LastFor(ReadyOf(w, bs, rule, n - 1), i) else LastFor(ReadyOfRule(w, bs, rule, n - 1), i))
      {
        LastForAppend(ReadyOfRule(w, bs, rule, n - 1), ReadyOf(w, bs, rule, n - 1), i);
      }
    }
  }

  lemma {:induction false} LastCollected(w: World, listener: string, rules: seq<Rule>, rule: nat)
    ensures if rule < |rules| then LeavesLastReady(w, listener, rules[rule].backends, LastFor(Collected(w, rules), rule))
            else LastFor(Collected(w, rules), rule) == None
  {
    if rules != [] {
      var i := |rules| - 1;
      LastCollected(w, listener, rules[..i], rule);
      LastOfRule(w, listener, rules[i].backends, i, MatchCount(rules[i]));
      LastForAppend(Collected(w, rules[..i]), ReadyOfRule(w, rules[i].backends, i, MatchCount(rules[i])), rule);
    }
  }

  /** After the patches for the collected backends, the cluster of a rule is the tunnel to the rule's
      last ready connector backend; a rule without one keeps its cluster. */
  lemma ClusterOfRule(x: Xds, w: World, ns: string, listener: string, g: Gateway, proxy: HTTPProxy, eligible: set<string>, rule: nat)
    requires rule < |proxy.rules| && ClusterName(ns, proxy.name, rule) in x.clusters
    ensures var name := ClusterName(ns, proxy.name, rule);
            var after := Replay(x, Patches(ns, listener, g, proxy, Collected(w, proxy.rules), eligible)).clusters;
            var last := LastReady(w, proxy.rules[rule].backends);
            && name in after
            && (last.None? ==> after[name] == x.clusters[name])
            && (last.Some? ==> IsReady(w, last.value) && after[name] == Tunneled(TunnelTo(w, listener, last.value)))
  {
    var name := ClusterName(ns, proxy.name, rule);
    var backends := Collected(w, proxy.rules);
    ReplayCluster(x, Patches(ns, listener, g, proxy, backends, eligible), name);
    GroupsAreSeparate(ns, listener, g, proxy, backends, eligible, name);
    LastTunnelOfRule(ns, listener, proxy.name, backends, rule);
    LastCollected(w, listener, proxy.rules, rule);
  }

  lemma {:induction false} CollectedRules(w: World, rules: seq<Rule>)
    ensures forall b :: b in Collected(w, rules) ==> b.section == None && b.rule < |rules|
  {
    if rules != [] {
      var i := |rules| - 1;
      CollectedRules(w, rules[..i]);
      RuleEntries(w, rules[i].backends, i, MatchCount(rules[i]));
    }
  }

  lemma {:induction false} RuleEntries(w: World, bs: seq<Backend>, rule: nat, n: nat)
    ensures forall b :: b in ReadyOfRule(w, bs, rule, n) ==> b.section == None && b.rule == rule
  {
    if n > 0 {
      RuleEntries(w, bs, rule, n - 1);
      MatchEntries(w, bs, rule, n - 1);
    }
  }

  lemma {:induction false} MatchEntries(w: World, bs: seq<Backend>, rule: nat, m: nat)
    ensures forall b :: b in ReadyOf(w, bs, rule, m) ==> b.section == None && b.rule == rule
  {
    if bs != [] { MatchEntries(w, bs[..|bs| - 1], rule, m); }
  }

  lemma {:induction false} LastForNone(backends: seq<BackendPatch>, rule: nat)
    ensures LastFor(backends, rule).None? <==> forall b :: b in backends ==> b.rule != rule
  {
    if backends != [] {
      LastForNone(backends[..|backends| - 1], rule);
      assert backends == backends[..|backends| - 1] + [backends[|backends| - 1]];
    }
  }

  /** No other cluster changes. */
  lemma OtherClustersKept(x: Xds, w: World, ns: string, listener: string, g: Gateway, proxy: HTTPProxy, eligible: set<string>, cluster: string)
    requires cluster in x.clusters
    requires forall i: nat :: i < |proxy.rules| && LastReady(w, proxy.rules[i].backends).Some? ==> cluster != ClusterName(ns, proxy.name, i)
    ensures var after := Replay(x, Patches(ns, listener, g, proxy, Collected(w, proxy.rules), eligible)).clusters;
            after.Keys == x.clusters.Keys && after[cluster] == x.clusters[cluster]
  {
    var backends := Collected(w, proxy.rules);
    ReplayCluster(x, Patches(ns, listener, g, proxy, backends, eligible), cluster);
    GroupsAreSeparate(ns, listener, g, proxy, backends, eligible, cluster);
    CollectedRules(w, proxy.rules);
    forall b | b in backends ensures cluster != ClusterName(ns, proxy.name, b.rule) {
      LastForNone(backends, b.rule);
      LastCollected(w, listener, proxy.rules, b.rule);
    }
    OtherClustersUntouched(ns, listener, proxy.name, backends, cluster);
  }

  /** A backend that names a Connector which is ready, and an endpoint that parses. */
  predicate ReadyAs(w: World, listener: string, b: Backend, t: Tunnel)
  {
    && b.connector.Some? && t.listener == listener
    && w.connector(b.connector.value) == Ready(t.node) && w.target(b.endpoint) == Some(Target(t.host, t.port))
  }

  /** The last ready backend of a list is reached through this tunnel. */
  ghost predicate LastReadyVia(w: World, listener: string, bs: seq<Backend>, t: Tunnel)
  {
    exists j :: 0 <= j < |bs| && ReadyAs(w, listener, bs[j], t) && forall k, t' :: j < k < |bs| ==> !ReadyAs(w, listener, bs[k], t')
  }

  ghost predicate HasReady(w: World, r: Rule) { exists b :: b in r.backends && IsReady(w, b) }

  /** The rule CONNECT requests go to: of those with a ready backend, the last one matching CONNECT at the root, or
      else the first one. */
  ghost predicate TakesConnect(w: World, rules: seq<Rule>, f: nat)
  {
    && f < |rules| && HasReady(w, rules[f])
    && (|| (MatchesRoot(rules[f]) && forall i: nat :: f < i < |rules| && HasReady(w, rules[i]) ==> !MatchesRoot(rules[i]))
        || (&& (forall i: nat :: i < |rules| && HasReady(w, rules[i]) ==> !MatchesRoot(rules[i]))
            && forall i: nat :: i < f ==> !HasReady(w, rules[i])))
  }

  lemma {:induction false} LastReadyIsVia(w: World, listener: string, bs: seq<Backend>)
    requires LastReady(w, bs).Some?
    ensures IsReady(w, LastReady(w, bs).value)
    ensures LastReadyVia(w, listener, bs, TunnelTo(w, listener, LastReady(w, bs).value))
  {
    LastReadyIsReady(w, bs);
    var n := |bs| - 1;
    if IsReady(w, bs[n]) {
      assert ReadyAs(w, listener, bs[n], TunnelTo(w, listener, bs[n]));
    } else {
      LastReadyIsVia(w, listener, bs[..n]);
    }
  }

  lemma {:induction false} CollectedHas(w: World, rules: seq<Rule>, rule: nat)
    ensures HasEntry(Collected(w, rules), rule) <==> rule < |rules| && HasReady(w, rules[rule])
  {
    LastForNone(Collected(w, rules), rule);
    LastCollected(w, "", rules, rule);
    if rule < |rules| { LastReadyIsReady(w, rules[rule].backends); }
  }

  /** Entries come rule by rule, so the first one is of the first rule that has any. */
  lemma {:induction false} CollectedInOrder(w: World, rules: seq<Rule>)
    ensures forall k :: 0 <= k < |Collected(w, rules)| ==> Collected(w, rules)[0].rule <= Collected(w, rules)[k].rule
  {
    if rules != [] {
      var i := |rules| - 1;
      CollectedInOrder(w, rules[..i]);
      CollectedRules(w, rules[..i]);
      var before, own := Collected(w, rules[..i]), ReadyOfRule(w, rules[i].backends, i, MatchCount(rules[i]));
      RuleEntries(w, rules[i].backends, i, MatchCount(rules[i]));
      var all := Collected(w, rules);
      assert all == before + own;
      forall k | 0 <= k < |all| ensures all[0].rule <= all[k].rule {
        assert before != [] ==> before[0] in before;
        assert k >= |before| ==> all[k] in own;
        assert before == [] ==> all[0] in own;
      }
    }
  }

  ghost predicate HasEntry(backends: seq<BackendPatch>, i: nat) { exists b :: b in backends && b.rule == i }

  lemma NoneBeforeFirst(backends: seq<BackendPatch>, i: nat)
    requires backends != [] && (forall k :: 0 <= k < |backends| ==> backends[0].rule <= backends[k].rule) && i < backends[0].rule
    ensures !HasEntry(backends, i)
  {
  }

  lemma FallbackHasEntry(backends: seq<BackendPatch>, rules: seq<Rule>)
    requires backends != []
    ensures HasEntry(backends, FallbackRule(backends, rules)) && HasEntry(backends, backends[0].rule)
  {
    FallbackIsReady(backends, rules);
    FirstForSome(backends, FallbackRule(backends, rules));
    assert backends[0] in backends;
  }

  lemma FallbackTakesConnect(w: World, rules: seq<Rule>)
    requires Collected(w, rules) != []
    ensures TakesConnect(w, rules, FallbackRule(Collected(w, rules), rules))
  {
    var backends := Collected(w, rules);
    var f := FallbackRule(backends, rules);
    FallbackHasEntry(backends, rules);
    CollectedHas(w, rules, f);
    FallbackIs(backends, rules);
    CollectedInOrder(w, rules);
    forall i: nat | i < |rules| ensures HasReady(w, rules[i]) && MatchesRoot(rules[i]) <==> RootRule(backends, rules, i) { CollectedHas(w, rules, i); }
    forall i: nat | i < backends[0].rule && i < |rules| ensures !HasReady(w, rules[i]) {
      NoneBeforeFirst(backends, i);
      CollectedHas(w, rules, i);
    }
  }

  /** With the backends the controller collects, every CONNECT request to an eligible HTTPS listener goes to the
      cluster of the rule that takes CONNECT, and that cluster is the tunnel to the rule's last ready backend. */
  lemma ConnectReachesTunnel(x: Xds, w: World, ns: string, listener: string, g: Gateway, proxy: HTTPProxy, eligible: set<string>,
                             c: string, given: (nat, Request) -> bool, q: Request) returns (f: nat, t: Tunnel)
    requires (exists i: nat :: i < |proxy.rules| && HasReady(w, proxy.rules[i])) && q.method_ == "CONNECT"
    requires PatchableConfig(ns, g, eligible, c) && c in x.configs && x.configs[c] != []
    requires forall i: nat :: i < |proxy.rules| ==> ClusterName(ns, proxy.name, i) in x.clusters
    ensures TakesConnect(w, proxy.rules, f) && LastReadyVia(w, listener, proxy.rules[f].backends, t)
    ensures var after := Replay(x, Patches(ns, listener, g, proxy, Collected(w, proxy.rules), eligible));
            var cluster := "httproute/" + ns + "/" + proxy.name + "/rule/" + Decimal(f);
            && c in after.configs && after.configs[c] != []
            && var hit := FirstMatch(given, after.configs[c][0].routes, q);
            && hit.Some? && hit.value.action == ToCluster(cluster) && cluster in after.clusters && after.clusters[cluster] == Tunneled(t)
  {
    var backends := Collected(w, proxy.rules);
    var i: nat :| i < |proxy.rules| && HasReady(w, proxy.rules[i]);
    CollectedHas(w, proxy.rules, i);
    f := FallbackRule(backends, proxy.rules);
    FallbackTakesConnect(w, proxy.rules);
    LastReadyIsReady(w, proxy.rules[f].backends);
    LastReadyIsVia(w, listener, proxy.rules[f].backends);
    t := TunnelTo(w, listener, LastReady(w, proxy.rules[f].backends).value);
    NamesArePatchable(ns, g, eligible, c);
    CollectedRules(w, proxy.rules);
    FallbackIsReady(backends, proxy.rules);
    FirstIsMember(backends, f);
    ConnectGoesToFallback(x, ns, listener, g, proxy, backends, eligible, c, given, q);
    ClusterOfRule(x, w, ns, listener, g, proxy, eligible, f);
  }

  lemma {:induction false} FirstIsMember(backends: seq<BackendPatch>, rule: nat)
    ensures FirstFor(backends, rule).Some? ==> FirstFor(backends, rule).value in backends && FirstFor(backends, rule).value.rule == rule
  {
    if backends != [] { FirstIsMember(backends[..|backends| - 1], rule); }
  }

  // ----- No connector ready -----

  /** The offline patches answer every CONNECT request to an eligible HTTPS listener with 503 and leave all
      other requests alone. */
  lemma OfflineAnswers503(x: Xds, ns: string, g: Gateway, proxy: HTTPProxy, eligible: set<string>, c: string, given: (nat, Request) -> bool, q: Request)
    requires c in x.configs && x.configs[c] != []
    ensures var hosts := Replay(x, Inserts(AllNames(ns, g, eligible, |g.listeners|), OfflineRoute(proxy.name))).configs;
            && c in hosts && hosts[c] != [] && hosts[c][0].domains == x.configs[c][0].domains
            && var hit := FirstMatch(given, hosts[c][0].routes, q);
            if PatchableConfig(ns, g, eligible, c) && q.method_ == "CONNECT" then hit.Some? && hit.value.action == Respond(503, "Tunnel not online")
            else hit == FirstMatch(given, x.configs[c][0].routes, q)
  {
    var names := AllNames(ns, g, eligible, |g.listeners|);
    var ps := Inserts(names, OfflineRoute(proxy.name));
    NamesArePatchable(ns, g, eligible, c);
    ReplayConfig(x, ps, c);
    AllNamesAre(ns, g, eligible, |g.listeners|);
    InsertsAtOnce(names, OfflineRoute(proxy.name), c);
    NoEffect(ps, c);
    var routes := x.configs[c][0].routes;
    assert ([OfflineRoute(proxy.name)] + routes)[1..] == routes && [] + routes == routes;
  }
}
