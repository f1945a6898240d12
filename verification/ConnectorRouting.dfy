/** The connector routing compiler of internal/controller/connector_routing_compiler.go and the
    backend collection of internal/controller/httpproxy_controller.go.

    The patches come in three groups: cluster replacements, virtual host domains, and CONNECT routes
    each inserted at index 0. `ConnectorReplay` says what a route table means after them. Endpoint
    parsing and the Connector objects are parameters.
 */
module ConnectorRouting {
  import opened Ordering

  datatype PathKind = PathPrefix | Exact | RegularExpression
  datatype PathMatch = PathMatch(kind: Option<PathKind>, value: Option<string>)
  datatype Match = Match(method_: Option<string>, path: Option<PathMatch>)
  datatype Backend = Backend(connector: Option<string>, endpoint: string)
  datatype Rule = Rule(matches: seq<Match>, backends: seq<Backend>)
  datatype HTTPProxy = HTTPProxy(name: string, rules: seq<Rule>)
  datatype Listener = Listener(name: string, https: bool)
  datatype Gateway = Gateway(name: string, listeners: seq<Listener>)

  datatype Target = Target(host: string, port: int)
  datatype ConnectorState = Failed | NotReady | Ready(node: string)

  /** What the compiler reads about the world: parsed endpoints and the state of each Connector. */
  datatype World = World(target: string -> Option<Target>, connector: string -> ConnectorState)

  datatype BackendPatch = BackendPatch(section: Option<string>, rule: nat, matchIndex: nat, host: string, port: int, node: string)

  // ----- Cluster names -----

  function Digit(d: nat): char requires d < 10 { "0123456789"[d] }

  function Decimal(n: nat): string
  {
    if n < 10 then [Digit(n)] else Decimal(n / 10) + [Digit(n % 10)]
  }

  lemma {:induction false} DecimalInjective(a: nat, b: nat)
    requires Decimal(a) == Decimal(b)
    ensures a == b
  {
    var x, y := Decimal(a), Decimal(b);
    assert x[|x| - 1] == Digit(a % 10) && y[|y| - 1] == Digit(b % 10);
    assert |Decimal(a / 10)| > 0 && |Decimal(b / 10)| > 0;
    if a >= 10 && b >= 10 {
      assert x[..|x| - 1] == Decimal(a / 10) && y[..|y| - 1] == Decimal(b / 10);
      DecimalInjective(a / 10, b / 10);
    }
  }

  /** The number a string of digits stands for. */
  function Value(s: string): int { if s == [] then 0 else 10 * Value(s[..|s| - 1]) + (s[|s| - 1] as int - '0' as int) }

  lemma DigitValue(d: nat)
    requires d < 10
    ensures '0' <= Digit(d) <= '9' && Digit(d) as int - '0' as int == d
  {
  }

  lemma ValueNext(s: string, c: char)
    ensures Value(s + [c]) == 10 * Value(s) + (c as int - '0' as int)
  {
    assert (s + [c])[..|s|] == s;
  }

  lemma {:induction false} DecimalReadsBack(n: nat)
    ensures Value(Decimal(n)) == n && (forall c :: c in Decimal(n) ==> '0' <= c <= '9') && (n > 0 ==> Decimal(n)[0] != '0')
  {
    DigitValue(n % 10);
    if n >= 10 {
      DecimalReadsBack(n / 10);
      ValueNext(Decimal(n / 10), Digit(n % 10));
    } else {
      ValueNext([], Digit(n));
      assert [] + [Digit(n)] == [Digit(n)];
    }
  }

  function ClusterPrefix(ns: string, route: string): string { "httproute/" + ns + "/" + route + "/rule/" }

  function ClusterName(ns: string, route: string, rule: nat): string { ClusterPrefix(ns, route) + Decimal(rule) }

  lemma ClusterNamesDiffer(ns: string, route: string, a: nat, b: nat)
    ensures ClusterName(ns, route, a) == ClusterName(ns, route, b) <==> a == b
  {
    var n := |ClusterPrefix(ns, route)|;
    assert ClusterName(ns, route, a)[n..] == Decimal(a) && ClusterName(ns, route, b)[n..] == Decimal(b);
    if Decimal(a) == Decimal(b) { DecimalInjective(a, b); }
  }

  // ----- Collecting the ready connector backends -----

  /** A connector backend whose endpoint or Connector makes the whole pass fail. */
  predicate Broken(w: World, b: Backend)
  {
    b.connector.Some? && (w.target(b.endpoint).None? || w.connector(b.connector.value).Failed?)
  }

  predicate IsReady(w: World, b: Backend)
  {
    b.connector.Some? && w.target(b.endpoint).Some? && w.connector(b.connector.value).Ready?
  }

  function PatchOf(w: World, b: Backend, rule: nat, matchIndex: nat): BackendPatch
    requires IsReady(w, b)
  {
    var t := w.target(b.endpoint).value;
    BackendPatch(None, rule, matchIndex, t.host, t.port, w.connector(b.connector.value).node)
  }

  function ReadyOf(w: World, bs: seq<Backend>, rule: nat, matchIndex: nat): seq<BackendPatch>
  {
    if bs == [] then []
    else
      var rest := ReadyOf(w, bs[..|bs| - 1], rule, matchIndex);
      var b := bs[|bs| - 1];
      if IsReady(w, b) then rest + [PatchOf(w, b, rule, matchIndex)] else rest
  }

  function ReadyOfRule(w: World, bs: seq<Backend>, rule: nat, matches: nat): seq<BackendPatch>
  {
    if matches == 0 then [] else ReadyOfRule(w, bs, rule, matches - 1) + ReadyOf(w, bs, rule, matches - 1)
  }

  function MatchCount(r: Rule): nat { if r.matches == [] then 1 else |r.matches| }

  function Collected(w: World, rules: seq<Rule>): seq<BackendPatch>
  {
    if rules == [] then []
    else
      var i := |rules| - 1;
      Collected(w, rules[..i]) + ReadyOfRule(w, rules[i].backends, i, MatchCount(rules[i]))
  }

  predicate RuleBroken(w: World, r: Rule)
  {
    exists j :: 0 <= j < |r.backends| && Broken(w, r.backends[j])
  }

  predicate AnyBroken(w: World, rules: seq<Rule>)
  {
    exists i :: 0 <= i < |rules| && RuleBroken(w, rules[i])
  }

  method CollectMatch(w: World, bs: seq<Backend>, rule: nat, matchIndex: nat) returns (r: Option<seq<BackendPatch>>)
    ensures r.None? <==> exists j :: 0 <= j < |bs| && Broken(w, bs[j])
    ensures r.Some? ==> r.value == ReadyOf(w, bs, rule, matchIndex)
  {
    var out := [];
    for j := 0 to |bs|
      invariant out == ReadyOf(w, bs[..j], rule, matchIndex)
      invariant forall k :: 0 <= k < j ==> !Broken(w, bs[k])
    {
      assert bs[..j + 1][..j] == bs[..j];
      var b := bs[j];
      if b.connector.Some? {
        var target := w.target(b.endpoint);
        if target.None? {
          return None;
        }
        match w.connector(b.connector.value)
        case Failed => return None;
        case NotReady =>
        case Ready(node) =>
          out := out + [BackendPatch(None, rule, matchIndex, target.value.host, target.value.port, node)];
      }
    }
    assert bs[..|bs|] == bs;
    r := Some(out);
  }

  method CollectRule(w: World, rule: Rule, i: nat) returns (r: Option<seq<BackendPatch>>)
    ensures r.None? <==> RuleBroken(w, rule)
    ensures r.Some? ==> r.value == ReadyOfRule(w, rule.backends, i, MatchCount(rule))
  {
    var matchCount := |rule.matches|;
    if matchCount == 0 {
      matchCount := 1;
    }
    var out := [];
    for m := 0 to matchCount
      invariant out == ReadyOfRule(w, rule.backends, i, m)
      invariant m > 0 ==> !RuleBroken(w, rule)
    {
      var more := CollectMatch(w, rule.backends, i, m);
      if more.None? {
        return None;
      }
      out := out + more.value;
    }
    r := Some(out);
  }

  method CollectConnectorBackends(w: World, proxy: HTTPProxy) returns (r: Option<seq<BackendPatch>>)
    ensures r.None? <==> AnyBroken(w, proxy.rules)
    ensures r.Some? ==> r.value == Collected(w, proxy.rules)
  {
    var rules := proxy.rules;
    var out := [];
    for i := 0 to |rules|
      invariant out == Collected(w, rules[..i])
      invariant forall k :: 0 <= k < i ==> !RuleBroken(w, rules[k])
    {
      var more := CollectRule(w, rules[i], i);
      if more.None? {
        return None;
      }
      assert rules[..i + 1][..i] == rules[..i];
      out := out + more.value;
    }
    assert rules[..|rules|] == rules;
    r := Some(out);
  }

  // ----- Route configuration names -----

  function ConfigName(ns: string, g: Gateway, listener: string): string { ns + "/" + g.name + "/" + listener }

  predicate Patchable(g: Gateway, eligible: set<string>, i: nat)
    requires i < |g.listeners|
  {
    g.listeners[i].https && g.listeners[i].name in eligible
  }

  method HTTPSRouteConfigNames(ns: string, g: Gateway, eligible: set<string>) returns (names: seq<string>)
    ensures NoDuplicates(names)
    ensures forall c :: c in names <==> exists i :: 0 <= i < |g.listeners| && Patchable(g, eligible, i) && c == ConfigName(ns, g, g.listeners[i].name)
    ensures names == AllNames(ns, g, eligible, |g.listeners|)
  {
    names := [];
    var seen: set<string> := {};
    for i := 0 to |g.listeners|
      invariant names == AllNames(ns, g, eligible, i) && seen == set c | c in names
    {
      if g.listeners[i].https && g.listeners[i].name in eligible {
        var name := ConfigName(ns, g, g.listeners[i].name);
        if name !in seen {
          seen := seen + {name};
          names := names + [name];
        }
      }
    }
    AllNamesAre(ns, g, eligible, |g.listeners|);
  }

  function AllNames(ns: string, g: Gateway, eligible: set<string>, n: nat): seq<string>
    requires n <= |g.listeners|
  {
    if n == 0 then []
    else
      var before := AllNames(ns, g, eligible, n - 1);
      var name := ConfigName(ns, g, g.listeners[n - 1].name);
      if Patchable(g, eligible, n - 1) && name !in before then before + [name] else before
  }

  lemma {:induction false} AllNamesAre(ns: string, g: Gateway, eligible: set<string>, n: nat)
    requires n <= |g.listeners|
    ensures NoDuplicates(AllNames(ns, g, eligible, n))
    ensures forall c :: c in AllNames(ns, g, eligible, n) <==>
      (exists i :: 0 <= i < n && Patchable(g, eligible, i) && c == ConfigName(ns, g, g.listeners[i].name))
  {
    if n > 0 { AllNamesAre(ns, g, eligible, n - 1); }
  }

  function NamesFor(ns: string, g: Gateway, section: Option<string>, eligible: set<string>): seq<string>
  {
    if section.None? then AllNames(ns, g, eligible, |g.listeners|)
    else if Listener(section.value, true) in g.listeners && section.value in eligible then
      [ConfigName(ns, g, section.value)]
    else []
  }

  method HTTPSRouteConfigNamesForSection(ns: string, g: Gateway, section: Option<string>, all: seq<string>, eligible: set<string>)
    returns (names: seq<string>)
    requires all == AllNames(ns, g, eligible, |g.listeners|)
    ensures names == NamesFor(ns, g, section, eligible)
  {
    if section.None? {
      return all;
    }
    for i := 0 to |g.listeners|
      invariant forall k :: 0 <= k < i ==> g.listeners[k] != Listener(section.value, true)
    {
      if g.listeners[i].name == section.value && g.listeners[i].https {
        assert g.listeners[i] == Listener(section.value, true);
        if g.listeners[i].name !in eligible {
          return [];
        }
        return [ConfigName(ns, g, g.listeners[i].name)];
      }
    }
    names := [];
  }

  // ----- CONNECT routes -----

  datatype RouteMatch = ConnectMatcher | ConnectPath(exact: bool, path: string) | Given(id: nat)
  datatype Action = ToCluster(cluster: string) | Respond(status: int, body: string)
  datatype Route = Route(name: string, pattern: RouteMatch, action: Action)
  datatype ConnectRoute = ConnectRoute(section: Option<string>, route: Route)

  predicate ConnectWithPath(m: Match) { m.method_ == Some("CONNECT") && m.path.Some? && m.path.value.value.Some? }

  predicate IsRoot(m: Match) { ConnectWithPath(m) && m.path.value.value.value in ["", "/"] }

  function KindOf(m: Match): PathKind
    requires m.path.Some?
  {
    if m.path.value.kind.Some? then m.path.value.kind.value else PathPrefix
  }

  predicate HasPathRoute(m: Match) { ConnectWithPath(m) && !IsRoot(m) && KindOf(m) != RegularExpression }

  function PathRoute(ns: string, name: string, section: Option<string>, rule: nat, m: Match): ConnectRoute
    requires HasPathRoute(m)
  {
    ConnectRoute(section, Route("connector-connect-" + name + "-rule-" + Decimal(rule),
                                ConnectPath(KindOf(m) == Exact, m.path.value.value.value),
                                ToCluster(ClusterName(ns, name, rule))))
  }

  function PathRoutes(ns: string, name: string, section: Option<string>, rule: nat, ms: seq<Match>): seq<ConnectRoute>
  {
    if ms == [] then []
    else
      var before := PathRoutes(ns, name, section, rule, ms[..|ms| - 1]);
      var m := ms[|ms| - 1];
      if HasPathRoute(m) then before + [PathRoute(ns, name, section, rule, m)] else before
  }

  function FirstFor(backends: seq<BackendPatch>, rule: nat): Option<BackendPatch>
  {
    if backends == [] then None
    else
      var before := FirstFor(backends[..|backends| - 1], rule);
      var b := backends[|backends| - 1];
      if before.Some? then before else if b.rule == rule then Some(b) else None
  }

  function AllPathRoutes(ns: string, name: string, backends: seq<BackendPatch>, rules: seq<Rule>): seq<ConnectRoute>
  {
    if rules == [] then []
    else
      var i := |rules| - 1;
      var first := FirstFor(backends, i);
      var before := AllPathRoutes(ns, name, backends, rules[..i]);
      if first.Some? then before + PathRoutes(ns, name, first.value.section, i, rules[i].matches) else before
  }

  /** The last rule that has a connector backend and matches CONNECT at the root, else the first backend's rule. */
  function FallbackRule(backends: seq<BackendPatch>, rules: seq<Rule>): nat
    requires backends != []
  {
    if rules == [] then backends[0].rule
    else
      var i := |rules| - 1;
      if FirstFor(backends, i).Some? && exists m :: m in rules[i].matches && IsRoot(m) then i
      else FallbackRule(backends, rules[..i])
  }

  function FallbackRoute(ns: string, name: string, backends: seq<BackendPatch>, rules: seq<Rule>): ConnectRoute
    requires backends != []
  {
    var i := FallbackRule(backends, rules);
    var first := FirstFor(backends, i);
    ConnectRoute(if first.Some? then first.value.section else None,
                 Route("connector-connect-" + name, ConnectMatcher, ToCluster(ClusterName(ns, name, i))))
  }

  lemma {:induction false} FirstBackend(backends: seq<BackendPatch>)
    requires backends != []
    ensures FirstFor(backends, backends[0].rule) == Some(backends[0])
  {
    if |backends| > 1 { FirstBackend(backends[..|backends| - 1]); }
  }

  lemma {:induction false} FallbackIsReady(backends: seq<BackendPatch>, rules: seq<Rule>)
    requires backends != []
    ensures FirstFor(backends, FallbackRule(backends, rules)).Some?
  {
    if rules == [] { FirstBackend(backends); } else { FallbackIsReady(backends, rules[..|rules| - 1]); }
  }

  ghost predicate Indexed(ns: string, name: string, backends: seq<BackendPatch>, clusterByRule: map<nat, string>, sectionByRule: map<nat, Option<string>>)
  {
    forall i: nat ::
      var first := FirstFor(backends, i);
      if first.Some? then i in clusterByRule && i in sectionByRule && clusterByRule[i] == ClusterName(ns, name, i) && sectionByRule[i] == first.value.section
      else i !in clusterByRule && i !in sectionByRule
  }

  lemma {:induction false} FirstForNext(backends: seq<BackendPatch>, k: nat, i: nat)
    requires k < |backends|
    ensures var before := FirstFor(backends[..k], i);
            FirstFor(backends[..k + 1], i) == if before.Some? then before else if backends[k].rule == i then Some(backends[k]) else None
  {
    assert backends[..k + 1][..k] == backends[..k];
  }

  method IndexBackends(ns: string, name: string, backends: seq<BackendPatch>)
    returns (clusterByRule: map<nat, string>, sectionByRule: map<nat, Option<string>>)
    ensures Indexed(ns, name, backends, clusterByRule, sectionByRule)
  {
    clusterByRule, sectionByRule := map[], map[];
    for k := 0 to |backends|
      invariant Indexed(ns, name, backends[..k], clusterByRule, sectionByRule)
    {
      var b := backends[k];
      forall i: nat ensures var before := FirstFor(backends[..k], i);
        FirstFor(backends[..k + 1], i) == if before.Some? then before else if b.rule == i then Some(b) else None
      {
        FirstForNext(backends, k, i);
      }
      assert FirstFor(backends[..k], b.rule).Some? == (b.rule in clusterByRule);
      if b.rule !in clusterByRule {
        clusterByRule := clusterByRule[b.rule := ClusterName(ns, name, b.rule)];
        sectionByRule := sectionByRule[b.rule := b.section];
      }
    }
    assert backends[..|backends|] == backends;
  }

  method ConnectRoutesOfRule(ns: string, name: string, section: Option<string>, cluster: string, rule: nat, ms: seq<Match>)
    returns (routes: seq<ConnectRoute>, root: bool)
    requires cluster == ClusterName(ns, name, rule)
    ensures routes == PathRoutes(ns, name, section, rule, ms)
    ensures root <==> exists m :: m in ms && IsRoot(m)
  {
    routes, root := [], false;
    for k := 0 to |ms|
      invariant routes == PathRoutes(ns, name, section, rule, ms[..k])
      invariant root <==> exists m :: m in ms[..k] && IsRoot(m)
    {
      var m := ms[k];
      assert ms[..k + 1] == ms[..k] + [m];
      if m.method_.None? || m.method_.value != "CONNECT" {
        continue;
      }
      if m.path.None? || m.path.value.value.None? {
        continue;
      }
      var value := m.path.value.value.value;
      if value == "" || value == "/" {
        assert IsRoot(m);
        root := true;
        continue;
      }
      var kind := if m.path.value.kind.Some? then m.path.value.kind.value else PathPrefix;
      if kind != RegularExpression {
        routes := routes + [ConnectRoute(section, Route("connector-connect-" + name + "-rule-" + Decimal(rule),
                                                        ConnectPath(kind == Exact, value), ToCluster(cluster)))];
      }
    }
    assert ms[..|ms|] == ms;
  }

  function ConnectRoutes(ns: string, proxy: HTTPProxy, backends: seq<BackendPatch>): seq<ConnectRoute>
  {
    if backends == [] then []
    else AllPathRoutes(ns, proxy.name, backends, proxy.rules) + [FallbackRoute(ns, proxy.name, backends, proxy.rules)]
  }

  method BuildConnectorConnectRoutes(ns: string, proxy: HTTPProxy, backends: seq<BackendPatch>) returns (routes: seq<ConnectRoute>)
    ensures routes == ConnectRoutes(ns, proxy, backends)
  {
    if |backends| == 0 {
      return [];
    }
    var rules := proxy.rules;
    var clusterByRule, sectionByRule := IndexBackends(ns, proxy.name, backends);
    FirstBackend(backends);
    var fallbackCluster := ClusterName(ns, proxy.name, backends[0].rule);
    var fallbackSection := backends[0].section;
    routes := [];
    for i := 0 to |rules|
      invariant routes == AllPathRoutes(ns, proxy.name, backends, rules[..i])
      invariant FirstFor(backends, FallbackRule(backends, rules[..i])).Some?
      invariant fallbackCluster == ClusterName(ns, proxy.name, FallbackRule(backends, rules[..i]))
      invariant fallbackSection == FirstFor(backends, FallbackRule(backends, rules[..i])).value.section
    {
      assert rules[..i + 1][..i] == rules[..i];
      assert FirstFor(backends, i).Some? == (i in clusterByRule);
      if i in clusterByRule {
        var more, root := ConnectRoutesOfRule(ns, proxy.name, sectionByRule[i], clusterByRule[i], i, rules[i].matches);
        routes := routes + more;
        if root {
          fallbackCluster, fallbackSection := clusterByRule[i], sectionByRule[i];
        }
      }
    }
    assert rules[..|rules|] == rules;
    routes := routes + [ConnectRoute(fallbackSection, Route("connector-connect-" + proxy.name, ConnectMatcher, ToCluster(fallbackCluster)))];
  }

  // ----- The patches -----

  datatype Tunnel = Tunnel(listener: string, host: string, port: int, node: string)

  datatype Patch =
    | ReplaceCluster(cluster: string, tunnel: Tunnel)
    | AddDomain(config: string, domain: string)
    | InsertRoute(config: string, route: Route)

  function TunnelOf(listener: string, b: BackendPatch): Tunnel { Tunnel(listener, b.host, b.port, b.node) }

  function ClusterPatches(ns: string, listener: string, name: string, backends: seq<BackendPatch>): seq<Patch>
  {
    seq(|backends|, k requires 0 <= k < |backends| =>
      ReplaceCluster(ClusterName(ns, name, backends[k].rule), TunnelOf(listener, backends[k])))
  }

  function DomainPatches(host: string, configs: seq<string>, before: seq<Patch>): seq<Patch>
  {
    if configs == [] then before
    else
      var ps := DomainPatches(host, configs[..|configs| - 1], before);
      var p := AddDomain(configs[|configs| - 1], host);
      if p in ps then ps else ps + [p]
  }

  function AllDomainPatches(ns: string, g: Gateway, eligible: set<string>, backends: seq<BackendPatch>): seq<Patch>
  {
    if backends == [] then []
    else
      var b := backends[|backends| - 1];
      DomainPatches(b.host, NamesFor(ns, g, b.section, eligible), AllDomainPatches(ns, g, eligible, backends[..|backends| - 1]))
  }

  function RoutePatches(ns: string, g: Gateway, eligible: set<string>, routes: seq<ConnectRoute>): seq<Patch>
  {
    if routes == [] then []
    else
      var cr := routes[|routes| - 1];
      RoutePatches(ns, g, eligible, routes[..|routes| - 1]) + Inserts(NamesFor(ns, g, cr.section, eligible), cr.route)
  }

  function Inserts(configs: seq<string>, route: Route): seq<Patch>
  {
    seq(|configs|, k requires 0 <= k < |configs| => InsertRoute(configs[k], route))
  }

  function Patches(ns: string, listener: string, g: Gateway, proxy: HTTPProxy, backends: seq<BackendPatch>, eligible: set<string>): seq<Patch>
  {
    ClusterPatches(ns, listener, proxy.name, backends)
    + AllDomainPatches(ns, g, eligible, backends)
    + RoutePatches(ns, g, eligible, ConnectRoutes(ns, proxy, backends))
  }

  // ----- The set of domains seen so far -----

  function Key(domain: string, config: string): string { domain + "|" + config }

  predicate BarFree(ns: string, g: Gateway)
  {
    '|' !in ns && '|' !in g.name && forall l :: l in g.listeners ==> '|' !in l.name
  }

  lemma LastBar(d: string, c: string)
    requires '|' !in c
    ensures var k := Key(d, c);
            k[|d|] == '|' && k[..|d|] == d && k[|d| + 1..] == c && forall i :: |d| < i < |k| ==> k[i] != '|'
  {
    var k := Key(d, c);
    assert forall i :: |d| < i < |k| ==> k[i] == c[i - |d| - 1] && k[i] in c;
  }

  lemma KeyInjective(d1: string, c1: string, d2: string, c2: string)
    requires '|' !in c1 && '|' !in c2 && Key(d1, c1) == Key(d2, c2)
    ensures d1 == d2 && c1 == c2
  {
    LastBar(d1, c1);
    LastBar(d2, c2);
    assert |d1| == |d2|;
  }

  lemma NamesAreBarFree(ns: string, g: Gateway, section: Option<string>, eligible: set<string>)
    requires BarFree(ns, g)
    ensures forall c :: c in NamesFor(ns, g, section, eligible) ==> '|' !in c
  {
    AllNamesAre(ns, g, eligible, |g.listeners|);
  }

  /** `seen` holds exactly the keys of the domains already patched in. */
  ghost predicate Tracks(seen: set<string>, ps: seq<Patch>)
  {
    && (forall p :: p in ps ==> p.AddDomain? && '|' !in p.config && Key(p.domain, p.config) in seen)
    && (forall k :: k in seen ==> exists p :: p in ps && p.AddDomain? && k == Key(p.domain, p.config))
  }

  lemma SeenMeansPatched(seen: set<string>, ps: seq<Patch>, domain: string, config: string)
    requires Tracks(seen, ps) && '|' !in config
    ensures Key(domain, config) in seen <==> AddDomain(config, domain) in ps
  {
    if Key(domain, config) in seen {
      var p :| p in ps && p.AddDomain? && Key(domain, config) == Key(p.domain, p.config);
      KeyInjective(domain, config, p.domain, p.config);
    }
  }

  method PatchDomain(host: string, configs: seq<string>, before: seq<Patch>, seenBefore: set<string>)
    returns (ps: seq<Patch>, seen: set<string>)
    requires Tracks(seenBefore, before) && forall c :: c in configs ==> '|' !in c
    ensures ps == DomainPatches(host, configs, before) && Tracks(seen, ps)
  {
    ps, seen := before, seenBefore;
    for k := 0 to |configs|
      invariant ps == DomainPatches(host, configs[..k], before) && Tracks(seen, ps)
    {
      assert configs[..k + 1][..k] == configs[..k];
      var key := Key(host, configs[k]);
      SeenMeansPatched(seen, ps, host, configs[k]);
      if key !in seen {
        assert forall k' :: k' in seen + {key} ==> k' in seen || k' == key;
        var p := AddDomain(configs[k], host);
        assert p in ps + [p];
        seen := seen + {key};
        ps := ps + [p];
      }
    }
    assert configs[..|configs|] == configs;
  }

  method BuildConnectorEnvoyPatches(ns: string, listener: string, g: Gateway, proxy: HTTPProxy, backends: seq<BackendPatch>, eligible: set<string>)
    returns (patches: seq<Patch>)
    requires BarFree(ns, g)
    ensures patches == Patches(ns, listener, g, proxy, backends, eligible)
  {
    var clusters: seq<Patch> := [];
    for k := 0 to |backends|
      invariant |clusters| == k
      invariant forall j :: 0 <= j < k ==> clusters[j] == ReplaceCluster(ClusterName(ns, proxy.name, backends[j].rule), TunnelOf(listener, backends[j]))
    {
      var b := backends[k];
      clusters := clusters + [ReplaceCluster(ClusterName(ns, proxy.name, b.rule), Tunnel(listener, b.host, b.port, b.node))];
    }
    assert clusters == ClusterPatches(ns, listener, proxy.name, backends);

    var all := HTTPSRouteConfigNames(ns, g, eligible);
    var domains := PatchDomains(ns, g, backends, all, eligible);
    var routes := PatchRoutes(ns, g, proxy, backends, all, eligible);
    patches := clusters + domains + routes;
  }

  method PatchDomains(ns: string, g: Gateway, backends: seq<BackendPatch>, all: seq<string>, eligible: set<string>) returns (domains: seq<Patch>)
    requires BarFree(ns, g) && all == AllNames(ns, g, eligible, |g.listeners|)
    ensures domains == AllDomainPatches(ns, g, eligible, backends)
  {
    domains := [];
    var seen: set<string> := {};
    for k := 0 to |backends|
      invariant domains == AllDomainPatches(ns, g, eligible, backends[..k]) && Tracks(seen, domains)
    {
      assert backends[..k + 1][..k] == backends[..k];
      var configs := HTTPSRouteConfigNamesForSection(ns, g, backends[k].section, all, eligible);
      NamesAreBarFree(ns, g, backends[k].section, eligible);
      domains, seen := PatchDomain(backends[k].host, configs, domains, seen);
    }
    assert backends[..|backends|] == backends;
  }

  method PatchRoutes(ns: string, g: Gateway, proxy: HTTPProxy, backends: seq<BackendPatch>, all: seq<string>, eligible: set<string>)
    returns (patches: seq<Patch>)
    requires all == AllNames(ns, g, eligible, |g.listeners|)
    ensures patches == RoutePatches(ns, g, eligible, ConnectRoutes(ns, proxy, backends))
  {
    var routes := BuildConnectorConnectRoutes(ns, proxy, backends);
    patches := [];
    for k := 0 to |routes|
      invariant patches == RoutePatches(ns, g, eligible, routes[..k])
    {
      assert routes[..k + 1][..k] == routes[..k];
      var configs := HTTPSRouteConfigNamesForSection(ns, g, routes[k].section, all, eligible);
      var inserts := InsertEverywhere(configs, routes[k].route);
      patches := patches + inserts;
    }
    assert routes[..|routes|] == routes;
  }

  method InsertEverywhere(configs: seq<string>, route: Route) returns (patches: seq<Patch>)
    ensures patches == Inserts(configs, route)
  {
    patches := [];
    for j := 0 to |configs|
      invariant |patches| == j && forall i :: 0 <= i < j ==> patches[i] == InsertRoute(configs[i], route)
    {
      patches := patches + [InsertRoute(configs[j], route)];
    }
  }

  function OfflineRoute(name: string): Route { Route("connector-offline-" + name, ConnectMatcher, Respond(503, "Tunnel not online")) }

  method BuildConnectorOfflineEnvoyPatches(ns: string, g: Gateway, proxy: HTTPProxy, eligible: set<string>) returns (patches: seq<Patch>)
    ensures patches == Inserts(AllNames(ns, g, eligible, |g.listeners|), OfflineRoute(proxy.name))
  {
    var names := HTTPSRouteConfigNames(ns, g, eligible);
    patches := InsertEverywhere(names, OfflineRoute(proxy.name));
  }
}
