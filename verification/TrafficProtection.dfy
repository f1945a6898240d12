/** Which TrafficProtectionPolicy attaches where: the conflict resolution of
    internal/controller/trafficprotectionpolicy_controller.go.

    Policies are ordered by age and then offered their targets in four passes (gateways, listeners,
    routes, route rules). The first policy offered a slot keeps it; `Collector` is the loop that does
    so, `Run` its specification, and `IsWinner` the order-free statement of who ends up where.
 */
module TrafficProtection {
  import opened Ordering

  // ----- Kubernetes objects -----

  datatype Key = Key(ns: string, name: string)

  const KIND_GATEWAY := "Gateway"

  datatype Protocol = HTTP | HTTPS | OtherProtocol

  datatype Listener = Listener(name: string, protocol: Protocol)

  datatype Gateway = Gateway(ns: string, name: string, listeners: seq<Listener>)

  datatype ParentRef = ParentRef(kind: Option<string>, ns: Option<string>, name: string, section: Option<string>)

  /** A route's rules are known by their optional names only. */
  datatype Route = Route(ns: string, name: string, rules: seq<Option<string>>, parents: seq<ParentRef>)

  datatype TargetRef = TargetRef(kind: string, name: string, section: Option<string>)

  datatype Mode = Observe | Enforce | Disabled

  datatype OwaspCrs = OwaspCrs(
    blocking: int, detection: int, inbound: int, outbound: int,
    excludedTags: seq<string>, excludedIds: seq<int>, excludedRanges: seq<string>)

  datatype RuleSet = OwaspCoreRuleSet(crs: OwaspCrs) | OtherRuleSet

  datatype Policy = Policy(
    ns: string, name: string, created: int, deleting: bool, targets: seq<TargetRef>,
    mode: Mode, sampling: int, ruleSets: seq<RuleSet>)

  /** The namespace listing a reconcile works on, indexed by object key. */
  datatype World = World(gateways: map<Key, Gateway>, routes: map<Key, Route>)

  // ----- Directives -----

  datatype Directive =
    | Base(text: string)
    | SecRuleEngine(mode: Mode)
    | ScoreThresholds(inbound: int, outbound: int)
    | BlockingParanoia(level: int)
    | DetectionParanoia(level: int)
    | SamplingPercentage(percentage: int)
    | IncludeCrs
    | RemoveByTag(tag: string)
    | RemoveById(id: int)
    | RemoveByRange(range: string)

  function FirstOwasp(ruleSets: seq<RuleSet>): Option<OwaspCrs>
  {
    if ruleSets == [] then None
    else if ruleSets[0].OwaspCoreRuleSet? then Some(ruleSets[0].crs)
    else FirstOwasp(ruleSets[1..])
  }

  function Directives(base: seq<Directive>, p: Policy): seq<Directive>
  {
    match FirstOwasp(p.ruleSets)
    case None => []
    case Some(crs) =>
      base + Settings(p, crs) + [IncludeCrs] + Removals(crs)
  }

  function Removals(crs: OwaspCrs): seq<Directive>
  {
    seq(|crs.excludedTags|, i requires 0 <= i < |crs.excludedTags| => RemoveByTag(crs.excludedTags[i]))
    + seq(|crs.excludedIds|, i requires 0 <= i < |crs.excludedIds| => RemoveById(crs.excludedIds[i]))
    + seq(|crs.excludedRanges|, i requires 0 <= i < |crs.excludedRanges| => RemoveByRange(crs.excludedRanges[i]))
  }

  /** The rule set that counts: the first OWASP one. */
  ghost predicate UsesRuleSet(p: Policy, crs: OwaspCrs)
  {
    exists i :: 0 <= i < |p.ruleSets| && p.ruleSets[i] == OwaspCoreRuleSet(crs) && forall j :: 0 <= j < i ==> !p.ruleSets[j].OwaspCoreRuleSet?
  }

  lemma {:induction false} FirstOwaspIs(p: Policy, ruleSets: seq<RuleSet>, n: nat)
    requires n <= |p.ruleSets| && ruleSets == p.ruleSets[n..] && forall j :: 0 <= j < n ==> !p.ruleSets[j].OwaspCoreRuleSet?
    ensures FirstOwasp(ruleSets).Some? ==> UsesRuleSet(p, FirstOwasp(ruleSets).value)
    ensures FirstOwasp(ruleSets).None? ==> forall r :: r in p.ruleSets ==> r.OtherRuleSet?
    decreases |ruleSets|
  {
    if ruleSets == [] || ruleSets[0].OwaspCoreRuleSet? {
      assert ruleSets != [] ==> ruleSets[0] == p.ruleSets[n];
    } else {
      assert ruleSets[0] == p.ruleSets[n] && ruleSets[1..] == p.ruleSets[n + 1..];
      FirstOwaspIs(p, ruleSets[1..], n + 1);
    }
  }

  /** What the rule set and the policy ask for, directive by directive. */
  ghost predicate Asks(p: Policy, crs: OwaspCrs, d: Directive)
  {
    match d
    case Base(_) => false
    case SecRuleEngine(mode) => mode == p.mode
    case ScoreThresholds(inbound, outbound) => inbound == crs.inbound && outbound == crs.outbound
    case BlockingParanoia(level) => level == crs.blocking
    case DetectionParanoia(level) => level == crs.detection
    case SamplingPercentage(percentage) => percentage == p.sampling && p.sampling < 100
    case IncludeCrs => true
    case RemoveByTag(tag) => tag in crs.excludedTags
    case RemoveById(id) => id in crs.excludedIds
    case RemoveByRange(range) => range in crs.excludedRanges
  }

  /** Takes effect only after the rules have been included. */
  predicate Removes(d: Directive) { d.RemoveByTag? || d.RemoveById? || d.RemoveByRange? }

  lemma RemovalsAre(p: Policy, crs: OwaspCrs)
    ensures forall d :: d in Removals(crs) <==> Removes(d) && Asks(p, crs, d)
  {
    forall d ensures d in Removals(crs) <==> Removes(d) && Asks(p, crs, d) {
      var tags := seq(|crs.excludedTags|, i requires 0 <= i < |crs.excludedTags| => RemoveByTag(crs.excludedTags[i]));
      var ids := seq(|crs.excludedIds|, i requires 0 <= i < |crs.excludedIds| => RemoveById(crs.excludedIds[i]));
      var ranges := seq(|crs.excludedRanges|, i requires 0 <= i < |crs.excludedRanges| => RemoveByRange(crs.excludedRanges[i]));
      assert d in Removals(crs) <==> d in tags || d in ids || d in ranges;
      if d.RemoveByTag? && d.tag in crs.excludedTags { var i :| 0 <= i < |tags| && crs.excludedTags[i] == d.tag; assert tags[i] == d; }
      if d.RemoveById? && d.id in crs.excludedIds { var i :| 0 <= i < |ids| && crs.excludedIds[i] == d.id; assert ids[i] == d; }
      if d.RemoveByRange? && d.range in crs.excludedRanges { var i :| 0 <= i < |ranges| && crs.excludedRanges[i] == d.range; assert ranges[i] == d; }
    }
  }

  function Settings(p: Policy, crs: OwaspCrs): seq<Directive>
  {
    [SecRuleEngine(p.mode), ScoreThresholds(crs.inbound, crs.outbound)]
    + [BlockingParanoia(crs.blocking), DetectionParanoia(crs.detection)]
    + if p.sampling < 100 then [SamplingPercentage(p.sampling)] else []
  }

  /** The base directives, then what is asked for and nothing else: settings, the rules, removals. */
  ghost predicate LaidOut(ds: seq<Directive>, base: seq<Directive>, before: seq<Directive>, after: seq<Directive>, p: Policy, crs: OwaspCrs)
  {
    && ds == base + before + [IncludeCrs] + after
    && (forall d :: d in before <==> Asks(p, crs, d) && d != IncludeCrs && !Removes(d))
    && (forall d :: d in after <==> Asks(p, crs, d) && Removes(d))
  }

  /** A policy without an OWASP rule set asks for nothing. Otherwise its first one decides: everything
      it and the policy ask for and nothing else, the settings before the rules are included and the
      removals after. */
  lemma DirectivesSay(base: seq<Directive>, p: Policy)
    ensures (forall r :: r in p.ruleSets ==> r.OtherRuleSet?) ==> Directives(base, p) == []
    ensures forall crs :: UsesRuleSet(p, crs) ==> exists before, after :: LaidOut(Directives(base, p), base, before, after, p, crs)
  {
    assert p.ruleSets[0..] == p.ruleSets;
    FirstOwaspIs(p, p.ruleSets, 0);
    var first := FirstOwasp(p.ruleSets);
    assert first.Some? ==> OwaspCoreRuleSet(first.value) in p.ruleSets;
    forall crs | UsesRuleSet(p, crs) ensures exists before, after :: LaidOut(Directives(base, p), base, before, after, p, crs) {
      assert FirstOwasp(p.ruleSets) == Some(crs);
      RemovalsAre(p, crs);
      SettingsAre(p, crs);
      assert LaidOut(Directives(base, p), base, Settings(p, crs), Removals(crs), p, crs);
    }
  }

  lemma SettingsAre(p: Policy, crs: OwaspCrs)
    ensures forall d :: d in Settings(p, crs) <==> Asks(p, crs, d) && d != IncludeCrs && !Removes(d)
  {
    var fixed := [SecRuleEngine(p.mode), ScoreThresholds(crs.inbound, crs.outbound)] + [BlockingParanoia(crs.blocking), DetectionParanoia(crs.detection)];
    assert fixed[0] in fixed && fixed[1] in fixed && fixed[2] in fixed && fixed[3] in fixed;
    assert forall d :: d in Settings(p, crs) <==> d in fixed || (p.sampling < 100 && d == SamplingPercentage(p.sampling));
  }

  method GetCorazaDirectives(base: seq<Directive>, p: Policy) returns (ds: seq<Directive>)
    ensures ds == Directives(base, p)
  {
    var owasp: Option<OwaspCrs> := None;
    for i := 0 to |p.ruleSets|
      invariant owasp.None? && FirstOwasp(p.ruleSets) == FirstOwasp(p.ruleSets[i..])
    {
      if p.ruleSets[i].OwaspCoreRuleSet? {
        owasp := Some(p.ruleSets[i].crs);
        break;
      }
      assert p.ruleSets[i..][1..] == p.ruleSets[i + 1..];
    }
    if owasp.None? {
      return [];
    }
    var crs := owasp.value;
    ds := base + [SecRuleEngine(p.mode), ScoreThresholds(crs.inbound, crs.outbound)];
    ds := ds + [BlockingParanoia(crs.blocking), DetectionParanoia(crs.detection)];
    if p.sampling < 100 {
      ds := ds + [SamplingPercentage(p.sampling)];
    }
    ds := ds + [IncludeCrs];
    var removals := AppendRemovals(crs);
    ds := ds + removals;
  }

  method AppendRemovals(crs: OwaspCrs) returns (ds: seq<Directive>)
    ensures ds == Removals(crs)
  {
    ds := [];
    for i := 0 to |crs.excludedTags|
      invariant ds == seq(i, k requires 0 <= k < i => RemoveByTag(crs.excludedTags[k]))
    {
      ds := ds + [RemoveByTag(crs.excludedTags[i])];
    }
    ghost var tags := ds;
    for i := 0 to |crs.excludedIds|
      invariant ds == tags + seq(i, k requires 0 <= k < i => RemoveById(crs.excludedIds[k]))
    {
      ds := ds + [RemoveById(crs.excludedIds[i])];
    }
    ghost var ids := ds;
    for i := 0 to |crs.excludedRanges|
      invariant ds == ids + seq(i, k requires 0 <= k < i => RemoveByRange(crs.excludedRanges[k]))
    {
      ds := ds + [RemoveByRange(crs.excludedRanges[i])];
    }
  }

  /** Some rule set detects below the level it blocks at; such a policy must not be attached. */
  predicate InvertedParanoia(p: Policy)
  {
    exists i :: 0 <= i < |p.ruleSets| && p.ruleSets[i].OwaspCoreRuleSet?
      && p.ruleSets[i].crs.detection < p.ruleSets[i].crs.blocking
  }

  predicate Protects(base: seq<Directive>, p: Policy)
  {
    !InvertedParanoia(p) && Directives(base, p) != []
  }

  // ----- Precedence -----

  /** Older first, then namespace, then name. */
  predicate Before(p: Policy, q: Policy)
  {
    if p.created != q.created then p.created < q.created
    else if p.ns != q.ns then StringLess(p.ns, q.ns)
    else StringLess(p.name, q.name)
  }

  function KeyOf(p: Policy): Key { Key(p.ns, p.name) }

  /** No two policies share a namespace and name, as the API server guarantees. */
  ghost predicate DistinctKeys(ps: seq<Policy>)
  {
    forall i, j :: 0 <= i < j < |ps| ==> KeyOf(ps[i]) != KeyOf(ps[j])
  }

  function Live(ps: seq<Policy>): (r: seq<Policy>)
    ensures forall p :: p in r <==> p in ps && !p.deleting
  {
    if ps == [] then []
    else
      var n := |ps| - 1;
      assert ps == ps[..n] + [ps[n]];
      Live(ps[..n]) + if ps[n].deleting then [] else [ps[n]]
  }

  function Contexts(ps: seq<Policy>): (r: seq<Policy>)
    ensures forall p :: p in r <==> p in ps && !p.deleting
  {
    Sort(Before, Live(ps))
  }

  method GetTrafficProtectionPolicyContexts(policies: seq<Policy>) returns (contexts: seq<Policy>)
    requires DistinctKeys(policies)
    ensures contexts == Contexts(policies)
    ensures forall i, j :: 0 <= i < j < |contexts| ==>
      var p, q := contexts[i], contexts[j];
      || p.created < q.created
      || (p.created == q.created && StringLess(p.ns, q.ns))
      || (p.created == q.created && p.ns == q.ns && StringLess(p.name, q.name))
    ensures forall p :: p in contexts <==> p in policies && !p.deleting
  {
    contexts := [];
    for i := 0 to |policies|
      invariant contexts == Live(policies[..i])
    {
      assert policies[..i + 1][..i] == policies[..i];
      if !policies[i].deleting {
        contexts := contexts + [policies[i]];
      }
    }
    assert policies[..|policies|] == policies;
    contexts := Sort(Before, contexts);
    ContextsSorted(policies);
  }

  lemma PoliciesAreStrict(ps: seq<Policy>)
    requires DistinctKeys(ps)
    ensures StrictOn(Before, ps) && NoDuplicates(ps)
  {
    forall x | x in ps ensures !Before(x, x) { StringLessIrreflexive(x.name); }
    forall x, y, z | x in ps && y in ps && z in ps && Before(x, y) && Before(y, z) ensures Before(x, z) {
      if x.created == y.created == z.created {
        if x.ns == y.ns == z.ns {
          StringLessTransitive(x.name, y.name, z.name);
        } else if x.ns != y.ns && y.ns != z.ns {
          StringLessTransitive(x.ns, y.ns, z.ns);
          if x.ns == z.ns { StringLessIrreflexive(x.ns); }
        }
      }
    }
    forall x, y | x in ps && y in ps && x != y ensures Before(x, y) || Before(y, x) {
      assert KeyOf(x) != KeyOf(y);
      if x.ns != y.ns { StringLessTotal(x.ns, y.ns); } else { StringLessTotal(x.name, y.name); }
    }
  }

  lemma {:induction false} LiveKeepsKeysDistinct(ps: seq<Policy>)
    requires DistinctKeys(ps)
    ensures DistinctKeys(Live(ps))
  {
    if ps != [] {
      var n := |ps| - 1;
      LiveKeepsKeysDistinct(ps[..n]);
      var l := Live(ps[..n]);
      forall i | 0 <= i < |l| ensures KeyOf(l[i]) != KeyOf(ps[n]) {
        assert l[i] in ps[..n];
      }
    }
  }

  lemma ContextsSorted(ps: seq<Policy>)
    requires DistinctKeys(ps)
    ensures Sorted(Before, Contexts(ps))
  {
    LiveKeepsKeysDistinct(ps);
    PoliciesAreStrict(Live(ps));
    SortSorted(Before, Live(ps));
  }

  // ----- Slots -----

  /** What at most one policy may occupy. */
  datatype Slot =
    | GatewaySlot(gateway: Key)
    | ListenerSlot(gateway: Key, listener: string)
    | RouteSlot(route: Key)
    | RuleSlot(route: Key, rule: string)

  /** One policy being offered one of its targets. */
  datatype Attempt = Attempt(policy: Policy, target: TargetRef)

  function TargetKey(a: Attempt): Key { Key(a.policy.ns, a.target.name) }

  predicate HasListener(g: Gateway, name: string)
  {
    exists i :: 0 <= i < |g.listeners| && g.listeners[i].name == name
  }

  predicate HasRule(r: Route, name: string)
  {
    exists i :: 0 <= i < |r.rules| && r.rules[i] == Some(name)
  }

  predicate TargetExists(w: World, a: Attempt)
  {
    if a.target.kind == KIND_GATEWAY then TargetKey(a) in w.gateways else TargetKey(a) in w.routes
  }

  /** The slot an attempt is about, if its target and section exist. */
  function SlotOf(w: World, a: Attempt): Option<Slot>
  {
    var k := TargetKey(a);
    if a.target.kind == KIND_GATEWAY then
      if k !in w.gateways then None
      else match a.target.section
        case None => Some(GatewaySlot(k))
        case Some(l) => if HasListener(w.gateways[k], l) then Some(ListenerSlot(k, l)) else None
    else
      if k !in w.routes then None
      else match a.target.section
        case None => Some(RouteSlot(k))
        case Some(r) => if HasRule(w.routes[k], r) then Some(RuleSlot(k, r)) else None
  }

  /** The pass (0 to 3, rising specificity) in which a target is offered. */
  function PassOf(t: TargetRef): nat
  {
    if t.kind == KIND_GATEWAY then (if t.section.None? then 0 else 1)
    else (if t.section.None? then 2 else 3)
  }

  function SlotPass(s: Slot): nat
  {
    match s
    case GatewaySlot(_) => 0
    case ListenerSlot(_, _) => 1
    case RouteSlot(_) => 2
    case RuleSlot(_, _) => 3
  }

  // ----- Attachments -----

  datatype Attachment = Attachment(
    policy: Policy, gateway: Gateway, listener: Option<string>,
    route: Option<Route>, rule: Option<string>, directives: seq<Directive>)

  function ParentGatewayKey(r: Route, p: ParentRef): Key
  {
    Key(if p.ns.Some? then p.ns.value else r.ns, p.name)
  }

  predicate IsGatewayParent(w: World, r: Route, p: ParentRef)
  {
    (p.kind.None? || p.kind.value == KIND_GATEWAY) && ParentGatewayKey(r, p) in w.gateways
  }

  function EmitForParents(w: World, a: Attempt, r: Route, ds: seq<Directive>, parents: seq<ParentRef>): seq<Attachment>
  {
    if parents == [] then []
    else
      var n := |parents| - 1;
      EmitForParents(w, a, r, ds, parents[..n])
      + if IsGatewayParent(w, r, parents[n])
        then [Attachment(a.policy, w.gateways[ParentGatewayKey(r, parents[n])], parents[n].section,
                         Some(r), a.target.section, ds)]
        else []
  }

  /** The attachments made by an attempt that got its slot. */
  function Emit(w: World, base: seq<Directive>, a: Attempt): seq<Attachment>
    requires TargetExists(w, a)
  {
    var ds := Directives(base, a.policy);
    if ds == [] then []
    else if a.target.kind == KIND_GATEWAY then
      [Attachment(a.policy, w.gateways[TargetKey(a)], a.target.section, None, None, ds)]
    else
      EmitForParents(w, a, w.routes[TargetKey(a)], ds, w.routes[TargetKey(a)].parents)
  }

  datatype Outcome = Accepted | Conflicted | TargetNotFound | Invalid

  datatype Report = Report(policy: Key, target: TargetRef, outcome: Outcome)

  datatype State = State(taken: set<Slot>, attachments: seq<Attachment>, reports: seq<Report>)

  const INIT := State({}, [], [])

  /** One attempt. A policy with inverted paranoia levels keeps its slot and attaches nothing. */
  function Step(w: World, base: seq<Directive>, st: State, a: Attempt): State
  {
    if !TargetExists(w, a) then st
    else match SlotOf(w, a)
      case None => st.(reports := st.reports + [Report(KeyOf(a.policy), a.target, TargetNotFound)])
      case Some(s) =>
        if s in st.taken then
          st.(reports := st.reports + [Report(KeyOf(a.policy), a.target, Conflicted)])
        else if InvertedParanoia(a.policy) then
          State(st.taken + {s}, st.attachments, st.reports + [Report(KeyOf(a.policy), a.target, Invalid)])
        else
          State(st.taken + {s}, st.attachments + Emit(w, base, a),
                st.reports + [Report(KeyOf(a.policy), a.target, Accepted)])
  }

  function Run(w: World, base: seq<Directive>, st: State, attempts: seq<Attempt>): State
  {
    if attempts == [] then st
    else
      var n := |attempts| - 1;
      Step(w, base, Run(w, base, st, attempts[..n]), attempts[n])
  }

  function TargetsIn(p: Policy, targets: seq<TargetRef>, pass: nat): (r: seq<Attempt>)
    ensures forall a :: a in r <==> a.policy == p && a.target in targets && PassOf(a.target) == pass
  {
    if targets == [] then []
    else
      var n := |targets| - 1;
      assert targets == targets[..n] + [targets[n]];
      TargetsIn(p, targets[..n], pass) + if PassOf(targets[n]) == pass then [Attempt(p, targets[n])] else []
  }

  function Attempts(ps: seq<Policy>, pass: nat): (r: seq<Attempt>)
    ensures forall a :: a in r <==> a.policy in ps && a.target in a.policy.targets && PassOf(a.target) == pass
  {
    if ps == [] then []
    else
      var n := |ps| - 1;
      assert ps == ps[..n] + [ps[n]];
      Attempts(ps[..n], pass) + TargetsIn(ps[n], ps[n].targets, pass)
  }

  function AllAttempts(ps: seq<Policy>): seq<Attempt>
  {
    Attempts(ps, 0) + Attempts(ps, 1) + Attempts(ps, 2) + Attempts(ps, 3)
  }

  /** What the reconcile collects from the listed policies. */
  function Collected(w: World, base: seq<Directive>, ps: seq<Policy>): State
  {
    Run(w, base, INIT, AllAttempts(Contexts(ps)))
  }

  lemma {:induction false} RunConcat(w: World, base: seq<Directive>, st: State, xs: seq<Attempt>, ys: seq<Attempt>)
    ensures Run(w, base, st, xs + ys) == Run(w, base, Run(w, base, st, xs), ys)
  {
    if ys == [] {
      assert xs + ys == xs;
    } else {
      var n := |ys| - 1;
      assert (xs + ys)[..|xs + ys| - 1] == xs + ys[..n];
      RunConcat(w, base, st, xs, ys[..n]);
    }
  }

  // ----- The imperative collector -----

  datatype GatewayTarget = GatewayTarget(gateway: Gateway, attached: bool, attachedToListeners: set<string>)

  datatype RouteTarget = RouteTarget(route: Route, attached: bool, attachedToRouteRules: set<string>)

  function GatewayMap(gateways: seq<Gateway>): map<Key, Gateway>
  {
    if gateways == [] then map[]
    else
      var n := |gateways| - 1;
      GatewayMap(gateways[..n])[Key(gateways[n].ns, gateways[n].name) := gateways[n]]
  }

  function RouteMap(routes: seq<Route>): map<Key, Route>
  {
    if routes == [] then map[]
    else
      var n := |routes| - 1;
      RouteMap(routes[..n])[Key(routes[n].ns, routes[n].name) := routes[n]]
  }

  function WorldOf(gateways: seq<Gateway>, routes: seq<Route>): World
  {
    World(GatewayMap(gateways), RouteMap(routes))
  }

  /** The listing two target maps were built from. */
  ghost function Listing(gm: map<Key, GatewayTarget>, rm: map<Key, RouteTarget>): World
  {
    World(map k | k in gm :: gm[k].gateway, map k | k in rm :: rm[k].route)
  }

  /** A slot is taken when the flag or set of its target context says so. */
  ghost predicate Flagged(gm: map<Key, GatewayTarget>, rm: map<Key, RouteTarget>, s: Slot)
  {
    match s
    case GatewaySlot(k) => k in gm && gm[k].attached
    case ListenerSlot(k, l) => k in gm && l in gm[k].attachedToListeners
    case RouteSlot(k) => k in rm && rm[k].attached
    case RuleSlot(k, r) => k in rm && r in rm[k].attachedToRouteRules
  }

  /** The target maps hold exactly the slots `taken` over the listing `w`. */
  ghost predicate HoldsSlots(gm: map<Key, GatewayTarget>, rm: map<Key, RouteTarget>, w: World, taken: set<Slot>)
  {
    && Listing(gm, rm) == w
    && (forall s: Slot :: s in taken <==> Flagged(gm, rm, s))
    && (forall k, l :: k in gm && l in gm[k].attachedToListeners ==> HasListener(gm[k].gateway, l))
  }

  lemma TakesGatewaySlot(gm: map<Key, GatewayTarget>, rm: map<Key, RouteTarget>, w: World, taken: set<Slot>, k: Key)
    requires HoldsSlots(gm, rm, w, taken) && k in gm
    ensures HoldsSlots(gm[k := gm[k].(attached := true)], rm, w, taken + {GatewaySlot(k)})
  {
  }

  lemma TakesListenerSlot(gm: map<Key, GatewayTarget>, rm: map<Key, RouteTarget>, w: World, taken: set<Slot>, k: Key, l: string)
    requires HoldsSlots(gm, rm, w, taken) && k in gm && HasListener(gm[k].gateway, l)
    ensures HoldsSlots(gm[k := gm[k].(attachedToListeners := gm[k].attachedToListeners + {l})], rm, w, taken + {ListenerSlot(k, l)})
  {
  }

  lemma TakesRouteSlot(gm: map<Key, GatewayTarget>, rm: map<Key, RouteTarget>, w: World, taken: set<Slot>, k: Key)
    requires HoldsSlots(gm, rm, w, taken) && k in rm
    ensures HoldsSlots(gm, rm[k := rm[k].(attached := true)], w, taken + {RouteSlot(k)})
  {
  }

  lemma TakesRuleSlot(gm: map<Key, GatewayTarget>, rm: map<Key, RouteTarget>, w: World, taken: set<Slot>, k: Key, r: string)
    requires HoldsSlots(gm, rm, w, taken) && k in rm
    ensures HoldsSlots(gm, rm[k := rm[k].(attachedToRouteRules := rm[k].attachedToRouteRules + {r})], w, taken + {RuleSlot(k, r)})
  {
  }

  lemma RunOneMore(w: World, base: seq<Directive>, st: State, attempts: seq<Attempt>, a: Attempt)
    ensures Run(w, base, st, attempts + [a]) == Step(w, base, Run(w, base, st, attempts), a)
  {
    assert (attempts + [a])[..|attempts|] == attempts;
  }

  lemma OfferedNext(w: World, base: seq<Directive>, st: State, p: Policy, pass: nat, j: nat)
    requires j < |p.targets|
    ensures var before := Run(w, base, st, TargetsIn(p, p.targets[..j], pass));
            Run(w, base, st, TargetsIn(p, p.targets[..j + 1], pass)) ==
            if PassOf(p.targets[j]) == pass then Step(w, base, before, Attempt(p, p.targets[j])) else before
  {
    var done, a := TargetsIn(p, p.targets[..j], pass), Attempt(p, p.targets[j]);
    assert p.targets[..j + 1][..j] == p.targets[..j];
    assert TargetsIn(p, p.targets[..j + 1], pass) == if PassOf(a.target) == pass then done + [a] else done;
    RunOneMore(w, base, st, done, a);
  }

  class Collector {
    const base: seq<Directive>
    var gatewayMap: map<Key, GatewayTarget>
    var routeMap: map<Key, RouteTarget>
    var attachments: seq<Attachment>
    var reports: seq<Report>

    ghost function W(): World
      reads this
    {
      Listing(gatewayMap, routeMap)
    }

    /** The collector's fields hold exactly the state `st` over the listing `w`. */
    ghost predicate Holds(w: World, st: State)
      reads this
    {
      HoldsSlots(gatewayMap, routeMap, w, st.taken) && attachments == st.attachments && reports == st.reports
    }

    constructor (base: seq<Directive>, gateways: seq<Gateway>, routes: seq<Route>)
      ensures this.base == base
      ensures Holds(WorldOf(gateways, routes), INIT)
    {
      this.base := base;
      attachments, reports := [], [];
      new;
      var rm: map<Key, RouteTarget> := map[];
      for i := 0 to |routes|
        invariant (map k | k in rm :: rm[k].route) == RouteMap(routes[..i])
        invariant forall k :: k in rm ==> !rm[k].attached && rm[k].attachedToRouteRules == {}
      {
        assert routes[..i + 1][..i] == routes[..i];
        rm := rm[Key(routes[i].ns, routes[i].name) := RouteTarget(routes[i], false, {})];
      }
      var gm: map<Key, GatewayTarget> := map[];
      for i := 0 to |gateways|
        invariant (map k | k in gm :: gm[k].gateway) == GatewayMap(gateways[..i])
        invariant forall k :: k in gm ==> !gm[k].attached && gm[k].attachedToListeners == {}
      {
        assert gateways[..i + 1][..i] == gateways[..i];
        gm := gm[Key(gateways[i].ns, gateways[i].name) := GatewayTarget(gateways[i], false, {})];
      }
      assert routes[..|routes|] == routes && gateways[..|gateways|] == gateways;
      routeMap, gatewayMap := rm, gm;
    }

    method ProcessForGateway(policy: Policy, target: TargetRef, ghost w: World, ghost st: State)
      requires Holds(w, st) && target.kind == KIND_GATEWAY
      modifies this
      ensures Holds(w, Step(w, base, st, Attempt(policy, target)))
    {
      var key := Key(policy.ns, target.name);
      if key !in gatewayMap {
        return;
      }
      var g := gatewayMap[key];
      match target.section {
        case None =>
          if g.attached {
            assert GatewaySlot(key) in st.taken;
            reports := reports + [Report(KeyOf(policy), target, Conflicted)];
            return;
          }
          assert GatewaySlot(key) !in st.taken;
          TakesGatewaySlot(gatewayMap, routeMap, w, st.taken, key);
          gatewayMap := gatewayMap[key := g.(attached := true)];
        case Some(name) =>
          if name in g.attachedToListeners {
            assert ListenerSlot(key, name) in st.taken;
            reports := reports + [Report(KeyOf(policy), target, Conflicted)];
            return;
          }
          assert ListenerSlot(key, name) !in st.taken;
          if !HasListener(g.gateway, name) {
            reports := reports + [Report(KeyOf(policy), target, TargetNotFound)];
            return;
          }
          TakesListenerSlot(gatewayMap, routeMap, w, st.taken, key, name);
          gatewayMap := gatewayMap[key := g.(attachedToListeners := g.attachedToListeners + {name})];
      }
      if InvertedParanoia(policy) {
        reports := reports + [Report(KeyOf(policy), target, Invalid)];
        return;
      }
      reports := reports + [Report(KeyOf(policy), target, Accepted)];
      var directives := GetCorazaDirectives(base, policy);
      if directives != [] {
        attachments := attachments + [Attachment(policy, g.gateway, target.section, None, None, directives)];
      }
    }

    method ProcessForHTTPRoute(policy: Policy, target: TargetRef, ghost w: World, ghost st: State)
      requires Holds(w, st) && target.kind != KIND_GATEWAY
      modifies this
      ensures Holds(w, Step(w, base, st, Attempt(policy, target)))
    {
      var key := Key(policy.ns, target.name);
      if key !in routeMap {
        return;
      }
      var r := routeMap[key];
      match target.section {
        case None =>
          if r.attached {
            assert RouteSlot(key) in st.taken;
            reports := reports + [Report(KeyOf(policy), target, Conflicted)];
            return;
          }
          assert RouteSlot(key) !in st.taken;
          TakesRouteSlot(gatewayMap, routeMap, w, st.taken, key);
          routeMap := routeMap[key := r.(attached := true)];
        case Some(name) =>
          if !HasRule(r.route, name) {
            reports := reports + [Report(KeyOf(policy), target, TargetNotFound)];
            return;
          }
          if name in r.attachedToRouteRules {
            assert RuleSlot(key, name) in st.taken;
            reports := reports + [Report(KeyOf(policy), target, Conflicted)];
            return;
          }
          assert RuleSlot(key, name) !in st.taken;
          TakesRuleSlot(gatewayMap, routeMap, w, st.taken, key, name);
          routeMap := routeMap[key := r.(attachedToRouteRules := r.attachedToRouteRules + {name})];
      }
      if InvertedParanoia(policy) {
        reports := reports + [Report(KeyOf(policy), target, Invalid)];
        return;
      }
      reports := reports + [Report(KeyOf(policy), target, Accepted)];
      var directives := GetCorazaDirectives(base, policy);
      if directives == [] {
        return;
      }
      var emitted := AttachToParents(policy, target, r.route, directives, w);
      attachments := attachments + emitted;
    }

    /** The loop over the route's parentRefs: one attachment per parent that is a listed gateway. */
    method AttachToParents(policy: Policy, target: TargetRef, r: Route, directives: seq<Directive>, ghost w: World)
      returns (emitted: seq<Attachment>)
      requires W() == w
      ensures emitted == EmitForParents(w, Attempt(policy, target), r, directives, r.parents)
    {
      emitted := [];
      for i := 0 to |r.parents|
        invariant emitted == EmitForParents(w, Attempt(policy, target), r, directives, r.parents[..i])
      {
        assert r.parents[..i + 1][..i] == r.parents[..i];
        var p := r.parents[i];
        if p.kind.None? || p.kind.value == KIND_GATEWAY {
          var gatewayKey := Key(if p.ns.Some? then p.ns.value else r.ns, p.name);
          assert gatewayKey in gatewayMap <==> gatewayKey in w.gateways;
          if gatewayKey in gatewayMap {
            emitted := emitted +
              [Attachment(policy, gatewayMap[gatewayKey].gateway, p.section, Some(r), target.section, directives)];
          }
        }
      }
      assert r.parents[..|r.parents|] == r.parents;
    }

    method Offer(p: Policy, t: TargetRef, ghost w: World, ghost st: State)
      requires Holds(w, st)
      modifies this
      ensures Holds(w, Step(w, base, st, Attempt(p, t)))
    {
      if t.kind == KIND_GATEWAY {
        ProcessForGateway(p, t, w, st);
      } else {
        ProcessForHTTPRoute(p, t, w, st);
      }
    }

    /** Offers a policy those of its targets that belong to the pass. */
    method OfferTargets(p: Policy, pass: nat, ghost w: World, ghost st: State)
      requires Holds(w, st)
      modifies this
      ensures Holds(w, Run(w, base, st, TargetsIn(p, p.targets, pass)))
    {
      ghost var cur := st;
      for j := 0 to |p.targets|
        invariant Holds(w, cur)
        invariant cur == Run(w, base, st, TargetsIn(p, p.targets[..j], pass))
      {
        OfferedNext(w, base, st, p, pass, j);
        if PassOf(p.targets[j]) == pass {
          Offer(p, p.targets[j], w, cur);
          cur := Step(w, base, cur, Attempt(p, p.targets[j]));
        }
      }
      assert p.targets[..|p.targets|] == p.targets;
    }

    /** One of the four passes over all policies. */
    method RunPass(policies: seq<Policy>, pass: nat, ghost w: World, ghost st: State)
      requires Holds(w, st)
      modifies this
      ensures Holds(w, Run(w, base, st, Attempts(policies, pass)))
    {
      for i := 0 to |policies|
        invariant Holds(w, Run(w, base, st, Attempts(policies[..i], pass)))
      {
        ghost var done := Attempts(policies[..i], pass);
        OfferTargets(policies[i], pass, w, Run(w, base, st, done));
        assert policies[..i + 1][..i] == policies[..i];
        RunConcat(w, base, st, done, TargetsIn(policies[i], policies[i].targets, pass));
      }
      assert policies[..|policies|] == policies;
    }

    method Collect(policies: seq<Policy>, ghost w: World)
      requires Holds(w, INIT)
      modifies this
      ensures Holds(w, Run(w, base, INIT, AllAttempts(policies)))
    {
      ghost var a := [Attempts(policies, 0), Attempts(policies, 1), Attempts(policies, 2), Attempts(policies, 3)];
      RunPass(policies, 0, w, INIT);
      RunPass(policies, 1, w, Run(w, base, INIT, a[0]));
      RunConcat(w, base, INIT, a[0], a[1]);
      RunPass(policies, 2, w, Run(w, base, INIT, a[0] + a[1]));
      RunConcat(w, base, INIT, a[0] + a[1], a[2]);
      RunPass(policies, 3, w, Run(w, base, INIT, a[0] + a[1] + a[2]));
      RunConcat(w, base, INIT, a[0] + a[1] + a[2], a[3]);
    }
  }
}
