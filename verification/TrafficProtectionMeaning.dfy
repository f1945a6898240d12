/** The traffic-protection compiler is correct: replaying what it emits leaves every Envoy route with
    the directives of the most specific policy that won a slot covering it.

    `Expected` is that meaning, said without passes, attachments or patches. `CompilerIsCorrect`
    connects it to the emitted policies replayed in any order.
 */
module TrafficProtectionMeaning {
  import opened Ordering
  import opened TrafficProtection
  import opened TrafficProtectionConflicts
  import opened TrafficProtectionPatches

  // ----- The intended meaning -----

  /** The directives granted by a slot: those of its winner, unless its levels are contradictory or it asks for nothing. */
  ghost function Granted(w: World, base: seq<Directive>, ps: seq<Policy>, s: Slot): Option<seq<Directive>>
  {
    if exists p :: IsWinner(w, ps, s, p) && !Contradictory(p) && Directives(base, p) != [] then
      var p :| IsWinner(w, ps, s, p) && !Contradictory(p) && Directives(base, p) != [];
      Some(Directives(base, p))
    else None
  }

  /** The cell's route is attached to the cell's gateway, through a parent naming its listener or none. */
  ghost predicate RouteReaches(w: World, ns: string, c: Cell)
  {
    var k := Key(ns, c.route);
    && k in w.routes
    && exists p :: p in w.routes[k].parents && ParentReaches(w, w.routes[k], p, ns, c)
  }

  predicate ParentReaches(w: World, r: Route, p: ParentRef, ns: string, c: Cell)
  {
    && (p.kind.None? || p.kind.value == "Gateway") && Key(ns, c.gateway) in w.gateways
    && (if p.ns.Some? then p.ns.value else r.ns) == ns && p.name == c.gateway
    && (p.section.None? || p.section.value == c.section)
  }

  /** The slot of each specificity that covers a cell; unnamed rules have no slot of their own. */
  function CoveringSlot(ns: string, c: Cell, pass: nat): Option<Slot>
  {
    if pass == 0 then Some(GatewaySlot(Key(ns, c.gateway)))
    else if pass == 1 then Some(ListenerSlot(Key(ns, c.gateway), c.section))
    else if pass == 2 then Some(RouteSlot(Key(ns, c.route)))
    else if c.rule.Some? then Some(RuleSlot(Key(ns, c.route), c.rule.value)) else None
  }

  ghost function GrantedAt(w: World, base: seq<Directive>, ns: string, ps: seq<Policy>, c: Cell, pass: nat): Option<seq<Directive>>
  {
    var s := CoveringSlot(ns, c, pass);
    if s.None? || (pass >= 2 && !RouteReaches(w, ns, c)) then None else Granted(w, base, ps, s.value)
  }

  function Or<T>(a: Option<T>, b: Option<T>): Option<T> { if a.Some? then a else b }

  /** Rule over route over listener over gateway over whatever the cell held before. */
  ghost function Expected(w: World, base: seq<Directive>, ns: string, ps: seq<Policy>, c: Cell, x: Option<seq<Directive>>): Option<seq<Directive>>
  {
    Or(GrantedAt(w, base, ns, ps, c, 3), Or(GrantedAt(w, base, ns, ps, c, 2),
    Or(GrantedAt(w, base, ns, ps, c, 1), Or(GrantedAt(w, base, ns, ps, c, 0), x))))
  }

  /** Everything a reconcile lists comes from the one namespace it is for. */
  ghost predicate InNamespace(w: World, ps: seq<Policy>, ns: string)
  {
    && (forall p :: p in ps ==> p.ns == ns)
    && (forall k :: k in w.gateways ==> k == Key(ns, w.gateways[k].name) && w.gateways[k].ns == ns)
    && (forall k :: k in w.routes ==> k == Key(ns, w.routes[k].name))
  }

  /** The cell is an Envoy route generated for a listener of a listed gateway. */
  ghost predicate Placed(w: World, ns: string, c: Cell)
  {
    var k := Key(ns, c.gateway);
    k in w.gateways && HasListener(w.gateways[k], c.section) && c.config == Home(w.gateways[k], c.section)
  }

  // ----- Replay, one cell at a time -----

  function Paint(patches: seq<Patch>, c: Cell, x: Option<seq<Directive>>): Option<seq<Directive>>
  {
    if patches == [] then x
    else
      var n := |patches| - 1;
      var p := patches[n];
      if p.Coraza? && p.config == c.config && SelectorMatches(p.selector, c) then Some(p.directives)
      else Paint(patches[..n], c, x)
  }

  lemma {:induction false} ReplayIsPaint(patches: seq<Patch>, t: Table, c: Cell)
    requires c in t
    ensures Replay(patches, t)[c] == Paint(patches, c, t[c])
  {
    if patches != [] {
      ReplayIsPaint(patches[..|patches| - 1], t, c);
    }
  }

  lemma {:induction false} PaintConcat(xs: seq<Patch>, ys: seq<Patch>, c: Cell, x: Option<seq<Directive>>)
    ensures Paint(xs + ys, c, x) == Paint(ys, c, Paint(xs, c, x))
  {
    if ys == [] {
      assert xs + ys == xs;
    } else {
      assert (xs + ys)[..|xs + ys| - 1] == xs + ys[..|ys| - 1];
      PaintConcat(xs, ys[..|ys| - 1], c, x);
    }
  }

  // ----- An attachment paints the cells it selects -----

  predicate Selects(e: Attachment, c: Cell)
  {
    SelectorMatches(SelectorFor(e), c)
  }

  function PaintAttachments(es: seq<Attachment>, c: Cell, x: Option<seq<Directive>>): Option<seq<Directive>>
  {
    if es == [] then x
    else if Selects(es[|es| - 1], c) then Some(es[|es| - 1].directives)
    else PaintAttachments(es[..|es| - 1], c, x)
  }

  lemma {:induction false} PaintAttachmentsConcat(xs: seq<Attachment>, ys: seq<Attachment>, c: Cell, x: Option<seq<Directive>>)
    ensures PaintAttachments(xs + ys, c, x) == PaintAttachments(ys, c, PaintAttachments(xs, c, x))
  {
    if ys == [] {
      assert xs + ys == xs;
    } else {
      assert (xs + ys)[..|xs + ys| - 1] == xs + ys[..|ys| - 1];
      PaintAttachmentsConcat(xs, ys[..|ys| - 1], c, x);
    }
  }

  /** The attachment's gateway, if it is the cell's, is one the cell is placed on. */
  predicate Fits(e: Attachment, c: Cell)
  {
    && e.directives != []
    && (e.gateway.name == c.gateway ==>
          HasListener(e.gateway, c.section) && c.config == Home(e.gateway, c.section))
  }

  lemma {:induction false} HomeIsAListener(gateway: string, ls: seq<Listener>, section: string)
    ensures HomeAmong(gateway, ls, section).Https? ==>
      Listener(section, HTTPS) in ls && HomeAmong(gateway, ls, section) == Https(gateway, section)
  {
    if ls != [] && ls[0].name != section {
      HomeIsAListener(gateway, ls[1..], section);
    }
  }

  lemma {:induction false} HttpsPaint(e: Attachment, ls: seq<Listener>, c: Cell, x: Option<seq<Directive>>)
    requires c.config.Https? ==> c.config.gateway == e.gateway.name
    ensures Paint(HttpsPatches(e, ls), c, x) ==
      if c.config.Https? && Listener(c.config.listener, HTTPS) in ls && Selects(e, c) then Some(e.directives) else x
  {
    if ls != [] {
      var n := |ls| - 1;
      assert ls == ls[..n] + [ls[n]];
      HttpsPaint(e, ls[..n], c, x);
      var config := Https(e.gateway.name, ls[n].name);
      if ls[n].protocol.HTTPS? {
        var two := [MetadataFor(e, config), Coraza(config, SelectorFor(e), e.directives)];
        var y := Paint(HttpsPatches(e, ls[..n]), c, x);
        PaintConcat(HttpsPatches(e, ls[..n]), two, c, x);
        NoMatchNoPaint(two[..1], c, y);
        assert Paint(two, c, y) == if c.config == config && Selects(e, c) then Some(e.directives) else y;
        assert c.config == config ==> ls[n] == Listener(c.config.listener, HTTPS);
      } else {
        assert HttpsPatches(e, ls[..n]) + [] == HttpsPatches(e, ls[..n]);
      }
    }
  }

  lemma NoMatchNoPaint(patches: seq<Patch>, c: Cell, x: Option<seq<Directive>>)
    requires forall p :: p in patches ==> !p.Coraza? || !SelectorMatches(p.selector, c)
    ensures Paint(patches, c, x) == x
  {
  }

  lemma HttpsPatchSelectors(e: Attachment, ls: seq<Listener>)
    ensures forall p :: p in HttpsPatches(e, ls) ==> !p.ListenerFilter? && p.selector == SelectorFor(e)
  {
  }

  lemma AttachmentPaint(e: Attachment, c: Cell, x: Option<seq<Directive>>)
    requires Fits(e, c)
    ensures Paint(AttachmentPatches(e), c, x) == if Selects(e, c) then Some(e.directives) else x
  {
    HttpsPatchSelectors(e, e.gateway.listeners);
    if !Selects(e, c) {
      NoMatchNoPaint(AttachmentPatches(e), c, x);
    } else {
      HomeIsAListener(e.gateway.name, e.gateway.listeners, c.section);
      var meta := [MetadataFor(e, Http80)];
      assert Paint(meta, c, x) == x by { NoMatchNoPaint(meta, c, x); }
      match e.listener {
        case None =>
          var http := [Coraza(Http80, SelectorFor(e), e.directives)];
          var https := HttpsPatches(e, e.gateway.listeners);
          PaintConcat(meta, http + https, c, x);
          PaintConcat(http, https, c, x);
          HttpsPaint(e, e.gateway.listeners, c, Paint(http, c, x));
        case Some(l) =>
          PaintConcat(meta, [Coraza(Home(e.gateway, l), SelectorFor(e), e.directives)], c, x);
      }
    }
  }

  lemma {:induction false} GatewayPatchesPaint(es: seq<Attachment>, c: Cell, x: Option<seq<Directive>>)
    requires forall e :: e in es ==> Fits(e, c)
    ensures Paint(GatewayPatches(es), c, x) == PaintAttachments(es, c, x)
  {
    if es != [] {
      var n := |es| - 1;
      GatewayPatchesPaint(es[..n], c, x);
      PaintConcat(GatewayPatches(es[..n]), AttachmentPatches(es[n]), c, x);
      AttachmentPaint(es[n], c, Paint(GatewayPatches(es[..n]), c, x));
    }
  }

  lemma PolicyPaint(es: seq<Attachment>, c: Cell, x: Option<seq<Directive>>)
    requires es != [] && forall e :: e in es ==> Fits(e, c)
    ensures Paint(PolicyPatches(es), c, x) == PaintAttachments(es, c, x)
  {
    var fs := Filters(es[0].gateway.name, Sort(StringLess, Chains(es)));
    PaintConcat(GatewayPatches(es), fs, c, x);
    NoMatchNoPaint(fs, c, Paint(GatewayPatches(es), c, x));
    GatewayPatchesPaint(es, c, x);
  }

  // ----- Grouping by gateway -----

  lemma {:induction false} ForGatewayMembers(es: seq<Attachment>, key: string)
    ensures forall e :: e in ForGateway(es, key) <==> e in es && GatewayKey(e) == key
  {
    if es != [] {
      var n := |es| - 1;
      assert es == es[..n] + [es[n]];
      ForGatewayMembers(es[..n], key);
    }
  }

  lemma PaintOneMore(es: seq<Attachment>, e: Attachment, c: Cell, x: Option<seq<Directive>>)
    ensures PaintAttachments(es + [e], c, x) == if Selects(e, c) then Some(e.directives) else PaintAttachments(es, c, x)
  {
    assert (es + [e])[..|es|] == es;
  }

  lemma {:induction false} ForGatewayPaintOnly(es: seq<Attachment>, key: string, c: Cell, x: Option<seq<Directive>>)
    requires forall e :: e in es && GatewayKey(e) != key ==> e.gateway.name != c.gateway
    ensures PaintAttachments(ForGateway(es, key), c, x) == PaintAttachments(es, c, x)
  {
    if es != [] {
      var n := |es| - 1;
      ForGatewayPaintOnly(es[..n], key, c, x);
      var rest := ForGateway(es[..n], key);
      assert es[n] in es && rest + [] == rest;
      PaintOneMore(rest, es[n], c, x);
    }
  }

  lemma ForGatewayPaint(es: seq<Attachment>, key: string, c: Cell, x: Option<seq<Directive>>)
    requires forall e :: e in es && GatewayKey(e) != key ==> e.gateway.name != c.gateway
    ensures PaintAttachments(ForGateway(es, key), c, x) == PaintAttachments(es, c, x)
    ensures forall e :: e in ForGateway(es, key) <==> e in es && GatewayKey(e) == key
  {
    ForGatewayMembers(es, key);
    ForGatewayPaintOnly(es, key, c, x);
  }

  // ----- The policies may be replayed in any order -----

  function PaintPolicies(es: seq<EnvoyPatchPolicy>, c: Cell, x: Option<seq<Directive>>): Option<seq<Directive>>
  {
    if es == [] then x else Paint(es[|es| - 1].patches, c, PaintPolicies(es[..|es| - 1], c, x))
  }

  lemma {:induction false} ReplayPoliciesIsPaint(es: seq<EnvoyPatchPolicy>, t: Table, c: Cell)
    requires c in t
    ensures ReplayPolicies(es, t)[c] == PaintPolicies(es, c, t[c])
  {
    if es != [] {
      var n := |es| - 1;
      ReplayPoliciesIsPaint(es[..n], t, c);
      ReplayIsPaint(es[n].patches, ReplayPolicies(es[..n], t), c);
    }
  }

  /** A policy whose patches leave a cell alone. */
  ghost predicate Spares(e: EnvoyPatchPolicy, c: Cell)
  {
    forall x: Option<seq<Directive>> :: Paint(e.patches, c, x) == x
  }

  lemma PaintIdempotent(patches: seq<Patch>, c: Cell, x: Option<seq<Directive>>)
    ensures Paint(patches, c, Paint(patches, c, x)) == Paint(patches, c, x)
  {
  }

  lemma {:induction false} OnlyOneMatters(es: seq<EnvoyPatchPolicy>, mine: EnvoyPatchPolicy, c: Cell, x: Option<seq<Directive>>)
    requires forall e :: e in es ==> e == mine || Spares(e, c)
    ensures PaintPolicies(es, c, x) == if mine in es then Paint(mine.patches, c, x) else x
  {
    if es != [] {
      var n := |es| - 1;
      assert es == es[..n] + [es[n]];
      OnlyOneMatters(es[..n], mine, c, x);
      PaintIdempotent(mine.patches, c, x);
      assert es[n] in es && (es[n] == mine || Spares(es[n], c));
    }
  }

  lemma {:induction false} GatewayKeyMembers(es: seq<Attachment>, key: string)
    ensures key in GatewayKeys(es) <==> exists e :: e in es && GatewayKey(e) == key
  {
    if es != [] {
      var n := |es| - 1;
      assert es == es[..n] + [es[n]];
      GatewayKeyMembers(es[..n], key);
    }
  }

  /** Every policy is that of some gateway key. */
  lemma {:induction false} PolicyComesFrom(es: seq<Attachment>, keys: seq<string>, e: EnvoyPatchPolicy) returns (k: string)
    requires e in PoliciesFor(es, keys)
    ensures k in keys && e in GroupPolicy(ForGateway(es, k))
  {
    var n := |keys| - 1;
    if e in PoliciesFor(es, keys[..n]) { k := PolicyComesFrom(es, keys[..n], e); } else { k := keys[n]; }
  }

  lemma {:induction false} PolicyIsThere(es: seq<Attachment>, keys: seq<string>, k: string, e: EnvoyPatchPolicy)
    requires k in keys && e in GroupPolicy(ForGateway(es, k))
    ensures e in PoliciesFor(es, keys)
  {
    var n := |keys| - 1;
    assert keys == keys[..n] + [keys[n]];
    PoliciesForSnoc(es, keys[..n], keys[n]);
    if k != keys[n] { PolicyIsThere(es, keys[..n], k, e); }
  }

  lemma NothingSelected(es: seq<Attachment>, c: Cell, x: Option<seq<Directive>>)
    requires forall e :: e in es ==> !Selects(e, c)
    ensures PaintAttachments(es, c, x) == x
  {
  }

  lemma OtherPoliciesSpare(es: seq<Attachment>, key: string, e: EnvoyPatchPolicy, c: Cell)
    requires forall a :: a in es ==> Fits(a, c)
    requires e in GroupPolicy(ForGateway(es, key))
    requires forall a :: a in es && GatewayKey(a) == key ==> a.gateway.name != c.gateway
    ensures Spares(e, c)
  {
    var mine := ForGateway(es, key);
    ForGatewayMembers(es, key);
    forall x: Option<seq<Directive>> ensures Paint(e.patches, c, x) == x {
      PolicyPaint(mine, c, x);
      NothingSelected(mine, c, x);
    }
  }

  /** Every policy but that of the cell's own gateway leaves the cell alone. */
  lemma DesiredSpares(es: seq<Attachment>, key: string, e: EnvoyPatchPolicy, c: Cell)
    requires forall a :: a in es ==> Fits(a, c) && (GatewayKey(a) == key <==> a.gateway.name == c.gateway)
    requires e in DesiredPolicies(es)
    ensures e in GroupPolicy(ForGateway(es, key)) || Spares(e, c)
  {
    var k := PolicyComesFrom(es, Sort(StringLess, GatewayKeys(es)), e);
    if k != key { OtherPoliciesSpare(es, k, e, c); }
  }

  lemma OwnPolicyIsDesired(es: seq<Attachment>, key: string, e: EnvoyPatchPolicy)
    requires e in GroupPolicy(ForGateway(es, key))
    ensures e in DesiredPolicies(es)
  {
    var mine := ForGateway(es, key);
    ForGatewayMembers(es, key);
    assert mine[0] in mine;
    GatewayKeyMembers(es, key);
    PolicyIsThere(es, Sort(StringLess, GatewayKeys(es)), key, e);
  }

  lemma KeysNameGateways(es: seq<Attachment>, ns: string, gateway: string)
    requires forall e :: e in es ==> e.gateway.ns == ns
    ensures forall e :: e in es ==> (GatewayKey(e) == ns + "/" + gateway <==> e.gateway.name == gateway)
  {
    var key := ns + "/" + gateway;
    forall e | e in es ensures GatewayKey(e) == key <==> e.gateway.name == gateway {
      assert GatewayKey(e)[|ns| + 1..] == e.gateway.name && key[|ns| + 1..] == gateway;
    }
  }

  /** Replaying the desired policies in any order paints a cell as the attachment list does. */
  lemma AnyOrderPaintsTheSame(es: seq<Attachment>, order: seq<EnvoyPatchPolicy>, ns: string, c: Cell, x: Option<seq<Directive>>)
    requires forall e :: e in es ==> Fits(e, c) && e.gateway.ns == ns
    requires multiset(order) == multiset(DesiredPolicies(es))
    ensures PaintPolicies(order, c, x) == PaintAttachments(es, c, x)
  {
    var key := ns + "/" + c.gateway;
    KeysNameGateways(es, ns, c.gateway);
    SameMembers(order, DesiredPolicies(es));
    ForGatewayMembers(es, key);
    var mine := ForGateway(es, key);
    var own := GroupPolicy(mine);
    forall e | e in order ensures e in own || Spares(e, c) { DesiredSpares(es, key, e, c); }
    if mine == [] {
      NothingSelected(es, c, x);
      OnlySparing(order, c, x);
    } else {
      PatchesAreEmitted(mine);
      OwnPolicyIsDesired(es, key, own[0]);
      OnlyOneMatters(order, own[0], c, x);
      PolicyPaint(mine, c, x);
      ForGatewayPaint(es, key, c, x);
    }
  }

  lemma {:induction false} OnlySparing(es: seq<EnvoyPatchPolicy>, c: Cell, x: Option<seq<Directive>>)
    requires forall e :: e in es ==> Spares(e, c)
    ensures PaintPolicies(es, c, x) == x
  {
    if es != [] {
      OnlySparing(es[..|es| - 1], c, x);
      assert Spares(es[|es| - 1], c);
    }
  }

  lemma PatchesAreEmitted(es: seq<Attachment>)
    requires es != [] && forall e :: e in es ==> e.directives != []
    ensures PolicyPatches(es) != []
  {
    assert es[|es| - 1] in es;
    assert |AttachmentPatches(es[|es| - 1])| > 0;
  }

  // ----- The passes -----

  ghost predicate FromParent(w: World, a: Attempt, r: Route, ds: seq<Directive>, p: ParentRef, e: Attachment)
  {
    && IsGatewayParent(w, r, p)
    && e == Attachment(a.policy, w.gateways[ParentGatewayKey(r, p)], p.section, Some(r), a.target.section, ds)
  }

  lemma {:induction false} EmitForParentsMembers(w: World, a: Attempt, r: Route, ds: seq<Directive>, parents: seq<ParentRef>)
    ensures forall e :: e in EmitForParents(w, a, r, ds, parents) <==>
      exists p :: p in parents && FromParent(w, a, r, ds, p, e)
  {
    if parents != [] {
      var n := |parents| - 1;
      assert parents == parents[..n] + [parents[n]];
      EmitForParentsMembers(w, a, r, ds, parents[..n]);
      forall e ensures e in EmitForParents(w, a, r, ds, parents) <==>
                       e in EmitForParents(w, a, r, ds, parents[..n]) || FromParent(w, a, r, ds, parents[n], e) {
      }
      assert forall p :: p in parents <==> p in parents[..n] || p == parents[n];
    }
  }

  lemma {:induction false} PaintUniform(es: seq<Attachment>, ds: seq<Directive>, c: Cell, x: Option<seq<Directive>>)
    requires forall e :: e in es ==> e.directives == ds
    ensures PaintAttachments(es, c, x) == if exists e :: e in es && Selects(e, c) then Some(ds) else x
  {
    if es != [] {
      var n := |es| - 1;
      assert es == es[..n] + [es[n]];
      PaintUniform(es[..n], ds, c, x);
    }
  }

  /** The attachment for one parent selects a cell exactly if that parent reaches it and the attempt is about the cell's
      route or rule. */
  lemma ParentSelects(w: World, ns: string, ps: seq<Policy>, a: Attempt, ds: seq<Directive>, p: ParentRef, c: Cell)
    requires InNamespace(w, ps, ns) && a.policy.ns == ns && SlotOf(w, a).Some? && a.target.kind != KIND_GATEWAY
    requires IsGatewayParent(w, w.routes[TargetKey(a)], p)
    ensures var r := w.routes[TargetKey(a)];
            Selects(Attachment(a.policy, w.gateways[ParentGatewayKey(r, p)], p.section, Some(r), a.target.section, ds), c) <==>
            CoveringSlot(ns, c, PassOf(a.target)) == SlotOf(w, a) && ParentReaches(w, r, p, ns, c)
  {
  }

  /** So one of them does exactly if the route reaches the cell. */
  lemma ParentsSelect(w: World, ns: string, ps: seq<Policy>, a: Attempt, ds: seq<Directive>, c: Cell)
    requires InNamespace(w, ps, ns) && a.policy.ns == ns && SlotOf(w, a).Some? && a.target.kind != KIND_GATEWAY
    ensures var r := w.routes[TargetKey(a)];
            (exists e :: e in EmitForParents(w, a, r, ds, r.parents) && Selects(e, c)) <==>
            CoveringSlot(ns, c, PassOf(a.target)) == SlotOf(w, a) && RouteReaches(w, ns, c)
  {
    var r := w.routes[TargetKey(a)];
    var es := EmitForParents(w, a, r, ds, r.parents);
    EmitForParentsMembers(w, a, r, ds, r.parents);
    if e :| e in es && Selects(e, c) {
      var p :| p in r.parents && FromParent(w, a, r, ds, p, e);
      ParentSelects(w, ns, ps, a, ds, p, c);
    }
    if CoveringSlot(ns, c, PassOf(a.target)) == SlotOf(w, a) && RouteReaches(w, ns, c) {
      var p :| p in r.parents && ParentReaches(w, r, p, ns, c);
      var e := Attachment(a.policy, w.gateways[ParentGatewayKey(r, p)], p.section, Some(r), a.target.section, ds);
      ParentSelects(w, ns, ps, a, ds, p, c);
      assert FromParent(w, a, r, ds, p, e);
    }
  }

  /** What an attempt that got its slot paints: the cells that slot covers, if the route reaches them. */
  lemma EmitPaint(w: World, base: seq<Directive>, ns: string, ps: seq<Policy>, a: Attempt, c: Cell, x: Option<seq<Directive>>)
    requires InNamespace(w, ps, ns) && a.policy.ns == ns && SlotOf(w, a).Some?
    ensures PaintAttachments(Emit(w, base, a), c, x) ==
      if CoveringSlot(ns, c, PassOf(a.target)) == SlotOf(w, a) && Directives(base, a.policy) != []
         && (PassOf(a.target) >= 2 ==> RouteReaches(w, ns, c))
      then Some(Directives(base, a.policy)) else x
  {
    var ds := Directives(base, a.policy);
    if ds != [] {
      if a.target.kind == KIND_GATEWAY {
        assert Emit(w, base, a)[..0] == [];
      } else {
        var r := w.routes[TargetKey(a)];
        var es := EmitForParents(w, a, r, ds, r.parents);
        EmitForParentsMembers(w, a, r, ds, r.parents);
        PaintUniform(es, ds, c, x);
        ParentsSelect(w, ns, ps, a, ds, c);
      }
    }
  }

  /** One attempt paints a cell only if it takes the cell's covering slot. */
  lemma StepPaint(w: World, base: seq<Directive>, ns: string, ps: seq<Policy>, st: State, a: Attempt, c: Cell, x: Option<seq<Directive>>)
    requires InNamespace(w, ps, ns) && a.policy.ns == ns
    ensures PaintAttachments(Step(w, base, st, a).attachments, c, x) ==
      (if SlotOf(w, a).Some? && CoveringSlot(ns, c, PassOf(a.target)) == SlotOf(w, a) && SlotOf(w, a).value !in st.taken
          && Protects(base, a.policy) && (PassOf(a.target) >= 2 ==> RouteReaches(w, ns, c))
       then Some(Directives(base, a.policy)) else PaintAttachments(st.attachments, c, x))
  {
    if SlotOf(w, a).Some? && SlotOf(w, a).value !in st.taken && !InvertedParanoia(a.policy) {
      PaintAttachmentsConcat(st.attachments, Emit(w, base, a), c, x);
      EmitPaint(w, base, ns, ps, a, c, PaintAttachments(st.attachments, c, x));
    }
  }

  /** One pass paints a cell with the directives of the first attempt on its covering slot. */
  lemma {:induction false} PassPaint(
    w: World, base: seq<Directive>, ns: string, ps: seq<Policy>, pass: nat, st: State, attempts: seq<Attempt>,
    c: Cell, x: Option<seq<Directive>>)
    requires InNamespace(w, ps, ns)
    requires forall a :: a in attempts ==> a.policy.ns == ns && PassOf(a.target) == pass
    requires CoveringSlot(ns, c, pass).Some? ==> CoveringSlot(ns, c, pass).value !in st.taken
    ensures PaintAttachments(Run(w, base, st, attempts).attachments, c, x)
         == Or(FirstGrants(w, base, ns, pass, attempts, c), PaintAttachments(st.attachments, c, x))
  {
    if attempts != [] {
      var n := |attempts| - 1;
      var a := attempts[n];
      assert attempts == attempts[..n] + [a];
      PassPaint(w, base, ns, ps, pass, st, attempts[..n], c, x);
      var before := Run(w, base, st, attempts[..n]);
      var s := CoveringSlot(ns, c, pass);
      if s.Some? {
        TakenByFirst(w, base, st, attempts[..n], s.value);
      }
      StepPaint(w, base, ns, ps, before, a, c, x);
    }
  }

  /** The directives granted by the first attempt on the covering slot. */
  ghost function FirstGrants(w: World, base: seq<Directive>, ns: string, pass: nat, attempts: seq<Attempt>, c: Cell): Option<seq<Directive>>
  {
    var s := CoveringSlot(ns, c, pass);
    if s.None? || (pass >= 2 && !RouteReaches(w, ns, c)) then None
    else
      var f := FirstOn(w, attempts, s.value);
      if f.Some? && Protects(base, f.value.policy) then Some(Directives(base, f.value.policy)) else None
  }

  lemma ProtectsMeans(base: seq<Directive>, p: Policy)
    ensures Protects(base, p) <==> !Contradictory(p) && Directives(base, p) != []
  {
    if i :| 0 <= i < |p.ruleSets| && p.ruleSets[i].OwaspCoreRuleSet? && p.ruleSets[i].crs.detection < p.ruleSets[i].crs.blocking {
      assert p.ruleSets[i] in p.ruleSets;
    }
  }

  lemma GrantedTo(w: World, base: seq<Directive>, ps: seq<Policy>, s: Slot, p: Policy)
    requires DistinctKeys(ps) && IsWinner(w, ps, s, p)
    ensures Granted(w, base, ps, s) == if Protects(base, p) then Some(Directives(base, p)) else None
  {
    ProtectsMeans(base, p);
    forall q | IsWinner(w, ps, s, q) ensures q == p { WinnerIsUnique(w, ps, s, p, q); }
  }

  lemma GrantedToNobody(w: World, base: seq<Directive>, ps: seq<Policy>, s: Slot)
    requires forall p :: !Contends(w, ps, s, p)
    ensures Granted(w, base, ps, s) == None
  {
  }

  lemma GrantedByFirst(w: World, base: seq<Directive>, ps: seq<Policy>, s: Slot)
    requires DistinctKeys(ps)
    ensures var f := FirstOn(w, Attempts(Contexts(ps), SlotPass(s)), s);
      Granted(w, base, ps, s) ==
      if f.Some? && Protects(base, f.value.policy) then Some(Directives(base, f.value.policy)) else None
  {
    WinnerTakesSlot(w, base, ps, s);
    FirstOverall(w, Contexts(ps), s);
    var f := FirstOn(w, Attempts(Contexts(ps), SlotPass(s)), s);
    if f.Some? { GrantedTo(w, base, ps, s, f.value.policy); } else { GrantedToNobody(w, base, ps, s); }
  }

  lemma CoveringSlotPass(ns: string, c: Cell, pass: nat)
    ensures pass <= 3 && CoveringSlot(ns, c, pass).Some? ==> SlotPass(CoveringSlot(ns, c, pass).value) == pass
  {
  }

  lemma FirstGrantsWinner(w: World, base: seq<Directive>, ns: string, ps: seq<Policy>, c: Cell, pass: nat)
    requires DistinctKeys(ps) && pass <= 3
    ensures FirstGrants(w, base, ns, pass, Attempts(Contexts(ps), pass), c) == GrantedAt(w, base, ns, ps, c, pass)
  {
    var s := CoveringSlot(ns, c, pass);
    CoveringSlotPass(ns, c, pass);
    if s.Some? {
      GrantedByFirst(w, base, ps, s.value);
    }
  }

  lemma CoveringSlotFree(w: World, base: seq<Directive>, ns: string, cs: seq<Policy>, c: Cell, pass: nat, st: State, earlier: nat)
    requires CoveringSlot(ns, c, pass).Some? && CoveringSlot(ns, c, pass).value !in st.taken
    requires earlier < pass <= 3
    ensures CoveringSlot(ns, c, pass).value !in Run(w, base, st, Attempts(cs, earlier)).taken
  {
    var s := CoveringSlot(ns, c, pass).value;
    TakenByFirst(w, base, st, Attempts(cs, earlier), s);
    OtherPassesMiss(w, cs, s, earlier);
  }

  /** The attachment list paints a cell as the meaning says. */
  lemma AttachmentsPaintExpected(w: World, base: seq<Directive>, ns: string, ps: seq<Policy>, c: Cell, x: Option<seq<Directive>>)
    requires DistinctKeys(ps) && InNamespace(w, ps, ns)
    ensures PaintAttachments(Collected(w, base, ps).attachments, c, x) == Expected(w, base, ns, ps, c, x)
  {
    var cs := Contexts(ps);
    var a := [Attempts(cs, 0), Attempts(cs, 1), Attempts(cs, 2), Attempts(cs, 3)];
    var s1 := Run(w, base, INIT, a[0]);
    var s2 := Run(w, base, s1, a[1]);
    var s3 := Run(w, base, s2, a[2]);
    RunConcat(w, base, INIT, a[0], a[1]);
    RunConcat(w, base, INIT, a[0] + a[1], a[2]);
    RunConcat(w, base, INIT, a[0] + a[1] + a[2], a[3]);
    CoveringSlotFree(w, base, ns, cs, c, 1, INIT, 0);
    CoveringSlotFree(w, base, ns, cs, c, 2, INIT, 0);
    CoveringSlotFree(w, base, ns, cs, c, 2, s1, 1);
    if c.rule.Some? {
      CoveringSlotFree(w, base, ns, cs, c, 3, INIT, 0);
      CoveringSlotFree(w, base, ns, cs, c, 3, s1, 1);
      CoveringSlotFree(w, base, ns, cs, c, 3, s2, 2);
    }
    PassPaint(w, base, ns, ps, 0, INIT, a[0], c, x);
    PassPaint(w, base, ns, ps, 1, s1, a[1], c, x);
    PassPaint(w, base, ns, ps, 2, s2, a[2], c, x);
    PassPaint(w, base, ns, ps, 3, s3, a[3], c, x);
    FirstGrantsWinner(w, base, ns, ps, c, 0);
    FirstGrantsWinner(w, base, ns, ps, c, 1);
    FirstGrantsWinner(w, base, ns, ps, c, 2);
    FirstGrantsWinner(w, base, ns, ps, c, 3);
  }

  lemma {:induction false} AttachmentsAreListed(w: World, base: seq<Directive>, attempts: seq<Attempt>)
    ensures forall e :: e in Run(w, base, INIT, attempts).attachments ==>
      e.directives != [] && exists k :: k in w.gateways && w.gateways[k] == e.gateway
  {
    if attempts != [] {
      var n := |attempts| - 1;
      var a := attempts[n];
      AttachmentsAreListed(w, base, attempts[..n]);
      if SlotOf(w, a).Some? {
        var ds := Directives(base, a.policy);
        if a.target.kind != KIND_GATEWAY {
          var r := w.routes[TargetKey(a)];
          EmitForParentsMembers(w, a, r, ds, r.parents);
        }
        forall e | e in Emit(w, base, a) ensures e.directives != [] && exists k :: k in w.gateways && w.gateways[k] == e.gateway {
        }
      }
    }
  }

  // ----- Main results -----

  /** Compiler correctness. Whatever order the emitted policies are replayed in, every route of a
      listed gateway ends up with the directives of the most specific winning policy covering it, a
      route covered by none keeps what it had, and routes of other gateways are never touched. */
  lemma CompilerIsCorrect(
    w: World, base: seq<Directive>, ns: string, ps: seq<Policy>, order: seq<EnvoyPatchPolicy>, t: Table, c: Cell)
    requires DistinctKeys(ps) && InNamespace(w, ps, ns) && c in t
    requires multiset(order) == multiset(DesiredPolicies(Collected(w, base, ps).attachments))
    ensures Placed(w, ns, c) ==> ReplayPolicies(order, t)[c] == Expected(w, base, ns, ps, c, t[c])
    ensures Key(ns, c.gateway) !in w.gateways ==> ReplayPolicies(order, t)[c] == t[c]
  {
    var es := Collected(w, base, ps).attachments;
    AttachmentsAreListed(w, base, AllAttempts(Contexts(ps)));
    ReplayPoliciesIsPaint(order, t, c);
    if Placed(w, ns, c) || Key(ns, c.gateway) !in w.gateways {
      forall e | e in es ensures Fits(e, c) && e.gateway.ns == ns {
        var k :| k in w.gateways && w.gateways[k] == e.gateway;
      }
      AnyOrderPaintsTheSame(es, order, ns, c, t[c]);
      if Placed(w, ns, c) {
        AttachmentsPaintExpected(w, base, ns, ps, c, t[c]);
      } else {
        forall e | e in es ensures !Selects(e, c) {
          var k :| k in w.gateways && w.gateways[k] == e.gateway;
        }
        NothingSelected(es, c, t[c]);
      }
    }
  }
}
