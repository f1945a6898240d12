/** Who wins a slot: the specification of the four passes stated without order.

    `WinnerTakesSlot` and `EveryLaterAttemptConflicts` say that the oldest policy validly targeting a
    slot gets it and every other attempt on it is reported Conflicted; `InputOrderIsIrrelevant` says
    that listing the policies, gateways and routes in another order changes nothing.
 */
module TrafficProtectionConflicts {
  import opened Ordering
  import opened TrafficProtection

  /** The target names the slot's object in the policy's own namespace, the object exists, and so does the
      section, if the slot is one. */
  ghost predicate Selects(w: World, p: Policy, t: TargetRef, s: Slot)
  {
    match s
    case GatewaySlot(k) => k == Key(p.ns, t.name) && t.kind == "Gateway" && t.section.None? && k in w.gateways
    case ListenerSlot(k, l) =>
      && k == Key(p.ns, t.name) && t.kind == "Gateway" && t.section == Some(l) && k in w.gateways
      && exists x :: x in w.gateways[k].listeners && x.name == l
    case RouteSlot(k) => k == Key(p.ns, t.name) && t.kind != "Gateway" && t.section.None? && k in w.routes
    case RuleSlot(k, r) => k == Key(p.ns, t.name) && t.kind != "Gateway" && t.section == Some(r) && k in w.routes && Some(r) in w.routes[k].rules
  }

  lemma SlotIsSelected(w: World, a: Attempt, s: Slot)
    ensures SlotOf(w, a) == Some(s) <==> Selects(w, a.policy, a.target, s)
  {
  }

  ghost predicate Targets(w: World, p: Policy, s: Slot)
  {
    exists t :: t in p.targets && Selects(w, p, t, s)
  }

  ghost predicate Contends(w: World, ps: seq<Policy>, s: Slot, p: Policy)
  {
    p in ps && !p.deleting && Targets(w, p, s)
  }

  /** `p` validly targets `s` and is the oldest live policy to do so, by namespace and name among equals. */
  ghost predicate IsWinner(w: World, ps: seq<Policy>, s: Slot, p: Policy)
  {
    && Contends(w, ps, s, p)
    && forall q :: Contends(w, ps, s, q) && q != p ==>
         || p.created < q.created
         || (p.created == q.created && StringLess(p.ns, q.ns))
         || (p.created == q.created && p.ns == q.ns && StringLess(p.name, q.name))
  }

  lemma WinnerIsUnique(w: World, ps: seq<Policy>, s: Slot, p: Policy, q: Policy)
    requires DistinctKeys(ps) && IsWinner(w, ps, s, p) && IsWinner(w, ps, s, q)
    ensures p == q
  {
    PoliciesAreStrict(ps);
    assert p in ps && q in ps;
    assert p != q ==> Before(p, q) && Before(q, p) by { if p.ns != q.ns { StringLessTotal(p.ns, q.ns); } StringLessIrreflexive(p.ns); }
  }

  // ----- The first attempt on a slot -----

  function FirstOn(w: World, attempts: seq<Attempt>, s: Slot): (r: Option<Attempt>)
    ensures r.Some? ==> r.value in attempts && SlotOf(w, r.value) == Some(s)
    ensures r.None? ==> forall a :: a in attempts ==> SlotOf(w, a) != Some(s)
  {
    if attempts == [] then None
    else
      var n := |attempts| - 1;
      assert attempts == attempts[..n] + [attempts[n]];
      var f := FirstOn(w, attempts[..n], s);
      if f.Some? then f else if SlotOf(w, attempts[n]) == Some(s) then Some(attempts[n]) else None
  }

  lemma {:induction false} TakenByFirst(w: World, base: seq<Directive>, st: State, attempts: seq<Attempt>, s: Slot)
    ensures s in Run(w, base, st, attempts).taken <==> s in st.taken || FirstOn(w, attempts, s).Some?
  {
    if attempts != [] {
      TakenByFirst(w, base, st, attempts[..|attempts| - 1], s);
    }
  }

  lemma {:induction false} FirstOnConcat(w: World, xs: seq<Attempt>, ys: seq<Attempt>, s: Slot)
    ensures FirstOn(w, xs + ys, s) == if FirstOn(w, xs, s).Some? then FirstOn(w, xs, s) else FirstOn(w, ys, s)
  {
    if ys == [] {
      assert xs + ys == xs;
    } else {
      assert (xs + ys)[..|xs + ys| - 1] == xs + ys[..|ys| - 1];
      FirstOnConcat(w, xs, ys[..|ys| - 1], s);
    }
  }

  /** `f`, if any, is an attempt of the contender that precedes all others in `ps`. */
  ghost predicate LeastContender(w: World, ps: seq<Policy>, s: Slot, f: Option<Attempt>)
  {
    if f.None? then forall q :: q in ps ==> !Targets(w, q, s)
    else f.value.policy in ps && Targets(w, f.value.policy, s)
         && forall q :: q in ps && Targets(w, q, s) && q != f.value.policy ==> Before(f.value.policy, q)
  }

  lemma OwnFirst(w: World, p: Policy, s: Slot)
    ensures var f := FirstOn(w, TargetsIn(p, p.targets, SlotPass(s)), s);
            (f.Some? <==> Targets(w, p, s)) && (f.Some? ==> f.value.policy == p)
  {
    var own := TargetsIn(p, p.targets, SlotPass(s));
    if t :| t in p.targets && Selects(w, p, t, s) {
      SlotIsSelected(w, Attempt(p, t), s);
      assert Attempt(p, t) in own;
    }
    var f := FirstOn(w, own, s);
    if f.Some? { SlotIsSelected(w, f.value, s); }
  }

  lemma LeastContenderExtends(w: World, ps: seq<Policy>, p: Policy, s: Slot, f: Option<Attempt>, own: Option<Attempt>)
    requires LeastContender(w, ps, s, f) && forall q :: q in ps ==> Before(q, p)
    requires (own.Some? <==> Targets(w, p, s)) && (own.Some? ==> own.value.policy == p)
    ensures LeastContender(w, ps + [p], s, if f.Some? then f else own)
  {
  }

  /** Offering the targets policy by policy, the first attempt on a slot belongs to the first contender. */
  lemma {:induction false} FirstBelongsToFirstContender(w: World, ps: seq<Policy>, s: Slot)
    requires Sorted(Before, ps)
    ensures LeastContender(w, ps, s, FirstOn(w, Attempts(ps, SlotPass(s)), s))
  {
    if ps != [] {
      var n := |ps| - 1;
      var p := ps[n];
      assert ps == ps[..n] + [p];
      FirstBelongsToFirstContender(w, ps[..n], s);
      var own := TargetsIn(p, p.targets, SlotPass(s));
      FirstOnConcat(w, Attempts(ps[..n], SlotPass(s)), own, s);
      OwnFirst(w, p, s);
      LeastContenderExtends(w, ps[..n], p, s, FirstOn(w, Attempts(ps[..n], SlotPass(s)), s), FirstOn(w, own, s));
    }
  }

  // ----- What the four passes report -----

  function OutcomeAfter(w: World, earlier: seq<Attempt>, a: Attempt): Outcome
  {
    match SlotOf(w, a)
    case None => TargetNotFound
    case Some(s) =>
      if FirstOn(w, earlier, s).Some? then Conflicted
      else if InvertedParanoia(a.policy) then Invalid else Accepted
  }

  /** Every attempt whose target object exists is reported once, in order, by its outcome. */
  function Reports(w: World, attempts: seq<Attempt>): seq<Report>
  {
    if attempts == [] then []
    else
      var n := |attempts| - 1;
      var a := attempts[n];
      Reports(w, attempts[..n])
      + if TargetExists(w, a)
        then [Report(KeyOf(a.policy), a.target, OutcomeAfter(w, attempts[..n], a))]
        else []
  }

  lemma {:induction false} RunReports(w: World, base: seq<Directive>, attempts: seq<Attempt>)
    ensures Run(w, base, INIT, attempts).reports == Reports(w, attempts)
  {
    if attempts != [] {
      var n := |attempts| - 1;
      RunReports(w, base, attempts[..n]);
      if SlotOf(w, attempts[n]).Some? {
        TakenByFirst(w, base, INIT, attempts[..n], SlotOf(w, attempts[n]).value);
      }
    }
  }

  lemma {:induction false} ReportComesFrom(w: World, attempts: seq<Attempt>, r: Report) returns (i: nat)
    requires r in Reports(w, attempts)
    ensures i < |attempts| && TargetExists(w, attempts[i])
    ensures r == Report(KeyOf(attempts[i].policy), attempts[i].target, OutcomeAfter(w, attempts[..i], attempts[i]))
  {
    var n := |attempts| - 1;
    if r in Reports(w, attempts[..n]) {
      i := ReportComesFrom(w, attempts[..n], r);
      assert attempts[..n][..i] == attempts[..i];
    } else {
      i := n;
    }
  }

  // ----- Slots and passes -----

  lemma OtherPassesMiss(w: World, ps: seq<Policy>, s: Slot, pass: nat)
    requires pass != SlotPass(s)
    ensures FirstOn(w, Attempts(ps, pass), s).None?
  {
    forall a | a in Attempts(ps, pass) ensures SlotOf(w, a) != Some(s) {}
  }

  /** Over all four passes, the first attempt on a slot is the first of the slot's own pass. */
  lemma FirstOverall(w: World, ps: seq<Policy>, s: Slot)
    ensures FirstOn(w, AllAttempts(ps), s) == FirstOn(w, Attempts(ps, SlotPass(s)), s)
  {
    var a0, a1, a2, a3 := Attempts(ps, 0), Attempts(ps, 1), Attempts(ps, 2), Attempts(ps, 3);
    FirstOnConcat(w, a0, a1, s);
    FirstOnConcat(w, a0 + a1, a2, s);
    FirstOnConcat(w, a0 + a1 + a2, a3, s);
    if SlotPass(s) != 0 { OtherPassesMiss(w, ps, s, 0); }
    if SlotPass(s) != 1 { OtherPassesMiss(w, ps, s, 1); }
    if SlotPass(s) != 2 { OtherPassesMiss(w, ps, s, 2); }
    if SlotPass(s) != 3 { OtherPassesMiss(w, ps, s, 3); }
  }

  // ----- Main results -----

  /** A slot is taken exactly when some live policy validly targets it, and then by its winner. */
  lemma WinnerTakesSlot(w: World, base: seq<Directive>, ps: seq<Policy>, s: Slot)
    requires DistinctKeys(ps)
    ensures s in Collected(w, base, ps).taken <==> exists p :: Contends(w, ps, s, p)
    ensures var f := FirstOn(w, AllAttempts(Contexts(ps)), s);
      if f.None? then forall p :: !Contends(w, ps, s, p) else IsWinner(w, ps, s, f.value.policy)
  {
    var cs := Contexts(ps);
    ContextsSorted(ps);
    TakenByFirst(w, base, INIT, AllAttempts(cs), s);
    FirstOverall(w, cs, s);
    FirstBelongsToFirstContender(w, cs, s);
    forall q ensures Contends(w, ps, s, q) <==> q in cs && Targets(w, q, s) {}
  }

  /** The report of attempt `i` comes after one report for each earlier attempt whose object exists. */
  lemma {:induction false} ReportAt(w: World, attempts: seq<Attempt>, i: nat)
    requires i < |attempts| && TargetExists(w, attempts[i])
    ensures |Reports(w, attempts[..i])| < |Reports(w, attempts)|
    ensures Reports(w, attempts)[|Reports(w, attempts[..i])|] ==
      Report(KeyOf(attempts[i].policy), attempts[i].target, OutcomeAfter(w, attempts[..i], attempts[i]))
  {
    var n := |attempts| - 1;
    if i < n {
      assert attempts[..n][..i] == attempts[..i];
      ReportAt(w, attempts[..n], i);
    }
  }

  /** The first attempt on a slot is the winner's. */
  lemma FirstIsWinners(w: World, base: seq<Directive>, ps: seq<Policy>, i: nat, s: Slot)
    requires DistinctKeys(ps) && i < |AllAttempts(Contexts(ps))|
    requires SlotOf(w, AllAttempts(Contexts(ps))[i]) == Some(s) && FirstOn(w, AllAttempts(Contexts(ps))[..i], s).None?
    ensures IsWinner(w, ps, s, AllAttempts(Contexts(ps))[i].policy)
  {
    var all := AllAttempts(Contexts(ps));
    WinnerTakesSlot(w, base, ps, s);
    var j := FirstIndex(w, all, s);
    forall k | 0 <= k < i ensures SlotOf(w, all[k]) != Some(s) { assert all[k] in all[..i]; }
    forall k | 0 <= k < j ensures SlotOf(w, all[k]) != Some(s) { assert all[k] in all[..j]; }
  }

  /** Some OWASP rule set is to detect at a lower level than it blocks at. */
  ghost predicate Contradictory(p: Policy) { exists r :: r in p.ruleSets && r.OwaspCoreRuleSet? && r.crs.detection < r.crs.blocking }

  /** Attempt by attempt: on a valid slot, attempt `i` is accepted (or, with inverted paranoia levels,
      found invalid while keeping the slot) if and only if no attempt before it was on that slot, and
      then its policy is the slot's winner; every later attempt, also one of the winner's own, is
      reported Conflicted. */
  lemma EveryLaterAttemptConflicts(w: World, base: seq<Directive>, ps: seq<Policy>, i: nat, s: Slot)
    requires DistinctKeys(ps) && i < |AllAttempts(Contexts(ps))| && SlotOf(w, AllAttempts(Contexts(ps))[i]) == Some(s)
    ensures var all := AllAttempts(Contexts(ps));
            var rs, k := Collected(w, base, ps).reports, |Reports(w, all[..i])|;
            var first := FirstOn(w, all[..i], s).None?;
            && k < |rs| && rs[k].policy == Key(all[i].policy.ns, all[i].policy.name) && rs[k].target == all[i].target
            && (first ==> IsWinner(w, ps, s, all[i].policy) && rs[k].outcome == (if Contradictory(all[i].policy) then Invalid else Accepted))
            && (!first ==> rs[k].outcome == Conflicted)
  {
    var all := AllAttempts(Contexts(ps));
    RunReports(w, base, all);
    ReportAt(w, all, i);
    if FirstOn(w, all[..i], s).None? { FirstIsWinners(w, base, ps, i, s); }
  }

  /** Of all attempts on a slot only the first policy's can be anything but Conflicted. */
  lemma LoserReports(w: World, all: seq<Attempt>, p: Policy, t: TargetRef, s: Slot)
    requires Attempt(p, t) in all && SlotOf(w, Attempt(p, t)) == Some(s) && FirstOn(w, all, s).Some? && FirstOn(w, all, s).value.policy != p
    requires forall a :: a in all && KeyOf(a.policy) == KeyOf(p) ==> a.policy == p
    ensures Report(KeyOf(p), t, Conflicted) in Reports(w, all)
    ensures forall o :: Report(KeyOf(p), t, o) in Reports(w, all) ==> o == Conflicted
  {
    var i :| 0 <= i < |all| && all[i] == Attempt(p, t);
    OthersConflict(w, all, s, i);
    ReportAt(w, all, i);
    forall o | Report(KeyOf(p), t, o) in Reports(w, all) ensures o == Conflicted {
      var j := ReportComesFrom(w, all, Report(KeyOf(p), t, o));
      assert all[j] in all;
      OthersConflict(w, all, s, j);
    }
  }

  /** A policy that is not the winner of a slot is reported Conflicted for it and nothing else. */
  lemma LosersOnlyConflict(w: World, base: seq<Directive>, ps: seq<Policy>, p: Policy, t: TargetRef, s: Slot)
    requires DistinctKeys(ps) && p in ps && !p.deleting && t in p.targets && SlotOf(w, Attempt(p, t)) == Some(s) && !IsWinner(w, ps, s, p)
    ensures var rs := Collected(w, base, ps).reports;
            Report(Key(p.ns, p.name), t, Conflicted) in rs && forall o :: Report(Key(p.ns, p.name), t, o) in rs ==> o == Conflicted
  {
    var all := AllAttempts(Contexts(ps));
    WinnerTakesSlot(w, base, ps, s);
    RunReports(w, base, all);
    assert Attempt(p, t) in Attempts(Contexts(ps), PassOf(t)) && Attempt(p, t) in all;
    forall a | a in all && KeyOf(a.policy) == KeyOf(p) ensures a.policy == p { AttemptPolicyListed(ps, a, p); }
    LoserReports(w, all, p, t, s);
  }

  lemma AttemptPolicyListed(ps: seq<Policy>, a: Attempt, p: Policy)
    requires DistinctKeys(ps) && a in AllAttempts(Contexts(ps)) && p in ps && KeyOf(p) == KeyOf(a.policy)
    ensures a.policy == p
  {
    assert a.policy in Contexts(ps);
  }

  lemma {:induction false} FirstIndex(w: World, attempts: seq<Attempt>, s: Slot) returns (i: nat)
    requires FirstOn(w, attempts, s).Some?
    ensures i < |attempts| && FirstOn(w, attempts, s) == Some(attempts[i]) && FirstOn(w, attempts[..i], s).None?
  {
    var n := |attempts| - 1;
    if FirstOn(w, attempts[..n], s).Some? {
      i := FirstIndex(w, attempts[..n], s);
      assert attempts[..n][..i] == attempts[..i];
    } else {
      i := n;
    }
  }

  /** An attempt on `s` by another policy than the first one comes after that first one. */
  lemma OthersConflict(w: World, attempts: seq<Attempt>, s: Slot, i: nat)
    requires i < |attempts| && SlotOf(w, attempts[i]) == Some(s)
    requires FirstOn(w, attempts, s).Some? && FirstOn(w, attempts, s).value.policy != attempts[i].policy
    ensures FirstOn(w, attempts[..i], s).Some?
  {
    var j := FirstIndex(w, attempts, s);
    assert forall k :: 0 <= k < j ==> attempts[k] in attempts[..j];
    assert attempts[j] in attempts[..i];
  }

  // ----- Order of the listings -----

  ghost predicate DistinctGateways(gs: seq<Gateway>)
  {
    forall i, j :: 0 <= i < j < |gs| ==> gs[i].ns != gs[j].ns || gs[i].name != gs[j].name
  }

  ghost predicate DistinctRoutes(rs: seq<Route>)
  {
    forall i, j :: 0 <= i < j < |rs| ==> rs[i].ns != rs[j].ns || rs[i].name != rs[j].name
  }

  lemma {:induction false} GatewayMapHolds(gs: seq<Gateway>)
    requires DistinctGateways(gs)
    ensures forall k :: k in GatewayMap(gs) ==> GatewayMap(gs)[k] in gs && k == Key(GatewayMap(gs)[k].ns, GatewayMap(gs)[k].name)
    ensures forall g :: g in gs ==> Key(g.ns, g.name) in GatewayMap(gs) && GatewayMap(gs)[Key(g.ns, g.name)] == g
  {
    if gs != [] {
      var n := |gs| - 1;
      GatewayMapHolds(gs[..n]);
      assert gs == gs[..n] + [gs[n]];
    }
  }

  lemma {:induction false} RouteMapHolds(rs: seq<Route>)
    requires DistinctRoutes(rs)
    ensures forall k :: k in RouteMap(rs) ==> RouteMap(rs)[k] in rs && k == Key(RouteMap(rs)[k].ns, RouteMap(rs)[k].name)
    ensures forall r :: r in rs ==> Key(r.ns, r.name) in RouteMap(rs) && RouteMap(rs)[Key(r.ns, r.name)] == r
  {
    if rs != [] {
      var n := |rs| - 1;
      RouteMapHolds(rs[..n]);
      assert rs == rs[..n] + [rs[n]];
    }
  }

  lemma SameMembers<T(!new)>(xs: seq<T>, ys: seq<T>)
    requires multiset(xs) == multiset(ys)
    ensures forall x :: x in xs <==> x in ys
  {
    forall x ensures x in xs <==> x in ys {
      assert x in xs <==> x in multiset(xs);
      assert x in ys <==> x in multiset(ys);
    }
  }

  lemma WorldForgetsOrder(gs: seq<Gateway>, gs': seq<Gateway>, rs: seq<Route>, rs': seq<Route>)
    requires DistinctGateways(gs) && DistinctGateways(gs') && multiset(gs) == multiset(gs')
    requires DistinctRoutes(rs) && DistinctRoutes(rs') && multiset(rs) == multiset(rs')
    ensures WorldOf(gs, rs) == WorldOf(gs', rs')
  {
    SameMembers(gs, gs');
    SameMembers(rs, rs');
    GatewayMapHolds(gs);
    GatewayMapHolds(gs');
    RouteMapHolds(rs);
    RouteMapHolds(rs');
    assert GatewayMap(gs) == GatewayMap(gs');
    assert RouteMap(rs) == RouteMap(rs');
  }

  lemma {:induction false} LiveMultiset(ps: seq<Policy>, p: Policy)
    ensures multiset(Live(ps))[p] == if p.deleting then 0 else multiset(ps)[p]
  {
    if ps != [] {
      assert ps == ps[..|ps| - 1] + [ps[|ps| - 1]];
      LiveMultiset(ps[..|ps| - 1], p);
    }
  }

  /** The attachments, reports and slots do not depend on the order in which the API server lists
      the policies, gateways and routes. */
  lemma InputOrderIsIrrelevant(
    base: seq<Directive>, ps: seq<Policy>, ps': seq<Policy>,
    gs: seq<Gateway>, gs': seq<Gateway>, rs: seq<Route>, rs': seq<Route>)
    requires DistinctKeys(ps) && multiset(ps) == multiset(ps')
    requires DistinctGateways(gs) && DistinctGateways(gs') && multiset(gs) == multiset(gs')
    requires DistinctRoutes(rs) && DistinctRoutes(rs') && multiset(rs) == multiset(rs')
    ensures Collected(WorldOf(gs, rs), base, ps) == Collected(WorldOf(gs', rs'), base, ps')
  {
    WorldForgetsOrder(gs, gs', rs, rs');
    forall p ensures multiset(Live(ps))[p] == multiset(Live(ps'))[p] {
      LiveMultiset(ps, p);
      LiveMultiset(ps', p);
    }
    assert multiset(Live(ps)) == multiset(Live(ps'));
    LiveKeepsKeysDistinct(ps);
    PoliciesAreStrict(Live(ps));
    SortForgetsOrder(Before, Live(ps), Live(ps'));
  }
}
