/** The hostname statuses of an HTTPProxy: internal/controller/httpproxy_controller.go builds them
    afresh in every reconcile, merges them by hostname, and then carries over the transition times of
    conditions that did not change. `ReconcileIsAFixpoint` is why this does not loop.
 */
module HostnameStatus {
  import opened Ordering
  import DomainController

  /** `detail` stands for reason, message and observed generation. */
  datatype Condition = Condition(kind: string, status: bool, detail: string, since: int)
  datatype Entry = Entry(hostname: string, conditions: seq<Condition>)

  // ----- Setting one condition -----

  function IndexOf(cs: seq<Condition>, kind: string): (i: Option<nat>)
    ensures i.Some? ==> i.value < |cs| && cs[i.value].kind == kind
    ensures i.None? ==> forall k :: 0 <= k < |cs| ==> cs[k].kind != kind
    ensures i.Some? ==> forall k :: 0 <= k < i.value ==> cs[k].kind != kind
  {
    if cs == [] then None
    else
      var before := IndexOf(cs[..|cs| - 1], kind);
      if before.Some? then before else if cs[|cs| - 1].kind == kind then Some(|cs| - 1) else None
  }

  /** `SetStatusCondition` for a condition that already carries a time. */
  function SetCondition(cs: seq<Condition>, c: Condition): seq<Condition>
  {
    var i := IndexOf(cs, c.kind);
    if i.None? then cs + [c]
    else cs[i.value := c.(since := if cs[i.value].status == c.status then cs[i.value].since else c.since)]
  }

  /** The condition is there afterwards with its status and detail, in the place of the first of its kind or else at the
      end, and has kept its time exactly if its status did not change. Nothing else changes. */
  lemma SetConditionSets(cs: seq<Condition>, c: Condition, q: nat)
    requires q <= |cs| && (q < |cs| ==> cs[q].kind == c.kind) && forall k :: 0 <= k < q ==> cs[k].kind != c.kind
    ensures var after := SetCondition(cs, c);
            && |after| == (if q < |cs| then |cs| else |cs| + 1)
            && (forall k :: 0 <= k < |cs| && k != q ==> after[k] == cs[k])
            && after[q].kind == c.kind && after[q].status == c.status && after[q].detail == c.detail
            && after[q].since == (if q < |cs| && cs[q].status == c.status then cs[q].since else c.since)
  {
    var i := IndexOf(cs, c.kind);
  }

  function SetAll(cs: seq<Condition>, more: seq<Condition>): seq<Condition>
  {
    if more == [] then cs else SetCondition(SetAll(cs, more[..|more| - 1]), more[|more| - 1])
  }

  ghost predicate KindsDiffer(cs: seq<Condition>) { forall i, j :: 0 <= i < j < |cs| ==> cs[i].kind != cs[j].kind }

  lemma SetKeepsKinds(cs: seq<Condition>, c: Condition)
    requires KindsDiffer(cs)
    ensures KindsDiffer(SetCondition(cs, c))
  {
  }

  lemma {:induction false} SetAllKeepsKinds(cs: seq<Condition>, more: seq<Condition>)
    requires KindsDiffer(cs)
    ensures KindsDiffer(SetAll(cs, more))
  {
    if more != [] {
      SetAllKeepsKinds(cs, more[..|more| - 1]);
      SetKeepsKinds(SetAll(cs, more[..|more| - 1]), more[|more| - 1]);
    }
  }

  // ----- Merging -----

  type ByHostname = map<string, seq<Condition>>

  function Add(m: ByHostname, e: Entry): ByHostname
  {
    m[e.hostname := if e.hostname in m then SetAll(m[e.hostname], e.conditions) else e.conditions]
  }

  function Collect(src: seq<Entry>): ByHostname
  {
    if src == [] then map[] else Add(Collect(src[..|src| - 1]), src[|src| - 1])
  }

  function Flatten(sets: seq<seq<Entry>>): seq<Entry>
  {
    if sets == [] then [] else Flatten(sets[..|sets| - 1]) + sets[|sets| - 1]
  }

  predicate HostLess(a: Entry, b: Entry) { StringLess(a.hostname, b.hostname) }

  /** Strictly sorted by hostname, one entry for each key. */
  ghost predicate Lists(r: seq<Entry>, m: ByHostname)
  {
    && Sorted(HostLess, r)
    && (forall e :: e in r <==> e.hostname in m && e.conditions == m[e.hostname])
  }

  method SetConditions(before: seq<Condition>, more: seq<Condition>) returns (cs: seq<Condition>)
    ensures cs == SetAll(before, more)
  {
    cs := before;
    for k := 0 to |more|
      invariant cs == SetAll(before, more[..k])
    {
      assert more[..k + 1][..k] == more[..k];
      cs := SetCondition(cs, more[k]);
    }
    assert more[..|more|] == more;
  }

  lemma CollectAppends(src: seq<Entry>, e: Entry)
    ensures Collect(src + [e]) == Add(Collect(src), e)
  {
    assert (src + [e])[..|src|] == src;
  }

  method CollectSet(before: ByHostname, entries: seq<Entry>, ghost src: seq<Entry>) returns (m: ByHostname)
    requires before == Collect(src)
    ensures m == Collect(src + entries)
  {
    m := before;
    assert src + entries[..0] == src;
    for j := 0 to |entries|
      invariant m == Collect(src + entries[..j])
    {
      var e := entries[j];
      CollectAppends(src + entries[..j], e);
      assert src + entries[..j + 1] == src + entries[..j] + [e];
      if e.hostname in m {
        var cs := SetConditions(m[e.hostname], e.conditions);
        m := m[e.hostname := cs];
      } else {
        m := m[e.hostname := e.conditions];
      }
    }
    assert entries[..|entries|] == entries;
  }

  method CollectAll(sets: seq<seq<Entry>>) returns (m: ByHostname)
    ensures m == Collect(Flatten(sets))
  {
    m := map[];
    for i := 0 to |sets|
      invariant m == Collect(Flatten(sets[..i]))
    {
      assert sets[..i + 1][..i] == sets[..i];
      m := CollectSet(m, sets[i], Flatten(sets[..i]));
    }
    assert sets[..|sets|] == sets;
  }

  method MergeHostnameStatuses(sets: seq<seq<Entry>>) returns (r: seq<Entry>)
    ensures Lists(r, Collect(Flatten(sets)))
  {
    var m := CollectAll(sets);
    var out: seq<Entry> := [];
    var keys := m.Keys;
    while keys != {}
      invariant keys <= m.Keys && NoDuplicates(out) && HostsDiffer(out)
      invariant forall e :: e in out <==> e.hostname in m && e.hostname !in keys && e.conditions == m[e.hostname]
      decreases |keys|
    {
      var h :| h in keys;
      keys := keys - {h};
      out := out + [Entry(h, m[h])];
    }
    HostsAreStrict(out);
    SortSorted(HostLess, out);
    r := Sort(HostLess, out);
  }

  ghost predicate HostsDiffer(s: seq<Entry>) { forall i, j :: 0 <= i < j < |s| ==> s[i].hostname != s[j].hostname }

  lemma HostsAreStrict(s: seq<Entry>)
    requires HostsDiffer(s)
    ensures StrictOn(HostLess, s)
  {
    forall x | x in s ensures !HostLess(x, x) { StringLessIrreflexive(x.hostname); }
    forall x, y, z | x in s && y in s && z in s && HostLess(x, y) && HostLess(y, z) ensures HostLess(x, z) {
      StringLessTransitive(x.hostname, y.hostname, z.hostname);
    }
    forall x, y | x in s && y in s && x != y ensures HostLess(x, y) || HostLess(y, x) {
      StringLessTotal(x.hostname, y.hostname);
    }
  }

  // ----- Carrying transition times over -----

  function OldFor(old_: seq<Entry>, h: string): Option<seq<Condition>>
  {
    if old_ == [] then None
    else if old_[|old_| - 1].hostname == h then Some(old_[|old_| - 1].conditions)
    else OldFor(old_[..|old_| - 1], h)
  }

  function Carry(c: Condition, before: seq<Condition>): Condition
  {
    var i := IndexOf(before, c.kind);
    if i.Some? && before[i.value].status == c.status then c.(since := before[i.value].since) else c
  }

  function CarryAll(cs: seq<Condition>, before: seq<Condition>): seq<Condition>
  {
    seq(|cs|, j requires 0 <= j < |cs| => Carry(cs[j], before))
  }

  function CarryEntry(e: Entry, old_: seq<Entry>): Entry
  {
    var before := OldFor(old_, e.hostname);
    if before.Some? then e.(conditions := CarryAll(e.conditions, before.value)) else e
  }

  function Preserved(new_: seq<Entry>, old_: seq<Entry>): seq<Entry>
  {
    seq(|new_|, i requires 0 <= i < |new_| => CarryEntry(new_[i], old_))
  }

  method IndexOld(old_: seq<Entry>) returns (m: ByHostname)
    ensures forall h :: OldFor(old_, h) == if h in m then Some(m[h]) else None
  {
    m := map[];
    for i := 0 to |old_|
      invariant forall h :: OldFor(old_[..i], h) == if h in m then Some(m[h]) else None
    {
      assert old_[..i + 1][..i] == old_[..i];
      m := m[old_[i].hostname := old_[i].conditions];
    }
    assert old_[..|old_|] == old_;
  }

  /** Works in place on the freshly merged list. */
  method PreserveTransitions(a: array<Entry>, old_: seq<Entry>)
    modifies a
    ensures a[..] == Preserved(old(a[..]), old_)
  {
    var byHostname := IndexOld(old_);
    for i := 0 to a.Length
      invariant forall k :: 0 <= k < i ==> a[k] == CarryEntry(old(a[k]), old_)
      invariant forall k :: i <= k < a.Length ==> a[k] == old(a[k])
    {
      var e := a[i];
      assert OldFor(old_, e.hostname) == if e.hostname in byHostname then Some(byHostname[e.hostname]) else None;
      if e.hostname in byHostname {
        var cs := CarryTimes(e.conditions, byHostname[e.hostname]);
        a[i] := e.(conditions := cs);
      }
    }
  }

  method CarryTimes(new_: seq<Condition>, before: seq<Condition>) returns (cs: seq<Condition>)
    ensures cs == CarryAll(new_, before)
  {
    cs := new_;
    for j := 0 to |new_|
      invariant |cs| == |new_|
      invariant forall k :: 0 <= k < j ==> cs[k] == Carry(new_[k], before)
      invariant forall k :: j <= k < |new_| ==> cs[k] == new_[k]
    {
      var i := IndexOf(before, new_[j].kind);
      if i.Some? && before[i.value].status == new_[j].status {
        cs := cs[j := new_[j].(since := before[i.value].since)];
      }
    }
  }

  /** The hostname's last entry in the old status. */
  predicate LastEntry(old_: seq<Entry>, h: string, p: nat)
  {
    p < |old_| && old_[p].hostname == h && forall k :: p < k < |old_| ==> old_[k].hostname != h
  }

  /** A condition of the same kind and status was there already, the first of its kind, since `t`. */
  ghost predicate WasSince(old_: seq<Entry>, h: string, c: Condition, t: int)
  {
    exists p: nat, q: nat :: LastEntry(old_, h, p) && q < |old_[p].conditions| && KeptFrom(old_[p].conditions, c, q, t)
  }

  predicate KeptFrom(cs: seq<Condition>, c: Condition, q: nat, t: int)
    requires q < |cs|
  {
    cs[q].kind == c.kind && cs[q].status == c.status && cs[q].since == t && forall k :: 0 <= k < q ==> cs[k].kind != c.kind
  }

  lemma {:induction false} OldForIs(old_: seq<Entry>, h: string)
    ensures OldFor(old_, h).None? ==> forall e :: e in old_ ==> e.hostname != h
    ensures OldFor(old_, h).Some? ==> exists p: nat :: LastEntry(old_, h, p) && old_[p].conditions == OldFor(old_, h).value
  {
    if old_ != [] {
      var n := |old_| - 1;
      if old_[n].hostname == h {
        assert LastEntry(old_, h, n);
      } else {
        OldForIs(old_[..n], h);
        assert old_ == old_[..n] + [old_[n]];
        if OldFor(old_, h).Some? {
          var p: nat :| LastEntry(old_[..n], h, p) && old_[..n][p].conditions == OldFor(old_, h).value;
          assert LastEntry(old_, h, p) && old_[p].conditions == OldFor(old_, h).value;
        }
      }
    }
  }

  /** Nothing but times changes, and a condition's time becomes the old one exactly if the hostname had that condition
      with the same status. */
  lemma PreservedSays(new_: seq<Entry>, old_: seq<Entry>, i: nat, j: nat)
    requires i < |new_| && j < |new_[i].conditions|
    ensures var out, h, c := Preserved(new_, old_), new_[i].hostname, new_[i].conditions[j];
            && |out| == |new_| && out[i].hostname == h && |out[i].conditions| == |new_[i].conditions|
            && (forall t :: WasSince(old_, h, c, t) ==> out[i].conditions[j] == c.(since := t))
            && ((forall t :: !WasSince(old_, h, c, t)) ==> out[i].conditions[j] == c)
  {
    var out, h, c := Preserved(new_, old_), new_[i].hostname, new_[i].conditions[j];
    OldForIs(old_, h);
    if OldFor(old_, h).Some? {
      var p: nat :| LastEntry(old_, h, p) && old_[p].conditions == OldFor(old_, h).value;
      var cs := old_[p].conditions;
      var q := IndexOf(cs, c.kind);
      if q.Some? && cs[q.value].status == c.status {
        assert KeptFrom(cs, c, q.value, cs[q.value].since);
        assert WasSince(old_, h, c, cs[q.value].since);
      }
      forall t | WasSince(old_, h, c, t) ensures out[i].conditions[j] == c.(since := t) {
        var p': nat, q': nat :| LastEntry(old_, h, p') && q' < |old_[p'].conditions| && KeptFrom(old_[p'].conditions, c, q', t);
        assert p' == p;
        assert q == Some(q');
      }
    }
  }

  // ----- Availability -----

  const AVAILABLE := "Available"

  function Claimed(generation: string, now: int): seq<Condition> { [Condition(AVAILABLE, true, "Claimed" + generation, now)] }
  function InUse(generation: string, now: int): seq<Condition> { [Condition(AVAILABLE, false, "InUse" + generation, now)] }

  /** The entries of one hostname, in the order they come. */
  function EntriesFor(src: seq<Entry>, h: string): seq<seq<Condition>>
  {
    if src == [] then []
    else
      var before := EntriesFor(src[..|src| - 1], h);
      if src[|src| - 1].hostname == h then before + [src[|src| - 1].conditions] else before
  }

  function Availability(accepted: set<string>, inUse: set<string>, generation: string, now: int, h: string): seq<seq<Condition>>
  {
    (if h in accepted then [Claimed(generation, now)] else []) + (if h in inUse then [InUse(generation, now)] else [])
  }

  /** Appends one entry for each hostname of a set, in any order. */
  method AppendAll(before: seq<Entry>, hosts: set<string>, cs: seq<Condition>) returns (r: seq<Entry>)
    ensures forall h :: EntriesFor(r, h) == EntriesFor(before, h) + (if h in hosts then [cs] else [])
  {
    r := before;
    var rest := hosts;
    while rest != {}
      invariant rest <= hosts
      invariant forall h :: EntriesFor(r, h) == EntriesFor(before, h) + (if h in hosts - rest then [cs] else [])
      decreases |rest|
    {
      var h :| h in rest;
      rest := rest - {h};
      AppendEntry(r, Entry(h, cs));
      r := r + [Entry(h, cs)];
    }
  }

  method BuildAvailabilityStatuses(accepted: set<string>, inUse: set<string>, generation: string, now: int) returns (r: seq<Entry>)
    ensures forall h :: EntriesFor(r, h) == Availability(accepted, inUse, generation, now, h)
  {
    var claimed := AppendAll([], accepted, Claimed(generation, now));
    r := AppendAll(claimed, inUse, InUse(generation, now));
  }

  lemma AppendEntry(src: seq<Entry>, e: Entry)
    ensures forall h :: EntriesFor(src + [e], h) == EntriesFor(src, h) + if e.hostname == h then [e.conditions] else []
  {
    assert (src + [e])[..|src|] == src;
    assert forall h :: EntriesFor(src, h) + [] == EntriesFor(src, h);
  }

  // ----- What the merge depends on -----

  function Fold(es: seq<seq<Condition>>): seq<Condition>
  {
    if es == [] then []
    else if |es| == 1 then es[0]
    else SetAll(Fold(es[..|es| - 1]), es[|es| - 1])
  }

  /** The merged conditions of a hostname depend on that hostname's entries only, not on how they are interleaved. */
  lemma {:induction false} CollectIs(src: seq<Entry>, h: string)
    ensures h in Collect(src) <==> EntriesFor(src, h) != []
    ensures h in Collect(src) ==> Collect(src)[h] == Fold(EntriesFor(src, h))
  {
    if src != [] {
      var init, e := src[..|src| - 1], src[|src| - 1];
      CollectIs(init, h);
      if e.hostname == h {
        var before := EntriesFor(init, h);
        assert (before + [e.conditions])[..|before|] == before;
      }
    }
  }

  function Timeless(c: Condition): Condition { c.(since := 0) }

  predicate Alike(a: seq<Condition>, b: seq<Condition>)
  {
    |a| == |b| && forall i :: 0 <= i < |a| ==> Timeless(a[i]) == Timeless(b[i])
  }

  predicate AllAlike(a: seq<seq<Condition>>, b: seq<seq<Condition>>)
  {
    |a| == |b| && forall i :: 0 <= i < |a| ==> Alike(a[i], b[i])
  }

  lemma AlikeIndex(a: seq<Condition>, b: seq<Condition>, kind: string)
    requires Alike(a, b)
    ensures IndexOf(a, kind) == IndexOf(b, kind)
  {
    assert forall i :: 0 <= i < |a| ==> Timeless(a[i]).kind == a[i].kind && Timeless(b[i]).kind == b[i].kind;
  }

  lemma SetConditionAlike(a: seq<Condition>, b: seq<Condition>, c: Condition, d: Condition)
    requires Alike(a, b) && Timeless(c) == Timeless(d)
    ensures Alike(SetCondition(a, c), SetCondition(b, d))
  {
    assert c.kind == Timeless(c).kind == d.kind;
    AlikeIndex(a, b, c.kind);
  }

  lemma {:induction false} SetAllAlike(a: seq<Condition>, b: seq<Condition>, x: seq<Condition>, y: seq<Condition>)
    requires Alike(a, b) && Alike(x, y)
    ensures Alike(SetAll(a, x), SetAll(b, y))
  {
    if x != [] {
      var n := |x| - 1;
      SetAllAlike(a, b, x[..n], y[..n]);
      SetConditionAlike(SetAll(a, x[..n]), SetAll(b, y[..n]), x[n], y[n]);
    }
  }

  lemma {:induction false} FoldAlike(es: seq<seq<Condition>>, fs: seq<seq<Condition>>)
    requires AllAlike(es, fs)
    ensures Alike(Fold(es), Fold(fs))
  {
    if |es| > 1 {
      var n := |es| - 1;
      FoldAlike(es[..n], fs[..n]);
      SetAllAlike(Fold(es[..n]), Fold(fs[..n]), es[n], fs[n]);
    }
  }

  ghost predicate GoodEntries(src: seq<Entry>) { forall e :: e in src ==> KindsDiffer(e.conditions) }

  lemma {:induction false} CollectKindsDiffer(src: seq<Entry>)
    requires GoodEntries(src)
    ensures forall h :: h in Collect(src) ==> KindsDiffer(Collect(src)[h])
  {
    if src != [] {
      var init, e := src[..|src| - 1], src[|src| - 1];
      CollectKindsDiffer(init);
      if e.hostname in Collect(init) { SetAllKeepsKinds(Collect(init)[e.hostname], e.conditions); }
    }
  }

  /** The last condition of a kind among a hostname's entries. */
  function LastOf(es: seq<seq<Condition>>, kind: string): Option<Condition>
  {
    if es == [] then None
    else
      var e := es[|es| - 1];
      var i := IndexOf(e, kind);
      if i.Some? then Some(e[i.value]) else LastOf(es[..|es| - 1], kind)
  }

  predicate Says(cs: seq<Condition>, kind: string, c: Option<Condition>)
  {
    var i := IndexOf(cs, kind);
    i.Some? == c.Some? && (i.Some? ==> Timeless(cs[i.value]) == Timeless(c.value))
  }

  lemma IndexIs(cs: seq<Condition>, kind: string, i: nat)
    requires i < |cs| && cs[i].kind == kind && forall k :: 0 <= k < i ==> cs[k].kind != kind
    ensures IndexOf(cs, kind) == Some(i)
  {
  }

  lemma SetConditionKinds(cs: seq<Condition>, c: Condition)
    ensures var after := SetCondition(cs, c);
            |after| >= |cs| && (forall k :: 0 <= k < |cs| ==> after[k].kind == cs[k].kind) && (forall k :: |cs| <= k < |after| ==> after[k] == c)
  {
  }

  /** Setting a condition keeps the kinds where they are, except that a new kind is appended. */
  lemma SetConditionIndex(cs: seq<Condition>, c: Condition, kind: string)
    ensures var i := IndexOf(cs, kind);
            IndexOf(SetCondition(cs, c), kind) == if i.Some? then i else if c.kind == kind then Some(|cs|) else None
  {
    var after, i := SetCondition(cs, c), IndexOf(cs, kind);
    SetConditionKinds(cs, c);
    if i.Some? {
      IndexIs(after, kind, i.value);
    } else if c.kind == kind {
      IndexIs(after, kind, |cs|);
    } else {
      var j := IndexOf(after, kind);
      assert forall k :: 0 <= k < |after| ==> after[k].kind != kind;
    }
  }

  lemma SetConditionSays(cs: seq<Condition>, c: Condition, kind: string)
    ensures var i := IndexOf(cs, kind);
            Says(SetCondition(cs, c), kind, if c.kind == kind then Some(c) else if i.Some? then Some(cs[i.value]) else None)
  {
    SetConditionIndex(cs, c, kind);
  }

  lemma {:induction false} SetAllSays(cs: seq<Condition>, more: seq<Condition>, kind: string)
    requires KindsDiffer(more)
    ensures var i, j := IndexOf(more, kind), IndexOf(cs, kind);
            Says(SetAll(cs, more), kind, if i.Some? then Some(more[i.value]) else if j.Some? then Some(cs[j.value]) else None)
  {
    if more != [] {
      var n := |more| - 1;
      SetAllSays(cs, more[..n], kind);
      SetConditionSays(SetAll(cs, more[..n]), more[n], kind);
    }
  }

  /** Of several sources naming one condition of a hostname, the last decides its status and detail. */
  lemma {:induction false} LastSourceWins(es: seq<seq<Condition>>, kind: string)
    requires forall e :: e in es ==> KindsDiffer(e)
    ensures Says(Fold(es), kind, LastOf(es, kind))
  {
    if |es| > 1 {
      var n := |es| - 1;
      LastSourceWins(es[..n], kind);
      SetAllSays(Fold(es[..n]), es[n], kind);
    } else if |es| == 1 {
      assert es[..0] == [];
    }
  }

  /** None of the entries names the condition. */
  ghost predicate Silent(es: seq<seq<Condition>>, kind: string)
  {
    forall e :: e in es ==> KindsDiffer(e) && forall c :: c in e ==> c.kind != kind
  }

  lemma {:induction false} SilentEntries(src: seq<Entry>, h: string, kind: string)
    requires forall e :: e in src ==> KindsDiffer(e.conditions) && forall c :: c in e.conditions ==> c.kind != kind
    ensures Silent(EntriesFor(src, h), kind)
  {
    if src != [] { SilentEntries(src[..|src| - 1], h, kind); }
  }

  lemma {:induction false} LastOfSilent(before: seq<seq<Condition>>, mine: seq<seq<Condition>>, after: seq<seq<Condition>>, kind: string)
    requires Silent(before, kind) && Silent(after, kind)
    ensures LastOf(before + mine + after, kind) == LastOf(mine, kind)
  {
    if after != [] {
      assert (before + mine + after)[..|before + mine + after| - 1] == before + mine + after[..|after| - 1];
      assert after[|after| - 1] in after;
      LastOfSilent(before, mine, after[..|after| - 1], kind);
    } else if mine != [] {
      assert before + mine + after == before + mine && (before + mine)[..|before + mine| - 1] == before + mine[..|mine| - 1];
      assert before + mine[..|mine| - 1] + [] == before + mine[..|mine| - 1];
      LastOfSilent(before, mine[..|mine| - 1], [], kind);
    } else if before != [] {
      assert before + mine + after == before && before[|before| - 1] in before;
      assert before[..|before| - 1] + [] + [] == before[..|before| - 1];
      LastOfSilent(before[..|before| - 1], [], [], kind);
    }
  }

  lemma {:induction false} FoldKinds(es: seq<seq<Condition>>)
    requires forall e :: e in es ==> KindsDiffer(e)
    ensures KindsDiffer(Fold(es))
  {
    if |es| > 1 {
      FoldKinds(es[..|es| - 1]);
      SetAllKeepsKinds(Fold(es[..|es| - 1]), es[|es| - 1]);
    }
  }

  lemma LastOfAvailability(accepted: set<string>, inUse: set<string>, generation: string, now: int, h: string)
    ensures var last := LastOf(Availability(accepted, inUse, generation, now, h), "Available");
            && (last.Some? <==> h in accepted || h in inUse)
            && (last.Some? ==> (last.value.status <==> h !in inUse) && last.value.detail == (if h in inUse then "InUse" else "Claimed") + generation)
  {
    var es := Availability(accepted, inUse, generation, now, h);
    if es != [] {
      var e := es[|es| - 1];
      IndexIs(e, "Available", 0);
    }
  }

  /** Some condition of the kind has this status and detail. */
  ghost predicate Reports(cs: seq<Condition>, kind: string, status: bool, detail: string)
  {
    exists c :: c in cs && c.kind == kind && c.status == status && c.detail == detail
  }

  lemma ReportsWhatItSays(cs: seq<Condition>, kind: string, c: Option<Condition>, status: bool, detail: string)
    requires KindsDiffer(cs) && Says(cs, kind, c)
    ensures Reports(cs, kind, status, detail) <==> c.Some? && c.value.status == status && c.value.detail == detail
  {
    var i := IndexOf(cs, kind);
    if i.Some? {
      assert Timeless(cs[i.value]).status == cs[i.value].status && Timeless(c.value).status == c.value.status;
      assert Timeless(cs[i.value]).detail == cs[i.value].detail && Timeless(c.value).detail == c.value.detail;
    }
  }

  /** Merged with sources that say nothing about availability, before and after it, a hostname is reported
      available exactly if it was claimed and nobody else uses it, unavailable exactly if somebody does, and
      neither if it is in neither set. */
  lemma AvailableExactlyWhenClaimed(before: seq<Entry>, r: seq<Entry>, after: seq<Entry>, accepted: set<string>, inUse: set<string>, generation: string, now: int, h: string)
    requires EntriesFor(r, h) == Availability(accepted, inUse, generation, now, h) && GoodEntries(before) && GoodEntries(after)
    requires forall e :: e in before || e in after ==> forall c :: c in e.conditions ==> c.kind != "Available"
    ensures var m := Collect(before + r + after);
            && (h in m && Reports(m[h], "Available", true, "Claimed" + generation) <==> h in accepted && h !in inUse)
            && (h in m && Reports(m[h], "Available", false, "InUse" + generation) <==> h in inUse)
  {
    var src := before + r + after;
    var mine := Availability(accepted, inUse, generation, now, h);
    EntriesAppend(before, r, h);
    EntriesAppend(before + r, after, h);
    var es := EntriesFor(before, h) + mine + EntriesFor(after, h);
    CollectIs(src, h);
    SilentEntries(before, h, "Available");
    SilentEntries(after, h, "Available");
    assert forall e :: e in mine ==> KindsDiffer(e);
    LastSourceWins(es, "Available");
    FoldKinds(es);
    LastOfSilent(EntriesFor(before, h), mine, EntriesFor(after, h), "Available");
    LastOfAvailability(accepted, inUse, generation, now, h);
    ReportsWhatItSays(Fold(es), "Available", LastOf(es, "Available"), true, "Claimed" + generation);
    ReportsWhatItSays(Fold(es), "Available", LastOf(es, "Available"), false, "InUse" + generation);
  }

  // ----- The fixpoint -----

  /** The same source statuses built at another time and with the hostnames visited in another order. */
  ghost predicate SameSources(src: seq<Entry>, again: seq<Entry>)
  {
    forall h :: AllAlike(EntriesFor(src, h), EntriesFor(again, h))
  }

  lemma {:induction false} EntriesAppend(xs: seq<Entry>, ys: seq<Entry>, h: string)
    ensures EntriesFor(xs + ys, h) == EntriesFor(xs, h) + EntriesFor(ys, h)
  {
    if ys == [] {
      assert xs + ys == xs && EntriesFor(xs, h) + [] == EntriesFor(xs, h);
    } else {
      assert (xs + ys)[..|xs + ys| - 1] == xs + ys[..|ys| - 1];
      EntriesAppend(xs, ys[..|ys| - 1], h);
    }
  }

  /** Sources that each stay the same are the same together. */
  lemma {:induction false} SameSourcesTogether(sets: seq<seq<Entry>>, again: seq<seq<Entry>>)
    requires |sets| == |again| && forall i :: 0 <= i < |sets| ==> SameSources(sets[i], again[i])
    ensures SameSources(Flatten(sets), Flatten(again))
  {
    if sets != [] {
      var n := |sets| - 1;
      SameSourcesTogether(sets[..n], again[..n]);
      forall h ensures AllAlike(EntriesFor(Flatten(sets), h), EntriesFor(Flatten(again), h)) {
        EntriesAppend(Flatten(sets[..n]), sets[n], h);
        EntriesAppend(Flatten(again[..n]), again[n], h);
        assert AllAlike(EntriesFor(Flatten(sets[..n]), h), EntriesFor(Flatten(again[..n]), h));
        assert AllAlike(EntriesFor(sets[n], h), EntriesFor(again[n], h));
      }
    }
  }

  /** The availability statuses of the same hostnames are the same source, whenever and in whatever order they are built. */
  lemma AvailabilityIsStable(a: seq<Entry>, b: seq<Entry>, accepted: set<string>, inUse: set<string>, generation: string, now: int, later: int)
    requires forall h :: EntriesFor(a, h) == Availability(accepted, inUse, generation, now, h)
    requires forall h :: EntriesFor(b, h) == Availability(accepted, inUse, generation, later, h)
    ensures SameSources(a, b)
  {
    forall h ensures AllAlike(EntriesFor(a, h), EntriesFor(b, h)) {
      assert Alike(Claimed(generation, now), Claimed(generation, later));
      assert Alike(InUse(generation, now), InUse(generation, later));
    }
  }

  lemma SortedHostsDiffer(r: seq<Entry>)
    requires Sorted(HostLess, r)
    ensures HostsDiffer(r)
  {
    forall i, j | 0 <= i < j < |r| ensures r[i].hostname != r[j].hostname {
      StringLessIrreflexive(r[i].hostname);
      assert HostLess(r[i], r[j]);
    }
  }

  function Hostnames(r: seq<Entry>): seq<string> { seq(|r|, i requires 0 <= i < |r| => r[i].hostname) }

  lemma SameHosts(r: seq<Entry>, m: ByHostname, r': seq<Entry>, m': ByHostname)
    requires Lists(r, m) && Lists(r', m') && m.Keys == m'.Keys
    ensures Hostnames(r) == Hostnames(r')
  {
    var a, b := Hostnames(r), Hostnames(r');
    HostnamesAreKeys(r, m);
    HostnamesAreKeys(r', m');
    StringsAreStrict(a);
    SortedBySetIsUnique(StringLess, a, b);
  }

  lemma HostnamesAreKeys(r: seq<Entry>, m: ByHostname)
    requires Lists(r, m)
    ensures Sorted(StringLess, Hostnames(r)) && forall h :: h in Hostnames(r) <==> h in m
  {
    assert forall i, j :: 0 <= i < j < |r| ==> HostLess(r[i], r[j]);
    forall h ensures h in Hostnames(r) <==> h in m {
      if h in m {
        var e := Entry(h, m[h]);
        assert e in r;
        var i :| 0 <= i < |r| && r[i] == e;
        assert Hostnames(r)[i] == h;
      }
      if h in Hostnames(r) {
        var i :| 0 <= i < |r| && Hostnames(r)[i] == h;
        assert r[i] in r;
      }
    }
  }

  lemma {:induction false} OldForAt(r: seq<Entry>, i: nat)
    requires HostsDiffer(r) && i < |r|
    ensures OldFor(r, r[i].hostname) == Some(r[i].conditions)
  {
    if i < |r| - 1 { OldForAt(r[..|r| - 1], i); }
  }

  lemma CarryIsFixed(cs: seq<Condition>, before: seq<Condition>)
    requires Alike(cs, before) && KindsDiffer(before)
    ensures CarryAll(cs, before) == before
  {
    forall j | 0 <= j < |cs| ensures Carry(cs[j], before) == before[j] {
      assert Timeless(cs[j]) == Timeless(before[j]);
      assert cs[j].kind == Timeless(cs[j]).kind == before[j].kind;
      assert IndexOf(before, before[j].kind) == Some(j);
    }
  }

  lemma CarryKeepsShape(e: Entry, old_: seq<Entry>)
    ensures CarryEntry(e, old_).hostname == e.hostname && Alike(CarryEntry(e, old_).conditions, e.conditions)
  {
  }

  lemma AlikeKinds(a: seq<Condition>, b: seq<Condition>)
    requires Alike(a, b) && KindsDiffer(b)
    ensures KindsDiffer(a)
  {
    assert forall i :: 0 <= i < |a| ==> a[i].kind == Timeless(a[i]).kind == Timeless(b[i]).kind == b[i].kind;
  }

  lemma MergedAlike(src: seq<Entry>, again: seq<Entry>, h: string)
    requires SameSources(src, again)
    ensures h in Collect(src) <==> h in Collect(again)
    ensures h in Collect(src) ==> Alike(Collect(again)[h], Collect(src)[h])
  {
    CollectIs(src, h);
    CollectIs(again, h);
    assert AllAlike(EntriesFor(src, h), EntriesFor(again, h));
    FoldAlike(EntriesFor(src, h), EntriesFor(again, h));
  }

  /** Equal up to transition times. */
  predicate SameButTimes(a: seq<Entry>, b: seq<Entry>)
  {
    |a| == |b| && forall i :: 0 <= i < |a| ==> a[i].hostname == b[i].hostname && Alike(a[i].conditions, b[i].conditions)
  }

  /** The status as the API server returns it: times truncated to whole seconds. */
  function Truncated(cs: seq<Condition>): seq<Condition> { seq(|cs|, i requires 0 <= i < |cs| => cs[i].(since := DomainController.Trunc(cs[i].since))) }

  function Saved(r: seq<Entry>): seq<Entry> { seq(|r|, i requires 0 <= i < |r| => r[i].(conditions := Truncated(r[i].conditions))) }

  lemma EntryIsFixed(stored: seq<Entry>, i: nat, e: Entry)
    requires HostsDiffer(stored) && i < |stored| && KindsDiffer(stored[i].conditions)
    requires e.hostname == stored[i].hostname && Alike(e.conditions, stored[i].conditions)
    ensures CarryEntry(e, stored) == stored[i]
  {
    OldForAt(stored, i);
    CarryIsFixed(e.conditions, stored[i].conditions);
  }

  lemma PreservedKeepsShape(merged: seq<Entry>, prev: seq<Entry>)
    ensures SameButTimes(Preserved(merged, prev), merged) && SameButTimes(Saved(Preserved(merged, prev)), merged)
  {
    forall i | 0 <= i < |merged| ensures Alike(CarryEntry(merged[i], prev).conditions, merged[i].conditions) { CarryKeepsShape(merged[i], prev); }
  }

  /** Merging again gives the same list up to times. */
  lemma MergedAgain(src: seq<Entry>, merged: seq<Entry>, again: seq<Entry>, merged': seq<Entry>)
    requires SameSources(src, again) && Lists(merged, Collect(src)) && Lists(merged', Collect(again))
    ensures SameButTimes(merged', merged)
  {
    forall h ensures h in Collect(src) <==> h in Collect(again) { MergedAlike(src, again, h); }
    SameHosts(merged, Collect(src), merged', Collect(again));
    assert |Hostnames(merged)| == |Hostnames(merged')|;
    forall i | 0 <= i < |merged| ensures merged'[i].hostname == merged[i].hostname && Alike(merged'[i].conditions, merged[i].conditions) {
      assert Hostnames(merged)[i] == Hostnames(merged')[i];
      assert merged[i] in merged && merged'[i] in merged';
      MergedAlike(src, again, merged[i].hostname);
    }
  }

  /** Whatever times a stored status carries, reconciling the same sources against it gives it back. */
  lemma AnyTimesAreKept(merged: seq<Entry>, merged': seq<Entry>, stored: seq<Entry>)
    requires Sorted(HostLess, merged) && GoodEntries(merged) && SameButTimes(merged', merged) && SameButTimes(stored, merged)
    ensures Preserved(merged', stored) == stored && Sorted(HostLess, stored)
  {
    SortedHostsDiffer(merged);
    forall i | 0 <= i < |merged| ensures CarryEntry(merged'[i], stored) == stored[i] {
      assert merged[i] in merged && Alike(stored[i].conditions, merged[i].conditions);
      AlikeKinds(stored[i].conditions, merged[i].conditions);
      EntryIsFixed(stored, i, merged'[i]);
    }
    assert forall i, j :: 0 <= i < j < |merged| ==> HostLess(merged[i], merged[j]);
  }

  /** Feeding a reconcile its own output, as computed or as the API server stored it, at any later time and
      in any iteration order, changes nothing. */
  lemma ReconcileIsAFixpoint(src: seq<Entry>, prev: seq<Entry>, merged: seq<Entry>, again: seq<Entry>, merged': seq<Entry>)
    requires GoodEntries(src) && SameSources(src, again)
    requires Lists(merged, Collect(src)) && Lists(merged', Collect(again))
    ensures var out := Preserved(merged, prev);
            && Preserved(merged', out) == out && Preserved(merged', Saved(out)) == Saved(out)
            && Sorted(HostLess, out)
  {
    CollectKindsDiffer(src);
    MergedAgain(src, merged, again, merged');
    PreservedKeepsShape(merged, prev);
    AnyTimesAreKept(merged, merged', Preserved(merged, prev));
    AnyTimesAreKept(merged, merged', Saved(Preserved(merged, prev)));
  }

  /** One reconcile: merge, then carry times over from the status read. */
  method ReconcileStatuses(sets: seq<seq<Entry>>, prev: seq<Entry>) returns (r: seq<Entry>, ghost merged: seq<Entry>)
    ensures Lists(merged, Collect(Flatten(sets))) && r == Preserved(merged, prev)
  {
    var list := MergeHostnameStatuses(sets);
    merged := list;
    var a := new Entry[|list|](i requires 0 <= i < |list| => list[i]);
    assert a[..] == list;
    PreserveTransitions(a, prev);
    r := a[..];
  }
}
