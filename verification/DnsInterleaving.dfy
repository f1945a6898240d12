/** The DNS passes of any number of gateways of one namespace, interleaved call by call.

    A pass writes records one by one, lists its own records and deletes the stale ones one by one. A
    write takes effect on the record it read or fails, since the API server refuses an update of a
    changed object; the conflict check before it may be out of date, so it is not relied on here.
    Anybody else may write or delete records that do not carry the controller's managed-by label.
 */
module DnsInterleaving {
  import opened Ordering
  import opened DnsRecordSets

  /** What a gateway has listed and not deleted yet, and the names it wants to keep. */
  datatype Sweep = Sweep(remaining: set<string>, desired: set<string>)

  datatype State = State(records: Records, sweeps: map<string, Sweep>)

  datatype Event =
    | Wrote(g: Gateway, inp: Inputs, host: string, zone: string, now: int)
    | Listed(g: Gateway, desired: set<string>)
    | Deleted(g: Gateway, name: string)
    | Ended(g: Gateway)                        // the pass returned, or failed
    | Edited(name: string, record: Option<Record>)

  function Own(m: Records, g: Gateway): set<string> { set n | n in m && OwnedBy(m[n], g) }

  function Put(m: Records, g: Gateway, inp: Inputs, host: string, zone: string, now: int): Records
    requires Usable(inp, zone)
  {
    var name := RecordName(inp, g.name, host);
    if name in m && Foreign(m[name]) then m
    else m[name := Written(g, host, SpecFor(inp, g, host, zone), if name in m then Some(m[name]) else None, now)]
  }

  function Step(s: State, e: Event): State
  {
    match e
    case Wrote(g, inp, host, zone, now) =>
      if g.name in s.sweeps || !Usable(inp, zone) then s else s.(records := Put(s.records, g, inp, host, zone, now))
    case Listed(g, desired) =>
      if g.name in s.sweeps then s else s.(sweeps := s.sweeps[g.name := Sweep(Own(s.records, g) - desired, desired)])
    case Deleted(g, n) =>
      if g.name !in s.sweeps || n !in s.sweeps[g.name].remaining then s
      else State(s.records - {n}, s.sweeps[g.name := s.sweeps[g.name].(remaining := s.sweeps[g.name].remaining - {n})])
    case Ended(g) => s.(sweeps := s.sweeps - {g.name})
    case Edited(n, r) => s.(records := if r.Some? then s.records[n := r.value] else s.records - {n})
  }

  function Run(s: State, es: seq<Event>): State
  {
    if es == [] then s else Step(Run(s, es[..|es| - 1]), es[|es| - 1])
  }

  /** All gateways are of one namespace, hashes have their length, and edits leave the controller's records alone. */
  ghost predicate Legal(s: State, ns: string, e: Event)
  {
    && (!e.Edited? ==> e.g.namespace == ns)
    && (e.Wrote? ==> HashesFit(e.inp))
    && (e.Edited? ==> (e.name in s.records ==> s.records[e.name].managedBy != OURS) && (e.record.Some? ==> e.record.value.managedBy != OURS))
  }

  ghost predicate LegalRun(s: State, ns: string, es: seq<Event>)
  {
    if es == [] then true
    else LegalRun(s, ns, es[..|es| - 1]) && Legal(Run(s, es[..|es| - 1]), ns, es[|es| - 1])
  }

  /** A sweep covers all stale records of its gateway, and only those. */
  ghost predicate SweepKept(m: Records, ns: string, name: string, w: Sweep)
  {
    && (forall n :: n in w.remaining ==> n in m && Swept(m[n], ns, name) && n !in w.desired)
    && (forall n :: n in m && Swept(m[n], ns, name) ==> n in w.remaining || n in w.desired)
  }

  predicate Swept(r: Record, ns: string, name: string)
  {
    r.managed && r.managedBy == OURS && r.sourceName == name && r.sourceNamespace == ns
  }

  ghost predicate Inv(s: State, ns: string)
  {
    WellNamed(s.records) && forall name :: name in s.sweeps ==> SweepKept(s.records, ns, name, s.sweeps[name])
  }

  // ----- One step -----

  /** The records a step may change: those named for its gateway, or not the controller's. */
  ghost predicate Leaves(m: Records, m': Records, name: string)
  {
    forall n :: n in m && m[n].managedBy == OURS && m[n].sourceName != name ==> n in m' && m'[n] == m[n]
  }

  lemma PutLeaves(m: Records, g: Gateway, inp: Inputs, host: string, zone: string, now: int)
    requires Usable(inp, zone) && GoodHash(inp.hash, host) && WellNamed(m)
    ensures Leaves(m, Put(m, g, inp, host, zone, now), g.name) && WellNamed(Put(m, g, inp, host, zone, now))
    ensures forall n :: n in m && Foreign(m[n]) ==> n in Put(m, g, inp, host, zone, now) && Put(m, g, inp, host, zone, now)[n] == m[n]
  {
    var name := RecordName(inp, g.name, host);
    RecordNameIsNamedFor(inp, g.name, host);
    if name in m && m[name].managedBy == OURS { NamesTellGateways(name, g.name, m[name].sourceName); }
  }

  /** Nothing a gateway puts belongs to another one's sweep. */
  lemma PutKeepsSweeps(m: Records, ns: string, g: Gateway, inp: Inputs, host: string, zone: string, now: int, other: string, w: Sweep)
    requires Usable(inp, zone) && GoodHash(inp.hash, host) && WellNamed(m) && g.name != other && SweepKept(m, ns, other, w)
    ensures SweepKept(Put(m, g, inp, host, zone, now), ns, other, w)
  {
    PutLeaves(m, g, inp, host, zone, now);
  }

  lemma WroteKeepsInv(s: State, ns: string, e: Event)
    requires Inv(s, ns) && e.Wrote? && Legal(s, ns, e)
    ensures Inv(Step(s, e), ns)
  {
    if e.g.name !in s.sweeps && Usable(e.inp, e.zone) {
      assert GoodHash(e.inp.hash, e.host);
      PutLeaves(s.records, e.g, e.inp, e.host, e.zone, e.now);
      forall name | name in s.sweeps ensures SweepKept(Step(s, e).records, ns, name, s.sweeps[name]) {
        PutKeepsSweeps(s.records, ns, e.g, e.inp, e.host, e.zone, e.now, name, s.sweeps[name]);
      }
    }
  }

  lemma DeletedKeepsInv(s: State, ns: string, e: Event)
    requires Inv(s, ns) && e.Deleted? && Legal(s, ns, e)
    ensures Inv(Step(s, e), ns)
  {
    if e.g.name in s.sweeps && e.name in s.sweeps[e.g.name].remaining {
      var t := Step(s, e);
      assert SweepKept(s.records, ns, e.g.name, s.sweeps[e.g.name]);
      forall name | name in t.sweeps ensures SweepKept(t.records, ns, name, t.sweeps[name]) {
        assert SweepKept(s.records, ns, name, s.sweeps[name]);
      }
    }
  }

  lemma RestKeepsInv(s: State, ns: string, e: Event)
    requires Inv(s, ns) && !e.Wrote? && !e.Deleted? && Legal(s, ns, e)
    ensures Inv(Step(s, e), ns)
  {
    var t := Step(s, e);
    forall name | name in t.sweeps ensures SweepKept(t.records, ns, name, t.sweeps[name]) {
      if name in s.sweeps { assert SweepKept(s.records, ns, name, s.sweeps[name]); }
    }
  }

  lemma StepKeepsInv(s: State, ns: string, e: Event)
    requires Inv(s, ns) && Legal(s, ns, e)
    ensures Inv(Step(s, e), ns)
  {
    if e.Wrote? { WroteKeepsInv(s, ns, e); } else if e.Deleted? { DeletedKeepsInv(s, ns, e); } else { RestKeepsInv(s, ns, e); }
  }

  lemma {:induction false} RunKeepsInv(s: State, ns: string, es: seq<Event>)
    requires Inv(s, ns) && LegalRun(s, ns, es)
    ensures Inv(Run(s, es), ns)
  {
    if es != [] {
      RunKeepsInv(s, ns, es[..|es| - 1]);
      StepKeepsInv(Run(s, es[..|es| - 1]), ns, es[|es| - 1]);
    }
  }

  // ----- Results over every interleaving -----

  /** No step of a gateway changes a record of another gateway or a foreign one. */
  lemma StepTouchesOwnOnly(s: State, ns: string, e: Event)
    requires Inv(s, ns) && Legal(s, ns, e) && !e.Edited?
    ensures Leaves(s.records, Step(s, e).records, e.g.name)
    ensures forall n :: n in s.records && Foreign(s.records[n]) ==> n in Step(s, e).records && Step(s, e).records[n] == s.records[n]
  {
    match e {
      case Wrote(g, inp, host, zone, now) =>
        if g.name !in s.sweeps && Usable(inp, zone) {
          assert GoodHash(inp.hash, host);
          PutLeaves(s.records, g, inp, host, zone, now);
        }
      case Deleted(g, n) =>
        if g.name in s.sweeps { assert SweepKept(s.records, ns, g.name, s.sweeps[g.name]); }
      case _ =>
    }
  }

  /** Through any interleaving of other gateways' steps and foreign edits a gateway's record stays exactly as it is. */
  lemma {:induction false} RecordsLastUntilOwnStep(s: State, ns: string, es: seq<Event>, n: string)
    requires Inv(s, ns) && LegalRun(s, ns, es) && n in s.records && s.records[n].managedBy == OURS
    requires forall e :: e in es && !e.Edited? ==> e.g.name != s.records[n].sourceName
    ensures n in Run(s, es).records && Run(s, es).records[n] == s.records[n]
  {
    if es != [] {
      var init, e := es[..|es| - 1], es[|es| - 1];
      assert e in es && forall x :: x in init ==> x in es;
      RecordsLastUntilOwnStep(s, ns, init, n);
      RunKeepsInv(s, ns, init);
      if !e.Edited? { StepTouchesOwnOnly(Run(s, init), ns, e); }
    }
  }

  /** When a gateway has deleted all it listed, whatever others did meanwhile, its records are within the desired names. */
  lemma SweptRecordsAreDesired(s: State, ns: string, es: seq<Event>, g: Gateway)
    requires Inv(s, ns) && LegalRun(s, ns, es) && g.namespace == ns
    requires g.name in Run(s, es).sweeps && Run(s, es).sweeps[g.name].remaining == {}
    ensures Own(Run(s, es).records, g) <= Run(s, es).sweeps[g.name].desired
  {
    RunKeepsInv(s, ns, es);
    assert SweepKept(Run(s, es).records, ns, g.name, Run(s, es).sweeps[g.name]);
  }

  /** The uninterrupted pass is made of these steps: a hostname is programmed by one write. */
  lemma ProgramIsPut(inp: Inputs, g: Gateway, m: Records, host: string, zone: string, now: int)
    requires Usable(inp, zone) && Program(inp, g, m, host, zone, now).1 != Conflict
    ensures Program(inp, g, m, host, zone, now).0 == Put(m, g, inp, host, zone, now)
  {
  }

  function Deletes(g: Gateway, names: seq<string>): seq<Event> { seq(|names|, i requires 0 <= i < |names| => Deleted(g, names[i])) }

  /** `t` is `s` with these listed names deleted. */
  predicate Removed(s: State, t: State, g: Gateway, gone: set<string>)
    requires g.name in s.sweeps
  {
    t.records == s.records - gone && g.name in t.sweeps && t.sweeps[g.name].remaining == s.sweeps[g.name].remaining - gone
  }

  lemma DeleteOne(s: State, t: State, g: Gateway, gone: set<string>, n: string)
    requires g.name in s.sweeps && Removed(s, t, g, gone) && n !in gone && n in s.sweeps[g.name].remaining
    ensures Removed(s, Step(t, Deleted(g, n)), g, gone + {n})
  {
    assert s.records - gone - {n} == s.records - (gone + {n});
    assert s.sweeps[g.name].remaining - gone - {n} == s.sweeps[g.name].remaining - (gone + {n});
  }

  lemma RunSnoc(s: State, es: seq<Event>, e: Event)
    ensures Run(s, es + [e]) == Step(Run(s, es), e)
  {
    assert (es + [e])[..|es|] == es;
  }

  lemma {:induction false} DeletesRemove(s: State, g: Gateway, names: seq<string>)
    requires g.name in s.sweeps && NoDuplicates(names) && forall n :: n in names ==> n in s.sweeps[g.name].remaining
    ensures Removed(s, Run(s, Deletes(g, names)), g, set n | n in names)
  {
    if names == [] {
      assert (set n | n in names) == {} && s.records - {} == s.records;
    } else {
      var init, n := names[..|names| - 1], names[|names| - 1];
      assert names == init + [n];
      DeletesRemove(s, g, init);
      DeleteOne(s, Run(s, Deletes(g, init)), g, (set x | x in init), n);
      assert Deletes(g, names) == Deletes(g, init) + [Deleted(g, n)];
      RunSnoc(s, Deletes(g, init), Deleted(g, n));
      assert (set x | x in names) == (set x | x in init) + {n};
    }
  }

  /** So is its garbage collection: listing and then deleting what was listed, in any order, leaves what collecting leaves. */
  lemma SweepIsCollect(s: State, g: Gateway, desired: set<string>, names: seq<string>)
    requires g.name !in s.sweeps && NoDuplicates(names) && forall n :: n in names <==> n in s.records && OwnedBy(s.records[n], g) && n !in desired
    ensures var t := Run(Step(s, Listed(g, desired)), Deletes(g, names));
            t.records == Collect(g, s.records, desired) && g.name in t.sweeps && t.sweeps[g.name].remaining == {}
  {
    var listed := Step(s, Listed(g, desired));
    assert Own(s.records, g) - desired == set n | n in names;
    DeletesRemove(listed, g, names);
  }
}
