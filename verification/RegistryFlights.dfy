/** Callers that share one lookup: the single flight of LookupDomain in internal/registrydata/client.go.

    A caller reads the cache, unless it forces a refresh, and then enters the flight of its apex: it
    leads a new one or joins the one under way. The leader reads the cache once more, unless it forces a
    refresh itself, and otherwise looks its own name up; all who joined get its answer. Every one of
    these is one step, and callers of any names interleave. Names are taken as normalized.
 */
module RegistryFlights {
  import opened Ordering
  import opened RegistryLookup
  import opened RegistryCache

  datatype Caller = Caller(name: string, apex: string, force: bool)

  /** `looked`: the leader has passed its own read of the cache. */
  datatype Flight = Flight(leader: string, looked: bool)

  datatype Answer = Answer(out: Outcome, fetched: bool)

  datatype State = State(entries: Entries, asked: map<nat, Caller>, joined: set<nat>, flights: map<string, Flight>, answers: map<nat, Answer>)

  datatype Event =
    | Ask(id: nat, name: string, force: bool, now: int)
    | Enter(id: nat)
    | Second(apex: string, now: int)
    | Recheck(apex: string, now: int)                   // an expired entry is dropped
    | Done(apex: string, now: int, upstream: Upstream)

  const NOBODY := State(map[], map[], {}, map[], map[])

  function Hit(value: Option<DomainResult>): Outcome { Outcome(value, false) }

  /** The flight of the apex lands: everybody in it gets the answer. */
  function Land(s: State, apex: string, answer: Answer): State
  {
    var members := set id | id in s.joined && id in s.asked && s.asked[id].apex == apex;
    s.(joined := s.joined - members, flights := s.flights - {apex}, answers := s.answers + map id | id in members :: answer)
  }

  function Stored(ttl: int, es: Entries, apex: string, out: Outcome, now: int): Entries
  {
    if !out.failed && out.result.Some? then Write(es, apex, out.result.value, ttl, now) else es
  }

  ghost function Step(n: Names, ttl: int, s: State, e: Event): State
  {
    match e
    case Ask(id, name, force, now) =>
      if id in s.asked || n.apex(name).None? then s
      else
        var apex := n.apex(name).value;
        var hit := Read(s.entries, apex, now);
        var t := s.(asked := s.asked[id := Caller(name, apex, force)]);
        if !force && hit.Some? then t.(answers := t.answers[id := Answer(Hit(hit), false)]) else t
    case Enter(id) =>
      if id !in s.asked || id in s.answers || id in s.joined then s
      else
        var c := s.asked[id];
        s.(joined := s.joined + {id}, flights := if c.apex in s.flights then s.flights else s.flights[c.apex := Flight(c.name, c.force)])
    case Second(apex, now) =>
      if apex !in s.flights || s.flights[apex].looked then s
      else
        var hit := Read(s.entries, apex, now);
        if hit.Some? then Land(s, apex, Answer(Hit(hit), false)) else s.(flights := s.flights[apex := s.flights[apex].(looked := true)])
    case Recheck(apex, now) => s.(entries := Expunge(s.entries, apex, now))
    case Done(apex, now, u) =>
      if apex !in s.flights || !s.flights[apex].looked then s
      else
        var out := Fresh(n, u, s.flights[apex].leader, apex);
        Land(s.(entries := Stored(ttl, s.entries, apex, out, now)), apex, Answer(out, true))
  }

  ghost function Run(n: Names, ttl: int, s: State, es: seq<Event>): State
  {
    if es == [] then s else Step(n, ttl, Run(n, ttl, s, es[..|es| - 1]), es[|es| - 1])
  }

  // ----- What a shared answer is worth -----

  /** A fresh lookup of some name under the apex. */
  ghost predicate Known(n: Names, u: Upstream, apex: string, out: Outcome)
  {
    exists f :: n.apex(f) == Some(apex) && out == Fresh(n, u, f, apex)
  }

  type Knowledge = (string, Outcome) -> bool

  ghost function LookupsOf(n: Names, u: Upstream): Knowledge { (apex, out) => Known(n, u, apex, out) }

  /** Only known outcomes are cached or answered, each under its own apex. */
  ghost predicate Inv(n: Names, known: Knowledge, s: State)
  {
    && (forall a :: a in s.entries ==> known(a, Hit(Some(s.entries[a].value))))
    && (forall a :: a in s.flights ==> n.apex(s.flights[a].leader) == Some(a))
    && (forall id :: id in s.asked ==> n.apex(s.asked[id].name) == Some(s.asked[id].apex))
    && (forall id :: id in s.answers ==> id in s.asked && known(s.asked[id].apex, s.answers[id].out))
  }

  lemma LandKeeps(n: Names, known: Knowledge, s: State, apex: string, answer: Answer)
    requires Inv(n, known, s) && known(apex, answer.out)
    ensures Inv(n, known, Land(s, apex, answer))
  {
  }

  lemma AskKeeps(n: Names, ttl: int, known: Knowledge, s: State, e: Event)
    requires Inv(n, known, s) && e.Ask?
    ensures Inv(n, known, Step(n, ttl, s, e))
  {
  }

  lemma LandingKeeps(n: Names, ttl: int, known: Knowledge, s: State, e: Event)
    requires Inv(n, known, s) && (e.Second? || e.Done?)
    requires e.Done? && e.apex in s.flights ==> known(e.apex, Fresh(n, e.upstream, s.flights[e.apex].leader, e.apex))
    ensures Inv(n, known, Step(n, ttl, s, e))
  {
    if e.apex in s.flights {
      if e.Done? {
        var out := Fresh(n, e.upstream, s.flights[e.apex].leader, e.apex);
        assert !out.failed && out.result.Some? ==> Hit(out.result) == out;
        LandKeeps(n, known, s.(entries := Stored(ttl, s.entries, e.apex, out, e.now)), e.apex, Answer(out, true));
      } else if Read(s.entries, e.apex, e.now).Some? {
        LandKeeps(n, known, s, e.apex, Answer(Hit(Read(s.entries, e.apex, e.now)), false));
      }
    }
  }

  lemma StepKeeps(n: Names, ttl: int, known: Knowledge, s: State, e: Event)
    requires Inv(n, known, s)
    requires e.Done? && e.apex in s.flights ==> known(e.apex, Fresh(n, e.upstream, s.flights[e.apex].leader, e.apex))
    ensures Inv(n, known, Step(n, ttl, s, e))
  {
    if e.Ask? {
      AskKeeps(n, ttl, known, s, e);
    } else if e.Second? || e.Done? {
      LandingKeeps(n, ttl, known, s, e);
    }
  }

  lemma {:induction false} RunKeeps(n: Names, ttl: int, u: Upstream, es: seq<Event>)
    requires forall e :: e in es && e.Done? ==> e.upstream == u
    ensures Inv(n, LookupsOf(n, u), Run(n, ttl, NOBODY, es))
  {
    if es != [] {
      RunKeeps(n, ttl, u, es[..|es| - 1]);
      StepKeeps(n, ttl, LookupsOf(n, u), Run(n, ttl, NOBODY, es[..|es| - 1]), es[|es| - 1]);
    }
  }

  /** What a lookup of `f` says to somebody asking for `name`. */
  ghost predicate Agrees(n: Names, u: Upstream, f: string, name: string, apex: string)
  {
    var x, y := Fresh(n, u, f, apex), Fresh(n, u, name, apex);
    && (x.result.Some? <==> y.result.Some?)
    && (x.result.Some? ==>
          x.result.value.registration == y.result.value.registration && x.result.value.source == y.result.value.source && x.result.value.provider == y.result.value.provider)
    && (ClosestZone(u, f, apex) == ClosestZone(u, name, apex) ==> x == y)
    && (Registration(n, u, apex).Some? && !x.failed && !y.failed ==>
          var reg := Registration(n, u, apex).value;
          (x == y <==> NormalizedNames(n, NsHosts(u, reg, f, apex)) == NormalizedNames(n, NsHosts(u, reg, name, apex))))
  }

  lemma SameApexAgrees(n: Names, u: Upstream, f: string, name: string, apex: string)
    ensures Agrees(n, u, f, name, apex)
  {
    if Fresh(n, u, f, apex).result.Some? { RegistrationIgnoresName(n, u, f, name, apex); }
    if Fresh(n, u, name, apex).result.Some? { RegistrationIgnoresName(n, u, name, f, apex); }
    AgreeByClosestZone(n, u, f, name, apex);
    if Registration(n, u, apex).Some? && !Fresh(n, u, f, apex).failed && !Fresh(n, u, name, apex).failed { AgreeExactlyWhenHostsDo(n, u, f, name, apex); }
  }

  /** While upstream does not change, every answer, from the cache, from the caller's own flight or from
      one it joined, forced or not, is the fresh lookup of some name under the caller's apex: it succeeds
      or fails to find a registration as the caller's own would, with the same registration, source and
      provider; it is the caller's own when the closest delegated zones are the same, and, when both are
      complete, exactly when both names select the same nameserver hosts. */
  lemma AnswersAgreeWithFresh(n: Names, ttl: int, u: Upstream, es: seq<Event>, id: nat)
    requires (forall e :: e in es && e.Done? ==> e.upstream == u) && id in Run(n, ttl, NOBODY, es).answers
    ensures var s := Run(n, ttl, NOBODY, es);
            && id in s.asked
            && exists f :: n.apex(f) == Some(s.asked[id].apex) && s.answers[id].out == Fresh(n, u, f, s.asked[id].apex)
                        && Agrees(n, u, f, s.asked[id].name, s.asked[id].apex)
  {
    RunKeeps(n, ttl, u, es);
    var s := Run(n, ttl, NOBODY, es);
    var c := s.asked[id];
    assert Known(n, u, c.apex, s.answers[id].out);
    var f :| n.apex(f) == Some(c.apex) && s.answers[id].out == Fresh(n, u, f, c.apex);
    SameApexAgrees(n, u, f, c.name, c.apex);
  }

  // ----- A forced refresh that joins -----

  predicate NotBefore(e: Event, now: int) { e.Enter? || e.now >= now }

  ghost predicate NeverFromCache(n: Names, ttl: int, s: State, id: nat, now: int)
  {
    forall es | forall e :: e in es ==> NotBefore(e, now) :: FetchedIfAnswered(Run(n, ttl, s, es), id)
  }

  predicate FetchedIfAnswered(s: State, id: nat) { id in s.answers ==> s.answers[id].fetched }

  /** The caller is in a flight that will not be answered from the cache. */
  ghost predicate Boarded(s: State, id: nat, c: Caller, now: int)
  {
    && id in s.asked && s.asked[id] == c && FetchedIfAnswered(s, id)
    && (id in s.answers ==> id !in s.joined)
    && (id !in s.answers ==>
          id in s.joined && c.apex in s.flights && (s.flights[c.apex].looked || Read(s.entries, c.apex, now).None?))
  }

  lemma StepKeepsBoarded(n: Names, ttl: int, s: State, e: Event, id: nat, c: Caller, now: int)
    requires Boarded(s, id, c, now) && NotBefore(e, now)
    ensures Boarded(Step(n, ttl, s, e), id, c, now)
  {
  }

  lemma {:induction false} RunKeepsBoarded(n: Names, ttl: int, s: State, es: seq<Event>, id: nat, c: Caller, now: int)
    requires Boarded(s, id, c, now) && forall e :: e in es ==> NotBefore(e, now)
    ensures Boarded(Run(n, ttl, s, es), id, c, now)
  {
    if es != [] {
      RunKeepsBoarded(n, ttl, s, es[..|es| - 1], id, c, now);
      StepKeepsBoarded(n, ttl, Run(n, ttl, s, es[..|es| - 1]), es[|es| - 1], id, c, now);
    }
  }

  /** A forced refresh is answered by a lookup, in every continuation, if and only if it does not join a
      flight whose leader has yet to read the cache and can find something there. */
  lemma ForcedIsFetchedExactlyWhen(n: Names, ttl: int, s: State, id: nat, now: int)
    requires id in s.asked && s.asked[id].force && id !in s.answers && id !in s.joined
    ensures var apex := s.asked[id].apex;
            NeverFromCache(n, ttl, Step(n, ttl, s, Enter(id)), id, now) <==>
            !(apex in s.flights && !s.flights[apex].looked && Read(s.entries, apex, now).Some?)
  {
    var c := s.asked[id];
    var t := Step(n, ttl, s, Enter(id));
    if c.apex in s.flights && !s.flights[c.apex].looked && Read(s.entries, c.apex, now).Some? {
      var es := [Second(c.apex, now)];
      assert es[..0] == [] && Run(n, ttl, t, es) == Step(n, ttl, t, es[0]);
      assert !FetchedIfAnswered(Run(n, ttl, t, es), id);
    } else {
      forall es | forall e :: e in es ==> NotBefore(e, now) ensures FetchedIfAnswered(Run(n, ttl, t, es), id) {
        RunKeepsBoarded(n, ttl, t, es, id, c, now);
      }
    }
  }

  // ----- Such a flight can come about -----

  lemma {:induction false} RunConcat(n: Names, ttl: int, s: State, a: seq<Event>, b: seq<Event>)
    ensures Run(n, ttl, s, a + b) == Run(n, ttl, Run(n, ttl, s, a), b)
  {
    if b == [] {
      assert a + b == a;
    } else {
      assert (a + b)[..|a + b| - 1] == a + b[..|b| - 1];
      RunConcat(n, ttl, s, a, b[..|b| - 1]);
    }
  }

  lemma RunOne(n: Names, ttl: int, s: State, e: Event)
    ensures Run(n, ttl, s, [e]) == Step(n, ttl, s, e)
  {
    assert [e][..0] == [];
  }

  /** Two callers miss, and the second leads a flight. */
  function Missing(name: string, apex: string): seq<Event>
  {
    [Ask(1, name, false, 0)] + [Ask(2, name, false, 0)] + [Enter(2)] + [Second(apex, 0)]
  }

  function Leading(c: Caller): State { State(map[], map[1 := c, 2 := c], {2}, map[c.apex := Flight(c.name, true)], map[]) }

  lemma MissingRuns(n: Names, ttl: int, name: string, apex: string)
    requires n.apex(name) == Some(apex)
    ensures Run(n, ttl, NOBODY, Missing(name, apex)) == Leading(Caller(name, apex, false))
  {
    var c := Caller(name, apex, false);
    var a, b, d, e := Ask(1, name, false, 0), Ask(2, name, false, 0), Enter(2), Second(apex, 0);
    RunOne(n, ttl, NOBODY, a);
    RunConcat(n, ttl, NOBODY, [a], [b]);
    RunOne(n, ttl, Run(n, ttl, NOBODY, [a]), b);
    assert Run(n, ttl, NOBODY, [a] + [b]) == State(map[], map[1 := c, 2 := c], {}, map[], map[]);
    RunConcat(n, ttl, NOBODY, [a] + [b], [d]);
    RunOne(n, ttl, Run(n, ttl, NOBODY, [a] + [b]), d);
    assert Run(n, ttl, NOBODY, [a] + [b] + [d]) == State(map[], map[1 := c, 2 := c], {2}, map[apex := Flight(name, false)], map[]);
    RunConcat(n, ttl, NOBODY, [a] + [b] + [d], [e]);
    RunOne(n, ttl, Run(n, ttl, NOBODY, [a] + [b] + [d]), e);
  }

  lemma LandsForOne(n: Names, ttl: int, u: Upstream, c: Caller)
    ensures var out := Fresh(n, u, c.name, c.apex);
            Step(n, ttl, Leading(c), Done(c.apex, 0, u)) ==
              State(Stored(ttl, map[], c.apex, out, 0), map[1 := c, 2 := c], {}, map[], map[2 := Answer(out, true)])
  {
    var s, out := Leading(c), Fresh(n, u, c.name, c.apex);
    assert (set id | id in s.joined && id in s.asked && s.asked[id].apex == c.apex) == {2};
    assert s.flights - {c.apex} == map[];
  }

  /** The first caller leads the next flight, a forced refresh joins it, and the leader's read hits. */
  function Joining(name: string, apex: string): seq<Event> { [Enter(1)] + [Ask(3, name, true, 0)] + [Enter(3)] + [Second(apex, 0)] }

  /** A forced refresh answered from the cache, for every name whose lookup is complete. */
  lemma ForcedMayBeServedFromCache(n: Names, ttl: int, u: Upstream, name: string, apex: string)
    requires n.apex(name) == Some(apex) && !Fresh(n, u, name, apex).failed && Fresh(n, u, name, apex).result.Some?
    ensures var s := Run(n, ttl, NOBODY, Missing(name, apex) + [Done(apex, 0, u)] + Joining(name, apex));
            3 in s.asked && s.asked[3] == Caller(name, apex, true) && 3 in s.answers && !s.answers[3].fetched
  {
    var c := Caller(name, apex, false);
    MissingRuns(n, ttl, name, apex);
    RunConcat(n, ttl, NOBODY, Missing(name, apex), [Done(apex, 0, u)]);
    RunOne(n, ttl, Leading(c), Done(apex, 0, u));
    LandsForOne(n, ttl, u, c);
    RunConcat(n, ttl, NOBODY, Missing(name, apex) + [Done(apex, 0, u)], Joining(name, apex));
    JoiningRuns(n, ttl, Step(n, ttl, Leading(c), Done(apex, 0, u)), name, apex);
  }

  lemma JoiningRuns(n: Names, ttl: int, s: State, name: string, apex: string)
    requires n.apex(name) == Some(apex) && Read(s.entries, apex, 0).Some? && s.flights == map[] && s.joined == {}
    requires 1 in s.asked && s.asked[1] == Caller(name, apex, false) && 1 !in s.answers && 3 !in s.asked && 3 !in s.answers
    ensures var t := Run(n, ttl, s, Joining(name, apex));
            3 in t.asked && t.asked[3] == Caller(name, apex, true) && 3 in t.answers && !t.answers[3].fetched
  {
    var a, b, c, d := Enter(1), Ask(3, name, true, 0), Enter(3), Second(apex, 0);
    RunOne(n, ttl, s, a);
    RunConcat(n, ttl, s, [a], [b]);
    RunOne(n, ttl, Run(n, ttl, s, [a]), b);
    RunConcat(n, ttl, s, [a] + [b], [c]);
    RunOne(n, ttl, Run(n, ttl, s, [a] + [b]), c);
    RunConcat(n, ttl, s, [a] + [b] + [c], [d]);
    RunOne(n, ttl, Run(n, ttl, s, [a] + [b] + [c]), d);
  }
}
