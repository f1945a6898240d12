/** The domain lookup cache: internal/registrydata/cache_memory.go under LookupDomain of client.go.

    The key is the apex. Concurrent lookups interleave as atomic cache accesses, so a run is a list of
    reads and completed fresh lookups in any order; `HitsAreExact` says what a read returns after any
    run, in terms of the run's history alone. Times are whole milliseconds.
 */
module RegistryCache {
  import opened Ordering
  import opened RegistryLookup

  /** `expiresAt` is `None` for an entry that never expires. */
  datatype Entry = Entry(value: DomainResult, expiresAt: Option<int>)

  type Entries = map<string, Entry>

  predicate Expired(e: Entry, now: int) { e.expiresAt.Some? && now > e.expiresAt.value }

  /** What a reader finds under the read lock. */
  function Read(es: Entries, key: string, now: int): Option<DomainResult>
  {
    if key in es && !Expired(es[key], now) then Some(es[key].value) else None
  }

  /** The re-check under the write lock: whatever is there by then is deleted if it has expired. */
  function Expunge(es: Entries, key: string, now: int): Entries
  {
    if key in es && Expired(es[key], now) then es - {key} else es
  }

  function Write(es: Entries, key: string, value: DomainResult, ttl: int, now: int): Entries
  {
    es[key := Entry(value, if ttl > 0 then Some(now + ttl) else None)]
  }

  class MemoryCache {
    var entries: Entries

    constructor ()
      ensures entries == map[]
    {
      entries := map[];
    }

    /** Reads the entry at `now`; if it has expired, takes the write lock and looks again at `again`. */
    method Get(key: string, now: int, again: int) returns (found: Option<DomainResult>)
      modifies this
      ensures found == Read(old(entries), key, now)
      ensures entries == if key in old(entries) && Expired(old(entries)[key], now) then Expunge(old(entries), key, again) else old(entries)
    {
      if key !in entries {
        return None;
      }
      var e := entries[key];
      if e.expiresAt.Some? && now > e.expiresAt.value {
        if key in entries {
          var e2 := entries[key];
          if e2.expiresAt.Some? && again > e2.expiresAt.value {
            entries := entries - {key};
          }
        }
        return None;
      }
      found := Some(e.value);
    }

    method Set(key: string, value: DomainResult, ttl: int, now: int)
      modifies this
      ensures entries == Write(old(entries), key, value, ttl, now)
    {
      var expiresAt := None;
      if ttl > 0 {
        expiresAt := Some(now + ttl);
      }
      entries := entries[key := Entry(value, expiresAt)];
    }
  }

  // ----- Runs of cache accesses -----

  /** A read for an apex, the re-check after finding it expired, or the end of a fresh lookup of `name`
      that produced `out`. Other callers may come between any two of them. */
  datatype Access =
    | Looked(apex: string, now: int)
    | Expunged(apex: string, now: int)
    | Fetched(apex: string, out: Outcome, now: int, name: string, upstream: Upstream)

  predicate Complete(a: Access) { a.Fetched? && !a.out.failed && a.out.result.Some? }

  function AccessStep(ttl: int, es: Entries, a: Access): Entries
  {
    if a.Expunged? then Expunge(es, a.apex, a.now)
    else if Complete(a) then Write(es, a.apex, a.out.result.value, ttl, a.now)
    else es
  }

  function Run(ttl: int, es: Entries, run: seq<Access>): Entries
  {
    if run == [] then es else AccessStep(ttl, Run(ttl, es, run[..|run| - 1]), run[|run| - 1])
  }

  /** Every fresh lookup of a run is what the model of the lookup says. */
  ghost predicate Faithful(n: Names, run: seq<Access>)
  {
    forall a :: a in run && a.Fetched? ==> a.out == Fresh(n, a.upstream, a.name, a.apex)
  }

  lemma RunAppends(ttl: int, es: Entries, run: seq<Access>, a: Access)
    ensures Run(ttl, es, run + [a]) == AccessStep(ttl, Run(ttl, es, run), a)
  {
    assert (run + [a])[..|run|] == run;
  }

  // ----- One lookup -----

  /** The clock readings of a lookup: of each read, of its re-check, and of the store. */
  datatype Clock = Clock(first: int, firstAgain: int, second: int, secondAgain: int, done: int)

  function AfterGet(es: Entries, key: string, now: int, again: int): Entries
  {
    if key in es && Expired(es[key], now) then Expunge(es, key, again) else es
  }

  function GetAccesses(es: Entries, key: string, now: int, again: int): seq<Access>
  {
    if key in es && Expired(es[key], now) then [Looked(key, now), Expunged(key, again)] else [Looked(key, now)]
  }

  lemma {:induction false} RunConcat(ttl: int, es: Entries, a: seq<Access>, b: seq<Access>)
    ensures Run(ttl, es, a + b) == Run(ttl, Run(ttl, es, a), b)
  {
    if b == [] {
      assert a + b == a;
    } else {
      assert (a + b)[..|a + b| - 1] == a + b[..|b| - 1];
      RunConcat(ttl, es, a, b[..|b| - 1]);
    }
  }

  lemma GetRuns(ttl: int, es: Entries, key: string, now: int, again: int)
    ensures Run(ttl, es, GetAccesses(es, key, now, again)) == AfterGet(es, key, now, again)
  {
    RunAppends(ttl, es, [], Looked(key, now));
    assert [] + [Looked(key, now)] == [Looked(key, now)];
    RunAppends(ttl, es, [Looked(key, now)], Expunged(key, again));
  }

  /** The read before the single flight and, unless it hits, the one inside: what is found, and the accesses made. */
  function ReadTwice(es: Entries, apex: string, t: Clock): (Option<DomainResult>, seq<Access>)
  {
    var hit, accesses := Read(es, apex, t.first), GetAccesses(es, apex, t.first, t.firstAgain);
    if hit.Some? then (hit, accesses)
    else
      var es1 := AfterGet(es, apex, t.first, t.firstAgain);
      (Read(es1, apex, t.second), accesses + GetAccesses(es1, apex, t.second, t.secondAgain))
  }

  lemma ReadsAreFaithful(n: Names, es: Entries, apex: string, t: Clock)
    ensures Faithful(n, ReadTwice(es, apex, t).1)
  {
  }

  method LookInCache(cache: MemoryCache, ttl: int, apex: string, t: Clock) returns (found: Option<DomainResult>)
    modifies cache
    ensures found == ReadTwice(old(cache.entries), apex, t).0
    ensures cache.entries == Run(ttl, old(cache.entries), ReadTwice(old(cache.entries), apex, t).1)
  {
    ghost var es := cache.entries;
    found := cache.Get(apex, t.first, t.firstAgain);
    GetRuns(ttl, es, apex, t.first, t.firstAgain);
    if found.Some? {
      return;
    }
    ghost var es1 := cache.entries;
    found := cache.Get(apex, t.second, t.secondAgain);
    GetRuns(ttl, es1, apex, t.second, t.secondAgain);
    RunConcat(ttl, es, GetAccesses(es, apex, t.first, t.firstAgain), GetAccesses(es1, apex, t.second, t.secondAgain));
  }

  method FetchAndStore(cache: MemoryCache, n: Names, ttl: int, name: string, apex: string, u: Upstream, done: int) returns (out: Outcome)
    modifies cache
    ensures out == Fresh(n, u, name, apex)
    ensures cache.entries == AccessStep(ttl, old(cache.entries), Fetched(apex, out, done, name, u))
  {
    out := LookupDomainFresh(n, u, name, apex);
    if !out.failed && out.result.Some? {
      cache.Set(apex, out.result.value, ttl, done);
    }
  }

  /** The outcome of a lookup and its run of cache accesses. */
  ghost function Lookup(n: Names, es: Entries, domain: string, force: bool, t: Clock, u: Upstream): (Outcome, seq<Access>)
  {
    var name := n.normalize(domain);
    match n.apex(name)
    case None => (Outcome(None, true), [])
    case Some(apex) =>
      var (hit, accesses) := if force then (None, []) else ReadTwice(es, apex, t);
      if hit.Some? then (Outcome(hit, false), accesses)
      else var out := Fresh(n, u, name, apex); (out, accesses + [Fetched(apex, out, t.done, name, u)])
  }

  /** `LookupDomain`: a hit, or a fresh lookup that is stored when complete; its accesses are a run. */
  method LookupDomain(cache: MemoryCache, n: Names, ttl: int, domain: string, force: bool, t: Clock, u: Upstream)
    returns (out: Outcome, ghost run: seq<Access>)
    modifies cache
    ensures (out, run) == Lookup(n, old(cache.entries), domain, force, t, u)
    ensures cache.entries == Run(ttl, old(cache.entries), run) && Faithful(n, run)
  {
    run := [];
    var name := n.normalize(domain);
    var suffix := n.apex(name);
    if suffix.None? {
      return Outcome(None, true), [];
    }
    var apex := suffix.value;
    if !force {
      var found := LookInCache(cache, ttl, apex, t);
      ReadsAreFaithful(n, old(cache.entries), apex, t);
      run := ReadTwice(old(cache.entries), apex, t).1;
      if found.Some? {
        return Outcome(found, false), run;
      }
    }
    out := FetchAndStore(cache, n, ttl, name, apex, u, t.done);
    RunAppends(ttl, old(cache.entries), run, Fetched(apex, out, t.done, name, u));
    run := run + [Fetched(apex, out, t.done, name, u)];
  }

  /** What one lookup returns: unless forced, what the first read finds, or else the second; and a fresh lookup of the
      name when neither finds anything, or none was made. */
  lemma LookupReturns(n: Names, es: Entries, domain: string, force: bool, t: Clock, u: Upstream)
    ensures var out := Lookup(n, es, domain, force, t, u).0;
            match n.apex(n.normalize(domain))
            case None => out == Outcome(None, true)
            case Some(apex) =>
              var first := Read(es, apex, t.first);
              var second := Read(AfterGet(es, apex, t.first, t.firstAgain), apex, t.second);
              if !force && first.Some? then out == Outcome(first, false)
              else if !force && second.Some? then out == Outcome(second, false)
              else out == Fresh(n, u, n.normalize(domain), apex)
  {
  }

  // ----- What a read returns -----

  /** The index of the last complete fresh lookup under an apex. */
  function LastFill(run: seq<Access>, apex: string): (k: Option<nat>)
    ensures k.Some? ==> k.value < |run| && Complete(run[k.value]) && run[k.value].apex == apex
    ensures k.Some? ==> forall j :: k.value < j < |run| && run[j].apex == apex ==> !Complete(run[j])
    ensures k.None? ==> forall j :: 0 <= j < |run| && run[j].apex == apex ==> !Complete(run[j])
  {
    if run == [] then None
    else if Complete(run[|run| - 1]) && run[|run| - 1].apex == apex then Some(|run| - 1)
    else LastFill(run[..|run| - 1], apex)
  }

  predicate Ordered(run: seq<Access>, now: int)
  {
    && (forall i :: 0 <= i < |run| ==> run[i].now <= now)
    && (forall i, j :: 0 <= i < j < |run| ==> run[i].now <= run[j].now)
  }

  /** The entry of an apex is that of its last complete fresh lookup, unless it has expired. */
  ghost predicate Holds(ttl: int, es: Entries, run: seq<Access>, apex: string, now: int)
  {
    var k := LastFill(run, apex);
    && (apex in es ==> k.Some? && es[apex] == Entry(run[k.value].out.result.value, Some(run[k.value].now + ttl)))
    && (apex !in es && k.Some? ==> now > run[k.value].now + ttl)
  }

  lemma {:induction false} RunHolds(ttl: int, run: seq<Access>, apex: string, now: int)
    requires ttl > 0 && Ordered(run, now)
    ensures Holds(ttl, Run(ttl, map[], run), run, apex, now)
  {
    if run != [] {
      RunHolds(ttl, run[..|run| - 1], apex, run[|run| - 1].now);
    }
  }

  /** After any interleaving, a read hits exactly when the last complete fresh lookup of the apex is at
      most the lifetime old, and it returns that lookup's result. Failed and partial lookups leave no trace. */
  lemma HitsAreExact(ttl: int, run: seq<Access>, apex: string, now: int)
    requires ttl > 0 && Ordered(run, now)
    ensures var k := LastFill(run, apex);
            Read(Run(ttl, map[], run), apex, now) ==
            if k.Some? && now <= run[k.value].now + ttl then run[k.value].out.result else None
  {
    RunHolds(ttl, run, apex, now);
  }

  /** Without a lifetime nothing expires: a read returns the last complete lookup of the apex, however old. */
  lemma {:induction false} HitsForEver(ttl: int, run: seq<Access>, apex: string, now: int)
    requires ttl <= 0
    ensures var k := LastFill(run, apex); var es := Run(ttl, map[], run);
            && Read(es, apex, now) == (if k.Some? then run[k.value].out.result else None)
            && (apex in es ==> es[apex].expiresAt.None?)
  {
    if run != [] { HitsForEver(ttl, run[..|run| - 1], apex, now); }
  }

  /** What a hit on the result of looking up `filler` says to somebody asking for `name`. */
  ghost predicate Serves(n: Names, u: Upstream, hit: DomainResult, filler: string, name: string, apex: string)
  {
    var asked := Fresh(n, u, name, apex);
    var reg := Registration(n, u, apex);
    && reg.Some? && asked.result.Some?
    && hit.registration == asked.result.value.registration && hit.source == asked.result.value.source && hit.provider == asked.result.value.provider
    && (ClosestZone(u, filler, apex) == ClosestZone(u, name, apex) ==> hit == asked.result.value)
    && (!asked.failed ==>
          (hit == asked.result.value) ==
          (NormalizedNames(n, NsHosts(u, reg.value, filler, apex)) == NormalizedNames(n, NsHosts(u, reg.value, name, apex))))
  }

  lemma CompleteServes(n: Names, u: Upstream, filler: string, name: string, apex: string)
    requires !Fresh(n, u, filler, apex).failed && Fresh(n, u, filler, apex).result.Some?
    ensures Serves(n, u, Fresh(n, u, filler, apex).result.value, filler, name, apex)
  {
    RegistrationIgnoresName(n, u, filler, name, apex);
    AgreeByClosestZone(n, u, filler, name, apex);
    if !Fresh(n, u, name, apex).failed {
      AgreeExactlyWhenHostsDo(n, u, filler, name, apex);
    }
  }

  /** While upstream does not change, a hit has the registration, source and provider a fresh lookup of
      the asked name would have; it is that lookup's result altogether when the filling name and the
      asked name have the same closest delegated zone, and, for a complete lookup, exactly when they
      select the same nameserver hosts. */
  lemma HitsAgreeWithFresh(n: Names, ttl: int, run: seq<Access>, u: Upstream, name: string, apex: string, now: int)
    requires ttl > 0 && Ordered(run, now) && Faithful(n, run) && forall a :: a in run && a.Fetched? ==> a.upstream == u
    ensures var hit := Read(Run(ttl, map[], run), apex, now);
            hit.Some? ==> LastFill(run, apex).Some? && Serves(n, u, hit.value, run[LastFill(run, apex).value].name, name, apex)
  {
    HitsAreExact(ttl, run, apex, now);
    var k := LastFill(run, apex);
    if k.Some? {
      var a := run[k.value];
      assert a in run && a.out == Fresh(n, u, a.name, apex);
      CompleteServes(n, u, a.name, name, apex);
    }
  }

  // ----- The apex key does not carry the nameservers -----

  const NAMES := Names(s => s, s => Some("x.org"))

  const DELEGATING := Upstream(
    a => RdapDomain("reg", "rdap.org", ["ns.x.org"]),
    a => WhoisFailed,
    z => if z == "sub.x.org" then ["ns.sub.x.org"] else [],
    h => Some([]),
    i => IpRegistrant(""))

  lemma OneServer(n: Names, u: Upstream, host: string, ns: Nameserver)
    requires Describe(u, n.normalize(host)) == (ns, None)
    ensures Nameservers(n, u, [host]) == ([ns], None)
  {
    var hosts := [host];
    assert hosts[..0] == [];
    assert Nameservers(n, u, hosts[..0]) == ([], None);
    assert [] + [ns] == [ns];
  }

  lemma OneName(host: string)
    requires host != ""
    ensures NonEmpty([host]) == [host] && NormalizedNames(NAMES, [host]) == [host]
  {
    assert [host][..0] == [] && NonEmpty([]) == [];
  }

  lemma ApexRegistration()
    ensures Registration(NAMES, DELEGATING, "x.org") == Some(Registered("reg", Rdap, "rdap.org", ["ns.x.org"]))
  {
    OneName("ns.x.org");
  }

  lemma ApexServers()
    ensures Fresh(NAMES, DELEGATING, "x.org", "x.org") == Outcome(Some(DomainResult("reg", [Nameserver("ns.x.org", [])], Rdap, "rdap.org", 0)), false)
  {
    ApexRegistration();
    OneServer(NAMES, DELEGATING, "ns.x.org", Nameserver("ns.x.org", []));
  }

  lemma SubIsDelegated()
    ensures Delegation(DELEGATING, "sub.x.org", "x.org") == (true, ["ns.sub.x.org"])
  {
    OneName("ns.sub.x.org");
    assert DELEGATING.zone("sub.x.org") == ["ns.sub.x.org"];
  }

  lemma DelegatedServers()
    ensures Fresh(NAMES, DELEGATING, "sub.x.org", "x.org") == Outcome(Some(DomainResult("reg", [Nameserver("ns.sub.x.org", [])], Rdap, "rdap.org", 0)), false)
  {
    ApexRegistration();
    SubIsDelegated();
    OneServer(NAMES, DELEGATING, "ns.sub.x.org", Nameserver("ns.sub.x.org", []));
  }

  /** A lookup of the apex followed by one of a delegated subdomain: the hit names the apex's servers. */
  lemma HitMayMissDelegation(ttl: int)
    requires ttl > 0
    ensures var run := [Fetched("x.org", Fresh(NAMES, DELEGATING, "x.org", "x.org"), 0, "x.org", DELEGATING)];
            var hit, asked := Read(Run(ttl, map[], run), "x.org", 1), Fresh(NAMES, DELEGATING, "sub.x.org", "x.org");
            && hit.Some? && !asked.failed && asked.result.Some?
            && hit.value.nameservers == [Nameserver("ns.x.org", [])]
            && asked.result.value.nameservers == [Nameserver("ns.sub.x.org", [])]
  {
    ApexServers();
    DelegatedServers();
    HitsAreExact(ttl, [Fetched("x.org", Fresh(NAMES, DELEGATING, "x.org", "x.org"), 0, "x.org", DELEGATING)], "x.org", 1);
  }
}
