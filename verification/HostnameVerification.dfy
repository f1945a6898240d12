/** Which hostnames a gateway may serve: `ensureHostnameVerification` of
    internal/controller/gateway_controller.go, as a method over sets proved against `IsVerified`.
 */
module HostnameVerification {
  import opened Ordering
  import opened DnsNames

  datatype Domain = Domain(name: string, verified: bool)

  /** The hostnames (if any) of the downstream gateway's listeners. */
  datatype Downstream = Downstream(deleting: bool, listeners: seq<Option<string>>)

  datatype Upstream = Upstream(listeners: seq<Option<string>>, addresses: seq<string>, canonical: string)

  datatype Config = Config(targetDomain: string, disableVerification: bool)

  predicate HasSuffix(s: string, suffix: string)
  {
    |suffix| <= |s| && s[|s| - |suffix|..] == suffix
  }

  /** The code's test for a Domain to be the hostname itself or one of its parents. */
  predicate Covers(d: Domain, host: string)
  {
    host == d.name || HasSuffix(host, "." + d.name)
  }

  /** It goes by whole labels. */
  lemma CoversIsByLabels(d: Domain, host: string)
    ensures Covers(d, host) <==> Encloses(d.name, host)
  {
    if HasSuffix(host, "." + d.name) {
      var tail := host[|host| - |d.name| - 1..];
      assert tail == "." + d.name && tail[0] == '.' && tail[1..] == d.name;
    }
    if Within(host, d.name) && host != d.name { assert host[|host| - |d.name| - 1..] == "." + d.name; }
    WithinIsByLabels(host, d.name);
  }

  function Hosts(listeners: seq<Option<string>>): set<string>
  {
    set i | 0 <= i < |listeners| && listeners[i].Some? :: listeners[i].value
  }

  /** Hostnames exempt from verification: the canonical one and those already in the status. */
  function AddressHosts(u: Upstream): set<string>
  {
    {u.canonical} + set a | a in u.addresses
  }

  /** Grace: still declared upstream and already served by a downstream gateway not being deleted. */
  predicate Graced(c: Config, d: Downstream, host: string)
  {
    !d.deleting && Some(host) in d.listeners && !HasSuffix(host, c.targetDomain)
  }

  /** The last labels of the hostname name a verified Domain. */
  predicate HasVerifiedDomain(domains: seq<Domain>, host: string)
  {
    exists i :: 0 <= i < |domains| && domains[i].verified && Encloses(domains[i].name, host)
  }

  predicate IsVerified(c: Config, u: Upstream, d: Downstream, domains: seq<Domain>, host: string)
  {
    || host == u.canonical || host in u.addresses
    || (Some(host) in u.listeners && (Graced(c, d, host) || HasVerifiedDomain(domains, host)))
  }

  /** What `ensureHostnameVerification` lists, with verification switched on or off. */
  predicate VerifiedNow(c: Config, u: Upstream, d: Downstream, domains: seq<Domain>, h: string)
  {
    if c.disableVerification then Some(h) in u.listeners else IsVerified(c, u, d, domains, h)
  }

  /** Drains a set in any order and sorts the result, as `UnsortedList` followed by `slices.Sort`. */
  method SortedList(s: set<string>) returns (r: seq<string>)
    ensures Sorted(StringLess, r) && NoDuplicates(r)
    ensures forall x :: x in r <==> x in s
  {
    var rest := s;
    var list: seq<string> := [];
    while rest != {}
      invariant NoDuplicates(list) && rest <= s
      invariant forall x :: x in list <==> x in s && x !in rest
      decreases |rest|
    {
      var x :| x in rest;
      rest := rest - {x};
      list := list + [x];
    }
    StringsAreStrict(list);
    SortSorted(StringLess, list);
    r := Sort(StringLess, list);
    PermutationHasNoDuplicates(list, r);
  }

  method CollectHosts(listeners: seq<Option<string>>) returns (hosts: set<string>)
    ensures hosts == Hosts(listeners)
  {
    hosts := {};
    for i := 0 to |listeners|
      invariant forall h :: h in hosts <==> exists j :: 0 <= j < i && listeners[j] == Some(h)
    {
      if listeners[i].Some? {
        hosts := hosts + {listeners[i].value};
      }
    }
  }

  method Matches(d: Domain, host: string) returns (m: bool)
    ensures m <==> Encloses(d.name, host)
  {
    CoversIsByLabels(d, host);
    m := Covers(d, host);
  }

  method AnyVerifiedDomain(domains: seq<Domain>, host: string) returns (found: bool)
    ensures found <==> HasVerifiedDomain(domains, host)
  {
    for i := 0 to |domains|
      invariant forall j :: 0 <= j < i ==> !(domains[j].verified && Encloses(domains[j].name, host))
    {
      var m := Matches(domains[i], host);
      if m && domains[i].verified {
        return true;
      }
    }
    found := false;
  }

  // ----- Domains that are missing -----

  /** No Domain, verified or not, covers the hostname. */
  predicate Unmatched(domains: seq<Domain>, host: string)
  {
    forall i :: 0 <= i < |domains| ==> !Encloses(domains[i].name, host)
  }

  /** The Domain to create for a hostname, if it has two labels at all. */
  function DomainFor(host: string): Option<string>
  {
    var parts := Split(host);
    if |parts| < 2 then None else Some(Join(parts[|parts| - 2..]))
  }

  lemma DomainForIs(host: string, name: string)
    ensures DomainFor(host) == Some(name) <==> Encloses(name, host) && |Split(name)| == 2
  {
    if |Split(host)| >= 2 { LastLabels(host, name, 2); }
  }

  /** No Domain encloses the hostname, and these are its last two labels. */
  predicate Lacks(domains: seq<Domain>, host: string, name: string)
  {
    Unmatched(domains, host) && Encloses(name, host) && |Split(name)| == 2
  }

  /** A declared hostname that nothing exempts lacks the Domain. */
  predicate Missing(u: Upstream, domains: seq<Domain>, host: string, name: string)
  {
    Some(host) in u.listeners && host != u.canonical && host !in u.addresses && Lacks(domains, host, name)
  }

  method AnyDomain(domains: seq<Domain>, host: string) returns (found: bool)
    ensures found <==> !Unmatched(domains, host)
  {
    for i := 0 to |domains|
      invariant forall j :: 0 <= j < i ==> !Encloses(domains[j].name, host)
    {
      var m := Matches(domains[i], host);
      if m {
        return true;
      }
    }
    found := false;
  }

  /** One hostname: whether a verified Domain encloses it, and the Domain to create, if any. */
  method CheckDomain(domains: seq<Domain>, host: string) returns (verified: bool, create: set<string>)
    ensures verified <==> HasVerifiedDomain(domains, host)
    ensures forall n :: n in create <==> Lacks(domains, host, n)
  {
    verified := AnyVerifiedDomain(domains, host);
    var matched := AnyDomain(domains, host);
    create := if matched || DomainFor(host).None? then {} else {DomainFor(host).value};
    forall n ensures n in create <==> Lacks(domains, host, n) { DomainForIs(host, n); }
  }

  ghost predicate Collected(test: string -> bool, names: (string, string) -> bool, hosts: set<string>, ok: set<string>, create: set<string>)
  {
    && (forall h :: h in ok <==> h in hosts && test(h))
    && (forall n :: n in create <==> exists h :: h in hosts && names(h, n))
  }

  lemma CollectsMore(
    test: string -> bool, names: (string, string) -> bool, hosts: set<string>, ok: set<string>, create: set<string>,
    h: string, verified: bool, more: set<string>)
    requires Collected(test, names, hosts, ok, create) && (verified <==> test(h)) && forall n :: n in more <==> names(h, n)
    ensures Collected(test, names, hosts + {h}, if verified then ok + {h} else ok, create + more)
  {
  }

  /** The loop over the hostnames: which have a verified Domain, and which Domains to create. */
  method CheckDomains(domains: seq<Domain>, hosts: set<string>) returns (ok: set<string>, create: set<string>)
    ensures Collected(h => HasVerifiedDomain(domains, h), (h, n) => Lacks(domains, h, n), hosts, ok, create)
  {
    ok, create := {}, {};
    var rest := hosts;
    ghost var test, names := (h: string) => HasVerifiedDomain(domains, h), (h: string, n: string) => Lacks(domains, h, n);
    while rest != {}
      invariant rest <= hosts
      invariant Collected(test, names, hosts - rest, ok, create)
      decreases |rest|
    {
      var h :| h in rest;
      ghost var done := hosts - rest;
      rest := rest - {h};
      var verified, more := CheckDomain(domains, h);
      CollectsMore(test, names, done, ok, create, h, verified, more);
      if verified {
        ok := ok + {h};
      }
      create := create + more;
      assert hosts - rest == done + {h};
    }
    assert hosts - rest == hosts;
  }

  lemma DeclaredAre(u: Upstream, h: string)
    ensures h in Hosts(u.listeners) <==> Some(h) in u.listeners
  {
    if Some(h) in u.listeners {
      var i :| 0 <= i < |u.listeners| && u.listeners[i] == Some(h);
      assert u.listeners[i].value in Hosts(u.listeners);
    }
  }

  lemma CheckedAre(u: Upstream, domains: seq<Domain>, ok: set<string>, create: set<string>)
    requires Collected(h => HasVerifiedDomain(domains, h), (h, n) => Lacks(domains, h, n), Hosts(u.listeners) - AddressHosts(u), ok, create)
    ensures forall h :: h in ok <==> Some(h) in u.listeners && h != u.canonical && h !in u.addresses && HasVerifiedDomain(domains, h)
    ensures forall n :: n in create <==> exists h :: Missing(u, domains, h, n)
  {
    var names := (h: string, n: string) => Lacks(domains, h, n);
    forall h ensures h in Hosts(u.listeners) - AddressHosts(u) <==> Some(h) in u.listeners && h != u.canonical && h !in u.addresses { DeclaredAre(u, h); }
    forall n ensures n in create <==> exists h :: Missing(u, domains, h, n) {
      if n in create {
        var h :| h in Hosts(u.listeners) - AddressHosts(u) && names(h, n);
        assert Missing(u, domains, h, n);
      }
      if h :| Missing(u, domains, h, n) { assert h in Hosts(u.listeners) - AddressHosts(u) && names(h, n); }
    }
  }

  method EnsureHostnameVerification(c: Config, u: Upstream, d: Downstream, domains: seq<Domain>)
    returns (verified: seq<string>, create: set<string>)
    ensures Sorted(StringLess, verified) && NoDuplicates(verified)
    ensures forall h :: h in verified <==> VerifiedNow(c, u, d, domains, h)
    ensures c.disableVerification ==> create == {}
    ensures !c.disableVerification ==> forall n :: n in create <==> exists h :: Missing(u, domains, h, n)
  {
    var hosts := CollectHosts(u.listeners);
    if c.disableVerification {
      verified := SortedList(hosts);
      forall h ensures h in verified <==> Some(h) in u.listeners { DeclaredAre(u, h); }
      return verified, {};
    }
    var graced := CollectGraced(c, d, hosts);
    var ok;
    ok, create := CheckDomains(domains, hosts - AddressHosts(u));
    CheckedAre(u, domains, ok, create);
    verified := SortedList(graced + AddressHosts(u) + ok);
    forall h ensures h in verified <==> IsVerified(c, u, d, domains, h) { DeclaredAre(u, h); }
  }

  method CollectGraced(c: Config, d: Downstream, hosts: set<string>) returns (ok: set<string>)
    ensures forall h :: h in ok <==> h in hosts && Graced(c, d, h)
  {
    ok := {};
    if !d.deleting {
      for i := 0 to |d.listeners|
        invariant forall h :: h in ok <==> h in hosts && Some(h) in d.listeners[..i] && !HasSuffix(h, c.targetDomain)
      {
        assert d.listeners[..i + 1] == d.listeners[..i] + [d.listeners[i]];
        if d.listeners[i].Some? && !HasSuffix(d.listeners[i].value, c.targetDomain) && d.listeners[i].value in hosts {
          ok := ok + {d.listeners[i].value};
        }
      }
      assert d.listeners[..|d.listeners|] == d.listeners;
    }
  }

  lemma MoreDomains(domains: seq<Domain>, extra: Domain, host: string)
    ensures Unmatched(domains + [extra], host) <==> Unmatched(domains, host) && !Encloses(extra.name, host)
    ensures HasVerifiedDomain(domains + [extra], host) <==> HasVerifiedDomain(domains, host) || (extra.verified && Encloses(extra.name, host))
  {
    var more := domains + [extra];
    assert more[|domains|] == extra && forall i :: 0 <= i < |domains| ==> more[i] == domains[i];
  }

  /** The Domain created for a hostname encloses it, so the next pass, seeing it, has nothing to create for
      that hostname and verifies the hostname as soon as the Domain is verified. */
  lemma CreatedDomainCovers(c: Config, u: Upstream, d: Downstream, domains: seq<Domain>, host: string, name: string, verified: bool)
    requires Missing(u, domains, host, name)
    ensures forall n :: !Missing(u, domains + [Domain(name, verified)], host, n)
    ensures IsVerified(c, u, d, domains + [Domain(name, verified)], host) <==> verified || IsVerified(c, u, d, domains, host)
  {
    MoreDomains(domains, Domain(name, verified), host);
  }

  /** On no listener and, while verification is on, in no address either. */
  predicate Undeclared(c: Config, u: Upstream, host: string)
  {
    Some(host) !in u.listeners && (c.disableVerification || (host != u.canonical && host !in u.addresses))
  }

  /** An undeclared hostname is not verified, even if it is still served downstream: the grace period
      never outlives the upstream declaration. */
  lemma UndeclaredIsUnverified(c: Config, u: Upstream, d: Downstream, domains: seq<Domain>, host: string)
    requires Undeclared(c, u, host)
    ensures !VerifiedNow(c, u, d, domains, host)
  {
  }

  /** A declared hostname already served downstream stays verified when its Domain goes away, unless
      it lies under the platform's own target domain. */
  lemma ServedHostnameSurvivesItsDomain(c: Config, u: Upstream, d: Downstream, host: string)
    requires Some(host) in u.listeners && host != u.canonical && host !in u.addresses
    ensures IsVerified(c, u, d, [], host) <==> !d.deleting && Some(host) in d.listeners && !HasSuffix(host, c.targetDomain)
  {
  }
}
