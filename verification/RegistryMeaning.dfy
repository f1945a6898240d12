/** What a fresh lookup of internal/registrydata/client.go says, in terms of what upstream answers: which source
    decides, which zones are asked, and which registrant goes with which address.
 */
module RegistryMeaning {
  import opened Ordering
  import opened DnsNames
  import opened RegistryLookup

  // ----- The source -----

  predicate AsksWhois(a: RdapAnswer) { a.RdapNoMatch? || a.RdapEmpty? }

  /** RDAP decides whenever it has a domain. WHOIS is asked when there is no RDAP server for the apex or RDAP has
      nothing, and then decides. The lookup has no result exactly if RDAP fails otherwise or WHOIS fails when
      asked, and then it is an error. */
  lemma SourceDecides(n: Names, u: Upstream, name: string, apex: string)
    ensures var out, rdap, whois := Fresh(n, u, name, apex), u.rdap(apex), u.whois(apex);
            && (out.result.None? <==> rdap.RdapFailed? || (AsksWhois(rdap) && whois.WhoisFailed?))
            && (out.result.None? ==> out.failed)
            && (out.result.Some? && rdap.RdapDomain? ==>
                  out.result.value.source == Rdap && out.result.value.registration == rdap.registration && out.result.value.provider == rdap.provider)
            && (out.result.Some? && AsksWhois(rdap) ==>
                  out.result.value.source == Whois && out.result.value.registration == whois.registration && out.result.value.provider == whois.provider)
  {
  }

  // ----- The zones asked -----

  lemma {:induction false} FirstDot(s: string)
    ensures IndexOfDot(s).None? <==> |Split(s)| == 1
    ensures IndexOfDot(s).Some? ==> s[..IndexOfDot(s).value] == Split(s)[0] && Split(s[IndexOfDot(s).value + 1..]) == Split(s)[1..]
  {
    if s != "" && s[0] != '.' {
      FirstDot(s[1..]);
      if IndexOfDot(s).Some? {
        var i := IndexOfDot(s[1..]).value;
        assert s[1..][i + 1..] == s[i + 2..];
        assert s[..i + 1] == [s[0]] + s[1..][..i];
      }
    }
  }

  lemma ParentDropsLabel(s: string)
    requires |Split(s)| > 1 && Split(s)[0] != ""
    ensures HasParent(s) && Split(Parent(s)) == Split(s)[1..]
  {
    FirstDot(s);
  }

  /** A name below the apex is asked about label by label: itself, then without its first label, down to the apex. */
  lemma {:induction false} ZonesDropLabels(name: string, apex: string)
    requires Encloses(apex, name) && forall l :: l in Split(name) ==> l != ""
    ensures |Zones(name, apex)| == |Split(name)| - |Split(apex)| + 1
    ensures forall i :: 0 <= i < |Zones(name, apex)| ==> Split(Zones(name, apex)[i]) == Split(name)[i..]
    decreases |Split(name)|
  {
    var z, h := Split(apex), Split(name);
    if |z| == |h| {
      assert h[0..] == h;
      JoinSplit(apex);
      JoinSplit(name);
    } else {
      assert h[0] in h;
      ParentDropsLabel(name);
      assert name != apex;
      var next := Parent(name);
      assert h[1..][|h| - 1 - |z|..] == h[|h| - |z|..];
      assert forall l :: l in h[1..] ==> l in h;
      ZonesDropLabels(next, apex);
      assert Zones(name, apex) == [name] + Zones(next, apex);
      forall i | 0 < i < |Zones(name, apex)| ensures Split(Zones(name, apex)[i]) == h[i..] {
        assert Zones(name, apex)[i] == Zones(next, apex)[i - 1] && h[1..][i - 1..] == h[i..];
      }
    }
  }

  // ----- The nameservers -----

  /** Dropping empty names: nothing else goes, and the rest keep their order. */
  lemma {:induction false} NonEmptyDrops(a: seq<string>, b: seq<string>)
    ensures NonEmpty(a + [""] + b) == NonEmpty(a + b)
    ensures "" !in a ==> NonEmpty(a) == a
  {
    NonEmptyKeeps(a);
    if b == [] {
      assert a + [""] + b == a + [""] && a + b == a && (a + [""])[..|a|] == a;
    } else {
      assert (a + [""] + b)[..|a| + |b|] == a + [""] + b[..|b| - 1] && (a + b)[..|a + b| - 1] == a + b[..|b| - 1];
      NonEmptyDrops(a, b[..|b| - 1]);
    }
  }

  lemma {:induction false} NonEmptyKeeps(a: seq<string>)
    ensures "" !in a ==> NonEmpty(a) == a
    ensures "" !in NonEmpty(a)
  {
    if a != [] {
      NonEmptyKeeps(a[..|a| - 1]);
      assert a == a[..|a| - 1] + [a[|a| - 1]];
    }
  }

  /** The nameservers of a name are those of the closest enclosing zone with records when that is delegated below
      the apex; otherwise those RDAP lists, if it decides and lists any; otherwise those of the apex zone. */
  lemma HostsAreChosen(n: Names, u: Upstream, name: string, apex: string)
    requires Registration(n, u, apex).Some?
    ensures var hosts, z, rdap := NsHosts(u, Registration(n, u, apex).value, name, apex), ClosestZone(u, name, apex), u.rdap(apex);
            if z.Some? && z.value != apex && NonEmpty(u.zone(z.value)) != [] then hosts == NonEmpty(u.zone(z.value))
            else if rdap.RdapDomain? && NonEmpty(rdap.nameservers) != [] then hosts == NormalizedNames(n, NonEmpty(rdap.nameservers))
            else hosts == NonEmpty(u.zone(apex))
  {
    HostsComeFromClosestZone(u, Registration(n, u, apex).value, name, apex);
    assert NonEmpty([]) == [];
  }

  // ----- Addresses and registrants -----

  /** The first `k` addresses, each with its own registrant. */
  predicate WithRegistrants(u: Upstream, ips: seq<string>, entries: seq<IpEntry>)
  {
    |entries| <= |ips| && forall j :: 0 <= j < |entries| ==> entries[j].address == ips[j] && u.registrant(ips[j]) == IpRegistrant(entries[j].registrant)
  }

  lemma {:induction false} AddressesSay(u: Upstream, ips: seq<string>)
    ensures var (entries, e) := Addresses(u, ips);
            && WithRegistrants(u, ips, entries)
            && (e.None? ==> |entries| == |ips|)
            && (e.Some? ==> |entries| < |ips| && u.registrant(ips[|entries|]) == e.value && e.value.IpFailed?)
  {
    if ips != [] { AddressesSay(u, ips[..|ips| - 1]); }
  }

  /** The nameserver of a host: its name, and its addresses with their registrants, up to the first that fails. */
  predicate Described(u: Upstream, host: string, ns: Nameserver, e: Option<IpAnswer>)
  {
    && ns.hostname == host
    && var found := u.hosts(host);
       var ips := if found.Some? then found.value else [];
    && WithRegistrants(u, ips, ns.ips)
    && (e.None? ==> |ns.ips| == |ips|)
    && (e.Some? ==> |ns.ips| < |ips| && u.registrant(ips[|ns.ips|]) == e.value && e.value.IpFailed?)
  }

  lemma DescribeSays(u: Upstream, host: string)
    ensures Described(u, host, Describe(u, host).0, Describe(u, host).1)
  {
    if u.hosts(host).Some? { AddressesSay(u, u.hosts(host).value); }
  }

  /** The nameservers in order, each described in full, and all of them unless a registrant fails; then the list
      ends with the nameserver it failed for. */
  lemma {:induction false} NameserversSay(n: Names, u: Upstream, hosts: seq<string>)
    ensures var (servers, e) := Nameservers(n, u, hosts);
            && |servers| <= |hosts| && (e.None? ==> |servers| == |hosts|) && (e.Some? ==> servers != [])
            && forall i :: 0 <= i < |servers| ==>
                 Described(u, n.normalize(hosts[i]), servers[i], if i == |servers| - 1 then e else None)
  {
    if hosts != [] {
      NameserversSay(n, u, hosts[..|hosts| - 1]);
      DescribeSays(u, n.normalize(hosts[|hosts| - 1]));
    }
  }

  /** A lookup with a result: what it says about nameservers, when it is an error, and how long to wait after one. */
  lemma ResultSays(n: Names, u: Upstream, name: string, apex: string) returns (e: Option<IpAnswer>)
    requires Fresh(n, u, name, apex).result.Some?
    ensures Registration(n, u, apex).Some?
    ensures var hosts, out := NsHosts(u, Registration(n, u, apex).value, name, apex), Fresh(n, u, name, apex);
            var servers, delay := out.result.value.nameservers, out.result.value.suggestedDelay;
            && (out.failed <==> e.Some?)
            && |servers| <= |hosts| && (!out.failed ==> |servers| == |hosts|) && (out.failed ==> servers != [])
            && (forall i :: 0 <= i < |servers| ==> Described(u, n.normalize(hosts[i]), servers[i], if i == |servers| - 1 then e else None))
            && delay >= 0
            && (delay > 0 ==> e == Some(IpFailed(Some(delay))))
            && (e.Some? && e.value.IpFailed? && e.value.retryAfter.Some? ==> delay >= e.value.retryAfter.value)
  {
    var hosts := NsHosts(u, Registration(n, u, apex).value, name, apex);
    e := Nameservers(n, u, hosts).1;
    NameserversSay(n, u, hosts);
  }
}
