/** A fresh domain lookup of internal/registrydata/client.go.

    RDAP, WHOIS, DNS and the IP registrant service are one value `Upstream`, what they answer at the
    time of the lookup. String folding and the public suffix list are `Names`. What is left is the
    choice of source, the choice of nameservers and the handling of partial failures.
 */
module RegistryLookup {
  import opened Ordering

  datatype Names = Names(normalize: string -> string, apex: string -> Option<string>)

  datatype RdapAnswer = RdapFailed | RdapNoMatch | RdapEmpty | RdapDomain(registration: string, provider: string, nameservers: seq<string>)
  datatype WhoisAnswer = WhoisFailed | WhoisRecord(registration: string, provider: string)
  datatype IpAnswer = IpFailed(retryAfter: Option<int>) | IpRegistrant(name: string)

  /** `zone` gives the NS records of a zone (none when the query fails), `hosts` the addresses of a host. */
  datatype Upstream = Upstream(
    rdap: string -> RdapAnswer,
    whois: string -> WhoisAnswer,
    zone: string -> seq<string>,
    hosts: string -> Option<seq<string>>,
    registrant: string -> IpAnswer)

  datatype Source = Rdap | Whois
  datatype IpEntry = IpEntry(address: string, registrant: string)
  datatype Nameserver = Nameserver(hostname: string, ips: seq<IpEntry>)
  datatype DomainResult = DomainResult(registration: string, nameservers: seq<Nameserver>, source: Source, provider: string, suggestedDelay: int)

  /** A result, possibly partial, with or without an error. */
  datatype Outcome = Outcome(result: Option<DomainResult>, failed: bool)

  // ----- Where a zone is delegated -----

  function IndexOfDot(s: string): Option<nat>
    ensures IndexOfDot(s).Some? ==> IndexOfDot(s).value < |s|
  {
    if s == [] then None
    else if s[0] == '.' then Some(0)
    else
      var rest := IndexOfDot(s[1..]);
      if rest.Some? then Some(rest.value + 1) else None
  }

  predicate HasParent(s: string) { IndexOfDot(s).Some? && IndexOfDot(s).value > 0 }

  function Parent(s: string): (r: string)
    requires HasParent(s)
    ensures |r| < |s|
  {
    s[IndexOfDot(s).value + 1..]
  }

  /** The zones tried, in order: a name, its parents, up to the apex. */
  function Zones(cur: string, apex: string): (zs: seq<string>)
    ensures zs != [] && zs[0] == cur
    decreases |cur|
  {
    if cur == apex || !HasParent(cur) then [cur] else [cur] + Zones(Parent(cur), apex)
  }

  function NonEmpty(hosts: seq<string>): seq<string>
  {
    if hosts == [] then []
    else if hosts[|hosts| - 1] == "" then NonEmpty(hosts[..|hosts| - 1])
    else NonEmpty(hosts[..|hosts| - 1]) + [hosts[|hosts| - 1]]
  }

  function Delegation(u: Upstream, cur: string, apex: string): (bool, seq<string>)
    decreases |cur|
  {
    if u.zone(cur) != [] then (cur != apex, NonEmpty(u.zone(cur)))
    else if cur == apex || !HasParent(cur) then (false, [])
    else Delegation(u, Parent(cur), apex)
  }

  method KeepNonEmpty(hosts: seq<string>) returns (out: seq<string>)
    ensures out == NonEmpty(hosts)
  {
    out := [];
    for i := 0 to |hosts|
      invariant out == NonEmpty(hosts[..i])
    {
      assert hosts[..i + 1][..i] == hosts[..i];
      if hosts[i] != "" {
        out := out + [hosts[i]];
      }
    }
    assert hosts[..|hosts|] == hosts;
  }

  method DelegatedZoneNS(u: Upstream, fqdn: string, apex: string) returns (delegated: bool, hosts: seq<string>)
    ensures (delegated, hosts) == Delegation(u, fqdn, apex)
  {
    var cur := fqdn;
    while true
      invariant Delegation(u, cur, apex) == Delegation(u, fqdn, apex)
      decreases |cur|
    {
      var recs := u.zone(cur);
      if |recs| > 0 {
        hosts := KeepNonEmpty(recs);
        return cur != apex, hosts;
      }
      if cur == apex {
        break;
      }
      var i := IndexOfDot(cur);
      if i.Some? && i.value > 0 {
        cur := cur[i.value + 1..];
      } else {
        break;
      }
    }
    return false, [];
  }

  /** The zone found is the first of the tried ones that has records: the closest enclosing delegation. */
  lemma {:induction false} ClosestZoneWins(u: Upstream, cur: string, apex: string, k: nat)
    requires k < |Zones(cur, apex)| && u.zone(Zones(cur, apex)[k]) != []
    requires forall i :: 0 <= i < k ==> u.zone(Zones(cur, apex)[i]) == []
    ensures Delegation(u, cur, apex) == (Zones(cur, apex)[k] != apex, NonEmpty(u.zone(Zones(cur, apex)[k])))
    decreases k
  {
    if k > 0 {
      var next := Parent(cur);
      assert Zones(cur, apex) == [cur] + Zones(next, apex);
      assert u.zone(Zones(cur, apex)[0]) == [];
      forall i | 0 <= i < k - 1 ensures u.zone(Zones(next, apex)[i]) == [] {
        assert Zones(next, apex)[i] == Zones(cur, apex)[i + 1];
      }
      ClosestZoneWins(u, next, apex, k - 1);
    }
  }

  lemma {:induction false} NoZoneFound(u: Upstream, cur: string, apex: string)
    requires forall i :: 0 <= i < |Zones(cur, apex)| ==> u.zone(Zones(cur, apex)[i]) == []
    ensures Delegation(u, cur, apex) == (false, [])
    decreases |cur|
  {
    assert u.zone(Zones(cur, apex)[0]) == [];
    if cur != apex && HasParent(cur) {
      var next := Parent(cur);
      forall i | 0 <= i < |Zones(next, apex)| ensures u.zone(Zones(next, apex)[i]) == [] {
        assert Zones(next, apex)[i] == Zones(cur, apex)[i + 1];
      }
      NoZoneFound(u, next, apex);
    }
  }

  // ----- Registration: a function of the apex -----

  datatype Registered = Registered(registration: string, source: Source, provider: string, apexNS: seq<string>)

  function NormalizedNames(n: Names, hosts: seq<string>): seq<string>
  {
    seq(|hosts|, i requires 0 <= i < |hosts| => n.normalize(hosts[i]))
  }

  function Registration(n: Names, u: Upstream, apex: string): Option<Registered>
  {
    match u.rdap(apex)
    case RdapFailed => None
    case RdapDomain(r, p, ns) => Some(Registered(r, Rdap, p, NormalizedNames(n, NonEmpty(ns))))
    case _ =>
      match u.whois(apex)
      case WhoisFailed => None
      case WhoisRecord(r, p) => Some(Registered(r, Whois, p, []))
  }

  // ----- Nameservers: a function of the whole name -----

  function ApexHosts(u: Upstream, reg: Registered, apex: string): seq<string>
  {
    if reg.source == Rdap && reg.apexNS != [] then reg.apexNS else Delegation(u, apex, apex).1
  }

  function NsHosts(u: Upstream, reg: Registered, name: string, apex: string): seq<string>
  {
    if name == apex then ApexHosts(u, reg, apex)
    else
      var (delegated, hosts) := Delegation(u, name, apex);
      if delegated && hosts != [] then hosts else ApexHosts(u, reg, apex)
  }

  /** The addresses up to the first registrant that fails, and that failure. */
  function Addresses(u: Upstream, ips: seq<string>): (seq<IpEntry>, Option<IpAnswer>)
  {
    if ips == [] then ([], None)
    else
      var before := Addresses(u, ips[..|ips| - 1]);
      var ip := ips[|ips| - 1];
      if before.1.Some? then before
      else match u.registrant(ip)
        case IpFailed(r) => (before.0, Some(IpFailed(r)))
        case IpRegistrant(name) => (before.0 + [IpEntry(ip, name)], None)
  }

  function Describe(u: Upstream, host: string): (Nameserver, Option<IpAnswer>)
  {
    match u.hosts(host)
    case None => (Nameserver(host, []), None)
    case Some(ips) => var (entries, e) := Addresses(u, ips); (Nameserver(host, entries), e)
  }

  /** The nameservers up to and including the first one with a failing registrant. */
  function Nameservers(n: Names, u: Upstream, hosts: seq<string>): (seq<Nameserver>, Option<IpAnswer>)
  {
    if hosts == [] then ([], None)
    else
      var before := Nameservers(n, u, hosts[..|hosts| - 1]);
      if before.1.Some? then before
      else
        var (ns, e) := Describe(u, n.normalize(hosts[|hosts| - 1]));
        (before.0 + [ns], e)
  }

  function Delay(e: Option<IpAnswer>): int
  {
    if e.Some? && e.value.IpFailed? && e.value.retryAfter.Some? && e.value.retryAfter.value > 0 then e.value.retryAfter.value else 0
  }

  function Fresh(n: Names, u: Upstream, name: string, apex: string): Outcome
  {
    match Registration(n, u, apex)
    case None => Outcome(None, true)
    case Some(reg) =>
      var (servers, e) := Nameservers(n, u, NsHosts(u, reg, name, apex));
      Outcome(Some(DomainResult(reg.registration, servers, reg.source, reg.provider, Delay(e))), e.Some?)
  }

  lemma {:induction false} AddressesStop(u: Upstream, ips: seq<string>, k: nat)
    requires k <= |ips| && Addresses(u, ips[..k]).1.Some?
    ensures Addresses(u, ips) == Addresses(u, ips[..k])
    decreases |ips|
  {
    if k == |ips| {
      assert ips[..k] == ips;
    } else {
      assert ips[..|ips| - 1][..k] == ips[..k];
      AddressesStop(u, ips[..|ips| - 1], k);
    }
  }

  lemma {:induction false} NameserversStop(n: Names, u: Upstream, hosts: seq<string>, k: nat)
    requires k <= |hosts| && Nameservers(n, u, hosts[..k]).1.Some?
    ensures Nameservers(n, u, hosts) == Nameservers(n, u, hosts[..k])
    decreases |hosts|
  {
    if k == |hosts| {
      assert hosts[..k] == hosts;
    } else {
      assert hosts[..|hosts| - 1][..k] == hosts[..k];
      NameserversStop(n, u, hosts[..|hosts| - 1], k);
    }
  }

  method DescribeNameserver(u: Upstream, host: string) returns (ns: Nameserver, e: Option<IpAnswer>)
    ensures (ns, e) == Describe(u, host)
  {
    ns := Nameserver(host, []);
    var found := u.hosts(host);
    if found.None? {
      return ns, None;
    }
    var ips := found.value;
    for k := 0 to |ips|
      invariant (ns, None) == (Nameserver(host, Addresses(u, ips[..k]).0), Addresses(u, ips[..k]).1)
    {
      assert ips[..k + 1][..k] == ips[..k];
      match u.registrant(ips[k])
      case IpFailed(r) =>
        AddressesStop(u, ips, k + 1);
        return ns, Some(IpFailed(r));
      case IpRegistrant(name) =>
        ns := ns.(ips := ns.ips + [IpEntry(ips[k], name)]);
    }
    assert ips[..|ips|] == ips;
    e := None;
  }

  method DescribeAll(n: Names, u: Upstream, hosts: seq<string>) returns (servers: seq<Nameserver>, e: Option<IpAnswer>)
    ensures (servers, e) == Nameservers(n, u, hosts)
  {
    servers, e := [], None;
    for k := 0 to |hosts|
      invariant e == None && (servers, e) == Nameservers(n, u, hosts[..k])
    {
      assert hosts[..k + 1][..k] == hosts[..k];
      var ns, failure := DescribeNameserver(u, n.normalize(hosts[k]));
      servers := servers + [ns];
      if failure.Some? {
        NameserversStop(n, u, hosts, k + 1);
        return servers, failure;
      }
    }
    assert hosts[..|hosts|] == hosts;
  }

  method ChooseHosts(u: Upstream, reg: Registered, name: string, apex: string) returns (hosts: seq<string>)
    ensures hosts == NsHosts(u, reg, name, apex)
  {
    if name != apex {
      var delegated, own := DelegatedZoneNS(u, name, apex);
      if delegated && |own| > 0 {
        return own;
      }
    }
    if reg.source == Rdap && |reg.apexNS| > 0 {
      return reg.apexNS;
    }
    var _, apexOwn := DelegatedZoneNS(u, apex, apex);
    hosts := apexOwn;
  }

  method LookupRegistration(n: Names, u: Upstream, apex: string) returns (reg: Option<Registered>)
    ensures reg == Registration(n, u, apex)
  {
    var rdap := u.rdap(apex);
    match rdap
    case RdapFailed => return None;
    case RdapDomain(r, provider, nameservers) =>
      var names := KeepNonEmpty(nameservers);
      return Some(Registered(r, Rdap, provider, NormalizedNames(n, names)));
    case _ =>
      match u.whois(apex)
      case WhoisFailed => return None;
      case WhoisRecord(r, provider) => return Some(Registered(r, Whois, provider, []));
  }

  method LookupDomainFresh(n: Names, u: Upstream, name: string, apex: string) returns (out: Outcome)
    ensures out == Fresh(n, u, name, apex)
  {
    var reg := LookupRegistration(n, u, apex);
    if reg.None? {
      return Outcome(None, true);
    }
    var hosts := ChooseHosts(u, reg.value, name, apex);
    var servers, failure := DescribeAll(n, u, hosts);
    var delay := 0;
    if failure.Some? && failure.value.IpFailed? && failure.value.retryAfter.Some? && failure.value.retryAfter.value > delay {
      delay := failure.value.retryAfter.value;
    }
    out := Outcome(Some(DomainResult(reg.value.registration, servers, reg.value.source, reg.value.provider, delay)), failure.Some?);
  }

  // ----- What depends on what -----

  /** Registration, source and provider are the same for every name under an apex. */
  lemma RegistrationIgnoresName(n: Names, u: Upstream, a: string, b: string, apex: string)
    requires Fresh(n, u, a, apex).result.Some?
    ensures var x, y := Fresh(n, u, a, apex).result, Fresh(n, u, b, apex).result;
            y.Some? && x.value.registration == y.value.registration && x.value.source == y.value.source && x.value.provider == y.value.provider
  {
  }

  lemma {:induction false} HostnamesAre(n: Names, u: Upstream, hosts: seq<string>)
    requires Nameservers(n, u, hosts).1.None?
    ensures |Nameservers(n, u, hosts).0| == |hosts|
    ensures forall i :: 0 <= i < |hosts| ==> Nameservers(n, u, hosts).0[i] == Describe(u, n.normalize(hosts[i])).0
  {
    if hosts != [] { HostnamesAre(n, u, hosts[..|hosts| - 1]); }
  }

  /** Two complete lookups under one apex agree entirely exactly when they select the same hosts. */
  lemma AgreeExactlyWhenHostsDo(n: Names, u: Upstream, a: string, b: string, apex: string)
    requires Registration(n, u, apex).Some? && !Fresh(n, u, a, apex).failed && !Fresh(n, u, b, apex).failed
    ensures var reg := Registration(n, u, apex).value;
            (Fresh(n, u, a, apex).result == Fresh(n, u, b, apex).result) <==>
            (NormalizedNames(n, NsHosts(u, reg, a, apex)) == NormalizedNames(n, NsHosts(u, reg, b, apex)))
  {
    var reg := Registration(n, u, apex).value;
    var ha, hb := NsHosts(u, reg, a, apex), NsHosts(u, reg, b, apex);
    HostnamesAre(n, u, ha);
    HostnamesAre(n, u, hb);
    var x, y := Nameservers(n, u, ha).0, Nameservers(n, u, hb).0;
    assert forall i :: 0 <= i < |ha| ==> x[i].hostname == n.normalize(ha[i]);
    assert forall i :: 0 <= i < |hb| ==> y[i].hostname == n.normalize(hb[i]);
    if NormalizedNames(n, ha) == NormalizedNames(n, hb) {
      assert |ha| == |NormalizedNames(n, ha)| == |hb|;
      forall i | 0 <= i < |ha| ensures x[i] == y[i] {
        assert NormalizedNames(n, ha)[i] == NormalizedNames(n, hb)[i];
      }
      assert x == y;
    }
  }

  // ----- Delegation decides -----

  /** The closest enclosing zone, up to the apex, that has records. */
  function ClosestZone(u: Upstream, cur: string, apex: string): (z: Option<string>)
    ensures z.Some? ==> z.value in Zones(cur, apex) && u.zone(z.value) != []
    decreases |cur|
  {
    if u.zone(cur) != [] then Some(cur)
    else if cur == apex || !HasParent(cur) then None
    else ClosestZone(u, Parent(cur), apex)
  }

  lemma {:induction false} DelegationIsClosestZone(u: Upstream, cur: string, apex: string)
    ensures var z := ClosestZone(u, cur, apex);
            Delegation(u, cur, apex) == if z.Some? then (z.value != apex, NonEmpty(u.zone(z.value))) else (false, [])
    decreases |cur|
  {
    if u.zone(cur) == [] && cur != apex && HasParent(cur) { DelegationIsClosestZone(u, Parent(cur), apex); }
  }

  /** The hosts of a name whose closest zone is `z`: that zone's own, when it is delegated below the apex. */
  function HostsOfZone(u: Upstream, reg: Registered, z: Option<string>, apex: string): seq<string>
  {
    if z.Some? && z.value != apex && NonEmpty(u.zone(z.value)) != [] then NonEmpty(u.zone(z.value)) else ApexHosts(u, reg, apex)
  }

  lemma HostsComeFromClosestZone(u: Upstream, reg: Registered, name: string, apex: string)
    ensures NsHosts(u, reg, name, apex) == HostsOfZone(u, reg, ClosestZone(u, name, apex), apex)
  {
    DelegationIsClosestZone(u, name, apex);
  }

  /** Lookups of two names with the same closest zone are the same, failures and partial results included;
      complete ones agree if and only if the hosts of the two closest zones do. */
  lemma AgreeByClosestZone(n: Names, u: Upstream, a: string, b: string, apex: string)
    ensures ClosestZone(u, a, apex) == ClosestZone(u, b, apex) ==> Fresh(n, u, a, apex) == Fresh(n, u, b, apex)
    ensures Registration(n, u, apex).Some? && !Fresh(n, u, a, apex).failed && !Fresh(n, u, b, apex).failed ==>
      var reg := Registration(n, u, apex).value;
      ((Fresh(n, u, a, apex).result == Fresh(n, u, b, apex).result) <==>
       (NormalizedNames(n, HostsOfZone(u, reg, ClosestZone(u, a, apex), apex)) == NormalizedNames(n, HostsOfZone(u, reg, ClosestZone(u, b, apex), apex))))
  {
    if Registration(n, u, apex).Some? {
      var reg := Registration(n, u, apex).value;
      HostsComeFromClosestZone(u, reg, a, apex);
      HostsComeFromClosestZone(u, reg, b, apex);
      if !Fresh(n, u, a, apex).failed && !Fresh(n, u, b, apex).failed { AgreeExactlyWhenHostsDo(n, u, a, b, apex); }
    }
  }
}
