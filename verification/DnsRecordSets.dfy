/** DNS records for a gateway's claimed hostnames: internal/controller/gateway_dns_controller.go.

    The store holds the DNSRecordSets of one namespace. Domains, DNSZones, the authority test and the
    truncated hash of a hostname are inputs. Here a pass runs undisturbed; `DnsInterleaving` takes it
    apart into its API calls and interleaves those with other gateways' and with foreign writes.
 */
module DnsRecordSets {
  import opened Ordering
  import opened DnsNames

  datatype Domain = Domain(name: string, verified: bool, apex: bool)
  datatype Zone = Zone(name: string, domainName: string)

  datatype Inputs = Inputs(domains: seq<Domain>, zones: seq<Zone>, authority: (Domain, Zone) -> bool, hash: string -> string)

  datatype Gateway = Gateway(namespace: string, name: string, canonical: string)

  datatype RecordSpec = RecordSpec(zone: string, alias: bool, owner: string, target: string)

  datatype Record = Record(managedBy: string, managed: bool, sourceKind: string, sourceName: string, sourceNamespace: string,
                           hostname: string, syncStart: int, spec: RecordSpec)

  type Records = map<string, Record>

  const OURS := "networking.datumapis.com"

  // ----- Zone names -----

  function ZoneNames(host: string): seq<string>
  {
    var parts := Split(host);
    if |parts| < 2 then [] else if |parts| == 2 then [host] else Tails(parts)
  }

  /** The proper suffixes of at least two labels, longest first. */
  function Tails(parts: seq<string>): seq<string>
    requires |parts| > 2
  {
    seq(|parts| - 2, i requires 0 <= i < |parts| - 2 => Join(parts[i + 1..]))
  }

  /** The loop over the labels after the first, down to the last two. */
  method JoinTails(parts: seq<string>) returns (zones: seq<string>)
    requires |parts| >= 2
    ensures if |parts| == 2 then zones == [] else zones == Tails(parts)
  {
    zones := [];
    for i := 1 to |parts| - 1
      invariant |zones| == i - 1
      invariant forall k :: 0 <= k < i - 1 ==> zones[k] == Join(parts[k + 1..])
    {
      zones := zones + [Join(parts[i..])];
    }
  }

  method PossibleZoneNames(host: string) returns (zones: seq<string>)
    ensures zones == ZoneNames(host)
  {
    var parts := Split(host);
    if |parts| < 2 {
      return [];
    }
    zones := JoinTails(parts);
    if |parts| == 2 {
      zones := zones + [host];
    }
  }

  lemma ZoneEncloses(host: string, i: nat)
    requires i < |ZoneNames(host)|
    ensures Within(host, ZoneNames(host)[i])
  {
    JoinSplit(host);
    if |Split(host)| > 2 { SuffixesAreWithin(Split(host), i + 1); }
  }

  lemma LaterSuffixIsShorter(parts: seq<string>, i: nat, j: nat)
    requires i < j < |parts|
    ensures |Join(parts[j..])| < |Join(parts[i..])|
  {
    var tail := parts[i..];
    SuffixesAreWithin(tail, j - i);
    assert tail[j - i..] == parts[j..];
  }

  lemma TailsShorten(parts: seq<string>)
    requires |parts| > 2
    ensures forall i, j :: 0 <= i < j < |Tails(parts)| ==> |Tails(parts)[j]| < |Tails(parts)[i]|
  {
    forall i, j | 0 <= i < j < |Tails(parts)| ensures |Tails(parts)[j]| < |Tails(parts)[i]| {
      LaterSuffixIsShorter(parts, i + 1, j + 1);
    }
  }

  /** Every candidate encloses the hostname, and they get strictly shorter. */
  lemma ZonesAreEnclosing(host: string)
    ensures forall i :: 0 <= i < |ZoneNames(host)| ==> Within(host, ZoneNames(host)[i])
    ensures forall i, j :: 0 <= i < j < |ZoneNames(host)| ==> |ZoneNames(host)[j]| < |ZoneNames(host)[i]|
  {
    var zs := ZoneNames(host);
    forall i | 0 <= i < |zs| ensures Within(host, zs[i]) { ZoneEncloses(host, i); }
    if |Split(host)| > 2 { TailsShorten(Split(host)); }
  }

  // ----- Choosing the zone -----

  function FindDomain(ds: seq<Domain>, name: string): (d: Option<Domain>)
    ensures d.Some? ==> d.value in ds && d.value.name == name
  {
    if ds == [] then None else if ds[0].name == name then Some(ds[0]) else FindDomain(ds[1..], name)
  }

  function FindZone(zs: seq<Zone>, name: string): (z: Option<Zone>)
    ensures z.Some? ==> z.value in zs && z.value.domainName == name
  {
    if zs == [] then None else if zs[0].domainName == name then Some(zs[0]) else FindZone(zs[1..], name)
  }

  /** A Domain of that name is verified and its DNSZone has authority. */
  predicate Usable(inp: Inputs, name: string)
  {
    var d, z := FindDomain(inp.domains, name), FindZone(inp.zones, name);
    d.Some? && d.value.verified && z.Some? && inp.authority(d.value, z.value)
  }

  function FirstUsable(inp: Inputs, names: seq<string>): (r: Option<string>)
    ensures r.Some? ==> r.value in names && Usable(inp, r.value)
    ensures r.None? <==> forall n :: n in names ==> !Usable(inp, n)
  {
    if names == [] then None
    else if Usable(inp, names[0]) then Some(names[0])
    else FirstUsable(inp, names[1..])
  }

  method MatchZone(inp: Inputs, names: seq<string>) returns (r: Option<string>)
    ensures r == FirstUsable(inp, names)
  {
    for i := 0 to |names|
      invariant FirstUsable(inp, names) == FirstUsable(inp, names[i..])
    {
      assert names[i..][1..] == names[i + 1..];
      var d := FindDomain(inp.domains, names[i]);
      if d.Some? && d.value.verified {
        var z := FindZone(inp.zones, names[i]);
        if z.Some? && inp.authority(d.value, z.value) {
          return Some(names[i]);
        }
      }
    }
    r := None;
  }

  /** A zone the hostname can be in: its last labels, two or more, and not all of them if there are more. */
  predicate Candidate(zone: string, host: string)
  {
    Encloses(zone, host) && |Split(zone)| >= 2 && (|Split(host)| > 2 ==> zone != host)
  }

  lemma {:induction false} TailsAreCandidates(host: string, zone: string)
    requires |Split(host)| > 2
    ensures zone in Tails(Split(host)) <==> Encloses(zone, host) && 2 <= |Split(zone)| < |Split(host)|
  {
    var h := Split(host);
    if zone in Tails(h) {
      var i :| 0 <= i < |h| - 2 && Tails(h)[i] == zone;
      LastLabels(host, zone, |h| - 1 - i);
    }
    if Encloses(zone, host) && 2 <= |Split(zone)| < |h| {
      LastLabels(host, zone, |Split(zone)|);
      assert Tails(h)[|h| - 1 - |Split(zone)|] == zone;
    }
  }

  lemma SameLabelsSameName(zone: string, host: string)
    requires Encloses(zone, host) && |Split(zone)| == |Split(host)|
    ensures zone == host
  {
    JoinSplit(zone);
    JoinSplit(host);
  }

  lemma ZoneNamesAreCandidates(host: string, zone: string)
    ensures zone in ZoneNames(host) <==> Candidate(zone, host)
  {
    if |Split(host)| > 2 { TailsAreCandidates(host, zone); }
    if Encloses(zone, host) && |Split(zone)| == |Split(host)| { SameLabelsSameName(zone, host); }
  }

  /** The first Domain of that name is verified, and the first zone for it has authority. */
  predicate HasAuthority(inp: Inputs, name: string)
  {
    exists i, j ::
      && 0 <= i < |inp.domains| && inp.domains[i].name == name && (forall k :: 0 <= k < i ==> inp.domains[k].name != name)
      && 0 <= j < |inp.zones| && inp.zones[j].domainName == name && (forall k :: 0 <= k < j ==> inp.zones[k].domainName != name)
      && inp.domains[i].verified && inp.authority(inp.domains[i], inp.zones[j])
  }

  lemma {:induction false} FirstDomain(ds: seq<Domain>, name: string) returns (i: nat)
    ensures i <= |ds| && (forall k :: 0 <= k < i ==> ds[k].name != name)
    ensures FindDomain(ds, name) == if i < |ds| then Some(ds[i]) else None
    ensures i < |ds| ==> ds[i].name == name
  {
    if ds == [] || ds[0].name == name {
      i := 0;
    } else {
      i := FirstDomain(ds[1..], name);
      i := i + 1;
    }
  }

  lemma {:induction false} FirstZone(zs: seq<Zone>, name: string) returns (i: nat)
    ensures i <= |zs| && (forall k :: 0 <= k < i ==> zs[k].domainName != name)
    ensures FindZone(zs, name) == if i < |zs| then Some(zs[i]) else None
    ensures i < |zs| ==> zs[i].domainName == name
  {
    if zs == [] || zs[0].domainName == name {
      i := 0;
    } else {
      i := FirstZone(zs[1..], name);
      i := i + 1;
    }
  }

  lemma UsableMeansAuthority(inp: Inputs, name: string)
    ensures Usable(inp, name) <==> HasAuthority(inp, name)
  {
    var i := FirstDomain(inp.domains, name);
    var j := FirstZone(inp.zones, name);
  }

  /** A zone is chosen exactly if some candidate's Domain is verified with authority, and it is the longest such. */
  lemma LongestUsableZone(inp: Inputs, host: string)
    ensures var r := FirstUsable(inp, ZoneNames(host));
            && (r.None? <==> forall n :: Candidate(n, host) ==> !HasAuthority(inp, n))
            && (r.Some? ==> Candidate(r.value, host) && HasAuthority(inp, r.value)
                            && forall n :: Candidate(n, host) && HasAuthority(inp, n) && n != r.value ==> |n| < |r.value|)
  {
    ZonesAreEnclosing(host);
    FirstIsLongest(inp, ZoneNames(host));
    forall n ensures n in ZoneNames(host) <==> Candidate(n, host) { ZoneNamesAreCandidates(host, n); }
    forall n ensures Usable(inp, n) <==> HasAuthority(inp, n) { UsableMeansAuthority(inp, n); }
  }

  lemma {:induction false} FirstIsLongest(inp: Inputs, names: seq<string>)
    requires forall i, j :: 0 <= i < j < |names| ==> |names[j]| < |names[i]|
    ensures var r := FirstUsable(inp, names);
            r.Some? ==> forall n :: n in names && Usable(inp, n) && n != r.value ==> |n| < |r.value|
  {
    if names != [] && !Usable(inp, names[0]) {
      assert names == [names[0]] + names[1..];
      FirstIsLongest(inp, names[1..]);
    }
  }

  // ----- Record names -----

  predicate GoodHash(hash: string -> string, h: string) { |hash(h)| == 8 }

  function RecordName(inp: Inputs, gateway: string, host: string): string { gateway + "-" + inp.hash(host) }

  /** `name` is what a gateway would call one of its records. */
  predicate NamedFor(name: string, gateway: string)
  {
    |name| == |gateway| + 9 && name[..|gateway|] == gateway && name[|gateway|] == '-'
  }

  lemma NamesTellGateways(name: string, a: string, b: string)
    requires NamedFor(name, a) && NamedFor(name, b)
    ensures a == b
  {
  }

  ghost predicate HashesFit(inp: Inputs) { forall h :: GoodHash(inp.hash, h) }

  // ----- One hostname -----

  function WithDot(s: string): string { if s != "" && s[|s| - 1] == '.' then s else s + "." }

  function SpecFor(inp: Inputs, g: Gateway, host: string, zone: string): RecordSpec
    requires Usable(inp, zone)
  {
    RecordSpec(FindZone(inp.zones, zone).value.name, FindDomain(inp.domains, zone).value.apex, WithDot(host), WithDot(g.canonical))
  }

  /** The zone of a hostname that needs a record; the canonical hostname never does. */
  function ZoneFor(inp: Inputs, g: Gateway, host: string): (z: Option<string>)
    ensures z.Some? ==> Usable(inp, z.value)
  {
    if host == g.canonical then None else FirstUsable(inp, ZoneNames(host))
  }

  predicate Conflicts(m: Records, own: string, host: string, zone: string)
  {
    exists n :: n in m && n != own && m[n].managed && m[n].hostname == host && m[n].spec.zone == zone && m[n].managedBy != OURS
  }

  predicate Foreign(r: Record) { r.managedBy != "" && r.managedBy != OURS }

  function Written(g: Gateway, host: string, spec: RecordSpec, before: Option<Record>, now: int): Record
  {
    Record(OURS, true, "Gateway", g.name, g.namespace, host, if before.Some? then before.value.syncStart else now, spec)
  }

  datatype Outcome = Skipped | NotProgrammed | Conflict | Failed | Programmed

  /** Writes the record of a hostname whose zone is known, unless somebody else's record is in the way. */
  function Program(inp: Inputs, g: Gateway, m: Records, host: string, zone: string, now: int): (Records, Outcome)
    requires Usable(inp, zone)
  {
    var name := RecordName(inp, g.name, host);
    var spec := SpecFor(inp, g, host, zone);
    if Conflicts(m, name, host, spec.zone) then (m, Conflict)
    else if name in m && Foreign(m[name]) then (m, Failed)
    else (m[name := Written(g, host, spec, if name in m then Some(m[name]) else None, now)], Programmed)
  }

  function HostStep(inp: Inputs, g: Gateway, m: Records, host: string, now: int): (Records, Outcome)
  {
    var zone := ZoneFor(inp, g, host);
    if zone.Some? then Program(inp, g, m, host, zone.value, now)
    else (m, if host == g.canonical then Skipped else NotProgrammed)
  }

  // ----- The pass -----

  function Ensure(inp: Inputs, g: Gateway, m: Records, claimed: seq<string>, now: int): Records
  {
    if claimed == [] then m
    else HostStep(inp, g, Ensure(inp, g, m, claimed[..|claimed| - 1], now), claimed[|claimed| - 1], now).0
  }

  /** What each hostname's status reports. */
  function Outcomes(inp: Inputs, g: Gateway, m: Records, claimed: seq<string>, now: int): (os: seq<Outcome>)
    ensures |os| == |claimed|
  {
    if claimed == [] then []
    else
      var init := claimed[..|claimed| - 1];
      Outcomes(inp, g, m, init, now) + [HostStep(inp, g, Ensure(inp, g, m, init, now), claimed[|claimed| - 1], now).1]
  }

  function DesiredNames(inp: Inputs, g: Gateway, claimed: seq<string>): set<string>
  {
    set h | h in claimed && ZoneFor(inp, g, h).Some? :: RecordName(inp, g.name, h)
  }

  /** What garbage collection lists: this gateway's own records. */
  predicate OwnedBy(r: Record, g: Gateway)
  {
    r.managed && r.managedBy == OURS && r.sourceName == g.name && r.sourceNamespace == g.namespace
  }

  function Collect(g: Gateway, m: Records, desired: set<string>): Records
  {
    map n | n in m && !(OwnedBy(m[n], g) && n !in desired) :: m[n]
  }

  function Pass(inp: Inputs, g: Gateway, m: Records, claimed: seq<string>, now: int): Records
  {
    Collect(g, Ensure(inp, g, m, claimed, now), DesiredNames(inp, g, claimed))
  }

  class Namespace {
    var records: Records

    /** The conflict check: a loop over the listed records, in any order. */
    method HasConflict(own: string, host: string, zone: string) returns (found: bool)
      ensures found <==> Conflicts(records, own, host, zone)
    {
      var todo := records.Keys;
      while todo != {}
        invariant todo <= records.Keys
        invariant forall n :: n in records && n !in todo ==>
          !(n != own && records[n].managed && records[n].hostname == host && records[n].spec.zone == zone && records[n].managedBy != OURS)
        decreases |todo|
      {
        var n :| n in todo;
        todo := todo - {n};
        var r := records[n];
        if r.managed && n != own && r.hostname == host && r.spec.zone == zone && r.managedBy != OURS {
          return true;
        }
      }
      found := false;
    }

    method CreateOrUpdate(g: Gateway, name: string, host: string, spec: RecordSpec, now: int) returns (ok: bool)
      modifies this
      ensures ok == !(name in old(records) && Foreign(old(records)[name]))
      ensures records == if ok then old(records)[name := Written(g, host, spec, if name in old(records) then Some(old(records)[name]) else None, now)] else old(records)
    {
      var start := now;
      if name in records {
        var manager := records[name].managedBy;
        if manager != "" && manager != OURS {
          return false;
        }
        start := records[name].syncStart;
      }
      records := records[name := Record(OURS, true, "Gateway", g.name, g.namespace, host, start, spec)];
      ok := true;
    }

    method EnsureHost(inp: Inputs, g: Gateway, host: string, now: int) returns (desired: Option<string>, outcome: Outcome)
      modifies this
      ensures (records, outcome) == HostStep(inp, g, old(records), host, now)
      ensures desired == if ZoneFor(inp, g, host).Some? then Some(RecordName(inp, g.name, host)) else None
    {
      if host == g.canonical {
        return None, Skipped;
      }
      var names := PossibleZoneNames(host);
      var zone := MatchZone(inp, names);
      if zone.None? {
        return None, NotProgrammed;
      }
      var name := RecordName(inp, g.name, host);
      var spec := SpecFor(inp, g, host, zone.value);
      desired := Some(name);
      var conflict := HasConflict(name, host, spec.zone);
      if conflict {
        return desired, Conflict;
      }
      var ok := CreateOrUpdate(g, name, host, spec, now);
      outcome := if ok then Programmed else Failed;
    }

    method GarbageCollect(g: Gateway, desired: set<string>)
      modifies this
      ensures records == Collect(g, old(records), desired)
    {
      var todo := set n | n in records && OwnedBy(records[n], g);
      while todo != {}
        invariant todo <= records.Keys <= old(records).Keys
        invariant forall n :: n in records ==> records[n] == old(records)[n]
        invariant forall n :: n in todo ==> OwnedBy(old(records)[n], g)
        invariant forall n :: n in old(records) && n !in todo ==> (n in records <==> !(OwnedBy(old(records)[n], g) && n !in desired))
        decreases |todo|
      {
        var n :| n in todo;
        todo := todo - {n};
        if n !in desired {
          records := records - {n};
        }
      }
    }

    method EnsureAll(inp: Inputs, g: Gateway, claimed: seq<string>, now: int) returns (desired: set<string>, outcomes: seq<Outcome>)
      modifies this
      ensures records == Ensure(inp, g, old(records), claimed, now)
      ensures desired == DesiredNames(inp, g, claimed)
      ensures outcomes == Outcomes(inp, g, old(records), claimed, now)
    {
      desired, outcomes := {}, [];
      for i := 0 to |claimed|
        invariant records == Ensure(inp, g, old(records), claimed[..i], now)
        invariant desired == DesiredNames(inp, g, claimed[..i])
        invariant outcomes == Outcomes(inp, g, old(records), claimed[..i], now)
      {
        assert claimed[..i + 1][..i] == claimed[..i];
        EnsureLast(inp, g, old(records), claimed[..i + 1], now);
        OutcomesLast(inp, g, old(records), claimed[..i + 1], now);
        DesiredGrows(inp, g, claimed, i);
        var name, outcome := EnsureHost(inp, g, claimed[i], now);
        if name.Some? {
          desired := desired + {name.value};
        }
        outcomes := outcomes + [outcome];
      }
      assert claimed[..|claimed|] == claimed;
    }

    method EnsureDNSRecordSets(inp: Inputs, g: Gateway, claimed: seq<string>, now: int) returns (outcomes: seq<Outcome>)
      modifies this
      ensures records == Pass(inp, g, old(records), claimed, now)
      ensures outcomes == Outcomes(inp, g, old(records), claimed, now)
    {
      var desired;
      desired, outcomes := EnsureAll(inp, g, claimed, now);
      GarbageCollect(g, desired);
    }
  }

  lemma OutcomesLast(inp: Inputs, g: Gateway, m: Records, claimed: seq<string>, now: int)
    requires claimed != []
    ensures var init := claimed[..|claimed| - 1];
            Outcomes(inp, g, m, claimed, now) == Outcomes(inp, g, m, init, now) + [HostStep(inp, g, Ensure(inp, g, m, init, now), claimed[|claimed| - 1], now).1]
  {
  }

  lemma EnsureLast(inp: Inputs, g: Gateway, m: Records, claimed: seq<string>, now: int)
    requires claimed != []
    ensures Ensure(inp, g, m, claimed, now) == HostStep(inp, g, Ensure(inp, g, m, claimed[..|claimed| - 1], now), claimed[|claimed| - 1], now).0
  {
  }

  lemma DesiredGrows(inp: Inputs, g: Gateway, claimed: seq<string>, i: nat)
    requires i < |claimed|
    ensures DesiredNames(inp, g, claimed[..i + 1]) == DesiredNames(inp, g, claimed[..i]) + if ZoneFor(inp, g, claimed[i]).Some? then {RecordName(inp, g.name, claimed[i])} else {}
  {
    assert claimed[..i + 1] == claimed[..i] + [claimed[i]];
  }

  // ----- Whose records a pass touches -----

  /** After a pass a gateway owns no record but for its desired names. */
  lemma OwnRecordsAreDesired(inp: Inputs, g: Gateway, m: Records, claimed: seq<string>, now: int)
    ensures forall n :: n in Pass(inp, g, m, claimed, now) && OwnedBy(Pass(inp, g, m, claimed, now)[n], g) ==> n in DesiredNames(inp, g, claimed)
  {
  }

  /** A record that is neither the gateway's by name nor changeable stays as it is. */
  predicate Untouchable(n: string, r: Record, g: Gateway) { Foreign(r) || (r.managedBy == OURS && !NamedFor(n, g.name)) }

  lemma ProgramLeaves(inp: Inputs, g: Gateway, m: Records, host: string, zone: string, now: int, n: string)
    requires Usable(inp, zone) && GoodHash(inp.hash, host) && n in m && Untouchable(n, m[n], g)
    ensures n in Program(inp, g, m, host, zone, now).0 && Program(inp, g, m, host, zone, now).0[n] == m[n]
  {
    RecordNameIsNamedFor(inp, g.name, host);
  }

  lemma RecordNameIsNamedFor(inp: Inputs, gateway: string, host: string)
    requires GoodHash(inp.hash, host)
    ensures NamedFor(RecordName(inp, gateway, host), gateway)
  {
    assert RecordName(inp, gateway, host)[..|gateway|] == gateway;
  }

  lemma {:induction false} EnsureLeaves(inp: Inputs, g: Gateway, m: Records, claimed: seq<string>, now: int, n: string)
    requires HashesFit(inp) && n in m && Untouchable(n, m[n], g)
    ensures n in Ensure(inp, g, m, claimed, now) && Ensure(inp, g, m, claimed, now)[n] == m[n]
  {
    if claimed != [] {
      var init, host := claimed[..|claimed| - 1], claimed[|claimed| - 1];
      EnsureLeaves(inp, g, m, init, now, n);
      assert GoodHash(inp.hash, host);
      var zone := ZoneFor(inp, g, host);
      if zone.Some? { ProgramLeaves(inp, g, Ensure(inp, g, m, init, now), host, zone.value, now, n); }
    }
  }

  lemma ForeignRecordsStay(inp: Inputs, g: Gateway, m: Records, claimed: seq<string>, now: int, n: string)
    requires HashesFit(inp) && n in m && Foreign(m[n])
    ensures n in Pass(inp, g, m, claimed, now) && Pass(inp, g, m, claimed, now)[n] == m[n]
  {
    EnsureLeaves(inp, g, m, claimed, now, n);
  }

  /** Every record of the controller is named for the gateway in its label. */
  predicate WellNamed(m: Records)
  {
    forall n :: n in m && m[n].managedBy == OURS ==> NamedFor(n, m[n].sourceName)
  }

  lemma OtherGatewaysRecordsStay(inp: Inputs, g: Gateway, m: Records, claimed: seq<string>, now: int, n: string)
    requires HashesFit(inp) && WellNamed(m) && n in m && m[n].managedBy == OURS && m[n].sourceName != g.name
    ensures n in Pass(inp, g, m, claimed, now) && Pass(inp, g, m, claimed, now)[n] == m[n]
  {
    if NamedFor(n, g.name) { NamesTellGateways(n, g.name, m[n].sourceName); }
    EnsureLeaves(inp, g, m, claimed, now, n);
  }

  lemma ProgramKeepsNames(inp: Inputs, g: Gateway, m: Records, host: string, zone: string, now: int)
    requires Usable(inp, zone) && GoodHash(inp.hash, host) && WellNamed(m)
    ensures WellNamed(Program(inp, g, m, host, zone, now).0)
  {
    RecordNameIsNamedFor(inp, g.name, host);
  }

  lemma {:induction false} EnsureKeepsNames(inp: Inputs, g: Gateway, m: Records, claimed: seq<string>, now: int)
    requires HashesFit(inp) && WellNamed(m)
    ensures WellNamed(Ensure(inp, g, m, claimed, now))
  {
    if claimed != [] {
      var init, host := claimed[..|claimed| - 1], claimed[|claimed| - 1];
      EnsureKeepsNames(inp, g, m, init, now);
      assert GoodHash(inp.hash, host);
      var zone := ZoneFor(inp, g, host);
      if zone.Some? { ProgramKeepsNames(inp, g, Ensure(inp, g, m, init, now), host, zone.value, now); }
    }
  }
}
