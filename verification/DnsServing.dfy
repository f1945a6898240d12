/** What a DNS pass of internal/controller/gateway_dns_controller.go leaves programmed.

    Two hostnames whose truncated hashes agree share a record name, so a later one takes the record of
    an earlier one although both are reported programmed. `ProgrammedIsServed` says exactly when, by
    the records there before the pass; `RightTypeExactlyWhenMarked` says when the record type is the
    promised one.
 */
module DnsServing {
  import opened Ordering
  import opened DnsNames
  import opened DnsRecordSets

  // ----- What a pass programs -----

  /** `x` is the name `s` with its final dot. */
  predicate Absolute(x: string, s: string)
  {
    x != "" && x[|x| - 1] == '.' && (x == s || (x == s + "." && (s == "" || s[|s| - 1] != '.')))
  }

  /** The hostname's record is there, labelled as the gateway's, in the chosen zone's object, and points the
      hostname at the gateway's canonical hostname. */
  predicate ServesIn(inp: Inputs, g: Gateway, m: Records, host: string, zone: string)
    requires Usable(inp, zone)
  {
    var name := g.name + "-" + inp.hash(host);
    && name in m
    && var r := m[name];
    && r.managed && r.managedBy == "networking.datumapis.com" && r.sourceKind == "Gateway" && r.sourceName == g.name && r.sourceNamespace == g.namespace
    && r.hostname == host && Absolute(r.spec.owner, host) && Absolute(r.spec.target, g.canonical)
    && r.spec.zone == FindZone(inp.zones, zone).value.name && r.spec.alias == FindDomain(inp.domains, zone).value.apex
  }

  predicate Serves(inp: Inputs, g: Gateway, m: Records, host: string)
  {
    var zone := ZoneFor(inp, g, host);
    zone.Some? && ServesIn(inp, g, m, host, zone.value)
  }

  /** Programming a hostname writes at most its own record name. */
  lemma ProgramWrites(inp: Inputs, g: Gateway, m: Records, host: string, zone: string, now: int)
    requires Usable(inp, zone)
    ensures var (next, outcome) := Program(inp, g, m, host, zone, now);
            && (outcome != Programmed ==> next == m)
            && (outcome == Programmed ==> ServesIn(inp, g, next, host, zone))
            && (forall n :: n != RecordName(inp, g.name, host) && n in m ==> n in next && next[n] == m[n])
  {
  }

  lemma RecordNamesDiffer(inp: Inputs, gateway: string, a: string, b: string)
    requires inp.hash(a) != inp.hash(b)
    ensures RecordName(inp, gateway, a) != RecordName(inp, gateway, b)
  {
    assert RecordName(inp, gateway, a)[|gateway| + 1..] == inp.hash(a);
    assert RecordName(inp, gateway, b)[|gateway| + 1..] == inp.hash(b);
  }

  lemma ProgramKeepsServing(inp: Inputs, g: Gateway, m: Records, host: string, zone: string, other: string, otherZone: string, now: int)
    requires Usable(inp, zone) && Usable(inp, otherZone) && ServesIn(inp, g, m, host, zone)
    requires (host == other ==> zone == otherZone) && (inp.hash(host) == inp.hash(other) ==> host == other)
    ensures ServesIn(inp, g, Program(inp, g, m, other, otherZone, now).0, host, zone)
  {
    ProgramWrites(inp, g, m, other, otherZone, now);
    if host != other { RecordNamesDiffer(inp, g.name, host, other); }
  }

  lemma HostStepKeepsServing(inp: Inputs, g: Gateway, m: Records, host: string, other: string, now: int)
    requires Serves(inp, g, m, host)
    requires HostStep(inp, g, m, other, now).1 == Programmed && inp.hash(host) == inp.hash(other) ==> host == other
    ensures Serves(inp, g, HostStep(inp, g, m, other, now).0, host)
  {
    var zone, otherZone := ZoneFor(inp, g, host), ZoneFor(inp, g, other);
    if otherZone.Some? {
      if HostStep(inp, g, m, other, now).1 == Programmed {
        ProgramKeepsServing(inp, g, m, host, zone.value, other, otherZone.value, now);
      } else {
        ProgramWrites(inp, g, m, other, otherZone.value, now);
      }
    }
  }

  lemma ProgrammedServes(inp: Inputs, g: Gateway, m: Records, host: string, now: int)
    requires HostStep(inp, g, m, host, now).1 == Programmed
    ensures Serves(inp, g, HostStep(inp, g, m, host, now).0, host)
  {
    ProgramWrites(inp, g, m, host, ZoneFor(inp, g, host).value, now);
  }

  /** A later hostname that is programmed too and shares the record name. */
  predicate OverwrittenBy(inp: Inputs, g: Gateway, m: Records, claimed: seq<string>, now: int, k: nat, j: nat)
    requires k < |claimed| && j < |claimed|
  {
    k < j && Outcomes(inp, g, m, claimed, now)[j] == Programmed && inp.hash(claimed[k]) == inp.hash(claimed[j]) && claimed[k] != claimed[j]
  }

  ghost predicate Overwritten(inp: Inputs, g: Gateway, m: Records, claimed: seq<string>, now: int, k: nat)
    requires k < |claimed|
  {
    exists j: nat :: j < |claimed| && OverwrittenBy(inp, g, m, claimed, now, k, j)
  }

  lemma ServingStep(inp: Inputs, g: Gateway, m: Records, claimed: seq<string>, host: string, now: int)
    requires claimed != [] && Serves(inp, g, Ensure(inp, g, m, claimed[..|claimed| - 1], now), host)
    requires Outcomes(inp, g, m, claimed, now)[|claimed| - 1] == Programmed && inp.hash(host) == inp.hash(claimed[|claimed| - 1])
             ==> host == claimed[|claimed| - 1]
    ensures Serves(inp, g, Ensure(inp, g, m, claimed, now), host)
  {
    OutcomesLast(inp, g, m, claimed, now);
    EnsureLast(inp, g, m, claimed, now);
    HostStepKeepsServing(inp, g, Ensure(inp, g, m, claimed[..|claimed| - 1], now), host, claimed[|claimed| - 1], now);
  }

  lemma LastServes(inp: Inputs, g: Gateway, m: Records, claimed: seq<string>, now: int)
    requires claimed != [] && Outcomes(inp, g, m, claimed, now)[|claimed| - 1] == Programmed
    ensures Serves(inp, g, Ensure(inp, g, m, claimed, now), claimed[|claimed| - 1])
  {
    OutcomesLast(inp, g, m, claimed, now);
    EnsureLast(inp, g, m, claimed, now);
    ProgrammedServes(inp, g, Ensure(inp, g, m, claimed[..|claimed| - 1], now), claimed[|claimed| - 1], now);
  }

  lemma InitIsNotOverwritten(inp: Inputs, g: Gateway, m: Records, claimed: seq<string>, k: nat, now: int)
    requires k < |claimed| - 1 && !Overwritten(inp, g, m, claimed, now, k) && Outcomes(inp, g, m, claimed, now)[k] == Programmed
    ensures var init := claimed[..|claimed| - 1];
            !Overwritten(inp, g, m, init, now, k) && Outcomes(inp, g, m, init, now)[k] == Programmed
    ensures !OverwrittenBy(inp, g, m, claimed, now, k, |claimed| - 1)
  {
    var init := claimed[..|claimed| - 1];
    OutcomesLast(inp, g, m, claimed, now);
    forall j: nat | j < |init| ensures !OverwrittenBy(inp, g, m, init, now, k, j) {
      assert !OverwrittenBy(inp, g, m, claimed, now, k, j);
    }
  }

  lemma {:induction false} ServingLasts(inp: Inputs, g: Gateway, m: Records, claimed: seq<string>, k: nat, now: int)
    requires k < |claimed| && !Overwritten(inp, g, m, claimed, now, k) && Outcomes(inp, g, m, claimed, now)[k] == Programmed
    ensures Serves(inp, g, Ensure(inp, g, m, claimed, now), claimed[k])
    decreases |claimed|
  {
    var n := |claimed| - 1;
    if k == n {
      LastServes(inp, g, m, claimed, now);
    } else {
      InitIsNotOverwritten(inp, g, m, claimed, k, now);
      ServingLasts(inp, g, m, claimed[..n], k, now);
      ServingStep(inp, g, m, claimed, claimed[k], now);
    }
  }

  lemma CollectKeepsServing(inp: Inputs, g: Gateway, m: Records, claimed: seq<string>, host: string)
    requires host in claimed
    ensures Serves(inp, g, Collect(g, m, DesiredNames(inp, g, claimed)), host) <==> Serves(inp, g, m, host)
  {
  }

  /** The last hostname to overwrite one is itself not overwritten. */
  lemma {:induction false} LastOverwriter(inp: Inputs, g: Gateway, m: Records, claimed: seq<string>, k: nat, j: nat, now: int) returns (i: nat)
    requires k < |claimed| && j < |claimed| && OverwrittenBy(inp, g, m, claimed, now, k, j) && NoDuplicates(claimed)
    ensures i < |claimed| && OverwrittenBy(inp, g, m, claimed, now, k, i) && !Overwritten(inp, g, m, claimed, now, i)
    decreases |claimed| - j
  {
    if Overwritten(inp, g, m, claimed, now, j) {
      var l: nat :| l < |claimed| && OverwrittenBy(inp, g, m, claimed, now, j, l);
      i := LastOverwriter(inp, g, m, claimed, k, l, now);
    } else {
      i := j;
    }
  }

  // ----- The outcomes, by the records there before the pass -----

  /** A zone is chosen for the hostname and nobody else's record serves it there. */
  predicate Programmable(inp: Inputs, g: Gateway, m: Records, host: string)
  {
    var zone := ZoneFor(inp, g, host);
    && zone.Some?
    && forall n :: n in m && n != g.name + "-" + inp.hash(host) && m[n].managed && m[n].hostname == host ==>
         m[n].spec.zone != FindZone(inp.zones, zone.value).value.name || m[n].managedBy == "networking.datumapis.com"
  }

  /** A later hostname that shares the record name of hostname `k` and can be programmed. */
  predicate Collides(inp: Inputs, g: Gateway, m: Records, claimed: seq<string>, k: nat, j: nat)
    requires k < |claimed| && j < |claimed|
  {
    k < j && inp.hash(claimed[k]) == inp.hash(claimed[j]) && claimed[k] != claimed[j] && Programmable(inp, g, m, claimed[j])
  }

  ghost predicate CollidesLater(inp: Inputs, g: Gateway, m: Records, claimed: seq<string>, k: nat)
    requires k < |claimed|
  {
    exists j: nat :: j < |claimed| && Collides(inp, g, m, claimed, k, j)
  }

  /** Every record in the conflict listing says who manages it. */
  predicate Labelled(m: Records) { forall n :: n in m && m[n].managed ==> m[n].managedBy != "" }

  /** No unlabelled record under one claimed hostname's record name speaks for another claimed hostname. */
  predicate Orderly(inp: Inputs, g: Gateway, m: Records, claimed: seq<string>)
  {
    forall i :: 0 <= i < |claimed| ==> SpeaksForItself(inp, g, m, claimed, RecordName(inp, g.name, claimed[i]))
  }

  predicate SpeaksForItself(inp: Inputs, g: Gateway, m: Records, claimed: seq<string>, n: string)
  {
    n in m && m[n].managed && m[n].managedBy == "" && m[n].hostname in claimed ==> RecordName(inp, g.name, m[n].hostname) == n
  }

  lemma LabelledIsOrderly(inp: Inputs, g: Gateway, m: Records, claimed: seq<string>)
    requires Labelled(m)
    ensures Orderly(inp, g, m, claimed)
  {
  }

  /** What writing the claimed hostnames' records can do to one record. */
  predicate KeptOrTaken(inp: Inputs, g: Gateway, m: Records, e: Records, claimed: seq<string>, n: string)
  {
    && (n in m ==> n in e)
    && (n in e ==> e[n].managedBy == OURS || (n in m && e[n] == m[n]))
    && (n in m && e[n] != m[n] ==> !Foreign(m[n]) && exists i :: 0 <= i < |claimed| && n == RecordName(inp, g.name, claimed[i]))
  }

  lemma HostStepKeepsOrTakes(inp: Inputs, g: Gateway, m: Records, e: Records, claimed: seq<string>, i: nat, now: int, n: string)
    requires i < |claimed| && KeptOrTaken(inp, g, m, e, claimed, n)
    ensures KeptOrTaken(inp, g, m, HostStep(inp, g, e, claimed[i], now).0, claimed, n)
  {
    var zone := ZoneFor(inp, g, claimed[i]);
    if zone.Some? { ProgramWrites(inp, g, e, claimed[i], zone.value, now); }
  }

  lemma {:induction false} EnsureKeepsOrTakes(inp: Inputs, g: Gateway, m: Records, claimed: seq<string>, i: nat, now: int, n: string)
    requires i <= |claimed|
    ensures KeptOrTaken(inp, g, m, Ensure(inp, g, m, claimed[..i], now), claimed, n)
  {
    if i > 0 {
      EnsureKeepsOrTakes(inp, g, m, claimed, i - 1, now, n);
      assert claimed[..i][..i - 1] == claimed[..i - 1];
      EnsureLast(inp, g, m, claimed[..i], now);
      HostStepKeepsOrTakes(inp, g, m, Ensure(inp, g, m, claimed[..i - 1], now), claimed, i - 1, now, n);
    }
  }

  /** The conflict check finds during the pass what it would have found before it. */
  lemma ConflictsAreKept(inp: Inputs, g: Gateway, m: Records, e: Records, claimed: seq<string>, host: string, zone: string)
    requires Orderly(inp, g, m, claimed) && host in claimed && forall n :: KeptOrTaken(inp, g, m, e, claimed, n)
    ensures Conflicts(e, RecordName(inp, g.name, host), host, zone) <==> Conflicts(m, RecordName(inp, g.name, host), host, zone)
  {
    var own := RecordName(inp, g.name, host);
    if Conflicts(m, own, host, zone) {
      var n :| n in m && n != own && m[n].managed && m[n].hostname == host && m[n].spec.zone == zone && m[n].managedBy != OURS;
      assert KeptOrTaken(inp, g, m, e, claimed, n);
      assert n in e && e[n] == m[n];
    }
    if Conflicts(e, own, host, zone) {
      var n :| n in e && n != own && e[n].managed && e[n].hostname == host && e[n].spec.zone == zone && e[n].managedBy != OURS;
      assert KeptOrTaken(inp, g, m, e, claimed, n);
    }
  }

  lemma {:induction false} OutcomeAt(inp: Inputs, g: Gateway, m: Records, claimed: seq<string>, k: nat, now: int)
    requires k < |claimed|
    ensures Outcomes(inp, g, m, claimed, now)[k] == HostStep(inp, g, Ensure(inp, g, m, claimed[..k], now), claimed[k], now).1
  {
    var n := |claimed| - 1;
    var init, last := claimed[..n], HostStep(inp, g, Ensure(inp, g, m, claimed[..n], now), claimed[n], now).1;
    assert Outcomes(inp, g, m, claimed, now) == Outcomes(inp, g, m, init, now) + [last] by { OutcomesLast(inp, g, m, claimed, now); }
    if k < n {
      assert init[..k] == claimed[..k] && init[k] == claimed[k];
      OutcomeAt(inp, g, m, init, k, now);
    }
  }

  /** A claimed hostname is reported programmed if and only if, before the pass, it was programmable and
      its record name was not in foreign hands. */
  lemma ProgrammedExactlyWhen(inp: Inputs, g: Gateway, m: Records, claimed: seq<string>, k: nat, now: int)
    requires k < |claimed| && Orderly(inp, g, m, claimed)
    ensures var name := g.name + "-" + inp.hash(claimed[k]);
            Outcomes(inp, g, m, claimed, now)[k] == Programmed <==>
            Programmable(inp, g, m, claimed[k]) && (name in m ==> m[name].managedBy in ["", "networking.datumapis.com"])
  {
    var e, host := Ensure(inp, g, m, claimed[..k], now), claimed[k];
    OutcomeAt(inp, g, m, claimed, k, now);
    forall n ensures KeptOrTaken(inp, g, m, e, claimed, n) { EnsureKeepsOrTakes(inp, g, m, claimed, k, now, n); }
    assert KeptOrTaken(inp, g, m, e, claimed, RecordName(inp, g.name, host));
    var zone := ZoneFor(inp, g, host);
    if zone.Some? { ConflictsAreKept(inp, g, m, e, claimed, host, SpecFor(inp, g, host, zone.value).zone); }
  }

  /** Every outcome, by the records there before the pass: the canonical hostname is skipped, a hostname without a zone is
      not programmed, another owner's record for it is a conflict, a record name in foreign hands a failure. */
  lemma OutcomesSay(inp: Inputs, g: Gateway, m: Records, claimed: seq<string>, k: nat, now: int)
    requires k < |claimed| && Orderly(inp, g, m, claimed)
    ensures var name := g.name + "-" + inp.hash(claimed[k]);
            Outcomes(inp, g, m, claimed, now)[k] ==
            (if claimed[k] == g.canonical then Skipped
             else if ZoneFor(inp, g, claimed[k]).None? then NotProgrammed
             else if !Programmable(inp, g, m, claimed[k]) then Conflict
             else if name in m && m[name].managedBy !in ["", "networking.datumapis.com"] then Failed
             else Programmed)
  {
    var e, host := Ensure(inp, g, m, claimed[..k], now), claimed[k];
    OutcomeAt(inp, g, m, claimed, k, now);
    forall n ensures KeptOrTaken(inp, g, m, e, claimed, n) { EnsureKeepsOrTakes(inp, g, m, claimed, k, now, n); }
    assert KeptOrTaken(inp, g, m, e, claimed, RecordName(inp, g.name, host));
    var zone := ZoneFor(inp, g, host);
    if zone.Some? { ConflictsAreKept(inp, g, m, e, claimed, host, SpecFor(inp, g, host, zone.value).zone); }
  }

  lemma OverwrittenExactlyWhenCollides(inp: Inputs, g: Gateway, m: Records, claimed: seq<string>, k: nat, j: nat, now: int)
    requires k < |claimed| && j < |claimed| && Orderly(inp, g, m, claimed) && Outcomes(inp, g, m, claimed, now)[k] == Programmed
    ensures OverwrittenBy(inp, g, m, claimed, now, k, j) <==> Collides(inp, g, m, claimed, k, j)
  {
    ProgrammedExactlyWhen(inp, g, m, claimed, k, now);
    ProgrammedExactlyWhen(inp, g, m, claimed, j, now);
  }

  lemma OverwrittenIsCollision(inp: Inputs, g: Gateway, m: Records, claimed: seq<string>, k: nat, now: int)
    requires k < |claimed| && Orderly(inp, g, m, claimed) && Outcomes(inp, g, m, claimed, now)[k] == Programmed
    ensures Overwritten(inp, g, m, claimed, now, k) <==> CollidesLater(inp, g, m, claimed, k)
  {
    forall j: nat | j < |claimed| ensures OverwrittenBy(inp, g, m, claimed, now, k, j) <==> Collides(inp, g, m, claimed, k, j) {
      OverwrittenExactlyWhenCollides(inp, g, m, claimed, k, j, now);
    }
  }

  lemma ServedUnlessOverwritten(inp: Inputs, g: Gateway, m: Records, claimed: seq<string>, k: nat, now: int)
    requires k < |claimed| && NoDuplicates(claimed) && Outcomes(inp, g, m, claimed, now)[k] == Programmed
    ensures Serves(inp, g, Pass(inp, g, m, claimed, now), claimed[k]) <==> !Overwritten(inp, g, m, claimed, now, k)
  {
    assert claimed[k] in claimed;
    CollectKeepsServing(inp, g, Ensure(inp, g, m, claimed, now), claimed, claimed[k]);
    if !Overwritten(inp, g, m, claimed, now, k) {
      ServingLasts(inp, g, m, claimed, k, now);
    } else {
      var j: nat :| j < |claimed| && OverwrittenBy(inp, g, m, claimed, now, k, j);
      var i := LastOverwriter(inp, g, m, claimed, k, j, now);
      ServingLasts(inp, g, m, claimed, i, now);
    }
  }

  /** A hostname reported programmed has its record, in the zone chosen for it, when the pass is over, if
      and only if no later hostname with the same truncated hash was programmed over it; and, unless an
      unlabelled record speaks for somebody else, that is if and only if none was programmable. */
  lemma ProgrammedIsServed(inp: Inputs, g: Gateway, m: Records, claimed: seq<string>, k: nat, now: int)
    requires k < |claimed| && NoDuplicates(claimed) && Outcomes(inp, g, m, claimed, now)[k] == Programmed
    ensures Serves(inp, g, Pass(inp, g, m, claimed, now), claimed[k]) <==> !Overwritten(inp, g, m, claimed, now, k)
    ensures Orderly(inp, g, m, claimed) ==>
      (Serves(inp, g, Pass(inp, g, m, claimed, now), claimed[k]) <==> !CollidesLater(inp, g, m, claimed, k))
  {
    ServedUnlessOverwritten(inp, g, m, claimed, k, now);
    if Orderly(inp, g, m, claimed) { OverwrittenIsCollision(inp, g, m, claimed, k, now); }
  }

  /** Said of the inputs alone: a hostname is served after a pass over its gateway's hostnames if it was
      programmable, its name was not in foreign hands, and no later hostname collides with it. */
  lemma ServedByInputs(inp: Inputs, g: Gateway, m: Records, claimed: seq<string>, k: nat, now: int)
    requires k < |claimed| && NoDuplicates(claimed) && Orderly(inp, g, m, claimed) && Programmable(inp, g, m, claimed[k])
    requires var name := g.name + "-" + inp.hash(claimed[k]); name in m ==> m[name].managedBy in ["", "networking.datumapis.com"]
    ensures Serves(inp, g, Pass(inp, g, m, claimed, now), claimed[k]) <==> !CollidesLater(inp, g, m, claimed, k)
  {
    ProgrammedExactlyWhen(inp, g, m, claimed, k, now);
    ProgrammedIsServed(inp, g, m, claimed, k, now);
  }

  // ----- The type of a record -----

  /** A hostname that is usable as a zone itself is its own zone exactly when it has two labels: an apex of
      three labels, such as one under co.uk, is never served from its own zone. */
  lemma OwnZoneExactlyWithTwoLabels(inp: Inputs, g: Gateway, host: string)
    requires Usable(inp, host) && host != g.canonical
    ensures ZoneFor(inp, g, host) == Some(host) <==> |Split(host)| == 2
  {
    var zone := ZoneFor(inp, g, host);
    if zone.Some? { OwnZoneHasTwoLabels(inp, g, host); }
    if |Split(host)| == 2 { assert host in ZoneNames(host); }
  }

  /** The zone of a hostname is the hostname itself exactly when it has two labels. */
  lemma OwnZoneHasTwoLabels(inp: Inputs, g: Gateway, host: string)
    requires ZoneFor(inp, g, host).Some?
    ensures ZoneFor(inp, g, host).value == host <==> |Split(host)| == 2
  {
    var zone := ZoneFor(inp, g, host).value;
    if |Split(host)| > 2 { TailsAreProper(host, zone); }
  }

  lemma TailsAreProper(host: string, zone: string)
    requires |Split(host)| > 2 && zone in Tails(Split(host))
    ensures |zone| < |host|
  {
    JoinSplit(host);
    var i :| 0 <= i < |Split(host)| - 2 && zone == Tails(Split(host))[i];
    SuffixesAreWithin(Split(host), i + 1);
  }

  /** A record that serves its hostname after the pass is an ALIAS for the zone apex and a CNAME
      otherwise, as promised, if and only if the Domain of the chosen zone is marked apex just when the
      hostname is that zone. */
  lemma RightTypeExactlyWhenMarked(inp: Inputs, g: Gateway, m: Records, claimed: seq<string>, k: nat, now: int)
    requires k < |claimed| && NoDuplicates(claimed) && Outcomes(inp, g, m, claimed, now)[k] == Programmed
    ensures var host := claimed[k];
            var after, name, zone := Pass(inp, g, m, claimed, now), RecordName(inp, g.name, host), ZoneFor(inp, g, host);
            && zone.Some? && (host == zone.value <==> |Split(host)| == 2)
            && (Orderly(inp, g, m, claimed) ==> (Serves(inp, g, after, host) <==> !CollidesLater(inp, g, m, claimed, k)))
            && (Serves(inp, g, after, host) ==>
                  ((after[name].spec.alias <==> host == zone.value) <==> (FindDomain(inp.domains, zone.value).value.apex <==> host == zone.value)))
  {
    OutcomeAt(inp, g, m, claimed, k, now);
    ProgrammedIsServed(inp, g, m, claimed, k, now);
    OwnZoneHasTwoLabels(inp, g, claimed[k]);
  }

  /** So every served hostname of three labels or more under a Domain marked apex has an ALIAS. */
  lemma SubdomainOfApexGetsAlias(inp: Inputs, g: Gateway, m: Records, claimed: seq<string>, k: nat, now: int)
    requires k < |claimed| && NoDuplicates(claimed) && Outcomes(inp, g, m, claimed, now)[k] == Programmed
    requires Serves(inp, g, Pass(inp, g, m, claimed, now), claimed[k])
    requires |Split(claimed[k])| > 2 && FindDomain(inp.domains, ZoneFor(inp, g, claimed[k]).value).value.apex
    ensures Pass(inp, g, m, claimed, now)[RecordName(inp, g.name, claimed[k])].spec.alias && ZoneFor(inp, g, claimed[k]).value != claimed[k]
  {
    RightTypeExactlyWhenMarked(inp, g, m, claimed, k, now);
  }

  // ----- Inputs that show both -----

  const SUBDOMAIN := Inputs([Domain("b.c", true, true)], [Zone("zone", "b.c")], (d, z) => true, h => "01234567")

  lemma SplitOf(x: char)
    requires x != '.'
    ensures Split([x] + ".b.c") == [[x], "b", "c"]
  {
    var c, b := ["c"], ["b", "c"];
    SplitAt('c', "");
    assert ['c'] + "" == "c" && Split("c") == c;
    SplitAt('.', "c");
    assert ['.'] + "c" == ".c" && Split(".c") == ["", "c"];
    SplitAt('b', ".c");
    assert ['b'] + ".c" == "b.c" && ['b'] + "" == "b" && ["", "c"][1..] == c && Split("b.c") == b;
    SplitAt('.', "b.c");
    assert ['.'] + "b.c" == ".b.c" && Split(".b.c") == ["", "b", "c"];
    SplitAt(x, ".b.c");
    assert [x] + "" == [x] && ["", "b", "c"][1..] == b;
  }

  lemma ZoneOf(x: char, g: Gateway)
    requires x != '.' && g.canonical != [x] + ".b.c"
    ensures |Split([x] + ".b.c")| == 3 && ZoneFor(SUBDOMAIN, g, [x] + ".b.c") == Some("b.c")
  {
    SplitOf(x);
    var parts := [[x], "b", "c"];
    assert parts[1..] == ["b", "c"] && ["b", "c"][1..] == ["c"];
    assert Join(["b", "c"]) == "b" + "." + Join(["c"]) == "b.c";
    assert Tails(parts) == ["b.c"];
    assert Usable(SUBDOMAIN, "b.c");
    assert FirstUsable(SUBDOMAIN, ["b.c"]) == Some("b.c");
  }

  /** Over an empty store every hostname with a zone is programmed. */
  lemma NothingInTheWay(inp: Inputs, g: Gateway, claimed: seq<string>, k: nat, now: int)
    requires k < |claimed| && ZoneFor(inp, g, claimed[k]).Some?
    ensures Outcomes(inp, g, map[], claimed, now)[k] == Programmed && Programmable(inp, g, map[], claimed[k]) && Orderly(inp, g, map[], claimed)
  {
    ProgrammedExactlyWhen(inp, g, map[], claimed, k, now);
  }

  /** For example a.b.c under the apex Domain b.c. */
  lemma SubdomainGetsAlias(g: Gateway, now: int)
    requires g.canonical != "a.b.c"
    ensures Outcomes(SUBDOMAIN, g, map[], ["a.b.c"], now) == [Programmed]
    ensures var name := RecordName(SUBDOMAIN, g.name, "a.b.c");
            name in Pass(SUBDOMAIN, g, map[], ["a.b.c"], now) && Pass(SUBDOMAIN, g, map[], ["a.b.c"], now)[name].spec.alias
  {
    assert "a" + ".b.c" == "a.b.c";
    ZoneOf('a', g);
    NothingInTheWay(SUBDOMAIN, g, ["a.b.c"], 0, now);
    ServedByInputs(SUBDOMAIN, g, map[], ["a.b.c"], 0, now);
    SubdomainOfApexGetsAlias(SUBDOMAIN, g, map[], ["a.b.c"], 0, now);
  }

  lemma SecondTakesRecord(inp: Inputs, g: Gateway, a: string, b: string, now: int)
    requires a != b && inp.hash(a) == inp.hash(b) && ZoneFor(inp, g, a).Some? && ZoneFor(inp, g, b).Some?
    ensures var after := Pass(inp, g, map[], [a, b], now);
            && Outcomes(inp, g, map[], [a, b], now) == [Programmed, Programmed]
            && !Serves(inp, g, after, a) && Serves(inp, g, after, b)
  {
    var claimed := [a, b];
    NothingInTheWay(inp, g, claimed, 0, now);
    NothingInTheWay(inp, g, claimed, 1, now);
    assert Collides(inp, g, map[], claimed, 0, 1);
    ServedByInputs(inp, g, map[], claimed, 0, now);
    ServedByInputs(inp, g, map[], claimed, 1, now);
  }

  /** Two hostnames with one truncated hash: both are reported programmed, only the second has its record. */
  lemma CollisionLosesRecord(g: Gateway, now: int)
    requires g.canonical != "a.b.c" && g.canonical != "d.b.c"
    ensures var after := Pass(SUBDOMAIN, g, map[], ["a.b.c", "d.b.c"], now);
            && Outcomes(SUBDOMAIN, g, map[], ["a.b.c", "d.b.c"], now) == [Programmed, Programmed]
            && !Serves(SUBDOMAIN, g, after, "a.b.c") && Serves(SUBDOMAIN, g, after, "d.b.c")
  {
    assert "a" + ".b.c" == "a.b.c" && "d" + ".b.c" == "d.b.c" && "a.b.c"[0] != "d.b.c"[0];
    ZoneOf('a', g);
    ZoneOf('d', g);
    SecondTakesRecord(SUBDOMAIN, g, "a.b.c", "d.b.c", now);
  }
}
