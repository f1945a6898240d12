/** Domain names as dotted labels: Go's `strings.Split` and `strings.Join` at the dot, and which names
    enclose which.
 */
module DnsNames {

  function Split(s: string): (parts: seq<string>)
    ensures parts != []
  {
    if s == "" then [""]
    else
      var rest := Split(s[1..]);
      if s[0] == '.' then [""] + rest else [[s[0]] + rest[0]] + rest[1..]
  }

  function Join(parts: seq<string>): string
    requires parts != []
  {
    if |parts| == 1 then parts[0] else parts[0] + "." + Join(parts[1..])
  }

  lemma {:induction false} JoinSplit(s: string)
    ensures Join(Split(s)) == s
  {
    if s != "" {
      JoinSplit(s[1..]);
      var rest := Split(s[1..]);
      if s[0] == '.' {
        assert ([""] + rest)[1..] == rest;
      } else {
        var parts := [[s[0]] + rest[0]] + rest[1..];
        assert parts[1..] == rest[1..];
        assert Join(parts) == [s[0]] + Join(rest);
      }
    }
  }

  lemma SplitAt(c: char, s: string)
    ensures Split([c] + s) == if c == '.' then [""] + Split(s) else [[c] + Split(s)[0]] + Split(s)[1..]
  {
    assert ([c] + s)[1..] == s;
  }

  predicate Within(host: string, zone: string)
  {
    host == zone || (|zone| < |host| && host[|host| - |zone|..] == zone && host[|host| - |zone| - 1] == '.')
  }

  lemma {:induction false} SuffixesAreWithin(parts: seq<string>, i: nat)
    requires i < |parts|
    ensures Within(Join(parts), Join(parts[i..]))
    ensures i > 0 ==> |Join(parts[i..])| < |Join(parts)|
  {
    if i > 0 {
      SuffixesAreWithin(parts[1..], i - 1);
      assert parts[1..][i - 1..] == parts[i..];
      var whole, tail, zone := Join(parts), Join(parts[1..]), Join(parts[i..]);
      assert whole == parts[0] + "." + tail;
      assert whole[|whole| - |tail|..] == tail;
      assert whole[|whole| - |zone|..] == tail[|tail| - |zone|..];
    } else {
      assert parts[0..] == parts;
    }
  }

  // ----- Enclosing names, label by label -----

  lemma {:induction false} LabelsHaveNoDots(s: string)
    ensures forall l :: l in Split(s) ==> '.' !in l
  {
    if s != "" { LabelsHaveNoDots(s[1..]); }
  }

  lemma {:induction false} SplitConcat(a: string, b: string)
    ensures Split(a + "." + b) == Split(a) + Split(b)
  {
    if a == "" {
      assert a + "." + b == ['.'] + b;
      SplitAt('.', b);
    } else {
      SplitConcat(a[1..], b);
      assert a + "." + b == [a[0]] + (a[1..] + "." + b);
      SplitAt(a[0], a[1..] + "." + b);
    }
  }

  lemma {:induction false} JoinConcat(p: seq<string>, q: seq<string>)
    requires p != [] && q != []
    ensures Join(p + q) == Join(p) + "." + Join(q)
  {
    if |p| == 1 {
      assert (p + q)[1..] == q;
    } else {
      JoinConcat(p[1..], q);
      assert (p + q)[1..] == p[1..] + q;
    }
  }

  lemma {:induction false} SplitLabel(l: string)
    requires '.' !in l
    ensures Split(l) == [l]
  {
    if l != "" {
      SplitLabel(l[1..]);
      assert [l[0]] + l[1..] == l;
    }
  }

  lemma {:induction false} SplitJoin(parts: seq<string>)
    requires parts != [] && forall l :: l in parts ==> '.' !in l
    ensures Split(Join(parts)) == parts
  {
    SplitLabel(parts[0]);
    if |parts| > 1 {
      SplitJoin(parts[1..]);
      SplitConcat(parts[0], Join(parts[1..]));
      assert [parts[0]] + parts[1..] == parts;
    }
  }

  /** The labels of the zone are the last labels of the host. */
  predicate Encloses(zone: string, host: string)
  {
    var z, h := Split(zone), Split(host);
    |z| <= |h| && h[|h| - |z|..] == z
  }

  /** A name is the host or follows a dot in it exactly when its labels are the host's last ones. */
  lemma WithinIsByLabels(host: string, zone: string)
    ensures Within(host, zone) <==> Encloses(zone, host)
  {
    var z, h := Split(zone), Split(host);
    if Within(host, zone) && host != zone {
      var front := host[..|host| - |zone| - 1];
      assert host == front + "." + zone;
      SplitConcat(front, zone);
    }
    if Encloses(zone, host) {
      JoinSplit(zone);
      JoinSplit(host);
      if |z| < |h| {
        var front := h[..|h| - |z|];
        assert h == front + z;
        JoinConcat(front, z);
        assert host == Join(front) + "." + zone;
      } else {
        assert h == z;
      }
    }
  }

  lemma {:induction false} JoinedLabels(name: string, parts: seq<string>)
    requires parts != [] && forall l :: l in parts ==> '.' !in l
    ensures name == Join(parts) <==> Split(name) == parts
  {
    SplitJoin(parts);
    JoinSplit(name);
  }

  lemma TailByLength(h: seq<string>, z: seq<string>, k: nat)
    requires k <= |h|
    ensures |z| <= |h| && h[|h| - |z|..] == z && |z| == k <==> z == h[|h| - k..]
  {
  }

  /** The name of the last `k` labels of a host. */
  lemma LastLabels(host: string, name: string, k: nat)
    requires 0 < k <= |Split(host)|
    ensures name == Join(Split(host)[|Split(host)| - k..]) <==> Encloses(name, host) && |Split(name)| == k
  {
    LabelsHaveNoDots(host);
    TailByLength(Split(host), Split(name), k);
    JoinedLabels(name, Split(host)[|Split(host)| - k..]);
  }
}
