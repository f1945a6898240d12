/** How downstream objects name their upstream owner: the cluster label of
    internal/downstreamclient/mappednamespace.go and the `cluster/namespace/name` owner reference of
    internal/controller/gateway_controller.go, with what each can and cannot tell apart.
 */
module OwnerNames {

  function Replace(s: string, from: char, to: char): (r: string)
    ensures |r| == |s|
    ensures forall i :: 0 <= i < |s| ==> r[i] == if s[i] == from then to else s[i]
  {
    seq(|s|, i requires 0 <= i < |s| => if s[i] == from then to else s[i])
  }

  function TrimPrefix(s: string, prefix: string): string
  {
    if prefix <= s then s[|prefix|..] else s
  }

  const CLUSTER_PREFIX := "cluster-"

  function ClusterLabel(cluster: string): (label_: string)
    ensures "cluster-" <= label_ && |label_| == 8 + |cluster|
    ensures forall i :: 0 <= i < |cluster| ==> label_[8 + i] == if cluster[i] == '/' then '_' else cluster[i]
  {
    CLUSTER_PREFIX + Replace(cluster, '/', '_')
  }

  function UpstreamClusterNameFromLabel(value: string): string
  {
    TrimPrefix(TrimPrefix(Replace(value, '_', '/'), CLUSTER_PREFIX), "/")
  }

  /** Decoding a label gives back exactly the cluster names that neither contain `_` nor start with `/`. */
  lemma ClusterLabelRoundTrip(cluster: string)
    ensures UpstreamClusterNameFromLabel(ClusterLabel(cluster)) == cluster
       <==> '_' !in cluster && !("/" <= cluster)
  {
    var body := Replace(Replace(cluster, '/', '_'), '_', '/');
    var decoded := Replace(ClusterLabel(cluster), '_', '/');
    assert decoded == CLUSTER_PREFIX + body;
    assert TrimPrefix(decoded, CLUSTER_PREFIX) == body;
    assert '_' !in body;
    assert '_' !in cluster ==> body == cluster;
    assert UpstreamClusterNameFromLabel(ClusterLabel(cluster)) == TrimPrefix(body, "/");
    forall c | c in TrimPrefix(body, "/") ensures c in body {}
  }

  /** Two labels are equal exactly when the names agree up to reading `/` as `_`. */
  lemma ClusterLabelsEqual(a: string, b: string)
    ensures ClusterLabel(a) == ClusterLabel(b) <==> Replace(a, '/', '_') == Replace(b, '/', '_')
    ensures '_' !in a && '_' !in b && ClusterLabel(a) == ClusterLabel(b) ==> a == b
  {
    assert ClusterLabel(a)[|CLUSTER_PREFIX|..] == Replace(a, '/', '_');
    assert ClusterLabel(b)[|CLUSTER_PREFIX|..] == Replace(b, '/', '_');
    if '_' !in a && '_' !in b && ClusterLabel(a) == ClusterLabel(b) {
      forall i | 0 <= i < |a| ensures a[i] == b[i] {
        assert Replace(a, '/', '_')[i] == Replace(b, '/', '_')[i];
        assert a[i] in a && b[i] in b;
      }
    }
  }

  datatype Owner = Owner(cluster: string, ns: string, name: string)

  /** Kubernetes namespaces and names never contain a slash; cluster names may. */
  predicate WellNamed(o: Owner)
  {
    '/' !in o.ns && '/' !in o.name
  }

  function OwnerReference(o: Owner): string
  {
    o.cluster + "/" + o.ns + "/" + o.name
  }

  lemma LastSegment(a: string, x: string, b: string, y: string)
    requires a + "/" + x == b + "/" + y && '/' !in x && '/' !in y
    ensures a == b && x == y
  {
    var s, t := a + "/" + x, b + "/" + y;
    assert s[|a|] == '/' && t[|b|] == '/';
    assert forall i :: |a| < i < |s| ==> s[i] == x[i - |a| - 1] && s[i] in x;
    assert forall i :: |b| < i < |t| ==> t[i] == y[i - |b| - 1] && t[i] in y;
    assert |a| == |b|;
    assert s[..|a|] == a && t[..|b|] == b && s[|a| + 1..] == x && t[|b| + 1..] == y;
  }

  lemma OwnerReferenceInjective(a: Owner, b: Owner)
    requires WellNamed(a) && WellNamed(b) && OwnerReference(a) == OwnerReference(b)
    ensures a == b
  {
    LastSegment(a.cluster + "/" + a.ns, a.name, b.cluster + "/" + b.ns, b.name);
    LastSegment(a.cluster, a.ns, b.cluster, b.ns);
  }

  /** The label selector used to list what an owner holds. */
  datatype Labels = Labels(cluster: string, ns: string, name: string)

  function LabelsOf(o: Owner): Labels
  {
    Labels(ClusterLabel(o.cluster), o.ns, o.name)
  }

  lemma LabelsInjectiveWithoutUnderscore(a: Owner, b: Owner)
    requires '_' !in a.cluster && '_' !in b.cluster && LabelsOf(a) == LabelsOf(b)
    ensures a == b
  {
    ClusterLabelsEqual(a.cluster, b.cluster);
  }
}
