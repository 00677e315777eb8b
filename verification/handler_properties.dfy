/**
 * What the handler pass of internal/handlers guarantees, stated against
 * reference definitions that do not share the pass's fold structure.
 */
module HandlerProperties {
  import opened Wrappers
  import opened Cluster
  import opened Gauges
  import opened Handlers
  import Registry

  // ----- nodes -----

  /** No later node in the listing has the same name as node `i`. */
  predicate LastNamed(nodes: seq<Node>, i: int)
    requires 0 <= i < |nodes|
  {
    forall j :: i < j < |nodes| ==> nodes[j].name != nodes[i].name
  }

  /** Some node of the listing is called `name`. */
  predicate Listed(nodes: seq<Node>, name: string)
  {
    exists i :: 0 <= i < |nodes| && nodes[i].name == name
  }

  lemma SingletonInjective(a: string, b: string)
    ensures [a] == [b] <==> a == b
  {
    if [a] == [b] { assert [a][0] == [b][0]; }
  }

  /** The writes of a node loop to a family labelled by node name. */
  predicate NodeKeyed(nodes: seq<Node>, w: seq<Write>)
  {
    |w| == |nodes| && forall i :: 0 <= i < |w| ==> w[i].labels == [nodes[i].name]
  }

  lemma NodeKeyedWrites(nodes: seq<Node>, w: seq<Write>)
    requires NodeKeyed(nodes, w)
    ensures forall k :: LastWrite(w, k).Some? <==> |k| == 1 && Listed(nodes, k[0])
    ensures forall i :: 0 <= i < |nodes| && LastNamed(nodes, i) ==> LastWrite(w, [nodes[i].name]) == Some(w[i].value)
  {
    forall k ensures LastWrite(w, k).Some? <==> |k| == 1 && Listed(nodes, k[0]) {
      LastWriteSpec(w, k);
      if LastWrite(w, k).Some? {
        var i :| 0 <= i < |w| && w[i].labels == k;
        assert nodes[i].name == k[0];
      }
      if |k| == 1 && Listed(nodes, k[0]) {
        var i :| 0 <= i < |nodes| && nodes[i].name == k[0];
        assert w[i].labels == k;
      }
    }
    forall i | 0 <= i < |nodes| && LastNamed(nodes, i)
      ensures LastWrite(w, [nodes[i].name]) == Some(w[i].value)
    {
      LastWriteSpec(w, [nodes[i].name]);
      forall j | i < j < |w| ensures w[j].labels != w[i].labels {
        SingletonInjective(nodes[j].name, nodes[i].name);
      }
    }
  }

  /**
   * After the node stage NodeReady holds exactly one series per listed node
   * name, worth 1 when the node (the last one of that name) is ready and 0
   * otherwise.
   */
  lemma NodeReadyExact(g: GaugeSet, nodes: seq<Node>)
    ensures forall k :: k in NodeStage(g, nodes).nodeReady <==> |k| == 1 && Listed(nodes, k[0])
    ensures forall i :: 0 <= i < |nodes| && LastNamed(nodes, i) ==>
      && [nodes[i].name] in NodeStage(g, nodes).nodeReady
      && NodeStage(g, nodes).nodeReady[[nodes[i].name]] == if IsReady(nodes[i]) then 1.0 else 0.0
  {
    var w := ReadyWrites(nodes);
    NodeKeyedWrites(nodes, w);
    var f := Apply(map[], w);
    assert NodeStage(g, nodes).nodeReady == f;
  }

  /** Writes keyed by node name, performed on a family that is not reset first. */
  lemma NodeKeyedApply(f: Family, nodes: seq<Node>, w: seq<Write>)
    requires NodeKeyed(nodes, w)
    ensures forall k :: k in Apply(f, w) <==> k in f || (|k| == 1 && Listed(nodes, k[0]))
    ensures forall k :: k in f && !(|k| == 1 && Listed(nodes, k[0])) ==> Apply(f, w)[k] == f[k]
    ensures forall i :: 0 <= i < |nodes| && LastNamed(nodes, i) ==>
      [nodes[i].name] in Apply(f, w) && Apply(f, w)[[nodes[i].name]] == w[i].value
  {
    NodeKeyedWrites(nodes, w);
  }

  /**
   * The allocatable families are never reset: every listed node gets its
   * current value, and a series of a node no longer listed keeps the value an
   * earlier pass gave it.
   */
  lemma CpuAllocatableNeverPruned(g: GaugeSet, nodes: seq<Node>)
    ensures forall k :: k in NodeStage(g, nodes).cpuAllocatable <==> k in g.cpuAllocatable || (|k| == 1 && Listed(nodes, k[0]))
    ensures forall k :: k in g.cpuAllocatable && !(|k| == 1 && Listed(nodes, k[0])) ==>
      NodeStage(g, nodes).cpuAllocatable[k] == g.cpuAllocatable[k]
    ensures forall i :: 0 <= i < |nodes| && LastNamed(nodes, i) ==>
      && [nodes[i].name] in NodeStage(g, nodes).cpuAllocatable
      && NodeStage(g, nodes).cpuAllocatable[[nodes[i].name]] == nodes[i].cpuMilli as real / 1000.0
  {
    NodeFields(g, nodes);
    NodeKeyedApply(g.cpuAllocatable, nodes, CpuAllocatableWrites(nodes));
  }

  lemma MemoryAllocatableNeverPruned(g: GaugeSet, nodes: seq<Node>)
    ensures forall k :: k in NodeStage(g, nodes).memoryAllocatable <==> k in g.memoryAllocatable || (|k| == 1 && Listed(nodes, k[0]))
    ensures forall k :: k in g.memoryAllocatable && !(|k| == 1 && Listed(nodes, k[0])) ==>
      NodeStage(g, nodes).memoryAllocatable[k] == g.memoryAllocatable[k]
    ensures forall i :: 0 <= i < |nodes| && LastNamed(nodes, i) ==>
      && [nodes[i].name] in NodeStage(g, nodes).memoryAllocatable
      && NodeStage(g, nodes).memoryAllocatable[[nodes[i].name]] == nodes[i].memoryBytes as real
  {
    NodeFields(g, nodes);
    NodeKeyedApply(g.memoryAllocatable, nodes, MemoryAllocatableWrites(nodes));
  }

  lemma NodeFields(g: GaugeSet, nodes: seq<Node>)
    ensures NodeStage(g, nodes).nodeReady == Apply(map[], ReadyWrites(nodes))
    ensures NodeStage(g, nodes).cpuAllocatable == Apply(g.cpuAllocatable, CpuAllocatableWrites(nodes))
    ensures NodeStage(g, nodes).memoryAllocatable == Apply(g.memoryAllocatable, MemoryAllocatableWrites(nodes))
  {
  }

  // ----- pod phases -----

  /** Number of pods in the given phase. */
  function CountPhase(pods: seq<Pod>, phase: string): nat
  {
    if |pods| == 0 then 0
    else CountPhase(pods[..|pods| - 1], phase) + (if pods[|pods| - 1].phase == phase then 1 else 0)
  }

  /** The phase tally counts, for every phase, the pods in it; phases with no pod are absent. */
  lemma {:induction false} TallyCounts(pods: seq<Pod>)
    ensures forall phase :: phase in Tally(pods) <==> CountPhase(pods, phase) > 0
    ensures forall phase :: phase in Tally(pods) ==> Tally(pods)[phase] == CountPhase(pods, phase)
  {
    if |pods| > 0 {
      TallyCounts(pods[..|pods| - 1]);
    }
  }

  /** An arbitrary key of a non-empty map. */
  ghost function Pick(m: map<string, int>): (k: string)
    requires |m| > 0
    ensures k in m
  {
    var k :| k in m; k
  }

  /** The sum of a map's values. */
  ghost function SumValues(m: map<string, int>): int
    decreases |m|
  {
    if |m| == 0 then 0
    else
      var k := Pick(m);
      assert |m - {k}| == |m| - 1 by {
        assert (m - {k}).Keys == m.Keys - {k};
      }
      m[k] + SumValues(m - {k})
  }

  /** The sum does not depend on which key is taken out first. */
  lemma {:induction false} SumValuesRemove(m: map<string, int>, k: string)
    requires k in m
    ensures SumValues(m) == m[k] + SumValues(m - {k})
    decreases |m|
  {
    var p := Pick(m);
    if p != k {
      assert (m - {k}).Keys == m.Keys - {k};
      assert (m - {p}).Keys == m.Keys - {p};
      SumValuesRemove(m - {p}, k);
      SumValuesRemove(m - {k}, p);
      assert m - {p} - {k} == m - {k} - {p};
    }
  }

  /** The phase tallies of the snapshot add up to the number of pods. */
  lemma {:induction false} TallySumsToPodCount(pods: seq<Pod>)
    ensures SumValues(Tally(pods)) == |pods|
  {
    if |pods| > 0 {
      var prefix := pods[..|pods| - 1];
      TallySumsToPodCount(prefix);
      var m := Tally(prefix);
      var phase := pods[|pods| - 1].phase;
      var m' := Tally(pods);
      SumValuesRemove(m', phase);
      if phase in m {
        SumValuesRemove(m, phase);
        assert m' - {phase} == m - {phase};
      } else {
        assert m' - {phase} == m;
      }
    }
  }

  // ----- PodStatus -----

  /** Number of pods of namespace `ns` in phase `phase`. */
  function CountIn(pods: seq<Pod>, ns: string, phase: string): nat
  {
    if |pods| == 0 then 0
    else
      var p := pods[|pods| - 1];
      CountIn(pods[..|pods| - 1], ns, phase) + (if p.namespace == ns && p.phase == phase then 1 else 0)
  }

  lemma {:induction false} PhaseKeysCount(pods: seq<Pod>, ns: string, phase: string)
    ensures Occurrences(PhaseKeys(pods), [ns, phase]) == CountIn(pods, ns, phase)
  {
    if |pods| > 0 {
      var n := |pods| - 1;
      PhaseKeysCount(pods[..n], ns, phase);
      assert PhaseKeys(pods)[..n] == PhaseKeys(pods[..n]);
      var p := pods[n];
      assert [p.namespace, p.phase] == [ns, phase] <==> p.namespace == ns && p.phase == phase by {
        if [p.namespace, p.phase] == [ns, phase] {
          assert [p.namespace, p.phase][0] == [ns, phase][0];
          assert [p.namespace, p.phase][1] == [ns, phase][1];
        }
      }
    }
  }

  /** The increments of the pod loop count, for each pair, the pods that have it. */
  lemma PhaseCountValues(pods: seq<Pod>)
    ensures forall ns, phase :: Get(IncAll(map[], PhaseKeys(pods)), [ns, phase]) == CountIn(pods, ns, phase) as real
  {
    forall ns, phase ensures Get(IncAll(map[], PhaseKeys(pods)), [ns, phase]) == CountIn(pods, ns, phase) as real {
      PhaseKeysCount(pods, ns, phase);
    }
  }

  /** The increments of the pod loop create a series exactly for the pairs some pod has. */
  lemma PhaseCountKeys(pods: seq<Pod>)
    ensures forall k :: k in IncAll(map[], PhaseKeys(pods)) <==>
      exists i :: 0 <= i < |pods| && k == [pods[i].namespace, pods[i].phase]
  {
    var keys := PhaseKeys(pods);
    var f := IncAll(map[], keys);
    forall k ensures k in f <==> exists i :: 0 <= i < |pods| && k == [pods[i].namespace, pods[i].phase] {
      if k in f {
        var i :| 0 <= i < |keys| && keys[i] == k;
      }
      if exists i :: 0 <= i < |pods| && k == [pods[i].namespace, pods[i].phase] {
        var i :| 0 <= i < |pods| && k == [pods[i].namespace, pods[i].phase];
        assert keys[i] == k;
      }
    }
  }

  /**
   * After the pod stage, PodStatus{ns, phase} is the number of pods of `ns` in
   * `phase`, and the family holds a series only for pairs that some pod has.
   */
  lemma PodStatusCounts(g: GaugeSet, pods: seq<Pod>)
    ensures forall ns, phase :: Get(PodStage(g, pods).podStatus, [ns, phase]) == CountIn(pods, ns, phase) as real
    ensures forall k :: k in PodStage(g, pods).podStatus <==>
      exists i :: 0 <= i < |pods| && k == [pods[i].namespace, pods[i].phase]
  {
    PodStatusField(g, pods);
    PhaseCountValues(pods);
    PhaseCountKeys(pods);
  }

  lemma PodStatusField(g: GaugeSet, pods: seq<Pod>)
    ensures PodStage(g, pods).podStatus == IncAll(map[], PhaseKeys(pods))
  {
  }

  // ----- container restarts -----

  /** The series the restart family should hold: one per (pod, container status) pair. */
  predicate RestartKey(pods: seq<Pod>, k: Labels)
  {
    exists i, j :: 0 <= i < |pods| && 0 <= j < |pods[i].statuses|
      && k == [pods[i].namespace, pods[i].name, pods[i].statuses[j].name]
  }

  /** The writes of the pod loop are exactly one per (pod, container status) pair. */
  lemma {:induction false} RestartWritesMembers(pods: seq<Pod>)
    ensures forall w :: w in RestartWrites(pods) <==>
      exists i, j :: 0 <= i < |pods| && 0 <= j < |pods[i].statuses| && w == RestartWrite(pods[i], pods[i].statuses[j])
  {
    if |pods| > 0 {
      var n := |pods| - 1;
      RestartWritesMembers(pods[..n]);
      forall w ensures w in RestartWrites(pods) <==>
        exists i, j :: 0 <= i < |pods| && 0 <= j < |pods[i].statuses| && w == RestartWrite(pods[i], pods[i].statuses[j])
      {
        if w in RestartWrites(pods) {
          if w in RestartWrites(pods[..n]) {
            var i, j :| 0 <= i < n && 0 <= j < |pods[..n][i].statuses| && w == RestartWrite(pods[..n][i], pods[..n][i].statuses[j]);
            assert pods[..n][i] == pods[i];
          } else {
            var j :| 0 <= j < |StatusWrites(pods[n])| && StatusWrites(pods[n])[j] == w;
          }
        }
        if exists i, j :: 0 <= i < |pods| && 0 <= j < |pods[i].statuses| && w == RestartWrite(pods[i], pods[i].statuses[j]) {
          var i, j :| 0 <= i < |pods| && 0 <= j < |pods[i].statuses| && w == RestartWrite(pods[i], pods[i].statuses[j]);
          if i < n {
            assert pods[..n][i] == pods[i];
            assert w in RestartWrites(pods[..n]);
          } else {
            assert StatusWrites(pods[n])[j] == w;
          }
        }
      }
    }
  }

  /** A tuple is a restart key iff some write of the pod loop names it. */
  lemma RestartKeyWritten(pods: seq<Pod>, k: Labels)
    ensures RestartKey(pods, k) <==>
      exists t :: 0 <= t < |RestartWrites(pods)| && RestartWrites(pods)[t].labels == k
  {
    var w := RestartWrites(pods);
    RestartWritesMembers(pods);
    if exists t :: 0 <= t < |w| && w[t].labels == k {
      var t :| 0 <= t < |w| && w[t].labels == k;
      assert w[t] in w;
      var i, j :| 0 <= i < |pods| && 0 <= j < |pods[i].statuses| && w[t] == RestartWrite(pods[i], pods[i].statuses[j]);
      assert k == [pods[i].namespace, pods[i].name, pods[i].statuses[j].name];
      assert RestartKey(pods, k);
    }
    if RestartKey(pods, k) {
      var i, j :| 0 <= i < |pods| && 0 <= j < |pods[i].statuses|
        && k == [pods[i].namespace, pods[i].name, pods[i].statuses[j].name];
      var x := RestartWrite(pods[i], pods[i].statuses[j]);
      assert x in w;
      var t :| 0 <= t < |w| && w[t] == x;
      assert w[t].labels == k;
      assert exists t :: 0 <= t < |RestartWrites(pods)| && RestartWrites(pods)[t].labels == k;
    }
  }

  /** The restart writes performed on an empty family. */
  lemma RestartFamily(pods: seq<Pod>)
    ensures forall k :: k in Apply(map[], RestartWrites(pods)) <==> RestartKey(pods, k)
    ensures var w := RestartWrites(pods);
      forall t :: 0 <= t < |w| && IsLastWrite(w, t) ==>
        w[t].labels in Apply(map[], w) && Apply(map[], w)[w[t].labels] == w[t].value
  {
    var w := RestartWrites(pods);
    forall k ensures k in Apply(map[], w) <==> RestartKey(pods, k) {
      LastWriteSpec(w, k);
      RestartKeyWritten(pods, k);
    }
    forall t | 0 <= t < |w| && IsLastWrite(w, t)
      ensures w[t].labels in Apply(map[], w) && Apply(map[], w)[w[t].labels] == w[t].value
    {
      LastWriteSpec(w, w[t].labels);
    }
  }

  /**
   * After the pod stage ContainerRestarts holds exactly the (namespace, pod,
   * container) tuples of the listed container statuses; each holds the restart
   * count of the last status the loop wrote for it.
   */
  lemma RestartsExact(g: GaugeSet, pods: seq<Pod>)
    ensures forall k :: k in PodStage(g, pods).containerRestarts <==> RestartKey(pods, k)
    ensures var w := RestartWrites(pods);
      forall t :: 0 <= t < |w| && IsLastWrite(w, t) ==>
        w[t].labels in PodStage(g, pods).containerRestarts && PodStage(g, pods).containerRestarts[w[t].labels] == w[t].value
  {
    RestartFamily(pods);
    assert PodStage(g, pods).containerRestarts == Apply(map[], RestartWrites(pods));
  }

  // ----- namespace resource sums -----

  /** What a container contributes to a sum: its declared quantity, or nothing. */
  function Contribution(c: Container, r: Resource): real
  {
    match Declared(c, r)
    case Some(q) => q
    case None => 0.0
  }

  function ContainerTotal(cs: seq<Container>, r: Resource): real
  {
    if |cs| == 0 then 0.0 else ContainerTotal(cs[..|cs| - 1], r) + Contribution(cs[|cs| - 1], r)
  }

  /** The sum over every container of every pod of `ns` of the declared quantity. */
  function Total(pods: seq<Pod>, ns: string, r: Resource): real
  {
    if |pods| == 0 then 0.0
    else
      var p := pods[|pods| - 1];
      Total(pods[..|pods| - 1], ns, r) + (if p.namespace == ns then ContainerTotal(p.containers, r) else 0.0)
  }

  predicate DeclaresIn(cs: seq<Container>, r: Resource)
  {
    exists j :: 0 <= j < |cs| && Declared(cs[j], r).Some?
  }

  /** Some container of some pod of `ns` declares the resource. */
  predicate Declares(pods: seq<Pod>, ns: string, r: Resource)
  {
    exists i :: 0 <= i < |pods| && pods[i].namespace == ns && DeclaresIn(pods[i].containers, r)
  }

  function GetSum(m: map<string, real>, ns: string): real
  {
    if ns in m then m[ns] else 0.0
  }

  lemma {:induction false} AddContainersSpec(m: map<string, real>, ns: string, cs: seq<Container>, r: Resource)
    ensures var m' := AddContainers(m, ns, cs, r);
      && (forall n :: n != ns ==> (n in m' <==> n in m) && GetSum(m', n) == GetSum(m, n))
      && (ns in m' <==> ns in m || DeclaresIn(cs, r))
      && GetSum(m', ns) == GetSum(m, ns) + ContainerTotal(cs, r)
  {
    if |cs| > 0 {
      var n := |cs| - 1;
      AddContainersSpec(m, ns, cs[..n], r);
      if DeclaresIn(cs[..n], r) {
        var j :| 0 <= j < n && Declared(cs[..n][j], r).Some?;
        assert cs[..n][j] == cs[j];
      }
    }
  }

  /**
   * The map built for one resource has an entry for a namespace iff one of
   * its containers declares the resource, and the entry is the total over all
   * containers of all its pods.
   */
  lemma SumsSpec(pods: seq<Pod>, r: Resource)
    ensures forall ns :: ns in Sums(pods, r) <==> Declares(pods, ns, r)
    ensures forall ns :: GetSum(Sums(pods, r), ns) == Total(pods, ns, r)
  {
    SumsKeys(pods, r);
    SumsTotals(pods, r);
  }

  lemma {:induction false} SumsKeys(pods: seq<Pod>, r: Resource)
    ensures forall ns :: ns in Sums(pods, r) <==> Declares(pods, ns, r)
  {
    if |pods| > 0 {
      var n := |pods| - 1;
      var p := pods[n];
      SumsKeys(pods[..n], r);
      AddContainersSpec(Sums(pods[..n], r), p.namespace, p.containers, r);
      forall ns ensures ns in Sums(pods, r) <==> Declares(pods, ns, r) {
        if Declares(pods[..n], ns, r) {
          var i :| 0 <= i < n && pods[..n][i].namespace == ns && DeclaresIn(pods[..n][i].containers, r);
          assert pods[..n][i] == pods[i];
        }
        if Declares(pods, ns, r) {
          var i :| 0 <= i < |pods| && pods[i].namespace == ns && DeclaresIn(pods[i].containers, r);
          if i < n { assert pods[..n][i] == pods[i]; }
        }
      }
    }
  }

  lemma {:induction false} SumsTotals(pods: seq<Pod>, r: Resource)
    ensures forall ns :: GetSum(Sums(pods, r), ns) == Total(pods, ns, r)
  {
    if |pods| > 0 {
      var n := |pods| - 1;
      var p := pods[n];
      SumsTotals(pods[..n], r);
      AddContainersSpec(Sums(pods[..n], r), p.namespace, p.containers, r);
    }
  }

  lemma {:induction false} ContainerTotalZero(cs: seq<Container>, r: Resource)
    requires !DeclaresIn(cs, r)
    ensures ContainerTotal(cs, r) == 0.0
  {
    if |cs| > 0 {
      var n := |cs| - 1;
      assert !Declared(cs[n], r).Some?;
      assert !DeclaresIn(cs[..n], r);
      ContainerTotalZero(cs[..n], r);
    }
  }

  /** A namespace none of whose containers declares the resource sums to zero. */
  lemma {:induction false} ZeroWithoutDeclaration(pods: seq<Pod>, ns: string, r: Resource)
    requires !Declares(pods, ns, r)
    ensures Total(pods, ns, r) == 0.0
  {
    if |pods| > 0 {
      var n := |pods| - 1;
      assert !Declares(pods[..n], ns, r);
      ZeroWithoutDeclaration(pods[..n], ns, r);
      if pods[n].namespace == ns {
        ContainerTotalZero(pods[n].containers, r);
      }
    }
  }

  /** The family of one resource after the pod stage. */
  function ResourceFamily(g: GaugeSet, r: Resource): Family
  {
    match r
    case CpuRequest => g.cpuRequests
    case MemoryRequest => g.memoryRequests
    case CpuLimit => g.cpuLimits
    case MemoryLimit => g.memoryLimits
  }

  /** The family set from a map of sums has one single-label series per entry, with the entry's value. */
  lemma NamespaceFamilySpec(sums: map<string, real>)
    ensures forall k :: k in NamespaceFamily(sums) ==> |k| == 1
    ensures forall ns :: [ns] in NamespaceFamily(sums) <==> ns in sums
    ensures forall ns :: Get(NamespaceFamily(sums), [ns]) == GetSum(sums, ns)
  {
  }

  /**
   * After the pod stage each namespace resource family has a series for a
   * namespace iff one of its containers declares that resource, worth the sum
   * of the declared quantities over all its pods' containers.
   */
  lemma NamespaceResources(g: GaugeSet, pods: seq<Pod>, r: Resource)
    ensures var f := ResourceFamily(PodStage(g, pods), r);
      && (forall k :: k in f ==> |k| == 1)
      && (forall ns :: [ns] in f <==> Declares(pods, ns, r))
      && (forall ns :: Get(f, [ns]) == Total(pods, ns, r))
  {
    SumsSpec(pods, r);
    NamespaceFamilySpec(Sums(pods, r));
    assert ResourceFamily(PodStage(g, pods), r) == NamespaceFamily(Sums(pods, r));
  }

  // ----- deployments -----

  /** No later deployment has the same (namespace, name). */
  predicate LastDeployment(ds: seq<Deployment>, i: int)
    requires 0 <= i < |ds|
  {
    forall j :: i < j < |ds| ==> (ds[j].namespace, ds[j].name) != (ds[i].namespace, ds[i].name)
  }

  lemma PairInjective(a: string, b: string, c: string, d: string)
    ensures [a, b] == [c, d] <==> a == c && b == d
  {
    if [a, b] == [c, d] { assert [a, b][0] == [c, d][0] && [a, b][1] == [c, d][1]; }
  }

  /** The writes of the deployment loop to a family labelled by (namespace, name). */
  predicate PairKeyed(ds: seq<Deployment>, w: seq<Write>)
  {
    |w| == |ds| && forall i :: 0 <= i < |w| ==> w[i].labels == [ds[i].namespace, ds[i].name]
  }

  /** Some deployment of the listing is `k`'s (namespace, name) pair. */
  predicate DeploymentListed(ds: seq<Deployment>, k: Labels)
  {
    exists i :: 0 <= i < |ds| && k == [ds[i].namespace, ds[i].name]
  }

  lemma PairKeyedWrites(ds: seq<Deployment>, w: seq<Write>)
    requires PairKeyed(ds, w)
    ensures forall k :: k in Apply(map[], w) <==> DeploymentListed(ds, k)
    ensures forall i :: 0 <= i < |ds| && LastDeployment(ds, i) ==>
      [ds[i].namespace, ds[i].name] in Apply(map[], w) && Apply(map[], w)[[ds[i].namespace, ds[i].name]] == w[i].value
  {
    forall k ensures k in Apply(map[], w) <==> DeploymentListed(ds, k) {
      LastWriteSpec(w, k);
      if LastWrite(w, k).Some? {
        var i :| 0 <= i < |w| && w[i].labels == k;
        assert k == [ds[i].namespace, ds[i].name];
      }
      if DeploymentListed(ds, k) {
        var i :| 0 <= i < |ds| && k == [ds[i].namespace, ds[i].name];
        assert w[i].labels == k;
      }
    }
    forall i | 0 <= i < |ds| && LastDeployment(ds, i)
      ensures [ds[i].namespace, ds[i].name] in Apply(map[], w)
      ensures Apply(map[], w)[[ds[i].namespace, ds[i].name]] == w[i].value
    {
      LastWriteSpec(w, w[i].labels);
      forall j | i < j < |w| ensures w[j].labels != w[i].labels {
        PairInjective(ds[j].namespace, ds[j].name, ds[i].namespace, ds[i].name);
      }
    }
  }

  lemma DeploymentFields(g: GaugeSet, ds: seq<Deployment>)
    requires ReplicasSet(ds)
    ensures DeploymentStage(g, ds).deploymentDesired == Apply(map[], DesiredWrites(ds))
    ensures DeploymentStage(g, ds).deploymentAvailable == Apply(map[], AvailableWrites(ds))
  {
  }

  /**
   * After the deployment stage both deployment families hold exactly the
   * listed (namespace, name) pairs, with the desired and available replicas of
   * the last deployment of that pair.
   */
  lemma DeploymentsExact(g: GaugeSet, ds: seq<Deployment>)
    requires ReplicasSet(ds)
    ensures var g' := DeploymentStage(g, ds);
      && (forall k :: k in g'.deploymentDesired <==> DeploymentListed(ds, k))
      && (forall k :: k in g'.deploymentAvailable <==> DeploymentListed(ds, k))
      && (forall i :: 0 <= i < |ds| && LastDeployment(ds, i) ==>
            && [ds[i].namespace, ds[i].name] in g'.deploymentDesired
            && [ds[i].namespace, ds[i].name] in g'.deploymentAvailable
            && g'.deploymentDesired[[ds[i].namespace, ds[i].name]] == ds[i].specReplicas.value as real
            && g'.deploymentAvailable[[ds[i].namespace, ds[i].name]] == ds[i].availableReplicas as real)
  {
    DeploymentFields(g, ds);
    PairKeyedWrites(ds, DesiredWrites(ds));
    PairKeyedWrites(ds, AvailableWrites(ds));
  }
}
