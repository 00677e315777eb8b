/**
 * The catalogue of gauges the service exports (the `PrometheusMetrics`
 * struct) and the process-wide registry they are registered in. Registration
 * tolerates duplicates: a name already taken stays bound to its first owner.
 */
module Registry {
  import opened Wrappers

  /** One field of the `PrometheusMetrics` struct. */
  datatype GaugeId =
    | NodeCount | PodCount | DeploymentCount | ServiceCount | NamespaceCount
    | NodeReady | PodStatus | DeploymentDesired | DeploymentAvailable
    | ContainerRestarts | CPUAllocatable | MemoryAllocatable
    | CPURequests | MemoryRequests | CPULimits | MemoryLimits

  /** A gauge's exported name and its label names; a plain gauge has none. */
  datatype Collector = Collector(name: string, labels: seq<string>)

  /** The fields in declaration order, which is also the order they are registered in. */
  const Fields: seq<GaugeId> := [
    NodeCount, PodCount, DeploymentCount, ServiceCount, NamespaceCount,
    NodeReady, PodStatus, DeploymentDesired, DeploymentAvailable,
    ContainerRestarts, CPUAllocatable, MemoryAllocatable,
    CPURequests, MemoryRequests, CPULimits, MemoryLimits]

  function Descriptor(id: GaugeId): Collector
  {
    match id
    case NodeCount => Collector("k8s_nodes_total", [])
    case PodCount => Collector("k8s_pods_total", [])
    case DeploymentCount => Collector("k8s_deployments_total", [])
    case ServiceCount => Collector("k8s_services_total", [])
    case NamespaceCount => Collector("k8s_namespaces_total", [])
    case NodeReady => Collector("k8s_node_status_ready", ["node"])
    case PodStatus => Collector("k8s_pod_status_phase", ["namespace", "phase"])
    case DeploymentDesired => Collector("k8s_deployment_replicas_desired", ["namespace", "deployment"])
    case DeploymentAvailable => Collector("k8s_deployment_replicas_available", ["namespace", "deployment"])
    case ContainerRestarts => Collector("k8s_container_restarts_total", ["namespace", "pod", "container"])
    case CPUAllocatable => Collector("k8s_node_cpu_allocatable_cores", ["node"])
    case MemoryAllocatable => Collector("k8s_node_memory_allocatable_bytes", ["node"])
    case CPURequests => Collector("k8s_namespace_cpu_requests_cores", ["namespace"])
    case MemoryRequests => Collector("k8s_namespace_memory_requests_bytes", ["namespace"])
    case CPULimits => Collector("k8s_namespace_cpu_limits_cores", ["namespace"])
    case MemoryLimits => Collector("k8s_namespace_memory_limits_bytes", ["namespace"])
  }

  /** Where a field sits in `Fields`. */
  function Position(id: GaugeId): (i: nat)
    ensures i < |Fields| && Fields[i] == id
  {
    match id
    case NodeCount => 0
    case PodCount => 1
    case DeploymentCount => 2
    case ServiceCount => 3
    case NamespaceCount => 4
    case NodeReady => 5
    case PodStatus => 6
    case DeploymentDesired => 7
    case DeploymentAvailable => 8
    case ContainerRestarts => 9
    case CPUAllocatable => 10
    case MemoryAllocatable => 11
    case CPURequests => 12
    case MemoryRequests => 13
    case CPULimits => 14
    case MemoryLimits => 15
  }

  /** The sixteen exported names. */
  function Names(): set<string>
  {
    set i | 0 <= i < |Fields| :: Descriptor(Fields[i]).name
  }

  /** Number of labels of a gauge. */
  function Arity(id: GaugeId): nat
  {
    |Descriptor(id).labels|
  }

  /** Reads a field back from its exported name; `None` for a name outside the catalogue. */
  function FieldNamed(name: string): Option<GaugeId>
  {
    if |name| == 14 then
      if name == "k8s_pods_total" then Some(PodCount)
      else None
    else if |name| == 15 then
      if name == "k8s_nodes_total" then Some(NodeCount)
      else None
    else if |name| == 18 then
      if name == "k8s_services_total" then Some(ServiceCount)
      else None
    else if |name| == 20 then
      if name == "k8s_namespaces_total" then Some(NamespaceCount)
      else if name == "k8s_pod_status_phase" then Some(PodStatus)
      else None
    else if |name| == 21 then
      if name == "k8s_deployments_total" then Some(DeploymentCount)
      else if name == "k8s_node_status_ready" then Some(NodeReady)
      else None
    else if |name| == 28 then
      if name == "k8s_container_restarts_total" then Some(ContainerRestarts)
      else None
    else if |name| == 30 then
      if name == "k8s_node_cpu_allocatable_cores" then Some(CPUAllocatable)
      else if name == "k8s_namespace_cpu_limits_cores" then Some(CPULimits)
      else None
    else if |name| == 31 then
      if name == "k8s_deployment_replicas_desired" then Some(DeploymentDesired)
      else None
    else if |name| == 32 then
      if name == "k8s_namespace_cpu_requests_cores" then Some(CPURequests)
      else None
    else if |name| == 33 then
      if name == "k8s_deployment_replicas_available" then Some(DeploymentAvailable)
      else if name == "k8s_node_memory_allocatable_bytes" then Some(MemoryAllocatable)
      else if name == "k8s_namespace_memory_limits_bytes" then Some(MemoryLimits)
      else None
    else if |name| == 35 then
      if name == "k8s_namespace_memory_requests_bytes" then Some(MemoryRequests)
      else None
    else None
  }

  /** Each field's name reads back as that field, so no two fields share a name. */
  lemma NameIdentifiesField(id: GaugeId)
    ensures FieldNamed(Descriptor(id).name) == Some(id)
  {
    if id == NodeCount || id == PodCount || id == DeploymentCount || id == ServiceCount || id == NamespaceCount {
      CountNamesRead(id);
    } else if id == NodeReady || id == PodStatus || id == DeploymentDesired || id == DeploymentAvailable || id == ContainerRestarts {
      ObjectNamesRead(id);
    } else {
      ResourceNamesRead(id);
    }
  }

  /** The five counts. */
  lemma CountNamesRead(id: GaugeId)
    requires id in {NodeCount, PodCount, DeploymentCount, ServiceCount, NamespaceCount}
    ensures FieldNamed(Descriptor(id).name) == Some(id)
  {
    match id
    case NodeCount =>
    case PodCount =>
    case DeploymentCount =>
    case ServiceCount =>
    case NamespaceCount =>
  }

  /** The families labelled by object. */
  lemma ObjectNamesRead(id: GaugeId)
    requires id in {NodeReady, PodStatus, DeploymentDesired, DeploymentAvailable, ContainerRestarts}
    ensures FieldNamed(Descriptor(id).name) == Some(id)
  {
    match id
    case NodeReady =>
    case PodStatus =>
    case DeploymentDesired =>
    case DeploymentAvailable =>
    case ContainerRestarts =>
  }

  /** The resource families. */
  lemma ResourceNamesRead(id: GaugeId)
    requires id in {CPUAllocatable, MemoryAllocatable, CPURequests, MemoryRequests, CPULimits, MemoryLimits}
    ensures FieldNamed(Descriptor(id).name) == Some(id)
  {
    match id
    case CPUAllocatable =>
    case MemoryAllocatable =>
    case CPURequests =>
    case MemoryRequests =>
    case CPULimits =>
    case MemoryLimits =>
  }

  /** The sixteen fields are all different and carry sixteen different names. */
  lemma CatalogueDistinct()
    ensures |Fields| == 16
    ensures forall id: GaugeId :: id in Fields
    ensures forall i, j :: 0 <= i < j < |Fields| ==> Descriptor(Fields[i]).name != Descriptor(Fields[j]).name
  {
    forall id: GaugeId ensures id in Fields {
      var _ := Position(id);
    }
    forall i, j | 0 <= i < j < |Fields|
      ensures Descriptor(Fields[i]).name != Descriptor(Fields[j]).name
    {
      NamesDiffer(Fields[i], Fields[j]);
    }
  }

  /** Two different fields have different names. */
  lemma NamesDiffer(a: GaugeId, b: GaugeId)
    requires a != b
    ensures Descriptor(a).name != Descriptor(b).name
  {
    NameIdentifiesField(a);
    NameIdentifiesField(b);
  }

  /** The label tuples of each family, as the constructor declares them. */
  lemma LabelArities()
    ensures forall id :: id in {NodeCount, PodCount, DeploymentCount, ServiceCount, NamespaceCount} ==> Arity(id) == 0
    ensures Descriptor(NodeReady).labels == Descriptor(CPUAllocatable).labels == Descriptor(MemoryAllocatable).labels == ["node"]
    ensures Descriptor(PodStatus).labels == ["namespace", "phase"]
    ensures Descriptor(DeploymentDesired).labels == Descriptor(DeploymentAvailable).labels == ["namespace", "deployment"]
    ensures Arity(ContainerRestarts) == 3
    ensures forall id :: id in {CPURequests, MemoryRequests, CPULimits, MemoryLimits} ==> Descriptor(id).labels == ["namespace"]
  {
  }

  /** A collector object; `generation` tells apart the objects built by different constructor calls. */
  datatype Instance = Instance(generation: nat, collector: Collector)

  /** The process-wide default registry: which object owns each registered name. */
  datatype Registry = Registry(owners: map<string, Instance>)

  datatype RegisterError = AlreadyRegistered(existing: Instance)

  /** `prometheus.Register(c)`: a taken name is refused and the registry does not change. */
  function Register(reg: Registry, c: Instance): (r: (Registry, Option<RegisterError>))
    ensures c.collector.name in reg.owners ==>
      r.0 == reg && r.1 == Some(AlreadyRegistered(reg.owners[c.collector.name]))
    ensures c.collector.name !in reg.owners ==>
      r.1 == None && r.0.owners == reg.owners[c.collector.name := c]
  {
    var name := c.collector.name;
    if name in reg.owners then (reg, Some(AlreadyRegistered(reg.owners[name])))
    else (Registry(reg.owners[name := c]), None)
  }

  /** `for _, c := range cs { _ = prometheus.Register(c) }`: every error is dropped. */
  function RegisterAll(reg: Registry, cs: seq<Instance>): (r: Registry)
    ensures forall name :: name in r.owners <==>
      name in reg.owners || exists i :: 0 <= i < |cs| && cs[i].collector.name == name
    ensures forall name :: name in reg.owners ==> r.owners[name] == reg.owners[name]
    decreases |cs|
  {
    if |cs| == 0 then reg
    else
      var r := RegisterAll(Register(reg, cs[0]).0, cs[1..]);
      assert forall i :: 1 <= i < |cs| ==> cs[i] == cs[1..][i - 1];
      r
  }

  /** A collector whose name was free, and not taken by an earlier one in the list, ends up owning it. */
  lemma {:induction false} RegisterAllOwner(reg: Registry, cs: seq<Instance>, i: nat)
    requires i < |cs| && cs[i].collector.name !in reg.owners
    requires forall j :: 0 <= j < i ==> cs[j].collector.name != cs[i].collector.name
    ensures RegisterAll(reg, cs).owners[cs[i].collector.name] == cs[i]
    decreases |cs|
  {
    var reg1 := Register(reg, cs[0]).0;
    if i == 0 {
      assert cs[0].collector.name in reg1.owners;
    } else {
      assert cs[1..][i - 1] == cs[i];
      forall j | 0 <= j < i - 1 ensures cs[1..][j].collector.name != cs[i].collector.name {
        assert cs[1..][j] == cs[j + 1];
      }
      RegisterAllOwner(reg1, cs[1..], i - 1);
    }
  }

  /** The struct returned by the constructor: one collector object per field. */
  datatype PrometheusMetrics = PrometheusMetrics(fields: map<GaugeId, Instance>)

  /**
   * The collectors a constructor call builds, in registration order: each
   * field's collector sits at the field's place, and no two share a name,
   * so none of them is refused because of another one of the same call.
   */
  function Collectors(generation: nat): (cs: seq<Instance>)
    ensures |cs| == 16
    ensures forall id :: cs[Position(id)] == Instance(generation, Descriptor(id))
    ensures forall i, j :: 0 <= i < j < |cs| ==> cs[i].collector.name != cs[j].collector.name
  {
    CatalogueDistinct();
    seq(|Fields|, i requires 0 <= i < |Fields| => Instance(generation, Descriptor(Fields[i])))
  }

  /**
   * `NewPrometheusMetrics`: builds all sixteen collectors, registers each,
   * ignores refusals, and returns the struct with every field set.
   */
  function NewPrometheusMetrics(reg: Registry, generation: nat): (r: (PrometheusMetrics, Registry))
    ensures forall id :: id in r.0.fields && r.0.fields[id] == Instance(generation, Descriptor(id))
    ensures r.1.owners.Keys == reg.owners.Keys + Names()
    ensures forall id :: Descriptor(id).name in r.1.owners
    ensures forall name :: name in reg.owners ==> r.1.owners[name] == reg.owners[name]
    ensures forall id :: Descriptor(id).name !in reg.owners ==>
      r.1.owners[Descriptor(id).name] == Instance(generation, Descriptor(id))
  {
    var reg' := RegisterAll(reg, Collectors(generation));
    CatalogueNamesBound(reg, generation);
    CatalogueOwners(reg, generation);
    (PrometheusMetrics(map id: GaugeId | true :: Instance(generation, Descriptor(id))), reg')
  }

  /** The collector at place `i` of the registration list. */
  lemma CollectorAt(generation: nat, i: nat)
    requires i < |Fields|
    ensures Collectors(generation)[i] == Instance(generation, Descriptor(Fields[i]))
  {
  }

  /** Registering the catalogue binds exactly the names already bound and the catalogue's names. */
  lemma CatalogueNamesBound(reg: Registry, generation: nat)
    ensures RegisterAll(reg, Collectors(generation)).owners.Keys == reg.owners.Keys + Names()
    ensures forall id :: Descriptor(id).name in RegisterAll(reg, Collectors(generation)).owners
  {
    CatalogueNamesIn(reg, generation);
    BoundNamesFromCatalogue(reg, generation);
  }

  /** Every catalogue name is bound after registering the catalogue. */
  lemma CatalogueNamesIn(reg: Registry, generation: nat)
    ensures forall id :: Descriptor(id).name in RegisterAll(reg, Collectors(generation)).owners
    ensures Names() <= RegisterAll(reg, Collectors(generation)).owners.Keys
  {
    var cs := Collectors(generation);
    forall id ensures Descriptor(id).name in RegisterAll(reg, cs).owners {
      assert cs[Position(id)].collector.name == Descriptor(id).name;
    }
    forall name | name in Names() ensures name in RegisterAll(reg, cs).owners {
      var i :| 0 <= i < |Fields| && name == Descriptor(Fields[i]).name;
      assert name == Descriptor(Fields[i]).name;
    }
  }

  /** A name bound after registering the catalogue was bound before or is a catalogue name. */
  lemma BoundNamesFromCatalogue(reg: Registry, generation: nat)
    ensures RegisterAll(reg, Collectors(generation)).owners.Keys <= reg.owners.Keys + Names()
  {
    var cs := Collectors(generation);
    forall name | name in RegisterAll(reg, cs).owners ensures name in reg.owners || name in Names() {
      if name !in reg.owners {
        var i :| 0 <= i < |cs| && cs[i].collector.name == name;
        CollectorAt(generation, i);
      }
    }
  }

  /** A name the registry did not hold goes to the catalogue's own collector; the others keep their owner. */
  lemma CatalogueOwners(reg: Registry, generation: nat)
    ensures forall name :: name in reg.owners ==>
      RegisterAll(reg, Collectors(generation)).owners[name] == reg.owners[name]
    ensures forall id :: Descriptor(id).name !in reg.owners ==>
      && Descriptor(id).name in RegisterAll(reg, Collectors(generation)).owners
      && RegisterAll(reg, Collectors(generation)).owners[Descriptor(id).name] == Instance(generation, Descriptor(id))
  {
    var cs := Collectors(generation);
    var reg' := RegisterAll(reg, cs);
    CatalogueDistinct();
    forall id | Descriptor(id).name !in reg.owners
      ensures Descriptor(id).name in reg'.owners && reg'.owners[Descriptor(id).name] == Instance(generation, Descriptor(id))
    {
      var i := Position(id);
      assert cs[i].collector.name == Descriptor(id).name;
      assert forall j :: 0 <= j < i ==> cs[j].collector.name == Descriptor(Fields[j]).name;
      RegisterAllOwner(reg, cs, i);
    }
  }

  /**
   * Building the metrics twice against one registry succeeds both times: the
   * second struct is fully populated, the registry is left as the first call
   * made it, and every name stays bound to the first call's object.
   */
  lemma ConstructTwice(reg: Registry, g1: nat, g2: nat)
    requires forall id :: Descriptor(id).name !in reg.owners
    ensures var first := NewPrometheusMetrics(reg, g1);
            var second := NewPrometheusMetrics(first.1, g2);
            && (forall id :: id in second.0.fields && second.0.fields[id].generation == g2)
            && second.1 == first.1
            && (forall id :: second.1.owners[Descriptor(id).name] == first.0.fields[id])
  {
    var first := NewPrometheusMetrics(reg, g1);
    var second := NewPrometheusMetrics(first.1, g2);
    SecondRegistrationKeeps(first.1, g2);
    forall id ensures second.1.owners[Descriptor(id).name] == first.0.fields[id] {
      assert first.1.owners[Descriptor(id).name] == Instance(g1, Descriptor(id));
    }
  }

  /** Constructing against a registry that already holds every catalogue name changes nothing. */
  lemma SecondRegistrationKeeps(reg: Registry, generation: nat)
    requires forall id :: Descriptor(id).name in reg.owners
    ensures NewPrometheusMetrics(reg, generation).1 == reg
  {
    var r := NewPrometheusMetrics(reg, generation).1;
    forall name | name in Names() ensures name in reg.owners {
      var id :| Descriptor(id).name == name;
    }
    assert r.owners.Keys == reg.owners.Keys;
  }
}
