/**
 * Properties of a whole pass of the JSON snapshot handler: which stage owns
 * which collector, what a failed listing leaves behind, what a repeated
 * scrape of an unchanged cluster does, and the label shapes of the families.
 */
module PassProperties {
  import opened Wrappers
  import opened Cluster
  import opened Gauges
  import opened Handlers
  import Http
  import Registry
  import HandlerProperties

  /** The stage of the pass that writes a collector; no other stage touches it. */
  function StageOf(id: Registry.GaugeId): Kind
  {
    match id
    case NodeCount | NodeReady | CPUAllocatable | MemoryAllocatable => Nodes
    case PodCount | PodStatus | ContainerRestarts | CPURequests | MemoryRequests | CPULimits | MemoryLimits => Pods
    case NamespaceCount => Namespaces
    case DeploymentCount | DeploymentDesired | DeploymentAvailable => Deployments
    case ServiceCount => Services
  }

  /** The listing of `k` is available and the stage can run on it without crashing. */
  predicate CanRun(l: Listings, k: Kind)
  {
    ListingOk(l, k) && (k == Deployments ==> ReplicasSet(l.deployments.value))
  }

  /** One stage of the pass, on its own. */
  function StageAlone(g: GaugeSet, l: Listings, k: Kind): GaugeSet
    requires CanRun(l, k)
  {
    match k
    case Nodes => NodeStage(g, l.nodes.value)
    case Pods => PodStage(g, l.pods.value)
    case Namespaces => NamespaceStage(g, l.namespaces.value)
    case Deployments => DeploymentStage(g, l.deployments.value)
    case Services => ServiceStage(g, l.services.value)
  }

  /** A stage leaves every collector of another stage as it found it. */
  lemma StageFrame(g: GaugeSet, l: Listings, k: Kind, id: Registry.GaugeId)
    requires CanRun(l, k) && StageOf(id) != k
    ensures Read(StageAlone(g, l, k), id) == Read(g, id)
  {
    match k
    case Nodes => NodeStageFrame(g, l.nodes.value, id);
    case Pods => PodStageFrame(g, l.pods.value, id);
    case Namespaces => assert Read(NamespaceStage(g, l.namespaces.value), id) == Read(g, id);
    case Deployments => DeploymentStageFrame(g, l.deployments.value, id);
    case Services => assert Read(ServiceStage(g, l.services.value), id) == Read(g, id);
  }

  lemma NodeStageFrame(g: GaugeSet, nodes: seq<Node>, id: Registry.GaugeId)
    requires StageOf(id) != Nodes
    ensures Read(NodeStage(g, nodes), id) == Read(g, id)
  {
  }

  lemma PodStageFrame(g: GaugeSet, pods: seq<Pod>, id: Registry.GaugeId)
    requires StageOf(id) != Pods
    ensures Read(PodStage(g, pods), id) == Read(g, id)
  {
  }

  lemma DeploymentStageFrame(g: GaugeSet, deployments: seq<Deployment>, id: Registry.GaugeId)
    requires ReplicasSet(deployments) && StageOf(id) != Deployments
    ensures Read(DeploymentStage(g, deployments), id) == Read(g, id)
  {
  }

  /**
   * What a stage writes into one of its collectors depends on nothing but the
   * listing and that collector's own previous value.
   */
  lemma StageLocal(g: GaugeSet, h: GaugeSet, l: Listings, k: Kind, id: Registry.GaugeId)
    requires CanRun(l, k) && StageOf(id) == k && Read(g, id) == Read(h, id)
    ensures Read(StageAlone(g, l, k), id) == Read(StageAlone(h, l, k), id)
  {
    match k
    case Nodes => NodeStageLocal(g, h, l.nodes.value, id);
    case Pods => PodStageLocal(g, h, l.pods.value, id);
    case Namespaces => assert Read(NamespaceStage(g, l.namespaces.value), id) == Read(NamespaceStage(h, l.namespaces.value), id);
    case Deployments => DeploymentStageLocal(g, h, l.deployments.value, id);
    case Services => assert Read(ServiceStage(g, l.services.value), id) == Read(ServiceStage(h, l.services.value), id);
  }

  lemma NodeStageLocal(g: GaugeSet, h: GaugeSet, nodes: seq<Node>, id: Registry.GaugeId)
    requires StageOf(id) == Nodes && Read(g, id) == Read(h, id)
    ensures Read(NodeStage(g, nodes), id) == Read(NodeStage(h, nodes), id)
  {
  }

  lemma PodStageLocal(g: GaugeSet, h: GaugeSet, pods: seq<Pod>, id: Registry.GaugeId)
    requires StageOf(id) == Pods && Read(g, id) == Read(h, id)
    ensures Read(PodStage(g, pods), id) == Read(PodStage(h, pods), id)
  {
  }

  lemma DeploymentStageLocal(g: GaugeSet, h: GaugeSet, deployments: seq<Deployment>, id: Registry.GaugeId)
    requires ReplicasSet(deployments) && StageOf(id) == Deployments && Read(g, id) == Read(h, id)
    ensures Read(DeploymentStage(g, deployments), id) == Read(DeploymentStage(h, deployments), id)
  {
  }

  /** Running a stage a second time on the same listing changes nothing. */
  lemma StageIdempotent(g: GaugeSet, l: Listings, k: Kind)
    requires CanRun(l, k)
    ensures StageAlone(StageAlone(g, l, k), l, k) == StageAlone(g, l, k)
  {
    if k == Nodes {
      ApplyIdempotent(g.cpuAllocatable, CpuAllocatableWrites(l.nodes.value));
      ApplyIdempotent(g.memoryAllocatable, MemoryAllocatableWrites(l.nodes.value));
    }
  }

  /** Two gauge sets that read the same on every collector are the same. */
  lemma ReadExtensional(a: GaugeSet, b: GaugeSet)
    requires forall id :: Read(a, id) == Read(b, id)
    ensures a == b
  {
    ScalarsAgree(a, b);
    StageFamiliesAgree(a, b);
    ResourceFamiliesAgree(a, b);
  }

  /** The five counts. */
  lemma ScalarsAgree(a: GaugeSet, b: GaugeSet)
    requires forall id :: Read(a, id) == Read(b, id)
    ensures a.nodeCount == b.nodeCount
    ensures a.podCount == b.podCount
    ensures a.deploymentCount == b.deploymentCount
    ensures a.serviceCount == b.serviceCount
    ensures a.namespaceCount == b.namespaceCount
  {
    assert Read(a, Registry.NodeCount) == Read(b, Registry.NodeCount);
    assert Read(a, Registry.PodCount) == Read(b, Registry.PodCount);
    assert Read(a, Registry.DeploymentCount) == Read(b, Registry.DeploymentCount);
    assert Read(a, Registry.ServiceCount) == Read(b, Registry.ServiceCount);
    assert Read(a, Registry.NamespaceCount) == Read(b, Registry.NamespaceCount);
  }

  /** The families keyed by object. */
  lemma StageFamiliesAgree(a: GaugeSet, b: GaugeSet)
    requires forall id :: Read(a, id) == Read(b, id)
    ensures a.nodeReady == b.nodeReady
    ensures a.podStatus == b.podStatus
    ensures a.deploymentDesired == b.deploymentDesired
    ensures a.deploymentAvailable == b.deploymentAvailable
    ensures a.containerRestarts == b.containerRestarts
  {
    assert Read(a, Registry.NodeReady) == Read(b, Registry.NodeReady);
    assert Read(a, Registry.PodStatus) == Read(b, Registry.PodStatus);
    assert Read(a, Registry.DeploymentDesired) == Read(b, Registry.DeploymentDesired);
    assert Read(a, Registry.DeploymentAvailable) == Read(b, Registry.DeploymentAvailable);
    assert Read(a, Registry.ContainerRestarts) == Read(b, Registry.ContainerRestarts);
  }

  /** The resource families. */
  lemma ResourceFamiliesAgree(a: GaugeSet, b: GaugeSet)
    requires forall id :: Read(a, id) == Read(b, id)
    ensures a.cpuAllocatable == b.cpuAllocatable
    ensures a.memoryAllocatable == b.memoryAllocatable
    ensures a.cpuRequests == b.cpuRequests
    ensures a.memoryRequests == b.memoryRequests
    ensures a.cpuLimits == b.cpuLimits
    ensures a.memoryLimits == b.memoryLimits
  {
    assert Read(a, Registry.CPUAllocatable) == Read(b, Registry.CPUAllocatable);
    assert Read(a, Registry.MemoryAllocatable) == Read(b, Registry.MemoryAllocatable);
    assert Read(a, Registry.CPURequests) == Read(b, Registry.CPURequests);
    assert Read(a, Registry.MemoryRequests) == Read(b, Registry.MemoryRequests);
    assert Read(a, Registry.CPULimits) == Read(b, Registry.CPULimits);
    assert Read(a, Registry.MemoryLimits) == Read(b, Registry.MemoryLimits);
  }

  // The gauges a pass leaves, one lemma per listing the pass stops at.

  lemma StopsAtNodes(g: GaugeSet, l: Listings, now: int)
    requires NoNilReplicas(l) && l.nodes.Err?
    ensures MetricsJSONHandler(g, l, now).gauges == g
  {
  }

  lemma StopsAtPods(g: GaugeSet, l: Listings, now: int)
    requires NoNilReplicas(l) && l.nodes.Ok? && l.pods.Err?
    ensures MetricsJSONHandler(g, l, now).gauges == StageAlone(g, l, Nodes)
  {
  }

  lemma StopsAtNamespaces(g: GaugeSet, l: Listings, now: int)
    requires NoNilReplicas(l) && l.nodes.Ok? && l.pods.Ok? && l.namespaces.Err?
    ensures MetricsJSONHandler(g, l, now).gauges == StageAlone(StageAlone(g, l, Nodes), l, Pods)
  {
  }

  lemma StopsAtDeployments(g: GaugeSet, l: Listings, now: int)
    requires NoNilReplicas(l) && l.nodes.Ok? && l.pods.Ok? && l.namespaces.Ok? && l.deployments.Err?
    ensures MetricsJSONHandler(g, l, now).gauges == StageAlone(StageAlone(StageAlone(g, l, Nodes), l, Pods), l, Namespaces)
  {
    ThroughNamespaces(g, l, now);
  }

  lemma StopsAtServices(g: GaugeSet, l: Listings, now: int)
    requires NoNilReplicas(l) && l.nodes.Ok? && l.pods.Ok? && l.namespaces.Ok? && l.deployments.Ok? && l.services.Err?
    ensures CanRun(l, Deployments)
    ensures MetricsJSONHandler(g, l, now).gauges ==
      StageAlone(StageAlone(StageAlone(StageAlone(g, l, Nodes), l, Pods), l, Namespaces), l, Deployments)
  {
    ThroughNamespaces(g, l, now);
    DeploymentsStep(StageAlone(StageAlone(StageAlone(g, l, Nodes), l, Pods), l, Namespaces), l, now);
  }

  lemma RunsToEnd(g: GaugeSet, l: Listings, now: int)
    requires NoNilReplicas(l) && l.nodes.Ok? && l.pods.Ok? && l.namespaces.Ok? && l.deployments.Ok? && l.services.Ok?
    ensures CanRun(l, Deployments)
    ensures MetricsJSONHandler(g, l, now).gauges ==
      StageAlone(StageAlone(StageAlone(StageAlone(StageAlone(g, l, Nodes), l, Pods), l, Namespaces), l, Deployments), l, Services)
  {
    ThroughNamespaces(g, l, now);
    DeploymentsStep(StageAlone(StageAlone(StageAlone(g, l, Nodes), l, Pods), l, Namespaces), l, now);
  }

  // One step of the pass at a time, from the gauges the earlier stages left.

  /** The first three stages of a pass whose first three listings succeed. */
  lemma ThroughNamespaces(g: GaugeSet, l: Listings, now: int)
    requires NoNilReplicas(l) && l.nodes.Ok? && l.pods.Ok? && l.namespaces.Ok?
    ensures MetricsJSONHandler(g, l, now) ==
      DeploymentsOnward(StageAlone(StageAlone(StageAlone(g, l, Nodes), l, Pods), l, Namespaces), l, now)
  {
    PodsStep(StageAlone(g, l, Nodes), l, now);
    NamespacesStep(StageAlone(StageAlone(g, l, Nodes), l, Pods), l, now);
  }

  lemma PodsStep(h: GaugeSet, l: Listings, now: int)
    requires NoNilReplicas(l) && l.nodes.Ok? && l.pods.Ok?
    ensures PodsOnward(h, l, now) == NamespacesOnward(StageAlone(h, l, Pods), l, now)
  {
  }

  lemma NamespacesStep(h: GaugeSet, l: Listings, now: int)
    requires NoNilReplicas(l) && l.nodes.Ok? && l.pods.Ok? && l.namespaces.Ok?
    ensures NamespacesOnward(h, l, now) == DeploymentsOnward(StageAlone(h, l, Namespaces), l, now)
  {
  }

  /** The deployment stage runs, then the service listing decides between the snapshot and a stop. */
  lemma DeploymentsStep(h: GaugeSet, l: Listings, now: int)
    requires NoNilReplicas(l) && l.nodes.Ok? && l.pods.Ok? && l.namespaces.Ok? && l.deployments.Ok?
    ensures CanRun(l, Deployments)
    ensures l.services.Err? ==> DeploymentsOnward(h, l, now).gauges == StageAlone(h, l, Deployments)
    ensures l.services.Ok? ==> DeploymentsOnward(h, l, now).gauges == StageAlone(StageAlone(h, l, Deployments), l, Services)
  {
  }

  /** The snapshot a pass answers when every listing succeeds. */
  lemma RepliesOnSuccess(g: GaugeSet, l: Listings, now: int)
    requires NoNilReplicas(l) && l.nodes.Ok? && l.pods.Ok? && l.namespaces.Ok? && l.deployments.Ok? && l.services.Ok?
    ensures MetricsJSONHandler(g, l, now).reply ==
      Json(ClusterMetrics(|l.nodes.value|, |l.pods.value|, |l.deployments.value|, |l.services.value|, |l.namespaces.value|, Tally(l.pods.value), now))
  {
  }

  /** Completion of the stages, kind by kind. */
  lemma CompletedByKind(l: Listings)
    ensures Completed(l, Nodes) <==> l.nodes.Ok?
    ensures Completed(l, Pods) <==> l.nodes.Ok? && l.pods.Ok?
    ensures Completed(l, Namespaces) <==> l.nodes.Ok? && l.pods.Ok? && l.namespaces.Ok?
    ensures Completed(l, Deployments) <==> l.nodes.Ok? && l.pods.Ok? && l.namespaces.Ok? && l.deployments.Ok?
    ensures Completed(l, Services) <==> forall k :: ListingOk(l, k)
  {
    assert Order(Nodes) == 0 && Order(Pods) == 1 && Order(Namespaces) == 2;
    assert Order(Deployments) == 3 && Order(Services) == 4;
    assert ListingOk(l, Nodes) == l.nodes.Ok? && ListingOk(l, Pods) == l.pods.Ok?;
    assert ListingOk(l, Namespaces) == l.namespaces.Ok? && ListingOk(l, Deployments) == l.deployments.Ok?;
  }

  /**
   * Collector `id` of `r` is what a pass from `g` should leave in it: if the
   * stage that owns it ran to its end, what that stage alone would have
   * written; otherwise (the pass stopped at an earlier listing or at that very
   * one) its value in `g`.
   */
  predicate ReadsAsStaged(g: GaugeSet, r: GaugeSet, l: Listings, id: Registry.GaugeId)
  {
    && (Completed(l, StageOf(id)) ==> CanRun(l, StageOf(id)) && Read(r, id) == Read(StageAlone(g, l, StageOf(id)), id))
    && (!Completed(l, StageOf(id)) ==> Read(r, id) == Read(g, id))
  }

  /**
   * Collector `id` of `r` is what the first `n` stages, run from `g`, leave
   * in it.
   */
  predicate PrefixRead(g: GaugeSet, r: GaugeSet, l: Listings, n: nat, id: Registry.GaugeId)
  {
    if Order(StageOf(id)) < n then CanRun(l, StageOf(id)) && Read(r, id) == Read(StageAlone(g, l, StageOf(id)), id)
    else Read(r, id) == Read(g, id)
  }

  /** Running the next stage extends the prefix by one. */
  lemma Extend(g: GaugeSet, r: GaugeSet, l: Listings, k: Kind, id: Registry.GaugeId)
    requires CanRun(l, k) && PrefixRead(g, r, l, Order(k), id)
    ensures PrefixRead(g, StageAlone(r, l, k), l, Order(k) + 1, id)
  {
    if StageOf(id) == k { StageLocal(r, g, l, k, id); } else { StageFrame(r, l, k, id); }
  }

  // The collectors the first one to five stages leave, for any kinds run in
  // listing order.

  lemma Prefix1(g: GaugeSet, l: Listings, k1: Kind, id: Registry.GaugeId)
    requires CanRun(l, k1) && Order(k1) == 0
    ensures PrefixRead(g, StageAlone(g, l, k1), l, 1, id)
  {
    Extend(g, g, l, k1, id);
  }

  lemma Prefix2(g: GaugeSet, l: Listings, k1: Kind, k2: Kind, id: Registry.GaugeId)
    requires CanRun(l, k1) && Order(k1) == 0
    requires CanRun(l, k2) && Order(k2) == 1
    ensures PrefixRead(g, StageAlone(StageAlone(g, l, k1), l, k2), l, 2, id)
  {
    Prefix1(g, l, k1, id);
    Extend(g, StageAlone(g, l, k1), l, k2, id);
  }

  lemma Prefix3(g: GaugeSet, l: Listings, k1: Kind, k2: Kind, k3: Kind, id: Registry.GaugeId)
    requires CanRun(l, k1) && Order(k1) == 0
    requires CanRun(l, k2) && Order(k2) == 1
    requires CanRun(l, k3) && Order(k3) == 2
    ensures PrefixRead(g, StageAlone(StageAlone(StageAlone(g, l, k1), l, k2), l, k3), l, 3, id)
  {
    Prefix2(g, l, k1, k2, id);
    Extend(g, StageAlone(StageAlone(g, l, k1), l, k2), l, k3, id);
  }

  lemma Prefix4(g: GaugeSet, l: Listings, k1: Kind, k2: Kind, k3: Kind, k4: Kind, id: Registry.GaugeId)
    requires CanRun(l, k1) && Order(k1) == 0
    requires CanRun(l, k2) && Order(k2) == 1
    requires CanRun(l, k3) && Order(k3) == 2
    requires CanRun(l, k4) && Order(k4) == 3
    ensures PrefixRead(g, StageAlone(StageAlone(StageAlone(StageAlone(g, l, k1), l, k2), l, k3), l, k4), l, 4, id)
  {
    Prefix3(g, l, k1, k2, k3, id);
    Extend(g, StageAlone(StageAlone(StageAlone(g, l, k1), l, k2), l, k3), l, k4, id);
  }

  lemma Prefix5(g: GaugeSet, l: Listings, k1: Kind, k2: Kind, k3: Kind, k4: Kind, k5: Kind, id: Registry.GaugeId)
    requires CanRun(l, k1) && Order(k1) == 0
    requires CanRun(l, k2) && Order(k2) == 1
    requires CanRun(l, k3) && Order(k3) == 2
    requires CanRun(l, k4) && Order(k4) == 3
    requires CanRun(l, k5) && Order(k5) == 4
    ensures PrefixRead(g, StageAlone(StageAlone(StageAlone(StageAlone(StageAlone(g, l, k1), l, k2), l, k3), l, k4), l, k5), l, 5, id)
  {
    Prefix4(g, l, k1, k2, k3, k4, id);
    Extend(g, StageAlone(StageAlone(StageAlone(StageAlone(g, l, k1), l, k2), l, k3), l, k4), l, k5, id);
  }

  /** After the first `n` stages, with exactly those completed, every collector reads as staged. */
  lemma PrefixStaged(g: GaugeSet, r: GaugeSet, l: Listings, n: nat, id: Registry.GaugeId)
    requires PrefixRead(g, r, l, n, id)
    requires Completed(l, StageOf(id)) <==> Order(StageOf(id)) < n
    ensures ReadsAsStaged(g, r, l, id)
  {
  }

  // `ReadsAsStaged` for the gauges a pass leaves, one lemma per listing it stops at.

  lemma ReadAtNodes(g: GaugeSet, l: Listings, now: int, id: Registry.GaugeId)
    requires NoNilReplicas(l) && l.nodes.Err?
    ensures ReadsAsStaged(g, MetricsJSONHandler(g, l, now).gauges, l, id)
  {
    CompletedByKind(l);
    StopsAtNodes(g, l, now);
    PrefixStaged(g, g, l, 0, id);
  }

  lemma ReadAtPods(g: GaugeSet, l: Listings, now: int, id: Registry.GaugeId)
    requires NoNilReplicas(l) && l.nodes.Ok? && l.pods.Err?
    ensures ReadsAsStaged(g, MetricsJSONHandler(g, l, now).gauges, l, id)
  {
    CompletedByKind(l);
    var g1 := StageAlone(g, l, Nodes);
    StopsAtPods(g, l, now);
    Prefix1(g, l, Nodes, id);
    PrefixStaged(g, g1, l, 1, id);
  }

  lemma ReadAtNamespaces(g: GaugeSet, l: Listings, now: int, id: Registry.GaugeId)
    requires NoNilReplicas(l) && l.nodes.Ok? && l.pods.Ok? && l.namespaces.Err?
    ensures ReadsAsStaged(g, MetricsJSONHandler(g, l, now).gauges, l, id)
  {
    CompletedByKind(l);
    var g1 := StageAlone(g, l, Nodes);
    var g2 := StageAlone(g1, l, Pods);
    StopsAtNamespaces(g, l, now);
    Prefix2(g, l, Nodes, Pods, id);
    PrefixStaged(g, g2, l, 2, id);
  }

  lemma ReadAtDeployments(g: GaugeSet, l: Listings, now: int, id: Registry.GaugeId)
    requires NoNilReplicas(l) && l.nodes.Ok? && l.pods.Ok? && l.namespaces.Ok? && l.deployments.Err?
    ensures ReadsAsStaged(g, MetricsJSONHandler(g, l, now).gauges, l, id)
  {
    CompletedByKind(l);
    var g1 := StageAlone(g, l, Nodes);
    var g2 := StageAlone(g1, l, Pods);
    var g3 := StageAlone(g2, l, Namespaces);
    StopsAtDeployments(g, l, now);
    Prefix3(g, l, Nodes, Pods, Namespaces, id);
    PrefixStaged(g, g3, l, 3, id);
  }

  lemma ReadAtServices(g: GaugeSet, l: Listings, now: int, id: Registry.GaugeId)
    requires NoNilReplicas(l) && l.nodes.Ok? && l.pods.Ok? && l.namespaces.Ok? && l.deployments.Ok? && l.services.Err?
    ensures ReadsAsStaged(g, MetricsJSONHandler(g, l, now).gauges, l, id)
  {
    CompletedByKind(l);
    var g1 := StageAlone(g, l, Nodes);
    var g2 := StageAlone(g1, l, Pods);
    var g3 := StageAlone(g2, l, Namespaces);
    var g4 := StageAlone(g3, l, Deployments);
    StopsAtServices(g, l, now);
    Prefix4(g, l, Nodes, Pods, Namespaces, Deployments, id);
    PrefixStaged(g, g4, l, 4, id);
  }

  lemma ReadAtEnd(g: GaugeSet, l: Listings, now: int, id: Registry.GaugeId)
    requires NoNilReplicas(l) && l.nodes.Ok? && l.pods.Ok? && l.namespaces.Ok? && l.deployments.Ok? && l.services.Ok?
    ensures ReadsAsStaged(g, MetricsJSONHandler(g, l, now).gauges, l, id)
  {
    CompletedByKind(l);
    var g1 := StageAlone(g, l, Nodes);
    var g2 := StageAlone(g1, l, Pods);
    var g3 := StageAlone(g2, l, Namespaces);
    var g4 := StageAlone(g3, l, Deployments);
    var g5 := StageAlone(g4, l, Services);
    RunsToEnd(g, l, now);
    Prefix5(g, l, Nodes, Pods, Namespaces, Deployments, Services, id);
    PrefixStaged(g, g5, l, 5, id);
  }

  /** One collector after a pass holds what `ReadsAsStaged` says. */
  lemma PassRead(g: GaugeSet, l: Listings, now: int, id: Registry.GaugeId)
    requires NoNilReplicas(l)
    ensures ReadsAsStaged(g, MetricsJSONHandler(g, l, now).gauges, l, id)
  {
    if l.nodes.Err? {
      ReadAtNodes(g, l, now, id);
    } else if l.pods.Err? {
      ReadAtPods(g, l, now, id);
    } else if l.namespaces.Err? {
      ReadAtNamespaces(g, l, now, id);
    } else if l.deployments.Err? {
      ReadAtDeployments(g, l, now, id);
    } else if l.services.Err? {
      ReadAtServices(g, l, now, id);
    } else {
      ReadAtEnd(g, l, now, id);
    }
  }

  /** `PassRead` for every collector at once. */
  lemma PassStaged(g: GaugeSet, l: Listings, now: int)
    requires NoNilReplicas(l)
    ensures forall id :: ReadsAsStaged(g, MetricsJSONHandler(g, l, now).gauges, l, id)
  {
    forall id ensures ReadsAsStaged(g, MetricsJSONHandler(g, l, now).gauges, l, id) {
      PassRead(g, l, now, id);
    }
  }

  /** A collector that two passes over the same listings both read as staged is left alone by the second. */
  lemma SecondPassRead(g: GaugeSet, r1: GaugeSet, r2: GaugeSet, l: Listings, id: Registry.GaugeId)
    requires ReadsAsStaged(g, r1, l, id) && ReadsAsStaged(r1, r2, l, id)
    ensures Read(r2, id) == Read(r1, id)
  {
    var k := StageOf(id);
    if Completed(l, k) {
      StageLocal(r1, StageAlone(g, l, k), l, k, id);
      StageIdempotent(g, l, k);
    }
  }

  /**
   * A second scrape of an unchanged cluster leaves every collector as the
   * first one left it, whether the first scrape succeeded or stopped at a
   * failed listing.
   */
  lemma PassIdempotent(g: GaugeSet, l: Listings, t1: int, t2: int)
    requires NoNilReplicas(l)
    ensures MetricsJSONHandler(MetricsJSONHandler(g, l, t1).gauges, l, t2).gauges == MetricsJSONHandler(g, l, t1).gauges
  {
    var r1 := MetricsJSONHandler(g, l, t1).gauges;
    var r2 := MetricsJSONHandler(r1, l, t2).gauges;
    forall id ensures Read(r2, id) == Read(r1, id) {
      PassRead(g, l, t1, id);
      PassRead(r1, l, t2, id);
      SecondPassRead(g, r1, r2, l, id);
    }
    ReadExtensional(r2, r1);
  }

  /**
   * The answer of a pass depends on the listings and the clock only, never on
   * what the collectors held before: a repeated scrape of an unchanged
   * cluster gives the same error, or the same snapshot with a new timestamp.
   */
  lemma ReplyIgnoresGauges(g: GaugeSet, h: GaugeSet, l: Listings, t1: int, t2: int)
    requires NoNilReplicas(l)
    ensures MetricsJSONHandler(g, l, t1).reply.Failure? ==>
      MetricsJSONHandler(h, l, t2).reply == MetricsJSONHandler(g, l, t1).reply
    ensures MetricsJSONHandler(g, l, t1).reply.Json? ==>
      MetricsJSONHandler(h, l, t2).reply == Json(MetricsJSONHandler(g, l, t1).reply.metrics.(timestamp := t2))
  {
    if FirstFailure(l).None? {
      assert ListingOk(l, Nodes) && ListingOk(l, Pods) && ListingOk(l, Namespaces);
      assert ListingOk(l, Deployments) && ListingOk(l, Services);
      RepliesOnSuccess(g, l, t1);
      RepliesOnSuccess(h, l, t2);
    }
  }

  /**
   * After a successful pass the phase tallies of the snapshot add up to its
   * pod count, and each phase counts exactly the pods in it.
   */
  lemma PhasesSumToPodCount(g: GaugeSet, l: Listings, now: int)
    requires NoNilReplicas(l)
    ensures var r := MetricsJSONHandler(g, l, now).reply;
      r.Json? ==>
        && HandlerProperties.SumValues(r.metrics.podPhases) == r.metrics.podCount
        && (forall phase :: phase in r.metrics.podPhases <==> HandlerProperties.CountPhase(l.pods.value, phase) > 0)
        && (forall phase :: phase in r.metrics.podPhases ==>
              r.metrics.podPhases[phase] == HandlerProperties.CountPhase(l.pods.value, phase))
  {
    if FirstFailure(l).None? {
      assert ListingOk(l, Nodes) && ListingOk(l, Pods) && ListingOk(l, Namespaces);
      assert ListingOk(l, Deployments) && ListingOk(l, Services);
      RepliesOnSuccess(g, l, now);
      HandlerProperties.TallySumsToPodCount(l.pods.value);
      HandlerProperties.TallyCounts(l.pods.value);
    }
  }

  /** PodStatus, once the pod stage completed, holds what that stage wrote. */
  lemma PodStatusOf(g: GaugeSet, r: GaugeSet, l: Listings)
    requires CanRun(l, Pods)
    requires Read(r, Registry.PodStatus) == Read(StageAlone(g, l, Pods), Registry.PodStatus)
    ensures r.podStatus == PodStage(g, l.pods.value).podStatus
  {
    PodStatusFamily(StageAlone(g, l, Pods), r);
  }

  // Two gauge sets that read the same on a collector hold the same family in
  // the field behind it.

  lemma PodStatusFamily(a: GaugeSet, r: GaugeSet)
    requires Read(r, Registry.PodStatus) == Read(a, Registry.PodStatus)
    ensures r.podStatus == a.podStatus
  {
  }

  lemma NodeReadyFamily(a: GaugeSet, r: GaugeSet)
    requires Read(r, Registry.NodeReady) == Read(a, Registry.NodeReady)
    ensures r.nodeReady == a.nodeReady
  {
  }

  /**
   * A collector whose stage completed reads as that stage wrote it; the
   * stage is named by the caller, so that it appears as a literal kind.
   */
  lemma CompletedRead(g: GaugeSet, r: GaugeSet, l: Listings, id: Registry.GaugeId, k: Kind)
    requires StageOf(id) == k && Completed(l, k) && ReadsAsStaged(g, r, l, id)
    ensures CanRun(l, k) && Read(r, id) == Read(StageAlone(g, l, k), id)
  {
  }

  /**
   * Once the pod stage has run, PodStatus has no series for a (namespace,
   * phase) pair that no listed pod has: series of pods that are gone are
   * dropped, not left at their old count.
   */
  lemma PodStatusPruned(g: GaugeSet, l: Listings, now: int)
    requires NoNilReplicas(l)
    requires l.nodes.Ok? && l.pods.Ok?
    ensures var f := MetricsJSONHandler(g, l, now).gauges.podStatus;
      && (forall k :: k in f <==> exists i :: 0 <= i < |l.pods.value| && k == [l.pods.value[i].namespace, l.pods.value[i].phase])
      && (forall ns, phase :: Get(f, [ns, phase]) == HandlerProperties.CountIn(l.pods.value, ns, phase) as real)
  {
    PassPodStatus(g, l, now);
    HandlerProperties.PhaseCountValues(l.pods.value);
    HandlerProperties.PhaseCountKeys(l.pods.value);
  }

  // ----- label shapes -----

  lemma ArityOne(nodes: seq<Node>)
    ensures WritesHaveArity(ReadyWrites(nodes), 1)
    ensures WritesHaveArity(CpuAllocatableWrites(nodes), 1)
    ensures WritesHaveArity(MemoryAllocatableWrites(nodes), 1)
  {
  }

  /** A stage writes into each of its families only tuples of the declared label count. */
  lemma StageShaped(g: GaugeSet, l: Listings, k: Kind, id: Registry.GaugeId)
    requires CanRun(l, k) && StageOf(id) == k
    requires Read(g, id).Series? ==> HasArity(Read(g, id).family, Registry.Arity(id))
    ensures Read(StageAlone(g, l, k), id).Series? ==>
      HasArity(Read(StageAlone(g, l, k), id).family, Registry.Arity(id))
  {
    match k
    case Nodes => NodeStageShaped(g, l.nodes.value, id);
    case Pods => PodStageShaped(g, l.pods.value, id);
    case Namespaces =>
    case Deployments => DeploymentStageShaped(g, l.deployments.value, id);
    case Services =>
  }

  lemma NodeStageShaped(g: GaugeSet, nodes: seq<Node>, id: Registry.GaugeId)
    requires StageOf(id) == Nodes
    requires Read(g, id).Series? ==> HasArity(Read(g, id).family, Registry.Arity(id))
    ensures Read(NodeStage(g, nodes), id).Series? ==>
      HasArity(Read(NodeStage(g, nodes), id).family, Registry.Arity(id))
  {
    ArityOne(nodes);
    if id == Registry.NodeReady {
      ApplyArity(map[], ReadyWrites(nodes), 1);
    } else if id == Registry.CPUAllocatable {
      ApplyArity(g.cpuAllocatable, CpuAllocatableWrites(nodes), 1);
    } else if id == Registry.MemoryAllocatable {
      ApplyArity(g.memoryAllocatable, MemoryAllocatableWrites(nodes), 1);
    }
  }

  lemma PodStageShaped(g: GaugeSet, pods: seq<Pod>, id: Registry.GaugeId)
    requires StageOf(id) == Pods
    ensures Read(PodStage(g, pods), id).Series? ==>
      HasArity(Read(PodStage(g, pods), id).family, Registry.Arity(id))
  {
    PodFamiliesShaped(g, pods);
    PodReadShaped(PodStage(g, pods), id);
  }

  lemma PodReadShaped(x: GaugeSet, id: Registry.GaugeId)
    requires StageOf(id) == Pods
    requires HasArity(x.podStatus, 2) && HasArity(x.containerRestarts, 3)
    requires HasArity(x.cpuRequests, 1) && HasArity(x.memoryRequests, 1)
    requires HasArity(x.cpuLimits, 1) && HasArity(x.memoryLimits, 1)
    ensures Read(x, id).Series? ==> HasArity(Read(x, id).family, Registry.Arity(id))
  {
  }

  /** The label counts of the families the pod stage writes. */
  lemma PodFamiliesShaped(g: GaugeSet, pods: seq<Pod>)
    ensures HasArity(PodStage(g, pods).podStatus, 2)
    ensures HasArity(PodStage(g, pods).containerRestarts, 3)
    ensures HasArity(PodStage(g, pods).cpuRequests, 1) && HasArity(PodStage(g, pods).memoryRequests, 1)
    ensures HasArity(PodStage(g, pods).cpuLimits, 1) && HasArity(PodStage(g, pods).memoryLimits, 1)
  {
    IncAllArity(map[], PhaseKeys(pods), 2);
    RestartsShaped(pods);
    HandlerProperties.NamespaceFamilySpec(Sums(pods, CpuRequest));
    HandlerProperties.NamespaceFamilySpec(Sums(pods, MemoryRequest));
    HandlerProperties.NamespaceFamilySpec(Sums(pods, CpuLimit));
    HandlerProperties.NamespaceFamilySpec(Sums(pods, MemoryLimit));
  }

  lemma DeploymentStageShaped(g: GaugeSet, ds: seq<Deployment>, id: Registry.GaugeId)
    requires ReplicasSet(ds) && StageOf(id) == Deployments
    ensures Read(DeploymentStage(g, ds), id).Series? ==>
      HasArity(Read(DeploymentStage(g, ds), id).family, Registry.Arity(id))
  {
    ApplyArity(map[], DesiredWrites(ds), 2);
    ApplyArity(map[], AvailableWrites(ds), 2);
  }

  lemma {:induction false} RestartWritesShaped(pods: seq<Pod>)
    ensures WritesHaveArity(RestartWrites(pods), 3)
  {
    if |pods| > 0 {
      RestartWritesShaped(pods[..|pods| - 1]);
    }
  }

  lemma RestartsShaped(pods: seq<Pod>)
    ensures HasArity(Apply(map[], RestartWrites(pods)), 3)
  {
    RestartWritesShaped(pods);
    ApplyArity(map[], RestartWrites(pods), 3);
  }

  /** A pass keeps every family to its declared label count. */
  lemma PassWellShaped(g: GaugeSet, l: Listings, now: int)
    requires NoNilReplicas(l) && WellShaped(g)
    ensures WellShaped(MetricsJSONHandler(g, l, now).gauges)
  {
    var r := MetricsJSONHandler(g, l, now).gauges;
    forall id | Read(r, id).Series? ensures HasArity(Read(r, id).family, Registry.Arity(id)) {
      PassRead(g, l, now, id);
      if Completed(l, StageOf(id)) {
        StageShaped(g, l, StageOf(id), id);
      }
    }
  }

  /** Freshly constructed collectors are well shaped. */
  lemma FreshWellShaped()
    ensures WellShaped(Fresh)
  {
  }

  // ----- scenarios -----

  /**
   * An empty cluster scraped with fresh collectors: every count is zero, the
   * phase map is empty and every collector stays at its initial value.
   */
  lemma EmptyCluster(now: int)
    ensures var r := MetricsJSONHandler(Fresh, Listings(Ok([]), Ok([]), Ok([]), Ok([]), Ok([])), now);
      && r.reply == Json(ClusterMetrics(0, 0, 0, 0, 0, map[], now))
      && r.gauges == Fresh
  {
    var l := Listings(Ok([]), Ok([]), Ok([]), Ok([]), Ok([]));
    var r := MetricsJSONHandler(Fresh, l, now);
    assert Sums([], CpuRequest) == map[];
    assert NamespaceFamily(map[]) == map[];
    assert r.gauges.podStatus == map[];
  }

  /**
   * One ready node, one running pod in "default" with a single container that
   * declares nothing, one namespace, one service and no deployments.
   */
  function OneOfEachListings(): Listings
  {
    Listings(
      Ok([Node("node1", [Condition("Ready", "True")], 0, 0, "", "", map[])]),
      Ok([Pod("default", "pod1", "Running", [Container("container1", Quantities(None, None), Quantities(None, None))], [])]),
      Ok([Namespace("default")]),
      Ok([]),
      Ok([Service("default", "svc1")]))
  }

  /** The snapshot for that cluster counts one of each and one running pod. */
  lemma OneOfEachReply(now: int)
    ensures MetricsJSONHandler(Fresh, OneOfEachListings(), now).reply ==
      Json(ClusterMetrics(1, 1, 0, 1, 1, map["Running" := 1], now))
  {
    var l := OneOfEachListings();
    RepliesOnSuccess(Fresh, l, now);
    assert l.pods.value[..0] == [];
  }

  /** The node is reported ready. */
  lemma OneOfEachNodeReady(now: int)
    ensures MetricsJSONHandler(Fresh, OneOfEachListings(), now).gauges.nodeReady == map[["node1"] := 1.0]
  {
    PassNodeReady(Fresh, OneOfEachListings(), now);
    OneOfEachReadyWrites();
  }

  lemma OneOfEachReadyWrites()
    ensures Apply(map[], ReadyWrites(OneOfEachListings().nodes.value)) == map[["node1"] := 1.0]
  {
    var l := OneOfEachListings();
    var node := l.nodes.value[0];
    assert IsReady(node) by {
      assert IsReadyTrue(node.conditions[0]);
    }
    var w := ReadyWrites(l.nodes.value);
    assert w == [Write(["node1"], 1.0)];
    assert w[..0] == [];
  }

  /** Once the node stage has run, NodeReady holds exactly what its writes put there. */
  lemma PassNodeReady(g: GaugeSet, l: Listings, now: int)
    requires NoNilReplicas(l) && l.nodes.Ok?
    ensures MetricsJSONHandler(g, l, now).gauges.nodeReady == Apply(map[], ReadyWrites(l.nodes.value))
  {
    PassRead(g, l, now, Registry.NodeReady);
    NodeReadyStaged(g, MetricsJSONHandler(g, l, now).gauges, l);
  }

  /** NodeReady read as staged, with the node stage completed, is the readiness writes of the listed nodes. */
  lemma NodeReadyStaged(g: GaugeSet, r: GaugeSet, l: Listings)
    requires l.nodes.Ok? && ReadsAsStaged(g, r, l, Registry.NodeReady)
    ensures r.nodeReady == Apply(map[], ReadyWrites(l.nodes.value))
  {
    CompletedByKind(l);
    CompletedRead(g, r, l, Registry.NodeReady, Nodes);
    NodeReadyOf(g, r, l);
  }

  lemma NodeReadyOf(g: GaugeSet, r: GaugeSet, l: Listings)
    requires CanRun(l, Nodes)
    requires Read(r, Registry.NodeReady) == Read(StageAlone(g, l, Nodes), Registry.NodeReady)
    ensures r.nodeReady == Apply(map[], ReadyWrites(l.nodes.value))
  {
    NodeReadyFamily(StageAlone(g, l, Nodes), r);
  }

  /** Once the pod stage has run, PodStatus holds exactly the increments of its pods. */
  lemma PassPodStatus(g: GaugeSet, l: Listings, now: int)
    requires NoNilReplicas(l) && l.nodes.Ok? && l.pods.Ok?
    ensures MetricsJSONHandler(g, l, now).gauges.podStatus == IncAll(map[], PhaseKeys(l.pods.value))
  {
    PassRead(g, l, now, Registry.PodStatus);
    PodStatusStaged(g, MetricsJSONHandler(g, l, now).gauges, l);
  }

  /** PodStatus read as staged, with the pod stage completed, is the increments of the listed pods. */
  lemma PodStatusStaged(g: GaugeSet, r: GaugeSet, l: Listings)
    requires l.nodes.Ok? && l.pods.Ok? && ReadsAsStaged(g, r, l, Registry.PodStatus)
    ensures r.podStatus == IncAll(map[], PhaseKeys(l.pods.value))
  {
    CompletedByKind(l);
    CompletedRead(g, r, l, Registry.PodStatus, Pods);
    PodStatusOf(g, r, l);
    HandlerProperties.PodStatusField(g, l.pods.value);
  }

  /** PodStatus holds the single running pod of "default". */
  lemma OneOfEachPodStatus(now: int)
    ensures MetricsJSONHandler(Fresh, OneOfEachListings(), now).gauges.podStatus == map[["default", "Running"] := 1.0]
  {
    PassPodStatus(Fresh, OneOfEachListings(), now);
    OneOfEachPhaseKeys();
  }

  lemma OneOfEachPhaseKeys()
    ensures IncAll(map[], PhaseKeys(OneOfEachListings().pods.value)) == map[["default", "Running"] := 1.0]
  {
    var keys := PhaseKeys(OneOfEachListings().pods.value);
    assert keys == [["default", "Running"]];
    assert keys[..0] == [];
  }
}
