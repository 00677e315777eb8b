/**
 * The JSON snapshot handler of internal/handlers: five listings, requested in
 * the order nodes, pods, namespaces, deployments, services, folded into a
 * snapshot of counts and pod phases while the gauges are rewritten stage by
 * stage. The first listing that fails ends the pass with a 500; the gauges
 * written by earlier stages keep their new values.
 */
module Handlers {
  import opened Wrappers
  import opened Cluster
  import opened Gauges
  import Http
  import Registry

  /** The values of the sixteen collectors of `PrometheusMetrics`. */
  datatype GaugeSet = GaugeSet(
    nodeCount: real,
    podCount: real,
    deploymentCount: real,
    serviceCount: real,
    namespaceCount: real,
    nodeReady: Family,
    podStatus: Family,
    deploymentDesired: Family,
    deploymentAvailable: Family,
    containerRestarts: Family,
    cpuAllocatable: Family,
    memoryAllocatable: Family,
    cpuRequests: Family,
    memoryRequests: Family,
    cpuLimits: Family,
    memoryLimits: Family)

  /** Freshly constructed collectors: every gauge at zero, every family empty. */
  const Fresh := GaugeSet(0.0, 0.0, 0.0, 0.0, 0.0,
    map[], map[], map[], map[], map[], map[], map[], map[], map[], map[], map[])

  /** What one collector currently holds. */
  datatype Reading = Scalar(value: real) | Series(family: Family)

  function Read(g: GaugeSet, id: Registry.GaugeId): Reading
  {
    match id
    case NodeCount => Scalar(g.nodeCount)
    case PodCount => Scalar(g.podCount)
    case DeploymentCount => Scalar(g.deploymentCount)
    case ServiceCount => Scalar(g.serviceCount)
    case NamespaceCount => Scalar(g.namespaceCount)
    case NodeReady => Series(g.nodeReady)
    case PodStatus => Series(g.podStatus)
    case DeploymentDesired => Series(g.deploymentDesired)
    case DeploymentAvailable => Series(g.deploymentAvailable)
    case ContainerRestarts => Series(g.containerRestarts)
    case CPUAllocatable => Series(g.cpuAllocatable)
    case MemoryAllocatable => Series(g.memoryAllocatable)
    case CPURequests => Series(g.cpuRequests)
    case MemoryRequests => Series(g.memoryRequests)
    case CPULimits => Series(g.cpuLimits)
    case MemoryLimits => Series(g.memoryLimits)
  }

  /** Every family holds only tuples of the label count its descriptor declares. */
  predicate WellShaped(g: GaugeSet)
  {
    forall id :: Read(g, id).Series? ==> HasArity(Read(g, id).family, Registry.Arity(id))
  }

  function BoolToFloat(b: bool): real
  {
    if b then 1.0 else 0.0
  }

  // ----- nodes -----

  function ReadyWrites(nodes: seq<Node>): (w: seq<Write>)
    ensures |w| == |nodes|
  {
    seq(|nodes|, i requires 0 <= i < |nodes| => Write([nodes[i].name], BoolToFloat(IsReady(nodes[i]))))
  }

  function CpuAllocatableWrites(nodes: seq<Node>): (w: seq<Write>)
    ensures |w| == |nodes|
  {
    seq(|nodes|, i requires 0 <= i < |nodes| => Write([nodes[i].name], nodes[i].cpuMilli as real / 1000.0))
  }

  function MemoryAllocatableWrites(nodes: seq<Node>): (w: seq<Write>)
    ensures |w| == |nodes|
  {
    seq(|nodes|, i requires 0 <= i < |nodes| => Write([nodes[i].name], nodes[i].memoryBytes as real))
  }

  /**
   * The node stage: set the count, reset NodeReady, then for each node in
   * listing order write its readiness and allocatable CPU and memory. The two
   * allocatable families are never reset.
   */
  function NodeStage(g: GaugeSet, nodes: seq<Node>): GaugeSet
  {
    g.(nodeCount := |nodes| as real,
       nodeReady := Apply(Reset(g.nodeReady), ReadyWrites(nodes)),
       cpuAllocatable := Apply(g.cpuAllocatable, CpuAllocatableWrites(nodes)),
       memoryAllocatable := Apply(g.memoryAllocatable, MemoryAllocatableWrites(nodes)))
  }

  // ----- pods -----

  /** `podPhases[phase]++` for each pod in order; a missing phase counts from zero. */
  function Tally(pods: seq<Pod>): map<string, int>
  {
    if |pods| == 0 then map[]
    else
      var m := Tally(pods[..|pods| - 1]);
      var phase := pods[|pods| - 1].phase;
      m[phase := (if phase in m then m[phase] else 0) + 1]
  }

  /** The tuple each pod increments in PodStatus. */
  function PhaseKeys(pods: seq<Pod>): (keys: seq<Labels>)
    ensures |keys| == |pods|
  {
    seq(|pods|, i requires 0 <= i < |pods| => [pods[i].namespace, pods[i].phase])
  }

  function RestartWrite(p: Pod, s: ContainerStatus): Write
  {
    Write([p.namespace, p.name, s.name], s.restartCount as real)
  }

  /** The restart-count writes of one pod, in container-status order. */
  function StatusWrites(p: Pod): (w: seq<Write>)
    ensures |w| == |p.statuses|
  {
    seq(|p.statuses|, j requires 0 <= j < |p.statuses| => RestartWrite(p, p.statuses[j]))
  }

  /** Every restart-count write of the pod loop, in the order the loop makes them. */
  function RestartWrites(pods: seq<Pod>): seq<Write>
  {
    if |pods| == 0 then [] else RestartWrites(pods[..|pods| - 1]) + StatusWrites(pods[|pods| - 1])
  }

  /** The four per-namespace resource sums. */
  datatype Resource = CpuRequest | MemoryRequest | CpuLimit | MemoryLimit

  /**
   * The amount a container adds to a resource sum, if it declares the
   * resource: CPU as `MilliValue() / 1000` cores, memory as `Value()` bytes.
   */
  function Declared(c: Container, r: Resource): Option<real>
  {
    match r
    case CpuRequest => if c.requests.cpuMilli.Some? then Some(c.requests.cpuMilli.value as real / 1000.0) else None
    case MemoryRequest => if c.requests.memoryBytes.Some? then Some(c.requests.memoryBytes.value as real) else None
    case CpuLimit => if c.limits.cpuMilli.Some? then Some(c.limits.cpuMilli.value as real / 1000.0) else None
    case MemoryLimit => if c.limits.memoryBytes.Some? then Some(c.limits.memoryBytes.value as real) else None
  }

  /** `sums[ns] += q` for each container, in order, that declares the resource. */
  function AddContainers(sums: map<string, real>, ns: string, cs: seq<Container>, r: Resource): map<string, real>
  {
    if |cs| == 0 then sums
    else
      var m := AddContainers(sums, ns, cs[..|cs| - 1], r);
      match Declared(cs[|cs| - 1], r)
      case Some(q) => m[ns := (if ns in m then m[ns] else 0.0) + q]
      case None => m
  }

  /** The map the pod loop builds for one resource (`cpuReq`, `memReq`, `cpuLim` or `memLim`). */
  function Sums(pods: seq<Pod>, r: Resource): map<string, real>
  {
    if |pods| == 0 then map[]
    else
      var p := pods[|pods| - 1];
      AddContainers(Sums(pods[..|pods| - 1], r), p.namespace, p.containers, r)
  }

  /** Reset a namespace family, then `WithLabelValues(ns).Set(v)` for every entry of the map. */
  function NamespaceFamily(sums: map<string, real>): Family
  {
    map ns | ns in sums :: [ns] := sums[ns]
  }

  /**
   * The pod stage: set the count, reset PodStatus and ContainerRestarts, fold
   * the pods (PodStatus increments, restart counts, resource sums; the phase
   * tally of the same loop is `Tally`), then reset the four namespace families and set them from the sums.
   * Each family is written by its own sequence of calls, so the per-pod
   * interleaving of the loop does not change the outcome.
   */
  function PodStage(g: GaugeSet, pods: seq<Pod>): GaugeSet
  {
    g.(podCount := |pods| as real,
       podStatus := IncAll(Reset(g.podStatus), PhaseKeys(pods)),
       containerRestarts := Apply(Reset(g.containerRestarts), RestartWrites(pods)),
       cpuRequests := NamespaceFamily(Sums(pods, CpuRequest)),
       memoryRequests := NamespaceFamily(Sums(pods, MemoryRequest)),
       cpuLimits := NamespaceFamily(Sums(pods, CpuLimit)),
       memoryLimits := NamespaceFamily(Sums(pods, MemoryLimit)))
  }

  // ----- namespaces, deployments, services -----

  function NamespaceStage(g: GaugeSet, namespaces: seq<Namespace>): GaugeSet
  {
    g.(namespaceCount := |namespaces| as real)
  }

  /** Every deployment has `spec.replicas` set (the source dereferences it unchecked). */
  predicate ReplicasSet(deployments: seq<Deployment>)
  {
    forall i :: 0 <= i < |deployments| ==> deployments[i].specReplicas.Some?
  }

  function DesiredWrites(deployments: seq<Deployment>): (w: seq<Write>)
    requires ReplicasSet(deployments)
    ensures |w| == |deployments|
  {
    seq(|deployments|, i requires 0 <= i < |deployments| =>
      Write([deployments[i].namespace, deployments[i].name], deployments[i].specReplicas.value as real))
  }

  function AvailableWrites(deployments: seq<Deployment>): (w: seq<Write>)
    ensures |w| == |deployments|
  {
    seq(|deployments|, i requires 0 <= i < |deployments| =>
      Write([deployments[i].namespace, deployments[i].name], deployments[i].availableReplicas as real))
  }

  function DeploymentStage(g: GaugeSet, deployments: seq<Deployment>): GaugeSet
    requires ReplicasSet(deployments)
  {
    g.(deploymentCount := |deployments| as real,
       deploymentDesired := Apply(Reset(g.deploymentDesired), DesiredWrites(deployments)),
       deploymentAvailable := Apply(Reset(g.deploymentAvailable), AvailableWrites(deployments)))
  }

  function ServiceStage(g: GaugeSet, services: seq<Service>): GaugeSet
  {
    g.(serviceCount := |services| as real)
  }

  // ----- the pass -----

  /** The five listings one pass may request; a stage never reached never looks at its listing. */
  datatype Listings = Listings(
    nodes: Listing<Node>,
    pods: Listing<Pod>,
    namespaces: Listing<Namespace>,
    deployments: Listing<Deployment>,
    services: Listing<Service>)

  datatype Kind = Nodes | Pods | Namespaces | Deployments | Services

  /** Position of a kind in the listing order. */
  function Order(k: Kind): nat
  {
    match k
    case Nodes => 0
    case Pods => 1
    case Namespaces => 2
    case Deployments => 3
    case Services => 4
  }

  predicate ListingOk(l: Listings, k: Kind)
  {
    match k
    case Nodes => l.nodes.Ok?
    case Pods => l.pods.Ok?
    case Namespaces => l.namespaces.Ok?
    case Deployments => l.deployments.Ok?
    case Services => l.services.Ok?
  }

  function ListingError(l: Listings, k: Kind): string
    requires !ListingOk(l, k)
  {
    match k
    case Nodes => l.nodes.error
    case Pods => l.pods.error
    case Namespaces => l.namespaces.error
    case Deployments => l.deployments.error
    case Services => l.services.error
  }

  /** The listing of `k` and of every kind before it succeeded, so stage `k` ran to its end. */
  predicate Completed(l: Listings, k: Kind)
  {
    forall k' :: Order(k') <= Order(k) ==> ListingOk(l, k')
  }

  /** The first kind, in listing order, whose listing failed. */
  function FirstFailure(l: Listings): (r: Option<Kind>)
    ensures r.None? <==> forall k :: ListingOk(l, k)
    ensures r.Some? ==> !ListingOk(l, r.value) && forall k :: Order(k) < Order(r.value) ==> ListingOk(l, k)
  {
    if l.nodes.Err? then assert !ListingOk(l, Nodes); Some(Nodes)
    else if l.pods.Err? then assert !ListingOk(l, Pods); Some(Pods)
    else if l.namespaces.Err? then assert !ListingOk(l, Namespaces); Some(Namespaces)
    else if l.deployments.Err? then assert !ListingOk(l, Deployments); Some(Deployments)
    else if l.services.Err? then assert !ListingOk(l, Services); Some(Services)
    else None
  }

  /** What the source demands for the pass not to crash: if the deployment stage is reached, every deployment has its replicas set. */
  predicate NoNilReplicas(l: Listings)
  {
    l.nodes.Ok? && l.pods.Ok? && l.namespaces.Ok? && l.deployments.Ok? ==> ReplicasSet(l.deployments.value)
  }

  /** The JSON body of a successful pass; `timestamp` is the clock reading the caller supplies. */
  datatype ClusterMetrics = ClusterMetrics(
    nodeCount: int,
    podCount: int,
    deploymentCount: int,
    serviceCount: int,
    namespaceCount: int,
    podPhases: map<string, int>,
    timestamp: int)

  datatype Reply = Json(metrics: ClusterMetrics) | Failure(response: Http.Response)

  datatype Pass = Pass(reply: Reply, gauges: GaugeSet)

  /** The body of a successful pass. */
  function Snapshot(l: Listings, now: int): ClusterMetrics
    requires l.nodes.Ok? && l.pods.Ok? && l.namespaces.Ok? && l.deployments.Ok? && l.services.Ok?
  {
    ClusterMetrics(
      |l.nodes.value|, |l.pods.value|, |l.deployments.value|,
      |l.services.value|, |l.namespaces.value|, Tally(l.pods.value), now)
  }

  /** A failed listing: 500 with the listing's error text, gauges as the earlier stages left them. */
  function Stopped(err: string, g: GaugeSet): Pass
  {
    Pass(Failure(Http.Error(err, Http.StatusInternalServerError)), g)
  }

  // The pass from one listing on, given the gauges the earlier stages left.

  function ServicesOnward(g: GaugeSet, l: Listings, now: int): Pass
    requires l.nodes.Ok? && l.pods.Ok? && l.namespaces.Ok? && l.deployments.Ok?
  {
    if l.services.Err? then Stopped(l.services.error, g)
    else Pass(Json(Snapshot(l, now)), ServiceStage(g, l.services.value))
  }

  function DeploymentsOnward(g: GaugeSet, l: Listings, now: int): Pass
    requires l.nodes.Ok? && l.pods.Ok? && l.namespaces.Ok? && NoNilReplicas(l)
  {
    if l.deployments.Err? then Stopped(l.deployments.error, g)
    else ServicesOnward(DeploymentStage(g, l.deployments.value), l, now)
  }

  function NamespacesOnward(g: GaugeSet, l: Listings, now: int): Pass
    requires l.nodes.Ok? && l.pods.Ok? && NoNilReplicas(l)
  {
    if l.namespaces.Err? then Stopped(l.namespaces.error, g)
    else DeploymentsOnward(NamespaceStage(g, l.namespaces.value), l, now)
  }

  function PodsOnward(g: GaugeSet, l: Listings, now: int): Pass
    requires l.nodes.Ok? && NoNilReplicas(l)
  {
    if l.pods.Err? then Stopped(l.pods.error, g)
    else NamespacesOnward(PodStage(g, l.pods.value), l, now)
  }

  /**
   * `MetricsJSONHandler`: run the stages in listing order. A failed listing
   * answers 500 with the listing's error text and returns the gauges as the
   * earlier stages left them; otherwise the snapshot counts every listing.
   */
  function MetricsJSONHandler(g: GaugeSet, l: Listings, now: int): (r: Pass)
    requires NoNilReplicas(l)
    ensures r.reply.Json? <==> FirstFailure(l).None?
    ensures FirstFailure(l).Some? ==>
      r.reply == Failure(Http.Error(ListingError(l, FirstFailure(l).value), Http.StatusInternalServerError))
    ensures r.reply.Json? ==>
      && r.reply.metrics.nodeCount == |l.nodes.value|
      && r.reply.metrics.podCount == |l.pods.value|
      && r.reply.metrics.namespaceCount == |l.namespaces.value|
      && r.reply.metrics.deploymentCount == |l.deployments.value|
      && r.reply.metrics.serviceCount == |l.services.value|
      && r.reply.metrics.timestamp == now
  {
    if l.nodes.Err? then Stopped(l.nodes.error, g)
    else PodsOnward(NodeStage(g, l.nodes.value), l, now)
  }
}
