/**
 * The metrics side of the single-file program main.go, which the internal
 * packages replaced: five collectors (four counts and a node-status family
 * labelled by node name and "Ready"/"NotReady"), the JSON handler that lists
 * nodes, pods, deployments and services in that order and stops at the first
 * failure, the refresh run before each scrape that carries on past failures,
 * and start-up registration with MustRegister.
 */
module LegacyMetrics {
  import opened Wrappers
  import opened Cluster
  import opened Gauges
  import Http
  import Registry

  const ReadyStatus := "Ready"
  const NotReadyStatus := "NotReady"

  /** The status label and the JSON status of a node. */
  function Status(n: Node): (s: string)
    ensures s == ReadyStatus <==> IsReady(n)
    ensures s == ReadyStatus || s == NotReadyStatus
  {
    if IsReady(n) then ReadyStatus else NotReadyStatus
  }

  /** The five package-level collectors. */
  datatype LegacyGauges = LegacyGauges(
    nodeCount: real,
    podCount: real,
    deploymentCount: real,
    serviceCount: real,
    nodeStatus: Family)

  const Initial := LegacyGauges(0.0, 0.0, 0.0, 0.0, map[])

  /** One `WithLabelValues(name, status).Set(isReady)` per node, in listing order. */
  function StatusWrites(nodes: seq<Node>): (w: seq<Write>)
    ensures |w| == |nodes|
  {
    seq(|nodes|, i requires 0 <= i < |nodes| =>
      Write([nodes[i].name, Status(nodes[i])], if IsReady(nodes[i]) then 1.0 else 0.0))
  }

  /** Node count set, node-status family reset and rewritten. */
  function NodeUpdate(g: LegacyGauges, nodes: seq<Node>): LegacyGauges
  {
    g.(nodeCount := |nodes| as real, nodeStatus := Apply(Reset(g.nodeStatus), StatusWrites(nodes)))
  }

  /** A node as the JSON body shows it; quantities are kept as numbers rather than formatted. */
  datatype NodeInfo = NodeInfo(
    name: string,
    status: string,
    allocatableCpuMilli: int,
    allocatableMemoryBytes: int,
    kubeletVersion: string,
    osImage: string,
    labels: map<string, string>)

  function Info(n: Node): NodeInfo
  {
    NodeInfo(n.name, Status(n), n.cpuMilli, n.memoryBytes, n.kubeletVersion, n.osImage, n.labels)
  }

  function NodeInfos(nodes: seq<Node>): (r: seq<NodeInfo>)
    ensures |r| == |nodes|
  {
    seq(|nodes|, i requires 0 <= i < |nodes| => Info(nodes[i]))
  }

  datatype Listings = Listings(
    nodes: Listing<Node>,
    pods: Listing<Pod>,
    deployments: Listing<Deployment>,
    services: Listing<Service>)

  predicate AllOk(l: Listings)
  {
    l.nodes.Ok? && l.pods.Ok? && l.deployments.Ok? && l.services.Ok?
  }

  datatype ClusterMetrics = ClusterMetrics(
    nodeCount: int,
    podCount: int,
    deploymentCount: int,
    serviceCount: int,
    nodes: seq<NodeInfo>,
    timestamp: int)

  datatype Reply = Json(metrics: ClusterMetrics) | Failure(response: Http.Response)

  datatype Pass = Pass(reply: Reply, gauges: LegacyGauges)

  const NodesError := "Erro ao listar nós: "
  const PodsError := "Erro ao listar pods: "
  const DeploymentsError := "Erro ao listar deployments: "
  const ServicesError := "Erro ao listar services: "

  /**
   * `metricsJSONHandler`: each listing updates its gauges as soon as it
   * succeeds; the first failure answers 500 with the kind's message and the
   * error text, leaving the later gauges as they were.
   */
  function MetricsJSON(g: LegacyGauges, l: Listings, now: int): (r: Pass)
    ensures r.reply.Json? <==> AllOk(l)
    ensures l.nodes.Err? ==> r.reply == Failure(Http.Error(NodesError + l.nodes.error, 500))
    ensures l.nodes.Ok? && l.pods.Err? ==> r.reply == Failure(Http.Error(PodsError + l.pods.error, 500))
    ensures l.nodes.Ok? && l.pods.Ok? && l.deployments.Err? ==>
      r.reply == Failure(Http.Error(DeploymentsError + l.deployments.error, 500))
    ensures l.nodes.Ok? && l.pods.Ok? && l.deployments.Ok? && l.services.Err? ==>
      r.reply == Failure(Http.Error(ServicesError + l.services.error, 500))
    ensures r.reply.Json? ==>
      && r.reply.metrics.nodeCount == |l.nodes.value|
      && r.reply.metrics.podCount == |l.pods.value|
      && r.reply.metrics.deploymentCount == |l.deployments.value|
      && r.reply.metrics.serviceCount == |l.services.value|
      && |r.reply.metrics.nodes| == |l.nodes.value|
      && r.reply.metrics.timestamp == now
    ensures r.reply.Json? ==> forall i :: 0 <= i < |l.nodes.value| ==>
      && r.reply.metrics.nodes[i].name == l.nodes.value[i].name
      && (r.reply.metrics.nodes[i].status == ReadyStatus <==> IsReady(l.nodes.value[i]))
  {
    if l.nodes.Err? then Pass(Failure(Http.Error(NodesError + l.nodes.error, 500)), g)
    else
      var g1 := NodeUpdate(g, l.nodes.value);
      if l.pods.Err? then Pass(Failure(Http.Error(PodsError + l.pods.error, 500)), g1)
      else
        var g2 := g1.(podCount := |l.pods.value| as real);
        if l.deployments.Err? then Pass(Failure(Http.Error(DeploymentsError + l.deployments.error, 500)), g2)
        else
          var g3 := g2.(deploymentCount := |l.deployments.value| as real);
          if l.services.Err? then Pass(Failure(Http.Error(ServicesError + l.services.error, 500)), g3)
          else
            var g4 := g3.(serviceCount := |l.services.value| as real);
            var body := ClusterMetrics(
              |l.nodes.value|, |l.pods.value|, |l.deployments.value|, |l.services.value|,
              NodeInfos(l.nodes.value), now);
            Pass(Json(body), g4)
  }

  /**
   * The goroutine started by the Prometheus endpoint: every kind is listed;
   * an answered listing sets its gauges whatever happened to the others, and
   * a failed one leaves its own gauges as they were.
   */
  function Refresh(g: LegacyGauges, l: Listings): (r: LegacyGauges)
    ensures l.nodes.Err? ==> r.nodeCount == g.nodeCount && r.nodeStatus == g.nodeStatus
    ensures l.pods.Err? ==> r.podCount == g.podCount
    ensures l.deployments.Err? ==> r.deploymentCount == g.deploymentCount
    ensures l.services.Err? ==> r.serviceCount == g.serviceCount
    ensures l.nodes.Ok? ==>
      r.nodeCount == |l.nodes.value| as real && r.nodeStatus == NodeUpdate(g, l.nodes.value).nodeStatus
    ensures l.pods.Ok? ==> r.podCount == |l.pods.value| as real
    ensures l.deployments.Ok? ==> r.deploymentCount == |l.deployments.value| as real
    ensures l.services.Ok? ==> r.serviceCount == |l.services.value| as real
  {
    var g1 := if l.nodes.Ok? then NodeUpdate(g, l.nodes.value) else g;
    var g2 := if l.pods.Ok? then g1.(podCount := |l.pods.value| as real) else g1;
    var g3 := if l.deployments.Ok? then g2.(deploymentCount := |l.deployments.value| as real) else g2;
    if l.services.Ok? then g3.(serviceCount := |l.services.value| as real) else g3
  }

  /** The listings the JSON handler gets to see: everything after the first failure is dropped. */
  function Reached(l: Listings): (r: Listings)
    ensures AllOk(l) ==> r == l
  {
    if l.nodes.Err? then Listings(l.nodes, Err(""), Err(""), Err(""))
    else if l.pods.Err? then Listings(l.nodes, l.pods, Err(""), Err(""))
    else if l.deployments.Err? then Listings(l.nodes, l.pods, l.deployments, Err(""))
    else l
  }

  // ----- properties -----

  /**
   * The JSON handler leaves the gauges exactly as a refresh over the
   * listings it reached would: the two code paths agree on every gauge.
   */
  lemma HandlerIsRefreshOfReached(g: LegacyGauges, l: Listings, now: int)
    ensures MetricsJSON(g, l, now).gauges == Refresh(g, Reached(l))
  {
  }

  /** With every listing answered, a scrape refresh and a JSON request leave the same gauges. */
  lemma RefreshAgreesWithHandler(g: LegacyGauges, l: Listings, now: int)
    requires AllOk(l)
    ensures Refresh(g, l) == MetricsJSON(g, l, now).gauges
  {
    HandlerIsRefreshOfReached(g, l, now);
  }

  /** A failed node listing still lets the refresh update the other counts; the JSON handler does not. */
  lemma RefreshToleratesWhatHandlerDoesNot(g: LegacyGauges, l: Listings, now: int)
    requires l.nodes.Err? && l.pods.Ok?
    ensures Refresh(g, l).podCount == |l.pods.value| as real
    ensures MetricsJSON(g, l, now).gauges == g
  {
  }

  /** Refreshing twice from the same listings changes nothing more. */
  lemma RefreshIdempotent(g: LegacyGauges, l: Listings)
    ensures Refresh(Refresh(g, l), l) == Refresh(g, l)
  {
    if l.nodes.Ok? {
      var f := Apply(map[], StatusWrites(l.nodes.value));
      assert Reset(f) == map[];
    }
  }

  /**
   * The node-status family after a node update: one series per (name,
   * status) pair that some listed node has, worth 1 exactly when the status
   * is "Ready". Two nodes sharing a name but not a status leave two series.
   */
  lemma {:induction false} NodeStatusExact(g: LegacyGauges, nodes: seq<Node>)
    ensures forall k :: k in NodeUpdate(g, nodes).nodeStatus <==>
      exists i :: 0 <= i < |nodes| && k == [nodes[i].name, Status(nodes[i])]
    ensures forall k :: k in NodeUpdate(g, nodes).nodeStatus ==>
      NodeUpdate(g, nodes).nodeStatus[k] == if k[1] == ReadyStatus then 1.0 else 0.0
    ensures NodeUpdate(g, nodes).nodeCount == |nodes| as real
  {
    var w := StatusWrites(nodes);
    var f := NodeUpdate(g, nodes).nodeStatus;
    assert f == Apply(map[], w);
    forall k ensures LastWrite(w, k).Some? <==> exists i :: 0 <= i < |nodes| && k == [nodes[i].name, Status(nodes[i])] {
      StatusKey(nodes, k);
    }
    forall k | k in f ensures f[k] == if k[1] == ReadyStatus then 1.0 else 0.0 {
      LastWriteSpec(w, k);
      var i := LastIndex(w, k);
      assert w[i].value == if Status(nodes[i]) == ReadyStatus then 1.0 else 0.0;
    }
  }

  /** A status series is written exactly for the (name, status) pairs of the listing. */
  lemma StatusKey(nodes: seq<Node>, k: Labels)
    ensures LastWrite(StatusWrites(nodes), k).Some? <==>
      exists i :: 0 <= i < |nodes| && k == [nodes[i].name, Status(nodes[i])]
  {
    var w := StatusWrites(nodes);
    LastWriteSpec(w, k);
    if LastWrite(w, k).Some? {
      var i :| 0 <= i < |w| && w[i].labels == k;
      assert k == [nodes[i].name, Status(nodes[i])];
    }
    if exists i :: 0 <= i < |nodes| && k == [nodes[i].name, Status(nodes[i])] {
      var i :| 0 <= i < |nodes| && k == [nodes[i].name, Status(nodes[i])];
      assert w[i].labels == k;
    }
  }

  /** Position of the last write to `k`. */
  lemma LastIndex(w: seq<Write>, k: Labels) returns (i: nat)
    requires LastWrite(w, k).Some?
    ensures i < |w| && w[i].labels == k && LastWrite(w, k) == Some(w[i].value)
  {
    LastWriteSpec(w, k);
    var j :| 0 <= j < |w| && w[j].labels == k;
    i := j;
    while i + 1 < |w| && exists m :: i < m < |w| && w[m].labels == k
      invariant i < |w| && w[i].labels == k
      decreases |w| - i
    {
      var m :| i < m < |w| && w[m].labels == k;
      i := m;
    }
    assert IsLastWrite(w, i);
  }

  /**
   * The JSON body and the node-status family agree: for every listed node the
   * series labelled with its name and the status the body shows exists, and
   * is 1 exactly when that status is "Ready".
   */
  lemma JsonAgreesWithGauges(g: LegacyGauges, l: Listings, now: int)
    requires AllOk(l)
    ensures var r := MetricsJSON(g, l, now);
      forall i :: 0 <= i < |r.reply.metrics.nodes| ==>
        var info := r.reply.metrics.nodes[i];
        && [info.name, info.status] in r.gauges.nodeStatus
        && r.gauges.nodeStatus[[info.name, info.status]] == if info.status == ReadyStatus then 1.0 else 0.0
    ensures MetricsJSON(g, l, now).gauges.nodeCount == MetricsJSON(g, l, now).reply.metrics.nodeCount as real
  {
    var nodes := l.nodes.value;
    SuccessfulPass(g, l, now);
    InfosInFamily(g, nodes);
  }

  /** A pass over listings that all succeed: the body lists the nodes and the gauges are a refresh. */
  lemma SuccessfulPass(g: LegacyGauges, l: Listings, now: int)
    requires AllOk(l)
    ensures MetricsJSON(g, l, now).reply.metrics.nodes == NodeInfos(l.nodes.value)
    ensures MetricsJSON(g, l, now).gauges.nodeStatus == NodeUpdate(g, l.nodes.value).nodeStatus
    ensures MetricsJSON(g, l, now).gauges.nodeCount == MetricsJSON(g, l, now).reply.metrics.nodeCount as real
  {
  }

  /** Every node's JSON entry names a series of the node-status family with the matching value. */
  lemma InfosInFamily(g: LegacyGauges, nodes: seq<Node>)
    ensures var f := NodeUpdate(g, nodes).nodeStatus;
      forall i :: 0 <= i < |nodes| ==>
        var info := NodeInfos(nodes)[i];
        && [info.name, info.status] in f
        && f[[info.name, info.status]] == if info.status == ReadyStatus then 1.0 else 0.0
  {
    NodeStatusExact(g, nodes);
    forall i | 0 <= i < |nodes|
      ensures [NodeInfos(nodes)[i].name, NodeInfos(nodes)[i].status] in NodeUpdate(g, nodes).nodeStatus
    {
      assert NodeInfos(nodes)[i] == Info(nodes[i]);
    }
  }

  // ----- registration -----

  /** The collectors `initPrometheus` registers, in order. */
  function LegacyCollectors(generation: nat): (cs: seq<Registry.Instance>)
    ensures |cs| == 5
  {
    [ Registry.Instance(generation, Registry.Collector("k8s_metrics_api_nodes_total", [])),
      Registry.Instance(generation, Registry.Collector("k8s_metrics_api_pods_total", [])),
      Registry.Instance(generation, Registry.Collector("k8s_metrics_api_deployments_total", [])),
      Registry.Instance(generation, Registry.Collector("k8s_metrics_api_services_total", [])),
      Registry.Instance(generation, Registry.Collector("k8s_metrics_api_node_status_ready", ["node_name", "status"])) ]
  }

  /** `prometheus.MustRegister` over a sequence: the first refusal aborts with its error. */
  function MustRegisterAll(reg: Registry.Registry, cs: seq<Registry.Instance>): (r: Result<Registry.Registry, Registry.RegisterError>)
    ensures r.Ok? <==> forall i :: 0 <= i < |cs| ==>
      cs[i].collector.name !in reg.owners && forall j :: 0 <= j < i ==> cs[j].collector.name != cs[i].collector.name
    ensures r.Ok? ==> r.value == Registry.RegisterAll(reg, cs)
    decreases |cs|
  {
    if |cs| == 0 then Ok(reg)
    else
      var step := Registry.Register(reg, cs[0]);
      if step.1.Some? then Err(step.1.value)
      else
        var r := MustRegisterAll(step.0, cs[1..]);
        assert forall i :: 1 <= i < |cs| ==> cs[i] == cs[1..][i - 1];
        r
  }

  /** Start-up registration succeeds on a registry that has none of the names, and a second run panics. */
  lemma InitPrometheusOnce(reg: Registry.Registry, g1: nat, g2: nat)
    requires forall i :: 0 <= i < 5 ==> LegacyCollectors(g1)[i].collector.name !in reg.owners
    ensures MustRegisterAll(reg, LegacyCollectors(g1)).Ok?
    ensures MustRegisterAll(MustRegisterAll(reg, LegacyCollectors(g1)).value, LegacyCollectors(g2)).Err?
  {
    var first := MustRegisterAll(reg, LegacyCollectors(g1)).value;
    assert LegacyCollectors(g2)[0].collector.name in first.owners;
  }
}
