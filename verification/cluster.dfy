/**
 * The objects the control-plane API lists, reduced to the fields the core
 * reads. Quantities are integers in the units the source extracts with
 * `MilliValue()` (CPU, in millicores) and `Value()` (memory, in bytes).
 */
module Cluster {
  import opened Wrappers

  /** One entry of a node's `status.conditions`. */
  datatype Condition = Condition(kind: string, status: string)

  datatype Node = Node(
    name: string,
    conditions: seq<Condition>,
    cpuMilli: int,
    memoryBytes: int,
    kubeletVersion: string,
    osImage: string,
    labels: map<string, string>)

  /** A container's `resources.requests` or `resources.limits`; `None` is an undeclared resource. */
  datatype Quantities = Quantities(cpuMilli: Option<int>, memoryBytes: Option<int>)

  datatype Container = Container(name: string, requests: Quantities, limits: Quantities)

  datatype ContainerStatus = ContainerStatus(name: string, restartCount: int)

  datatype Pod = Pod(
    namespace: string,
    name: string,
    phase: string,
    containers: seq<Container>,
    statuses: seq<ContainerStatus>)

  /** `specReplicas` models the optional field `spec.replicas`; `None` stands for nil. */
  datatype Deployment = Deployment(
    namespace: string,
    name: string,
    specReplicas: Option<int>,
    availableReplicas: int)

  datatype Service = Service(namespace: string, name: string)

  datatype Namespace = Namespace(name: string)

  /** The answer of one `List` call: every object, or the call's error message. */
  type Listing<T> = Result<seq<T>, string>

  /** `corev1.NodeReady` with `corev1.ConditionTrue`. */
  predicate IsReadyTrue(c: Condition)
  {
    c.kind == "Ready" && c.status == "True"
  }

  /**
   * The source's condition scan: walk the conditions in order and stop at the
   * first Ready/True one. The result is the index where the scan stopped.
   */
  function ReadyScan(conditions: seq<Condition>): (i: nat)
    ensures i <= |conditions|
    ensures forall k :: 0 <= k < i ==> !IsReadyTrue(conditions[k])
    ensures i < |conditions| ==> IsReadyTrue(conditions[i])
  {
    if |conditions| == 0 then 0
    else if IsReadyTrue(conditions[0]) then 0
    else 1 + ReadyScan(conditions[1..])
  }

  /** A node is ready when the scan found a Ready/True condition before the end. */
  predicate IsReady(n: Node)
  {
    ReadyScan(n.conditions) < |n.conditions|
  }

  /** Readiness depends only on whether some condition is Ready/True, never on where it sits. */
  lemma IsReadyIff(n: Node)
    ensures IsReady(n) <==> exists k :: 0 <= k < |n.conditions| && IsReadyTrue(n.conditions[k])
  {
  }
}
