/** Free capacity of the cluster's nodes, computed twice: by the resource manager that decides whether a
    job fits (pkg/resourcemanager/k8s.go) and by the status handler (pkg/handlers/status.go,
    pkg/utils/node_select.go). */
module NodeCapacity {

  /** CPU in millicores, memory in bytes. */
  datatype Resource = CPU | Memory

  datatype Amount = Amount(cpu: int, memory: int) {
    function Of(r: Resource): int { if r.CPU? then cpu else memory }
  }

  datatype InitContainer = InitContainer(request: Amount, sidecar: bool)

  datatype Phase = Pending | Running | Succeeded | Failed | Unknown

  datatype Pod = Pod(node: string, phase: Phase, containers: seq<Amount>, inits: seq<InitContainer>)

  /** isReadyType: the condition is of type Ready; status: its status is True. */
  datatype Condition = Condition(isReadyType: bool, status: bool)

  datatype Node = Node(name: string, controlPlane: bool, unschedulable: bool, conditions: seq<Condition>,
                       allocatable: Amount)

  // ---------- Reference definitions ----------

  predicate Active(p: Pod) { p.phase != Succeeded && p.phase != Failed }

  predicate Ready(n: Node) {
    exists i | 0 <= i < |n.conditions| :: n.conditions[i].isReadyType && n.conditions[i].status
  }

  function Max(a: int, b: int): int { if a > b then a else b }

  function SumOf(cs: seq<Amount>, r: Resource): int {
    if cs == [] then 0 else SumOf(cs[..|cs| - 1], r) + cs[|cs| - 1].Of(r)
  }

  function Sidecars(ics: seq<InitContainer>, r: Resource): int {
    if ics == [] then 0 else
      Sidecars(ics[..|ics| - 1], r) + if ics[|ics| - 1].sidecar then ics[|ics| - 1].request.Of(r) else 0
  }

  /** Largest request of a classic init container, at least 0. */
  function HeaviestInit(ics: seq<InitContainer>, r: Resource): int {
    if ics == [] then 0 else
      var rest := HeaviestInit(ics[..|ics| - 1], r);
      if ics[|ics| - 1].sidecar then rest else Max(rest, ics[|ics| - 1].request.Of(r))
  }

  /** What the scheduler reserves for a pod. */
  function PodRequest(p: Pod, r: Resource): int {
    Max(SumOf(p.containers, r), HeaviestInit(p.inits, r)) + Sidecars(p.inits, r)
  }

  /** Requests of the application containers of the active pods on a node. */
  function AppRequests(pods: seq<Pod>, node: string, r: Resource): int {
    if pods == [] then 0 else
      var p := pods[|pods| - 1];
      AppRequests(pods[..|pods| - 1], node, r) + if p.node == node && Active(p) then SumOf(p.containers, r) else 0
  }

  /** Requests of whole pods, init containers and sidecars included. */
  function PodRequests(pods: seq<Pod>, node: string, r: Resource): int {
    if pods == [] then 0 else
      var p := pods[|pods| - 1];
      PodRequests(pods[..|pods| - 1], node, r) + if p.node == node && Active(p) then PodRequest(p, r) else 0
  }

  predicate NonNegative(p: Pod) {
    (forall c | c in p.containers :: c.cpu >= 0 && c.memory >= 0) &&
    (forall i | i in p.inits :: i.request.cpu >= 0 && i.request.memory >= 0)
  }

  /** The pod list the API returns under the field selector of UpdateResources. */
  function ActivePods(pods: seq<Pod>): seq<Pod> {
    if pods == [] then [] else
      ActivePods(pods[..|pods| - 1]) + if Active(pods[|pods| - 1]) then [pods[|pods| - 1]] else []
  }

  /** The node list the API returns under the label selector of UpdateResources. */
  function Workers(nodes: seq<Node>): seq<Node> {
    if nodes == [] then [] else
      Workers(nodes[..|nodes| - 1]) + if nodes[|nodes| - 1].controlPlane then [] else [nodes[|nodes| - 1]]
  }

  /** The node can take a job with the given limits beside what its pods request. */
  predicate Fits(n: Node, pods: seq<Pod>, limits: Amount) {
    !n.controlPlane && !n.unschedulable && Ready(n) &&
    AppRequests(pods, n.name, CPU) + limits.cpu < n.allocatable.cpu &&
    AppRequests(pods, n.name, Memory) + limits.memory < n.allocatable.memory
  }

  function Free(n: Node, pods: seq<Pod>): Amount {
    Amount(n.allocatable.cpu - AppRequests(pods, n.name, CPU), n.allocatable.memory - AppRequests(pods, n.name, Memory))
  }

  /** The resource manager's table for the given nodes. */
  function Table(nodes: seq<Node>, pods: seq<Pod>): seq<Amount> {
    if nodes == [] then [] else
      var n := nodes[|nodes| - 1];
      Table(nodes[..|nodes| - 1], pods) + if !n.unschedulable && Ready(n) then [Free(n, pods)] else []
  }

  // ---------- Lemmas ----------

  lemma RequestsAppend(pods: seq<Pod>, p: Pod, node: string, r: Resource)
    ensures AppRequests(pods + [p], node, r) ==
            AppRequests(pods, node, r) + if p.node == node && Active(p) then SumOf(p.containers, r) else 0
  {
  }

  lemma {:induction false} ActiveRequests(pods: seq<Pod>, node: string, r: Resource)
    ensures AppRequests(ActivePods(pods), node, r) == AppRequests(pods, node, r)
  {
    if pods != [] {
      var init, p := pods[..|pods| - 1], pods[|pods| - 1];
      ActiveRequests(init, node, r);
      RequestsAppend(ActivePods(init), p, node, r);
      if !Active(p) { assert ActivePods(pods) == ActivePods(init); }
    }
  }

  lemma {:induction false} OnlyActive(pods: seq<Pod>)
    ensures forall p | p in ActivePods(pods) :: Active(p)
  {
    if pods != [] { OnlyActive(pods[..|pods| - 1]); }
  }

  lemma {:induction false} TableContents(nodes: seq<Node>, pods: seq<Pod>, a: Amount)
    ensures a in Table(nodes, pods) <==> exists n :: n in nodes && !n.unschedulable && Ready(n) && a == Free(n, pods)
  {
    if nodes != [] {
      var init, last := nodes[..|nodes| - 1], nodes[|nodes| - 1];
      TableContents(init, pods, a);
      assert nodes == init + [last];
    }
  }

  lemma {:induction false} WorkersContents(nodes: seq<Node>, n: Node)
    ensures n in Workers(nodes) <==> n in nodes && !n.controlPlane
  {
    if nodes != [] {
      var init, last := nodes[..|nodes| - 1], nodes[|nodes| - 1];
      WorkersContents(init, n);
      assert nodes == init + [last];
    }
  }

  lemma {:induction false} FreeOfActive(n: Node, pods: seq<Pod>)
    ensures Free(n, ActivePods(pods)) == Free(n, pods)
  {
    ActiveRequests(pods, n.name, CPU);
    ActiveRequests(pods, n.name, Memory);
  }

  predicate Exceeds(a: Amount, limits: Amount) { limits.cpu < a.cpu && limits.memory < a.memory }

  lemma {:induction false} AdmittedFits(nodes: seq<Node>, pods: seq<Pod>, limits: Amount, a: Amount) returns (n: Node)
    requires a in Table(Workers(nodes), ActivePods(pods)) && Exceeds(a, limits)
    ensures n in nodes && Fits(n, pods, limits)
  {
    TableContents(Workers(nodes), ActivePods(pods), a);
    n :| n in Workers(nodes) && !n.unschedulable && Ready(n) && a == Free(n, ActivePods(pods));
    WorkersContents(nodes, n);
    FreeOfActive(n, pods);
  }

  lemma {:induction false} FittingAdmitted(nodes: seq<Node>, pods: seq<Pod>, limits: Amount, n: Node)
    requires n in nodes && Fits(n, pods, limits)
    ensures Free(n, pods) in Table(Workers(nodes), ActivePods(pods)) && Exceeds(Free(n, pods), limits)
  {
    WorkersContents(nodes, n);
    FreeOfActive(n, pods);
    TableContents(Workers(nodes), ActivePods(pods), Free(n, pods));
  }

  /** Some condition of the node is of type Ready and true. */
  predicate IsReady(n: Node) { Condition(true, true) in n.conditions }

  lemma ReadyExactly(n: Node)
    ensures Ready(n) <==> IsReady(n)
  {
    if IsReady(n) { var i :| 0 <= i < |n.conditions| && n.conditions[i] == Condition(true, true); }
  }

  /** The table built from the API's selected lists admits a job exactly when some ready, schedulable
      worker has strictly more than its active pods' requests plus the job's limits. */
  lemma {:induction false} TableAdmitsExactly(nodes: seq<Node>, pods: seq<Pod>, limits: Amount)
    ensures (exists a :: a in Table(Workers(nodes), ActivePods(pods)) && Exceeds(a, limits))
            <==> exists n :: n in nodes && !n.controlPlane && !n.unschedulable && IsReady(n) &&
                   AppRequests(pods, n.name, CPU) + limits.cpu < n.allocatable.cpu &&
                   AppRequests(pods, n.name, Memory) + limits.memory < n.allocatable.memory
  {
    if a :| a in Table(Workers(nodes), ActivePods(pods)) && Exceeds(a, limits) {
      var n := AdmittedFits(nodes, pods, limits, a);
    }
    forall n | n in nodes && Fits(n, pods, limits)
      ensures exists a :: a in Table(Workers(nodes), ActivePods(pods)) && Exceeds(a, limits)
    {
      FittingAdmitted(nodes, pods, limits, n);
    }
    forall n ensures Ready(n) <==> IsReady(n) { ReadyExactly(n); }
  }

  lemma {:induction false} InitsNonNegative(ics: seq<InitContainer>, r: Resource)
    requires forall i | i in ics :: i.request.cpu >= 0 && i.request.memory >= 0
    ensures Sidecars(ics, r) >= 0
  {
    if ics != [] {
      assert ics[|ics| - 1] in ics;
      InitsNonNegative(ics[..|ics| - 1], r);
    }
  }

  /** The pod reserves nothing beyond its application containers. */
  predicate NoExtra(p: Pod, r: Resource) {
    HeaviestInit(p.inits, r) <= SumOf(p.containers, r) && Sidecars(p.inits, r) == 0
  }

  /** The status handler never promises more than the resource manager: its request figure is at least
      the other's, and equal exactly when no active pod on the node reserves anything beyond its
      application containers. */
  lemma {:induction false} StatusIsConservative(pods: seq<Pod>, node: string, r: Resource)
    requires forall p | p in pods :: NonNegative(p)
    ensures AppRequests(pods, node, r) <= PodRequests(pods, node, r)
    ensures AppRequests(pods, node, r) == PodRequests(pods, node, r) <==>
            forall p | p in pods && p.node == node && Active(p) :: NoExtra(p, r)
  {
    if pods != [] {
      var init, p := pods[..|pods| - 1], pods[|pods| - 1];
      assert pods == init + [p] && p in pods;
      StatusIsConservative(init, node, r);
      InitsNonNegative(p.inits, r);
    }
  }

  /** In particular the two figures agree on a node none of whose pods has init containers. */
  lemma {:induction false} AgreeWithoutInits(pods: seq<Pod>, node: string, r: Resource)
    requires forall p | p in pods :: NonNegative(p) && p.inits == []
    ensures AppRequests(pods, node, r) == PodRequests(pods, node, r)
  {
    StatusIsConservative(pods, node, r);
    forall p | p in pods ensures NoExtra(p, r) { SumNonNegative(p.containers, r); }
  }

  lemma {:induction false} SumNonNegative(cs: seq<Amount>, r: Resource)
    requires forall c | c in cs :: c.cpu >= 0 && c.memory >= 0
    ensures SumOf(cs, r) >= 0
  {
    if cs != [] {
      assert cs[|cs| - 1] in cs;
      SumNonNegative(cs[..|cs| - 1], r);
    }
  }

  // ---------- What the figures are ----------

  /** Requests add up container by container. */
  lemma {:induction false} SumLaws(cs: seq<Amount>, ds: seq<Amount>, cpu: int, memory: int, r: Resource)
    ensures SumOf([Amount(cpu, memory)], CPU) == cpu && SumOf([Amount(cpu, memory)], Memory) == memory
    ensures SumOf(cs + ds, r) == SumOf(cs, r) + SumOf(ds, r)
  {
    var c := Amount(cpu, memory);
    assert [c][..0] == [] && SumOf([], CPU) == 0 && SumOf([], Memory) == 0;
    if ds == [] {
      assert cs + ds == cs;
    } else {
      SumLaws(cs, ds[..|ds| - 1], cpu, memory, r);
      assert (cs + ds)[..|cs + ds| - 1] == cs + ds[..|ds| - 1];
    }
  }

  /** Sidecars add up, classic init containers do not count among them. */
  lemma {:induction false} SidecarLaws(ics: seq<InitContainer>, js: seq<InitContainer>, i: InitContainer, r: Resource)
    ensures Sidecars([i], r) == if i.sidecar then i.request.Of(r) else 0
    ensures Sidecars(ics + js, r) == Sidecars(ics, r) + Sidecars(js, r)
  {
    assert [i][..0] == [] && Sidecars([], r) == 0;
    if js == [] {
      assert ics + js == ics;
    } else {
      SidecarLaws(ics, js[..|js| - 1], i, r);
      assert (ics + js)[..|ics + js| - 1] == ics + js[..|js| - 1];
    }
  }

  /** The heaviest classic init container: an upper bound that is zero or attained. */
  lemma {:induction false} HeaviestExactly(ics: seq<InitContainer>, r: Resource)
    ensures HeaviestInit(ics, r) >= 0
    ensures forall i | i in ics && !i.sidecar :: i.request.Of(r) <= HeaviestInit(ics, r)
    ensures HeaviestInit(ics, r) > 0 ==> exists i :: i in ics && !i.sidecar && i.request.Of(r) == HeaviestInit(ics, r)
  {
    if ics != [] {
      var init, last := ics[..|ics| - 1], ics[|ics| - 1];
      HeaviestExactly(init, r);
      assert ics == init + [last] && last in ics;
    }
  }

  /** Requests of a node add up pod by pod; pods of other nodes and finished ones request nothing. */
  lemma {:induction false} RequestLaws(pods: seq<Pod>, p: Pod, node: string, r: Resource)
    ensures AppRequests(pods + [p], node, r) == AppRequests(pods, node, r) +
              (if p.node == node && p.phase != Succeeded && p.phase != Failed then SumOf(p.containers, r) else 0)
    ensures PodRequests(pods + [p], node, r) == PodRequests(pods, node, r) +
              (if p.node == node && p.phase != Succeeded && p.phase != Failed
               then Sidecars(p.inits, r) + (if SumOf(p.containers, r) >= HeaviestInit(p.inits, r)
                                            then SumOf(p.containers, r) else HeaviestInit(p.inits, r))
               else 0)
    ensures AppRequests([], node, r) == PodRequests([], node, r) == 0
  {
    assert (pods + [p])[..|pods|] == pods;
  }

  // ---------- The code: resource manager ----------

  method IsNodeReady(node: Node) returns (ready: bool)
    ensures ready == Ready(node)
    ensures ready <==> exists c :: c in node.conditions && c.isReadyType && c.status
  {
    for i := 0 to |node.conditions|
      invariant !exists k | 0 <= k < i :: node.conditions[k].isReadyType && node.conditions[k].status
    {
      if node.conditions[i].isReadyType && node.conditions[i].status { return true; }
    }
    return false;
  }

  method SumContainers(cs: seq<Amount>) returns (cpu: int, memory: int)
    ensures cpu == SumOf(cs, CPU) && memory == SumOf(cs, Memory)
  {
    cpu, memory := 0, 0;
    for i := 0 to |cs|
      invariant cpu == SumOf(cs[..i], CPU) && memory == SumOf(cs[..i], Memory)
    {
      assert cs[..i + 1][..i] == cs[..i];
      cpu, memory := cpu + cs[i].cpu, memory + cs[i].memory;
    }
    assert cs[..|cs|] == cs;
  }

  /** getNodeAvailableResources; `pods` is the already filtered list. */
  method GetNodeAvailableResources(node: Node, pods: seq<Pod>) returns (cpu: int, memory: int)
    requires forall p | p in pods :: Active(p)
    ensures Amount(cpu, memory) == Free(node, pods)
  {
    cpu, memory := node.allocatable.cpu, node.allocatable.memory;
    for i := 0 to |pods|
      invariant cpu == node.allocatable.cpu - AppRequests(pods[..i], node.name, CPU)
      invariant memory == node.allocatable.memory - AppRequests(pods[..i], node.name, Memory)
    {
      assert pods[..i + 1][..i] == pods[..i];
      assert pods[i] in pods;
      if pods[i].node == node.name {
        var c, m := SumContainers(pods[i].containers);
        cpu, memory := cpu - c, memory - m;
      }
    }
    assert pods[..|pods|] == pods;
  }

  class KubeResourceManager {
    var resources: seq<Amount>

    constructor ()
      ensures resources == []
    {
      resources := [];
    }

    /** UpdateResources, for the cluster's nodes and pods; the API applies the two selectors. */
    method UpdateResources(clusterNodes: seq<Node>, clusterPods: seq<Pod>)
      modifies this
      ensures resources == Table(Workers(clusterNodes), ActivePods(clusterPods))
    {
      var nodes, pods := Workers(clusterNodes), ActivePods(clusterPods);
      OnlyActive(clusterPods);
      var res := [];
      for i := 0 to |nodes|
        invariant res == Table(nodes[..i], pods)
      {
        assert nodes[..i + 1][..i] == nodes[..i];
        var ready := IsNodeReady(nodes[i]);
        if !nodes[i].unschedulable && ready {
          var nodeCPU, nodeMemory := GetNodeAvailableResources(nodes[i], pods);
          res := res + [Amount(nodeCPU, nodeMemory)];
        }
      }
      assert nodes[..|nodes|] == nodes;
      resources := res;
    }

    /** IsSchedulable: the job fits one row of the table. */
    method IsSchedulable(limits: Amount) returns (ok: bool)
      ensures ok <==> exists a :: a in resources && Exceeds(a, limits)
    {
      for i := 0 to |resources|
        invariant forall k | 0 <= k < i :: !Exceeds(resources[k], limits)
      {
        if limits.memory < resources[i].memory && limits.cpu < resources[i].cpu {
          assert resources[i] in resources && Exceeds(resources[i], limits);
          return true;
        }
      }
      return false;
    }
  }

  // ---------- The code: status handler ----------

  /** SelectEligibleNodes: the workers, or every node when there is no worker. */
  method SelectEligibleNodes(nodes: seq<Node>) returns (eligible: seq<Node>)
    ensures eligible == if Workers(nodes) == [] then nodes else Workers(nodes)
  {
    var workerNodes := [];
    for i := 0 to |nodes|
      invariant workerNodes == Workers(nodes[..i])
    {
      assert nodes[..i + 1][..i] == nodes[..i];
      if nodes[i].controlPlane { continue; }
      workerNodes := workerNodes + [nodes[i]];
    }
    assert nodes[..|nodes|] == nodes;
    if |workerNodes| > 0 { return workerNodes; }
    return nodes;
  }

  /** The init container loop of getNodesInfo. */
  method ScanInits(ics: seq<InitContainer>) returns (sidecarCPU: int, sidecarMem: int, maxCPU: int, maxMem: int)
    ensures sidecarCPU == Sidecars(ics, CPU) && sidecarMem == Sidecars(ics, Memory)
    ensures maxCPU == HeaviestInit(ics, CPU) && maxMem == HeaviestInit(ics, Memory)
  {
    sidecarCPU, sidecarMem, maxCPU, maxMem := 0, 0, 0, 0;
    for i := 0 to |ics|
      invariant sidecarCPU == Sidecars(ics[..i], CPU) && sidecarMem == Sidecars(ics[..i], Memory)
      invariant maxCPU == HeaviestInit(ics[..i], CPU) && maxMem == HeaviestInit(ics[..i], Memory)
    {
      assert ics[..i + 1][..i] == ics[..i];
      if ics[i].sidecar {
        sidecarCPU, sidecarMem := sidecarCPU + ics[i].request.cpu, sidecarMem + ics[i].request.memory;
      } else {
        if ics[i].request.cpu > maxCPU { maxCPU := ics[i].request.cpu; }
        if ics[i].request.memory > maxMem { maxMem := ics[i].request.memory; }
      }
    }
    assert ics[..|ics|] == ics;
  }

  /** The request computation of getNodesInfo for one node. */
  method NodeRequests(pods: seq<Pod>, node: string) returns (cpuRequest: int, memRequest: int)
    ensures cpuRequest == PodRequests(pods, node, CPU) && memRequest == PodRequests(pods, node, Memory)
  {
    cpuRequest, memRequest := 0, 0;
    for i := 0 to |pods|
      invariant cpuRequest == PodRequests(pods[..i], node, CPU) && memRequest == PodRequests(pods[..i], node, Memory)
    {
      assert pods[..i + 1][..i] == pods[..i];
      if pods[i].node == node && pods[i].phase != Succeeded && pods[i].phase != Failed {
        var appCPU, appMem := SumContainers(pods[i].containers);
        var sidecarCPU, sidecarMem, maxCPU, maxMem := ScanInits(pods[i].inits);
        var mainCPU, mainMem := appCPU, appMem;
        if maxCPU > mainCPU { mainCPU := maxCPU; }
        if maxMem > mainMem { mainMem := maxMem; }
        cpuRequest, memRequest := cpuRequest + mainCPU + sidecarCPU, memRequest + mainMem + sidecarMem;
      }
    }
    assert pods[..|pods|] == pods;
  }
}
