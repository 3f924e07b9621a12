/** One round of checks (pkg/operator/vsphere_check.go) as a script for the thread pool: which
    events a round consists of, in which order the main goroutine submits and emits them. */
module Round {
  import opened Options
  import opened ThreadPool
  import opened ResultCollection

  datatype Node = Node(name: string, providerID: string)

  datatype Event =
    | ClusterCheck(name: string)
    | VmLookup(node: Node)
    | CheckNode(check: string, node: Node)             // the call begins; its AddResult ends it
    | AddResult(name: string, error: Option<string>)
    | StartCheck(check: string)
    | FinishCheck(check: string)

  /** The network is an oracle: the error of every cluster check, of the VM lookup of every node
      and of every node check. `clusterChecks` is the map of checks in the order of this round;
      `nodes` is None when listing the nodes failed. */
  datatype Input = Input(
    clusterChecks: seq<string>, nodeChecks: seq<string>, nodes: Option<seq<Node>>,
    clusterError: string -> Option<string>, lookupError: Node -> Option<string>,
    nodeError: (string, Node) -> Option<string>)

  const VSPHERE_PREFIX := "vsphere://"

  predicate IsVSphereNode(node: Node) {
    VSPHERE_PREFIX <= node.providerID
  }

  function VSphereNodes(nodes: seq<Node>): seq<Node> {
    if nodes == [] then []
    else
      var last := nodes[|nodes| - 1];
      VSphereNodes(nodes[..|nodes| - 1]) + if IsVSphereNode(last) then [last] else []
  }

  /** Exactly the nodes whose provider ID begins with "vsphere://", each as often as it is listed. */
  lemma {:induction false} VSphereNodesAre(nodes: seq<Node>, n: Node)
    ensures multiset(VSphereNodes(nodes))[n] == if "vsphere://" <= n.providerID then multiset(nodes)[n] else 0
  {
    if nodes != [] {
      var init, last := nodes[..|nodes| - 1], nodes[|nodes| - 1];
      VSphereNodesAre(init, n);
      assert nodes == init + [last];
    }
  }

  /** And in the order of the list: `at` are their places in it. */
  lemma {:induction false} VSphereNodesInOrder(nodes: seq<Node>) returns (at: seq<nat>)
    ensures |at| == |VSphereNodes(nodes)| && forall k :: 0 <= k < |at| ==> at[k] < |nodes|
    ensures forall k :: 0 <= k < |at| ==> VSphereNodes(nodes)[k] == nodes[at[k]]
    ensures forall j, k :: 0 <= j < k < |at| ==> at[j] < at[k]
  {
    at := [];
    if nodes != [] {
      at := VSphereNodesInOrder(nodes[..|nodes| - 1]);
      if IsVSphereNode(nodes[|nodes| - 1]) { at := at + [|nodes| - 1]; }
    }
  }

  // ---------------------------------------------------------------- task bodies

  function ClusterBody(i: Input, name: string): seq<Event> {
    [ClusterCheck(name), AddResult(name, i.clusterError(name))]
  }

  /** The checks of a node whose VM was found, one after the other. */
  function CheckEvents(i: Input, node: Node, n: nat): seq<Event>
    requires n <= |i.nodeChecks|
  {
    if n == 0 then []
    else
      var k := i.nodeChecks[n - 1];
      CheckEvents(i, node, n - 1) + [CheckNode(k, node), AddResult(k, i.nodeError(k, node))]
  }

  /** Every node check fails with the error of the lookup. */
  function LookupFailed(i: Input, err: Option<string>, n: nat): seq<Event>
    requires n <= |i.nodeChecks|
  {
    if n == 0 then [] else LookupFailed(i, err, n - 1) + [AddResult(i.nodeChecks[n - 1], err)]
  }

  function NodeBody(i: Input, node: Node): seq<Event> {
    [VmLookup(node)] +
    if i.lookupError(node).Some? then LookupFailed(i, i.lookupError(node), |i.nodeChecks|)
    else CheckEvents(i, node, |i.nodeChecks|)
  }

  // ---------------------------------------------------------------- the script of the main goroutine

  function ClusterOps(i: Input, n: nat): (ops: seq<Op<Event>>)
    requires n <= |i.clusterChecks|
    ensures |ops| == n && forall j :: 0 <= j < n ==> ops[j] == Submit(ClusterBody(i, i.clusterChecks[j]))
  {
    seq(n, j requires 0 <= j < n => Submit(ClusterBody(i, i.clusterChecks[j])))
  }

  function StartOps(i: Input, n: nat): (ops: seq<Op<Event>>)
    requires n <= |i.nodeChecks|
    ensures |ops| == n && forall j :: 0 <= j < n ==> ops[j] == Emit(StartCheck(i.nodeChecks[j]))
  {
    seq(n, j requires 0 <= j < n => Emit(StartCheck(i.nodeChecks[j])))
  }

  function NodeOps(i: Input, nodes: seq<Node>): (ops: seq<Op<Event>>)
    ensures |ops| == |nodes| && forall j :: 0 <= j < |nodes| ==> ops[j] == Submit(NodeBody(i, nodes[j]))
  {
    seq(|nodes|, j requires 0 <= j < |nodes| => Submit(NodeBody(i, nodes[j])))
  }

  function FinishOps(i: Input, n: nat): (ops: seq<Op<Event>>)
    requires n <= |i.nodeChecks|
    ensures |ops| == n && forall j :: 0 <= j < n ==> ops[j] == Emit(FinishCheck(i.nodeChecks[j]))
  {
    seq(n, j requires 0 <= j < n => Emit(FinishCheck(i.nodeChecks[j])))
  }

  /** When the nodes cannot be listed the round returns without StartCheck and without Wait. */
  function ScriptOf(i: Input): seq<Op<Event>> {
    ClusterOps(i, |i.clusterChecks|) +
    if i.nodes.None? then []
    else
      StartOps(i, |i.nodeChecks|) + NodeOps(i, VSphereNodes(i.nodes.value)) + [Wait] + FinishOps(i, |i.nodeChecks|)
  }

  method EnqueueClusterChecks(i: Input) returns (script: seq<Op<Event>>)
    ensures script == ClusterOps(i, |i.clusterChecks|)
  {
    script := [];
    for j := 0 to |i.clusterChecks|
      invariant script == ClusterOps(i, j)
    {
      script := script + [Submit(ClusterBody(i, i.clusterChecks[j]))];
    }
  }

  lemma NodeOpsSnoc(i: Input, nodes: seq<Node>, node: Node)
    ensures NodeOps(i, nodes + [node]) == NodeOps(i, nodes) + [Submit(NodeBody(i, node))]
  {
  }

  method EnqueueNodeChecks(i: Input, nodes: seq<Node>) returns (script: seq<Op<Event>>, skippedNodes: nat)
    ensures script == StartOps(i, |i.nodeChecks|) + NodeOps(i, VSphereNodes(nodes))
    ensures skippedNodes + |VSphereNodes(nodes)| == |nodes|
  {
    script, skippedNodes := [], 0;
    for j := 0 to |i.nodeChecks|
      invariant script == StartOps(i, j)
    {
      script := script + [Emit(StartCheck(i.nodeChecks[j]))];
    }
    for j := 0 to |nodes|
      invariant script == StartOps(i, |i.nodeChecks|) + NodeOps(i, VSphereNodes(nodes[..j]))
      invariant skippedNodes + |VSphereNodes(nodes[..j])| == j
    {
      assert nodes[..j + 1][..j] == nodes[..j];
      if !IsVSphereNode(nodes[j]) {
        skippedNodes := skippedNodes + 1;
        continue;
      }
      NodeOpsSnoc(i, VSphereNodes(nodes[..j]), nodes[j]);
      script := script + [Submit(NodeBody(i, nodes[j]))];
    }
    assert nodes[..|nodes|] == nodes;
  }

  method FinishNodeChecks(i: Input) returns (script: seq<Op<Event>>)
    ensures script == FinishOps(i, |i.nodeChecks|)
  {
    script := [];
    for j := 0 to |i.nodeChecks|
      invariant script == FinishOps(i, j)
    {
      script := script + [Emit(FinishCheck(i.nodeChecks[j]))];
    }
  }

  /** The main goroutine of a round, from the creation of the pool to its return. */
  method RunChecks(i: Input) returns (script: seq<Op<Event>>)
    ensures script == ScriptOf(i)
  {
    script := EnqueueClusterChecks(i);
    if i.nodes.None? { return; }
    var nodeOps, _ := EnqueueNodeChecks(i, i.nodes.value);
    var finishOps := FinishNodeChecks(i);
    script := script + (nodeOps + [Wait] + finishOps);
  }

  // ---------------------------------------------------------------- where the script's statements are

  ghost function FirstNode(i: Input): nat {
    |i.clusterChecks| + |i.nodeChecks|
  }

  ghost function WaitIndex(i: Input): nat
    requires i.nodes.Some?
  {
    FirstNode(i) + |VSphereNodes(i.nodes.value)|
  }

  /** The statement at an index of the script, `vs` being the vSphere nodes. */
  ghost function StatementAt(i: Input, vs: seq<Node>, o: nat): Op<Event>
    requires o < FirstNode(i) + |vs| + 1 + |i.nodeChecks|
  {
    var wait := FirstNode(i) + |vs|;
    if o < |i.clusterChecks| then Submit(ClusterBody(i, i.clusterChecks[o]))
    else if o < FirstNode(i) then Emit(StartCheck(i.nodeChecks[o - |i.clusterChecks|]))
    else if o < wait then Submit(NodeBody(i, vs[o - FirstNode(i)]))
    else if o == wait then Wait
    else Emit(FinishCheck(i.nodeChecks[o - wait - 1]))
  }

  lemma ScriptLayout(i: Input, o: nat)
    requires i.nodes.Some? && o < |ScriptOf(i)|
    ensures |ScriptOf(i)| == WaitIndex(i) + 1 + |i.nodeChecks|
    ensures ScriptOf(i)[o] == StatementAt(i, VSphereNodes(i.nodes.value), o)
  {
  }

  /** The statement that submits a node's task. */
  lemma NodeStatement(i: Input, m: nat)
    requires i.nodes.Some? && m < |VSphereNodes(i.nodes.value)|
    ensures FirstNode(i) + m < |ScriptOf(i)|
    ensures ScriptOf(i)[FirstNode(i) + m] == Submit(NodeBody(i, VSphereNodes(i.nodes.value)[m]))
  {
    var vs := VSphereNodes(i.nodes.value);
    var script, starts, nodeOps := ScriptOf(i), StartOps(i, |i.nodeChecks|), NodeOps(i, vs);
    assert script == ClusterOps(i, |i.clusterChecks|) + (starts + nodeOps + [Wait] + FinishOps(i, |i.nodeChecks|));
    assert script[FirstNode(i) + m] == nodeOps[m];
  }

  lemma RoundWaitsLast(i: Input)
    ensures WaitIsLast(ScriptOf(i))
  {
    var script := ScriptOf(i);
    forall a, b | 0 <= a < b < |script| && script[a].Wait? ensures !script[b].Submit? && !script[b].Wait? {
      if i.nodes.Some? {
        ScriptLayout(i, a);
        ScriptLayout(i, b);
      }
    }
  }
}
