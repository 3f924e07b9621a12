/** What a completed round reports: every found node is counted once by the hardware version and
    CBT checks, and the ESXi check knows exactly the hosts of the found nodes. */
module RoundCounts {
  import opened Options
  import opened ThreadPool
  import opened PoolTheorems
  import opened ResultCollection
  import opened Round
  import opened RoundTheorems
  import opened RoundProtocol
  import opened ClusterInfoModel

  const HW_CHECK := "CollectNodeHWVersion"
  const ESXI_CHECK := "CollectNodeESXiVersion"
  const CBT_CHECK := "CollectNodeCBT"

  /** The vSphere nodes whose VM was found. */
  function Found(i: Input, nodes: seq<Node>): seq<Node> {
    if nodes == [] then []
    else
      var last := nodes[|nodes| - 1];
      Found(i, nodes[..|nodes| - 1]) + if i.lookupError(last).None? then [last] else []
  }

  function FoundNodes(i: Input): seq<Node>
    requires i.nodes.Some?
  {
    Found(i, VSphereNodes(i.nodes.value))
  }

  /** The nodes `check` was called for, in the order of the calls. */
  ghost function VisitOf(check: string): Event -> Option<Node> {
    (e: Event) => if e.CheckNode? && e.check == check then Some(e.node) else None
  }

  ghost function Visits(log: seq<Entry<Event>>, check: string): seq<Node> {
    Pick(log, VisitOf(check))
  }

  // ---------------------------------------------------------------- each found node is visited once

  lemma {:induction false} NodeVisits(i: Input, check: string, nodes: seq<Node>)
    requires Distinct(i.nodeChecks) && check in i.nodeChecks
    ensures NodePicks(i, VisitOf(check), nodes) == multiset(Found(i, nodes))
  {
    if nodes != [] {
      var last := nodes[|nodes| - 1];
      NodeVisits(i, check, nodes[..|nodes| - 1]);
      BodyPicked(i, last, VisitOf(check), check, multiset{last}, multiset{});
    }
  }

  lemma {:induction false} ClusterVisits(i: Input, check: string, n: nat)
    requires n <= |i.clusterChecks|
    ensures ClusterPicks(i, VisitOf(check), n) == multiset{}
  {
    if n > 0 {
      ClusterVisits(i, check, n - 1);
      ClusterPicked(i, i.clusterChecks[n - 1], VisitOf(check));
    }
  }

  /** In every completed round, each enabled check is called exactly once per found node. */
  lemma EachFoundNodeVisitedOnce(i: Input, c: Config<Event>, s: State<Event>, check: string)
    requires RoundCompleted(i, c, s) && Distinct(i.nodeChecks) && check in i.nodeChecks
    ensures multiset(Visits(s.log, check)) == multiset(FoundNodes(i))
  {
    RoundPicks(i, c, s, VisitOf(check));
    NodeVisits(i, check, VSphereNodes(i.nodes.value));
    ClusterVisits(i, check, |i.clusterChecks|);
  }

  // ---------------------------------------------------------------- only vSphere nodes are looked at

  ghost function LookupOf(): Event -> Option<Node> {
    (e: Event) => if e.VmLookup? then Some(e.node) else None
  }

  lemma {:induction false} PickedNothing<R>(events: seq<Event>, f: Event -> Option<R>)
    requires forall e :: e in events ==> f(e).None?
    ensures Picked(events, f) == multiset{}
  {
    if events != [] {
      PickedNothing(events[..|events| - 1], f);
      assert events[|events| - 1] in events;
    }
  }

  lemma PickedHead<R>(x: Event, rest: seq<Event>, f: Event -> Option<R>)
    requires Picked(rest, f) == multiset{}
    ensures Picked([x] + rest, f) == One(f(x))
  {
    PickedConcat([x], rest, f);
    PickedOne(x, f);
  }

  lemma BodyLookup(i: Input, node: Node)
    ensures Picked(NodeBody(i, node), LookupOf()) == One(LookupOf()(VmLookup(node)))
  {
    var n, err := |i.nodeChecks|, i.lookupError(node);
    var rest := if err.Some? then LookupFailed(i, err, n) else CheckEvents(i, node, n);
    forall e | e in rest ensures LookupOf()(e).None? {
      if err.Some? { LookupFailedKinds(i, err, n, e); } else { CheckEventKinds(i, node, n, e); }
    }
    PickedNothing(rest, LookupOf());
    PickedHead(VmLookup(node), rest, LookupOf());
  }

  function Times(nodes: seq<Node>, n: Node): nat {
    if nodes == [] then 0 else Times(nodes[..|nodes| - 1], n) + if nodes[|nodes| - 1] == n then 1 else 0
  }

  lemma {:induction false} TimesCounts(nodes: seq<Node>, n: Node)
    ensures Times(nodes, n) == multiset(nodes)[n]
  {
    if nodes != [] {
      TimesCounts(nodes[..|nodes| - 1], n);
      assert nodes == nodes[..|nodes| - 1] + [nodes[|nodes| - 1]];
    }
  }

  lemma {:induction false} NodeLookups(i: Input, f: Event -> Option<Node>, nodes: seq<Node>, n: Node)
    requires f == LookupOf()
    ensures NodePicks(i, f, nodes)[n] == Times(nodes, n)
  {
    if nodes != [] {
      NodeLookups(i, f, nodes[..|nodes| - 1], n);
      BodyLookup(i, nodes[|nodes| - 1]);
    }
  }

  lemma {:induction false} ClusterLookups(i: Input, n: nat)
    requires n <= |i.clusterChecks|
    ensures ClusterPicks(i, LookupOf(), n) == multiset{}
  {
    if n > 0 {
      ClusterLookups(i, n - 1);
      ClusterPicked(i, i.clusterChecks[n - 1], LookupOf());
    }
  }

  lemma {:induction false} FoundAre(i: Input, nodes: seq<Node>, n: Node)
    ensures multiset(Found(i, nodes))[n] == if i.lookupError(n).None? then multiset(nodes)[n] else 0
  {
    if nodes != [] {
      FoundAre(i, nodes[..|nodes| - 1], n);
      assert nodes == nodes[..|nodes| - 1] + [nodes[|nodes| - 1]];
    }
  }

  /** A completed round looks up the VM of a node as often as the node is listed if its provider ID begins with
      "vsphere://", and never otherwise; each enabled check is called for it as often if its VM is found; and each
      enabled check stores one result for every lookup. */
  lemma OnlyVSphereNodesAreChecked(i: Input, c: Config<Event>, s: State<Event>, check: string, n: Node)
    requires RoundCompleted(i, c, s) && DistinctNames(i) && check in i.nodeChecks
    ensures multiset(Pick(s.log, LookupOf()))[n]
         == if "vsphere://" <= n.providerID then multiset(i.nodes.value)[n] else 0
    ensures multiset(Visits(s.log, check))[n]
         == if "vsphere://" <= n.providerID && i.lookupError(n).None? then multiset(i.nodes.value)[n] else 0
    ensures |Stored(Collected(s.log), check)| == |Pick(s.log, LookupOf())|
  {
    var vs := VSphereNodes(i.nodes.value);
    NamesApart(i);
    RoundPicks(i, c, s, LookupOf());
    ClusterLookups(i, |i.clusterChecks|);
    forall m ensures multiset(Pick(s.log, LookupOf()))[m] == multiset(vs)[m] {
      NodeLookups(i, LookupOf(), vs, m);
      TimesCounts(vs, m);
    }
    assert multiset(Pick(s.log, LookupOf())) == multiset(vs);
    VSphereNodesAre(i.nodes.value, n);
    EachFoundNodeVisitedOnce(i, c, s, check);
    FoundAre(i, vs, n);
    ResultCounts(i, c, s, check);
    assert |multiset(Pick(s.log, LookupOf()))| == |multiset(vs)|;
  }

  // ---------------------------------------------------------------- what the collecting checks do with a node

  /** What vSphere says about a found VM. */
  datatype Facts = Facts(hardware: Node -> string, host: Node -> Option<string>, cbtKey: Node -> string)

  ghost function OpOf(f: Facts): Event -> Option<InfoOp> {
    (e: Event) =>
      if !e.CheckNode? then None
      else if e.check == HW_CHECK then Some(SetHardware(f.hardware(e.node)))
      else if e.check == CBT_CHECK then Some(SetCbt(f.cbtKey(e.node)))
      else if e.check == ESXI_CHECK && f.host(e.node).Some? then Some(Mark(f.host(e.node).value))
      else None
  }

  /** The operations the log's CheckNode calls perform on the shared data. */
  ghost function InfoOps(log: seq<Entry<Event>>, f: Facts): seq<InfoOp> {
    Pick(log, OpOf(f))
  }

  /** The operations other than recorded versions and vCenter reports. */
  function Others(ops: seq<InfoOp>): seq<InfoOp> {
    if ops == [] then []
    else
      var last := ops[|ops| - 1];
      Others(ops[..|ops| - 1]) + if last.SetHost? || last.SetVCenter? then [] else [last]
  }

  /** `ops` is a history of the shared data during a run with this log: it holds the operations of
      the CheckNode calls, the versions that those of the ESXi check record, and the vCenter reports.
      Calls run in parallel, so operations of different calls come in any order. */
  ghost predicate HistoryOf(ops: seq<InfoOp>, log: seq<Entry<Event>>, f: Facts) {
    multiset(Others(ops)) == multiset(InfoOps(log, f)) && MadeByCalls(ops)
  }

  lemma {:induction false} CountOpsConcat(a: seq<InfoOp>, b: seq<InfoOp>, p: InfoOp -> bool)
    ensures CountOps(a + b, p) == CountOps(a, p) + CountOps(b, p)
  {
    if b == [] {
      assert a + b == a;
    } else {
      assert (a + b)[..|a + b| - 1] == a + b[..|b| - 1];
      CountOpsConcat(a, b[..|b| - 1], p);
    }
  }

  lemma {:induction false} CountOpsPermutation(a: seq<InfoOp>, b: seq<InfoOp>, p: InfoOp -> bool)
    requires multiset(a) == multiset(b)
    ensures CountOps(a, p) == CountOps(b, p)
    decreases |a|
  {
    if a == [] {
      assert |multiset(b)| == 0;
    } else {
      var init, x := a[..|a| - 1], a[|a| - 1];
      assert a == init + [x];
      assert x in multiset(b);
      var k :| 0 <= k < |b| && b[k] == x;
      var rest := b[..k] + b[k + 1..];
      assert b == b[..k] + [x] + b[k + 1..];
      SameRemainder(multiset(init), multiset(rest), x);
      CountOpsPermutation(init, rest, p);
      CountOpsConcat(b[..k], [x], p);
      CountOpsConcat(b[..k] + [x], b[k + 1..], p);
      CountOpsConcat(b[..k], b[k + 1..], p);
      assert [x][..0] == [];
    }
  }

  lemma CountOpsAppend(ops: seq<InfoOp>, op: InfoOp, p: InfoOp -> bool)
    ensures CountOps(ops + [op], p) == CountOps(ops, p) + if p(op) then 1 else 0
  {
    assert (ops + [op])[..|ops|] == ops;
  }

  ghost predicate OnlyOthers(p: InfoOp -> bool) {
    forall op :: p(op) ==> !op.SetHost? && !op.SetVCenter?
  }

  lemma {:induction false} OthersKeep(ops: seq<InfoOp>, p: InfoOp -> bool)
    requires OnlyOthers(p)
    ensures CountOps(ops, p) == CountOps(Others(ops), p)
  {
    if ops != [] {
      var init, last := ops[..|ops| - 1], ops[|ops| - 1];
      OthersKeep(init, p);
      if last.SetHost? || last.SetVCenter? {
        assert Others(ops) == Others(init);
      } else {
        CountOpsAppend(Others(init), last, p);
      }
    }
  }

  lemma {:induction false} OthersContain(ops: seq<InfoOp>, op: InfoOp)
    requires !op.SetHost? && !op.SetVCenter?
    ensures op in ops <==> op in Others(ops)
  {
    if ops != [] {
      OthersContain(ops[..|ops| - 1], op);
      assert ops == ops[..|ops| - 1] + [ops[|ops| - 1]];
    }
  }

  lemma {:induction false} OpsMatchVisits(log: seq<Entry<Event>>, f: Facts)
    ensures CountOps(InfoOps(log, f), IsHardware) == |Visits(log, HW_CHECK)|
    ensures CountOps(InfoOps(log, f), IsCbt) == |Visits(log, CBT_CHECK)|
  {
    if log != [] {
      var init, e := log[..|log| - 1], log[|log| - 1].event;
      OpsMatchVisits(init, f);
      assert HW_CHECK[11] == 'H' && CBT_CHECK[11] == 'C' && ESXI_CHECK[11] == 'E';
      assert Visits(log, HW_CHECK) == Visits(init, HW_CHECK) + Chosen(VisitOf(HW_CHECK)(e));
      assert Visits(log, CBT_CHECK) == Visits(init, CBT_CHECK) + Chosen(VisitOf(CBT_CHECK)(e));
      assert InfoOps(log, f) == InfoOps(init, f) + Chosen(OpOf(f)(e));
      if OpOf(f)(e).Some? {
        CountOpsAppend(InfoOps(init, f), OpOf(f)(e).value, IsHardware);
        CountOpsAppend(InfoOps(init, f), OpOf(f)(e).value, IsCbt);
      } else {
        assert InfoOps(log, f) == InfoOps(init, f);
      }
    }
  }

  lemma {:induction false} MarksMatchVisits(log: seq<Entry<Event>>, f: Facts, h: string)
    ensures Mark(h) in InfoOps(log, f) <==> exists n :: n in Visits(log, ESXI_CHECK) && f.host(n) == Some(h)
  {
    if log != [] {
      var init, e := log[..|log| - 1], log[|log| - 1].event;
      MarksMatchVisits(init, f, h);
      assert InfoOps(log, f) == InfoOps(init, f) + Chosen(OpOf(f)(e));
      assert Visits(log, ESXI_CHECK) == Visits(init, ESXI_CHECK) + Chosen(VisitOf(ESXI_CHECK)(e));
      if n :| n in Visits(init, ESXI_CHECK) && f.host(n) == Some(h) {
        assert n in Visits(log, ESXI_CHECK);
      } else if e.CheckNode? && e.check == ESXI_CHECK {
        assert e.node in Visits(log, ESXI_CHECK);
      }
    }
  }

  // ---------------------------------------------------------------- the totals of a completed round

  ghost function HostsOf(nodes: seq<Node>, f: Facts): set<string> {
    set n | n in nodes && f.host(n).Some? :: f.host(n).value
  }

  lemma CompletedRoundTotals(i: Input, c: Config<Event>, s: State<Event>, f: Facts, ops: seq<InfoOp>)
    requires RoundCompleted(i, c, s) && Distinct(i.nodeChecks)
    requires HW_CHECK in i.nodeChecks && CBT_CHECK in i.nodeChecks
    requires HistoryOf(ops, s.log, f)
    ensures Total(After(ops).hw) == |FoundNodes(i)|
    ensures Total(After(ops).cbt) == |FoundNodes(i)|
  {
    TotalsCountReports(ops);
    OthersKeep(ops, IsHardware);
    OthersKeep(ops, IsCbt);
    CountOpsPermutation(Others(ops), InfoOps(s.log, f), IsHardware);
    CountOpsPermutation(Others(ops), InfoOps(s.log, f), IsCbt);
    OpsMatchVisits(s.log, f);
    EachFoundNodeVisitedOnce(i, c, s, HW_CHECK);
    EachFoundNodeVisitedOnce(i, c, s, CBT_CHECK);
    assert |multiset(Visits(s.log, HW_CHECK))| == |multiset(FoundNodes(i))| == |multiset(Visits(s.log, CBT_CHECK))|;
  }

  /** The hosts known after the round are those of the found nodes, each claimed by exactly one
      of the CheckNode calls that met it. */
  lemma CompletedRoundHosts(i: Input, c: Config<Event>, s: State<Event>, f: Facts, ops: seq<InfoOp>)
    requires RoundCompleted(i, c, s) && Distinct(i.nodeChecks) && ESXI_CHECK in i.nodeChecks
    requires HistoryOf(ops, s.log, f)
    ensures After(ops).esxi.Keys == HostsOf(FoundNodes(i), f)
    ensures |After(ops).esxi| == |HostsOf(FoundNodes(i), f)|
    ensures forall h :: Claims(ops, h) == if h in HostsOf(FoundNodes(i), f) then 1 else 0
  {
    EachFoundNodeVisitedOnce(i, c, s, ESXI_CHECK);
    CallsRecordOnlyMarked(ops);
    forall h ensures Mark(h) in ops <==> h in HostsOf(FoundNodes(i), f) {
      OthersContain(ops, Mark(h));
      assert Mark(h) in Others(ops) <==> Mark(h) in multiset(Others(ops));
      assert Mark(h) in InfoOps(s.log, f) <==> Mark(h) in multiset(InfoOps(s.log, f));
      MarksMatchVisits(s.log, f, h);
      assert forall n :: n in Visits(s.log, ESXI_CHECK) <==> n in multiset(Visits(s.log, ESXI_CHECK));
      assert forall n :: n in FoundNodes(i) <==> n in multiset(FoundNodes(i));
    }
    forall h ensures (h in After(ops).esxi <==> Mark(h) in ops) && Claims(ops, h) == if Mark(h) in ops then 1 else 0 {
      MarkedHostClaimedOnce(ops, h);
    }
  }

  /** So the histogram that FinishCheck of the ESXi check reports adds up to the number of those hosts. */
  method ReportHosts(esxi: map<string, HostVersion>, ghost i: Input, ghost c: Config<Event>, ghost s: State<Event>,
                     ghost f: Facts, ghost ops: seq<InfoOp>)
    returns (versions: map<HostVersion, nat>)
    requires RoundCompleted(i, c, s) && Distinct(i.nodeChecks) && ESXI_CHECK in i.nodeChecks
    requires HistoryOf(ops, s.log, f) && esxi == After(ops).esxi
    ensures IsHistogram(versions, esxi) && Total(versions) == |HostsOf(FoundNodes(i), f)|
  {
    versions := Histogram(esxi);
    CompletedRoundHosts(i, c, s, f, ops);
  }
}
