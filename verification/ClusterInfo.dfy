/** Data shared by the checks of one round (pkg/util/cluster_info.go). Every method of the source
    takes the lock for its whole body, so an interleaving of callers is a sequence of operations. */
module ClusterInfoModel {
  import opened Options

  datatype HostVersion = HostVersion(version: string, apiVersion: string)

  datatype Info = Info(
    esxi: map<string, HostVersion>, hw: map<string, nat>, cbt: map<string, nat>,
    vcenters: seq<string>, vcVersion: map<string, string>, vcApi: map<string, string>)

  datatype InfoOp =
    | Mark(host: string)
    | SetHost(host: string, version: HostVersion)
    | SetHardware(key: string)
    | SetCbt(key: string)
    | SetVCenter(host: string, vcenterVersion: string, apiVersion: string)

  const EMPTY := Info(map[], map[], map[], [], map[], map[])

  function CountOf(m: map<string, nat>, key: string): nat {
    if key in m then m[key] else 0
  }

  function Apply(c: Info, op: InfoOp): Info {
    match op
    case Mark(h) => if h in c.esxi then c else c.(esxi := c.esxi[h := HostVersion("", "")])
    case SetHost(h, v) => c.(esxi := c.esxi[h := v])
    case SetHardware(k) => c.(hw := c.hw[k := CountOf(c.hw, k) + 1])
    case SetCbt(k) => c.(cbt := c.cbt[k := CountOf(c.cbt, k) + 1])
    case SetVCenter(h, v, a) =>
      c.(vcenters := if h in c.vcVersion then c.vcenters else c.vcenters + [h],
         vcVersion := c.vcVersion[h := v], vcApi := c.vcApi[h := a])
  }

  class ClusterInfo {
    var esxiVersions: map<string, HostVersion>
    var hwVersions: map<string, nat>
    var cbtEnabled: map<string, nat>
    var vcenterHostnames: seq<string>
    var vcenterVersion: map<string, string>
    var vcenterAPIVersion: map<string, string>

    ghost function Now(): Info
      reads this
    {
      Info(esxiVersions, hwVersions, cbtEnabled, vcenterHostnames, vcenterVersion, vcenterAPIVersion)
    }

    constructor ()
      ensures Now() == EMPTY
    {
      esxiVersions, hwVersions, cbtEnabled := map[], map[], map[];
      vcenterHostnames, vcenterVersion, vcenterAPIVersion := [], map[], map[];
    }

    method SetHostVersion(hostname: string, version: string, apiVersion: string)
      modifies this
      ensures Now() == Apply(old(Now()), SetHost(hostname, HostVersion(version, apiVersion)))
    {
      esxiVersions := esxiVersions[hostname := HostVersion(version, apiVersion)];
    }

    method SetHardwareVersion(version: string)
      modifies this
      ensures Now() == Apply(old(Now()), SetHardware(version))
    {
      hwVersions := hwVersions[version := CountOf(hwVersions, version) + 1];
    }

    method SetCbtData(enabled: string)
      modifies this
      ensures Now() == Apply(old(Now()), SetCbt(enabled))
    {
      cbtEnabled := cbtEnabled[enabled := CountOf(cbtEnabled, enabled) + 1];
    }

    method SetVCenterVersion(hostname: string, version: string, apiVersion: string)
      modifies this
      ensures Now() == Apply(old(Now()), SetVCenter(hostname, version, apiVersion))
    {
      if hostname !in vcenterVersion {
        vcenterHostnames := vcenterHostnames + [hostname];
      }
      vcenterVersion := vcenterVersion[hostname := version];
      vcenterAPIVersion := vcenterAPIVersion[hostname := apiVersion];
    }

    /** Answers the recorded version and true when the host is known, and claims it otherwise. */
    method MarkHostForProcessing(hostname: string) returns (version: string, processed: bool)
      modifies this
      ensures Now() == Apply(old(Now()), Mark(hostname))
      ensures processed <==> hostname in old(esxiVersions)
      ensures version == if processed then old(esxiVersions)[hostname].version else "<in progress>"
    {
      var ver := if hostname in esxiVersions then esxiVersions[hostname] else HostVersion("", "");
      var esxiVersion := "";
      if ver.version == "" {
        esxiVersion := "<in progress>";
      }
      if hostname in esxiVersions {
        return ver.version, true;
      }
      esxiVersions := esxiVersions[hostname := HostVersion("", "")];
      return esxiVersion, false;
    }
  }

  // ---------------------------------------------------------------- histories

  function After(ops: seq<InfoOp>): Info {
    if ops == [] then EMPTY else Apply(After(ops[..|ops| - 1]), ops[|ops| - 1])
  }

  predicate Touches(op: InfoOp, host: string) {
    op == Mark(host) || (op.SetHost? && op.host == host)
  }

  /** How many calls MarkHostForProcessing(host) of a history were answered "not processed". */
  function Claims(ops: seq<InfoOp>, host: string): nat {
    if ops == [] then 0
    else
      var init := ops[..|ops| - 1];
      Claims(init, host) + if ops[|ops| - 1] == Mark(host) && host !in After(init).esxi then 1 else 0
  }

  function FirstTouch(ops: seq<InfoOp>, host: string): Option<InfoOp> {
    if ops == [] then None
    else
      var first := FirstTouch(ops[..|ops| - 1], host);
      if first.Some? then first else if Touches(ops[|ops| - 1], host) then Some(ops[|ops| - 1]) else None
  }

  lemma {:induction false} KnownMeansTouched(ops: seq<InfoOp>, host: string)
    ensures host in After(ops).esxi <==> FirstTouch(ops, host).Some?
    ensures FirstTouch(ops, host).Some? <==> exists op :: op in ops && Touches(op, host)
  {
    if ops != [] {
      var init, last := ops[..|ops| - 1], ops[|ops| - 1];
      KnownMeansTouched(init, host);
      assert forall op :: op in ops <==> op in init || op == last by { assert ops == init + [last]; }
    }
  }

  /** In every interleaving a host is claimed exactly once, by the first Mark that comes before any
      version is recorded, and never otherwise. */
  lemma {:induction false} ClaimedOnce(ops: seq<InfoOp>, host: string)
    ensures Claims(ops, host) == if FirstTouch(ops, host) == Some(Mark(host)) then 1 else 0
  {
    if ops != [] {
      var init := ops[..|ops| - 1];
      ClaimedOnce(init, host);
      KnownMeansTouched(init, host);
    }
  }

  /** The discipline of the ESXi check: a version is recorded only for a host that was marked. */
  ghost predicate RecordsOnlyMarked(ops: seq<InfoOp>) {
    forall j :: 0 <= j < |ops| && ops[j].SetHost? ==> exists k :: 0 <= k < j && ops[k] == Mark(ops[j].host)
  }

  /** An operation and the CheckNode call that performs it. */
  datatype CallOp = CallOp(call: nat, op: InfoOp)

  function OpsOf(history: seq<CallOp>, call: nat): seq<InfoOp> {
    if history == [] then []
    else
      var last := history[|history| - 1];
      OpsOf(history[..|history| - 1], call) + if last.call == call then [last.op] else []
  }

  function Plain(history: seq<CallOp>): (ops: seq<InfoOp>)
    ensures |ops| == |history| && forall k :: 0 <= k < |ops| ==> ops[k] == history[k].op
  {
    seq(|history|, k requires 0 <= k < |history| => history[k].op)
  }

  /** What one call does, as far as it has got: the ESXi check marks a host and may then record its version, no
      other call records one. */
  predicate IsCall(ops: seq<InfoOp>) {
    || (forall op :: op in ops ==> !op.SetHost?)
    || (|ops| == 2 && ops[1].SetHost? && ops[0] == Mark(ops[1].host))
  }

  function ApplyAll(c: Info, ops: seq<InfoOp>): Info {
    if ops == [] then c else Apply(ApplyAll(c, ops[..|ops| - 1]), ops[|ops| - 1])
  }

  /** The ESXi check on a node: `host` is the VM's host, `load` the version it loads unless the load fails. */
  method CheckNodeESXi(info: ClusterInfo, host: Option<string>, load: Option<HostVersion>)
      returns (loads: bool, ghost ops: seq<InfoOp>)
    modifies info
    ensures loads <==> host.Some? && host.value !in old(info.esxiVersions)
    ensures ops == if host.None? then []
                   else if loads && load.Some? then [Mark(host.value), SetHost(host.value, load.value)]
                   else [Mark(host.value)]
    ensures IsCall(ops) && info.Now() == ApplyAll(old(info.Now()), ops)
  {
    if host.None? { return false, []; }
    ghost var before := info.Now();
    var _, processed := info.MarkHostForProcessing(host.value);
    assert [Mark(host.value)][..0] == [] && ApplyAll(before, [Mark(host.value)]) == info.Now();
    if processed || load.None? { return !processed, [Mark(host.value)]; }
    info.SetHostVersion(host.value, load.value.version, load.value.apiVersion);
    ops := [Mark(host.value), SetHost(host.value, load.value)];
    assert ops[..1] == [Mark(host.value)];
    loads := true;
  }

  /** The operations of parallel calls, in the order in which they happened. */
  ghost predicate MadeByCalls(ops: seq<InfoOp>) {
    exists history :: ops == Plain(history) && forall call: nat :: IsCall(OpsOf(history, call))
  }

  lemma {:induction false} OpsOfPrefix(history: seq<CallOp>, call: nat, k: nat)
    requires k <= |history|
    ensures OpsOf(history[..k], call) <= OpsOf(history, call)
  {
    if k < |history| {
      assert history[..|history| - 1][..k] == history[..k];
      OpsOfPrefix(history[..|history| - 1], call, k);
    } else {
      assert history[..k] == history;
    }
  }

  lemma {:induction false} OpIsInHistory(history: seq<CallOp>, call: nat, op: InfoOp) returns (k: nat)
    requires op in OpsOf(history, call)
    ensures k < |history| && history[k].op == op
  {
    var n := |history| - 1;
    if op in OpsOf(history[..n], call) { k := OpIsInHistory(history[..n], call, op); } else { k := n; }
  }

  /** A call that records a version has marked the host before. */
  lemma RecordFollowsMark(history: seq<CallOp>, j: nat) returns (k: nat)
    requires j < |history| && history[j].op.SetHost? && IsCall(OpsOf(history, history[j].call))
    ensures k < j && history[k].op == Mark(history[j].op.host)
  {
    var call, upTo := history[j].call, history[..j + 1];
    assert upTo[..j] == history[..j];
    OpsOfPrefix(history, call, j + 1);
    var earlier, ops := OpsOf(history[..j], call), OpsOf(history, call);
    assert OpsOf(upTo, call) == earlier + [history[j].op] && ops[|earlier|] == history[j].op && ops[|earlier|] in ops;
    assert earlier[0] == ops[0] && earlier[0] in earlier;
    k := OpIsInHistory(history[..j], call, earlier[0]);
  }

  /** So parallel calls keep the discipline. */
  lemma CallsRecordOnlyMarked(ops: seq<InfoOp>)
    requires MadeByCalls(ops)
    ensures RecordsOnlyMarked(ops)
  {
    var history :| ops == Plain(history) && forall call: nat :: IsCall(OpsOf(history, call));
    forall j | 0 <= j < |ops| && ops[j].SetHost? ensures exists k :: 0 <= k < j && ops[k] == Mark(ops[j].host) {
      var k := RecordFollowsMark(history, j);
      assert ops[k] == Mark(ops[j].host);
    }
  }

  lemma {:induction false} FirstTouchIsMark(ops: seq<InfoOp>, host: string)
    requires RecordsOnlyMarked(ops)
    ensures FirstTouch(ops, host) == if Mark(host) in ops then Some(Mark(host)) else None
  {
    if ops != [] {
      var init, last := ops[..|ops| - 1], ops[|ops| - 1];
      assert ops == init + [last];
      assert RecordsOnlyMarked(init) by {
        forall j | 0 <= j < |init| && init[j].SetHost? ensures exists k :: 0 <= k < j && init[k] == Mark(init[j].host) {
          assert ops[j] == init[j];
          var k :| 0 <= k < j && ops[k] == Mark(ops[j].host);
          assert init[k] == Mark(init[j].host);
        }
      }
      FirstTouchIsMark(init, host);
      if last.SetHost? && last.host == host {
        var k :| 0 <= k < |ops| - 1 && ops[k] == Mark(host);
        assert init[k] == Mark(host);
      }
    }
  }

  lemma MarkedHostClaimedOnce(ops: seq<InfoOp>, host: string)
    requires RecordsOnlyMarked(ops)
    ensures Claims(ops, host) == if Mark(host) in ops then 1 else 0
    ensures host in After(ops).esxi <==> Mark(host) in ops
  {
    ClaimedOnce(ops, host);
    FirstTouchIsMark(ops, host);
    KnownMeansTouched(ops, host);
  }

  /** The version recorded last, or the empty one of a host that is only marked. */
  function LastRecorded(ops: seq<InfoOp>, host: string): HostVersion {
    if ops == [] then HostVersion("", "")
    else
      var op := ops[|ops| - 1];
      if op.SetHost? && op.host == host then op.version else LastRecorded(ops[..|ops| - 1], host)
  }

  /** Marking never erases a version: the last one recorded is what the map holds. */
  lemma {:induction false} MarksNeverErase(ops: seq<InfoOp>, host: string)
    requires host in After(ops).esxi
    ensures After(ops).esxi[host] == LastRecorded(ops, host)
  {
    var init := ops[..|ops| - 1];
    if host in After(init).esxi {
      MarksNeverErase(init, host);
    } else {
      NeverRecorded(init, host);
    }
  }

  ghost predicate IsLastHostReport(ops: seq<InfoOp>, k: nat) {
    k < |ops| && ops[k].SetHost? && forall j :: k < j < |ops| ==> !(ops[j].SetHost? && ops[j].host == ops[k].host)
  }

  ghost predicate IsLastVCenterReport(ops: seq<InfoOp>, k: nat) {
    k < |ops| && ops[k].SetVCenter? && forall j :: k < j < |ops| ==> !(ops[j].SetVCenter? && ops[j].host == ops[k].host)
  }

  /** What is held for a host is what the last report about it said. */
  lemma {:induction false} HoldsLastHostReport(ops: seq<InfoOp>, k: nat, version: string, apiVersion: string)
    requires IsLastHostReport(ops, k) && ops[k].version == HostVersion(version, apiVersion)
    ensures var h := ops[k].host;
      h in After(ops).esxi && After(ops).esxi[h].version == version && After(ops).esxi[h].apiVersion == apiVersion
  {
    var n := |ops| - 1;
    if k < n {
      assert IsLastHostReport(ops[..n], k);
      HoldsLastHostReport(ops[..n], k, version, apiVersion);
    }
  }

  /** Both versions of a vCenter are those of the last report about it. */
  lemma {:induction false} HoldsLastVCenterReport(ops: seq<InfoOp>, k: nat, h: string, version: string,
                                                  apiVersion: string)
    requires IsLastVCenterReport(ops, k) && ops[k] == SetVCenter(h, version, apiVersion)
    ensures var c := After(ops);
      h in c.vcenters && h in c.vcVersion && h in c.vcApi && c.vcVersion[h] == version && c.vcApi[h] == apiVersion
  {
    var n := |ops| - 1;
    if k < n {
      assert IsLastVCenterReport(ops[..n], k);
      HoldsLastVCenterReport(ops[..n], k, h, version, apiVersion);
    } else {
      VCentersListedOnce(ops);
    }
  }

  lemma {:induction false} LastHostReport(ops: seq<InfoOp>, host: string) returns (k: nat)
    requires exists op :: op in ops && op.SetHost? && op.host == host
    ensures IsLastHostReport(ops, k) && ops[k].host == host
  {
    var n := |ops| - 1;
    assert ops == ops[..n] + [ops[n]];
    if ops[n].SetHost? && ops[n].host == host { k := n; } else { k := LastHostReport(ops[..n], host); }
  }

  lemma {:induction false} LastVCenterReport(ops: seq<InfoOp>, host: string) returns (k: nat)
    requires exists op :: op in ops && op.SetVCenter? && op.host == host
    ensures IsLastVCenterReport(ops, k) && ops[k].host == host
  {
    var n := |ops| - 1;
    assert ops == ops[..n] + [ops[n]];
    if ops[n].SetVCenter? && ops[n].host == host { k := n; } else { k := LastVCenterReport(ops[..n], host); }
  }

  /** What is held for a host was reported, or comes from a mark. */
  lemma {:induction false} HostWasReported(ops: seq<InfoOp>, h: string)
    requires h in After(ops).esxi && After(ops).esxi[h] != HostVersion("", "")
    ensures exists op :: op in ops && op.SetHost? && op.host == h
  {
    var init, last := ops[..|ops| - 1], ops[|ops| - 1];
    assert ops == init + [last] && last in ops;
    if !(last.SetHost? && last.host == h) {
      HostWasReported(init, h);
      var op :| op in init && op.SetHost? && op.host == h;
      assert op in ops;
    }
  }

  lemma {:induction false} VCenterWasReported(ops: seq<InfoOp>, h: string)
    requires h in After(ops).vcenters
    ensures exists op :: op in ops && op.SetVCenter? && op.host == h
  {
    var init, last := ops[..|ops| - 1], ops[|ops| - 1];
    assert ops == init + [last] && last in ops;
    if !(last.SetVCenter? && last.host == h) {
      VCenterWasReported(init, h);
      var op :| op in init && op.SetVCenter? && op.host == h;
      assert op in ops;
    }
  }

  lemma HardwareApplied(c: Info, op: InfoOp, key: string)
    ensures key in Apply(c, op).hw <==> key in c.hw || op == SetHardware(key)
  {
  }

  lemma {:induction false} HardwareWasReported(ops: seq<InfoOp>, key: string)
    ensures key in After(ops).hw <==> SetHardware(key) in ops
  {
    if ops != [] {
      var init, last := ops[..|ops| - 1], ops[|ops| - 1];
      HardwareWasReported(init, key);
      HardwareApplied(After(init), last, key);
      assert ops == init + [last];
    }
  }

  /** Some host is held with an API version of this kind. */
  ghost predicate HoldsHost(c: Info, kind: string -> bool) {
    exists h :: h in c.esxi && kind(c.esxi[h].apiVersion)
  }

  ghost predicate LastHostReportIs(ops: seq<InfoOp>, kind: string -> bool) {
    exists k: nat :: IsLastHostReport(ops, k) && kind(ops[k].version.apiVersion)
  }

  ghost predicate HoldsVCenter(c: Info, kind: string -> bool) {
    exists h :: h in c.vcenters && h in c.vcApi && kind(c.vcApi[h])
  }

  ghost predicate LastVCenterReportIs(ops: seq<InfoOp>, kind: string -> bool) {
    exists k: nat :: IsLastVCenterReport(ops, k) && kind(ops[k].apiVersion)
  }

  lemma HoldsWhatWasReported(ops: seq<InfoOp>, kind: string -> bool)
    requires !kind("")
    ensures HoldsHost(After(ops), kind) <==> LastHostReportIs(ops, kind)
    ensures HoldsVCenter(After(ops), kind) <==> LastVCenterReportIs(ops, kind)
  {
    if h :| h in After(ops).esxi && kind(After(ops).esxi[h].apiVersion) {
      HostWasReported(ops, h);
      var k := LastHostReport(ops, h);
      HoldsLastHostReport(ops, k, ops[k].version.version, ops[k].version.apiVersion);
    }
    if k: nat :| IsLastHostReport(ops, k) && kind(ops[k].version.apiVersion) {
      HoldsLastHostReport(ops, k, ops[k].version.version, ops[k].version.apiVersion);
    }
    if h :| h in After(ops).vcenters && h in After(ops).vcApi && kind(After(ops).vcApi[h]) {
      VCenterWasReported(ops, h);
      var k := LastVCenterReport(ops, h);
      HoldsLastVCenterReport(ops, k, h, ops[k].vcenterVersion, ops[k].apiVersion);
    }
    if k: nat :| IsLastVCenterReport(ops, k) && kind(ops[k].apiVersion) {
      HoldsLastVCenterReport(ops, k, ops[k].host, ops[k].vcenterVersion, ops[k].apiVersion);
    }
  }

  lemma {:induction false} NeverRecorded(ops: seq<InfoOp>, host: string)
    requires host !in After(ops).esxi
    ensures LastRecorded(ops, host) == HostVersion("", "")
  {
    if ops != [] { NeverRecorded(ops[..|ops| - 1], host); }
  }

  /** The list of vCenters names each reported vCenter once. */
  lemma {:induction false} VCentersListedOnce(ops: seq<InfoOp>)
    ensures var c := After(ops);
      && (forall h :: h in c.vcenters <==> h in c.vcVersion)
      && c.vcVersion.Keys == c.vcApi.Keys
      && (forall j, k :: 0 <= j < k < |c.vcenters| ==> c.vcenters[j] != c.vcenters[k])
  {
    if ops != [] {
      var init, op := After(ops[..|ops| - 1]), ops[|ops| - 1];
      VCentersListedOnce(ops[..|ops| - 1]);
      if op.SetVCenter? && op.host !in init.vcVersion {
        assert op.host !in init.vcenters;
        assert forall j :: 0 <= j < |init.vcenters| ==> init.vcenters[j] in init.vcenters;
      }
    }
  }

  // ---------------------------------------------------------------- totals

  /** The sum of all counts of a map. */
  ghost function Total<K>(m: map<K, nat>): nat
    decreases |m|
  {
    if m == map[] then 0
    else
      var k :| k in m;
      m[k] + Total(m - {k})
  }

  lemma {:induction false} TotalPick<K>(m: map<K, nat>, k: K)
    requires k in m
    ensures Total(m) == m[k] + Total(m - {k})
    decreases |m|
  {
    var p :| p in m && Total(m) == m[p] + Total(m - {p});
    if p != k {
      TotalPick(m - {p}, k);
      TotalPick(m - {k}, p);
      assert m - {p} - {k} == m - {k} - {p};
    }
  }

  lemma TotalUpdate<K>(m: map<K, nat>, k: K, v: nat)
    ensures Total(m[k := v]) == Total(m) - (if k in m then m[k] else 0) + v
  {
    TotalPick(m[k := v], k);
    assert m[k := v] - {k} == m - {k};
    if k in m { TotalPick(m, k); } else { assert m - {k} == m; }
  }

  function CountOps(ops: seq<InfoOp>, p: InfoOp -> bool): nat {
    if ops == [] then 0 else CountOps(ops[..|ops| - 1], p) + if p(ops[|ops| - 1]) then 1 else 0
  }

  predicate IsHardware(op: InfoOp) { op.SetHardware? }

  predicate IsCbt(op: InfoOp) { op.SetCbt? }

  function Is(x: InfoOp): InfoOp -> bool {
    op => op == x
  }

  /** No hardware report is lost or counted twice, and neither is a CBT report. */
  lemma {:induction false} TotalsCountReports(ops: seq<InfoOp>)
    ensures Total(After(ops).hw) == CountOps(ops, IsHardware)
    ensures Total(After(ops).cbt) == CountOps(ops, IsCbt)
  {
    if ops != [] {
      var init, op := ops[..|ops| - 1], ops[|ops| - 1];
      TotalsCountReports(init);
      if op.SetHardware? { TotalUpdate(After(init).hw, op.key, CountOf(After(init).hw, op.key) + 1); }
      if op.SetCbt? { TotalUpdate(After(init).cbt, op.key, CountOf(After(init).cbt, op.key) + 1); }
    }
  }

  lemma {:induction false} EachCountIsReports(ops: seq<InfoOp>, key: string)
    ensures CountOf(After(ops).hw, key) == CountOps(ops, Is(SetHardware(key)))
    ensures CountOf(After(ops).cbt, key) == CountOps(ops, Is(SetCbt(key)))
  {
    if ops != [] { EachCountIsReports(ops[..|ops| - 1], key); }
  }

  // ---------------------------------------------------------------- the ESXi histogram

  /** The hosts of `hosts` with version `v`. */
  ghost function WithVersion(esxi: map<string, HostVersion>, v: HostVersion): set<string> {
    set h | h in esxi && esxi[h] == v
  }

  ghost predicate IsHistogram(versions: map<HostVersion, nat>, esxi: map<string, HostVersion>) {
    && (forall v :: v in versions <==> WithVersion(esxi, v) != {})
    && (forall v :: v in versions ==> versions[v] == |WithVersion(esxi, v)|)
  }

  lemma WithVersionAdd(done: map<string, HostVersion>, h: string, v: HostVersion, u: HostVersion)
    requires h !in done
    ensures |WithVersion(done[h := v], u)| == |WithVersion(done, u)| + if u == v then 1 else 0
    ensures WithVersion(done[h := v], v) != {}
    ensures u != v ==> WithVersion(done[h := v], u) == WithVersion(done, u)
  {
    var before, after := WithVersion(done, u), WithVersion(done[h := v], u);
    assert h in WithVersion(done[h := v], v);
    if u == v { assert after == before + {h} && h !in before; } else { assert after == before; }
  }

  lemma HistogramStep(versions: map<HostVersion, nat>, done: map<string, HostVersion>, h: string, v: HostVersion)
    requires IsHistogram(versions, done) && h !in done
    ensures IsHistogram(versions[v := (if v in versions then versions[v] else 0) + 1], done[h := v])
  {
    var versions' := versions[v := (if v in versions then versions[v] else 0) + 1];
    forall u ensures u in versions' <==> WithVersion(done[h := v], u) != {} {
      WithVersionAdd(done, h, v, u);
    }
    forall u | u in versions' ensures versions'[u] == |WithVersion(done[h := v], u)| {
      WithVersionAdd(done, h, v, u);
    }
  }

  /** The part of the map ranged over while `remaining` is still to come. */
  ghost function Done(esxi: map<string, HostVersion>, remaining: set<string>): map<string, HostVersion> {
    map h | h in esxi && h !in remaining :: esxi[h]
  }

  lemma DoneStep(esxi: map<string, HostVersion>, remaining: set<string>, h: string)
    requires h in remaining && remaining <= esxi.Keys
    ensures Done(esxi, remaining - {h}) == Done(esxi, remaining)[h := esxi[h]]
    ensures h !in Done(esxi, remaining)
  {
  }

  /** FinishCheck of the ESXi check, whatever the order in which the map is ranged over. */
  method Histogram(esxi: map<string, HostVersion>) returns (versions: map<HostVersion, nat>)
    ensures Total(versions) == |esxi|
    ensures IsHistogram(versions, esxi)
  {
    versions := map[];
    var remaining := esxi.Keys;
    assert Done(esxi, remaining) == map[];
    while remaining != {}
      invariant remaining <= esxi.Keys
      invariant Total(versions) == |Done(esxi, remaining)|
      invariant IsHistogram(versions, Done(esxi, remaining))
      decreases |remaining|
    {
      var h :| h in remaining;
      var v := esxi[h];
      DoneStep(esxi, remaining, h);
      HistogramStep(versions, Done(esxi, remaining), h, v);
      TotalUpdate(versions, v, (if v in versions then versions[v] else 0) + 1);
      versions := versions[v := (if v in versions then versions[v] else 0) + 1];
      remaining := remaining - {h};
    }
    assert Done(esxi, {}) == esxi;
  }
}
