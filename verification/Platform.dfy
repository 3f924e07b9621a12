/** The platform spec of the cluster and its completion from the legacy cloud provider config
    (pkg/check/util.go, ConvertToPlatformSpec). */
module Platform {
  import opened Options
  import opened Text

  datatype Topology = Topology(datacenter: string, computeCluster: string, folder: string, resourcePool: string,
                               datastore: string)

  datatype FailureDomain = FailureDomain(name: string, region: string, zone: string, server: string, topology: Topology)

  datatype VCenterSpec = VCenterSpec(server: string, datacenters: seq<string>)

  datatype Spec = Spec(vcenters: seq<VCenterSpec>, failureDomains: seq<FailureDomain>)

  const NO_SPEC := Spec([], [])

  datatype Workspace = Workspace(vcenterIP: string, datacenter: string, folder: string, resourcePoolPath: string,
                                 defaultDatastore: string)

  /** The ini config; `virtualCenter` maps a server to its comma-separated datacenters. */
  datatype LegacyConfig = LegacyConfig(workspace: Workspace, virtualCenter: map<string, string>)

  /** `config` maps each vCenter of the cloud provider config to its comma-separated datacenters. */
  datatype VMConfig = VMConfig(config: map<string, string>, legacy: Option<LegacyConfig>)

  /** A connection. */
  datatype VCenter = VCenter(name: string, username: string)

  function Servers(vcenters: seq<VCenterSpec>): (s: set<string>)
    ensures forall v :: v in vcenters ==> v.server in s
  {
    set v | v in vcenters :: v.server
  }

  function FailureDomainServers(fds: seq<FailureDomain>): set<string> {
    set fd | fd in fds :: fd.server
  }

  /** The server of the workspace is one of the legacy config's vCenters. */
  predicate WorkspaceKnown(legacy: LegacyConfig) {
    legacy.workspace.vcenterIP in legacy.virtualCenter
  }

  function LegacyVCenter(legacy: LegacyConfig, server: string): VCenterSpec
    requires WorkspaceKnown(legacy)
  {
    VCenterSpec(server, Split(legacy.virtualCenter[legacy.workspace.vcenterIP], ','))
  }

  function LegacyDomain(legacy: LegacyConfig, server: string): FailureDomain {
    var w := legacy.workspace;
    FailureDomain("", "", "", server, Topology(w.datacenter, "", w.folder, w.resourcePoolPath, w.defaultDatastore))
  }

  function LegacyVCenters(legacy: LegacyConfig, names: seq<string>): (r: seq<VCenterSpec>)
    requires WorkspaceKnown(legacy)
    ensures |r| == |names| && forall k :: 0 <= k < |names| ==> r[k] == LegacyVCenter(legacy, names[k])
  {
    seq(|names|, k requires 0 <= k < |names| => LegacyVCenter(legacy, names[k]))
  }

  function LegacyDomains(legacy: LegacyConfig, names: seq<string>): (r: seq<FailureDomain>)
    ensures |r| == |names| && forall k :: 0 <= k < |names| ==> r[k] == LegacyDomain(legacy, names[k])
  {
    seq(|names|, k requires 0 <= k < |names| => LegacyDomain(legacy, names[k]))
  }

  /** The spec after converting `names`, in this order. */
  function Extended(spec: Spec, legacy: LegacyConfig, names: seq<string>): Spec {
    if WorkspaceKnown(legacy)
    then Spec(spec.vcenters + LegacyVCenters(legacy, names), spec.failureDomains + LegacyDomains(legacy, names))
    else spec
  }

  /** A spec without failure domains gets one for the workspace. */
  function WithSomeDomain(spec: Spec, legacy: LegacyConfig): Spec {
    if spec.failureDomains == [] then spec.(failureDomains := [LegacyDomain(legacy, legacy.workspace.vcenterIP)])
    else spec
  }

  /** The connections whose vCenter the spec does not list. */
  function MissingKeys(spec: Spec, connected: map<string, VCenter>): set<string> {
    set k | k in connected && connected[k].name !in Servers(spec.vcenters)
  }

  function Names(connected: map<string, VCenter>, keys: seq<string>): (r: seq<string>)
    requires forall k :: k in keys ==> k in connected
    ensures |r| == |keys| && forall j :: 0 <= j < |keys| ==> r[j] == connected[keys[j]].name
  {
    seq(|keys|, j requires 0 <= j < |keys| => connected[keys[j]].name)
  }

  /** `order` enumerates `keys`. */
  ghost predicate Enumerates(order: seq<string>, keys: set<string>) {
    (forall k :: k in order <==> k in keys) && (forall i, j :: 0 <= i < j < |order| ==> order[i] != order[j])
  }

  /** The converted spec when the map of connections is ranged over so that the keys that are
      converted come in this order. */
  ghost function Converted(original: Option<Spec>, config: Option<VMConfig>, connected: map<string, VCenter>,
                           order: seq<string>): Spec
    requires forall k :: k in order ==> k in connected
  {
    var spec := if original.Some? then original.value else NO_SPEC;
    if config.None? || config.value.legacy.None? then spec
    else
      var legacy := config.value.legacy.value;
      if spec.vcenters != [] then WithSomeDomain(Extended(spec, legacy, Names(connected, order)), legacy)
      else if |connected| == 1 then Extended(spec, legacy, Names(connected, order))
      else spec
  }

  /** The keys that are converted. */
  function ToConvert(original: Option<Spec>, config: Option<VMConfig>, connected: map<string, VCenter>): set<string> {
    var spec := if original.Some? then original.value else NO_SPEC;
    if config.None? || config.value.legacy.None? then {}
    else if spec.vcenters != [] then MissingKeys(spec, connected)
    else if |connected| == 1 then connected.Keys
    else {}
  }

  class PlatformSpec {
    var VCenters: seq<VCenterSpec>
    var FailureDomains: seq<FailureDomain>

    ghost function Now(): Spec
      reads this
    {
      Spec(VCenters, FailureDomains)
    }

    constructor ()
      ensures Now() == NO_SPEC
    {
      VCenters, FailureDomains := [], [];
    }

    method AddFailureDomain(legacy: LegacyConfig, vcenter: string)
      modifies this`FailureDomains
      ensures FailureDomains == old(FailureDomains) + [LegacyDomain(legacy, vcenter)]
    {
      FailureDomains := FailureDomains + [LegacyDomain(legacy, vcenter)];
    }

    method ConvertIntree(legacy: LegacyConfig, vcenter: string)
      modifies this
      ensures Now() == Extended(old(Now()), legacy, [vcenter])
    {
      if legacy.workspace.vcenterIP in legacy.virtualCenter {
        var datacenters := Split(legacy.virtualCenter[legacy.workspace.vcenterIP], ',');
        VCenters := VCenters + [VCenterSpec(vcenter, datacenters)];
        AddFailureDomain(legacy, vcenter);
      }
    }

    /** Converts every connection that the original spec does not list, in any order of the map. */
    method ConvertMissing(legacy: LegacyConfig, connected: map<string, VCenter>) returns (ghost order: seq<string>)
      modifies this
      ensures Enumerates(order, MissingKeys(old(Now()), connected))
      ensures Now() == Extended(old(Now()), legacy, Names(connected, order))
    {
      var known := Servers(VCenters);
      ghost var original, missing := Now(), MissingKeys(Now(), connected);
      var keys := connected.Keys;
      order := [];
      assert missing - keys == {};
      while keys != {}
        invariant keys <= connected.Keys
        invariant Enumerates(order, missing - keys)
        invariant Now() == Extended(original, legacy, Names(connected, order))
        decreases |keys|
      {
        var k :| k in keys;
        ghost var before := missing - keys;
        keys := keys - {k};
        if connected[k].name !in known {
          EnumerateMore(order, before, k);
          ExtendMore(original, legacy, connected, order, k);
          ConvertIntree(legacy, connected[k].name);
          order := order + [k];
          assert missing - keys == before + {k};
        } else {
          assert missing - keys == before;
        }
      }
      assert missing - {} == missing;
    }
  }

  lemma ExtendMore(spec: Spec, legacy: LegacyConfig, connected: map<string, VCenter>, order: seq<string>, k: string)
    requires k in connected && forall o :: o in order ==> o in connected
    ensures Extended(Extended(spec, legacy, Names(connected, order)), legacy, [connected[k].name])
         == Extended(spec, legacy, Names(connected, order + [k]))
  {
    assert Names(connected, order + [k]) == Names(connected, order) + [connected[k].name];
  }

  /** An enumeration has as many entries as there are keys. */
  lemma {:induction false} EnumerationSize(order: seq<string>, keys: set<string>)
    requires Enumerates(order, keys)
    ensures |order| == |keys|
  {
    if order == [] {
      assert keys == {} by { assert forall k :: k in keys ==> k in order; }
    } else {
      var init, last := order[..|order| - 1], order[|order| - 1];
      assert order == init + [last];
      assert forall j :: 0 <= j < |init| ==> init[j] == order[j];
      EnumerationSize(init, keys - {last});
    }
  }

  lemma EnumerateMore(order: seq<string>, keys: set<string>, k: string)
    requires Enumerates(order, keys) && k !in keys
    ensures Enumerates(order + [k], keys + {k})
  {
    assert forall j :: 0 <= j < |order| ==> order[j] in order;
  }

  method ConvertToPlatformSpec(original: Option<Spec>, config: Option<VMConfig>, connected: map<string, VCenter>)
    returns (spec: PlatformSpec, ghost order: seq<string>)
    ensures fresh(spec)
    ensures Enumerates(order, ToConvert(original, config, connected))
    ensures spec.Now() == Converted(original, config, connected, order)
  {
    spec := new PlatformSpec();
    order := [];
    if original.Some? {
      spec.VCenters, spec.FailureDomains := original.value.vcenters, original.value.failureDomains;
    }
    if config.Some? && config.value.legacy.Some? {
      var legacy := config.value.legacy.value;
      if |spec.VCenters| != 0 {
        order := spec.ConvertMissing(legacy, connected);
        if |spec.FailureDomains| == 0 {
          spec.AddFailureDomain(legacy, legacy.workspace.vcenterIP);
        }
      } else if |connected| == 1 {
        var k :| k in connected;
        assert connected.Keys == {k} by { OnlyKey(connected.Keys, k); }
        spec.ConvertIntree(legacy, connected[k].name);
        order := [k];
        assert Names(connected, order) == [connected[k].name];
      }
    }
  }

  lemma OnlyKey(s: set<string>, k: string)
    requires k in s && |s| == 1
    ensures s == {k}
  {
    assert |s - {k}| == 0;
  }
}
