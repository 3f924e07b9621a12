/** Which vCenter a node lives in (pkg/check/util.go, GetVCenter) and whether its compute cluster
    is only read (pkg/check/node_cluster_permissions.go). */
module Resolve {
  import opened Options
  import opened Text
  import opened Platform
  import opened InfraConfig

  /** The topology labels of a node, "" when absent, current and beta. */
  datatype Labels = Labels(topologyRegion: string, betaRegion: string, topologyZone: string, betaZone: string)

  function Region(l: Labels): string {
    if l.topologyRegion != "" then l.topologyRegion else l.betaRegion
  }

  function Zone(l: Labels): string {
    if l.topologyZone != "" then l.topologyZone else l.betaZone
  }

  datatype Resolution =
    | Resolved(vc: VCenter)
    | VCenterNotFound(server: string)
    | NoDomainMatches
    | LabelsMissing
    | TooManyVCenters(count: nat)
    | Undetermined

  predicate Matches(fd: FailureDomain, region: string, zone: string) {
    fd.region == region && fd.zone == zone
  }

  /** The index of the first domain with both labels, the length if there is none. */
  function FirstMatch(fds: seq<FailureDomain>, region: string, zone: string): (k: nat)
    ensures k <= |fds|
    ensures k < |fds| ==> Matches(fds[k], region, zone)
    ensures forall j :: 0 <= j < k ==> !Matches(fds[j], region, zone)
  {
    if fds == [] || Matches(fds[0], region, zone) then 0 else FirstMatch(fds[1..], region, zone) + 1
  }

  function Connection(connected: map<string, VCenter>, server: string): Resolution {
    if server in connected then Resolved(connected[server]) else VCenterNotFound(server)
  }

  /** The only connection, if there is one. */
  ghost function OnlyVCenter(connected: map<string, VCenter>): Resolution {
    if |connected| > 1 then TooManyVCenters(|connected|)
    else if connected == map[] then Undetermined
    else
      var k :| k in connected;
      Resolved(connected[k])
  }

  /** The server of the first matching domain, "" if there is none. */
  function MatchedServer(fds: seq<FailureDomain>, region: string, zone: string): string {
    var k := FirstMatch(fds, region, zone);
    if k < |fds| then fds[k].server else ""
  }

  ghost function Resolve(spec: Option<Spec>, connected: map<string, VCenter>, l: Labels): Resolution {
    if spec.None? then OnlyVCenter(connected)
    else
      var fds, region, zone := spec.value.failureDomains, Region(l), Zone(l);
      var labelled := region != "" && zone != "";
      if labelled && MatchedServer(fds, region, zone) != "" then Connection(connected, MatchedServer(fds, region, zone))
      else if |fds| > 1 then (if labelled then NoDomainMatches else LabelsMissing)
      else if |fds| == 1 then Connection(connected, fds[0].server)
      else OnlyVCenter(connected)
  }

  method FirstVCenter(connected: map<string, VCenter>) returns (r: Resolution)
    ensures r == OnlyVCenter(connected)
  {
    if |connected| > 1 { return TooManyVCenters(|connected|); }
    if connected == map[] { return Undetermined; }
    var k :| k in connected;
    OnlyKey(connected.Keys, k);
    return Resolved(connected[k]);
  }

  method GetVCenter(spec: Option<Spec>, connected: map<string, VCenter>, l: Labels) returns (r: Resolution)
    ensures r == Resolve(spec, connected, l)
  {
    if spec.None? {
      r := FirstVCenter(connected);
      return;
    }
    var fds := spec.value.failureDomains;
    var region := if |l.topologyRegion| == 0 then l.betaRegion else l.topologyRegion;
    var zone := if |l.topologyZone| == 0 then l.betaZone else l.topologyZone;
    if |region| > 0 && |zone| > 0 {
      var server := "";
      for k := 0 to |fds|
        invariant server == "" && FirstMatch(fds, region, zone) >= k
      {
        if fds[k].region == region && fds[k].zone == zone {
          server := fds[k].server;
          break;
        }
      }
      if server != "" {
        return Connection(connected, server);
      }
      if |fds| > 1 { return NoDomainMatches; }
    }
    if |region| == 0 || |zone| == 0 {
      if |fds| > 1 { return LabelsMissing; }
    }
    if |fds| > 0 {
      return Connection(connected, fds[0].server);
    }
    r := FirstVCenter(connected);
  }

  // ---------------------------------------------------------------- GetVCenter never guesses

  /** With several failure domains a node is resolved exactly when both of its labels are set, the
      first domain with these labels names a server, and that server is connected. */
  lemma NeverGuesses(spec: Spec, connected: map<string, VCenter>, l: Labels, vc: VCenter)
    requires |spec.failureDomains| > 1
    ensures Resolve(Some(spec), connected, l) == Resolved(vc) <==>
      && Region(l) != "" && Zone(l) != ""
      && (exists k :: 0 <= k < |spec.failureDomains| && IsFirstMatch(spec.failureDomains, k, l)
           && spec.failureDomains[k].server != "" && spec.failureDomains[k].server in connected
           && connected[spec.failureDomains[k].server] == vc)
  {
    var fds := spec.failureDomains;
    var k := FirstMatch(fds, Region(l), Zone(l));
    if k < |fds| {
      assert IsFirstMatch(fds, k, l);
      assert forall j :: 0 <= j < |fds| && IsFirstMatch(fds, j, l) ==> j == k;
    }
  }

  ghost predicate IsFirstMatch(fds: seq<FailureDomain>, k: int, l: Labels)
    requires 0 <= k < |fds|
  {
    && Matches(fds[k], Region(l), Zone(l))
    && forall j :: 0 <= j < k ==> !Matches(fds[j], Region(l), Zone(l))
  }

  /** The same in terms of the labels as they are: a beta label counts where the topology label is absent. */
  lemma NeverGuessesByLabels(spec: Spec, connected: map<string, VCenter>, l: Labels, vc: VCenter)
    requires |spec.failureDomains| > 1
    ensures var fds := spec.failureDomains;
      var region := if l.topologyRegion == "" then l.betaRegion else l.topologyRegion;
      var zone := if l.topologyZone == "" then l.betaZone else l.topologyZone;
      Resolve(Some(spec), connected, l) == Resolved(vc) <==>
      && region != "" && zone != ""
      && exists k :: 0 <= k < |fds| && fds[k].region == region && fds[k].zone == zone
           && (forall j :: 0 <= j < k ==> !(fds[j].region == region && fds[j].zone == zone))
           && fds[k].server != "" && fds[k].server in connected && connected[fds[k].server] == vc
  {
    NeverGuesses(spec, connected, l, vc);
    var fds := spec.failureDomains;
    var region := if l.topologyRegion == "" then l.betaRegion else l.topologyRegion;
    var zone := if l.topologyZone == "" then l.betaZone else l.topologyZone;
    assert forall k :: 0 <= k < |fds| ==>
      (Matches(fds[k], Region(l), Zone(l)) <==> fds[k].region == region && fds[k].zone == zone);
    var k := FirstMatch(fds, region, zone);
    if k < |fds| {
      assert IsFirstMatch(fds, k, l) && fds[k].region == region;
      assert forall j :: 0 <= j < |fds| && IsFirstMatch(fds, j, l) ==> j == k;
    }
  }

  /** With one domain a node is resolved through it, whatever its labels; with none, through the only connection. */
  lemma FewDomainsDecide(spec: Spec, connected: map<string, VCenter>, l: Labels)
    requires |spec.failureDomains| <= 1
    ensures var r := Resolve(Some(spec), connected, l);
      && (|spec.failureDomains| == 1 ==>
            var server := spec.failureDomains[0].server;
            r == if server in connected then Resolved(connected[server]) else VCenterNotFound(server))
      && (spec.failureDomains == [] ==>
            && r == Resolve(None, connected, l)
            && (|connected| > 1 ==> r == TooManyVCenters(|connected|))
            && (|connected| == 0 ==> r == Undetermined)
            && (|connected| == 1 ==> exists k :: k in connected && r == Resolved(connected[k])))
  {
    if |connected| == 1 {
      var k :| k in connected;
      OnlyKey(connected.Keys, k);
    }
  }

  // ---------------------------------------------------------------- what the conversion adds

  /** The connections are keyed by the names of their vCenters. */
  ghost predicate WellKeyed(connected: map<string, VCenter>) {
    forall k :: k in connected ==> connected[k].name == k
  }

  ghost predicate IsLegacy(config: Option<VMConfig>) {
    config.Some? && config.value.legacy.Some?
  }

  lemma NonLegacyIsCopied(original: Option<Spec>, config: Option<VMConfig>, connected: map<string, VCenter>,
                          order: seq<string>)
    requires !IsLegacy(config) && Enumerates(order, ToConvert(original, config, connected))
    ensures Converted(original, config, connected, order) == if original.Some? then original.value else NO_SPEC
  {
  }

  lemma NamesOfKeys(connected: map<string, VCenter>, order: seq<string>)
    requires WellKeyed(connected) && forall k :: k in order ==> k in connected
    ensures Names(connected, order) == order
  {
    forall j | 0 <= j < |order| ensures Names(connected, order)[j] == order[j] {
      assert order[j] in connected;
    }
  }

  /** For every order of the map: the original vCenters and domains stay in front, and every
      connected vCenter that was missing gets one vCenter and one domain, in the same order. */
  lemma ConversionAddsMissingOnce(spec: Spec, config: VMConfig, connected: map<string, VCenter>, order: seq<string>)
    requires spec.vcenters != [] && config.legacy.Some? && WorkspaceKnown(config.legacy.value) && WellKeyed(connected)
    requires Enumerates(order, ToConvert(Some(spec), Some(config), connected))
    ensures var r := Converted(Some(spec), Some(config), connected, order);
      var legacy := config.legacy.value;
      && r.vcenters == spec.vcenters + LegacyVCenters(legacy, order)
      && spec.failureDomains <= r.failureDomains && r.failureDomains != []
      && (spec.failureDomains != [] || order != [] ==>
        r.failureDomains == spec.failureDomains + LegacyDomains(legacy, order))
      && (forall k :: k in order <==> k in connected && k !in Servers(spec.vcenters))
      && connected.Keys <= Servers(r.vcenters)
  {
    NamesOfKeys(connected, order);
    var r, legacy := Converted(Some(spec), Some(config), connected, order), config.legacy.value;
    forall k | k in connected ensures k in Servers(r.vcenters) {
      if k in Servers(spec.vcenters) {
        var v :| v in spec.vcenters && v.server == k;
        assert v in r.vcenters;
      } else {
        assert k in order;
        var j :| 0 <= j < |order| && order[j] == k;
        assert r.vcenters[|spec.vcenters| + j] == LegacyVCenter(legacy, k);
        assert LegacyVCenter(legacy, k) in r.vcenters;
      }
    }
  }

  /** When the workspace server is unknown no vCenter is added, but a domain of last resort may be. */
  lemma UnknownWorkspaceAddsNoVCenter(spec: Spec, config: VMConfig, connected: map<string, VCenter>, order: seq<string>)
    requires spec.vcenters != [] && config.legacy.Some? && !WorkspaceKnown(config.legacy.value)
    requires Enumerates(order, ToConvert(Some(spec), Some(config), connected))
    ensures var r := Converted(Some(spec), Some(config), connected, order);
      && r.vcenters == spec.vcenters
      && r.failureDomains == if spec.failureDomains != [] then spec.failureDomains
                             else [LegacyDomain(config.legacy.value, config.legacy.value.workspace.vcenterIP)]
  {
  }

  /** The fields of a domain that the conversion adds. */
  ghost predicate IsWorkspaceDomain(fd: FailureDomain, w: Workspace, server: string) {
    && fd.name == "" && fd.region == "" && fd.zone == "" && fd.server == server
    && fd.topology.datacenter == w.datacenter && fd.topology.folder == w.folder
    && fd.topology.resourcePool == w.resourcePoolPath && fd.topology.datastore == w.defaultDatastore
    && fd.topology.computeCluster == ""
  }

  /** The list names the pieces of a text between its commas. */
  ghost predicate ArePieces(pieces: seq<string>, text: string) {
    (forall p :: p in pieces ==> ',' !in p) && Join(pieces, ',') == text && pieces != []
  }

  lemma LegacyFields(legacy: LegacyConfig, server: string)
    ensures IsWorkspaceDomain(LegacyDomain(legacy, server), legacy.workspace, server)
    ensures WorkspaceKnown(legacy) ==>
      && LegacyVCenter(legacy, server).server == server
      && ArePieces(LegacyVCenter(legacy, server).datacenters, legacy.virtualCenter[legacy.workspace.vcenterIP])
  {
    if WorkspaceKnown(legacy) { JoinSplit(legacy.virtualCenter[legacy.workspace.vcenterIP], ','); }
  }

  /** Which connections are converted: those whose vCenter the spec does not list, or the only one if it lists none. */
  lemma ConvertedKeys(original: Option<Spec>, config: Option<VMConfig>, connected: map<string, VCenter>,
                      order: seq<string>, k: string)
    requires IsLegacy(config) && Enumerates(order, ToConvert(original, config, connected))
    ensures var spec := if original.Some? then original.value else Spec([], []);
      k in order <==>
        && k in connected
        && if spec.vcenters != [] then forall v :: v in spec.vcenters ==> v.server != connected[k].name
           else |connected| == 1
  {
    assert k in order <==> k in ToConvert(original, config, connected);
  }

  /** How many vCenters and domains the conversion of a legacy config adds, all behind the original ones. */
  lemma ConvertedSizes(original: Option<Spec>, config: Option<VMConfig>, connected: map<string, VCenter>,
                       order: seq<string>)
    requires IsLegacy(config) && Enumerates(order, ToConvert(original, config, connected))
    ensures var spec := if original.Some? then original.value else Spec([], []);
      var w, texts := config.value.legacy.value.workspace, config.value.legacy.value.virtualCenter;
      var r := Converted(original, config, connected, order);
      var n := if w.vcenterIP in texts then |order| else 0;
      var last := if spec.vcenters != [] && |spec.failureDomains| + n == 0 then 1 else 0;
      && |r.vcenters| == |spec.vcenters| + n && |r.failureDomains| == |spec.failureDomains| + n + last
      && spec.vcenters <= r.vcenters && spec.failureDomains <= r.failureDomains
      && (last == 1 ==> IsWorkspaceDomain(r.failureDomains[0], w, w.vcenterIP))
  {
    var legacy := config.value.legacy.value;
    LegacyFields(legacy, legacy.workspace.vcenterIP);
    if ToConvert(original, config, connected) == {} { EnumerationSize(order, {}); }
  }

  /** The added ones, field by field: a vCenter with the connection's name and the pieces of the workspace server's
      datacenters, and a domain of the workspace. */
  lemma ConvertedFields(original: Option<Spec>, config: Option<VMConfig>, connected: map<string, VCenter>,
                        order: seq<string>, j: nat)
    requires IsLegacy(config) && Enumerates(order, ToConvert(original, config, connected)) && j < |order|
    requires config.value.legacy.value.workspace.vcenterIP in config.value.legacy.value.virtualCenter
    ensures var spec := if original.Some? then original.value else Spec([], []);
      var w, texts := config.value.legacy.value.workspace, config.value.legacy.value.virtualCenter;
      var r := Converted(original, config, connected, order);
      && order[j] in connected
      && |spec.vcenters| + j < |r.vcenters| && |spec.failureDomains| + j < |r.failureDomains|
      && r.vcenters[|spec.vcenters| + j].server == connected[order[j]].name
      && ArePieces(r.vcenters[|spec.vcenters| + j].datacenters, texts[w.vcenterIP])
      && IsWorkspaceDomain(r.failureDomains[|spec.failureDomains| + j], w, connected[order[j]].name)
  {
    assert order[j] in order;
    LegacyFields(config.value.legacy.value, connected[order[j]].name);
    if ToConvert(original, config, connected) == {} { EnumerationSize(order, {}); }
  }

  /** One connected vCenter and no platform spec: every node is resolved to it, whatever its labels. */
  lemma SingleVCenterResolvesEveryNode(original: Option<Spec>, config: Option<VMConfig>,
                                       connected: map<string, VCenter>,
                                       order: seq<string>, k: string, l: Labels)
    requires original.None? || original.value == NO_SPEC
    requires WellKeyed(connected) && connected.Keys == {k}
    requires Enumerates(order, ToConvert(original, config, connected))
    ensures Resolve(Some(Converted(original, config, connected, order)), connected, l) == Resolved(connected[k])
  {
    assert |connected| == |connected.Keys| == 1;
    NamesOfKeys(connected, order);
    if IsLegacy(config) { EnumeratesOne(order, k); }
  }

  lemma EnumeratesOne(order: seq<string>, k: string)
    requires Enumerates(order, {k})
    ensures order == [k]
  {
    EnumerationSize(order, {k});
    assert order[0] in order;
  }

  // ---------------------------------------------------------------- after a passing CheckInfraConfig

  lemma PassingServersAreConnected(spec: Spec, config: map<string, string>, connected: map<string, VCenter>)
    requires Passes(spec, config) && spec.failureDomains != [] && connected.Keys == config.Keys
    ensures forall fd :: fd in spec.failureDomains ==> fd.server in connected
  {
    forall fd | fd in spec.failureDomains ensures fd.server in connected {
      assert fd.server in FailureDomainServers(spec.failureDomains);
    }
  }

  /** When CheckInfraConfig passes on a spec with distinct vCenters and the connections are those of
      the cloud config, the conversion adds nothing and no node runs into a vCenter that is not
      connected. */
  lemma PassingConfigMakesResolutionTotal(spec: Spec, config: VMConfig, connected: map<string, VCenter>,
                                          order: seq<string>, l: Labels)
    requires spec.failureDomains != [] && DistinctServers(spec.vcenters) && Passes(spec, config.config)
    requires WellKeyed(connected) && connected.Keys == config.config.Keys
    requires Enumerates(order, ToConvert(Some(spec), Some(config), connected))
    ensures Converted(Some(spec), Some(config), connected, order) == spec
    ensures !Resolve(Some(spec), connected, l).VCenterNotFound?
    ensures |spec.failureDomains| == 1 ==> Resolve(Some(spec), connected, l).Resolved?
  {
    PassesExactlyWhenServersAgree(spec, config.config);
    PassingServersAreConnected(spec, config.config, connected);
    assert MissingKeys(spec, connected) == {};
    assert ToConvert(Some(spec), Some(config), connected) == {};
    EnumerationSize(order, {});
    assert spec.failureDomains[0].server in FailureDomainServers(spec.failureDomains);
    assert Names(connected, order) == [];
    var k := FirstMatch(spec.failureDomains, Region(l), Zone(l));
    if k < |spec.failureDomains| { assert spec.failureDomains[k] in spec.failureDomains; }
    assert spec.failureDomains[0] in spec.failureDomains;
  }

  // ---------------------------------------------------------------- read-only compute clusters

  const DEFAULT_POOL_SUFFIX := "/Resources"

  predicate HasSuffix(s: string, suffix: string) {
    |suffix| <= |s| && s[|s| - |suffix|..] == suffix
  }

  /** The domain has a resource pool of its own. */
  predicate Custom(fd: FailureDomain) {
    fd.topology.resourcePool != "" && !HasSuffix(fd.topology.resourcePool, DEFAULT_POOL_SUFFIX)
  }

  predicate LegacyPool(config: VMConfig) {
    config.legacy.Some? && config.legacy.value.workspace.resourcePoolPath != ""
  }

  ghost predicate ReadOnly(config: VMConfig, spec: Option<Spec>, l: Labels) {
    if LegacyPool(config) then true
    else if spec.None? then false
    else if |spec.value.failureDomains| == 1 then Custom(spec.value.failureDomains[0])
    else exists fd :: fd in spec.value.failureDomains && Matches(fd, Region(l), Zone(l)) && Custom(fd)
  }

  method DecideReadOnly(config: VMConfig, spec: Option<Spec>, l: Labels) returns (readOnly: bool)
    ensures readOnly <==> ReadOnly(config, spec, l)
  {
    readOnly := false;
    if config.legacy.Some? && config.legacy.value.workspace.resourcePoolPath != "" {
      readOnly := true;
    } else if spec.Some? {
      var fds := spec.value.failureDomains;
      if |fds| == 1 {
        if Custom(fds[0]) { readOnly := true; }
      } else {
        for k := 0 to |fds|
          invariant !readOnly && forall j :: 0 <= j < k ==> !(Matches(fds[j], Region(l), Zone(l)) && Custom(fds[j]))
        {
          if Matches(fds[k], Region(l), Zone(l)) && Custom(fds[k]) {
            readOnly := true;
            break;
          }
        }
      }
    }
  }

  /** A pool path is the default one of a cluster: it ends in "/Resources". */
  ghost predicate IsDefaultPool(path: string) {
    exists parent :: path == parent + "/Resources"
  }

  lemma CustomPools(fd: FailureDomain)
    ensures Custom(fd) <==> fd.topology.resourcePool != "" && !IsDefaultPool(fd.topology.resourcePool)
  {
    var path := fd.topology.resourcePool;
    if HasSuffix(path, "/Resources") {
      assert path == path[..|path| - |"/Resources"|] + "/Resources";
    }
    if parent: string :| path == parent + "/Resources" {
      assert path[|path| - |"/Resources"|..] == "/Resources";
    }
  }

  /** The decision in terms of the config, the domains and the labels as they are. */
  lemma ReadOnlyExactlyWhen(config: VMConfig, spec: Option<Spec>, l: Labels)
    ensures var region := if l.topologyRegion == "" then l.betaRegion else l.topologyRegion;
      var zone := if l.topologyZone == "" then l.betaZone else l.topologyZone;
      ReadOnly(config, spec, l) <==>
      || (config.legacy.Some? && config.legacy.value.workspace.resourcePoolPath != "")
      || (spec.Some? && exists fd ::
            && fd in spec.value.failureDomains
            && fd.topology.resourcePool != "" && !IsDefaultPool(fd.topology.resourcePool)
            && (|spec.value.failureDomains| == 1 || (fd.region == region && fd.zone == zone)))
  {
    if spec.Some? {
      forall fd | fd in spec.value.failureDomains
        ensures Custom(fd) <==> fd.topology.resourcePool != "" && !IsDefaultPool(fd.topology.resourcePool)
      {
        CustomPools(fd);
      }
      if |spec.value.failureDomains| == 1 {
        assert forall fd :: fd in spec.value.failureDomains <==> fd == spec.value.failureDomains[0];
      }
    }
  }

  /** The index of the domain GetVCenter takes the server from. */
  function DomainOf(fds: seq<FailureDomain>, l: Labels): nat {
    if |fds| == 1 then 0 else FirstMatch(fds, Region(l), Zone(l))
  }

  lemma ResolvedThroughDomain(spec: Spec, connected: map<string, VCenter>, l: Labels)
    requires spec.failureDomains != [] && Resolve(Some(spec), connected, l).Resolved?
    ensures var k := DomainOf(spec.failureDomains, l);
      && k < |spec.failureDomains| && spec.failureDomains[k].server in connected
      && Resolve(Some(spec), connected, l).vc == connected[spec.failureDomains[k].server]
  {
  }

  ghost predicate UniquePairs(fds: seq<FailureDomain>) {
    forall i, j :: 0 <= i < j < |fds| ==> !(fds[i].region == fds[j].region && fds[i].zone == fds[j].zone)
  }

  /** For a resolved node, the decision differs from the resolved domain's own pool exactly when
      that pool is the default and a later domain with the same labels has a custom one. */
  lemma ReadOnlyDisagreesExactly(config: VMConfig, spec: Spec, connected: map<string, VCenter>, l: Labels)
    requires !LegacyPool(config) && spec.failureDomains != [] && Resolve(Some(spec), connected, l).Resolved?
    ensures DomainOf(spec.failureDomains, l) < |spec.failureDomains|
    ensures var fds, k := spec.failureDomains, DomainOf(spec.failureDomains, l);
      (ReadOnly(config, Some(spec), l) <==> Custom(fds[k])) <==>
      !(!Custom(fds[k]) && exists j :: k < j < |fds| && Matches(fds[j], fds[k].region, fds[k].zone) && Custom(fds[j]))
  {
    ResolvedThroughDomain(spec, connected, l);
    var fds, k := spec.failureDomains, DomainOf(spec.failureDomains, l);
    if |fds| > 1 {
      assert Matches(fds[k], Region(l), Zone(l));
      if fd :| fd in fds && Matches(fd, Region(l), Zone(l)) && Custom(fd) {
        var j :| 0 <= j < |fds| && fds[j] == fd;
        assert j >= k;
      }
      if Custom(fds[k]) { assert fds[k] in fds; }
      if j :| k < j < |fds| && Matches(fds[j], fds[k].region, fds[k].zone) && Custom(fds[j]) { assert fds[j] in fds; }
    }
  }

  /** So with unique (region, zone) pairs it is the resolved domain that decides. */
  lemma ReadOnlyFollowsResolvedDomain(config: VMConfig, spec: Spec, connected: map<string, VCenter>, l: Labels)
    requires !LegacyPool(config) && Resolve(Some(spec), connected, l).Resolved? && UniquePairs(spec.failureDomains)
    ensures spec.failureDomains == [] ==> !ReadOnly(config, Some(spec), l)
    ensures spec.failureDomains != [] ==>
      && DomainOf(spec.failureDomains, l) < |spec.failureDomains|
      && (ReadOnly(config, Some(spec), l) <==> Custom(spec.failureDomains[DomainOf(spec.failureDomains, l)]))
  {
    if spec.failureDomains != [] { ReadOnlyDisagreesExactly(config, spec, connected, l); }
  }
}
