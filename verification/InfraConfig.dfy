/** Consistency of the Infrastructure object with the cloud provider config
    (pkg/check/infra_config.go). */
module InfraConfig {
  import opened Options
  import opened Platform

  datatype ConfigError =
    | CountMismatch(infra: nat, provider: nat)
    | NotInProviderConfig(server: string)
    | UnknownServer(domain: string, server: string)
    | UnusedVCenter(server: string)

  function InfraNames(spec: Spec): (r: seq<string>)
    ensures |r| == |spec.vcenters| && forall k :: 0 <= k < |r| ==> r[k] == spec.vcenters[k].server
  {
    seq(|spec.vcenters|, k requires 0 <= k < |spec.vcenters| => spec.vcenters[k].server)
  }

  method ContainsString(names: seq<string>, name: string) returns (found: bool)
    ensures found <==> name in names
  {
    for k := 0 to |names|
      invariant name !in names[..k]
    {
      if names[k] == name { return true; }
    }
    return false;
  }

  method GetInfraVCenterNames(spec: Spec) returns (names: seq<string>)
    ensures names == InfraNames(spec)
  {
    names := [];
    for k := 0 to |spec.vcenters|
      invariant names == InfraNames(spec)[..k]
    {
      names := names + [spec.vcenters[k].server];
    }
  }

  // ---------------------------------------------------------------- CheckInfraConfig

  function MissingInProvider(vcenters: seq<VCenterSpec>, config: map<string, string>): seq<ConfigError> {
    if vcenters == [] then []
    else
      var server := vcenters[|vcenters| - 1].server;
      MissingInProvider(vcenters[..|vcenters| - 1], config)
        + if server in config then [] else [NotInProviderConfig(server)]
  }

  method CheckVCenters(spec: Spec, config: map<string, string>) returns (errs: seq<ConfigError>)
    ensures errs == if |spec.vcenters| != |config| then [CountMismatch(|spec.vcenters|, |config|)]
                    else MissingInProvider(spec.vcenters, config)
  {
    errs := [];
    if |spec.vcenters| != |config| {
      errs := [CountMismatch(|spec.vcenters|, |config|)];
    } else {
      for k := 0 to |spec.vcenters|
        invariant errs == MissingInProvider(spec.vcenters[..k], config)
      {
        assert spec.vcenters[..k + 1][..k] == spec.vcenters[..k];
        if spec.vcenters[k].server !in config {
          errs := errs + [NotInProviderConfig(spec.vcenters[k].server)];
        }
      }
      assert spec.vcenters[..|spec.vcenters|] == spec.vcenters;
    }
  }

  function UnknownServers(fds: seq<FailureDomain>, names: seq<string>): seq<ConfigError> {
    if fds == [] then []
    else
      var fd := fds[|fds| - 1];
      UnknownServers(fds[..|fds| - 1], names) + if fd.server in names then [] else [UnknownServer(fd.name, fd.server)]
  }

  function Unused(vcenters: seq<VCenterSpec>, used: set<string>): seq<ConfigError> {
    if vcenters == [] then []
    else
      var server := vcenters[|vcenters| - 1].server;
      Unused(vcenters[..|vcenters| - 1], used) + if server in used then [] else [UnusedVCenter(server)]
  }

  /** The servers that are both used by a failure domain and listed. */
  function Used(fds: seq<FailureDomain>, names: seq<string>): set<string> {
    set fd | fd in fds && fd.server in names :: fd.server
  }

  function UsedServers(spec: Spec): set<string> {
    Used(spec.failureDomains, InfraNames(spec))
  }

  lemma UsedSnoc(fds: seq<FailureDomain>, fd: FailureDomain, names: seq<string>)
    ensures Used(fds + [fd], names) == Used(fds, names) + if fd.server in names then {fd.server} else {}
  {
  }

  method FindUnused(vcenters: seq<VCenterSpec>, foundVCs: map<string, bool>) returns (errs: seq<ConfigError>)
    requires forall s :: s in foundVCs ==> foundVCs[s]
    ensures errs == Unused(vcenters, foundVCs.Keys)
  {
    errs := [];
    for k := 0 to |vcenters|
      invariant errs == Unused(vcenters[..k], foundVCs.Keys)
    {
      assert vcenters[..k + 1][..k] == vcenters[..k];
      if !(vcenters[k].server in foundVCs && foundVCs[vcenters[k].server]) {
        errs := errs + [UnusedVCenter(vcenters[k].server)];
      }
    }
    assert vcenters[..|vcenters|] == vcenters;
  }

  method CheckFailureDomains(spec: Spec) returns (errs: seq<ConfigError>)
    ensures errs == UnknownServers(spec.failureDomains, InfraNames(spec)) + Unused(spec.vcenters, UsedServers(spec))
  {
    var foundVCs: map<string, bool> := map[];
    var fds := spec.failureDomains;
    var names := GetInfraVCenterNames(spec);
    errs := [];
    for k := 0 to |fds|
      invariant errs == UnknownServers(fds[..k], names)
      invariant foundVCs.Keys == Used(fds[..k], names)
      invariant forall s :: s in foundVCs ==> foundVCs[s]
    {
      assert fds[..k + 1][..k] == fds[..k] && fds[..k + 1] == fds[..k] + [fds[k]];
      UsedSnoc(fds[..k], fds[k], names);
      var known := ContainsString(names, fds[k].server);
      if !known {
        errs := errs + [UnknownServer(fds[k].name, fds[k].server)];
      } else {
        foundVCs := foundVCs[fds[k].server := true];
      }
    }
    assert fds[..|fds|] == fds;
    var unused := FindUnused(spec.vcenters, foundVCs);
    errs := errs + unused;
  }

  function ConfigErrors(spec: Spec, config: map<string, string>): seq<ConfigError> {
    (if |spec.vcenters| != |config| then [CountMismatch(|spec.vcenters|, |config|)]
     else MissingInProvider(spec.vcenters, config))
    + (UnknownServers(spec.failureDomains, InfraNames(spec)) + Unused(spec.vcenters, UsedServers(spec)))
  }

  /** `infra` is the vSphere part of the Infrastructure object, if there is one. */
  method CheckInfraConfig(infra: Option<Spec>, config: map<string, string>) returns (errs: seq<ConfigError>)
    ensures errs == if infra.None? || infra.value.failureDomains == [] then [] else ConfigErrors(infra.value, config)
    ensures errs == [] <==> infra.None? || Passes(infra.value, config)
  {
    if infra.None? || |infra.value.failureDomains| == 0 { return []; }
    errs := CheckVCenters(infra.value, config);
    var more := CheckFailureDomains(infra.value);
    errs := errs + more;
    NoErrors(infra.value, config);
  }

  /** What the check demands of a spec, in terms of its servers. */
  ghost predicate Passes(spec: Spec, config: map<string, string>) {
    spec.failureDomains != [] ==>
      && |spec.vcenters| == |config|
      && Servers(spec.vcenters) <= config.Keys
      && FailureDomainServers(spec.failureDomains) == Servers(spec.vcenters)
  }

  lemma {:induction false} NothingMissing(vcenters: seq<VCenterSpec>, config: map<string, string>)
    ensures MissingInProvider(vcenters, config) == [] <==> Servers(vcenters) <= config.Keys
  {
    if vcenters != [] {
      var init, last := vcenters[..|vcenters| - 1], vcenters[|vcenters| - 1];
      NothingMissing(init, config);
      assert vcenters == init + [last];
      assert Servers(vcenters) == Servers(init) + {last.server};
    }
  }

  lemma {:induction false} NothingUnknown(fds: seq<FailureDomain>, names: seq<string>)
    ensures UnknownServers(fds, names) == [] <==> forall s :: s in FailureDomainServers(fds) ==> s in names
  {
    if fds != [] {
      var init, last := fds[..|fds| - 1], fds[|fds| - 1];
      NothingUnknown(init, names);
      assert fds == init + [last];
      assert FailureDomainServers(fds) == FailureDomainServers(init) + {last.server};
    }
  }

  lemma {:induction false} NothingUnused(vcenters: seq<VCenterSpec>, used: set<string>)
    ensures Unused(vcenters, used) == [] <==> Servers(vcenters) <= used
  {
    if vcenters != [] {
      var init, last := vcenters[..|vcenters| - 1], vcenters[|vcenters| - 1];
      NothingUnused(init, used);
      assert vcenters == init + [last];
      assert Servers(vcenters) == Servers(init) + {last.server};
    }
  }

  lemma NamesAreServers(spec: Spec)
    ensures forall s :: s in InfraNames(spec) <==> s in Servers(spec.vcenters)
  {
    forall s ensures s in InfraNames(spec) <==> s in Servers(spec.vcenters) {
      if s in Servers(spec.vcenters) {
        var k :| 0 <= k < |spec.vcenters| && spec.vcenters[k].server == s;
        assert InfraNames(spec)[k] == s;
      }
    }
  }

  lemma NoErrors(spec: Spec, config: map<string, string>)
    requires spec.failureDomains != []
    ensures ConfigErrors(spec, config) == [] <==> Passes(spec, config)
  {
    NothingMissing(spec.vcenters, config);
    NothingUnknown(spec.failureDomains, InfraNames(spec));
    NothingUnused(spec.vcenters, UsedServers(spec));
    NamesAreServers(spec);
    assert UsedServers(spec) == FailureDomainServers(spec.failureDomains) * Servers(spec.vcenters);
  }

  lemma {:induction false} MissingAre(vcenters: seq<VCenterSpec>, config: map<string, string>, e: ConfigError)
    ensures e in MissingInProvider(vcenters, config) <==>
      exists v :: v in vcenters && v.server !in config && e == NotInProviderConfig(v.server)
  {
    if vcenters != [] {
      MissingAre(vcenters[..|vcenters| - 1], config, e);
      assert vcenters == vcenters[..|vcenters| - 1] + [vcenters[|vcenters| - 1]];
    }
  }

  lemma {:induction false} UnknownAre(fds: seq<FailureDomain>, names: seq<string>, e: ConfigError)
    ensures e in UnknownServers(fds, names) <==>
      exists fd :: fd in fds && fd.server !in names && e == UnknownServer(fd.name, fd.server)
  {
    if fds != [] {
      UnknownAre(fds[..|fds| - 1], names, e);
      assert fds == fds[..|fds| - 1] + [fds[|fds| - 1]];
    }
  }

  lemma {:induction false} UnusedAre(vcenters: seq<VCenterSpec>, used: set<string>, e: ConfigError)
    ensures e in Unused(vcenters, used) <==>
      exists v :: v in vcenters && v.server !in used && e == UnusedVCenter(v.server)
  {
    if vcenters != [] {
      UnusedAre(vcenters[..|vcenters| - 1], used, e);
      assert vcenters == vcenters[..|vcenters| - 1] + [vcenters[|vcenters| - 1]];
    }
  }

  /** What is reported: a difference in the number of vCenters, or else each vCenter that the cloud config lacks; each
      domain of an unlisted server; and each vCenter that no domain uses. */
  lemma ErrorsAre(spec: Spec, config: map<string, string>, e: ConfigError)
    ensures e in ConfigErrors(spec, config) <==>
      || (|spec.vcenters| != |config| && e == CountMismatch(|spec.vcenters|, |config|))
      || (|spec.vcenters| == |config|
          && exists v :: v in spec.vcenters && v.server !in config && e == NotInProviderConfig(v.server))
      || (exists fd :: fd in spec.failureDomains && (forall v :: v in spec.vcenters ==> v.server != fd.server)
                       && e == UnknownServer(fd.name, fd.server))
      || (exists v :: v in spec.vcenters && (forall fd :: fd in spec.failureDomains ==> fd.server != v.server)
                      && e == UnusedVCenter(v.server))
  {
    MissingAre(spec.vcenters, config, e);
    UnknownAre(spec.failureDomains, InfraNames(spec), e);
    UnusedAre(spec.vcenters, UsedServers(spec), e);
    NamesAreServers(spec);
    forall fd: FailureDomain
      ensures fd.server !in InfraNames(spec) <==> forall v :: v in spec.vcenters ==> v.server != fd.server
    {
    }
    forall v | v in spec.vcenters
      ensures v.server !in UsedServers(spec) <==> forall fd :: fd in spec.failureDomains ==> fd.server != v.server
    {
      assert v.server in Servers(spec.vcenters);
    }
  }

  // ---------------------------------------------------------------- what a passing check means

  ghost predicate DistinctServers(vcenters: seq<VCenterSpec>) {
    forall i, j :: 0 <= i < j < |vcenters| ==> vcenters[i].server != vcenters[j].server
  }

  lemma ServersSnoc(init: seq<VCenterSpec>, last: VCenterSpec)
    ensures Servers(init + [last]) == Servers(init) + {last.server}
  {
  }

  lemma LastServerIsNew(vcenters: seq<VCenterSpec>)
    requires vcenters != [] && DistinctServers(vcenters)
    ensures vcenters[|vcenters| - 1].server !in Servers(vcenters[..|vcenters| - 1])
    ensures DistinctServers(vcenters[..|vcenters| - 1])
  {
    var init := vcenters[..|vcenters| - 1];
    forall k | 0 <= k < |init| ensures init[k].server != vcenters[|vcenters| - 1].server {
      assert init[k] == vcenters[k];
    }
  }

  lemma {:induction false} DistinctServersCount(vcenters: seq<VCenterSpec>)
    requires DistinctServers(vcenters)
    ensures |Servers(vcenters)| == |vcenters|
  {
    if vcenters != [] {
      var init, last := vcenters[..|vcenters| - 1], vcenters[|vcenters| - 1];
      LastServerIsNew(vcenters);
      DistinctServersCount(init);
      assert vcenters == init + [last];
      ServersSnoc(init, last);
    }
  }

  lemma SubsetOfSameSize<T>(a: set<T>, b: set<T>)
    requires a <= b
    ensures |a| <= |b|
    ensures |a| == |b| ==> a == b
  {
    assert b == a + (b - a);
    assert |b| == |a| + |b - a|;
  }

  /** With distinct infrastructure vCenters and a failure domain, the check passes exactly when the
      failure domains, the infrastructure and the cloud config name the same servers. */
  lemma PassesExactlyWhenServersAgree(spec: Spec, config: map<string, string>)
    requires spec.failureDomains != [] && DistinctServers(spec.vcenters)
    ensures Passes(spec, config) <==>
      FailureDomainServers(spec.failureDomains) == Servers(spec.vcenters) == config.Keys
  {
    DistinctServersCount(spec.vcenters);
    if Servers(spec.vcenters) <= config.Keys { SubsetOfSameSize(Servers(spec.vcenters), config.Keys); }
    assert |config| == |config.Keys|;
  }

  lemma DistinctExtends(init: seq<VCenterSpec>, last: VCenterSpec)
    requires DistinctServers(init) && last.server !in Servers(init)
    ensures DistinctServers(init + [last])
  {
    assert forall k :: 0 <= k < |init| ==> init[k] in init;
  }

  /** There are as many servers as vCenters only if no server is listed twice. */
  lemma {:induction false} ServersCount(vcenters: seq<VCenterSpec>)
    ensures |Servers(vcenters)| <= |vcenters|
    ensures |Servers(vcenters)| == |vcenters| ==> DistinctServers(vcenters)
  {
    if vcenters == [] {
      assert Servers(vcenters) == {};
    } else {
      var init, last := vcenters[..|vcenters| - 1], vcenters[|vcenters| - 1];
      ServersCount(init);
      assert vcenters == init + [last];
      ServersSnoc(init, last);
      if last.server in Servers(init) {
        assert Servers(init) + {last.server} == Servers(init);
      } else if DistinctServers(init) {
        DistinctExtends(init, last);
      }
    }
  }

  /** A passing spec with a failure domain lists the servers of the cloud config exactly when it lists no
      server twice: a duplicate is what can hide a vCenter that is only in the cloud config. */
  lemma PassingSpecAgreesExactlyWhenDistinct(spec: Spec, config: map<string, string>)
    requires spec.failureDomains != [] && Passes(spec, config)
    ensures Servers(spec.vcenters) == config.Keys <==> DistinctServers(spec.vcenters)
  {
    assert |config| == |config.Keys|;
    ServersCount(spec.vcenters);
    if DistinctServers(spec.vcenters) { PassesExactlyWhenServersAgree(spec, config); }
  }

  /** A vCenter listed twice hides one that is only in the cloud config. */
  lemma DuplicateHidesMissingVCenter(a: string, b: string, fd: FailureDomain, datacenters: string)
    requires a != b && fd.server == a
    ensures var spec := Spec([VCenterSpec(a, []), VCenterSpec(a, [])], [fd]);
      var config := map[a := datacenters, b := datacenters];
      Passes(spec, config) && config.Keys != Servers(spec.vcenters)
  {
    var vcenters := [VCenterSpec(a, []), VCenterSpec(a, [])];
    assert Servers(vcenters) == {a} && FailureDomainServers([fd]) == {a};
    var config := map[a := datacenters, b := datacenters];
    assert config.Keys == {a, b} && |config| == |config.Keys| == 2;
    assert b in config;
  }
}
