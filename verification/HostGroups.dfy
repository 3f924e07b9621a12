/** Zones made of host groups (pkg/check/cluster_host_group.go). What the vCenter answers for each
    failure domain is a parameter. */
module HostGroups {
  import opened Options
  import opened Tags

  datatype Group =
    | HostGroup(name: string, hosts: seq<Reference>)
    | VmGroup(name: string)
    | OtherGroup

  datatype Rule =
    | VmHostRule(name: string)
    | OtherRule

  datatype Affinity =
    | NoAffinity
    | OtherAffinity
    | HostGroupAffinity(vmGroup: string, hostGroup: string, vmHostRule: string)

  datatype Domain = Domain(name: string, server: string, zone: string, datacenter: string, cluster: string,
                           affinity: Affinity)

  /** The answers for one domain: None where a call fails; a failing tag query may still return tags. */
  datatype Answers = Answers(
    categories: Option<seq<Category>>,
    datacenterFound: bool,
    clusterFound: bool,
    config: Option<(seq<Group>, seq<Rule>)>,
    tags: seq<AttachedTags>,
    tagsFailed: bool)

  datatype Fatal =
    | VCenterNotDefined(server: string)
    | NoZoneCategory(server: string)
    | NoDatacenter(datacenter: string, server: string)
    | NoCluster(cluster: string, server: string)
    | NoConfiguration(cluster: string, server: string)

  datatype Problem =
    | HostGroupMissing(domain: string, group: string)
    | HostGroupEmpty(domain: string, group: string)
    | TagsUnavailable(group: string)
    | HostUntagged(host: string, group: string, zone: string)
    | VmGroupMissing(domain: string, group: string)
    | VmRuleMissing(domain: string, rule: string)

  // ---------------------------------------------------------------- groups and rules

  predicate HasHostGroup(groups: seq<Group>, name: string) {
    exists g :: g in groups && g.HostGroup? && g.name == name
  }

  predicate HasVmGroup(groups: seq<Group>, name: string) {
    VmGroup(name) in groups
  }

  /** The hosts of every host group of that name, in order. */
  function HostsOf(groups: seq<Group>, name: string): seq<Reference> {
    if groups == [] then []
    else
      var g := groups[|groups| - 1];
      HostsOf(groups[..|groups| - 1], name) + if g.HostGroup? && g.name == name then g.hosts else []
  }

  method ScanGroups(groups: seq<Group>, hostGroup: string, vmGroup: string)
    returns (hostGroupPresent: bool, vmGroupPresent: bool, hostsInGroup: seq<Reference>)
    ensures hostGroupPresent == HasHostGroup(groups, hostGroup)
    ensures vmGroupPresent == HasVmGroup(groups, vmGroup)
    ensures hostsInGroup == HostsOf(groups, hostGroup)
  {
    hostGroupPresent, vmGroupPresent, hostsInGroup := false, false, [];
    for k := 0 to |groups|
      invariant hostGroupPresent == HasHostGroup(groups[..k], hostGroup)
      invariant vmGroupPresent == HasVmGroup(groups[..k], vmGroup)
      invariant hostsInGroup == HostsOf(groups[..k], hostGroup)
    {
      assert groups[..k + 1] == groups[..k] + [groups[k]] && groups[..k + 1][..k] == groups[..k];
      match groups[k]
      case HostGroup(name, hosts) =>
        if name != hostGroup { continue; }
        hostGroupPresent := true;
        hostsInGroup := hostsInGroup + hosts;
      case VmGroup(name) =>
        if name == vmGroup { vmGroupPresent := true; }
      case OtherGroup =>
    }
    assert groups[..|groups|] == groups;
  }

  method ScanRules(rules: seq<Rule>, vmHostRule: string) returns (vmRulePresent: bool)
    ensures vmRulePresent <==> VmHostRule(vmHostRule) in rules
  {
    vmRulePresent := false;
    for k := 0 to |rules|
      invariant vmRulePresent <==> VmHostRule(vmHostRule) in rules[..k]
    {
      if rules[k].VmHostRule? && rules[k].name == vmHostRule { vmRulePresent := true; }
    }
  }

  // ---------------------------------------------------------------- hosts without the zone's tag

  predicate HasZoneTag(tags: seq<Tag>, categoryID: string, zone: string) {
    exists t :: t in tags && t.categoryID == categoryID && t.name == zone
  }

  /** The values of the hosts for which a zone tag was returned. */
  function Tagged(attached: seq<AttachedTags>, categoryID: string, zone: string): set<string> {
    set o | o in attached && HasZoneTag(o.tags, categoryID, zone) :: o.target.value
  }

  function Values(hosts: seq<Reference>): set<string> {
    set h | h in hosts :: h.value
  }

  function Untagged(hosts: seq<Reference>, attached: seq<AttachedTags>, categoryID: string, zone: string): set<string> {
    Values(hosts) - Tagged(attached, categoryID, zone)
  }

  lemma TaggedSnoc(done: seq<AttachedTags>, o: AttachedTags, categoryID: string, zone: string)
    ensures Tagged(done + [o], categoryID, zone)
         == Tagged(done, categoryID, zone) + if HasZoneTag(o.tags, categoryID, zone) then {o.target.value} else {}
  {
  }

  lemma ZoneTagSnoc(tags: seq<Tag>, t: Tag, categoryID: string, zone: string)
    ensures HasZoneTag(tags + [t], categoryID, zone)
       <==> HasZoneTag(tags, categoryID, zone) || (t.categoryID == categoryID && t.name == zone)
  {
    assert forall u :: u in tags + [t] <==> u in tags || u == t;
  }

  /** The map of hosts not matched yet, from which the scan over the tags deletes. */
  method Unmatched(hosts: seq<Reference>, attached: seq<AttachedTags>, categoryID: string, zone: string)
    returns (unmatched: map<string, Reference>)
    ensures unmatched.Keys == Untagged(hosts, attached, categoryID, zone)
  {
    unmatched := map[];
    for k := 0 to |hosts|
      invariant unmatched.Keys == Values(hosts[..k])
    {
      assert hosts[..k + 1] == hosts[..k] + [hosts[k]];
      unmatched := unmatched[hosts[k].value := hosts[k]];
    }
    assert hosts[..|hosts|] == hosts;
    for n := 0 to |attached|
      invariant unmatched.Keys == Untagged(hosts, attached[..n], categoryID, zone)
    {
      var o := attached[n];
      assert attached[..n + 1] == attached[..n] + [o];
      TaggedSnoc(attached[..n], o, categoryID, zone);
      if o.target.value !in unmatched { continue; }
      for m := 0 to |o.tags|
        invariant unmatched.Keys == Untagged(hosts, attached[..n], categoryID, zone)
                                  - if HasZoneTag(o.tags[..m], categoryID, zone) then {o.target.value} else {}
      {
        assert o.tags[..m + 1] == o.tags[..m] + [o.tags[m]];
        ZoneTagSnoc(o.tags[..m], o.tags[m], categoryID, zone);
        if o.tags[m].categoryID == categoryID && o.tags[m].name == zone {
          unmatched := unmatched - {o.target.value};
        }
      }
      assert o.tags[..|o.tags|] == o.tags;
    }
    assert attached[..|attached|] == attached;
  }

  /** One problem for each of the values, in any order. */
  ghost predicate ReportsEach(problems: seq<Problem>, values: set<string>, group: string, zone: string) {
    && (forall p :: p in problems <==> p.HostUntagged? && p.host in values && p.group == group && p.zone == zone)
    && (forall i, j :: 0 <= i < j < |problems| ==> problems[i] != problems[j])
  }

  method ReportUnmatched(unmatched: map<string, Reference>, group: string, zone: string)
      returns (problems: seq<Problem>)
    ensures ReportsEach(problems, unmatched.Keys, group, zone)
  {
    problems := [];
    var keys := unmatched.Keys;
    while keys != {}
      invariant keys <= unmatched.Keys
      invariant ReportsEach(problems, unmatched.Keys - keys, group, zone)
      decreases |keys|
    {
      var v :| v in keys;
      keys := keys - {v};
      assert HostUntagged(v, group, zone) !in problems;
      problems := problems + [HostUntagged(v, group, zone)];
    }
    assert unmatched.Keys - keys == unmatched.Keys;
  }

  // ---------------------------------------------------------------- one failure domain

  /** What must be true for a problem of the domain to be reported. */
  ghost predicate Holds(p: Problem, fd: Domain, groups: seq<Group>, rules: seq<Rule>, a: Answers, categoryID: string)
    requires fd.affinity.HostGroupAffinity?
  {
    var g, hosts := fd.affinity.hostGroup, HostsOf(groups, fd.affinity.hostGroup);
    match p
    case HostGroupMissing(domain, group) => domain == fd.name && group == g && !HasHostGroup(groups, g)
    case HostGroupEmpty(domain, group) => domain == fd.name && group == g && HasHostGroup(groups, g) && hosts == []
    case TagsUnavailable(group) => group == g && hosts != [] && a.tagsFailed
    case HostUntagged(host, group, zone) =>
      group == g && zone == fd.zone && host in Untagged(hosts, a.tags, categoryID, fd.zone)
    case VmGroupMissing(domain, group) =>
      domain == fd.name && group == fd.affinity.vmGroup && !HasVmGroup(groups, group)
    case VmRuleMissing(domain, rule) =>
      domain == fd.name && rule == fd.affinity.vmHostRule && VmHostRule(rule) !in rules
  }

  lemma {:induction false} NoGroupNoHosts(groups: seq<Group>, name: string)
    ensures HostsOf(groups, name) != [] ==> HasHostGroup(groups, name)
  {
    if groups != [] { NoGroupNoHosts(groups[..|groups| - 1], name); }
  }

  predicate AboutVMs(p: Problem) {
    p.VmGroupMissing? || p.VmRuleMissing?
  }

  method CheckHosts(fd: Domain, hosts: seq<Reference>, present: bool, a: Answers, categoryID: string,
                    ghost groups: seq<Group>, ghost rules: seq<Rule>)
    returns (problems: seq<Problem>)
    requires fd.affinity.HostGroupAffinity?
    requires hosts == HostsOf(groups, fd.affinity.hostGroup) && present == HasHostGroup(groups, fd.affinity.hostGroup)
    ensures forall p :: p in problems <==> !AboutVMs(p) && Holds(p, fd, groups, rules, a, categoryID)
    ensures forall i, j :: 0 <= i < j < |problems| ==> problems[i] != problems[j]
  {
    NoGroupNoHosts(groups, fd.affinity.hostGroup);
    if !present { return [HostGroupMissing(fd.name, fd.affinity.hostGroup)]; }
    if |hosts| == 0 { return [HostGroupEmpty(fd.name, fd.affinity.hostGroup)]; }
    problems := if a.tagsFailed then [TagsUnavailable(fd.affinity.hostGroup)] else [];
    var unmatched := Unmatched(hosts, a.tags, categoryID, fd.zone);
    var untagged := ReportUnmatched(unmatched, fd.affinity.hostGroup, fd.zone);
    problems := problems + untagged;
  }

  lemma VMProblems(p: Problem, fd: Domain, groups: seq<Group>, rules: seq<Rule>, a: Answers, categoryID: string)
    requires fd.affinity.HostGroupAffinity? && AboutVMs(p)
    ensures Holds(p, fd, groups, rules, a, categoryID) <==>
      || (p == VmGroupMissing(fd.name, fd.affinity.vmGroup) && !HasVmGroup(groups, fd.affinity.vmGroup))
      || (p == VmRuleMissing(fd.name, fd.affinity.vmHostRule) && VmHostRule(fd.affinity.vmHostRule) !in rules)
  {
  }

  /** Reports each problem of the domain that holds, and nothing else; every host at most once. */
  method CheckDomain(fd: Domain, groups: seq<Group>, rules: seq<Rule>, a: Answers, categoryID: string)
    returns (problems: seq<Problem>)
    requires fd.affinity.HostGroupAffinity?
    ensures forall p :: p in problems <==> Holds(p, fd, groups, rules, a, categoryID)
    ensures forall i, j :: 0 <= i < j < |problems| ==> problems[i] != problems[j]
  {
    var affinity := fd.affinity;
    var hostGroupPresent, vmGroupPresent, hosts := ScanGroups(groups, affinity.hostGroup, affinity.vmGroup);
    var vmRulePresent := ScanRules(rules, affinity.vmHostRule);
    problems := CheckHosts(fd, hosts, hostGroupPresent, a, categoryID, groups, rules);
    ghost var hostProblems := problems;
    forall k | 0 <= k < |problems| ensures !AboutVMs(problems[k]) {
      assert problems[k] in problems;
    }
    if !vmGroupPresent { problems := problems + [VmGroupMissing(fd.name, affinity.vmGroup)]; }
    if !vmRulePresent { problems := problems + [VmRuleMissing(fd.name, affinity.vmHostRule)]; }
    assert forall p: Problem :: !AboutVMs(p) ==> (p in problems <==> p in hostProblems);
    forall p | AboutVMs(p) ensures p in problems <==> Holds(p, fd, groups, rules, a, categoryID) {
      VMProblems(p, fd, groups, rules, a, categoryID);
    }
  }

  // ---------------------------------------------------------------- all failure domains

  datatype Outcome = Aborted(error: Fatal) | Finished(problems: seq<Problem>)

  /** The failure that ends the whole check at this domain, if any; it discards every problem found. */
  function FatalAt(fd: Domain, connected: set<string>, a: Answers): Option<Fatal> {
    if !fd.affinity.HostGroupAffinity? then None
    else if fd.server !in connected then Some(VCenterNotDefined(fd.server))
    else if a.categories.None? || Validated(a.categories.value).None? then Some(NoZoneCategory(fd.server))
    else if !a.datacenterFound then Some(NoDatacenter(fd.datacenter, fd.server))
    else if !a.clusterFound then Some(NoCluster(fd.cluster, fd.server))
    else if a.config.None? then Some(NoConfiguration(fd.cluster, fd.server))
    else None
  }

  ghost predicate HoldsFor(p: Problem, fd: Domain, connected: set<string>, a: Answers) {
    && fd.affinity.HostGroupAffinity? && FatalAt(fd, connected, a).None?
    && Holds(p, fd, a.config.value.0, a.config.value.1, a, Validated(a.categories.value).value.zone)
  }

  method CheckHostGroups(fds: seq<Domain>, connected: set<string>, answers: seq<Answers>) returns (r: Outcome)
    requires |answers| == |fds|
    ensures r.Aborted? ==> exists k :: 0 <= k < |fds| && FatalAt(fds[k], connected, answers[k]) == Some(r.error)
                                 && forall j :: 0 <= j < k ==> FatalAt(fds[j], connected, answers[j]).None?
    ensures r.Finished? ==> forall k :: 0 <= k < |fds| ==> FatalAt(fds[k], connected, answers[k]).None?
    ensures r.Finished? ==> forall p :: p in r.problems <==>
                                        exists k :: 0 <= k < |fds| && HoldsFor(p, fds[k], connected, answers[k])
  {
    var errs: seq<Problem> := [];
    for k := 0 to |fds|
      invariant forall j :: 0 <= j < k ==> FatalAt(fds[j], connected, answers[j]).None?
      invariant forall p :: p in errs <==> exists j :: 0 <= j < k && HoldsFor(p, fds[j], connected, answers[j])
    {
      var fd, a := fds[k], answers[k];
      if !fd.affinity.HostGroupAffinity? { continue; }
      if fd.server !in connected { return Aborted(VCenterNotDefined(fd.server)); }
      if a.categories.None? { return Aborted(NoZoneCategory(fd.server)); }
      var ids := ValidateTagCategories(a.categories.value);
      if ids.None? { return Aborted(NoZoneCategory(fd.server)); }
      if !a.datacenterFound { return Aborted(NoDatacenter(fd.datacenter, fd.server)); }
      if !a.clusterFound { return Aborted(NoCluster(fd.cluster, fd.server)); }
      if a.config.None? { return Aborted(NoConfiguration(fd.cluster, fd.server)); }
      var problems := CheckDomain(fd, a.config.value.0, a.config.value.1, a, ids.value.zone);
      ghost var before := errs;
      errs := errs + problems;
      assert forall p :: HoldsFor(p, fd, connected, a) <==> p in problems;
    }
    r := Finished(errs);
  }

  /** When no tag can be fetched, every host of the group is reported along with the failure. */
  lemma UnavailableTagsReportEveryHost(fd: Domain, groups: seq<Group>, rules: seq<Rule>, a: Answers, id: string,
                                       host: Reference)
    requires fd.affinity.HostGroupAffinity? && a.tagsFailed && a.tags == []
    requires host in HostsOf(groups, fd.affinity.hostGroup)
    ensures Holds(TagsUnavailable(fd.affinity.hostGroup), fd, groups, rules, a, id)
    ensures Holds(HostUntagged(host.value, fd.affinity.hostGroup, fd.zone), fd, groups, rules, a, id)
  {
    assert Tagged(a.tags, id, fd.zone) == {};
  }

  /** A domain has nothing to report exactly when its group, its virtual machine group and its rule
      exist, the group has a host, its tags can be read, and each host carries the zone's tag. */
  lemma DomainPassesExactlyWhen(fd: Domain, groups: seq<Group>, rules: seq<Rule>, a: Answers, id: string)
    requires fd.affinity.HostGroupAffinity?
    ensures (forall p :: !Holds(p, fd, groups, rules, a, id)) <==>
      var hosts := HostsOf(groups, fd.affinity.hostGroup);
      && hosts != [] && !a.tagsFailed
      && HasVmGroup(groups, fd.affinity.vmGroup) && VmHostRule(fd.affinity.vmHostRule) in rules
      && forall h :: h in hosts ==> exists o ::
        o in a.tags && o.target.value == h.value && HasZoneTag(o.tags, id, fd.zone)
  {
    var g, hosts := fd.affinity.hostGroup, HostsOf(groups, fd.affinity.hostGroup);
    NoGroupNoHosts(groups, g);
    if forall p :: !Holds(p, fd, groups, rules, a, id) {
      assert !Holds(HostGroupMissing(fd.name, g), fd, groups, rules, a, id);
      assert !Holds(HostGroupEmpty(fd.name, g), fd, groups, rules, a, id);
      assert !Holds(TagsUnavailable(g), fd, groups, rules, a, id);
      assert !Holds(VmGroupMissing(fd.name, fd.affinity.vmGroup), fd, groups, rules, a, id);
      assert !Holds(VmRuleMissing(fd.name, fd.affinity.vmHostRule), fd, groups, rules, a, id);
      forall h | h in hosts
        ensures exists o :: o in a.tags && o.target.value == h.value && HasZoneTag(o.tags, id, fd.zone)
      {
        assert !Holds(HostUntagged(h.value, g, fd.zone), fd, groups, rules, a, id);
      }
    }
  }

  lemma {:induction false} HostsOfAre(groups: seq<Group>, name: string, h: Reference)
    ensures h in HostsOf(groups, name) <==> exists hosts :: HostGroup(name, hosts) in groups && h in hosts
  {
    if groups != [] {
      var init, last := groups[..|groups| - 1], groups[|groups| - 1];
      HostsOfAre(init, name, h);
      assert groups == init + [last];
      if last.HostGroup? && last.name == name { assert last == HostGroup(name, last.hosts); }
    }
  }

  lemma HasHostGroupAs(groups: seq<Group>, name: string)
    ensures HasHostGroup(groups, name) <==> exists hosts :: HostGroup(name, hosts) in groups
  {
    if g :| g in groups && g.HostGroup? && g.name == name { assert g == HostGroup(name, g.hosts); }
  }

  /** `h` is a host of some host group of that name. */
  ghost predicate IsHostIn(groups: seq<Group>, name: string, h: Reference) {
    exists hosts :: HostGroup(name, hosts) in groups && h in hosts
  }

  /** Some tag of the category names the zone on the host. */
  ghost predicate IsTagged(attached: seq<AttachedTags>, id: string, zone: string, host: string) {
    exists o, t :: o in attached && o.target.value == host && t in o.tags && t.categoryID == id && t.name == zone
  }

  lemma TaggedAs(attached: seq<AttachedTags>, id: string, zone: string, host: string)
    ensures host in Tagged(attached, id, zone) <==> IsTagged(attached, id, zone, host)
  {
    if IsTagged(attached, id, zone, host) {
      var o, t :| o in attached && o.target.value == host && t in o.tags && t.categoryID == id && t.name == zone;
      assert HasZoneTag(o.tags, id, zone);
    }
  }

  /** The problems of a domain, one by one. */
  lemma ProblemsAre(p: Problem, fd: Domain, groups: seq<Group>, rules: seq<Rule>, a: Answers, id: string)
    requires fd.affinity.HostGroupAffinity?
    ensures var g, vms, rule := fd.affinity.hostGroup, fd.affinity.vmGroup, fd.affinity.vmHostRule;
      Holds(p, fd, groups, rules, a, id) <==>
      || (p == HostGroupMissing(fd.name, g) && forall hosts :: HostGroup(g, hosts) !in groups)
      || (p == HostGroupEmpty(fd.name, g) && (exists hosts :: HostGroup(g, hosts) in groups)
          && forall h :: !IsHostIn(groups, g, h))
      || (p == TagsUnavailable(g) && a.tagsFailed && exists h :: IsHostIn(groups, g, h))
      || (exists h :: IsHostIn(groups, g, h) && p == HostUntagged(h.value, g, fd.zone)
                      && !IsTagged(a.tags, id, fd.zone, h.value))
      || (p == VmGroupMissing(fd.name, vms) && VmGroup(vms) !in groups)
      || (p == VmRuleMissing(fd.name, rule) && VmHostRule(rule) !in rules)
  {
    var g := fd.affinity.hostGroup;
    var hosts := HostsOf(groups, g);
    HasHostGroupAs(groups, g);
    forall h ensures h in hosts <==> IsHostIn(groups, g, h) { HostsOfAre(groups, g, h); }
    if hosts != [] { assert hosts[0] in hosts; }
    if p.HostUntagged? { TaggedAs(a.tags, id, fd.zone, p.host); }
  }

  /** Which failure ends the check at a domain: the first that applies, in this order. */
  lemma FatalIs(fd: Domain, connected: set<string>, a: Answers)
    ensures var r := FatalAt(fd, connected, a);
      var checked := fd.affinity.HostGroupAffinity?;
      var categories := a.categories.Some? && exists n ::
        && 0 <= n <= |a.categories.value|
        && After(a.categories.value[..n]).region != "" && After(a.categories.value[..n]).zone != "";
      && (r.None? <==> !checked || (fd.server in connected && categories && a.datacenterFound && a.clusterFound
                                    && a.config.Some?))
      && (checked && fd.server !in connected ==> r == Some(VCenterNotDefined(fd.server)))
      && (checked && fd.server in connected ==>
            && (!categories ==> r == Some(NoZoneCategory(fd.server)))
            && (categories && !a.datacenterFound ==> r == Some(NoDatacenter(fd.datacenter, fd.server)))
            && (categories && a.datacenterFound && !a.clusterFound ==> r == Some(NoCluster(fd.cluster, fd.server)))
            && (categories && a.datacenterFound && a.clusterFound && a.config.None? ==>
                  r == Some(NoConfiguration(fd.cluster, fd.server))))
  {
    if a.categories.Some? { ValidatedAtFirst(a.categories.value); }
  }
}
