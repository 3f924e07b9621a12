/** Datacenters of the failure domains against both configurations
    (pkg/check/datacenter_consistency.go). */
module DatacenterConsistency {
  import opened Options
  import opened Text
  import opened Platform
  import opened InfraConfig

  // ---------------------------------------------------------------- parseDatacenters

  function KeptPart(part: string): (r: seq<string>)
    ensures |r| <= 1
  {
    if TrimSpace(part) != "" then [TrimSpace(part)] else []
  }

  function Kept(parts: seq<string>): seq<string> {
    if parts == [] then []
    else KeptPart(parts[0]) + Kept(parts[1..])
  }

  function Datacenters(raw: string): seq<string> {
    Kept(Split(raw, ','))
  }

  method ParseDatacenters(raw: string) returns (result: seq<string>)
    ensures result == Datacenters(raw)
  {
    result := [];
    var parts := Split(raw, ',');
    for k := 0 to |parts|
      invariant result + Kept(parts[k..]) == Datacenters(raw)
    {
      var trimmed := TrimSpace(parts[k]);
      assert parts[k..][1..] == parts[k + 1..];
      if trimmed != "" { result := result + [trimmed]; }
    }
  }

  /** A name that a list of datacenters can hold. */
  predicate Clean(name: string) {
    name != "" && Trimmed(name, IsSpace) && ',' !in name
  }

  lemma Assoc<T>(x: seq<T>, y: seq<T>, z: seq<T>)
    ensures x + (y + z) == x + y + z
  {
  }

  lemma {:induction false} KeptConcat(a: seq<string>, b: seq<string>)
    ensures Kept(a + b) == Kept(a) + Kept(b)
  {
    if a == [] {
      assert a + b == b;
    } else {
      assert (a + b)[0] == a[0] && (a + b)[1..] == a[1..] + b;
      KeptConcat(a[1..], b);
      Assoc(KeptPart(a[0]), Kept(a[1..]), Kept(b));
    }
  }

  /** Parsing distributes over concatenation with a comma. */
  lemma ParsingDistributes(a: string, b: string)
    ensures Datacenters(a + "," + b) == Datacenters(a) + Datacenters(b)
  {
    SplitConcat(a, b, ',');
    KeptConcat(Split(a, ','), Split(b, ','));
  }

  lemma {:induction false} KeptKeepsClean(names: seq<string>)
    requires forall n :: n in names ==> Clean(n)
    ensures Kept(names) == names
  {
    if names != [] {
      assert names[0] in names;
      TrimmedStays(names[0], IsSpace);
      KeptKeepsClean(names[1..]);
      assert names == [names[0]] + names[1..];
    }
  }

  /** Parsing undoes joining, for every list of names that can be listed, the empty one included. */
  lemma ParsingUndoesJoining(names: seq<string>)
    requires forall n :: n in names ==> Clean(n)
    ensures Datacenters(Join(names, ',')) == names
  {
    if names != [] {
      SplitJoin(names, ',');
      KeptKeepsClean(names);
    }
  }

  /** A name with white space around it is read as the name, and white space alone as no name. */
  lemma WhiteSpaceIsTrimmed(pre: string, name: string, post: string)
    requires (forall c :: c in pre + post ==> IsSpace(c)) && (name == "" || Clean(name))
    ensures Datacenters(pre + name + post) == if name == "" then [] else [name]
  {
    var raw := pre + name + post;
    assert forall c :: c in pre || c in post ==> c in pre + post;
    assert !IsSpace(',') && ',' !in raw;
    SplitWithout(raw, ',');
    TrimAround(pre, name, post, IsSpace);
    assert TrimSpace(raw) == name && [raw][1..] == [] && Kept([]) == [];
    assert Kept([raw]) == KeptPart(raw) + Kept([raw][1..]);
  }

  lemma {:induction false} KeptIsClean(parts: seq<string>)
    requires forall p :: p in parts ==> ',' !in p
    ensures forall n :: n in Kept(parts) ==> Clean(n)
  {
    if parts != [] {
      assert parts[0] in parts;
      TrimKeepsCharacters(parts[0], IsSpace);
      KeptIsClean(parts[1..]);
    }
  }

  /** What is parsed can be written back: joining and parsing again changes nothing. */
  lemma ReparsingIsStable(raw: string)
    ensures forall n :: n in Datacenters(raw) ==> Clean(n)
    ensures Datacenters(Join(Datacenters(raw), ',')) == Datacenters(raw)
  {
    KeptIsClean(Split(raw, ','));
    ParsingUndoesJoining(Datacenters(raw));
  }

  lemma {:induction false} KeptOnly(parts: seq<string>)
    ensures |Kept(parts)| <= |parts|
    ensures Kept(parts) == parts ==> forall p :: p in parts ==> p != "" && Trimmed(p, IsSpace)
  {
    if parts != [] {
      KeptOnly(parts[1..]);
      if Kept(parts) == parts {
        assert |Kept(parts[1..])| == |parts| - 1 ==> Kept(parts)[1..] == Kept(parts[1..]);
        assert parts == [parts[0]] + parts[1..];
      }
    }
  }

  /** ConvertToPlatformSpec splits the same text at its commas and keeps every piece as it is: the two
      readings agree exactly when no piece is empty or has white space around it. */
  lemma SplitAgreesExactlyWhenClean(raw: string)
    ensures Split(raw, ',') == Datacenters(raw) <==> forall p :: p in Split(raw, ',') ==> Clean(p)
  {
    if Split(raw, ',') == Datacenters(raw) {
      KeptOnly(Split(raw, ','));
    } else if forall p :: p in Split(raw, ',') ==> Clean(p) {
      KeptKeepsClean(Split(raw, ','));
    }
  }

  // ---------------------------------------------------------------- CheckDatacenterConsistency

  datatype Inconsistency =
    | NotInProvider(domain: string, datacenter: string, server: string, datacenters: string)
    | NotInInfra(domain: string, datacenter: string, server: string, listed: seq<string>)

  predicate ProviderLists(config: map<string, string>, fd: FailureDomain) {
    fd.server in config ==> fd.topology.datacenter in Datacenters(config[fd.server])
  }

  function ProviderErrors(fds: seq<FailureDomain>, config: map<string, string>): seq<Inconsistency> {
    if fds == [] then []
    else
      var fd := fds[|fds| - 1];
      ProviderErrors(fds[..|fds| - 1], config)
      + if ProviderLists(config, fd) then []
        else [NotInProvider(fd.name, fd.topology.datacenter, fd.server, config[fd.server])]
  }

  /** The first entry for a server; a later one is not read. */
  function Entry(vcenters: seq<VCenterSpec>, server: string): (r: Option<VCenterSpec>)
    ensures r.None? <==> forall k :: 0 <= k < |vcenters| ==> vcenters[k].server != server
    ensures r.Some? ==> r.value in vcenters && r.value.server == server
  {
    if vcenters == [] then None
    else if vcenters[0].server == server then Some(vcenters[0])
    else Entry(vcenters[1..], server)
  }

  lemma {:induction false} EntryAt(vcenters: seq<VCenterSpec>, server: string, k: nat)
    requires k < |vcenters| && vcenters[k].server == server
    requires forall j :: 0 <= j < k ==> vcenters[j].server != server
    ensures Entry(vcenters, server) == Some(vcenters[k])
  {
    if k > 0 { EntryAt(vcenters[1..], server, k - 1); }
  }

  predicate InfraLists(vcenters: seq<VCenterSpec>, fd: FailureDomain) {
    var entry := Entry(vcenters, fd.server);
    entry.Some? ==> fd.topology.datacenter in entry.value.datacenters
  }

  function InfraErrors(fds: seq<FailureDomain>, vcenters: seq<VCenterSpec>): seq<Inconsistency> {
    if fds == [] then []
    else
      var fd := fds[|fds| - 1];
      InfraErrors(fds[..|fds| - 1], vcenters)
      + if InfraLists(vcenters, fd) then []
        else [NotInInfra(fd.name, fd.topology.datacenter, fd.server, Entry(vcenters, fd.server).value.datacenters)]
  }

  method CheckProvider(fds: seq<FailureDomain>, config: map<string, string>) returns (errs: seq<Inconsistency>)
    ensures errs == ProviderErrors(fds, config)
  {
    errs := [];
    for k := 0 to |fds|
      invariant errs == ProviderErrors(fds[..k], config)
    {
      assert fds[..k + 1][..k] == fds[..k];
      var fd := fds[k];
      if fd.server !in config { continue; }
      var configuredDCs := ParseDatacenters(config[fd.server]);
      var found := ContainsString(configuredDCs, fd.topology.datacenter);
      if !found {
        errs := errs + [NotInProvider(fd.name, fd.topology.datacenter, fd.server, config[fd.server])];
      }
    }
    assert fds[..|fds|] == fds;
  }

  method CheckInfra(fds: seq<FailureDomain>, vcenters: seq<VCenterSpec>) returns (errs: seq<Inconsistency>)
    ensures errs == InfraErrors(fds, vcenters)
  {
    errs := [];
    for k := 0 to |fds|
      invariant errs == InfraErrors(fds[..k], vcenters)
    {
      assert fds[..k + 1][..k] == fds[..k];
      var fd := fds[k];
      ghost var before := errs;
      for j := 0 to |vcenters|
        invariant errs == before
        invariant forall i :: 0 <= i < j ==> vcenters[i].server != fd.server
      {
        if vcenters[j].server == fd.server {
          EntryAt(vcenters, fd.server, j);
          var found := ContainsString(vcenters[j].datacenters, fd.topology.datacenter);
          if !found {
            errs := errs + [NotInInfra(fd.name, fd.topology.datacenter, fd.server, vcenters[j].datacenters)];
          }
          break;
        }
      }
      assert errs == InfraErrors(fds[..k + 1], vcenters);
    }
    assert fds[..|fds|] == fds;
  }

  /** The check passes exactly when each failure domain's datacenter is listed, under its server, in
      every configuration that has an entry for the server. */
  method CheckDatacenterConsistency(infra: Option<Spec>, config: map<string, string>) returns (errs: seq<Inconsistency>)
    ensures infra.None? ==> errs == []
    ensures infra.Some? ==>
      errs == ProviderErrors(infra.value.failureDomains, config)
        + InfraErrors(infra.value.failureDomains, infra.value.vcenters)
    ensures infra.Some? ==>
      (errs == [] <==> forall fd :: fd in infra.value.failureDomains ==>
                         ProviderLists(config, fd) && InfraLists(infra.value.vcenters, fd))
  {
    if infra.None? || |infra.value.failureDomains| == 0 { return []; }
    var provider := CheckProvider(infra.value.failureDomains, config);
    var listed := CheckInfra(infra.value.failureDomains, infra.value.vcenters);
    errs := provider + listed;
    NoInconsistency(infra.value.failureDomains, infra.value.vcenters, config);
  }

  lemma {:induction false} NoInconsistency(fds: seq<FailureDomain>, vcenters: seq<VCenterSpec>,
                                           config: map<string, string>)
    ensures ProviderErrors(fds, config) == [] <==> forall fd :: fd in fds ==> ProviderLists(config, fd)
    ensures InfraErrors(fds, vcenters) == [] <==> forall fd :: fd in fds ==> InfraLists(vcenters, fd)
  {
    if fds != [] {
      var init, last := fds[..|fds| - 1], fds[|fds| - 1];
      NoInconsistency(init, vcenters, config);
      assert fds == init + [last];
    }
  }

  /** What is reported: each failure domain whose datacenter the cloud config of its server does not list, and each
      whose datacenter the first vCenter entry of its server does not list. */
  lemma {:induction false} InconsistenciesAre(fds: seq<FailureDomain>, vcenters: seq<VCenterSpec>,
                                              config: map<string, string>, e: Inconsistency)
    ensures e in ProviderErrors(fds, config) <==> exists fd ::
      && fd in fds && fd.server in config && fd.topology.datacenter !in Datacenters(config[fd.server])
      && e == NotInProvider(fd.name, fd.topology.datacenter, fd.server, config[fd.server])
    ensures e in InfraErrors(fds, vcenters) <==> exists fd, k ::
      && fd in fds && IsEntry(vcenters, fd.server, k) && fd.topology.datacenter !in vcenters[k].datacenters
      && e == NotInInfra(fd.name, fd.topology.datacenter, fd.server, vcenters[k].datacenters)
  {
    if fds != [] {
      var init, last := fds[..|fds| - 1], fds[|fds| - 1];
      InconsistenciesAre(init, vcenters, config, e);
      assert fds == init + [last];
      forall k | IsEntry(vcenters, last.server, k) ensures Entry(vcenters, last.server) == Some(vcenters[k]) {
        EntryAt(vcenters, last.server, k);
      }
      if Entry(vcenters, last.server).Some? { var k := EntryIndex(vcenters, last.server); }
    }
  }

  ghost predicate IsEntry(vcenters: seq<VCenterSpec>, server: string, k: int) {
    0 <= k < |vcenters| && vcenters[k].server == server && forall j :: 0 <= j < k ==> vcenters[j].server != server
  }

  lemma {:induction false} EntryIndex(vcenters: seq<VCenterSpec>, server: string) returns (k: nat)
    requires Entry(vcenters, server).Some?
    ensures IsEntry(vcenters, server, k) && Entry(vcenters, server) == Some(vcenters[k])
  {
    if vcenters[0].server == server {
      k := 0;
    } else {
      k := EntryIndex(vcenters[1..], server);
      assert forall j :: 0 < j < k + 1 ==> vcenters[j] == vcenters[1..][j - 1];
      k := k + 1;
    }
  }
}
