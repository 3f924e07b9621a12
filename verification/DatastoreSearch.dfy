/** The search for a datastore by URL across failure domains (getDatastoreByURL in pkg/check/util.go). */
module DatastoreSearch {
  import opened Options
  import opened Cache
  import opened CacheTheorems
  import opened Platform

  datatype Search =
    | Found(dsMo: ManagedDatastore, dcName: string, server: string)
    | UnknownVCenter(server: string)
    | LookupFailed(error: Error)
    | NoDatastore

  /** What the cache of the domain's vCenter answers under the faults it feels. */
  function Asked(vcenters: map<string, Backend>, fd: FailureDomain, url: string, f: Faults): (r: Answer)
    requires fd.server in vcenters
    ensures r.MoFound? ==> r.dsMo.url == url
    ensures r.MoFound? || r.Failed?
  {
    var r := Uncached(vcenters[fd.server], GetDatastoreMo(fd.topology.datacenter, ByURL(url)), f);
    assert r.MoFound? ==> r.dsMo.url == url by {
      if r.MoFound? { LookupFindsFirst(vcenters[fd.server].datacenters[fd.topology.datacenter], ByURL(url)); }
    }
    r
  }

  /** The domain has a vCenter, and that vCenter has no such datastore in the domain's datacenter. */
  predicate Passed(vcenters: map<string, Backend>, fd: FailureDomain, url: string, f: Faults) {
    fd.server in vcenters && Asked(vcenters, fd, url, f) == Failed(DatastoreNotFound)
  }

  /** What a domain that is not passed makes of the search. */
  function Decided(vcenters: map<string, Backend>, fd: FailureDomain, url: string, f: Faults): Search {
    if fd.server !in vcenters then UnknownVCenter(fd.server)
    else
      match Asked(vcenters, fd, url, f)
      case MoFound(dsMo) => Found(dsMo, fd.topology.datacenter, fd.server)
      case other => LookupFailed(other.error)
  }

  /** `felt` are the faults that the cache feels at each failure domain. */
  method GetDatastoreByURL(fds: seq<FailureDomain>, vcenters: map<string, Backend>, dsURL: string, felt: seq<Faults>)
    returns (r: Search)
    requires |felt| == |fds|
    ensures r.NoDatastore? <==> forall k :: 0 <= k < |fds| ==> Passed(vcenters, fds[k], dsURL, felt[k])
    ensures !r.NoDatastore? ==> exists k ::
              && 0 <= k < |fds| && !Passed(vcenters, fds[k], dsURL, felt[k])
              && (forall j :: 0 <= j < k ==> Passed(vcenters, fds[j], dsURL, felt[j]))
              && r == Decided(vcenters, fds[k], dsURL, felt[k])
    ensures r.Found? ==> r.dsMo.url == dsURL
  {
    for k := 0 to |fds|
      invariant forall j :: 0 <= j < k ==> Passed(vcenters, fds[j], dsURL, felt[j])
    {
      if fds[k].server !in vcenters { return UnknownVCenter(fds[k].server); }
      var answer := Asked(vcenters, fds[k], dsURL, felt[k]);
      if answer.Failed? {
        if answer.error == DatastoreNotFound { continue; }
        return LookupFailed(answer.error);
      }
      if answer.dsMo.url == dsURL { return Found(answer.dsMo, fds[k].topology.datacenter, fds[k].server); }
    }
    return NoDatastore;
  }

  // ---------------------------------------------------------------- what the search finds

  /** A listed datastore of the domain's datacenter has a managed object with the URL. */
  ghost predicate Holder(vcenters: map<string, Backend>, fd: FailureDomain, url: string) {
    && fd.server in vcenters && fd.topology.datacenter in vcenters[fd.server].datacenters
    && var inv := vcenters[fd.server].datacenters[fd.topology.datacenter];
       exists cds :: cds in Pairs(inv.listing, inv.objects) && cds.dsMo.url == url
  }

  /** The vCenter is connected, and the datacenter exists, is not empty and is fully paired. */
  predicate Answering(vcenters: map<string, Backend>, fd: FailureDomain) {
    fd.server in vcenters && Answers(vcenters[fd.server], fd.topology.datacenter)
  }

  /** Without faults a domain is passed exactly when it answers and holds no such datastore, and it
      yields a datastore exactly when it answers and holds one. */
  lemma DomainDecides(vcenters: map<string, Backend>, fd: FailureDomain, url: string)
    ensures Passed(vcenters, fd, url, CALM) <==> Answering(vcenters, fd) && !Holder(vcenters, fd, url)
    ensures Decided(vcenters, fd, url, CALM).Found? <==> Answering(vcenters, fd) && Holder(vcenters, fd, url)
    ensures var r := Decided(vcenters, fd, url, CALM);
      r.Found? ==> r.dsMo.url == url && r.dcName == fd.topology.datacenter && r.server == fd.server
  {
    if Answering(vcenters, fd) {
      var inv := vcenters[fd.server].datacenters[fd.topology.datacenter];
      FirstIsLookup(inv, ByURL(url));
      var pairs := Pairs(inv.listing, inv.objects);
      assert forall k :: 0 <= k < |pairs| ==> (Hits(pairs[k], ByURL(url)) <==> pairs[k].dsMo.url == url);
    }
  }

  /** `k` is where the search stops. */
  ghost predicate StopsAt(fds: seq<FailureDomain>, vcenters: map<string, Backend>, url: string, k: nat) {
    && k < |fds| && !Passed(vcenters, fds[k], url, CALM)
    && forall j :: 0 <= j < k ==> Passed(vcenters, fds[j], url, CALM)
  }

  /** When some domain has the datastore, the first such domain being `holder`, the search without faults
      finds it exactly when that domain and every one before it answers. */
  lemma FindsExactlyWhenDomainsAnswer(fds: seq<FailureDomain>, vcenters: map<string, Backend>, url: string,
                                      holder: nat, k: nat)
    requires holder < |fds| && Holder(vcenters, fds[holder], url)
    requires forall j :: 0 <= j < holder ==> !Holder(vcenters, fds[j], url)
    requires StopsAt(fds, vcenters, url, k)
    ensures k <= holder
    ensures Decided(vcenters, fds[k], url, CALM).Found? <==>
      forall j :: 0 <= j <= holder ==> Answering(vcenters, fds[j])
    ensures Decided(vcenters, fds[k], url, CALM).Found? ==> k == holder
  {
    DomainDecides(vcenters, fds[holder], url);
    DomainDecides(vcenters, fds[k], url);
    forall j | 0 <= j < k ensures Answering(vcenters, fds[j]) && !Holder(vcenters, fds[j], url) {
      DomainDecides(vcenters, fds[j], url);
    }
    if k > holder { assert false; }
  }

  /** So a domain with an empty datacenter hides every datastore behind it. */
  lemma EmptyDatacenterEndsSearch(vcenters: map<string, Backend>, fd: FailureDomain, url: string, f: Faults)
    requires fd.server in vcenters && fd.topology.datacenter in vcenters[fd.server].datacenters && !f.finder
    requires vcenters[fd.server].datacenters[fd.topology.datacenter].listing == []
    ensures !Passed(vcenters, fd, url, f) && Decided(vcenters, fd, url, f) == LookupFailed(ListFailed)
  {
  }
}
