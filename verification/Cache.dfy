/** The per-round cache of datacenters and datastores (pkg/cache/cache.go). The vCenter is an
    unchanging backend; every remote call may fail, as the caller's oracle decides. */
module Cache {
  import opened Options

  // ---------------------------------------------------------------- the vCenter

  datatype DatacenterObject = DatacenterObject(name: string, inventoryPath: string)

  datatype Datastore = Datastore(name: string, inventoryPath: string, reference: string)

  datatype ManagedDatastore = ManagedDatastore(name: string, url: string, moid: string)

  datatype Inventory = Inventory(dc: DatacenterObject, listing: seq<Datastore>, objects: seq<ManagedDatastore>)

  datatype Backend = Backend(datacenters: map<string, Inventory>, storagePods: seq<string>)

  /** Which remote calls fail while one cache call is served. */
  datatype Faults = Faults(finder: bool, list: bool, retrieve: bool, view: bool)

  const CALM := Faults(false, false, false, false)

  // ---------------------------------------------------------------- calls and answers

  datatype Error =
    | DatacenterFailed(dcName: string)
    | ListFailed
    | RetrieveFailed
    | NoManagedObject(names: seq<string>)
    | DatastoreNotFound

  datatype Result<+T> = Ok(value: T) | Err(error: Error)

  datatype Key = ByName(name: string) | ByURL(url: string) | ByReference(reference: string)

  datatype Call =
    | GetDatacenter(dcName: string)
    | GetDatastore(dcName: string, name: string)
    | GetDatastoreMo(dcName: string, key: Key)
    | GetStoragePods

  datatype Answer =
    | DatacenterFound(dc: DatacenterObject)
    | DatastoreFound(ds: Datastore)
    | MoFound(dsMo: ManagedDatastore)
    | StoragePods(pods: seq<string>)
    | Failed(error: Error)

  // ---------------------------------------------------------------- pairing datastores with managed objects

  datatype CachedDatastore = CachedDatastore(dsPath: string, ds: Datastore, dsMo: ManagedDatastore)

  function FirstNamed(objects: seq<ManagedDatastore>, name: string): Option<ManagedDatastore> {
    if objects == [] then None
    else if objects[0].name == name then Some(objects[0])
    else FirstNamed(objects[1..], name)
  }

  function Pairs(listing: seq<Datastore>, objects: seq<ManagedDatastore>): seq<CachedDatastore> {
    if listing == [] then []
    else
      var ds, dsMo := listing[0], FirstNamed(objects, listing[0].name);
      (if dsMo.Some? then [CachedDatastore(ds.inventoryPath, ds, dsMo.value)] else []) + Pairs(listing[1..], objects)
  }

  function Orphans(listing: seq<Datastore>, objects: seq<ManagedDatastore>): seq<string> {
    if listing == [] then []
    else (if FirstNamed(objects, listing[0].name).None? then [listing[0].name] else []) + Orphans(listing[1..], objects)
  }

  lemma {:induction false} FirstNamedSkips(objects: seq<ManagedDatastore>, name: string, k: nat)
    requires k <= |objects| && forall j :: 0 <= j < k ==> objects[j].name != name
    ensures FirstNamed(objects, name) == FirstNamed(objects[k..], name)
  {
    if k > 0 {
      FirstNamedSkips(objects[1..], name, k - 1);
      assert objects[1..][k - 1..] == objects[k..];
    }
  }

  /** The nested matching loops of getDatastoresLocked. */
  method MatchDatastores(listing: seq<Datastore>, objects: seq<ManagedDatastore>)
    returns (list: seq<CachedDatastore>, errs: seq<string>)
    ensures list == Pairs(listing, objects)
    ensures errs == Orphans(listing, objects)
  {
    list, errs := [], [];
    for i := 0 to |listing|
      invariant list + Pairs(listing[i..], objects) == Pairs(listing, objects)
      invariant errs + Orphans(listing[i..], objects) == Orphans(listing, objects)
    {
      var ds, moFound := listing[i], false;
      assert listing[i..][0] == ds && listing[i..][1..] == listing[i + 1..];
      for j := 0 to |objects|
        invariant !moFound
        invariant forall k :: 0 <= k < j ==> objects[k].name != ds.name
        invariant list + Pairs(listing[i..], objects) == Pairs(listing, objects)
      {
        if objects[j].name == ds.name {
          FirstNamedSkips(objects, ds.name, j);
          list := list + [CachedDatastore(ds.inventoryPath, ds, objects[j])];
          moFound := true;
          break;
        }
      }
      if !moFound {
        FirstNamedSkips(objects, ds.name, |objects|);
        errs := errs + [ds.name];
      }
    }
  }

  // ---------------------------------------------------------------- lookups in a list

  predicate Hits(cds: CachedDatastore, key: Key) {
    match key
    case ByName(name) => cds.ds.name == name || cds.dsPath == name
    case ByURL(url) => cds.dsMo.url == url
    case ByReference(reference) => cds.ds.reference == reference
  }

  function First(list: seq<CachedDatastore>, key: Key): (r: Option<CachedDatastore>)
    ensures r.None? ==> forall k :: 0 <= k < |list| ==> !Hits(list[k], key)
    ensures r.Some? ==> exists k :: 0 <= k < |list| && list[k] == r.value && Hits(list[k], key)
                                    && forall j :: 0 <= j < k ==> !Hits(list[j], key)
  {
    if list == [] then None
    else if Hits(list[0], key) then Some(list[0])
    else
      var r := First(list[1..], key);
      assert r.Some? ==> forall k :: 0 <= k < |list[1..]| ==> list[1..][k] == list[k + 1];
      r
  }

  lemma {:induction false} FirstAt(list: seq<CachedDatastore>, key: Key, k: nat)
    requires k < |list| && Hits(list[k], key)
    requires forall j :: 0 <= j < k ==> !Hits(list[j], key)
    ensures First(list, key) == Some(list[k])
  {
    if k > 0 { FirstAt(list[1..], key, k - 1); }
  }

  function DatastoreAnswer(found: Option<CachedDatastore>, call: Call): Answer
    requires call.GetDatastore? || call.GetDatastoreMo?
  {
    if found.None? then Failed(DatastoreNotFound)
    else if call.GetDatastore? then DatastoreFound(found.value.ds)
    else MoFound(found.value.dsMo)
  }

  function KeyOf(call: Call): Key
    requires call.GetDatastore? || call.GetDatastoreMo?
  {
    if call.GetDatastore? then ByName(call.name) else call.key
  }

  // ---------------------------------------------------------------- one call, as a step on the cached values

  /** What the cache holds: the list of each cached datacenter ([] while it is not loaded), the storage
      pods, and how often the list of each datacenter was loaded. */
  datatype Contents = Contents(lists: map<string, seq<CachedDatastore>>, pods: seq<string>, loads: multiset<string>)

  const EMPTY := Contents(map[], [], multiset{})

  function FetchDatacenter(b: Backend, dcName: string, f: Faults): Result<DatacenterObject> {
    if f.finder || dcName !in b.datacenters then Err(DatacenterFailed(dcName)) else Ok(b.datacenters[dcName].dc)
  }

  /** The finder reports an empty datacenter as an error. */
  function FetchDatastores(inv: Inventory, f: Faults): Result<seq<CachedDatastore>> {
    if f.list || inv.listing == [] then Err(ListFailed)
    else if f.retrieve then Err(RetrieveFailed)
    else if Orphans(inv.listing, inv.objects) != [] then Err(NoManagedObject(Orphans(inv.listing, inv.objects)))
    else Ok(Pairs(inv.listing, inv.objects))
  }

  function Loaded(c: Contents, dcName: string, list: seq<CachedDatastore>): Contents {
    Contents(c.lists[dcName := list], c.pods, c.loads + multiset{dcName})
  }

  function EnsureDatacenter(b: Backend, c: Contents, dcName: string,
                            f: Faults): (r: (Contents, Result<DatacenterObject>))
    requires forall d :: d in c.lists ==> d in b.datacenters
    ensures forall d :: d in r.0.lists ==> d in b.datacenters
    ensures r.1.Ok? ==> dcName in r.0.lists
  {
    if dcName in c.lists then (c, Ok(b.datacenters[dcName].dc))
    else
      var dc := FetchDatacenter(b, dcName, f);
      (if dc.Ok? then c.(lists := c.lists[dcName := []]) else c, dc)
  }

  function EnsureDatastores(b: Backend, c: Contents, dcName: string,
                            f: Faults): (r: (Contents, Result<seq<CachedDatastore>>))
    requires forall d :: d in c.lists ==> d in b.datacenters
    ensures forall d :: d in r.0.lists ==> d in b.datacenters
  {
    var (c', dc) := EnsureDatacenter(b, c, dcName, f);
    if dc.Err? then (c', Err(dc.error))
    else if c'.lists[dcName] != [] then (c', Ok(c'.lists[dcName]))
    else
      var list := FetchDatastores(b.datacenters[dcName], f);
      (if list.Ok? then Loaded(c', dcName, list.value) else c', list)
  }

  function Step(b: Backend, c: Contents, call: Call, f: Faults): (r: (Contents, Answer))
    requires forall d :: d in c.lists ==> d in b.datacenters
    ensures forall d :: d in r.0.lists ==> d in b.datacenters
  {
    match call
    case GetDatacenter(dcName) =>
      var (c', dc) := EnsureDatacenter(b, c, dcName, f);
      (c', if dc.Ok? then DatacenterFound(dc.value) else Failed(dc.error))
    case GetStoragePods =>
      if c.pods != [] then (c, StoragePods(c.pods))
      else if f.view then (c, StoragePods([]))
      else (c.(pods := b.storagePods), StoragePods(b.storagePods))
    case _ =>
      var (c', list) := EnsureDatastores(b, c, call.dcName, f);
      (c', if list.Ok? then DatastoreAnswer(First(list.value, KeyOf(call)), call) else Failed(list.error))
  }

  /** What every state of the cache keeps. */
  ghost predicate Faithful(b: Backend, c: Contents) {
    && (forall d :: d in c.lists ==> d in b.datacenters && ListIsFaithful(b.datacenters[d], c.lists[d]))
    && (c.pods != [] ==> c.pods == b.storagePods)
    && (forall d :: c.loads[d] == if d in c.lists && c.lists[d] != [] then 1 else 0)
  }

  ghost predicate ListIsFaithful(inv: Inventory, list: seq<CachedDatastore>) {
    list != [] ==> Orphans(inv.listing, inv.objects) == [] && list == Pairs(inv.listing, inv.objects)
  }

  // ---------------------------------------------------------------- the cache itself

  method ListAndMatch(inv: Inventory, f: Faults) returns (r: Result<seq<CachedDatastore>>)
    ensures r == FetchDatastores(inv, f)
  {
    if f.list || |inv.listing| == 0 { return Err(ListFailed); }
    if f.retrieve { return Err(RetrieveFailed); }
    var list, errs := MatchDatastores(inv.listing, inv.objects);
    if errs != [] { return Err(NoManagedObject(errs)); }
    r := Ok(list);
  }

  class CachedDatacenter {
    const dc: DatacenterObject
    const dcPath: string
    var datastores: seq<CachedDatastore>

    constructor (dc: DatacenterObject)
      ensures this.dc == dc && dcPath == dc.inventoryPath && datastores == []
    {
      this.dc, dcPath, datastores := dc, dc.inventoryPath, [];
    }
  }

  class VSphereCache {
    const vmClient: Backend
    var datacenters: map<string, CachedDatacenter>
    var storagePods: seq<string>
    ghost var contents: Contents

    ghost predicate Valid()
      reads this, datacenters.Values
    {
      && (forall d, e :: d in datacenters && e in datacenters && d != e ==> datacenters[d] != datacenters[e])
      && (forall d :: d in datacenters ==> d in vmClient.datacenters && datacenters[d].dc == vmClient.datacenters[d].dc)
      && contents.lists.Keys == datacenters.Keys
      && (forall d :: d in datacenters ==> datacenters[d].datastores == contents.lists[d])
      && storagePods == contents.pods
      && Faithful(vmClient, contents)
    }

    constructor (vmClient: Backend)
      ensures Valid() && contents == EMPTY && this.vmClient == vmClient
    {
      this.vmClient := vmClient;
      datacenters, storagePods, contents := map[], [], EMPTY;
    }

    method GetDatacenterLocked(dcName: string, f: Faults) returns (r: Result<CachedDatacenter>)
      requires Valid()
      modifies this`datacenters, this`contents
      ensures Valid() && fresh(datacenters.Values - old(datacenters.Values))
      ensures r.Ok? ==> dcName in datacenters && r.value == datacenters[dcName]
      ensures contents == EnsureDatacenter(vmClient, old(contents), dcName, f).0
      ensures EnsureDatacenter(vmClient, old(contents), dcName, f).1 == if r.Ok? then Ok(r.value.dc) else Err(r.error)
    {
      if dcName in datacenters { return Ok(datacenters[dcName]); }
      var dc := FetchDatacenter(vmClient, dcName, f);
      if dc.Err? { return Err(dc.error); }
      var cdc := new CachedDatacenter(dc.value);
      NewDatacenterKeepsFaithful(vmClient, contents, dcName);
      datacenters := datacenters[dcName := cdc];
      contents := contents.(lists := contents.lists[dcName := []]);
      r := Ok(cdc);
    }

    /** The part of getDatastoresLocked that talks to the vCenter, and what it stores. */
    method LoadDatastores(dcName: string, cdc: CachedDatacenter, f: Faults) returns (r: Result<seq<CachedDatastore>>)
      requires Valid()
      requires dcName in datacenters && datacenters[dcName] == cdc && cdc.datastores == []
      modifies this`contents, cdc`datastores
      ensures Valid()
      ensures r == FetchDatastores(vmClient.datacenters[dcName], f)
      ensures contents == if r.Ok? then Loaded(old(contents), dcName, r.value) else old(contents)
    {
      r := ListAndMatch(vmClient.datacenters[dcName], f);
      if r.Err? { return; }
      LoadKeepsFaithful(vmClient, contents, dcName);
      cdc.datastores := r.value;
      contents := Loaded(contents, dcName, r.value);
    }

    method GetDatastoresLocked(dcName: string, f: Faults) returns (r: Result<seq<CachedDatastore>>)
      requires Valid()
      modifies this`datacenters, this`contents, datacenters.Values
      ensures Valid() && fresh(datacenters.Values - old(datacenters.Values))
      ensures (contents, r) == EnsureDatastores(vmClient, old(contents), dcName, f)
    {
      var got := GetDatacenterLocked(dcName, f);
      if got.Err? { return Err(got.error); }
      var cdc := got.value;
      if cdc.datastores != [] { return Ok(cdc.datastores); }
      r := LoadDatastores(dcName, cdc, f);
    }

    method GetDatacenter(dcName: string, f: Faults) returns (r: Answer)
      requires Valid()
      modifies this, datacenters.Values
      ensures Valid() && fresh(datacenters.Values - old(datacenters.Values))
      ensures (contents, r) == Step(vmClient, old(contents), Call.GetDatacenter(dcName), f)
    {
      var got := GetDatacenterLocked(dcName, f);
      r := if got.Ok? then DatacenterFound(got.value.dc) else Failed(got.error);
    }

    method GetDatastore(dcName: string, dsName: string, f: Faults) returns (r: Answer)
      requires Valid()
      modifies this, datacenters.Values
      ensures Valid() && fresh(datacenters.Values - old(datacenters.Values))
      ensures (contents, r) == Step(vmClient, old(contents), Call.GetDatastore(dcName, dsName), f)
    {
      var got := GetDatastoresLocked(dcName, f);
      if got.Err? { return Failed(got.error); }
      var list := got.value;
      for k := 0 to |list|
        modifies {}
        invariant forall j :: 0 <= j < k ==> !Hits(list[j], ByName(dsName))
      {
        if list[k].ds.name == dsName || list[k].dsPath == dsName {
          FirstAt(list, ByName(dsName), k);
          return DatastoreFound(list[k].ds);
        }
      }
      r := Failed(DatastoreNotFound);
    }

    method GetDatastoreByURL(dcName: string, dsURL: string, f: Faults) returns (r: Answer)
      requires Valid()
      modifies this, datacenters.Values
      ensures Valid() && fresh(datacenters.Values - old(datacenters.Values))
      ensures (contents, r) == Step(vmClient, old(contents), Call.GetDatastoreMo(dcName, ByURL(dsURL)), f)
    {
      var got := GetDatastoresLocked(dcName, f);
      if got.Err? { return Failed(got.error); }
      var list := got.value;
      for k := 0 to |list|
        modifies {}
        invariant forall j :: 0 <= j < k ==> !Hits(list[j], ByURL(dsURL))
      {
        if list[k].dsMo.url == dsURL {
          FirstAt(list, ByURL(dsURL), k);
          return MoFound(list[k].dsMo);
        }
      }
      r := Failed(DatastoreNotFound);
    }

    method GetDatastoreMo(dcName: string, dsName: string, f: Faults) returns (r: Answer)
      requires Valid()
      modifies this, datacenters.Values
      ensures Valid() && fresh(datacenters.Values - old(datacenters.Values))
      ensures (contents, r) == Step(vmClient, old(contents), Call.GetDatastoreMo(dcName, ByName(dsName)), f)
    {
      var got := GetDatastoresLocked(dcName, f);
      if got.Err? { return Failed(got.error); }
      var list := got.value;
      for k := 0 to |list|
        modifies {}
        invariant forall j :: 0 <= j < k ==> !Hits(list[j], ByName(dsName))
      {
        if list[k].ds.name == dsName || list[k].dsPath == dsName {
          FirstAt(list, ByName(dsName), k);
          return MoFound(list[k].dsMo);
        }
      }
      r := Failed(DatastoreNotFound);
    }

    method GetDatastoreMoByReference(dcName: string, reference: string, f: Faults) returns (r: Answer)
      requires Valid()
      modifies this, datacenters.Values
      ensures Valid() && fresh(datacenters.Values - old(datacenters.Values))
      ensures (contents, r) == Step(vmClient, old(contents), Call.GetDatastoreMo(dcName, ByReference(reference)), f)
    {
      var got := GetDatastoresLocked(dcName, f);
      if got.Err? { return Failed(got.error); }
      var list := got.value;
      for k := 0 to |list|
        modifies {}
        invariant forall j :: 0 <= j < k ==> !Hits(list[j], ByReference(reference))
      {
        if list[k].ds.reference == reference {
          FirstAt(list, ByReference(reference), k);
          return MoFound(list[k].dsMo);
        }
      }
      r := Failed(DatastoreNotFound);
    }

    /** A failure to list the pods is reported as no pods at all. */
    method GetStoragePods(f: Faults) returns (r: Answer)
      requires Valid()
      modifies this`storagePods, this`contents
      ensures Valid() && datacenters == old(datacenters)
      ensures (contents, r) == Step(vmClient, old(contents), Call.GetStoragePods, f)
    {
      if storagePods != [] { return StoragePods(storagePods); }
      if f.view { return StoragePods([]); }
      storagePods := vmClient.storagePods;
      contents := contents.(pods := storagePods);
      r := StoragePods(storagePods);
    }
  }

  // ---------------------------------------------------------------- what every call keeps

  lemma {:induction false} EveryDatastorePaired(listing: seq<Datastore>, objects: seq<ManagedDatastore>)
    requires Orphans(listing, objects) == []
    ensures |Pairs(listing, objects)| == |listing|
    ensures forall k :: 0 <= k < |listing| ==>
              && Pairs(listing, objects)[k].ds == listing[k]
              && Pairs(listing, objects)[k].dsPath == listing[k].inventoryPath
              && FirstNamed(objects, listing[k].name) == Some(Pairs(listing, objects)[k].dsMo)
  {
    if listing != [] {
      EveryDatastorePaired(listing[1..], objects);
      var rest := Pairs(listing[1..], objects);
      forall k | 0 < k < |listing|
        ensures Pairs(listing, objects)[k] == rest[k - 1] && listing[k] == listing[1..][k - 1]
      {
      }
    }
  }

  lemma NewDatacenterKeepsFaithful(b: Backend, c: Contents, dcName: string)
    requires Faithful(b, c) && dcName in b.datacenters && dcName !in c.lists
    ensures Faithful(b, c.(lists := c.lists[dcName := []]))
  {
  }

  lemma LoadKeepsFaithful(b: Backend, c: Contents, dcName: string)
    requires Faithful(b, c) && dcName in c.lists && c.lists[dcName] == []
    requires b.datacenters[dcName].listing != []
    requires Orphans(b.datacenters[dcName].listing, b.datacenters[dcName].objects) == []
    ensures Faithful(b, Loaded(c, dcName, Pairs(b.datacenters[dcName].listing, b.datacenters[dcName].objects)))
  {
    EveryDatastorePaired(b.datacenters[dcName].listing, b.datacenters[dcName].objects);
  }

  lemma DatacenterKeepsFaithful(b: Backend, c: Contents, dcName: string, f: Faults)
    requires Faithful(b, c)
    ensures Faithful(b, EnsureDatacenter(b, c, dcName, f).0)
  {
    if dcName !in c.lists && dcName in b.datacenters { NewDatacenterKeepsFaithful(b, c, dcName); }
  }

  lemma DatastoresKeepFaithful(b: Backend, c: Contents, dcName: string, f: Faults)
    requires Faithful(b, c)
    ensures Faithful(b, EnsureDatastores(b, c, dcName, f).0)
  {
    DatacenterKeepsFaithful(b, c, dcName, f);
    var (c', dc) := EnsureDatacenter(b, c, dcName, f);
    if dc.Ok? && c'.lists[dcName] == [] && FetchDatastores(b.datacenters[dcName], f).Ok? {
      LoadKeepsFaithful(b, c', dcName);
    }
  }

  lemma StepKeepsFaithful(b: Backend, c: Contents, call: Call, f: Faults)
    requires Faithful(b, c)
    ensures Faithful(b, Step(b, c, call, f).0)
  {
    if call.GetDatacenter? {
      DatacenterKeepsFaithful(b, c, call.dcName, f);
    } else if !call.GetStoragePods? {
      DatastoresKeepFaithful(b, c, call.dcName, f);
    }
  }
}
