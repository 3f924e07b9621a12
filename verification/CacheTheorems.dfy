/** What any sequence of calls gets from the cache, compared with asking the vCenter each time. */
module CacheTheorems {
  import opened Options
  import opened Cache

  // ---------------------------------------------------------------- asking the vCenter each time

  predicate Satisfies(ds: Datastore, dsMo: ManagedDatastore, key: Key) {
    match key
    case ByName(name) => name == ds.name || name == ds.inventoryPath
    case ByURL(url) => url == dsMo.url
    case ByReference(reference) => reference == ds.reference
  }

  /** The first datastore of the listing that satisfies the key, with its managed object. */
  function Lookup(inv: Inventory, key: Key): Option<(Datastore, ManagedDatastore)>
    decreases |inv.listing|
  {
    if inv.listing == [] then None
    else
      var ds := inv.listing[0];
      var dsMo := FirstNamed(inv.objects, ds.name);
      if dsMo.Some? && Satisfies(ds, dsMo.value, key) then Some((ds, dsMo.value))
      else Lookup(inv.(listing := inv.listing[1..]), key)
  }

  predicate NotListed(inv: Inventory, name: string) {
    (exists ds :: ds in inv.listing && ds.name == name) && forall dsMo :: dsMo in inv.objects ==> dsMo.name != name
  }

  /** The answer of a vCenter client without a cache. An empty datacenter, and one in which some datastore
      has no managed object of its name, answers no datastore lookup. */
  function Uncached(b: Backend, call: Call, f: Faults): Answer {
    match call
    case GetStoragePods => StoragePods(if f.view then [] else b.storagePods)
    case GetDatacenter(dcName) =>
      if f.finder || dcName !in b.datacenters then Failed(DatacenterFailed(dcName))
      else DatacenterFound(b.datacenters[dcName].dc)
    case _ =>
      if f.finder || call.dcName !in b.datacenters then Failed(DatacenterFailed(call.dcName))
      else
        var inv := b.datacenters[call.dcName];
        var r := Lookup(inv, KeyOf(call));
        if f.list || inv.listing == [] then Failed(ListFailed)
        else if f.retrieve then Failed(RetrieveFailed)
        else if Orphans(inv.listing, inv.objects) != [] then Failed(NoManagedObject(Orphans(inv.listing, inv.objects)))
        else match r
          case None => Failed(DatastoreNotFound)
          case Some((ds, dsMo)) => if call.GetDatastore? then DatastoreFound(ds) else MoFound(dsMo)
  }

  lemma {:induction false} FirstNamedInvariant(objects: seq<ManagedDatastore>, name: string)
    ensures FirstNamed(objects, name).None? <==> forall dsMo :: dsMo in objects ==> dsMo.name != name
    ensures FirstNamed(objects, name).Some? ==>
              FirstNamed(objects, name).value in objects && FirstNamed(objects, name).value.name == name
  {
    if objects != [] { FirstNamedInvariant(objects[1..], name); }
  }

  /** The names in the error are exactly those of the listed datastores without a managed object. */
  lemma {:induction false} OrphansAreUnmatched(inv: Inventory, name: string)
    ensures name in Orphans(inv.listing, inv.objects) <==> NotListed(inv, name)
    decreases |inv.listing|
  {
    if inv.listing != [] {
      var rest := inv.(listing := inv.listing[1..]);
      OrphansAreUnmatched(rest, name);
      FirstNamedInvariant(inv.objects, inv.listing[0].name);
      assert inv.listing == [inv.listing[0]] + rest.listing;
    }
  }

  lemma FirstCons(head: CachedDatastore, rest: seq<CachedDatastore>, key: Key)
    ensures First([head] + rest, key) == if Hits(head, key) then Some(head) else First(rest, key)
  {
    assert ([head] + rest)[1..] == rest;
  }

  lemma {:induction false} FirstIsLookup(inv: Inventory, key: Key)
    requires Orphans(inv.listing, inv.objects) == []
    ensures var cds, direct := First(Pairs(inv.listing, inv.objects), key), Lookup(inv, key);
            (cds.Some? <==> direct.Some?) && (cds.Some? ==> direct.value == (cds.value.ds, cds.value.dsMo))
    decreases |inv.listing|
  {
    if inv.listing != [] {
      var rest := inv.(listing := inv.listing[1..]);
      FirstIsLookup(rest, key);
      FirstCons(Pairs(inv.listing, inv.objects)[0], Pairs(rest.listing, rest.objects), key);
    }
  }

  // ---------------------------------------------------------------- runs

  datatype Event = Event(call: Call, faults: Faults)

  function Run(b: Backend, events: seq<Event>): (c: Contents)
    ensures forall d :: d in c.lists ==> d in b.datacenters
  {
    if events == [] then EMPTY
    else
      var last := events[|events| - 1];
      Step(b, Run(b, events[..|events| - 1]), last.call, last.faults).0
  }

  function AnswerAt(b: Backend, events: seq<Event>, i: nat): Answer
    requires i < |events|
  {
    Step(b, Run(b, events[..i]), events[i].call, events[i].faults).1
  }

  lemma {:induction false} RunIsFaithful(b: Backend, events: seq<Event>)
    ensures Faithful(b, Run(b, events))
  {
    if events != [] {
      var init, last := events[..|events| - 1], events[|events| - 1];
      RunIsFaithful(b, init);
      StepKeepsFaithful(b, Run(b, init), last.call, last.faults);
    }
  }

  // ---------------------------------------------------------------- refinement

  predicate AsksForDatastores(call: Call) {
    call.GetDatastore? || call.GetDatastoreMo?
  }

  predicate ListCached(c: Contents, dcName: string) {
    dcName in c.lists && c.lists[dcName] != []
  }

  /** The faults that can still be felt: what is cached is not asked for. */
  function Felt(c: Contents, call: Call, f: Faults): Faults {
    if call.GetStoragePods? then f.(view := f.view && c.pods == [])
    else f.(finder := f.finder && call.dcName !in c.lists,
            list := f.list && !ListCached(c, call.dcName),
            retrieve := f.retrieve && !ListCached(c, call.dcName))
  }

  lemma ListIsFetched(b: Backend, c: Contents, call: Call, f: Faults)
    requires Faithful(b, c) && AsksForDatastores(call)
    ensures var felt := Felt(c, call, f);
            EnsureDatastores(b, c, call.dcName, f).1
            == if felt.finder || call.dcName !in b.datacenters then Err(DatacenterFailed(call.dcName))
               else FetchDatastores(b.datacenters[call.dcName], felt)
  {
  }

  lemma DatastoreIsUncached(b: Backend, c: Contents, call: Call, f: Faults)
    requires Faithful(b, c) && AsksForDatastores(call)
    ensures Step(b, c, call, f).1 == Uncached(b, call, Felt(c, call, f))
  {
    ListIsFetched(b, c, call, f);
    var list := EnsureDatastores(b, c, call.dcName, f).1;
    assert Step(b, c, call, f).1
        == if list.Ok? then DatastoreAnswer(First(list.value, KeyOf(call)), call) else Failed(list.error);
    if list.Ok? { FirstIsLookup(b.datacenters[call.dcName], KeyOf(call)); }
  }

  lemma StepIsUncached(b: Backend, c: Contents, call: Call, f: Faults)
    requires Faithful(b, c)
    ensures Step(b, c, call, f).1 == Uncached(b, call, Felt(c, call, f))
  {
    if AsksForDatastores(call) { DatastoreIsUncached(b, c, call, f); }
  }

  /** In any run, with any faults, every answer is the uncached one under the faults that are still felt. */
  lemma CacheRefinesDirectLookup(b: Backend, events: seq<Event>, i: nat)
    requires i < |events|
    ensures AnswerAt(b, events, i)
         == Uncached(b, events[i].call, Felt(Run(b, events[..i]), events[i].call, events[i].faults))
  {
    RunIsFaithful(b, events[..i]);
    StepIsUncached(b, Run(b, events[..i]), events[i].call, events[i].faults);
  }

  /** A call without faults is answered from the vCenter's state, whatever failed before it. */
  lemma CalmCallsAreExact(b: Backend, events: seq<Event>, i: nat)
    requires i < |events| && events[i].faults == CALM
    ensures AnswerAt(b, events, i) == Uncached(b, events[i].call, CALM)
  {
    CacheRefinesDirectLookup(b, events, i);
  }

  // ---------------------------------------------------------------- what stays cached

  lemma StepKeepsList(b: Backend, c: Contents, call: Call, f: Faults, dcName: string)
    requires (forall d :: d in c.lists ==> d in b.datacenters) && ListCached(c, dcName)
    ensures dcName in Step(b, c, call, f).0.lists && Step(b, c, call, f).0.lists[dcName] == c.lists[dcName]
  {
  }

  lemma {:induction false} CachedStays(b: Backend, before: seq<Event>, after: seq<Event>, dcName: string)
    requires ListCached(Run(b, before), dcName)
    ensures dcName in Run(b, before + after).lists
    ensures Run(b, before + after).lists[dcName] == Run(b, before).lists[dcName]
  {
    if after == [] {
      assert before + after == before;
    } else {
      var init, last := after[..|after| - 1], after[|after| - 1];
      assert (before + after)[..|before + after| - 1] == before + init;
      CachedStays(b, before, init, dcName);
      StepKeepsList(b, Run(b, before + init), last.call, last.faults, dcName);
    }
  }

  lemma SuccessLeavesListCached(b: Backend, c: Contents, call: Call, f: Faults)
    requires Faithful(b, c) && AsksForDatastores(call)
    requires !Step(b, c, call, f).1.Failed?
    ensures ListCached(Step(b, c, call, f).0, call.dcName)
  {
  }

  lemma SuccessIsRemembered(b: Backend, events: seq<Event>, i: nat, j: nat)
    requires i < j <= |events|
    requires AsksForDatastores(events[i].call) && !AnswerAt(b, events, i).Failed?
    ensures ListCached(Run(b, events[..j]), events[i].call.dcName)
  {
    var before := events[..i + 1];
    assert before[..i] == events[..i];
    RunIsFaithful(b, events[..i]);
    SuccessLeavesListCached(b, Run(b, events[..i]), events[i].call, events[i].faults);
    assert Run(b, before) == Step(b, Run(b, before[..i]), before[i].call, before[i].faults).0;
    assert events[..j] == before + events[i + 1..j];
    CachedStays(b, before, events[i + 1..j], events[i].call.dcName);
  }

  lemma FeltNothing(c: Contents, call: Call, f: Faults, b: Backend)
    requires AsksForDatastores(call) && ListCached(c, call.dcName)
    ensures Uncached(b, call, Felt(c, call, f)) == Uncached(b, call, CALM)
  {
  }

  /** Once some datastore of a datacenter was found, no fault is felt by later lookups there. */
  lemma FoundOnceMeansNeverUnreachable(b: Backend, events: seq<Event>, i: nat, j: nat)
    requires i < j < |events|
    requires AsksForDatastores(events[i].call) && !AnswerAt(b, events, i).Failed?
    requires AsksForDatastores(events[j].call) && events[j].call.dcName == events[i].call.dcName
    ensures AnswerAt(b, events, j) == Uncached(b, events[j].call, CALM)
  {
    SuccessIsRemembered(b, events, i, j);
    FeltNothing(Run(b, events[..j]), events[j].call, events[j].faults, b);
    CacheRefinesDirectLookup(b, events, j);
  }

  lemma FailedLookupKeeps(b: Backend, c: Contents, dcName: string, f: Faults)
    requires (forall d :: d in c.lists ==> d in b.datacenters) && EnsureDatacenter(b, c, dcName, f).1.Err?
    ensures EnsureDatacenter(b, c, dcName, f).0 == c
  {
  }

  lemma FailedEnsureKeeps(b: Backend, c: Contents, dcName: string, f: Faults)
    requires (forall d :: d in c.lists ==> d in b.datacenters) && EnsureDatastores(b, c, dcName, f).1.Err?
    ensures forall d :: ListCached(EnsureDatastores(b, c, dcName, f).0, d) <==> ListCached(c, d)
    ensures EnsureDatastores(b, c, dcName, f).0.loads == c.loads
  {
  }

  /** A load that fails, in part or altogether, leaves every list as it was. */
  lemma FailedLoadCachesNothing(b: Backend, c: Contents, call: Call, f: Faults)
    requires Faithful(b, c)
    requires Step(b, c, call, f).1.Failed? && Step(b, c, call, f).1.error != DatastoreNotFound
    ensures forall d :: ListCached(Step(b, c, call, f).0, d) <==> ListCached(c, d)
    ensures Step(b, c, call, f).0.loads == c.loads
  {
    if call.GetDatacenter? {
      FailedLookupKeeps(b, c, call.dcName, f);
    } else if !call.GetStoragePods? {
      FailedEnsureKeeps(b, c, call.dcName, f);
    }
  }

  /** Under each name it is asked for by, a datacenter is loaded at most once, and exactly when its list
      is cached. */
  lemma LoadedAtMostOnce(b: Backend, events: seq<Event>, dcName: string)
    ensures Run(b, events).loads[dcName] == if ListCached(Run(b, events), dcName) then 1 else 0
  {
    RunIsFaithful(b, events);
  }

  predicate Answers(b: Backend, dcName: string) {
    && dcName in b.datacenters && b.datacenters[dcName].listing != []
    && Orphans(b.datacenters[dcName].listing, b.datacenters[dcName].objects) == []
  }

  /** A datacenter that is empty or has an unmatched datastore is never loaded: every datastore lookup
      there fails in every run, and never with "not found". */
  lemma UnanswerableIsNeverLoaded(b: Backend, events: seq<Event>, i: nat)
    requires i < |events| && AsksForDatastores(events[i].call) && !Answers(b, events[i].call.dcName)
    ensures AnswerAt(b, events, i).Failed? && AnswerAt(b, events, i).error != DatastoreNotFound
    ensures Run(b, events).loads[events[i].call.dcName] == 0
  {
    var dcName := events[i].call.dcName;
    CacheRefinesDirectLookup(b, events, i);
    RunIsFaithful(b, events);
    if dcName in b.datacenters { NothingPairedInEmpty(b.datacenters[dcName]); }
  }

  lemma NothingPairedInEmpty(inv: Inventory)
    ensures inv.listing == [] ==> Pairs(inv.listing, inv.objects) == []
  {
  }

  /** Every cached entry pairs a listed datastore, in listing order, with an object of its name. */
  lemma CachedPairsAgree(b: Backend, events: seq<Event>, dcName: string, k: nat)
    requires ListCached(Run(b, events), dcName)
    requires k < |Run(b, events).lists[dcName]|
    ensures |Run(b, events).lists[dcName]| == |b.datacenters[dcName].listing|
    ensures var cds := Run(b, events).lists[dcName][k];
            && cds.ds == b.datacenters[dcName].listing[k]
            && cds.dsPath == cds.ds.inventoryPath
            && cds.dsMo.name == cds.ds.name
            && cds.dsMo in b.datacenters[dcName].objects
  {
    RunIsFaithful(b, events);
    var inv := b.datacenters[dcName];
    EveryDatastorePaired(inv.listing, inv.objects);
    FirstNamedInvariant(inv.objects, inv.listing[k].name);
  }

  // ---------------------------------------------------------------- what the lookups have in common

  lemma {:induction false} LookupFindsFirst(inv: Inventory, key: Key)
    ensures Lookup(inv, key).Some? ==>
              var (ds, dsMo) := Lookup(inv, key).value;
              ds in inv.listing && dsMo in inv.objects && dsMo.name == ds.name && Satisfies(ds, dsMo, key)
    decreases |inv.listing|
  {
    if inv.listing != [] {
      FirstNamedInvariant(inv.objects, inv.listing[0].name);
      LookupFindsFirst(inv.(listing := inv.listing[1..]), key);
    }
  }

  /** In any run, looking a name up as an object and as a managed object finds the same datastore. */
  lemma ObjectAndMoAgree(b: Backend, events: seq<Event>, i: nat, j: nat)
    requires i < |events| && j < |events|
    requires events[i].call.GetDatastore? && AnswerAt(b, events, i).DatastoreFound?
    requires events[j].call == GetDatastoreMo(events[i].call.dcName, ByName(events[i].call.name))
    requires !AnswerAt(b, events, j).Failed?
    ensures AnswerAt(b, events, j).MoFound? && AnswerAt(b, events, j).dsMo.name == AnswerAt(b, events, i).ds.name
  {
    CacheRefinesDirectLookup(b, events, i);
    CacheRefinesDirectLookup(b, events, j);
    LookupFindsFirst(b.datacenters[events[i].call.dcName], ByName(events[i].call.name));
  }

  /** A datastore found by URL carries that URL, so the second comparison of its caller never fails. */
  lemma FoundByURLHasURL(b: Backend, events: seq<Event>, i: nat, dcName: string, url: string)
    requires i < |events| && events[i].call == GetDatastoreMo(dcName, ByURL(url))
    requires AnswerAt(b, events, i).MoFound?
    ensures AnswerAt(b, events, i).dsMo.url == url
  {
    CacheRefinesDirectLookup(b, events, i);
    LookupFindsFirst(b.datacenters[dcName], ByURL(url));
  }

  // ---------------------------------------------------------------- what is looked for, over the listing

  /** Object `m` is the first one with the name of datastore `k`. */
  ghost predicate PairedAt(inv: Inventory, k: nat, m: nat)
    requires k < |inv.listing|
  {
    && m < |inv.objects| && inv.objects[m].name == inv.listing[k].name
    && forall j :: 0 <= j < m ==> inv.objects[j].name != inv.listing[k].name
  }

  /** The objects of all datastores of a listing, by their places. */
  ghost predicate Pairing(inv: Inventory, at: seq<nat>) {
    |at| == |inv.listing| && forall k :: 0 <= k < |at| ==> PairedAt(inv, k, at[k])
  }

  /** A datacenter whose datastores all have managed objects has a pairing. */
  lemma PairingExists(inv: Inventory) returns (at: seq<nat>)
    requires forall ds :: ds in inv.listing ==> exists dsMo :: dsMo in inv.objects && dsMo.name == ds.name
    ensures Pairing(inv, at)
  {
    at := [];
    while |at| < |inv.listing|
      invariant |at| <= |inv.listing| && forall k :: 0 <= k < |at| ==> PairedAt(inv, k, at[k])
    {
      var k := |at|;
      assert inv.listing[k] in inv.listing;
      var m: nat :| m < |inv.objects| && inv.objects[m].name == inv.listing[k].name;
      var first := FirstObject(inv, k, m);
      at := at + [first];
    }
  }

  lemma {:induction false} FirstObject(inv: Inventory, k: nat, m: nat) returns (first: nat)
    requires k < |inv.listing| && m < |inv.objects| && inv.objects[m].name == inv.listing[k].name
    ensures PairedAt(inv, k, first)
  {
    if j: nat :| j < m && inv.objects[j].name == inv.listing[k].name {
      first := FirstObject(inv, k, j);
    } else {
      first := m;
    }
  }

  lemma {:induction false} FirstNamedAt(objects: seq<ManagedDatastore>, name: string, m: nat)
    requires m < |objects| && objects[m].name == name && forall j :: 0 <= j < m ==> objects[j].name != name
    ensures FirstNamed(objects, name) == Some(objects[m])
  {
    if m > 0 { FirstNamedAt(objects[1..], name, m - 1); }
  }

  lemma PairingOfRest(inv: Inventory, at: seq<nat>)
    requires Pairing(inv, at) && at != []
    ensures Pairing(inv.(listing := inv.listing[1..]), at[1..])
  {
    var rest := inv.(listing := inv.listing[1..]);
    forall k: nat | k < |at[1..]| ensures PairedAt(rest, k, at[1..][k]) { assert PairedAt(inv, k + 1, at[k + 1]); }
  }

  lemma {:induction false} LookupAt(inv: Inventory, key: Key, at: seq<nat>, k: nat)
    requires Pairing(inv, at) && k < |at| && Satisfies(inv.listing[k], inv.objects[at[k]], key)
    requires forall j :: 0 <= j < k ==> !Satisfies(inv.listing[j], inv.objects[at[j]], key)
    ensures Lookup(inv, key) == Some((inv.listing[k], inv.objects[at[k]]))
    decreases k
  {
    assert PairedAt(inv, 0, at[0]);
    FirstNamedAt(inv.objects, inv.listing[0].name, at[0]);
    if k > 0 {
      PairingOfRest(inv, at);
      LookupAt(inv.(listing := inv.listing[1..]), key, at[1..], k - 1);
    }
  }

  lemma {:induction false} LookupNothing(inv: Inventory, key: Key, at: seq<nat>)
    requires Pairing(inv, at)
    requires forall j :: 0 <= j < |at| ==> !Satisfies(inv.listing[j], inv.objects[at[j]], key)
    ensures Lookup(inv, key) == None
    decreases |at|
  {
    if at != [] {
      assert PairedAt(inv, 0, at[0]);
      FirstNamedAt(inv.objects, inv.listing[0].name, at[0]);
      PairingOfRest(inv, at);
      LookupNothing(inv.(listing := inv.listing[1..]), key, at[1..]);
    }
  }

  lemma PairingLeavesNoOrphan(inv: Inventory, at: seq<nat>)
    requires Pairing(inv, at)
    ensures Orphans(inv.listing, inv.objects) == []
  {
    forall ds | ds in inv.listing ensures exists dsMo :: dsMo in inv.objects && dsMo.name == ds.name {
      var k: nat :| k < |inv.listing| && inv.listing[k] == ds;
      assert PairedAt(inv, k, at[k]) && inv.objects[at[k]] in inv.objects;
    }
    NoOrphans(inv);
  }

  lemma NoOrphans(inv: Inventory)
    requires forall ds :: ds in inv.listing ==> exists dsMo :: dsMo in inv.objects && dsMo.name == ds.name
    ensures Orphans(inv.listing, inv.objects) == []
  {
    var orphans := Orphans(inv.listing, inv.objects);
    assert orphans == [] || orphans[0] in orphans;
    forall name ensures name !in orphans { OrphansAreUnmatched(inv, name); }
  }

  /** A call without faults, in any run, on a datacenter that is not empty and fully paired. */
  ghost predicate CalmCallAt(b: Backend, events: seq<Event>, i: nat, call: Call, inv: Inventory, at: seq<nat>) {
    && i < |events| && events[i] == Event(call, Faults(false, false, false, false)) && AsksForDatastores(call)
    && call.dcName in b.datacenters && inv == b.datacenters[call.dcName] && inv.listing != [] && Pairing(inv, at)
  }

  lemma CalmAnswer(b: Backend, events: seq<Event>, i: nat, call: Call, inv: Inventory, at: seq<nat>)
    requires CalmCallAt(b, events, i, call, inv, at)
    ensures AnswerAt(b, events, i) == match Lookup(inv, KeyOf(call))
      case None => Failed(DatastoreNotFound)
      case Some((ds, dsMo)) => if call.GetDatastore? then DatastoreFound(ds) else MoFound(dsMo)
  {
    CalmCallsAreExact(b, events, i);
    PairingLeavesNoOrphan(inv, at);
  }

  /** By reference: the object of the first listed datastore with it, "not found" if none has it. */
  lemma CalmReferenceLookup(b: Backend, events: seq<Event>, i: nat, dcName: string, reference: string, inv: Inventory,
                            at: seq<nat>)
    requires CalmCallAt(b, events, i, GetDatastoreMo(dcName, ByReference(reference)), inv, at)
    ensures forall k :: 0 <= k < |at| && inv.listing[k].reference == reference
                        && (forall j :: 0 <= j < k ==> inv.listing[j].reference != reference) ==>
      AnswerAt(b, events, i) == MoFound(inv.objects[at[k]])
    ensures AnswerAt(b, events, i) == Failed(DatastoreNotFound) <==>
      forall ds :: ds in inv.listing ==> ds.reference != reference
  {
    var call := GetDatastoreMo(dcName, ByReference(reference));
    CalmAnswer(b, events, i, call, inv, at);
    forall k | 0 <= k < |at| && inv.listing[k].reference == reference
               && (forall j :: 0 <= j < k ==> inv.listing[j].reference != reference)
      ensures AnswerAt(b, events, i) == MoFound(inv.objects[at[k]])
    {
      LookupAt(inv, ByReference(reference), at, k);
    }
    if forall ds :: ds in inv.listing ==> ds.reference != reference {
      LookupNothing(inv, ByReference(reference), at);
    } else {
      var k: nat :| k < |inv.listing| && inv.listing[k].reference == reference;
      var first := FirstReference(inv.listing, reference, k);
      LookupAt(inv, ByReference(reference), at, first);
    }
  }

  lemma {:induction false} FirstReference(listing: seq<Datastore>, reference: string, k: nat) returns (first: nat)
    requires k < |listing| && listing[k].reference == reference
    ensures first < |listing| && listing[first].reference == reference
    ensures forall j :: 0 <= j < first ==> listing[j].reference != reference
  {
    if j: nat :| j < k && listing[j].reference == reference {
      first := FirstReference(listing, reference, j);
    } else {
      first := k;
    }
  }

  /** By URL: the first listed datastore whose object has it. */
  lemma CalmURLLookup(b: Backend, events: seq<Event>, i: nat, dcName: string, url: string, inv: Inventory, at: seq<nat>)
    requires CalmCallAt(b, events, i, GetDatastoreMo(dcName, ByURL(url)), inv, at)
    ensures forall k :: 0 <= k < |at| && inv.objects[at[k]].url == url
                        && (forall j :: 0 <= j < k ==> inv.objects[at[j]].url != url) ==>
      AnswerAt(b, events, i) == MoFound(inv.objects[at[k]])
    ensures (forall k :: 0 <= k < |at| ==> inv.objects[at[k]].url != url) ==>
      AnswerAt(b, events, i) == Failed(DatastoreNotFound)
  {
    CalmAnswer(b, events, i, GetDatastoreMo(dcName, ByURL(url)), inv, at);
    forall k | 0 <= k < |at| && inv.objects[at[k]].url == url
               && (forall j :: 0 <= j < k ==> inv.objects[at[j]].url != url)
      ensures AnswerAt(b, events, i) == MoFound(inv.objects[at[k]])
    {
      LookupAt(inv, ByURL(url), at, k);
    }
    if forall k :: 0 <= k < |at| ==> inv.objects[at[k]].url != url { LookupNothing(inv, ByURL(url), at); }
  }

  /** By name or inventory path: the first listed datastore with either. */
  lemma CalmNameLookup(b: Backend, events: seq<Event>, i: nat, dcName: string, name: string, inv: Inventory,
                       at: seq<nat>, asObject: bool)
    requires var call := if asObject then GetDatastore(dcName, name) else GetDatastoreMo(dcName, ByName(name));
      CalmCallAt(b, events, i, call, inv, at)
    ensures forall k :: 0 <= k < |at| && name in {inv.listing[k].name, inv.listing[k].inventoryPath}
                        && (forall j :: 0 <= j < k ==> name !in {inv.listing[j].name, inv.listing[j].inventoryPath}) ==>
      AnswerAt(b, events, i) == if asObject then DatastoreFound(inv.listing[k]) else MoFound(inv.objects[at[k]])
    ensures (forall ds :: ds in inv.listing ==> name !in {ds.name, ds.inventoryPath}) ==>
      AnswerAt(b, events, i) == Failed(DatastoreNotFound)
  {
    var call := if asObject then GetDatastore(dcName, name) else GetDatastoreMo(dcName, ByName(name));
    CalmAnswer(b, events, i, call, inv, at);
    forall k | 0 <= k < |at| && name in {inv.listing[k].name, inv.listing[k].inventoryPath}
               && (forall j :: 0 <= j < k ==> name !in {inv.listing[j].name, inv.listing[j].inventoryPath})
      ensures AnswerAt(b, events, i) == if asObject then DatastoreFound(inv.listing[k]) else MoFound(inv.objects[at[k]])
    {
      LookupAt(inv, ByName(name), at, k);
    }
    if forall ds :: ds in inv.listing ==> name !in {ds.name, ds.inventoryPath} {
      forall j | 0 <= j < |at| ensures !Satisfies(inv.listing[j], inv.objects[at[j]], ByName(name)) {
        assert inv.listing[j] in inv.listing;
      }
      LookupNothing(inv, ByName(name), at);
    }
  }

  /** Every other call without faults. */
  lemma CalmOtherAnswers(b: Backend, events: seq<Event>, i: nat)
    requires i < |events| && events[i].faults == Faults(false, false, false, false)
    ensures var call, r := events[i].call, AnswerAt(b, events, i);
      && (call == GetStoragePods ==> r == StoragePods(b.storagePods))
      && (call != GetStoragePods && call.dcName !in b.datacenters ==> r == Failed(DatacenterFailed(call.dcName)))
      && (call.GetDatacenter? && call.dcName in b.datacenters ==> r == DatacenterFound(b.datacenters[call.dcName].dc))
      && (AsksForDatastores(call) && call.dcName in b.datacenters ==>
            var inv := b.datacenters[call.dcName];
            && (inv.listing == [] ==> r == Failed(ListFailed))
            && ((exists name :: NotListed(inv, name)) ==>
                  && r.Failed? && r.error.NoManagedObject?
                  && forall name :: name in r.error.names <==> NotListed(inv, name)))
  {
    CalmCallsAreExact(b, events, i);
    if AsksForDatastores(events[i].call) && events[i].call.dcName in b.datacenters {
      var inv := b.datacenters[events[i].call.dcName];
      forall name ensures name in Orphans(inv.listing, inv.objects) <==> NotListed(inv, name) {
        OrphansAreUnmatched(inv, name);
      }
    }
  }
}
