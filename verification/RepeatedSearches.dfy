/** Successive searches by URL on the same caches (getDatastoreByURL in pkg/check/util.go on pkg/cache/cache.go):
    what a search that met faults leaves for the next one. */
module RepeatedSearches {
  import opened Options
  import opened Cache
  import opened CacheTheorems
  import opened Platform
  import opened DatastoreSearch

  /** The cache of every connected vCenter. */
  type Caches = map<string, Contents>

  ghost predicate CachesOk(vcenters: map<string, Backend>, caches: Caches) {
    forall v :: v in vcenters ==> v in caches && Faithful(vcenters[v], caches[v])
  }

  function AskFor(fd: FailureDomain, url: string): Call {
    GetDatastoreMo(fd.topology.datacenter, ByURL(url))
  }

  /** What a search makes of a domain: None is going on. */
  function Verdict(vcenters: map<string, Backend>, fd: FailureDomain, answer: Answer): Option<Search> {
    if fd.server !in vcenters then Some(UnknownVCenter(fd.server))
    else if answer.MoFound? then Some(Found(answer.dsMo, fd.topology.datacenter, fd.server))
    else if answer.Failed? && answer.error != DatastoreNotFound then Some(LookupFailed(answer.error))
    else None
  }

  ghost function AnswerOf(vcenters: map<string, Backend>, caches: Caches, fd: FailureDomain, url: string,
                          f: Faults): Answer
    requires CachesOk(vcenters, caches)
  {
    if fd.server !in vcenters then Failed(DatastoreNotFound)
    else Step(vcenters[fd.server], caches[fd.server], AskFor(fd, url), f).1
  }

  ghost function CachesAfter(vcenters: map<string, Backend>, caches: Caches, fd: FailureDomain, url: string,
                             f: Faults): Caches
    requires CachesOk(vcenters, caches)
  {
    if fd.server !in vcenters then caches
    else caches[fd.server := Step(vcenters[fd.server], caches[fd.server], AskFor(fd, url), f).0]
  }

  lemma AskKeepsOk(vcenters: map<string, Backend>, caches: Caches, fd: FailureDomain, url: string, f: Faults)
    requires CachesOk(vcenters, caches)
    ensures CachesOk(vcenters, CachesAfter(vcenters, caches, fd, url, f))
  {
    if fd.server in vcenters { StepKeepsFaithful(vcenters[fd.server], caches[fd.server], AskFor(fd, url), f); }
  }

  /** The search from domain `k` on; `faults` are those that the calls meet. */
  ghost function SearchFrom(vcenters: map<string, Backend>, caches: Caches, fds: seq<FailureDomain>, url: string,
                            faults: seq<Faults>, k: nat): (r: (Search, Caches))
    requires CachesOk(vcenters, caches) && |faults| == |fds| && k <= |fds|
    decreases |fds| - k
  {
    if k == |fds| then (NoDatastore, caches)
    else
      var verdict := Verdict(vcenters, fds[k], AnswerOf(vcenters, caches, fds[k], url, faults[k]));
      var next := CachesAfter(vcenters, caches, fds[k], url, faults[k]);
      AskKeepsOk(vcenters, caches, fds[k], url, faults[k]);
      if verdict.Some? then (verdict.value, next) else SearchFrom(vcenters, next, fds, url, faults, k + 1)
  }

  /** The same without caches and without faults. */
  function CalmSearch(vcenters: map<string, Backend>, fds: seq<FailureDomain>, url: string, k: nat): Search
    requires k <= |fds|
    decreases |fds| - k
  {
    if k == |fds| then NoDatastore
    else if Passed(vcenters, fds[k], url, CALM) then CalmSearch(vcenters, fds, url, k + 1)
    else Decided(vcenters, fds[k], url, CALM)
  }

  /** A search that ended with a datastore or with "unable to find". */
  predicate Succeeded(r: Search) {
    r.Found? || r.NoDatastore?
  }

  // ---------------------------------------------------------------- one domain

  /** The answer of a domain does not depend on faults any more. */
  ghost predicate Settled(vcenters: map<string, Backend>, caches: Caches, fd: FailureDomain) {
    fd.server in vcenters && fd.server in caches && ListCached(caches[fd.server], fd.topology.datacenter)
  }

  predicate Answered(a: Answer) {
    a.MoFound? || a == Failed(DatastoreNotFound)
  }

  /** An answer that is no failure to answer is that of the vCenter, and its list is cached. */
  lemma AnsweredIsCalm(b: Backend, c: Contents, dcName: string, url: string, f: Faults)
    requires Faithful(b, c) && Answered(Step(b, c, GetDatastoreMo(dcName, ByURL(url)), f).1)
    ensures Step(b, c, GetDatastoreMo(dcName, ByURL(url)), f).1 == Uncached(b, GetDatastoreMo(dcName, ByURL(url)), CALM)
    ensures ListCached(Step(b, c, GetDatastoreMo(dcName, ByURL(url)), f).0, dcName)
  {
    var call := GetDatastoreMo(dcName, ByURL(url));
    StepIsUncached(b, c, call, f);
    AnsweredIsFetched(b, c, dcName, f);
  }

  /** A list that could be got is not empty and is cached. */
  lemma AnsweredIsFetched(b: Backend, c: Contents, dcName: string, f: Faults)
    requires Faithful(b, c)
    ensures EnsureDatastores(b, c, dcName, f).1.Ok? ==> ListCached(EnsureDatastores(b, c, dcName, f).0, dcName)
  {
    if dcName in b.datacenters { EveryPaired(b.datacenters[dcName]); }
  }

  lemma EveryPaired(inv: Inventory)
    ensures inv.listing != [] && Orphans(inv.listing, inv.objects) == [] ==> Pairs(inv.listing, inv.objects) != []
  {
  }

  lemma SettledIsCalm(b: Backend, c: Contents, dcName: string, url: string, f: Faults)
    requires Faithful(b, c) && ListCached(c, dcName)
    ensures Step(b, c, GetDatastoreMo(dcName, ByURL(url)), f).1 == Uncached(b, GetDatastoreMo(dcName, ByURL(url)), CALM)
    ensures Answered(Step(b, c, GetDatastoreMo(dcName, ByURL(url)), f).1)
  {
    var call := GetDatastoreMo(dcName, ByURL(url));
    StepIsUncached(b, c, call, f);
    FeltNothing(c, call, f, b);
  }

  /** A domain that answers, or whose list is cached, is what it is without faults, and stays so. */
  lemma DomainIsCalm(vcenters: map<string, Backend>, caches: Caches, fd: FailureDomain, url: string, f: Faults)
    requires CachesOk(vcenters, caches) && fd.server in vcenters
    requires Settled(vcenters, caches, fd) || Answered(AnswerOf(vcenters, caches, fd, url, f))
    ensures Settled(vcenters, CachesAfter(vcenters, caches, fd, url, f), fd)
    ensures Verdict(vcenters, fd, AnswerOf(vcenters, caches, fd, url, f))
         == if Passed(vcenters, fd, url, CALM) then None else Some(Decided(vcenters, fd, url, CALM))
  {
    var b, c, dcName := vcenters[fd.server], caches[fd.server], fd.topology.datacenter;
    if Settled(vcenters, caches, fd) { SettledIsCalm(b, c, dcName, url, f); }
    AnsweredIsCalm(b, c, dcName, url, f);
  }

  lemma SettledStays(vcenters: map<string, Backend>, caches: Caches, fd: FailureDomain, asked: FailureDomain,
                     url: string,
                     f: Faults)
    requires CachesOk(vcenters, caches) && Settled(vcenters, caches, fd)
    ensures Settled(vcenters, CachesAfter(vcenters, caches, asked, url, f), fd)
  {
    if asked.server == fd.server {
      StepKeepsList(vcenters[fd.server], caches[fd.server], AskFor(asked, url), f, fd.topology.datacenter);
    }
  }

  // ---------------------------------------------------------------- a search

  lemma {:induction false} SearchKeeps(vcenters: map<string, Backend>, caches: Caches, fds: seq<FailureDomain>,
                                       url: string,
                                       faults: seq<Faults>, k: nat, fd: FailureDomain)
    requires CachesOk(vcenters, caches) && |faults| == |fds| && k <= |fds|
    ensures CachesOk(vcenters, SearchFrom(vcenters, caches, fds, url, faults, k).1)
    ensures Settled(vcenters, caches, fd) ==>
      Settled(vcenters, SearchFrom(vcenters, caches, fds, url, faults, k).1, fd)
    decreases |fds| - k
  {
    if k < |fds| {
      AskKeepsOk(vcenters, caches, fds[k], url, faults[k]);
      if Settled(vcenters, caches, fd) { SettledStays(vcenters, caches, fd, fds[k], url, faults[k]); }
      SearchKeeps(vcenters, CachesAfter(vcenters, caches, fds[k], url, faults[k]), fds, url, faults, k + 1, fd);
    }
  }

  /** Where the search without faults ends. */
  function CalmStop(vcenters: map<string, Backend>, fds: seq<FailureDomain>, url: string, k: nat): (stop: nat)
    requires k <= |fds|
    ensures k <= stop <= |fds|
    ensures stop < |fds| ==> !Passed(vcenters, fds[stop], url, CALM)
                             && CalmSearch(vcenters, fds, url, k) == Decided(vcenters, fds[stop], url, CALM)
    ensures stop == |fds| ==> CalmSearch(vcenters, fds, url, k) == NoDatastore
    ensures forall j :: k <= j < stop ==> Passed(vcenters, fds[j], url, CALM)
    decreases |fds| - k
  {
    if k < |fds| && Passed(vcenters, fds[k], url, CALM) then CalmStop(vcenters, fds, url, k + 1) else k
  }

  /** The lists of all domains from `k` to where the search ends are cached. */
  ghost predicate SettledUpTo(vcenters: map<string, Backend>, caches: Caches, fds: seq<FailureDomain>, k: nat,
                              stop: nat)
  {
    forall j :: k <= j <= stop && j < |fds| ==> Settled(vcenters, caches, fds[j])
  }

  /** A domain that does not fail the search answers. */
  lemma SuccessAnswers(vcenters: map<string, Backend>, caches: Caches, fd: FailureDomain, url: string, f: Faults)
    requires CachesOk(vcenters, caches)
    requires var verdict := Verdict(vcenters, fd, AnswerOf(vcenters, caches, fd, url, f));
      verdict.None? || Succeeded(verdict.value)
    ensures fd.server in vcenters && Answered(AnswerOf(vcenters, caches, fd, url, f))
  {
  }

  /** The first domain of a search that succeeds: its verdict is the one without faults, and its list is cached. */
  lemma SuccessfulDomain(vcenters: map<string, Backend>, caches: Caches, fds: seq<FailureDomain>, url: string,
                         faults: seq<Faults>, k: nat) returns (verdict: Option<Search>, next: Caches)
    requires CachesOk(vcenters, caches) && |faults| == |fds| && k < |fds|
    requires Succeeded(SearchFrom(vcenters, caches, fds, url, faults, k).0)
    ensures CachesOk(vcenters, next) && Settled(vcenters, next, fds[k])
    ensures SearchFrom(vcenters, caches, fds, url, faults, k)
         == if verdict.Some? then (verdict.value, next) else SearchFrom(vcenters, next, fds, url, faults, k + 1)
    ensures verdict.None? ==> CalmSearch(vcenters, fds, url, k) == CalmSearch(vcenters, fds, url, k + 1)
    ensures verdict.Some? ==>
      SearchFrom(vcenters, caches, fds, url, faults, k).0 == CalmSearch(vcenters, fds, url, k)
    ensures CalmStop(vcenters, fds, url, k) == if verdict.Some? then k else CalmStop(vcenters, fds, url, k + 1)
  {
    verdict := Verdict(vcenters, fds[k], AnswerOf(vcenters, caches, fds[k], url, faults[k]));
    next := CachesAfter(vcenters, caches, fds[k], url, faults[k]);
    AskKeepsOk(vcenters, caches, fds[k], url, faults[k]);
    SuccessAnswers(vcenters, caches, fds[k], url, faults[k]);
    DomainIsCalm(vcenters, caches, fds[k], url, faults[k]);
  }

  lemma AllPassed(vcenters: map<string, Backend>, caches: Caches, fds: seq<FailureDomain>, url: string,
                  faults: seq<Faults>, k: nat, r: Search)
    requires CachesOk(vcenters, caches) && |faults| == |fds| == k
    requires r == SearchFrom(vcenters, caches, fds, url, faults, k).0
    ensures r == CalmSearch(vcenters, fds, url, k)
  {
  }

  lemma {:induction false} SuccessAgrees(vcenters: map<string, Backend>, caches: Caches, fds: seq<FailureDomain>,
                                         url: string, faults: seq<Faults>, k: nat, r: Search)
    requires CachesOk(vcenters, caches) && |faults| == |fds| && k < |fds|
    requires Succeeded(r) && r == SearchFrom(vcenters, caches, fds, url, faults, k).0
    ensures r == CalmSearch(vcenters, fds, url, k)
    decreases |fds| - k
  {
    var verdict, next := SuccessfulDomain(vcenters, caches, fds, url, faults, k);
    if verdict.None? {
      if k + 1 == |fds| {
        AllPassed(vcenters, next, fds, url, faults, k + 1, r);
      } else {
        SuccessAgrees(vcenters, next, fds, url, faults, k + 1, r);
      }
    }
  }

  lemma {:induction false} SuccessSettles(vcenters: map<string, Backend>, caches: Caches, fds: seq<FailureDomain>,
                                          url: string, faults: seq<Faults>, k: nat, j: nat)
    requires CachesOk(vcenters, caches) && |faults| == |fds| && k <= |fds|
    requires Succeeded(SearchFrom(vcenters, caches, fds, url, faults, k).0)
    requires k <= j <= CalmStop(vcenters, fds, url, k) && j < |fds|
    ensures Settled(vcenters, SearchFrom(vcenters, caches, fds, url, faults, k).1, fds[j])
    decreases |fds| - k
  {
    var verdict, next := SuccessfulDomain(vcenters, caches, fds, url, faults, k);
    if verdict.None? {
      if j == k {
        SearchKeeps(vcenters, next, fds, url, faults, k + 1, fds[k]);
      } else {
        SuccessSettles(vcenters, next, fds, url, faults, k + 1, j);
      }
    }
  }

  /** A search that succeeds has found what there is, whatever faults it met, and has cached all it looked at. */
  lemma SuccessIsCalm(vcenters: map<string, Backend>, caches: Caches, fds: seq<FailureDomain>, url: string,
                      faults: seq<Faults>)
    requires CachesOk(vcenters, caches) && |faults| == |fds|
    requires Succeeded(SearchFrom(vcenters, caches, fds, url, faults, 0).0)
    ensures SearchFrom(vcenters, caches, fds, url, faults, 0).0 == CalmSearch(vcenters, fds, url, 0)
    ensures var after := SearchFrom(vcenters, caches, fds, url, faults, 0).1;
      SettledUpTo(vcenters, after, fds, 0, CalmStop(vcenters, fds, url, 0))
  {
    var r := SearchFrom(vcenters, caches, fds, url, faults, 0).0;
    if |fds| == 0 {
      AllPassed(vcenters, caches, fds, url, faults, 0, r);
    } else {
      SuccessAgrees(vcenters, caches, fds, url, faults, 0, r);
    }
    var after := SearchFrom(vcenters, caches, fds, url, faults, 0).1;
    forall j: nat | j <= CalmStop(vcenters, fds, url, 0) && j < |fds| ensures Settled(vcenters, after, fds[j]) {
      SuccessSettles(vcenters, caches, fds, url, faults, 0, j);
    }
  }

  /** Where the lists are cached, a search ends as one without faults. */
  lemma {:induction false} SettledSearchIsCalm(vcenters: map<string, Backend>, caches: Caches, fds: seq<FailureDomain>,
                                               url: string, faults: seq<Faults>, k: nat)
    requires CachesOk(vcenters, caches) && |faults| == |fds| && k <= |fds|
    requires SettledUpTo(vcenters, caches, fds, k, CalmStop(vcenters, fds, url, k))
    ensures SearchFrom(vcenters, caches, fds, url, faults, k).0 == CalmSearch(vcenters, fds, url, k)
    decreases |fds| - k
  {
    if k < |fds| {
      var next := CachesAfter(vcenters, caches, fds[k], url, faults[k]);
      AskKeepsOk(vcenters, caches, fds[k], url, faults[k]);
      DomainIsCalm(vcenters, caches, fds[k], url, faults[k]);
      if Passed(vcenters, fds[k], url, CALM) {
        var stop := CalmStop(vcenters, fds, url, k + 1);
        forall j | k + 1 <= j <= stop && j < |fds| ensures Settled(vcenters, next, fds[j]) {
          SettledStays(vcenters, caches, fds[j], fds[k], url, faults[k]);
        }
        SettledSearchIsCalm(vcenters, next, fds, url, faults, k + 1);
      }
    }
  }

  /** No list has been lost since. */
  ghost predicate Since(vcenters: map<string, Backend>, before: Caches, after: Caches) {
    CachesOk(vcenters, after) && forall fd :: Settled(vcenters, before, fd) ==> Settled(vcenters, after, fd)
  }

  /** Any further call on a cache loses none. */
  lemma CallsLoseNothing(vcenters: map<string, Backend>, before: Caches, after: Caches, server: string, call: Call,
                         f: Faults)
    requires Since(vcenters, before, after) && server in vcenters
    ensures Since(vcenters, before, after[server := Step(vcenters[server], after[server], call, f).0])
  {
    var next := after[server := Step(vcenters[server], after[server], call, f).0];
    StepKeepsFaithful(vcenters[server], after[server], call, f);
    forall fd | Settled(vcenters, before, fd) ensures Settled(vcenters, next, fd) {
      if fd.server == server { StepKeepsList(vcenters[server], after[server], call, f, fd.topology.datacenter); }
    }
  }

  /** A search that has once succeeded, in spite of any faults, gives the same answer ever after, whatever faults
      follow; and after "unable to find" the same holds for the search for any other URL. */
  lemma SuccessfulSearchStays(vcenters: map<string, Backend>, caches: Caches, fds: seq<FailureDomain>, url: string,
                              faults: seq<Faults>, later: Caches, url': string, faults': seq<Faults>)
    requires CachesOk(vcenters, caches) && |faults| == |fds| == |faults'|
    requires var (r, after) := SearchFrom(vcenters, caches, fds, url, faults, 0);
      Succeeded(r) && Since(vcenters, after, later) && (url' == url || r.NoDatastore?)
    ensures SearchFrom(vcenters, caches, fds, url, faults, 0).0 == CalmSearch(vcenters, fds, url, 0)
    ensures SearchFrom(vcenters, later, fds, url', faults', 0).0 == CalmSearch(vcenters, fds, url', 0)
  {
    SuccessIsCalm(vcenters, caches, fds, url, faults);
    assert CalmSearch(vcenters, fds, url, 0).NoDatastore? ==> CalmStop(vcenters, fds, url, 0) == |fds| by {
      DecidedIsNoEnd(vcenters, fds, url);
    }
    SettledSearchIsCalm(vcenters, later, fds, url', faults', 0);
  }

  lemma DecidedIsNoEnd(vcenters: map<string, Backend>, fds: seq<FailureDomain>, url: string)
    ensures CalmStop(vcenters, fds, url, 0) < |fds| ==> !CalmSearch(vcenters, fds, url, 0).NoDatastore?
  {
  }
}
