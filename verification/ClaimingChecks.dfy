/** Node checks that look at something for the first node only: CollectNodeESXiVersion loads a host for the first
    node that runs on it (pkg/check/node_esxi_version.go), and CheckComputeClusterPermissions looks at a compute
    cluster for the first node in a cluster of that name (pkg/check/node_cluster_permissions.go). The resource pool
    check keeps such a map too, but does not heed it (pkg/check/node_resource_pool_permissions.go). */
module ClaimingChecks {
  import opened Options
  import opened ThreadPool
  import opened PoolTheorems
  import opened ResultCollection
  import opened Round
  import opened RoundTheorems
  import opened RoundCounts

  /** The first call with a key claims it: it ends with `first`, a later one with the same key with nil, and one
      without a key with `keyless`. */
  datatype Claiming = Claiming(
    key: Node -> Option<string>, keyless: Node -> Option<string>, first: Node -> Option<string>)

  /** The first of some calls, in their order, with key `h`. */
  function Claimant(q: Claiming, calls: seq<Node>, h: string): (r: Option<Node>)
    ensures r.Some? ==> r.value in calls && q.key(r.value) == Some(h)
    ensures r.None? ==> forall n :: n in calls ==> q.key(n) != Some(h)
  {
    if calls == [] then None
    else
      var earlier, last := Claimant(q, calls[..|calls| - 1], h), calls[|calls| - 1];
      assert forall n :: n in calls ==> n in calls[..|calls| - 1] || n == last;
      if earlier.Some? then earlier else if q.key(last) == Some(h) then Some(last) else None
  }

  /** The verdict of a call after some other calls. */
  function VerdictAfter(q: Claiming, calls: seq<Node>, n: Node): Option<string> {
    if q.key(n).None? then q.keyless(n)
    else if Claimant(q, calls, q.key(n).value).Some? then None
    else q.first(n)
  }

  function ClaimVerdicts(q: Claiming, calls: seq<Node>): seq<Option<string>> {
    if calls == [] then []
    else
      var init, last := calls[..|calls| - 1], calls[|calls| - 1];
      ClaimVerdicts(q, init) + [VerdictAfter(q, init, last)]
  }

  // ---------------------------------------------------------------- the checks

  const ROOT_POOL := "Resources"

  predicate IsRootPool(name: string) {
    |ROOT_POOL| <= |name| && name[|name| - |ROOT_POOL|..] == ROOT_POOL
  }

  /** A root pool's name ends so. */
  lemma RootPools(name: string)
    ensures IsRootPool(name) <==> exists path: string :: name == path + "Resources"
  {
    if IsRootPool(name) {
      assert name == name[..|name| - |ROOT_POOL|] + "Resources";
    }
    if path: string :| name == path + "Resources" {
      assert name[|name| - |ROOT_POOL|..] == "Resources";
    }
  }

  /** The claimed keys of a check, and CheckNode as it claims them. */
  class Claims {
    var claimed: set<string>

    constructor ()
      ensures claimed == {}
    {
      claimed := {};
    }

    /** The ESXi check: `host` is the VM's host, `load` what loading its version ends with. */
    method CheckNodeESXi(host: Option<string>, noHost: string, load: Option<string>) returns (err: Option<string>)
      modifies this
      ensures claimed == old(claimed) + if host.Some? then {host.value} else {}
      ensures err == if host.None? then Some(noHost) else if host.value in old(claimed) then None else load
    {
      if host.None? { return Some(noHost); }
      var processed := host.value in claimed;
      claimed := claimed + {host.value};
      if processed { return None; }
      err := load;
    }

    /** The permission check: `vcenterError` of GetVCenter, the cluster's name if it can be obtained, the
        read-only decision, and the privileges that are missing. */
    method CheckNodePermissions(vcenterError: Option<string>, cluster: Option<string>, readOnly: bool,
                                missing: Option<string>)
      returns (err: Option<string>)
      modifies this
      ensures var key := if vcenterError.None? && !readOnly then cluster else None;
        && claimed == old(claimed) + (if key.Some? then {key.value} else {})
        && err == if key.None? then vcenterError else if key.value in old(claimed) then None else missing
    {
      if vcenterError.Some? { return vcenterError; }
      if cluster.None? { return None; }
      if readOnly { return None; }
      if cluster.value in claimed { return None; }
      claimed := claimed + {cluster.value};
      err := missing;
    }

    /** The resource pool check: `pool` is the pool's name unless asking for it fails, `path` the inventory path if it
        can be obtained. A pool that was checked before is checked again, so no verdict depends on earlier calls. */
    method CheckNodeResourcePool(vcenterError: Option<string>, hasPool: bool, poolError: Option<string>,
                                 poolName: string,
                                 path: Option<string>, missing: Option<string>)
      returns (err: Option<string>)
      modifies this
      ensures var checked := vcenterError.None? && hasPool && poolError.None? && !IsRootPool(poolName) && path.Some?;
        && claimed == old(claimed) + (if checked then {path.value} else {})
        && err == if checked then missing
                  else if vcenterError.Some? then vcenterError else if hasPool then poolError else None
    {
      if vcenterError.Some? { return vcenterError; }
      if !hasPool { return None; }
      if poolError.Some? { return poolError; }
      if IsRootPool(poolName) { return None; }
      if path.None? { return None; }
      claimed := claimed + {path.value};
      err := missing;
    }
  }

  function Keys(q: Claiming, calls: seq<Node>): set<string> {
    set n | n in calls && q.key(n).Some? :: q.key(n).value
  }

  /** What the first two methods do after some calls: they answer with the verdict and claim the node's key. */
  lemma VerdictByClaimedKeys(q: Claiming, calls: seq<Node>, n: Node)
    ensures VerdictAfter(q, calls, n)
         == if q.key(n).None? then q.keyless(n) else if q.key(n).value in Keys(q, calls) then None else q.first(n)
    ensures Keys(q, calls + [n]) == Keys(q, calls) + if q.key(n).Some? then {q.key(n).value} else {}
  {
  }

  // ---------------------------------------------------------------- the stored results, as a function of the calls

  /** The oracle's verdicts are those of the check, called in this order. */
  ghost predicate AsCalled(i: Input, check: string, q: Claiming, calls: seq<Node>) {
    forall k :: 0 <= k < |calls| ==> i.nodeError(check, calls[k]) == VerdictAfter(q, calls[..k], calls[k])
  }

  // ---------------------------------------------------------------- counting

  /** How often `x` occurs. */
  function CountOf<T(==)>(s: seq<T>, x: T): nat {
    if s == [] then 0 else CountOf(s[..|s| - 1], x) + if s[|s| - 1] == x then 1 else 0
  }

  lemma {:induction false} CountIsMultiplicity<T>(s: seq<T>, x: T)
    ensures multiset(s)[x] == CountOf(s, x)
  {
    if s != [] {
      CountIsMultiplicity(s[..|s| - 1], x);
      assert s == s[..|s| - 1] + [s[|s| - 1]];
    }
  }

  function CountWhere<T>(s: seq<T>, p: T -> bool): nat {
    if s == [] then 0 else CountWhere(s[..|s| - 1], p) + if p(s[|s| - 1]) then 1 else 0
  }

  lemma {:induction false} CountIsPicked<T>(s: seq<T>, p: T -> bool, f: T -> Option<bool>)
    requires forall x :: f(x) == if p(x) then Some(true) else None
    ensures CountWhere(s, p) == |Picked(s, f)|
  {
    if s != [] { CountIsPicked(s[..|s| - 1], p, f); }
  }

  lemma CountPermutation<T>(a: seq<T>, b: seq<T>, p: T -> bool)
    requires multiset(a) == multiset(b)
    ensures CountWhere(a, p) == CountWhere(b, p)
  {
    var f: T -> Option<bool> := x => if p(x) then Some(true) else None;
    CountIsPicked(a, p, f);
    CountIsPicked(b, p, f);
    PickedPermutation(a, b, f);
  }

  // ---------------------------------------------------------------- what a round stores for such a check

  /** How many nodes fail the lookup of their VM with `e`. */
  function LostCount(i: Input, nodes: seq<Node>, e: Option<string>): nat {
    if nodes == [] then 0
    else
      var last := i.lookupError(nodes[|nodes| - 1]);
      LostCount(i, nodes[..|nodes| - 1], e) + if last.Some? && last == e then 1 else 0
  }

  function EndsWith(i: Input, check: string, e: Option<string>): Node -> bool {
    (n: Node) => i.nodeError(check, n) == e
  }

  lemma {:induction false} VerdictsSplit(i: Input, check: string, nodes: seq<Node>, e: Option<string>, p: Node -> bool)
    requires forall n :: p(n) <==> i.nodeError(check, n) == e
    ensures CountOf(Verdicts(i, check, nodes), e) == LostCount(i, nodes, e) + CountWhere(Found(i, nodes), p)
  {
    if nodes != [] {
      var init, last := nodes[..|nodes| - 1], nodes[|nodes| - 1];
      VerdictsSplit(i, check, init, e, p);
      CountSnoc(Verdicts(i, check, init), Verdict(i, check, last), e);
      if i.lookupError(last).None? {
        CountWhereSnoc(Found(i, init), last, p);
      } else {
        assert Found(i, nodes) == Found(i, init);
      }
    }
  }

  lemma CountSnoc<T>(s: seq<T>, x: T, y: T)
    ensures CountOf(s + [x], y) == CountOf(s, y) + if x == y then 1 else 0
  {
    assert (s + [x])[..|s|] == s;
  }

  lemma CountWhereSnoc<T>(s: seq<T>, x: T, p: T -> bool)
    ensures CountWhere(s + [x], p) == CountWhere(s, p) + if p(x) then 1 else 0
  {
    assert (s + [x])[..|s|] == s;
  }

  lemma {:induction false} CallsGiveVerdicts(i: Input, check: string, q: Claiming, calls: seq<Node>,
                                             e: Option<string>, p: Node -> bool)
    requires AsCalled(i, check, q, calls) && forall n :: p(n) <==> i.nodeError(check, n) == e
    ensures CountWhere(calls, p) == CountOf(ClaimVerdicts(q, calls), e)
  {
    if calls != [] {
      var init, last := calls[..|calls| - 1], calls[|calls| - 1];
      forall k | 0 <= k < |init| ensures i.nodeError(check, init[k]) == VerdictAfter(q, init[..k], init[k]) {
        assert init[k] == calls[k] && init[..k] == calls[..k];
      }
      CallsGiveVerdicts(i, check, q, init, e, p);
      CountSnoc(ClaimVerdicts(q, init), VerdictAfter(q, init, last), e);
    }
  }

  /** How often a completed round stores each result of such a check: once for each lookup that fails with it,
      and once for each call that ends with it, in the order in which this round made the calls. */
  lemma StoredAsCalled(i: Input, c: Config<Event>, s: State<Event>, check: string, q: Claiming, e: Option<string>)
    requires RoundCompleted(i, c, s) && DistinctNames(i) && check in i.nodeChecks
    requires AsCalled(i, check, q, Visits(s.log, check))
    ensures multiset(Stored(Collected(s.log), check))[e]
         == LostCount(i, VSphereNodes(i.nodes.value), e) + CountOf(ClaimVerdicts(q, Visits(s.log, check)), e)
  {
    NamesApart(i);
    ResultsConserved(i, c, s, check);
    EachFoundNodeVisitedOnce(i, c, s, check);
    CountIsMultiplicity(Owed(i, check), e);
    VerdictsSplit(i, check, VSphereNodes(i.nodes.value), e, EndsWith(i, check, e));
    CountPermutation(Visits(s.log, check), FoundNodes(i), EndsWith(i, check, e));
    CallsGiveVerdicts(i, check, q, Visits(s.log, check), e, EndsWith(i, check, e));
  }

  // ---------------------------------------------------------------- what the order of the calls decides

  /** The verdict on the claimant of every key. */
  function Loads(q: Claiming, calls: seq<Node>): (m: map<string, Option<string>>)
    ensures forall h :: h in m <==> Claimant(q, calls, h).Some?
    ensures forall h :: h in m ==> m[h] == q.first(Claimant(q, calls, h).value)
  {
    if calls == [] then map[]
    else
      var m, last := Loads(q, calls[..|calls| - 1]), calls[|calls| - 1];
      if q.key(last).None? || q.key(last).value in m then m else m[q.key(last).value := q.first(last)]
  }

  /** The keys whose claimant ends with `e`. */
  function EndingWith(m: map<string, Option<string>>, e: Option<string>): set<string> {
    set h | h in m && m[h] == e
  }

  lemma EndingWithMore(m: map<string, Option<string>>, h: string, e: Option<string>)
    requires h !in EndingWith(m, e)
    ensures |EndingWith(m[h := e], e)| == |EndingWith(m, e)| + 1
  {
    assert EndingWith(m[h := e], e) == EndingWith(m, e) + {h};
  }

  lemma EndingWithOther(m: map<string, Option<string>>, h: string, v: Option<string>, e: Option<string>)
    requires h !in m && v != e
    ensures EndingWith(m[h := v], e) == EndingWith(m, e)
  {
  }

  function WithoutKey(q: Claiming, e: Option<string>): Node -> bool {
    (n: Node) => q.key(n).None? && q.keyless(n) == e
  }

  function WithKey(q: Claiming): Node -> bool {
    (n: Node) => q.key(n).Some?
  }

  /** Calls with a key yield nil, except for the claimants. */
  lemma {:induction false} VerdictsByClaims(q: Claiming, calls: seq<Node>, e: Option<string>, keyless: Node -> bool,
                                            keyed: Node -> bool)
    requires forall n :: keyless(n) <==> q.key(n).None? && q.keyless(n) == e
    requires forall n :: keyed(n) <==> q.key(n).Some?
    ensures CountOf(ClaimVerdicts(q, calls), e) + (if e.None? then |Loads(q, calls)| else 0)
         == CountWhere(calls, keyless) + |EndingWith(Loads(q, calls), e)|
            + if e.None? then CountWhere(calls, keyed) else 0
  {
    if calls != [] {
      var init, last := calls[..|calls| - 1], calls[|calls| - 1];
      VerdictsByClaims(q, init, e, keyless, keyed);
      CountSnoc(ClaimVerdicts(q, init), VerdictAfter(q, init, last), e);
      var m := Loads(q, init);
      if q.key(last).Some? && q.key(last).value !in m {
        if q.first(last) == e {
          EndingWithMore(m, q.key(last).value, e);
        } else {
          EndingWithOther(m, q.key(last).value, q.first(last), e);
        }
        assert |Loads(q, calls)| == |m| + 1;
      }
    }
  }

  /** Two orders of the same calls, compared by the verdicts on their claimants. */
  lemma CompareOrders(q: Claiming, v: seq<Node>, w: seq<Node>, e: Option<string>)
    requires multiset(v) == multiset(w) && |Loads(q, v)| == |Loads(q, w)|
    ensures CountOf(ClaimVerdicts(q, v), e) + |EndingWith(Loads(q, w), e)|
         == CountOf(ClaimVerdicts(q, w), e) + |EndingWith(Loads(q, v), e)|
  {
    VerdictsByClaims(q, v, e, WithoutKey(q, e), WithKey(q));
    VerdictsByClaims(q, w, e, WithoutKey(q, e), WithKey(q));
    CountPermutation(v, w, WithoutKey(q, e));
    CountPermutation(v, w, WithKey(q));
  }
}
