/** The results of a claiming check are the same in all rounds exactly when the first nodes of every key agree. */
module ClaimTheorems {
  import opened Options
  import opened ThreadPool
  import opened PoolTheorems
  import opened ResultCollection
  import opened Round
  import opened RoundTheorems
  import opened RoundCounts
  import opened ClaimingChecks
  import opened ClaimSchedules
  import opened ClaimRuns

  // ---------------------------------------------------------------- the verdicts of given claimants

  /** The round in which the check answers as it does when `claimant` tells who calls first with each key. */
  function ClaimedBy(i: Input, check: string, q: Claiming, claimant: string -> Option<Node>): Input {
    i.(nodeError := (k: string, n: Node) => if k == check then VerdictOf(q, claimant, n) else i.nodeError(k, n))
  }

  function VerdictOf(q: Claiming, claimant: string -> Option<Node>, n: Node): Option<string> {
    if q.key(n).None? then q.keyless(n) else if claimant(q.key(n).value) == Some(n) then q.first(n) else None
  }

  lemma {:induction false} ClaimantStays(q: Claiming, calls: seq<Node>, k: nat, g: string)
    requires k <= |calls| && Claimant(q, calls[..k], g).Some?
    ensures Claimant(q, calls, g) == Claimant(q, calls[..k], g)
  {
    if k == |calls| {
      assert calls[..k] == calls;
    } else {
      assert calls[..|calls| - 1][..k] == calls[..k];
      ClaimantStays(q, calls[..|calls| - 1], k, g);
    }
  }

  /** If no node is called twice, these are the verdicts of the calls. */
  lemma CalledAsClaimed(i: Input, check: string, q: Claiming, claimant: string -> Option<Node>, calls: seq<Node>)
    requires Distinct(calls) && forall g :: Claimant(q, calls, g) == claimant(g)
    ensures AsCalled(ClaimedBy(i, check, q, claimant), check, q, calls)
  {
    forall k | 0 <= k < |calls| ensures VerdictOf(q, claimant, calls[k]) == VerdictAfter(q, calls[..k], calls[k]) {
      var n := calls[k];
      if q.key(n).Some? {
        var g := q.key(n).value;
        if Claimant(q, calls[..k], g).Some? {
          ClaimantStays(q, calls, k, g);
        } else {
          assert calls[..k + 1] == calls[..k] + [n];
          ClaimantSnoc(q, calls[..k], n, g);
          ClaimantStays(q, calls, k + 1, g);
        }
      }
    }
  }

  // ---------------------------------------------------------------- no node is called twice

  lemma {:induction false} DistinctOccursOnce<T>(s: seq<T>, x: T)
    requires Distinct(s)
    ensures multiset(s)[x] <= 1
  {
    if s != [] {
      var init, last := s[..|s| - 1], s[|s| - 1];
      DistinctOccursOnce(init, x);
      assert s == init + [last];
      assert last !in init;
    }
  }

  lemma OccursOnceDistinct<T>(s: seq<T>)
    requires forall x :: x in s ==> multiset(s)[x] <= 1
    ensures Distinct(s)
  {
    forall a, b | 0 <= a < b < |s| ensures s[a] != s[b] {
      assert s == s[..b] + s[b..];
      assert s[a] in multiset(s[..b]) && s[b] in multiset(s[b..]);
      assert s[a] in s;
    }
  }

  lemma {:induction false} FoundFew(i: Input, nodes: seq<Node>)
    ensures multiset(Found(i, nodes)) <= multiset(nodes)
  {
    if nodes != [] {
      FoundFew(i, nodes[..|nodes| - 1]);
      assert nodes == nodes[..|nodes| - 1] + [nodes[|nodes| - 1]];
    }
  }

  lemma VisitsAreDistinct(i: Input, c: Config<Event>, s: State<Event>, check: string)
    requires RoundCompleted(i, c, s) && DistinctNames(i) && check in i.nodeChecks
    requires Distinct(VSphereNodes(i.nodes.value))
    ensures Distinct(Visits(s.log, check))
  {
    NamesApart(i);
    EachFoundNodeVisitedOnce(i, c, s, check);
    var vs, calls := VSphereNodes(i.nodes.value), Visits(s.log, check);
    FoundFew(i, vs);
    forall x | x in calls ensures multiset(calls)[x] <= 1 { DistinctOccursOnce(vs, x); }
    OccursOnceDistinct(calls);
  }

  // ---------------------------------------------------------------- rounds that differ

  /** The claimants when the nodes of `h` of a rank below `a` call last. */
  function FreeClaimant(i: Input, q: Claiming, h: string, a: nat, vs: seq<Node>): string -> Option<Node> {
    (g: string) => FirstFree(i, q, h, a, vs, |vs|, g)
  }

  /** A completed round of these nodes, in which the check answers as it was called. */
  ghost predicate RoundAsCalled(i: Input, check: string, q: Claiming, p: nat, j: Input, c: Config<Event>,
                                s: State<Event>)
  {
    && SameButVerdicts(i, j, check) && RoundCompleted(j, c, s) && c.parallelism == p
    && AsCalled(j, check, q, Visits(s.log, check))
  }

  /** Any found node of a rank below the number of workers can be the one that claims its key. */
  lemma AnyEarlyNodeCanClaim(i: Input, check: string, q: Claiming, p: nat, buffer: nat, h: string, a: nat)
      returns (j: Input, c: Config<Event>, s: State<Event>)
    requires i.nodes.Some? && DistinctNames(i) && check in i.nodeChecks && Distinct(VSphereNodes(i.nodes.value))
    requires a < p && a < |Keyed(i, q, h, VSphereNodes(i.nodes.value))|
    ensures RoundAsCalled(i, check, q, p, j, c, s)
    ensures ClaimedByFree(i, VSphereNodes(i.nodes.value), q, h, a, check, s.log)
  {
    var vs := VSphereNodes(i.nodes.value);
    var claimant := FreeClaimant(i, q, h, a, vs);
    j := ClaimedBy(i, check, q, claimant);
    c := Config(p, buffer, ScriptOf(j));
    SameKeyed(i, j, q, h, vs);
    s := HeldRound(j, c, vs, q, h, a, check);
    VisitsAreDistinct(j, c, s, check);
    forall g ensures Claimant(q, Visits(s.log, check), g) == FirstFree(i, q, h, a, vs, |vs|, g) {
      SameFirstFree(i, j, q, h, a, vs, |vs|, g);
    }
    CalledAsClaimed(i, check, q, claimant, Visits(s.log, check));
  }

  ghost predicate SameAt(m: map<string, Option<string>>, m': map<string, Option<string>>, g: string) {
    (g in m <==> g in m') && (g in m ==> m[g] == m'[g])
  }

  lemma MapChange(m: map<string, Option<string>>, m': map<string, Option<string>>, h: string)
    requires h in m' && forall g :: g != h ==> SameAt(m, m', g)
    ensures m' == m[h := m'[h]]
  {
    var changed := m[h := m'[h]];
    forall g | g in m' ensures g in changed && changed[g] == m'[g] { assert g != h ==> SameAt(m, m', g); }
    forall g | g in changed ensures g in m' { assert g != h ==> SameAt(m, m', g); }
  }

  lemma SameLoadAt(q: Claiming, v: seq<Node>, w: seq<Node>, g: string)
    requires Claimant(q, v, g) == Claimant(q, w, g)
    ensures SameAt(Loads(q, v), Loads(q, w), g)
  {
  }

  lemma LoadsChange(q: Claiming, v: seq<Node>, w: seq<Node>, h: string, n: Node)
    requires forall g :: g != h ==> Claimant(q, v, g) == Claimant(q, w, g)
    requires Claimant(q, w, h) == Some(n)
    ensures Loads(q, w) == Loads(q, v)[h := q.first(n)]
  {
    forall g | g != h ensures SameAt(Loads(q, v), Loads(q, w), g) { SameLoadAt(q, v, w, g); }
    MapChange(Loads(q, v), Loads(q, w), h);
  }

  /** Two logs in which nodes of different ranks claim `h` differ in the verdict on that claim only. */
  lemma LoadsDiffer(i: Input, q: Claiming, h: string, a: nat, vs: seq<Node>, check: string, log: seq<Entry<Event>>,
                    log': seq<Entry<Event>>)
    requires a < |Keyed(i, q, h, vs)|
    requires ClaimedByFree(i, vs, q, h, 0, check, log) && ClaimedByFree(i, vs, q, h, a, check, log')
    ensures Claimant(q, Visits(log, check), h) == Some(Keyed(i, q, h, vs)[0])
    ensures Loads(q, Visits(log', check)) == Loads(q, Visits(log, check))[h := q.first(Keyed(i, q, h, vs)[a])]
  {
    var v, w := Visits(log, check), Visits(log', check);
    ClaimantOfKey(i, q, h, 0, vs, check, log);
    ClaimantOfKey(i, q, h, a, vs, check, log');
    forall g | g != h ensures Claimant(q, v, g) == Claimant(q, w, g) { FirstFreeOfOther(i, q, h, a, vs, |vs|, g); }
    LoadsChange(q, v, w, h, Keyed(i, q, h, vs)[a]);
  }

  lemma ClaimantOfKey(i: Input, q: Claiming, h: string, a: nat, vs: seq<Node>, check: string, log: seq<Entry<Event>>)
    requires a < |Keyed(i, q, h, vs)| && ClaimedByFree(i, vs, q, h, a, check, log)
    ensures Claimant(q, Visits(log, check), h) == Some(Keyed(i, q, h, vs)[a])
  {
    assert vs[..|vs|] == vs;
    FirstFreeOfKey(i, q, h, a, vs, |vs|);
  }

  lemma SameSize(m: map<string, Option<string>>, h: string, e: Option<string>)
    requires h in m
    ensures |m[h := e]| == |m|
  {
    assert m[h := e].Keys == m.Keys;
    assert |m[h := e].Keys| == |m[h := e]| && |m.Keys| == |m|;
  }

  /** If the claim of `h` ends with `e` in one of two rounds only, and all other claims as in the other, the results
      differ. */
  lemma OneMoreResult(j: Input, c: Config<Event>, s: State<Event>, k: Input, d: Config<Event>, t: State<Event>,
                      check: string,
                      q: Claiming, h: string, e: Option<string>)
    requires RoundCompleted(j, c, s) && RoundCompleted(k, d, t) && SameButVerdicts(j, k, check)
    requires DistinctNames(j) && check in j.nodeChecks
    requires AsCalled(j, check, q, Visits(s.log, check)) && AsCalled(k, check, q, Visits(t.log, check))
    requires var m := Loads(q, Visits(s.log, check));
      h in m && m[h] != e && Loads(q, Visits(t.log, check)) == m[h := e]
    ensures multiset(Stored(Collected(s.log), check)) != multiset(Stored(Collected(t.log), check))
  {
    var m := Loads(q, Visits(s.log, check));
    EndingWithMore(m, h, e);
    SameSize(m, h, e);
    ResultCountOfBoth(j, c, s, k, d, t, check, q, e);
  }

  /** If one of the first nodes of a key would end with another verdict than the very first, two rounds store
      different results. */
  lemma ResultsDependOnSchedule(i: Input, check: string, q: Claiming, p: nat, h: string, a: nat)
      returns (j: Input, c: Config<Event>, s: State<Event>, k: Input, d: Config<Event>, t: State<Event>)
    requires i.nodes.Some? && DistinctNames(i) && check in i.nodeChecks && Distinct(VSphereNodes(i.nodes.value))
    requires a < p && a < |Keyed(i, q, h, VSphereNodes(i.nodes.value))| && !AgreesWithFirst(i, q, h, a)
    ensures RoundAsCalled(i, check, q, p, j, c, s) && RoundAsCalled(i, check, q, p, k, d, t)
    ensures multiset(Stored(Collected(s.log), check)) != multiset(Stored(Collected(t.log), check))
  {
    var vs := VSphereNodes(i.nodes.value);
    j, c, s := AnyEarlyNodeCanClaim(i, check, q, p, 0, h, 0);
    k, d, t := AnyEarlyNodeCanClaim(i, check, q, p, 0, h, a);
    LoadsDiffer(i, q, h, a, vs, check, s.log, t.log);
    OneMoreResult(j, c, s, k, d, t, check, q, h, q.first(Keyed(i, q, h, vs)[a]));
  }

  /** All rounds of these nodes with `p` workers store the same results for the check. */
  ghost predicate ResultsAreFixed(i: Input, check: string, q: Claiming, p: nat) {
    forall j, c, s, k, d, t :: RoundAsCalled(i, check, q, p, j, c, s) && RoundAsCalled(i, check, q, p, k, d, t) ==>
      multiset(Stored(Collected(s.log), check)) == multiset(Stored(Collected(t.log), check))
  }

  /** The schedule decides what a claiming check reports, unless the first nodes of every key, as many as there are
      workers, would all end with the same verdict. */
  lemma ResultsAreFixedExactlyWhenFirstAgree(i: Input, check: string, q: Claiming, p: nat)
    requires i.nodes.Some? && DistinctNames(i) && check in i.nodeChecks && Distinct(VSphereNodes(i.nodes.value))
    ensures ResultsAreFixed(i, check, q, p) <==> FirstAgree(i, q, p)
  {
    if FirstAgree(i, q, p) {
      forall j, c, s, k, d, t | RoundAsCalled(i, check, q, p, j, c, s) && RoundAsCalled(i, check, q, p, k, d, t)
        ensures multiset(Stored(Collected(s.log), check)) == multiset(Stored(Collected(t.log), check))
      {
        AgreementCarries(i, j, q, p);
        ScheduleDoesNotMatterWhenFirstAgree(j, c, s, k, d, t, check, q);
      }
    } else {
      var h, a: nat :| a < p && a < |Keyed(i, q, h, VSphereNodes(i.nodes.value))| && !AgreesWithFirst(i, q, h, a);
      var j, c, s, k, d, t := ResultsDependOnSchedule(i, check, q, p, h, a);
    }
  }

  lemma {:induction false} KeyedFew(i: Input, q: Claiming, h: string, vs: seq<Node>)
    ensures multiset(Keyed(i, q, h, vs)) <= multiset(vs)
  {
    if vs != [] {
      KeyedFew(i, q, h, vs[..|vs| - 1]);
      assert vs == vs[..|vs| - 1] + [vs[|vs| - 1]];
    }
  }

  lemma KeyedAreDistinct(i: Input, q: Claiming, h: string, vs: seq<Node>)
    requires Distinct(vs)
    ensures Distinct(Keyed(i, q, h, vs))
  {
    var keyed := Keyed(i, q, h, vs);
    KeyedFew(i, q, h, vs);
    forall x | x in keyed ensures multiset(keyed)[x] <= 1 { DistinctOccursOnce(vs, x); }
    OccursOnceDistinct(keyed);
  }

  /** At most one found node has the key. */
  ghost predicate Unshared(i: Input, q: Claiming, h: string)
    requires i.nodes.Some?
  {
    |Keyed(i, q, h, VSphereNodes(i.nodes.value))| <= 1
  }

  lemma SharedDisagree(i: Input, q: Claiming, h: string)
    requires i.nodes.Some? && Distinct(VSphereNodes(i.nodes.value)) && !Unshared(i, q, h)
    requires forall n, m :: q.first(n) == q.first(m) ==> n == m
    ensures !AgreesWithFirst(i, q, h, 1)
  {
    KeyedAreDistinct(i, q, h, VSphereNodes(i.nodes.value));
  }

  lemma FirstAgreeWhenUnshared(i: Input, q: Claiming, p: nat)
    requires i.nodes.Some? && (p <= 1 || forall h :: Unshared(i, q, h))
    ensures FirstAgree(i, q, p)
  {
    forall h, a: nat | a < p && a < |Keyed(i, q, h, VSphereNodes(i.nodes.value))| ensures AgreesWithFirst(i, q, h, a) {
      if p > 1 { assert Unshared(i, q, h); }
      assert a == 0;
    }
  }

  /** An error that names its node is another one for every node. So if every first call ends with such an error,
      the results are fixed exactly when there is one worker only or no two found nodes share a key. */
  lemma ErrorsThatNameTheirNode(i: Input, check: string, q: Claiming, p: nat)
    requires i.nodes.Some? && DistinctNames(i) && check in i.nodeChecks && Distinct(VSphereNodes(i.nodes.value))
    requires forall n, m :: q.first(n) == q.first(m) ==> n == m
    ensures ResultsAreFixed(i, check, q, p) <==> p <= 1 || forall h :: Unshared(i, q, h)
  {
    ResultsAreFixedExactlyWhenFirstAgree(i, check, q, p);
    if p <= 1 || forall h :: Unshared(i, q, h) {
      FirstAgreeWhenUnshared(i, q, p);
    } else {
      var h :| !Unshared(i, q, h);
      SharedDisagree(i, q, h);
    }
  }
}
