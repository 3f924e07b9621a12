/** ResultCollector (pkg/operator/pool.go) and JoinErrors (pkg/check/errors.go). A Go error is an
    Option<string>; the text of a merged error is represented by what it names. */
module ResultCollection {
  import opened Options

  /** The error JoinErrors builds: how many errors it speaks of and which ones it quotes. */
  datatype Merged = Merged(total: nat, quoted: seq<string>)

  datatype CheckResult = CheckResult(name: string, error: Option<Merged>)

  const QUOTED_ALL_BELOW := 5
  const QUOTED_OTHERWISE := 4

  function JoinErrors(errs: seq<string>): (r: Option<Merged>)
    ensures r.None? <==> errs == []
    ensures r.Some? ==> r.value.total == |errs| && r.value.quoted <= errs
    ensures r.Some? && r.value.quoted != errs ==> |r.value.quoted| == QUOTED_OTHERWISE
  {
    if |errs| == 0 then None
    else if |errs| < QUOTED_ALL_BELOW then Some(Merged(|errs|, errs))
    else Some(Merged(|errs|, errs[..QUOTED_OTHERWISE]))
  }

  /** The message announces the first five errors; it never quotes a fifth one. */
  lemma NeverQuotesFive(errs: seq<string>)
    ensures JoinErrors(errs).Some? ==> |JoinErrors(errs).value.quoted| <= 4
    ensures JoinErrors(errs).Some? && JoinErrors(errs).value.quoted == errs <==> 0 < |errs| < 5
  {
  }

  // ---------------------------------------------------------------- the stored results

  type Results = map<string, seq<Option<string>>>

  function Stored(m: Results, name: string): seq<Option<string>> {
    if name in m then m[name] else []
  }

  function Store(m: Results, name: string, err: Option<string>): (m': Results)
    ensures forall n :: Stored(m', n) == Stored(m, n) + if n == name then [err] else []
  {
    m[name := Stored(m, name) + [err]]
  }

  /** The errors among `errs`, in order. */
  function Failures(errs: seq<Option<string>>): seq<string> {
    if errs == [] then []
    else
      var last := errs[|errs| - 1];
      Failures(errs[..|errs| - 1]) + if last.None? then [] else [last.value]
  }

  lemma {:induction false} NoFailures(errs: seq<Option<string>>)
    ensures Failures(errs) == [] <==> forall e :: e in errs ==> e.None?
  {
    if errs != [] {
      NoFailures(errs[..|errs| - 1]);
      assert errs == errs[..|errs| - 1] + [errs[|errs| - 1]];
    }
  }

  lemma CountSnoc<T>(s: seq<T>, last: T, x: T)
    ensures multiset(s + [last])[x] == multiset(s)[x] + if last == x then 1 else 0
  {
  }

  /** Each error as often as it was stored. */
  lemma {:induction false} FailuresAre(errs: seq<Option<string>>, x: string)
    ensures multiset(Failures(errs))[x] == multiset(errs)[Some(x)]
  {
    if errs != [] {
      var init, last := errs[..|errs| - 1], errs[|errs| - 1];
      FailuresAre(init, x);
      assert errs == init + [last];
      CountSnoc(init, last, Some(x));
      if last.Some? { CountSnoc(Failures(init), last.value, x); }
    }
  }

  /** And all that are no nil. */
  lemma {:induction false} FailuresSize(errs: seq<Option<string>>)
    ensures |Failures(errs)| == |errs| - multiset(errs)[None]
  {
    if errs != [] {
      var init, last := errs[..|errs| - 1], errs[|errs| - 1];
      FailuresSize(init);
      assert errs == init + [last];
      CountSnoc(init, last, None);
    }
  }

  /** In the order in which they were stored: `at` are their places. */
  lemma {:induction false} FailuresInOrder(errs: seq<Option<string>>) returns (at: seq<nat>)
    ensures |at| == |Failures(errs)| && forall k :: 0 <= k < |at| ==> at[k] < |errs|
    ensures forall k :: 0 <= k < |at| ==> errs[at[k]] == Some(Failures(errs)[k])
    ensures forall j, k :: 0 <= j < k < |at| ==> at[j] < at[k]
  {
    at := [];
    if errs != [] {
      at := FailuresInOrder(errs[..|errs| - 1]);
      if errs[|errs| - 1].Some? { at := at + [|errs| - 1]; }
    }
  }

  function Summary(m: Results, name: string): CheckResult {
    CheckResult(name, JoinErrors(Failures(Stored(m, name))))
  }

  function Summaries(m: Results, names: seq<string>): (r: seq<CheckResult>)
    ensures |r| == |names| && forall i :: 0 <= i < |r| ==> r[i] == Summary(m, names[i])
  {
    seq(|names|, i requires 0 <= i < |names| => Summary(m, names[i]))
  }

  function NamesOf(summaries: seq<CheckResult>): (r: seq<string>)
    ensures |r| == |summaries| && forall i :: 0 <= i < |r| ==> r[i] == summaries[i].name
  {
    seq(|summaries|, i requires 0 <= i < |summaries| => summaries[i].name)
  }

  function AllFailures(m: Results, names: seq<string>): seq<string> {
    if names == [] then []
    else AllFailures(m, names[..|names| - 1]) + Failures(Stored(m, names[|names| - 1]))
  }

  lemma {:induction false} NoFailuresAtAll(m: Results, names: seq<string>)
    ensures AllFailures(m, names) == [] <==> forall n, e :: n in names && e in Stored(m, n) ==> e.None?
  {
    if names != [] {
      var init, last := names[..|names| - 1], names[|names| - 1];
      assert names == init + [last];
      NoFailuresAtAll(m, init);
      NoFailures(Stored(m, last));
      if AllFailures(m, names) == [] {
        forall n, e | n in names && e in Stored(m, n) ensures e.None? {}
      } else if Failures(Stored(m, last)) != [] {
        var e :| e in Stored(m, last) && !e.None?;
        assert last in names;
      } else {
        var n, e :| n in init && e in Stored(m, n) && !e.None?;
        assert n in names;
      }
    }
  }

  /** All stored results of some checks, one check after the other. */
  function AllStored(m: Results, names: seq<string>): seq<Option<string>> {
    if names == [] then [] else AllStored(m, names[..|names| - 1]) + Stored(m, names[|names| - 1])
  }

  lemma {:induction false} AllFailuresAre(m: Results, names: seq<string>, x: string)
    ensures multiset(AllFailures(m, names))[x] == multiset(AllStored(m, names))[Some(x)]
  {
    if names != [] {
      AllFailuresAre(m, names[..|names| - 1], x);
      FailuresAre(Stored(m, names[|names| - 1]), x);
    }
  }

  /** A summary speaks of every result of its check that is not nil, and quotes fewer than five completely. */
  ghost predicate SpeaksOf(error: Option<Merged>, stored: seq<Option<string>>) {
    && (if error.None? then 0 else error.value.total) == |stored| - multiset(stored)[None]
    && (error.Some? && error.value.total < 5 ==>
          forall x :: multiset(error.value.quoted)[x] == multiset(stored)[Some(x)])
  }

  lemma SummarySpeaksOf(m: Results, name: string)
    ensures SpeaksOf(Summary(m, name).error, Stored(m, name))
  {
    FailuresSize(Stored(m, name));
    forall x ensures multiset(Failures(Stored(m, name)))[x] == multiset(Stored(m, name))[Some(x)] {
      FailuresAre(Stored(m, name), x);
    }
  }

  predicate Distinct<T(==)>(s: seq<T>) {
    forall i, j :: 0 <= i < j < |s| ==> s[i] != s[j]
  }

  class ResultCollector {
    var results: Results

    constructor ()
      ensures results == map[]
    {
      results := map[];
    }

    method AddResult(name: string, err: Option<string>)
      modifies this
      ensures results == Store(old(results), name, err)
    {
      if name !in results {
        assert [] + [err] == [err];
        results := results[name := [err]];
        return;
      }
      results := results[name := results[name] + [err]];
    }

    /** Drops the nil results of one check and adds the others to the errors of all checks. */
    static method DropNil(checkErrors: seq<Option<string>>, allErrs: seq<string>)
        returns (errs: seq<string>, allErrs': seq<string>)
      ensures errs == Failures(checkErrors) && allErrs' == allErrs + Failures(checkErrors)
    {
      errs, allErrs' := [], allErrs;
      for i := 0 to |checkErrors|
        invariant errs == Failures(checkErrors[..i])
        invariant allErrs' == allErrs + Failures(checkErrors[..i])
      {
        assert checkErrors[..i + 1][..i] == checkErrors[..i];
        if checkErrors[i].Some? {
          errs := errs + [checkErrors[i].value];
          allErrs' := allErrs' + [checkErrors[i].value];
        }
      }
      assert checkErrors[..|checkErrors|] == checkErrors;
    }

    /** The map is ranged over in any order, which is the order of the names in the summaries. */
    method Collect() returns (checkResults: seq<CheckResult>, overall: Option<seq<string>>)
      ensures Distinct(NamesOf(checkResults)) && forall n :: n in NamesOf(checkResults) <==> n in results
      ensures checkResults == Summaries(results, NamesOf(checkResults))
      ensures overall == var all := AllFailures(results, NamesOf(checkResults)); if all == [] then None else Some(all)
      ensures forall k :: 0 <= k < |checkResults| ==>
                checkResults[k].name in results && SpeaksOf(checkResults[k].error, results[checkResults[k].name])
      ensures forall x :: (if overall.None? then 0 else multiset(overall.value)[x])
                       == multiset(AllStored(results, NamesOf(checkResults)))[Some(x)]
    {
      checkResults := [];
      ghost var order: seq<string> := [];
      var allErrs: seq<string> := [];
      var remaining := results.Keys;
      while remaining != {}
        invariant remaining <= results.Keys
        invariant Distinct(order) && forall n :: n in order <==> n in results.Keys - remaining
        invariant checkResults == Summaries(results, order)
        invariant allErrs == AllFailures(results, order)
        decreases |remaining|
      {
        var name :| name in remaining;
        var errs;
        errs, allErrs := DropNil(results[name], allErrs);
        assert name !in order;
        DistinctAppend(order, name);
        assert (order + [name])[..|order|] == order;
        checkResults := checkResults + [CheckResult(name, JoinErrors(errs))];
        remaining := remaining - {name};
        order := order + [name];
      }
      assert NamesOf(checkResults) == order;
      overall := if allErrs == [] then None else Some(allErrs);
      forall k | 0 <= k < |checkResults|
        ensures checkResults[k].name in results && SpeaksOf(checkResults[k].error, results[checkResults[k].name])
      {
        assert order[k] in order;
        SummarySpeaksOf(results, order[k]);
      }
      forall x ensures multiset(AllFailures(results, order))[x] == multiset(AllStored(results, order))[Some(x)] {
        AllFailuresAre(results, order, x);
      }
    }
  }

  lemma DistinctAppend(names: seq<string>, name: string)
    requires Distinct(names) && name !in names
    ensures Distinct(names + [name])
  {
    assert forall i :: 0 <= i < |names| ==> names[i] in names;
  }
}
