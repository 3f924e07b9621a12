/** The disk latency check (pkg/check/node_perf.go). int64 arithmetic wraps around, and its division
    truncates towards zero. */
module NodePerf {
  import opened Options

  const TWO_63: int := 0x8000_0000_0000_0000
  const TWO_64: int := 0x1_0000_0000_0000_0000

  const MINIMUM_REQUIRED_SAMPLES := 30

  predicate IsInt64(x: int) {
    -TWO_63 <= x < TWO_63
  }

  function Wrap(x: int): (r: int)
    ensures IsInt64(r) && (IsInt64(x) ==> r == x)
  {
    (x + TWO_63) % TWO_64 - TWO_63
  }

  function TruncatedDiv(a: int, n: int): int
    requires n > 0
  {
    if a >= 0 then a / n else -((-a) / n)
  }

  // ---------------------------------------------------------------- the average of a series

  function Sum(values: seq<int>): int {
    if values == [] then 0 else Sum(values[..|values| - 1]) + values[|values| - 1]
  }

  /** The sum counts every sample once. */
  lemma {:induction false} SumAdds(a: seq<int>, x: int, b: seq<int>)
    ensures Sum(a + [x] + b) == Sum(a) + x + Sum(b)
  {
    var s := a + [x] + b;
    if b == [] {
      assert s[..|s| - 1] == a;
    } else {
      assert s[..|s| - 1] == a + [x] + b[..|b| - 1];
      SumAdds(a, x, b[..|b| - 1]);
    }
  }

  function Accumulated(values: seq<int>): (r: int)
    ensures IsInt64(r)
  {
    if values == [] then 0 else Wrap(Accumulated(values[..|values| - 1]) + values[|values| - 1])
  }

  predicate TooSlow(values: seq<int>, errorLevel: int) {
    |values| >= MINIMUM_REQUIRED_SAMPLES && TruncatedDiv(Accumulated(values), |values|) > errorLevel
  }

  lemma WrapAdds(x: int, y: int)
    ensures Wrap(Wrap(x) + y) == Wrap(x + y)
  {
    var q := (x + TWO_63) / TWO_64;
    assert Wrap(x) == x - q * TWO_64;
    Periodic(x + y + TWO_63, q);
  }

  lemma {:induction false} Periodic(x: int, q: int)
    ensures (x - q * TWO_64) % TWO_64 == x % TWO_64
    decreases if q >= 0 then q else -q
  {
    if q > 0 {
      Periodic(x - TWO_64, q - 1);
    } else if q < 0 {
      Periodic(x + TWO_64, q + 1);
    }
  }

  /** The accumulator holds the true sum modulo two to the 64th, however often it wrapped. */
  lemma {:induction false} AccumulatorIsWrappedSum(values: seq<int>)
    ensures Accumulated(values) == Wrap(Sum(values))
  {
    if values != [] {
      AccumulatorIsWrappedSum(values[..|values| - 1]);
      WrapAdds(Sum(values[..|values| - 1]), values[|values| - 1]);
    }
  }

  lemma MulMonotone(a: int, b: int, n: nat)
    requires a <= b
    ensures a * n <= b * n
  {
  }

  /** A truncated average exceeds a level exactly when the sum reaches the next multiple. */
  lemma AverageExceedsExactlyWhen(sum: int, n: int, level: int)
    requires n > 0
    ensures TruncatedDiv(sum, n) > level <==> if level >= 0 then sum >= (level + 1) * n else sum > level * n
  {
    if sum >= 0 {
      QuotientExceedsExactlyWhen(sum, n, level);
      if level < 0 { MulMonotone(level, -1, n); }
    } else if level >= 0 {
      MulMonotone(0, level + 1, n);
    } else {
      QuotientExceedsExactlyWhen(-sum, n, -level - 1);
      assert -level * n == -(level * n);
    }
  }

  lemma QuotientExceedsExactlyWhen(a: nat, n: int, level: int)
    requires n > 0
    ensures a / n > level <==> a >= (level + 1) * n
  {
    var q := a / n;
    assert q * n <= a < (q + 1) * n;
    if q > level { MulMonotone(level + 1, q, n); } else { MulMonotone(q + 1, level + 1, n); }
  }

  function Threshold(values: seq<int>, errorLevel: int): int {
    (errorLevel + 1) * |values|
  }

  /** A series is too slow exactly when it has enough samples and its sum, wrapped to an int64, reaches the
      threshold; so without overflow exactly when its true sum does. */
  lemma TooSlowExactlyWhen(values: seq<int>, errorLevel: int)
    requires errorLevel >= 0
    ensures TooSlow(values, errorLevel) <==>
            |values| >= 30 && Wrap(Sum(values)) >= (errorLevel + 1) * |values|
    ensures IsInt64(Sum(values)) ==>
            (TooSlow(values, errorLevel) <==> |values| >= 30 && Sum(values) >= (errorLevel + 1) * |values|)
  {
    AccumulatorIsWrappedSum(values);
    if |values| > 0 { AverageExceedsExactlyWhen(Accumulated(values), |values|, errorLevel); }
  }

  /** How often a sum wrapped around: upwards when positive, downwards when negative. */
  function Wraps(sum: int): int {
    (sum + TWO_63) / TWO_64
  }

  predicate SumIsTooSlow(values: seq<int>, errorLevel: int) {
    |values| >= MINIMUM_REQUIRED_SAMPLES && Sum(values) >= Threshold(values, errorLevel)
  }

  /** The check agrees with the true sum exactly when the series is too short to be judged, or the sum did
      not wrap, or it wrapped upwards and what is left still reaches the threshold (or the sum itself does
      not reach a threshold beyond int64), or it wrapped downwards and what is left is below it. */
  lemma AgreesWithTrueSumExactlyWhen(values: seq<int>, errorLevel: int)
    requires errorLevel >= 0
    ensures var sum, threshold := Sum(values), Threshold(values, errorLevel);
      (TooSlow(values, errorLevel) <==> SumIsTooSlow(values, errorLevel)) <==>
      || |values| < MINIMUM_REQUIRED_SAMPLES
      || Wraps(sum) == 0
      || (Wraps(sum) > 0 && (Wrap(sum) >= threshold || sum < threshold))
      || (Wraps(sum) < 0 && Wrap(sum) < threshold)
  {
    TooSlowExactlyWhen(values, errorLevel);
    var sum := Sum(values);
    assert Wrap(sum) == sum - Wraps(sum) * TWO_64;
    MulMonotone(0, errorLevel + 1, |values|);
  }

  /** A per-sample bound that excludes overflow. */
  lemma {:induction false} BoundedSamplesDoNotOverflow(values: seq<int>, bound: int)
    requires forall k :: 0 <= k < |values| ==> -bound <= values[k] <= bound
    requires bound >= 0 && |values| * bound < TWO_63
    ensures -(|values| * bound) <= Sum(values) <= |values| * bound
    ensures IsInt64(Sum(values)) && Accumulated(values) == Sum(values)
  {
    if values != [] {
      assert |values| * bound == (|values| - 1) * bound + bound;
      BoundedSamplesDoNotOverflow(values[..|values| - 1], bound);
    }
  }

  function Repeat(v: int, n: nat): (r: seq<int>)
    ensures |r| == n
  {
    seq(n, _ => v)
  }

  lemma {:induction false} SumOfRepeat(v: int, n: nat)
    ensures Sum(Repeat(v, n)) == n * v
  {
    if n > 0 {
      assert Repeat(v, n)[..n - 1] == Repeat(v, n - 1);
      SumOfRepeat(v, n - 1);
      assert n * v == (n - 1) * v + v;
    }
  }

  /** Thirty-two samples of two to the 59th wrap to zero: no level is exceeded. */
  lemma OverflowHidesLatency()
    ensures Sum(Repeat(0x0800_0000_0000_0000, 32)) == TWO_64
    ensures !TooSlow(Repeat(0x0800_0000_0000_0000, 32), 100)
  {
    SumOfRepeat(0x0800_0000_0000_0000, 32);
    AccumulatorIsWrappedSum(Repeat(0x0800_0000_0000_0000, 32));
  }

  // ---------------------------------------------------------------- PerformMetricCheck

  /** The series of every queried entity. */
  type PerfData = seq<seq<seq<int>>>

  ghost predicate AnyTooSlow(entity: seq<seq<int>>, errorLevel: int) {
    exists s :: 0 <= s < |entity| && TooSlow(entity[s], errorLevel)
  }

  method AverageLatency(values: seq<int>) returns (averageLatency: int)
    requires |values| > 0
    ensures averageLatency == TruncatedDiv(Accumulated(values), |values|)
  {
    var latencyAccum := 0;
    for k := 0 to |values|
      invariant latencyAccum == Accumulated(values[..k])
    {
      assert values[..k + 1][..k] == values[..k];
      latencyAccum := Wrap(latencyAccum + values[k]);
    }
    assert values[..|values|] == values;
    averageLatency := TruncatedDiv(latencyAccum, |values|);
  }

  /** The inner break leaves one entity only; the loop over the entities goes on. */
  method HasHighLatency(data: PerfData, errorLevel: int) returns (hasError: bool)
    ensures hasError <==> exists e :: 0 <= e < |data| && AnyTooSlow(data[e], errorLevel)
  {
    hasError := false;
    for e := 0 to |data|
      invariant hasError <==> exists d :: 0 <= d < e && AnyTooSlow(data[d], errorLevel)
    {
      ghost var before := hasError;
      for s := 0 to |data[e]|
        invariant hasError == before
        invariant forall r :: 0 <= r < s ==> !TooSlow(data[e][r], errorLevel)
      {
        if |data[e][s]| < MINIMUM_REQUIRED_SAMPLES { continue; }
        var averageLatency := AverageLatency(data[e][s]);
        if averageLatency > errorLevel {
          assert AnyTooSlow(data[e], errorLevel);
          hasError := true;
          break;
        }
      }
    }
  }

  // ---------------------------------------------------------------- which nodes are checked

  datatype MetricCheck = MetricCheck(errorLevel: int, metricName: string, message: string, checkMasters: bool,
                                     checkWorkers: bool)

  const MASTER_LABEL := "node-role.kubernetes.io/master"
  const WORKER_LABEL := "node-role.kubernetes.io/worker"

  /** The decision of checkNodePerf: the master's flag decides for every master, worker or not. */
  method CheckNodePerf(labels: set<string>, check: MetricCheck) returns (checkPerf: bool)
    ensures checkPerf == if "node-role.kubernetes.io/master" in labels then check.checkMasters
                         else "node-role.kubernetes.io/worker" in labels && check.checkWorkers
  {
    checkPerf := true;
    var isMaster, isWorker := MASTER_LABEL in labels, WORKER_LABEL in labels;
    if isMaster && check.checkMasters == false {
      checkPerf := false;
    } else if isWorker && check.checkWorkers == false {
      if !(isMaster && check.checkMasters) {
        checkPerf := false;
      }
    } else if !isMaster && !isWorker {
      checkPerf := false;
    }
  }

  // ---------------------------------------------------------------- the ids of the metrics

  datatype PerfMetricId = PerfMetricId(counterId: int, instance: string)

  datatype PerfCounter = PerfCounter(key: int, name: string)

  /** What a vCenter answers about a virtual machine's metrics; None where a query fails. */
  datatype Catalog = Catalog(available: Option<seq<PerfMetricId>>, counters: Option<seq<PerfCounter>>)

  function ByCounter(available: seq<PerfMetricId>): map<int, PerfMetricId> {
    if available == [] then map[]
    else
      var last := available[|available| - 1];
      ByCounter(available[..|available| - 1])[last.counterId := last]
  }

  function ByName(counters: seq<PerfCounter>, ids: map<int, PerfMetricId>): map<string, PerfMetricId> {
    if counters == [] then map[]
    else
      var last := counters[|counters| - 1];
      var earlier := ByName(counters[..|counters| - 1], ids);
      if last.key in ids then earlier[last.name := ids[last.key]] else earlier
  }

  /** None when a query fails. */
  function MetricIds(c: Catalog): Option<map<string, PerfMetricId>> {
    if c.available.None? || c.counters.None? then None
    else Some(ByName(c.counters.value, ByCounter(c.available.value)))
  }

  function Remembered(ids: map<string, PerfMetricId>, c: Catalog): map<string, PerfMetricId> {
    if ids != map[] || MetricIds(c).None? then ids else MetricIds(c).value
  }

  /** The process-wide map of metric ids. */
  class PerfMetricIDs {
    var perfMetricIDMap: map<string, PerfMetricId>

    constructor ()
      ensures perfMetricIDMap == map[]
    {
      perfMetricIDMap := map[];
    }

    method BuildCounterIdMap(c: Catalog) returns (ok: bool)
      modifies this
      ensures perfMetricIDMap == Remembered(old(perfMetricIDMap), c)
      ensures ok <==> old(perfMetricIDMap) != map[] || MetricIds(c).Some?
    {
      if perfMetricIDMap != map[] { return true; }
      if c.available.None? { return false; }
      var available, ids := c.available.value, map[];
      for k := 0 to |available|
        invariant perfMetricIDMap == map[]
        invariant ids == ByCounter(available[..k])
      {
        assert available[..k + 1][..k] == available[..k];
        ids := ids[available[k].counterId := available[k]];
      }
      assert available[..|available|] == available;
      if c.counters.None? { return false; }
      var counters := c.counters.value;
      for k := 0 to |counters|
        invariant perfMetricIDMap == ByName(counters[..k], ids)
      {
        assert counters[..k + 1][..k] == counters[..k];
        if counters[k].key !in ids { continue; }
        perfMetricIDMap := perfMetricIDMap[counters[k].name := ids[counters[k].key]];
      }
      assert counters[..|counters|] == counters;
      ok := true;
    }

    method GetPerfMetric(c: Catalog, metricName: string) returns (id: Option<PerfMetricId>)
      modifies this
      ensures perfMetricIDMap == Remembered(old(perfMetricIDMap), c)
      ensures id == if metricName in perfMetricIDMap && (old(perfMetricIDMap) != map[] || MetricIds(c).Some?)
                    then Some(perfMetricIDMap[metricName]) else None
    {
      var ok := BuildCounterIdMap(c);
      if !ok { return None; }
      id := if metricName in perfMetricIDMap then Some(perfMetricIDMap[metricName]) else None;
    }
  }

  function AfterCatalogs(catalogs: seq<Catalog>): map<string, PerfMetricId> {
    if catalogs == [] then map[] else Remembered(AfterCatalogs(catalogs[..|catalogs| - 1]), catalogs[|catalogs| - 1])
  }

  predicate Teaches(c: Catalog) {
    MetricIds(c).Some? && MetricIds(c).value != map[]
  }

  /** Whatever vCenters are asked, the ids in use are for ever those of the first that names a metric. */
  lemma {:induction false} FirstVCenterDecidesIds(catalogs: seq<Catalog>, first: nat)
    requires first < |catalogs| && Teaches(catalogs[first])
    requires forall k :: 0 <= k < first ==> !Teaches(catalogs[k])
    ensures AfterCatalogs(catalogs) == MetricIds(catalogs[first]).value
  {
    var init := catalogs[..|catalogs| - 1];
    if first < |init| {
      FirstVCenterDecidesIds(init, first);
    } else {
      NothingLearned(init);
    }
  }

  // ---------------------------------------------------------------- when a vCenter is asked for its own id

  /** Metric `m` is the last of the available ones with this counter id. */
  ghost predicate IsLastId(available: seq<PerfMetricId>, m: nat, key: int) {
    && m < |available| && available[m].counterId == key
    && forall j :: m < j < |available| ==> available[j].counterId != key
  }

  lemma {:induction false} ByCounterAt(available: seq<PerfMetricId>, key: int, m: nat)
    ensures key in ByCounter(available) <==> exists j :: 0 <= j < |available| && available[j].counterId == key
    ensures IsLastId(available, m, key) ==> key in ByCounter(available) && ByCounter(available)[key] == available[m]
  {
    if available != [] {
      var n := |available| - 1;
      ByCounterAt(available[..n], key, m);
      if m < n && IsLastId(available, m, key) { assert IsLastId(available[..n], m, key); }
      if j :| 0 <= j < |available| && available[j].counterId == key {
        if j < n { assert available[..n][j].counterId == key; }
      }
    }
  }

  /** Counter `k` is the last one with this name whose key is available. */
  ghost predicate IsLastCounter(counters: seq<PerfCounter>, available: seq<PerfMetricId>, k: nat, name: string) {
    && k < |counters| && counters[k].name == name && IsAvailable(available, counters[k].key)
    && forall j :: k < j < |counters| && counters[j].name == name ==> !IsAvailable(available, counters[j].key)
  }

  ghost predicate IsAvailable(available: seq<PerfMetricId>, key: int) {
    exists j :: 0 <= j < |available| && available[j].counterId == key
  }

  lemma {:induction false} ByNameAt(counters: seq<PerfCounter>, available: seq<PerfMetricId>, name: string, k: nat,
                                    m: nat)
    ensures var ids := ByName(counters, ByCounter(available));
      && (name in ids <==> exists j :: 0 <= j < |counters| && counters[j].name == name
                                       && IsAvailable(available, counters[j].key))
      && (IsLastCounter(counters, available, k, name) && IsLastId(available, m, counters[k].key) ==>
            name in ids && ids[name] == available[m])
  {
    if counters != [] {
      var n := |counters| - 1;
      var init := counters[..n];
      ByNameAt(init, available, name, k, m);
      ByCounterAt(available, counters[n].key, m);
      if k < n && IsLastCounter(counters, available, k, name) { assert IsLastCounter(init, available, k, name); }
      if j :| 0 <= j < |counters| && counters[j].name == name && IsAvailable(available, counters[j].key) {
        if j < n { assert init[j].name == name; }
      }
    }
  }

  /** The id that a vCenter's answers give a metric: that of the last counter with the name whose key is available, as
      the last available metric with the key has it; and none if there is no such counter. */
  lemma LearnedId(c: Catalog, name: string, k: nat, m: nat)
    requires c.available.Some? && c.counters.Some?
    ensures MetricIds(c).Some?
    ensures IsLastCounter(c.counters.value, c.available.value, k, name)
            && IsLastId(c.available.value, m, c.counters.value[k].key) ==>
      name in MetricIds(c).value && MetricIds(c).value[name] == c.available.value[m]
    ensures name in MetricIds(c).value <==>
      exists j :: 0 <= j < |c.counters.value| && c.counters.value[j].name == name
                  && IsAvailable(c.available.value, c.counters.value[j].key)
  {
    ByNameAt(c.counters.value, c.available.value, name, k, m);
  }

  function IdIn(ids: map<string, PerfMetricId>, name: string): Option<PerfMetricId> {
    if name in ids then Some(ids[name]) else None
  }

  /** The id that a vCenter itself has for a metric, if it has one. */
  function OwnId(c: Catalog, name: string): Option<PerfMetricId> {
    if MetricIds(c).Some? then IdIn(MetricIds(c).value, name) else None
  }

  /** The id that is in use for vCenter `k` when it is asked after those before it. */
  function IdInUse(catalogs: seq<Catalog>, k: nat, name: string): Option<PerfMetricId>
    requires k < |catalogs|
  {
    IdIn(AfterCatalogs(catalogs[..k + 1]), name)
  }

  /** The first vCenter of a list that teaches, if any does. */
  function FirstTeacher(catalogs: seq<Catalog>): (r: Option<nat>)
    ensures r.Some? ==> r.value < |catalogs| && Teaches(catalogs[r.value])
    ensures r.Some? ==> forall j :: 0 <= j < r.value ==> !Teaches(catalogs[j])
    ensures r.None? ==> forall j :: 0 <= j < |catalogs| ==> !Teaches(catalogs[j])
  {
    if catalogs == [] then None
    else
      var n := |catalogs| - 1;
      var earlier := FirstTeacher(catalogs[..n]);
      if earlier.Some? then earlier else if Teaches(catalogs[n]) then Some(n) else None
  }

  /** The ids in use are those of the first teacher. */
  lemma IdsOfFirstTeacher(catalogs: seq<Catalog>, name: string)
    ensures IdIn(AfterCatalogs(catalogs), name)
         == if FirstTeacher(catalogs).Some? then OwnId(catalogs[FirstTeacher(catalogs).value], name) else None
  {
    if FirstTeacher(catalogs).Some? {
      FirstVCenterDecidesIds(catalogs, FirstTeacher(catalogs).value);
    } else {
      NothingLearned(catalogs);
    }
  }

  /** One vCenter, whether it teaches or answers with an empty list, is asked for its own id exactly when the first
      teacher up to it has the same. */
  lemma AskedForOwnIdExactlyWhen(catalogs: seq<Catalog>, k: nat, name: string)
    requires k < |catalogs|
    ensures var first := FirstTeacher(catalogs[..k + 1]);
      IdInUse(catalogs, k, name) == OwnId(catalogs[k], name) <==>
      first.None? || OwnId(catalogs[first.value], name) == OwnId(catalogs[k], name)
  {
    var upTo := catalogs[..k + 1];
    IdsOfFirstTeacher(upTo, name);
    if FirstTeacher(upTo).None? {
      assert upTo[k] == catalogs[k] && !Teaches(catalogs[k]);
    }
  }

  ghost predicate AllAskedForOwnId(catalogs: seq<Catalog>, name: string) {
    forall k :: 0 <= k < |catalogs| && Teaches(catalogs[k]) ==> IdInUse(catalogs, k, name) == OwnId(catalogs[k], name)
  }

  /** All vCenters that teach have the same id for the metric, or none has one. */
  ghost predicate TeachersAgree(catalogs: seq<Catalog>, name: string) {
    forall j, k :: 0 <= j < |catalogs| && 0 <= k < |catalogs| && Teaches(catalogs[j]) && Teaches(catalogs[k]) ==>
      OwnId(catalogs[j], name) == OwnId(catalogs[k], name)
  }

  /** Every vCenter that teaches is asked for its own id exactly when all of them agree on the metric. */
  lemma AllAskedForOwnIdExactlyWhenAgree(catalogs: seq<Catalog>, name: string)
    ensures AllAskedForOwnId(catalogs, name) <==> TeachersAgree(catalogs, name)
  {
    forall k | 0 <= k < |catalogs| && Teaches(catalogs[k])
      ensures FirstTeacher(catalogs).Some?
      ensures IdInUse(catalogs, k, name) == OwnId(catalogs[FirstTeacher(catalogs).value], name)
    {
      IdsOfFirstTeacher(catalogs[..k + 1], name);
      SameFirstTeacher(catalogs, k);
    }
  }

  lemma {:induction false} SameFirstTeacher(catalogs: seq<Catalog>, k: nat)
    requires k < |catalogs| && Teaches(catalogs[k])
    ensures FirstTeacher(catalogs[..k + 1]).Some? && FirstTeacher(catalogs) == FirstTeacher(catalogs[..k + 1])
    decreases |catalogs|
  {
    var n := |catalogs| - 1;
    if k == n {
      assert catalogs[..k + 1] == catalogs;
      assert FirstTeacher(catalogs).Some?;
    } else {
      assert catalogs[..n][..k + 1] == catalogs[..k + 1];
      SameFirstTeacher(catalogs[..n], k);
    }
  }

  // ---------------------------------------------------------------- the order of the calls

  /** Whatever the order of the calls, the same id is in use for the metric at the end. */
  ghost predicate OrderDoesNotMatter(catalogs: seq<Catalog>, name: string) {
    forall order :: multiset(order) == multiset(catalogs) ==>
      IdIn(AfterCatalogs(order), name) == IdIn(AfterCatalogs(catalogs), name)
  }

  lemma TeacherInOrder(catalogs: seq<Catalog>, order: seq<Catalog>, name: string)
    requires multiset(order) == multiset(catalogs) && TeachersAgree(catalogs, name)
    ensures IdIn(AfterCatalogs(order), name) == IdIn(AfterCatalogs(catalogs), name)
  {
    IdsOfFirstTeacher(catalogs, name);
    IdsOfFirstTeacher(order, name);
    assert forall x :: x in order <==> x in multiset(order);
    assert forall x :: x in catalogs <==> x in multiset(catalogs);
    if FirstTeacher(order).Some? {
      assert order[FirstTeacher(order).value] in catalogs;
    }
    if FirstTeacher(catalogs).Some? {
      assert catalogs[FirstTeacher(catalogs).value] in order;
    }
  }

  /** Teacher `k` put in front. */
  function WithFirst(catalogs: seq<Catalog>, k: nat): seq<Catalog>
    requires k < |catalogs|
  {
    [catalogs[k]] + catalogs[..k] + catalogs[k + 1..]
  }

  lemma TeacherInFront(catalogs: seq<Catalog>, k: nat, name: string)
    requires k < |catalogs| && Teaches(catalogs[k])
    ensures multiset(WithFirst(catalogs, k)) == multiset(catalogs)
    ensures IdIn(AfterCatalogs(WithFirst(catalogs, k)), name) == OwnId(catalogs[k], name)
  {
    assert catalogs == catalogs[..k] + [catalogs[k]] + catalogs[k + 1..];
    FirstVCenterDecidesIds(WithFirst(catalogs, k), 0);
  }

  /** Which id is in use does not depend on the order of the calls exactly when all teachers agree. */
  lemma OrderDoesNotMatterExactlyWhenAgree(catalogs: seq<Catalog>, name: string)
    ensures OrderDoesNotMatter(catalogs, name) <==> TeachersAgree(catalogs, name)
  {
    if TeachersAgree(catalogs, name) {
      forall order | multiset(order) == multiset(catalogs)
        ensures IdIn(AfterCatalogs(order), name) == IdIn(AfterCatalogs(catalogs), name)
      {
        TeacherInOrder(catalogs, order, name);
      }
    } else {
      var j, k :| 0 <= j < |catalogs| && 0 <= k < |catalogs| && Teaches(catalogs[j]) && Teaches(catalogs[k])
                  && OwnId(catalogs[j], name) != OwnId(catalogs[k], name);
      TeacherInFront(catalogs, j, name);
      TeacherInFront(catalogs, k, name);
    }
  }

  // ---------------------------------------------------------------- two vCenters

  function OneMetric(id: int, name: string): Catalog {
    Catalog(Some([PerfMetricId(id, "")]), Some([PerfCounter(id, name)]))
  }

  lemma IdsOfOneMetric(id: int, name: string)
    ensures MetricIds(OneMetric(id, name)) == Some(map[name := PerfMetricId(id, "")])
  {
    var available, counters := [PerfMetricId(id, "")], [PerfCounter(id, name)];
    assert available[..0] == [] && counters[..0] == [];
    assert ByCounter(available) == map[id := available[0]];
    assert ByName(counters, ByCounter(available)) == map[name := available[0]];
  }

  /** Two vCenters that number the same metric differently: the second is asked for the first one's id. */
  lemma SecondVCenterIsAskedForForeignId(a: int, b: int, name: string)
    requires a != b
    ensures MetricIds(OneMetric(b, name)) == Some(map[name := PerfMetricId(b, "")])
    ensures AfterCatalogs([OneMetric(a, name), OneMetric(b, name)]) == map[name := PerfMetricId(a, "")]
    ensures !TeachersAgree([OneMetric(a, name), OneMetric(b, name)], name)
    ensures !AllAskedForOwnId([OneMetric(a, name), OneMetric(b, name)], name)
  {
    IdsOfOneMetric(a, name);
    IdsOfOneMetric(b, name);
    var catalogs := [OneMetric(a, name), OneMetric(b, name)];
    assert name in MetricIds(catalogs[0]).value && name in MetricIds(catalogs[1]).value;
    FirstVCenterDecidesIds(catalogs, 0);
    AllAskedForOwnIdExactlyWhenAgree(catalogs, name);
  }

  lemma {:induction false} NothingLearned(catalogs: seq<Catalog>)
    requires forall k :: 0 <= k < |catalogs| ==> !Teaches(catalogs[k])
    ensures AfterCatalogs(catalogs) == map[]
  {
    if catalogs != [] { NothingLearned(catalogs[..|catalogs| - 1]); }
  }

  // ---------------------------------------------------------------- the check of a node

  datatype Outcome = Passed | VCenterUnknown | Failed(message: string)

  /** `vcenterKnown` says whether GetVCenter succeeds; `data` is None when the query fails. */
  method PerformMetricCheck(ids: PerfMetricIDs, labels: set<string>, check: MetricCheck, vcenterKnown: bool,
                            catalog: Catalog, data: Option<PerfData>) returns (r: Outcome)
    modifies ids
    ensures var checked := if MASTER_LABEL in labels then check.checkMasters
      else WORKER_LABEL in labels && check.checkWorkers;
            var metric := (old(ids.perfMetricIDMap) != map[] || MetricIds(catalog).Some?) &&
              check.metricName in ids.perfMetricIDMap;
            && (r == VCenterUnknown <==> checked && !vcenterKnown)
            && (r == Failed(check.message) <==>
                  checked && vcenterKnown && metric && data.Some?
                  && exists e :: 0 <= e < |data.value| && AnyTooSlow(data.value[e], check.errorLevel))
            && (r.Failed? ==> r.message == check.message)
            && ids.perfMetricIDMap == if checked && vcenterKnown then Remembered(old(ids.perfMetricIDMap), catalog)
                                      else old(ids.perfMetricIDMap)
  {
    var checked := CheckNodePerf(labels, check);
    if !checked { return Passed; }
    if !vcenterKnown { return VCenterUnknown; }
    var id := ids.GetPerfMetric(catalog, check.metricName);
    if id.None? { return Passed; }
    if data.None? { return Passed; }
    var hasError := HasHighLatency(data.value, check.errorLevel);
    r := if hasError then Failed(check.message) else Passed;
  }
}
