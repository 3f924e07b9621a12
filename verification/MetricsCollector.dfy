/** The double buffer of metrics (pkg/metrics/collector.go). A Go slice is a view of a backing
    array, and after FinishedAllChecks both slices of the collector view the same array. */
module MetricsCollector {

  datatype Metric = Metric(desc: string, count: nat, labels: seq<string>)

  const NO_METRIC := Metric("", 0, [])

  /** The header of a Go slice; the capacity is the length of the array. */
  datatype Slice = Slice(arr: array<Metric>, len: nat)

  ghost predicate WellFormed(s: Slice) {
    s.len <= s.arr.Length
  }

  ghost function View(s: Slice): seq<Metric>
    requires WellFormed(s)
    reads s.arr
  {
    s.arr[..s.len]
  }

  class Collector {
    var currentMetrics: Slice
    var inProgressMetrics: Slice

    /** When the slices share their array, the published one is a prefix of the other. */
    ghost predicate Valid()
      reads this
    {
      && WellFormed(currentMetrics) && WellFormed(inProgressMetrics)
      && (currentMetrics.arr == inProgressMetrics.arr ==> currentMetrics.len <= inProgressMetrics.len)
    }

    ghost function Published(): seq<Metric>
      requires Valid()
      reads this, currentMetrics.arr
    {
      View(currentMetrics)
    }

    ghost function Pending(): seq<Metric>
      requires Valid()
      reads this, inProgressMetrics.arr
    {
      View(inProgressMetrics)
    }

    ghost function Now(): Buffers
      requires Valid()
      reads this, currentMetrics.arr, inProgressMetrics.arr
    {
      Buffers(Published(), Pending())
    }

    constructor ()
      ensures Valid() && Now() == EMPTY
      ensures fresh(currentMetrics.arr) && fresh(inProgressMetrics.arr)
    {
      var a := new Metric[0](_ => NO_METRIC);
      var b := new Metric[0](_ => NO_METRIC);
      currentMetrics, inProgressMetrics := Slice(a, 0), Slice(b, 0);
    }

    /** Go's append: in place while there is capacity, into a larger array otherwise. */
    method AddMetric(m: Metric)
      requires Valid()
      modifies this`inProgressMetrics, inProgressMetrics.arr
      ensures Valid() && Now() == Apply(old(Now()), Add(m))
      ensures inProgressMetrics.arr == old(inProgressMetrics.arr) || fresh(inProgressMetrics.arr)
    {
      var s := inProgressMetrics;
      if s.len < s.arr.Length {
        s.arr[s.len] := m;
        inProgressMetrics := Slice(s.arr, s.len + 1);
      } else {
        var capacity: nat :| capacity > s.len;
        var larger := new Metric[capacity](_ => NO_METRIC);
        for k := 0 to s.len
          invariant larger[..k] == s.arr[..k]
          invariant Valid() && inProgressMetrics == s && Now() == old(Now())
        {
          larger[k] := s.arr[k];
        }
        larger[s.len] := m;
        inProgressMetrics := Slice(larger, s.len + 1);
      }
    }

    method StartMetricCollection()
      requires Valid()
      modifies this`inProgressMetrics
      ensures Valid() && Now() == Apply(old(Now()), Start)
      ensures fresh(inProgressMetrics.arr)
    {
      var empty := new Metric[0](_ => NO_METRIC);
      inProgressMetrics := Slice(empty, 0);
    }

    method FinishedAllChecks()
      requires Valid()
      modifies this`currentMetrics
      ensures Valid() && Now() == Apply(old(Now()), Finish)
      ensures currentMetrics == inProgressMetrics
    {
      currentMetrics := inProgressMetrics;
    }

    method CollectWithStability() returns (sent: seq<Metric>)
      requires Valid()
      ensures sent == Published()
    {
      sent := [];
      for k := 0 to currentMetrics.len
        invariant sent == currentMetrics.arr[..k]
      {
        sent := sent + [currentMetrics.arr[k]];
      }
    }
  }

  // ---------------------------------------------------------------- histories

  datatype Buffers = Buffers(published: seq<Metric>, pending: seq<Metric>)

  datatype Call = Start | Add(metric: Metric) | Finish

  const EMPTY := Buffers([], [])

  function Apply(b: Buffers, c: Call): Buffers {
    match c
    case Start => b.(pending := [])
    case Add(m) => b.(pending := b.pending + [m])
    case Finish => b.(published := b.pending)
  }

  function After(calls: seq<Call>): Buffers {
    if calls == [] then EMPTY else Apply(After(calls[..|calls| - 1]), calls[|calls| - 1])
  }

  /** The metrics added by a stretch of calls. */
  function Added(calls: seq<Call>): seq<Metric> {
    if calls == [] then []
    else
      var last := calls[|calls| - 1];
      Added(calls[..|calls| - 1]) + if last.Add? then [last.metric] else []
  }

  /** The calls since the last StartMetricCollection, all calls if there is none. */
  function SinceStart(calls: seq<Call>): seq<Call> {
    if calls == [] || calls[|calls| - 1].Start? then []
    else SinceStart(calls[..|calls| - 1]) + [calls[|calls| - 1]]
  }

  /** The calls before the last FinishedAllChecks. */
  function BeforeFinish(calls: seq<Call>): seq<Call> {
    if calls == [] then []
    else if calls[|calls| - 1].Finish? then calls[..|calls| - 1]
    else BeforeFinish(calls[..|calls| - 1])
  }

  lemma {:induction false} PendingIsAdded(calls: seq<Call>)
    ensures After(calls).pending == Added(SinceStart(calls))
  {
    if calls != [] {
      var init, last := calls[..|calls| - 1], calls[|calls| - 1];
      PendingIsAdded(init);
      if !last.Start? { assert SinceStart(calls)[..|SinceStart(init)|] == SinceStart(init); }
    }
  }

  /** What is published is exactly what was added between the last FinishedAllChecks and the
      StartMetricCollection before it: metrics of one round, whatever has been added since. */
  lemma {:induction false} PublishedIsOneRound(calls: seq<Call>)
    ensures After(calls).published == Added(SinceStart(BeforeFinish(calls)))
  {
    if calls != [] {
      var init := calls[..|calls| - 1];
      PublishedIsOneRound(init);
      PendingIsAdded(init);
    }
  }

  lemma {:induction false} AfterConcat(calls: seq<Call>, more: seq<Call>)
    requires Finish !in more
    ensures After(calls + more).published == After(calls).published
  {
    if more == [] {
      assert calls + more == calls;
    } else {
      var init := more[..|more| - 1];
      assert (calls + more)[..|calls + more| - 1] == calls + init;
      AfterConcat(calls, init);
      assert more[|more| - 1] in more;
    }
  }

  lemma {:induction false} SinceStartOfRound(before: seq<Call>, adds: seq<Call>)
    requires Start !in adds
    ensures SinceStart(before + [Start] + adds) == adds
  {
    var calls := before + [Start] + adds;
    if adds != [] {
      var init := adds[..|adds| - 1];
      assert calls[..|calls| - 1] == before + [Start] + init;
      SinceStartOfRound(before, init);
      assert adds[|adds| - 1] in adds;
    }
  }

  /** A round that publishes makes exactly its own metrics visible, after any history. */
  lemma RoundPublishesItsOwn(before: seq<Call>, adds: seq<Call>, later: seq<Call>)
    requires Start !in adds && Finish !in later
    ensures After(before + [Start] + adds + [Finish] + later).published == Added(adds)
  {
    var round := before + [Start] + adds;
    AfterConcat(round + [Finish], later);
    assert (round + [Finish])[..|round|] == round;
    PendingIsAdded(round);
    SinceStartOfRound(before, adds);
  }
}
