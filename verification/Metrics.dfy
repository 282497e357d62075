/** The histograms of app/api/metrics.py: recording, and the export that adds them up again. */
module Metrics {

  /** The observations that a bucket with this bound should hold. */
  function AtMost(durations: seq<real>, bound: real): nat {
    if durations == [] then 0
    else AtMost(durations[..|durations| - 1], bound) + if durations[|durations| - 1] <= bound then 1 else 0
  }

  predicate Ascending(bounds: seq<real>) {
    forall i, j | 0 <= i < j < |bounds| :: bounds[i] < bounds[j]
  }

  lemma AtMostSnoc(durations: seq<real>, d: real, bound: real)
    ensures AtMost(durations + [d], bound) == AtMost(durations, bound) + if d <= bound then 1 else 0
  {
    assert (durations + [d])[..|durations|] == durations;
  }

  /** It counts the observations at or below the bound. */
  lemma {:induction false} AtMostCounts(durations: seq<real>, bound: real)
    ensures AtMost(durations, bound) == |set i | 0 <= i < |durations| && durations[i] <= bound|
  {
    if durations != [] {
      var n := |durations| - 1;
      AtMostCounts(durations[..n], bound);
      var before := set i | 0 <= i < |durations[..n]| && durations[..n][i] <= bound;
      assert (set i | 0 <= i < |durations| && durations[i] <= bound)
          == if durations[n] <= bound then before + {n} else before;
    }
  }

  lemma {:induction false} AtMostIsMonotone(durations: seq<real>, low: real, high: real)
    requires low <= high
    ensures AtMost(durations, low) <= AtMost(durations, high) <= |durations|
  {
    if durations != [] {
      AtMostIsMonotone(durations[..|durations| - 1], low, high);
    }
  }

  // ---------- recording ----------

  /** Every bound has its bucket. */
  predicate Covers(bounds: seq<real>, histogram: map<real, nat>) {
    forall i | 0 <= i < |bounds| :: bounds[i] in histogram
  }

  /** Each stored bucket counts the observations at or below its bound. */
  ghost predicate Faithful(bounds: seq<real>, histogram: map<real, nat>, durations: seq<real>) {
    && Covers(bounds, histogram)
    && forall i | 0 <= i < |bounds| :: histogram[bounds[i]] == AtMost(durations, bounds[i])
  }

  /** The loop over all buckets: every bucket that can hold the observation gets it. */
  method Observe(bounds: seq<real>, histogram: map<real, nat>, d: real, ghost durations: seq<real>)
    returns (updated: map<real, nat>)
    requires Ascending(bounds) && Faithful(bounds, histogram, durations)
    ensures Faithful(bounds, updated, durations + [d])
  {
    updated := histogram;
    for i := 0 to |bounds|
      invariant updated.Keys == histogram.Keys
      invariant forall j | 0 <= j < i :: updated[bounds[j]] == AtMost(durations + [d], bounds[j])
      invariant forall j | i <= j < |bounds| :: updated[bounds[j]] == histogram[bounds[j]]
    {
      AtMostSnoc(durations, d, bounds[i]);
      if d <= bounds[i] {
        updated := updated[bounds[i] := updated[bounds[i]] + 1];
      }
    }
  }

  /** Stored buckets are monotone and never exceed the number of observations. */
  lemma StoredBucketsAreCumulative(bounds: seq<real>, histogram: map<real, nat>, durations: seq<real>, i: nat, j: nat)
    requires Ascending(bounds) && Faithful(bounds, histogram, durations) && i <= j < |bounds|
    ensures histogram[bounds[i]] <= histogram[bounds[j]] <= |durations|
  {
    AtMostIsMonotone(durations, bounds[i], bounds[j]);
  }

  // ---------- export ----------

  function SumTo(bounds: seq<real>, histogram: map<real, nat>, k: nat): nat
    requires k <= |bounds| && Covers(bounds, histogram)
  {
    if k == 0 then 0 else SumTo(bounds, histogram, k - 1) + histogram[bounds[k - 1]]
  }

  /** The export's running total: bucket `k` shows the sum of stored buckets 0 to k. */
  method Export(bounds: seq<real>, histogram: map<real, nat>) returns (lines: seq<nat>)
    requires Covers(bounds, histogram)
    ensures |lines| == |bounds|
    ensures forall k | 0 <= k < |lines| :: lines[k] == SumTo(bounds, histogram, k + 1)
  {
    lines := [];
    var cumulative := 0;
    for i := 0 to |bounds|
      invariant |lines| == i && cumulative == SumTo(bounds, histogram, i)
      invariant forall k | 0 <= k < i :: lines[k] == SumTo(bounds, histogram, k + 1)
    {
      cumulative := cumulative + histogram[bounds[i]];
      lines := lines + [cumulative];
    }
  }

  lemma {:induction false} SumIsZeroIffAllAre(bounds: seq<real>, histogram: map<real, nat>, k: nat)
    requires k <= |bounds| && Covers(bounds, histogram)
    ensures SumTo(bounds, histogram, k) == 0 <==> forall i | 0 <= i < k :: histogram[bounds[i]] == 0
  {
    if k > 0 {
      SumIsZeroIffAllAre(bounds, histogram, k - 1);
    }
  }

  /** No observation is small enough for a bucket before `k`. */
  predicate EmptyBelow(bounds: seq<real>, durations: seq<real>, k: nat)
    requires k <= |bounds|
  {
    forall i | 0 <= i < k :: AtMost(durations, bounds[i]) == 0
  }

  /**
   The text format asks for the number of observations at or below the bound. The exported line is
   that number exactly when every earlier stored bucket is empty: the stored ones are cumulative.
   */
  lemma ExportedBucketIsRightIffEarlierAreEmpty(bounds: seq<real>, histogram: map<real, nat>, durations: seq<real>,
                                                k: nat)
    requires Faithful(bounds, histogram, durations) && k < |bounds|
    ensures SumTo(bounds, histogram, k + 1) == AtMost(durations, bounds[k]) <==> EmptyBelow(bounds, durations, k)
  {
    SumIsZeroIffAllAre(bounds, histogram, k);
  }

  /** The whole export is right exactly when nothing was as fast as the last bucket but one. */
  lemma ExportIsRightIffOnlyLastBucketFills(bounds: seq<real>, histogram: map<real, nat>, durations: seq<real>)
    requires Ascending(bounds) && Faithful(bounds, histogram, durations) && |bounds| >= 2
    ensures (forall k | 0 <= k < |bounds| :: SumTo(bounds, histogram, k + 1) == AtMost(durations, bounds[k]))
            <==> AtMost(durations, bounds[|bounds| - 2]) == 0
  {
    var n := |bounds| - 1;
    forall k | 0 <= k < |bounds|
      ensures SumTo(bounds, histogram, k + 1) == AtMost(durations, bounds[k]) <==> EmptyBelow(bounds, durations, k)
    {
      ExportedBucketIsRightIffEarlierAreEmpty(bounds, histogram, durations, k);
    }
    forall i | 0 <= i < n
      ensures AtMost(durations, bounds[i]) <= AtMost(durations, bounds[n - 1])
    {
      AtMostIsMonotone(durations, bounds[i], bounds[n - 1]);
    }
    if forall k | 0 <= k < |bounds| :: SumTo(bounds, histogram, k + 1) == AtMost(durations, bounds[k]) {
      assert SumTo(bounds, histogram, n + 1) == AtMost(durations, bounds[n]);
    }
  }

  function Total(durations: seq<real>): real {
    if durations == [] then 0.0 else Total(durations[..|durations| - 1]) + durations[|durations| - 1]
  }

  /** How many requests ended with the status. */
  function WithStatus(statuses: seq<int>, status: int): nat {
    if statuses == [] then 0
    else WithStatus(statuses[..|statuses| - 1], status) + if statuses[|statuses| - 1] == status then 1 else 0
  }

  lemma {:induction false} WithStatusCounts(statuses: seq<int>, status: int)
    ensures WithStatus(statuses, status) == |set i | 0 <= i < |statuses| && statuses[i] == status|
  {
    if statuses != [] {
      var n := |statuses| - 1;
      WithStatusCounts(statuses[..n], status);
      var before := set i | 0 <= i < |statuses[..n]| && statuses[..n][i] == status;
      assert (set i | 0 <= i < |statuses| && statuses[i] == status)
          == if statuses[n] == status then before + {n} else before;
    }
  }

  function CountOf(byStatus: map<int, nat>, status: int): nat {
    if status in byStatus then byStatus[status] else 0
  }

  /** A status is listed, with the right count, exactly when some request ended with it. */
  ghost predicate Tallied(byStatus: map<int, nat>, statuses: seq<int>) {
    forall s :: CountOf(byStatus, s) == WithStatus(statuses, s) && (s in byStatus <==> WithStatus(statuses, s) > 0)
  }

  lemma CountStatus(byStatus: map<int, nat>, statuses: seq<int>, status: int)
    requires Tallied(byStatus, statuses)
    ensures Tallied(byStatus[status := CountOf(byStatus, status) + 1], statuses + [status])
  {
    assert (statuses + [status])[..|statuses|] == statuses;
    forall s
      ensures WithStatus(statuses + [status], s) == WithStatus(statuses, s) + if s == status then 1 else 0
    {
    }
  }

  lemma TotalSnoc(durations: seq<real>, d: real)
    ensures Total(durations + [d]) == Total(durations) + d
  {
    assert (durations + [d])[..|durations|] == durations;
  }

  /** The store; the two ghost lists record everything it was told. */
  class MetricsStore {
    const httpLatencyBuckets: seq<real>
    const llmGenerationBuckets: seq<real>
    var httpRequestsTotal: nat
    var httpRequestsByStatus: map<int, nat>
    var httpLatencySum: real
    var httpLatencyCount: nat
    var httpLatencyHistogram: map<real, nat>
    var llmGenerationTotal: nat
    var llmGenerationSum: real
    var llmGenerationCount: nat
    var llmGenerationHistogram: map<real, nat>
    ghost var statuses: seq<int>
    ghost var latencies: seq<real>
    ghost var generations: seq<real>

    ghost predicate Valid()
      reads this
    {
      && |statuses| == |latencies| == httpRequestsTotal == httpLatencyCount
      && httpLatencySum == Total(latencies)
      && Ascending(httpLatencyBuckets) && Faithful(httpLatencyBuckets, httpLatencyHistogram, latencies)
      && Tallied(httpRequestsByStatus, statuses)
      && |generations| == llmGenerationTotal == llmGenerationCount
      && llmGenerationSum == Total(generations)
      && Ascending(llmGenerationBuckets) && Faithful(llmGenerationBuckets, llmGenerationHistogram, generations)
    }

    constructor ()
      ensures Valid() && statuses == [] && latencies == [] && generations == []
      ensures httpLatencyBuckets == [0.01, 0.05, 0.1, 0.5, 1.0, 5.0, 10.0, 30.0]
      ensures llmGenerationBuckets == [1.0, 5.0, 10.0, 20.0, 30.0, 60.0]
    {
      var latencyBuckets, generationBuckets := [0.01, 0.05, 0.1, 0.5, 1.0, 5.0, 10.0, 30.0],
          [1.0, 5.0, 10.0, 20.0, 30.0, 60.0];
      httpLatencyBuckets, llmGenerationBuckets := latencyBuckets, generationBuckets;
      httpRequestsTotal, httpRequestsByStatus, httpLatencySum, httpLatencyCount := 0, map[], 0.0, 0;
      httpLatencyHistogram := map bound | bound in latencyBuckets :: 0;
      llmGenerationTotal, llmGenerationSum, llmGenerationCount := 0, 0.0, 0;
      llmGenerationHistogram := map bound | bound in generationBuckets :: 0;
      statuses, latencies, generations := [], [], [];
    }

    method RecordHttpRequest(status: int, duration: real)
      requires Valid()
      modifies this
      ensures Valid() && statuses == old(statuses) + [status] && latencies == old(latencies) + [duration]
      ensures generations == old(generations)
      ensures httpRequestsTotal == old(httpRequestsTotal) + 1 && httpLatencySum == old(httpLatencySum) + duration
    {
      CountStatus(httpRequestsByStatus, statuses, status);
      TotalSnoc(latencies, duration);
      httpRequestsTotal := httpRequestsTotal + 1;
      httpRequestsByStatus := httpRequestsByStatus[status := CountOf(httpRequestsByStatus, status) + 1];
      httpLatencySum := httpLatencySum + duration;
      httpLatencyCount := httpLatencyCount + 1;
      httpLatencyHistogram := Observe(httpLatencyBuckets, httpLatencyHistogram, duration, latencies);
      statuses, latencies := statuses + [status], latencies + [duration];
    }

    method RecordLlmGeneration(duration: real)
      requires Valid()
      modifies this
      ensures Valid() && generations == old(generations) + [duration]
      ensures statuses == old(statuses) && latencies == old(latencies)
      ensures llmGenerationTotal == old(llmGenerationTotal) + 1
      ensures llmGenerationSum == old(llmGenerationSum) + duration
    {
      TotalSnoc(generations, duration);
      llmGenerationTotal := llmGenerationTotal + 1;
      llmGenerationSum := llmGenerationSum + duration;
      llmGenerationCount := llmGenerationCount + 1;
      llmGenerationHistogram := Observe(llmGenerationBuckets, llmGenerationHistogram, duration, generations);
      generations := generations + [duration];
    }

    /** The bucket lines of the two histograms; each is right exactly as the lemmas above say. */
    method BucketLines() returns (http: seq<nat>, llm: seq<nat>)
      requires Valid()
      ensures |http| == |httpLatencyBuckets| && |llm| == |llmGenerationBuckets|
      ensures forall k | 0 <= k < |http| :: http[k] == SumTo(httpLatencyBuckets, httpLatencyHistogram, k + 1)
      ensures forall k | 0 <= k < |llm| :: llm[k] == SumTo(llmGenerationBuckets, llmGenerationHistogram, k + 1)
      ensures forall k | 0 <= k < |http| ::
        http[k] == AtMost(latencies, httpLatencyBuckets[k]) <==> EmptyBelow(httpLatencyBuckets, latencies, k)
      ensures forall k | 0 <= k < |llm| ::
        llm[k] == AtMost(generations, llmGenerationBuckets[k]) <==> EmptyBelow(llmGenerationBuckets, generations, k)
    {
      http := Export(httpLatencyBuckets, httpLatencyHistogram);
      llm := Export(llmGenerationBuckets, llmGenerationHistogram);
      forall k | 0 <= k < |httpLatencyBuckets| {
        ExportedBucketIsRightIffEarlierAreEmpty(httpLatencyBuckets, httpLatencyHistogram, latencies, k);
      }
      forall k | 0 <= k < |llmGenerationBuckets| {
        ExportedBucketIsRightIffEarlierAreEmpty(llmGenerationBuckets, llmGenerationHistogram, generations, k);
      }
    }
  }
}
