/** Turning the sample stream of a load run into totals, buckets and percentiles. */
module LoadSummary {
  import opened Wrappers
  import opened RealSort
  import opened Percentiles
  import opened LoadRun
  import opened LoadTasks
  import opened LoadRunner

  predicate Success(s: Sample) {
    s.error == None && 200 <= s.status < 400
  }

  /** The error label, or the status code as text. */
  function Label(s: Sample): string {
    if s.error.Some? then s.error.value
    else if s.status < 0 then "-" + Numeral(-s.status) else Numeral(s.status)
  }

  // ----- what should be counted -----

  /** A sample that counts as failed: it has an error, or its status is neither a success nor a redirection. */
  predicate Fails(s: Sample) {
    s.error.Some? || s.status < 200 || s.status >= 400
  }

  /** ... and under which label: the error, or the status in decimal. */
  predicate FailsAs(s: Sample, kind: string) {
    Fails(s)
    && if s.error.Some? then s.error.value == kind
       else (s.status >= 0 && kind == Numeral(s.status)) || (s.status < 0 && kind == "-" + Numeral(-s.status))
  }

  function Failures(samples: seq<Filed>): nat {
    if samples == [] then 0 else Failures(samples[..|samples| - 1]) + if Fails(samples[|samples| - 1].1) then 1 else 0
  }

  function DurationsAt(samples: seq<Filed>, t: nat): seq<real> {
    if samples == [] then []
    else
      var (b, s) := samples[|samples| - 1];
      DurationsAt(samples[..|samples| - 1], t) + if b == t then [s.ms] else []
  }

  function FailuresAt(samples: seq<Filed>, t: nat): nat {
    if samples == [] then 0
    else
      var (b, s) := samples[|samples| - 1];
      FailuresAt(samples[..|samples| - 1], t) + if b == t && Fails(s) then 1 else 0
  }

  function FailuresWith(samples: seq<Filed>, kind: string): nat {
    if samples == [] then 0
    else
      var s := samples[|samples| - 1].1;
      FailuresWith(samples[..|samples| - 1], kind) + if FailsAs(s, kind) then 1 else 0
  }

  function Durations(samples: seq<Filed>): seq<real> {
    if samples == [] then [] else Durations(samples[..|samples| - 1]) + [samples[|samples| - 1].1.ms]
  }

  // ----- sums over a map -----

  ghost function SomeKey(m: map<string, nat>): string
    requires m != map[]
  {
    var k :| k in m; k
  }

  ghost function Sum(m: map<string, nat>): nat
    decreases |m|
  {
    if m == map[] then 0 else m[SomeKey(m)] + Sum(m - {SomeKey(m)})
  }

  lemma {:induction false} SumSplit(m: map<string, nat>, k: string)
    requires k in m
    ensures Sum(m) == m[k] + Sum(m - {k})
    decreases |m|
  {
    var j := SomeKey(m);
    if j != k {
      SumSplit(m - {j}, k);
      SumSplit(m - {k}, j);
      assert m - {j} - {k} == m - {k} - {j};
    }
  }

  lemma SumAdds(m: map<string, nat>, k: string)
    ensures Sum(m[k := OfKind(m, k) + 1]) == Sum(m) + 1
  {
    var m' := m[k := OfKind(m, k) + 1];
    SumSplit(m', k);
    assert m' - {k} == m - {k};
    if k in m { SumSplit(m, k); } else { assert m - {k} == m; }
  }

  // ----- the summary -----

  datatype Latency = Latency(p50: real, p95: real, p99: real, max: real)

  function LatencyOf(durations: seq<real>): Latency {
    Latency(Percentile(durations, 0.5), Percentile(durations, 0.95), Percentile(durations, 0.99),
            if durations == [] then 0.0 else Largest(durations))
  }

  lemma LatencyOrdered(durations: seq<real>)
    requires durations != []
    ensures var l := LatencyOf(durations); l.p50 <= l.p95 <= l.p99 <= l.max
  {
    PercentileBounds(durations, 0.5);
  }

  datatype Bucket = Bucket(t: nat, observed: nat, latency: Latency, errors: nat)

  datatype Summary = Summary(total: nat, successful: nat, failed: nat, errorsByType: map<string, nat>,
                             latency: Latency, buckets: seq<Bucket>)

  datatype Tally = Tally(successful: nat, failed: nat, errorsByType: map<string, nat>, durations: seq<real>,
                         bucketed: map<nat, seq<real>>, bucketedErrors: map<nat, nat>)

  function At<T>(m: map<nat, T>, t: nat, default_: T): T {
    if t in m then m[t] else default_
  }

  function OfKind(m: map<string, nat>, kind: string): nat {
    if kind in m then m[kind] else 0
  }

  /** The tally after these samples. */
  ghost predicate Counts(y: Tally, samples: seq<Filed>) {
    && y.successful + y.failed == |samples|
    && y.failed == Failures(samples) == Sum(y.errorsByType)
    && (forall kind: string :: OfKind(y.errorsByType, kind) == FailuresWith(samples, kind))
    && y.durations == Durations(samples)
    && (forall t: nat :: At(y.bucketed, t, []) == DurationsAt(samples, t))
    && (forall t: nat :: At(y.bucketedErrors, t, 0) == FailuresAt(samples, t))
  }

  function Counted(y: Tally, t: nat, s: Sample): Tally {
    var y' := y.(durations := y.durations + [s.ms], bucketed := y.bucketed[t := At(y.bucketed, t, []) + [s.ms]]);
    if Success(s) then y'.(successful := y.successful + 1)
    else
      var kind := Label(s);
      y'.(failed := y.failed + 1,
          errorsByType := y.errorsByType[kind := OfKind(y.errorsByType, kind) + 1],
          bucketedErrors := y.bucketedErrors[t := At(y.bucketedErrors, t, 0) + 1])
  }

  lemma OneMore(y: Tally, samples: seq<Filed>, x: Filed)
    requires Counts(y, samples)
    ensures Counts(Counted(y, x.0, x.1), samples + [x])
  {
    var all := samples + [x];
    assert all[..|samples|] == samples;
    SumAdds(y.errorsByType, Label(x.1));
    forall kind: string ensures OfKind(Counted(y, x.0, x.1).errorsByType, kind) == FailuresWith(all, kind) {
      assert OfKind(y.errorsByType, kind) == FailuresWith(samples, kind);
    }
    forall t: nat ensures At(Counted(y, x.0, x.1).bucketed, t, []) == DurationsAt(all, t) {
      assert At(y.bucketed, t, []) == DurationsAt(samples, t);
    }
    forall t: nat ensures At(Counted(y, x.0, x.1).bucketedErrors, t, 0) == FailuresAt(all, t) {
      assert At(y.bucketedErrors, t, 0) == FailuresAt(samples, t);
    }
  }

  function BucketOf(samples: seq<Filed>, t: nat): Bucket {
    Bucket(t, |DurationsAt(samples, t)|, LatencyOf(DurationsAt(samples, t)), FailuresAt(samples, t))
  }

  method Summarise(samples: seq<Filed>, totalSeconds: nat) returns (r: Summary)
    ensures r.total == |samples| == r.successful + r.failed
    ensures r.failed == Failures(samples) == Sum(r.errorsByType)
    ensures forall kind: string :: OfKind(r.errorsByType, kind) == FailuresWith(samples, kind)
    ensures var d := Durations(samples);
            && r.latency.p50 == Percentile(d, 0.5) && r.latency.p95 == Percentile(d, 0.95)
            && r.latency.p99 == Percentile(d, 0.99)
            && r.latency.max == if d == [] then 0.0 else Largest(d)
    ensures |r.buckets| == totalSeconds && forall t :: 0 <= t < totalSeconds ==> r.buckets[t] == BucketOf(samples, t)
  {
    var y := TallySamples(samples);
    TalliedCounts(samples);
    var buckets := BucketsOf(samples, y, totalSeconds);
    r := Summary(|samples|, y.successful, y.failed, y.errorsByType, LatencyOf(y.durations), buckets);
  }

  function Tallied(samples: seq<Filed>): Tally {
    if samples == [] then Tally(0, 0, map[], [], map[], map[])
    else
      var (t, s) := samples[|samples| - 1];
      Counted(Tallied(samples[..|samples| - 1]), t, s)
  }

  method TallySamples(samples: seq<Filed>) returns (y: Tally)
    ensures y == Tallied(samples)
  {
    y := Tally(0, 0, map[], [], map[], map[]);
    for i := 0 to |samples|
      invariant y == Tallied(samples[..i])
    {
      assert samples[..i + 1][..i] == samples[..i];
      y := Counted(y, samples[i].0, samples[i].1);
    }
    assert samples[..|samples|] == samples;
  }

  lemma {:induction false} TalliedCounts(samples: seq<Filed>)
    ensures Counts(Tallied(samples), samples)
    decreases |samples|
  {
    if samples != [] {
      var n := |samples| - 1;
      TalliedCounts(samples[..n]);
      OneMore(Tallied(samples[..n]), samples[..n], samples[n]);
      assert samples == samples[..n] + [samples[n]];
    }
  }

  method BucketsOf(samples: seq<Filed>, y: Tally, totalSeconds: nat) returns (buckets: seq<Bucket>)
    requires Counts(y, samples)
    ensures |buckets| == totalSeconds && forall t :: 0 <= t < totalSeconds ==> buckets[t] == BucketOf(samples, t)
  {
    buckets := [];
    for t := 0 to totalSeconds
      invariant |buckets| == t && forall k :: 0 <= k < t ==> buckets[k] == BucketOf(samples, k)
    {
      var d := At(y.bucketed, t, []);
      buckets := buckets + [Bucket(t, |d|, LatencyOf(d), At(y.bucketedErrors, t, 0))];
    }
  }

  // ----- conservation -----

  function ObservedBefore(samples: seq<Filed>, seconds: nat): nat {
    if seconds == 0 then 0 else ObservedBefore(samples, seconds - 1) + |DurationsAt(samples, seconds - 1)|
  }

  function ErrorsBefore(samples: seq<Filed>, seconds: nat): nat {
    if seconds == 0 then 0 else ErrorsBefore(samples, seconds - 1) + FailuresAt(samples, seconds - 1)
  }

  lemma {:induction false} BucketsAdd(samples: seq<Filed>, x: Filed, seconds: nat)
    ensures ObservedBefore(samples + [x], seconds) == ObservedBefore(samples, seconds) + if x.0 < seconds then 1 else 0
    ensures ErrorsBefore(samples + [x], seconds)
            == ErrorsBefore(samples, seconds) + if x.0 < seconds && Fails(x.1) then 1 else 0
  {
    if seconds > 0 {
      BucketsAdd(samples, x, seconds - 1);
      assert (samples + [x])[..|samples|] == samples;
    }
  }

  lemma {:induction false} NoSamples(seconds: nat)
    ensures ObservedBefore([], seconds) == 0 && ErrorsBefore([], seconds) == 0
  {
    if seconds > 0 { NoSamples(seconds - 1); }
  }

  /** Bucket counts sum to the total and bucket errors to the failures, when every sample is filed within the run. */
  lemma {:induction false} BucketsConserve(samples: seq<Filed>, seconds: nat)
    requires FiledWithin(samples, seconds)
    ensures ObservedBefore(samples, seconds) == |samples| && ErrorsBefore(samples, seconds) == Failures(samples)
    decreases |samples|
  {
    if samples == [] {
      NoSamples(seconds);
    } else {
      var n := |samples| - 1;
      BucketsConserve(samples[..n], seconds);
      BucketsAdd(samples[..n], samples[n], seconds);
      assert samples == samples[..n] + [samples[n]];
    }
  }

  /** The durations of all samples filed before second `seconds`, second by second. */
  function DurationsBefore(samples: seq<Filed>, seconds: nat): seq<real> {
    if seconds == 0 then [] else DurationsBefore(samples, seconds - 1) + DurationsAt(samples, seconds - 1)
  }

  lemma {:induction false} NoDurations(seconds: nat)
    ensures DurationsBefore([], seconds) == []
  {
    if seconds > 0 { NoDurations(seconds - 1); }
  }

  /** What a sample adds to the durations of some seconds. */
  function Added(x: Filed, here: bool): seq<real> {
    if here then [x.1.ms] else []
  }

  lemma HereAdds(samples: seq<Filed>, x: Filed, t: nat)
    ensures DurationsAt(samples + [x], t) == DurationsAt(samples, t) + Added(x, x.0 == t)
  {
    assert (samples + [x])[..|samples|] == samples;
  }

  lemma Regrouped(a: seq<real>, b: seq<real>, c: seq<real>, d: seq<real>, abcd: seq<real>)
    requires multiset(abcd) == multiset(a) + multiset(b)
    ensures multiset(abcd + (c + d)) == multiset(a + c) + (multiset(b) + multiset(d))
  {
    assert multiset(abcd + (c + d)) == multiset(abcd) + (multiset(c) + multiset(d));
    assert multiset(a + c) == multiset(a) + multiset(c);
  }

  lemma {:induction false} DurationsAdd(samples: seq<Filed>, x: Filed, seconds: nat)
    ensures multiset(DurationsBefore(samples + [x], seconds))
            == multiset(DurationsBefore(samples, seconds)) + multiset(Added(x, x.0 < seconds))
  {
    if seconds > 0 {
      var t := seconds - 1;
      DurationsAdd(samples, x, t);
      HereAdds(samples, x, t);
      Regrouped(DurationsBefore(samples, t), Added(x, x.0 < t), DurationsAt(samples, t), Added(x, x.0 == t),
                DurationsBefore(samples + [x], t));
    }
  }

  /** The buckets share out the durations of all samples: none is lost, none is counted twice. */
  lemma {:induction false} DurationsShared(samples: seq<Filed>, seconds: nat)
    requires FiledWithin(samples, seconds)
    ensures multiset(DurationsBefore(samples, seconds)) == multiset(Durations(samples))
    decreases |samples|
  {
    if samples == [] {
      NoDurations(seconds);
    } else {
      var n := |samples| - 1;
      DurationsShared(samples[..n], seconds);
      DurationsAdd(samples[..n], samples[n], seconds);
      assert samples == samples[..n] + [samples[n]];
    }
  }

  /** Every straggler counts as a failure under its own label. */
  lemma {:induction false} StragglersFail(c: Config, own: seq<Filed>, n: nat)
    requires n > 0 ==> c.Seconds() > 0
    ensures FailuresWith(own + Records(c, n), "straggler_cancelled") >= n
  {
    if n > 0 {
      StragglersFail(c, own, n - 1);
      var all := own + Records(c, n);
      assert all[..|all| - 1] == own + Records(c, n - 1);
    } else {
      assert own + [] == own;
    }
  }

  /** A whole run, whatever its requests do: the samples are exactly what the planned requests leave behind, the total
      is what the ramp curve dispatched, give or take the requests that answered after they had been cancelled or
      vanished, and every count adds up to it. */
  method Bench(c: Config, cap: nat, w: World) returns (r: Summary, samples: seq<Filed>)
    requires forall k :: OfTasks(w.during(k))
    ensures var end := After(cap, WholeRun(c, cap, w));
            && Ended(c, RatesOf(c), end.tasks, samples) && (Late(end.tasks) > 0 ==> c.Seconds() > 0)
            && samples == end.samples + Records(c, Late(end.tasks))
    ensures var run := WholeRun(c, cap, w);
            r.total + OddStops(cap, run) == Dispatched(RatesOf(c), c.Seconds()) + OddAnswers(cap, run)
    ensures Obedient(c, cap, w) ==> r.total == Dispatched(RatesOf(c), c.Seconds())
    ensures r.total == |samples| == r.successful + r.failed
    ensures ObservedBefore(samples, c.Seconds()) == r.total
    ensures ErrorsBefore(samples, c.Seconds()) == r.failed == Sum(r.errorsByType)
    ensures |r.buckets| == c.Seconds() && forall t :: 0 <= t < c.Seconds() ==> r.buckets[t] == BucketOf(samples, t)
    ensures OfKind(r.errorsByType, "straggler_cancelled") >= Late(After(cap, WholeRun(c, cap, w)).tasks)
    ensures r.total > 0 ==> r.latency.p50 <= r.latency.p95 <= r.latency.p99 <= r.latency.max
  {
    samples := RunWorkload(c, cap, w);
    OneSampleEach(c, cap, w, samples);
    if Obedient(c, cap, w) { ObedientIsPlain(c, cap, w); }
    r := Summarise(samples, c.Seconds());
    BucketsConserve(samples, c.Seconds());
    DurationsAre(samples);
    StragglersFail(c, After(cap, WholeRun(c, cap, w)).samples, Late(After(cap, WholeRun(c, cap, w)).tasks));
    if samples != [] { LatencyOrdered(Durations(samples)); }
  }

  lemma {:induction false} DurationsAre(samples: seq<Filed>)
    ensures |Durations(samples)| == |samples|
    ensures forall i :: 0 <= i < |samples| ==> Durations(samples)[i] == samples[i].1.ms
    decreases |samples|
  {
    if samples != [] { DurationsAre(samples[..|samples| - 1]); }
  }
}
