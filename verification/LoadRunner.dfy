/** Driving a workload: dispatch, the wait for the tail, and the stragglers. */
module LoadRunner {
  import opened Wrappers
  import opened LoadRun
  import opened LoadTasks

  /** The same tasks later on: what was done stays as it is, and nobody else was cancelled. */
  ghost predicate Later(before: seq<Task>, after: seq<Task>) {
    && |before| == |after|
    && forall k :: 0 <= k < |before| ==>
         && before[k].second == after[k].second && before[k].cancelling == after[k].cancelling
         && (before[k].Done() ==> before[k] == after[k])
  }

  lemma Regroup(a: seq<Event>, b: seq<Event>, c: seq<Event>)
    ensures a + b + c == a + (b + c)
  {
  }

  lemma {:induction false} SameLate(a: seq<Task>, b: seq<Task>)
    requires |a| == |b| && forall k :: 0 <= k < |a| ==> a[k].cancelling == b[k].cancelling
    ensures Late(a) == Late(b)
  {
    if a != [] { SameLate(a[..|a| - 1], b[..|b| - 1]); }
  }

  lemma {:induction false} LateArePending(tasks: seq<Task>)
    requires forall k :: 0 <= k < |tasks| ==> !tasks[k].cancelling
    ensures Late(AllCancelled(tasks)) == |Pending(tasks)|
  {
    if tasks != [] {
      var n := |tasks| - 1;
      assert AllCancelled(tasks)[..n] == AllCancelled(tasks[..n]);
      LateArePending(tasks[..n]);
    }
  }

  lemma PendingIff(tasks: seq<Task>)
    ensures Pending(tasks) == [] <==> AllDone(tasks)
  {
    if Pending(tasks) != [] { assert !tasks[Pending(tasks)[0]].Done(); }
  }

  /** The sample a request leaves: the workload's own, or one without a status that names what went wrong. */
  predicate IsSampleOf(s: Sample, reply: Reply) {
    match reply
    case Returned(own) => s == own
    case TimedOut(ms) => s.ms == ms && s.status == 0 && s.error == Some("timeout")
    case NoConnection(ms) => s.ms == ms && s.status == 0 && s.error == Some("connect")
    case Raised(ms, name) => s.ms == ms && s.status == 0 && s.error == Some(name)
  }

  class Runner {
    const cap: nat
    var tasks: seq<Task>
    var permits: nat
    var samples: seq<Filed>
    /** How many times the dispatcher has given way to the tasks. */
    var awaits: nat
    ghost var run: seq<Event>

    ghost function Now(): State
      reads this
    {
      State(tasks, permits, samples)
    }

    ghost predicate Valid()
      reads this
    {
      Now() == After(cap, run)
    }

    constructor (cap: nat)
      ensures Valid() && this.cap == cap && tasks == [] && awaits == 0 && run == []
    {
      this.cap := cap;
      tasks, permits, samples, awaits, run := [], cap, [], 0, [];
    }

    /** The run so far, one event longer. */
    lemma Longer(before: State, e: Event)
      requires before == After(cap, run)
      ensures After(cap, run + [e]) == Step(before, e)
    {
      assert (run + [e])[..|run|] == run;
    }

    method CreateTask(second: nat)
      requires Valid()
      modifies this`tasks, this`run
      ensures Valid() && tasks == old(tasks) + [Task(second, Queued, false)] && run == old(run) + [Create(second)]
    {
      Longer(Now(), Create(second));
      tasks, run := tasks + [Task(second, Queued, false)], run + [Create(second)];
    }

    /** The semaphore lets a request through. */
    method Enter(i: nat)
      requires Valid() && Enabled(Now(), Admit(i))
      modifies this`tasks, this`permits, this`run
      ensures Valid() && run == old(run) + [Admit(i)] && Now() == Step(old(Now()), Admit(i))
    {
      Longer(Now(), Admit(i));
      permits := permits - 1;
      tasks, run := tasks[i := tasks[i].(phase := Running)], run + [Admit(i)];
    }

    /** The workload returned or raised: the sample is filed under the request's own second. */
    method Complete(i: nat, reply: Reply)
      requires Valid() && Enabled(Now(), Answer(i, reply))
      modifies this`tasks, this`permits, this`samples, this`run
      ensures Valid() && run == old(run) + [Answer(i, reply)] && Now() == Step(old(Now()), Answer(i, reply))
      ensures |samples| == |old(samples)| + 1 && samples[..|old(samples)|] == old(samples)
      ensures samples[|old(samples)|].0 == old(tasks)[i].second && IsSampleOf(samples[|old(samples)|].1, reply)
    {
      Longer(Now(), Answer(i, reply));
      var sample;
      match reply {
        case Returned(own) => sample := own;
        case TimedOut(ms) => sample := Sample(ms, 0, Some("timeout"));
        case NoConnection(ms) => sample := Sample(ms, 0, Some("connect"));
        case Raised(ms, name) => sample := Sample(ms, 0, Some(name));
      }
      samples := samples + [(tasks[i].second, sample)];
      permits := permits + 1;
      tasks, run := tasks[i := tasks[i].(phase := Finished(sample))], run + [Answer(i, reply)];
    }

    /** A cancellation ends the request, wherever it was. */
    method Unwind(i: nat)
      requires Valid() && Enabled(Now(), Stop(i))
      modifies this`tasks, this`permits, this`run
      ensures Valid() && run == old(run) + [Stop(i)] && Now() == Step(old(Now()), Stop(i))
    {
      Longer(Now(), Stop(i));
      if tasks[i].phase == Running { permits := permits + 1; }
      tasks, run := tasks[i := tasks[i].(phase := Stopped)], run + [Stop(i)];
    }

    method Do(e: Event)
      requires Valid() && OfTasks([e])
      modifies this`tasks, this`permits, this`samples, this`run
      ensures Valid() && Later(old(tasks), tasks) && run == old(run) + [e]
    {
      assert [e][0] == e;
      if e.Admit? && e.task < |tasks| && tasks[e.task].phase == Queued && !tasks[e.task].cancelling && permits > 0 {
        Enter(e.task);
      } else if e.Answer? && e.task < |tasks| && tasks[e.task].phase == Running {
        Complete(e.task, e.reply);
      } else if e.Stop? && e.task < |tasks| && !tasks[e.task].Done()
                && (tasks[e.task].cancelling || tasks[e.task].phase == Running) {
        Unwind(e.task);
      } else {
        Longer(Now(), e);
        run := run + [e];
      }
    }

    /** An await of the dispatcher: the tasks run on. */
    method Sleep(w: World)
      requires Valid() && OfTasks(w.during(awaits))
      modifies this
      ensures Valid() && Later(old(tasks), tasks)
      ensures run == old(run) + w.during(old(awaits)) && awaits == old(awaits) + 1
    {
      var events := w.during(awaits);
      for k := 0 to |events|
        invariant Valid() && Later(old(tasks), tasks) && awaits == old(awaits) && run == old(run) + events[..k]
      {
        Do(events[k]);
        assert events[..k + 1] == events[..k] + [events[k]];
      }
      assert events[..|events|] == events;
      awaits := awaits + 1;
    }

    /** Every second its requests, spread out evenly. */
    method Dispatch(per: Rates, seconds: nat, w: World)
      requires Valid() && run == [] && awaits == 0 && forall k :: OfTasks(w.during(k))
      modifies this
      ensures Valid() && run == DispatchRun(per, w, seconds) && awaits == Awaits(per, seconds)
    {
      for t := 0 to seconds
        invariant Valid() && run == DispatchRun(per, w, t) && awaits == Awaits(per, t)
      {
        DispatchSecond(per, w, t);
      }
    }

    method DispatchSecond(per: Rates, w: World, t: nat)
      requires Valid() && run == DispatchRun(per, w, t) && awaits == Awaits(per, t) && forall k :: OfTasks(w.during(k))
      modifies this
      ensures Valid() && run == DispatchRun(per, w, t + 1) && awaits == Awaits(per, t + 1)
    {
      var n := per(t);
      DispatchNext(per, w, t, n);
      CreateRequests(w, t, n);
      Sleep(w);
    }

    method CreateRequests(w: World, t: nat, n: nat)
      requires Valid() && forall k :: OfTasks(w.during(k))
      modifies this
      ensures Valid() && run == old(run) + Requests(w, t, n, n, old(awaits)) && awaits == old(awaits) + AwaitsIn(n) - 1
    {
      for i := 0 to n
        invariant Valid() && run == old(run) + Requests(w, t, n, i, old(awaits))
        invariant awaits == old(awaits) + if i < n then i else AwaitsIn(n) - 1
      {
        ghost var more := [Create(t)] + if i < n - 1 then w.during(awaits) else [];
        OneRequest(w, t, i < n - 1);
        Regroup(old(run), Requests(w, t, n, i, old(awaits)), more);
      }
    }

    /** Creates a task, and unless it is the last one of its second, leaves a gap. */
    method OneRequest(w: World, t: nat, gap: bool)
      requires Valid() && OfTasks(w.during(awaits))
      modifies this
      ensures Valid() && run == old(run) + ([Create(t)] + if gap then w.during(old(awaits)) else [])
      ensures awaits == old(awaits) + if gap then 1 else 0
    {
      CreateTask(t);
      if gap { Sleep(w); }
    }

    /** The requests that are not done. */
    method Unfinished() returns (left: seq<nat>)
      ensures left == Pending(tasks)
    {
      left := [];
      for i := 0 to |tasks|
        invariant left == Pending(tasks[..i])
      {
        assert tasks[..i + 1][..i] == tasks[..i];
        if !tasks[i].Done() { left := left + [i]; }
      }
      assert tasks[..|tasks|] == tasks;
    }

    /** Waits until every request is done, but at most for so many polls. */
    method AwaitTail(w: World)
      requires Valid() && forall k :: OfTasks(w.during(k))
      modifies this
      ensures Valid() && Progress(run, awaits) == TailRun(cap, w, Progress(old(run), old(awaits)), w.polls)
    {
      var round, waiting := 0, true;
      while round < w.polls && waiting
        invariant Valid() && round <= w.polls && (waiting || AllDone(tasks))
        invariant TailRun(cap, w, Progress(run, awaits), w.polls - round)
                  == TailRun(cap, w, Progress(old(run), old(awaits)), w.polls)
        decreases w.polls - round, waiting
      {
        var left := Unfinished();
        PendingIff(tasks);
        if left == [] {
          waiting := false;
        } else {
          TailStep(cap, w, Progress(run, awaits), w.polls - round);
          Sleep(w);
          round := round + 1;
        }
      }
      if !waiting { TailEnd(cap, w, Progress(run, awaits), w.polls - round); }
    }

    /** Cancels whatever is not done. */
    method CancelStragglers() returns (stragglers: seq<nat>)
      requires Valid() && NoneCancelled(tasks)
      modifies this`tasks, this`run
      ensures Valid() && tasks == AllCancelled(old(tasks)) && run == old(run) + [CancelAll]
      ensures stragglers == Pending(old(tasks))
    {
      stragglers := Unfinished();
      Cancel(stragglers);
      assert tasks == AllCancelled(old(tasks));
      Longer(old(Now()), CancelAll);
      run := run + [CancelAll];
    }

    method Cancel(stragglers: seq<nat>)
      requires forall k :: 0 <= k < |stragglers| ==> stragglers[k] < |tasks|
      modifies this`tasks
      ensures |tasks| == |old(tasks)|
      ensures forall i: nat :: i < |tasks| ==>
                tasks[i] == if i in stragglers then old(tasks)[i].(cancelling := true) else old(tasks)[i]
    {
      for j := 0 to |stragglers|
        invariant |tasks| == |old(tasks)|
        invariant forall i: nat :: i < |tasks| ==>
                    tasks[i] == if i in stragglers[..j] then old(tasks)[i].(cancelling := true) else old(tasks)[i]
      {
        tasks := tasks[stragglers[j] := tasks[stragglers[j]].(cancelling := true)];
        assert stragglers[..j + 1] == stragglers[..j] + [stragglers[j]];
      }
      assert stragglers[..|stragglers|] == stragglers;
    }

    /** Awaits the stragglers in turn. */
    method AwaitStragglers(w: World, stragglers: seq<nat>)
      requires Valid() && forall k :: OfTasks(w.during(k))
      requires forall k :: 0 <= k < |stragglers| ==> stragglers[k] < |tasks| && tasks[stragglers[k]].cancelling
      modifies this
      ensures Valid() && Later(old(tasks), tasks)
      ensures forall k :: 0 <= k < |stragglers| ==> tasks[stragglers[k]].Done()
      ensures Progress(run, awaits) == StragglerRun(cap, w, Progress(old(run), old(awaits)), stragglers)
    {
      for j := 0 to |stragglers|
        invariant Valid() && Later(old(tasks), tasks)
        invariant forall k :: 0 <= k < j ==> tasks[stragglers[k]].Done()
        invariant StragglerRun(cap, w, Progress(run, awaits), stragglers[j..])
                  == StragglerRun(cap, w, Progress(old(run), old(awaits)), stragglers)
      {
        assert stragglers[j..][1..] == stragglers[j + 1..];
        Sleep(w);
        React(w, stragglers[j]);
      }
    }

    method React(w: World, i: nat)
      requires Valid() && i < |tasks| && tasks[i].cancelling
      modifies this`tasks, this`permits, this`samples, this`run
      ensures Valid() && Later(old(tasks), tasks) && tasks[i].Done()
      ensures run == old(run) + Ending(old(tasks), w, i)
    {
      if !tasks[i].Done() {
        var reaction := w.reactions(i);
        if tasks[i].phase == Running && reaction.Some? {
          Complete(i, reaction.value);
        } else {
          Unwind(i);
        }
      }
    }
  }

  /** One record per straggler, under the last second. */
  method AddRecords(c: Config, own: seq<Filed>, stragglers: nat) returns (samples: seq<Filed>)
    requires stragglers > 0 ==> c.Seconds() > 0
    ensures samples == own + Records(c, stragglers)
  {
    samples := own;
    for k := 0 to stragglers
      invariant samples == own + Records(c, k)
    {
      samples := samples + [(c.Seconds() - 1, Synthetic(c))];
    }
  }

  function Records(c: Config, n: nat): seq<Filed>
    requires n > 0 ==> c.Seconds() > 0
  {
    if n == 0 then [] else Repeated(Record(c), n)
  }

  lemma RunEnded(c: Config, per: Rates, tasks: seq<Task>, own: seq<Filed>)
    requires Planned(tasks, Plan(per, c.Seconds())) && AllDone(tasks)
    requires multiset(own) == multiset(Own(tasks)) && (Late(tasks) > 0 ==> c.Seconds() > 0)
    ensures Ended(c, per, tasks, own + Records(c, Late(tasks)))
  {
    if tasks == [] {
      assert |multiset(own)| == 0;
    } else {
      assert Plan(per, c.Seconds()) != [];
    }
    EndedWhen(c, per, tasks, own + Records(c, Late(tasks)));
  }

  lemma Settled(c: Config, before: seq<Task>, cancelled: seq<Task>, tasks: seq<Task>)
    requires Planned(before, Plan(RatesOf(c), c.Seconds())) && NoneCancelled(before)
    requires cancelled == AllCancelled(before) && Later(cancelled, tasks)
    requires forall k :: 0 <= k < |Pending(before)| ==> tasks[Pending(before)[k]].Done()
    ensures AllDone(tasks) && Late(tasks) == |Pending(before)| && (Late(tasks) > 0 ==> c.Seconds() > 0)
    ensures Planned(tasks, Plan(RatesOf(c), c.Seconds()))
  {
    forall i: nat | i < |tasks| ensures tasks[i].Done() {
      if !before[i].Done() {
        var k :| 0 <= k < |Pending(before)| && Pending(before)[k] == i;
      }
    }
    LateArePending(before);
    SameLate(cancelled, tasks);
    if Late(tasks) > 0 { assert Pending(before)[0] < |before|; }
  }

  /** One run, whatever the tasks do meanwhile: the samples are those of the whole run in the order they were filed,
      then one record per straggler.  Together they are exactly what each planned request leaves behind: its own sample
      under its own second, and a record under the last second if it was late. */
  method RunWorkload(c: Config, cap: nat, w: World) returns (samples: seq<Filed>)
    requires forall k :: OfTasks(w.during(k))
    ensures var end := After(cap, WholeRun(c, cap, w));
            && (Late(end.tasks) > 0 ==> c.Seconds() > 0)
            && samples == end.samples + Records(c, Late(end.tasks))
            && Ended(c, RatesOf(c), end.tasks, samples)
  {
    var runner := new Runner(cap);
    runner.Dispatch(RatesOf(c), c.Seconds(), w);
    runner.AwaitTail(w);
    UntilDeadlinePlanned(c, cap, w);
    ghost var before := runner.tasks;
    var stragglers := runner.CancelStragglers();
    ghost var cancelled := runner.tasks;
    runner.AwaitStragglers(w, stragglers);
    ghost var tasks := runner.tasks;
    Settled(c, before, cancelled, tasks);
    EveryRunKeeps(cap, runner.run);
    samples := AddRecords(c, runner.samples, |stragglers|);
    RunEnded(c, RatesOf(c), tasks, runner.samples);
  }

  // ----- one sample per request -----

  /** Request `i` of second `t` is planned for second `t`. */
  lemma {:induction false} PlanAt(per: Rates, seconds: nat, t: nat, i: nat)
    requires t < seconds && i < per(t)
    ensures Dispatched(per, t) + i < Dispatched(per, seconds) && Plan(per, seconds)[Dispatched(per, t) + i] == t
    decreases seconds
  {
    if t < seconds - 1 { PlanAt(per, seconds - 1, t, i); }
  }

  /** The sample request `i` of second `t`, which is task `k`, filed itself is there, under second `t`... */
  lemma OwnSampleFiled(c: Config, per: Rates, tasks: seq<Task>, samples: seq<Filed>, t: nat, i: nat, k: nat)
    requires Ended(c, per, tasks, samples) && t < c.Seconds() && i < per(t) && k == Dispatched(per, t) + i
    ensures k < |tasks| && tasks[k].second == t
    ensures tasks[k].phase.Finished? ==> (t, tasks[k].phase.sample) in samples
    ensures tasks[k].cancelling ==> (c.Seconds() - 1, Sample(c.timeoutMs, 0, Some("straggler_cancelled"))) in samples
  {
    PlannedAt(tasks, per, c.Seconds(), t, i);
    SampleFiled(c, per, tasks, samples, k);
  }

  lemma PlannedAt(tasks: seq<Task>, per: Rates, seconds: nat, t: nat, i: nat)
    requires Planned(tasks, Plan(per, seconds)) && t < seconds && i < per(t)
    ensures Dispatched(per, t) + i < |tasks| && tasks[Dispatched(per, t) + i].second == t
  {
    PlanAt(per, seconds, t, i);
  }

  lemma SampleFiled(c: Config, per: Rates, tasks: seq<Task>, samples: seq<Filed>, k: nat)
    requires Ended(c, per, tasks, samples) && k < |tasks|
    ensures tasks[k].phase.Finished? ==> (tasks[k].second, tasks[k].phase.sample) in samples
    ensures tasks[k].cancelling ==> Record(c) in samples
  {
    if tasks[k].phase.Finished? { LeftSampled(c, per, tasks, samples, k, (tasks[k].second, tasks[k].phase.sample)); }
    if tasks[k].cancelling { LeftSampled(c, per, tasks, samples, k, Record(c)); }
  }

  lemma LeftSampled(c: Config, per: Rates, tasks: seq<Task>, samples: seq<Filed>, k: nat, x: Filed)
    requires Ended(c, per, tasks, samples) && k < |tasks| && x in LeftBy(c, tasks[k])
    ensures x in samples
  {
    LeftIn(c, tasks, k, x);
    assert x in multiset(LeftByAll(c, tasks));
    assert x in multiset(samples);
  }

  lemma {:induction false} LeftIn(c: Config, tasks: seq<Task>, k: nat, x: Filed)
    requires c.Seconds() > 0 && k < |tasks| && x in LeftBy(c, tasks[k])
    ensures x in LeftByAll(c, tasks)
    decreases |tasks|
  {
    if k < |tasks| - 1 { LeftIn(c, tasks[..|tasks| - 1], k, x); }
  }

  /** ... and every dispatched request is counted exactly once, exactly when no request of the run answers after it has
      been cancelled and none ends in a cancellation of its own: each of these events counts one more, or one less. */
  lemma OneSampleEach(c: Config, cap: nat, w: World, samples: seq<Filed>)
    requires Ended(c, RatesOf(c), After(cap, WholeRun(c, cap, w)).tasks, samples)
    ensures var run := WholeRun(c, cap, w);
            var tasks := After(cap, run).tasks;
            && ((forall k :: 0 <= k < |tasks| ==> |LeftBy(c, tasks[k])| == 1)
                <==> OddAnswers(cap, run) == 0 && OddStops(cap, run) == 0)
            && |samples| + OddStops(cap, run) == Dispatched(RatesOf(c), c.Seconds()) + OddAnswers(cap, run)
  {
    var run := WholeRun(c, cap, w);
    CountsAre(cap, run);
    EachLeavesOne(c, After(cap, run).tasks);
  }

  lemma LeavesOne(c: Config, t: Task)
    requires c.Seconds() > 0 && t.Done()
    ensures |LeftBy(c, t)| == 1 <==> !Swallowed(t) && !Vanished(t)
  {
  }

  lemma {:induction false} EachLeavesOne(c: Config, tasks: seq<Task>)
    requires (tasks == [] || c.Seconds() > 0) && AllDone(tasks)
    ensures (forall k :: 0 <= k < |tasks| ==> |LeftBy(c, tasks[k])| == 1)
            <==> SwallowedCount(tasks) == 0 && VanishedCount(tasks) == 0
  {
    if tasks != [] {
      var n := |tasks| - 1;
      EachLeavesOne(c, tasks[..n]);
      assert (forall k :: 0 <= k < |tasks| ==> |LeftBy(c, tasks[k])| == 1)
        <==> |LeftBy(c, tasks[n])| == 1 && forall k :: 0 <= k < n ==> |LeftBy(c, tasks[..n][k])| == 1;
      LeavesOne(c, tasks[n]);
    }
  }

  /** In particular with workloads that let cancellations pass. */
  lemma ObedientCountsOnce(c: Config, cap: nat, w: World, samples: seq<Filed>)
    requires Obedient(c, cap, w) && forall j :: OfTasks(w.during(j))
    requires Ended(c, RatesOf(c), After(cap, WholeRun(c, cap, w)).tasks, samples)
    ensures |samples| == Dispatched(RatesOf(c), c.Seconds())
    ensures var tasks := After(cap, WholeRun(c, cap, w)).tasks;
            forall k :: 0 <= k < |tasks| ==> |LeftBy(c, tasks[k])| == 1
  {
    ObedientIsPlain(c, cap, w);
    OneSampleEach(c, cap, w, samples);
  }

  // ----- a request that counts twice, and one that does not count -----

  /** A run of a single request. */
  predicate Single(c: Config) {
    c.Seconds() == 1 && PerSecond(c, 0) == 1
  }

  /** The request starts in the first await and is still running when the deadline comes, with no poll left. */
  function Stubborn(answer: Sample): World {
    World((k: nat) => if k == 0 then [Admit(0)] else [], 0, (k: nat) => Some(Returned(answer)))
  }

  lemma StubbornDispatch(c: Config, answer: Sample)
    requires Single(c)
    ensures DispatchRun(RatesOf(c), Stubborn(answer), 1) == [Create(0)] + [Admit(0)]
    ensures Dispatched(RatesOf(c), 1) == 1 && Awaits(RatesOf(c), 1) == 1
  {
    var w, per := Stubborn(answer), RatesOf(c);
    assert Requests(w, 0, 1, 0, 0) == [];
    assert Requests(w, 0, 1, 1, 0) == [Create(0)];
    assert DispatchRun(per, w, 0) == [] && Awaits(per, 0) == 0 && Dispatched(per, 0) == 0;
  }

  lemma Next(cap: nat, run: seq<Event>, e: Event) returns (s: State)
    ensures s == After(cap, run + [e]) == Step(After(cap, run), e)
  {
    assert (run + [e])[..|run|] == run;
    s := After(cap, run + [e]);
  }

  lemma StubbornStarts(cap: nat)
    requires cap > 0
    ensures After(cap, [Create(0)] + [Admit(0)]).tasks == [Task(0, Running, false)]
    ensures Pending([Task(0, Running, false)]) == [0]
    ensures After(cap, [Create(0)] + [Admit(0)] + [CancelAll]).tasks == [Task(0, Running, true)]
  {
    var s1 := Next(cap, [], Create(0));
    var s2 := Next(cap, [Create(0)], Admit(0));
    var s3 := Next(cap, [Create(0)] + [Admit(0)], CancelAll);
    assert s2.tasks == [Task(0, Running, false)];
    assert s2.tasks[..0] == [];
  }

  lemma StubbornAnswers(cap: nat, w: World, run: seq<Event>, answer: Sample)
    requires w == Stubborn(answer) && After(cap, run).tasks == [Task(0, Running, true)]
    ensures After(cap, StragglerRun(cap, w, Progress(run, 1), [0]).run).tasks == [Task(0, Finished(answer), true)]
  {
    assert run + w.during(1) == run;
    assert Ending(After(cap, run).tasks, w, 0) == [Answer(0, Returned(answer))];
    var end := Next(cap, run, Answer(0, Returned(answer)));
  }

  lemma StubbornRun(c: Config, cap: nat, answer: Sample)
    requires Single(c) && cap > 0
    ensures After(cap, WholeRun(c, cap, Stubborn(answer))).tasks == [Task(0, Finished(answer), true)]
  {
    StubbornDispatch(c, answer);
    StubbornStarts(cap);
    StubbornAnswers(cap, Stubborn(answer), [Create(0)] + [Admit(0)] + [CancelAll], answer);
  }

  /** A single request whose workload answers its own cancellation is counted as two. */
  lemma CountedTwice(c: Config, cap: nat, answer: Sample, tasks: seq<Task>, samples: seq<Filed>)
    requires Single(c) && cap > 0
    requires tasks == After(cap, WholeRun(c, cap, Stubborn(answer))).tasks && Ended(c, RatesOf(c), tasks, samples)
    ensures Dispatched(RatesOf(c), c.Seconds()) == 1 && |samples| == 2
  {
    StubbornDispatch(c, answer);
    StubbornRun(c, cap, answer);
    assert SwallowedCount(tasks[..0]) == VanishedCount(tasks[..0]) == 0 && Swallowed(tasks[0]);
  }

  /** The request ends in a cancellation of its own in the first await. */
  function Quitting(): World {
    World((k: nat) => if k == 0 then [Admit(0)] + [Stop(0)] else [], 0, (k: nat) => None)
  }

  lemma QuittingRun(c: Config, cap: nat)
    requires Single(c) && cap > 0
    ensures After(cap, WholeRun(c, cap, Quitting())).tasks == [Task(0, Stopped, false)]
    ensures Dispatched(RatesOf(c), 1) == 1
  {
    var w, per := Quitting(), RatesOf(c);
    assert Requests(w, 0, 1, 0, 0) == [];
    assert Requests(w, 0, 1, 1, 0) == [Create(0)];
    assert DispatchRun(per, w, 0) == [] && Awaits(per, 0) == 0 && Dispatched(per, 0) == 0;
    assert DispatchRun(per, w, 1) == [Create(0)] + [Admit(0)] + [Stop(0)];
    QuittingStops(cap);
  }

  lemma QuittingStops(cap: nat)
    requires cap > 0
    ensures After(cap, [Create(0)] + [Admit(0)] + [Stop(0)]).tasks == [Task(0, Stopped, false)]
    ensures After(cap, [Create(0)] + [Admit(0)] + [Stop(0)] + [CancelAll]).tasks == [Task(0, Stopped, false)]
    ensures Pending([Task(0, Stopped, false)]) == []
  {
    var s1 := Next(cap, [], Create(0));
    var s2 := Next(cap, [Create(0)], Admit(0));
    var s3 := Next(cap, [Create(0)] + [Admit(0)], Stop(0));
    var s4 := Next(cap, [Create(0)] + [Admit(0)] + [Stop(0)], CancelAll);
    assert s3.tasks[..0] == [];
  }

  /** A single request whose workload ends in a cancellation of its own is not counted at all. */
  lemma NotCounted(c: Config, cap: nat, tasks: seq<Task>, samples: seq<Filed>)
    requires Single(c) && cap > 0
    requires tasks == After(cap, WholeRun(c, cap, Quitting())).tasks && Ended(c, RatesOf(c), tasks, samples)
    ensures Dispatched(RatesOf(c), c.Seconds()) == 1 && samples == []
  {
    QuittingRun(c, cap);
    assert SwallowedCount(tasks[..0]) == VanishedCount(tasks[..0]) == 0 && Vanished(tasks[0]);
  }
}
