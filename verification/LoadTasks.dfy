/** The load generator at work: one task per request, a semaphore, a deadline, and the cancelling of stragglers. */
module LoadTasks {
  import opened Wrappers
  import opened Runs
  import opened LoadRun

  // ----- one request -----

  /** How the workload ends, `ms` after the request got its permit. */
  datatype Reply =
    | Returned(sample: Sample)
    | TimedOut(ms: real)
    | NoConnection(ms: real)
    | Raised(ms: real, name: string)

  function SampleOf(reply: Reply): Sample {
    match reply
    case Returned(sample) => sample
    case TimedOut(ms) => Sample(ms, 0, Some("timeout"))
    case NoConnection(ms) => Sample(ms, 0, Some("connect"))
    case Raised(ms, name) => Sample(ms, 0, Some(name))
  }

  /** `Queued` is created, or waiting for the semaphore; `Stopped` is ended by a cancellation, without a sample. */
  datatype Phase = Queued | Running | Finished(sample: Sample) | Stopped

  datatype Task = Task(second: nat, phase: Phase, cancelling: bool) {
    predicate Done() { phase.Finished? || phase.Stopped? }
  }

  // ----- the tasks as a state machine -----

  /** A running task that is being cancelled may still answer, when its workload handles the cancellation itself; and a
      running task may stop without being cancelled, when its workload ends in a cancellation of its own, which is no
      `Exception`. */
  datatype Event =
    | Create(second: nat)
    | CancelAll
    | Admit(task: nat)
    | Answer(task: nat, reply: Reply)
    | Stop(task: nat)

  datatype State = State(tasks: seq<Task>, permits: nat, samples: seq<Filed>)

  predicate Enabled(s: State, e: Event) {
    match e
    case Create(_) | CancelAll => true
    case Admit(i) => i < |s.tasks| && s.tasks[i].phase == Queued && !s.tasks[i].cancelling && s.permits > 0
    case Answer(i, _) => i < |s.tasks| && s.tasks[i].phase == Running
    case Stop(i) => i < |s.tasks| && !s.tasks[i].Done() && (s.tasks[i].cancelling || s.tasks[i].phase == Running)
  }

  function Holds(t: Task): nat {
    if t.phase == Running then 1 else 0
  }

  function AllCancelled(tasks: seq<Task>): (r: seq<Task>)
    ensures |r| == |tasks|
    ensures forall i :: 0 <= i < |tasks| ==> r[i] == tasks[i].(cancelling := tasks[i].cancelling || !tasks[i].Done())
  {
    if tasks == [] then []
    else
      var t := tasks[|tasks| - 1];
      AllCancelled(tasks[..|tasks| - 1]) + [t.(cancelling := t.cancelling || !t.Done())]
  }

  /** One atomic segment of a task or of the dispatcher. */
  function Step(s: State, e: Event): State {
    if !Enabled(s, e) then s
    else
      match e
      case Create(second) => s.(tasks := s.tasks + [Task(second, Queued, false)])
      case CancelAll => s.(tasks := AllCancelled(s.tasks))
      case Admit(i) => s.(tasks := s.tasks[i := s.tasks[i].(phase := Running)], permits := s.permits - 1)
      case Answer(i, reply) =>
        State(s.tasks[i := s.tasks[i].(phase := Finished(SampleOf(reply)))], s.permits + 1,
              s.samples + [(s.tasks[i].second, SampleOf(reply))])
      case Stop(i) =>
        s.(tasks := s.tasks[i := s.tasks[i].(phase := Stopped)], permits := s.permits + Holds(s.tasks[i]))
  }

  function Start(cap: nat): State {
    State([], cap, [])
  }

  function After(cap: nat, events: seq<Event>): State {
    Fold(Step, Start(cap), events)
  }

  // ----- what every run keeps -----

  /** The samples the tasks filed themselves, each under the second that dispatched it. */
  function OwnOf(t: Task): seq<Filed> {
    if t.phase.Finished? then [(t.second, t.phase.sample)] else []
  }

  function Own(tasks: seq<Task>): seq<Filed> {
    if tasks == [] then [] else Own(tasks[..|tasks| - 1]) + OwnOf(tasks[|tasks| - 1])
  }

  function InFlight(tasks: seq<Task>): nat {
    if tasks == [] then 0 else InFlight(tasks[..|tasks| - 1]) + Holds(tasks[|tasks| - 1])
  }

  ghost predicate SamplesMatch(s: State) {
    multiset(s.samples) == multiset(Own(s.tasks))
  }

  /** Every finished task filed its sample once, and every permit is free or held by a running task. */
  ghost predicate Inv(s: State, cap: nat) {
    SamplesMatch(s) && s.permits + InFlight(s.tasks) == cap
  }

  lemma Regrouped(a: multiset<Filed>, b: multiset<Filed>, c: multiset<Filed>)
    ensures a + c + b == a + b + c
  {
  }

  lemma OwnSplit(tasks: seq<Task>)
    requires tasks != []
    ensures multiset(Own(tasks)) == multiset(Own(tasks[..|tasks| - 1])) + multiset(OwnOf(tasks[|tasks| - 1]))
  {
  }

  lemma OwnLast(tasks: seq<Task>, t: Task)
    requires tasks != [] && OwnOf(tasks[|tasks| - 1]) == []
    ensures multiset(Own(tasks[|tasks| - 1 := t])) == multiset(Own(tasks)) + multiset(OwnOf(t))
  {
    OwnSplit(tasks);
    OwnSplit(tasks[|tasks| - 1 := t]);
    assert tasks[|tasks| - 1 := t][..|tasks| - 1] == tasks[..|tasks| - 1];
    assert multiset(OwnOf(tasks[|tasks| - 1])) == multiset{};
  }

  lemma {:induction false} OwnUpdated(tasks: seq<Task>, i: nat, t: Task)
    requires i < |tasks| && OwnOf(tasks[i]) == []
    ensures multiset(Own(tasks[i := t])) == multiset(Own(tasks)) + multiset(OwnOf(t))
    decreases |tasks|
  {
    var n := |tasks| - 1;
    if i == n {
      OwnLast(tasks, t);
    } else {
      OwnUpdated(tasks[..n], i, t);
      OwnOneMore(tasks, i, t);
    }
  }

  lemma OwnOneMore(tasks: seq<Task>, i: nat, t: Task)
    requires var n := |tasks| - 1;
             i < n && multiset(Own(tasks[..n][i := t])) == multiset(Own(tasks[..n])) + multiset(OwnOf(t))
    ensures multiset(Own(tasks[i := t])) == multiset(Own(tasks)) + multiset(OwnOf(t))
  {
    var n := |tasks| - 1;
    OwnSplit(tasks);
    OwnSplit(tasks[i := t]);
    assert tasks[i := t][..n] == tasks[..n][i := t];
    Regrouped(multiset(Own(tasks[..n])), multiset(OwnOf(tasks[n])), multiset(OwnOf(t)));
  }

  lemma {:induction false} InFlightUpdated(tasks: seq<Task>, i: nat, t: Task)
    requires i < |tasks|
    ensures InFlight(tasks[i := t]) + Holds(tasks[i]) == InFlight(tasks) + Holds(t)
    decreases |tasks|
  {
    var n := |tasks| - 1;
    if i == n {
      assert tasks[i := t][..n] == tasks[..n];
    } else {
      assert tasks[i := t][..n] == tasks[..n][i := t];
      InFlightUpdated(tasks[..n], i, t);
    }
  }

  lemma {:induction false} CancellingKeeps(tasks: seq<Task>)
    ensures Own(AllCancelled(tasks)) == Own(tasks) && InFlight(AllCancelled(tasks)) == InFlight(tasks)
  {
    if tasks != [] {
      var n := |tasks| - 1;
      assert AllCancelled(tasks)[..n] == AllCancelled(tasks[..n]);
      CancellingKeeps(tasks[..n]);
    }
  }

  lemma SegmentKeepsSamples(s: State, i: nat, t: Task, permits: nat)
    requires SamplesMatch(s) && i < |s.tasks| && !s.tasks[i].Done()
    ensures SamplesMatch(State(s.tasks[i := t], permits, s.samples + OwnOf(t)))
  {
    OwnUpdated(s.tasks, i, t);
    assert multiset(s.samples + OwnOf(t)) == multiset(s.samples) + multiset(OwnOf(t));
  }

  lemma SegmentKeeps(s: State, cap: nat, i: nat, t: Task, permits: nat)
    requires Inv(s, cap) && i < |s.tasks| && !s.tasks[i].Done()
    requires permits + Holds(t) == s.permits + Holds(s.tasks[i])
    ensures Inv(State(s.tasks[i := t], permits, s.samples + OwnOf(t)), cap)
  {
    SegmentKeepsSamples(s, i, t, permits);
    InFlightUpdated(s.tasks, i, t);
  }

  lemma StepKeeps(s: State, cap: nat, e: Event)
    requires Inv(s, cap)
    ensures Inv(Step(s, e), cap)
  {
    if Enabled(s, e) {
      assert s.samples + [] == s.samples;
      match e {
        case Create(second) => CreateKeeps(s, cap, second);
        case CancelAll => CancellingKeeps(s.tasks);
        case Admit(i) => SegmentKeeps(s, cap, i, s.tasks[i].(phase := Running), s.permits - 1);
        case Answer(i, reply) =>
          SegmentKeeps(s, cap, i, s.tasks[i].(phase := Finished(SampleOf(reply))), s.permits + 1);
        case Stop(i) =>
          SegmentKeeps(s, cap, i, s.tasks[i].(phase := Stopped), s.permits + Holds(s.tasks[i]));
      }
    }
  }

  lemma CreateKeeps(s: State, cap: nat, second: nat)
    requires Inv(s, cap)
    ensures Inv(Step(s, Create(second)), cap)
  {
    var tasks := Step(s, Create(second)).tasks;
    assert tasks[..|s.tasks|] == s.tasks;
    assert Own(tasks) == Own(s.tasks) + [] == Own(s.tasks);
  }

  /** In every interleaving of the tasks, the dispatcher and the cancelling: the samples are exactly those of the tasks
      that finished, one each, and never more than `cap` requests are in flight. */
  lemma EveryRunKeeps(cap: nat, events: seq<Event>)
    ensures var s := After(cap, events);
            && multiset(s.samples) == multiset(Own(s.tasks))
            && InFlight(s.tasks) <= cap
  {
    forall s, e | Inv(s, cap) ensures Inv(Step(s, e), cap) { StepKeeps(s, cap, e); }
    FoldKeeps(Step, (s: State) => Inv(s, cap), Start(cap), events);
  }

  // ----- what a run should leave -----

  /** The second of every request, in the order of dispatch. */
  function Plan(per: Rates, seconds: nat): (plan: seq<nat>)
    ensures |plan| == Dispatched(per, seconds)
    ensures forall k :: 0 <= k < |plan| ==> plan[k] < seconds
  {
    if seconds == 0 then [] else Plan(per, seconds - 1) + Repeated(seconds - 1, per(seconds - 1))
  }

  function Repeated<T>(x: T, n: nat): (r: seq<T>)
    ensures |r| == n && forall k :: 0 <= k < n ==> r[k] == x
  {
    if n == 0 then [] else Repeated(x, n - 1) + [x]
  }

  predicate Planned(tasks: seq<Task>, plan: seq<nat>) {
    |tasks| == |plan| && forall k :: 0 <= k < |tasks| ==> tasks[k].second == plan[k]
  }

  predicate AllDone(tasks: seq<Task>) {
    forall k :: 0 <= k < |tasks| ==> tasks[k].Done()
  }

  function Late(tasks: seq<Task>): nat {
    if tasks == [] then 0 else Late(tasks[..|tasks| - 1]) + if tasks[|tasks| - 1].cancelling then 1 else 0
  }

  /** The record added for a straggler. */
  function Record(c: Config): Filed
    requires c.Seconds() > 0
  {
    (c.Seconds() - 1, Synthetic(c))
  }

  /** What one task leaves behind: its own sample, and a record if it was still running at the deadline. */
  function LeftBy(c: Config, t: Task): seq<Filed>
    requires c.Seconds() > 0
  {
    OwnOf(t) + if t.cancelling then [Record(c)] else []
  }

  function LeftByAll(c: Config, tasks: seq<Task>): seq<Filed>
    requires tasks == [] || c.Seconds() > 0
  {
    if tasks == [] then [] else LeftByAll(c, tasks[..|tasks| - 1]) + LeftBy(c, tasks[|tasks| - 1])
  }

  /** It was cancelled and answered all the same. */
  predicate Swallowed(t: Task) {
    t.cancelling && t.phase.Finished?
  }

  /** It stopped without having been cancelled. */
  predicate Vanished(t: Task) {
    !t.cancelling && t.phase == Stopped
  }

  function SwallowedCount(tasks: seq<Task>): nat {
    if tasks == [] then 0
    else SwallowedCount(tasks[..|tasks| - 1]) + if Swallowed(tasks[|tasks| - 1]) then 1 else 0
  }

  function VanishedCount(tasks: seq<Task>): nat {
    if tasks == [] then 0
    else VanishedCount(tasks[..|tasks| - 1]) + if Vanished(tasks[|tasks| - 1]) then 1 else 0
  }

  lemma {:induction false} LeftByParts(c: Config, tasks: seq<Task>)
    requires c.Seconds() > 0
    ensures multiset(LeftByAll(c, tasks)) == multiset(Own(tasks)) + multiset(Repeated(Record(c), Late(tasks)))
  {
    if tasks != [] {
      var n := |tasks| - 1;
      LeftByParts(c, tasks[..n]);
      OwnSplit(tasks);
      LeftByOneMore(c, tasks);
    }
  }

  lemma LeftByOneMore(c: Config, tasks: seq<Task>)
    requires c.Seconds() > 0 && tasks != []
    requires var before := tasks[..|tasks| - 1];
             multiset(LeftByAll(c, before)) == multiset(Own(before)) + multiset(Repeated(Record(c), Late(before)))
    ensures multiset(LeftByAll(c, tasks)) == multiset(Own(tasks)) + multiset(Repeated(Record(c), Late(tasks)))
  {
    var before, t := tasks[..|tasks| - 1], tasks[|tasks| - 1];
    var late := if t.cancelling then [Record(c)] else [];
    OwnSplit(tasks);
    assert Repeated(Record(c), Late(tasks)) == Repeated(Record(c), Late(before)) + late;
    Joined(LeftByAll(c, before), OwnOf(t), late);
    Paired(multiset(Own(before)), multiset(Repeated(Record(c), Late(before))), multiset(OwnOf(t)), multiset(late));
  }

  lemma Joined(a: seq<Filed>, b: seq<Filed>, c: seq<Filed>)
    ensures multiset(a + (b + c)) == multiset(a) + (multiset(b) + multiset(c))
  {
  }

  lemma Paired(a: multiset<Filed>, b: multiset<Filed>, c: multiset<Filed>, d: multiset<Filed>)
    ensures a + b + (c + d) == a + c + (b + d)
  {
  }

  /** A settled task leaves one sample, two if it swallowed its cancellation, and none if it vanished. */
  lemma {:induction false} LeftCount(c: Config, tasks: seq<Task>)
    requires (tasks == [] || c.Seconds() > 0) && AllDone(tasks)
    ensures |LeftByAll(c, tasks)| + VanishedCount(tasks) == |tasks| + SwallowedCount(tasks)
  {
    if tasks != [] { LeftCount(c, tasks[..|tasks| - 1]); }
  }

  lemma {:induction false} LeftWithin(c: Config, tasks: seq<Task>)
    requires tasks == [] || c.Seconds() > 0
    requires forall i :: 0 <= i < |tasks| ==> tasks[i].second < c.Seconds()
    ensures forall x :: x in LeftByAll(c, tasks) ==> x.0 < c.Seconds()
  {
    if tasks != [] { LeftWithin(c, tasks[..|tasks| - 1]); }
  }

  /** What a whole run leaves: the tasks are the planned ones and all settled, and the samples are exactly what each of
      them leaves behind. */
  ghost predicate Ended(c: Config, per: Rates, tasks: seq<Task>, samples: seq<Filed>) {
    && Planned(tasks, Plan(per, c.Seconds())) && AllDone(tasks)
    && (tasks == [] || c.Seconds() > 0)
    && multiset(samples) == multiset(LeftByAll(c, tasks))
    && |samples| + VanishedCount(tasks) == Dispatched(per, c.Seconds()) + SwallowedCount(tasks)
    && FiledWithin(samples, c.Seconds())
  }

  lemma EndedWhen(c: Config, per: Rates, tasks: seq<Task>, samples: seq<Filed>)
    requires Planned(tasks, Plan(per, c.Seconds())) && AllDone(tasks)
    requires if tasks == [] then samples == []
             else c.Seconds() > 0
                  && multiset(samples) == multiset(Own(tasks)) + multiset(Repeated(Record(c), Late(tasks)))
    ensures Ended(c, per, tasks, samples)
  {
    if tasks != [] { LeftByParts(c, tasks); }
    LeftCount(c, tasks);
    LeftWithin(c, tasks);
    assert |multiset(samples)| == |multiset(LeftByAll(c, tasks))|;
    forall k | 0 <= k < |samples| ensures samples[k].0 < c.Seconds() {
      assert samples[k] in multiset(samples);
      assert samples[k] in LeftByAll(c, tasks);
    }
  }

  // ----- the schedule of a run -----

  /** What happens from outside: `during(k)` is what the tasks do in the dispatcher's await number `k`, `polls` how
      often the tail is polled before the deadline, `reactions` what a running request makes of its cancellation: none
      lets it pass, anything else is an answer after all. */
  datatype World = World(during: nat -> seq<Event>, polls: nat, reactions: nat -> Option<Reply>)

  /** The dispatch of the first `i` of `n` requests, from await number `k` on. */
  function Requests(w: World, t: nat, n: nat, i: nat, k: nat): seq<Event> {
    if i == 0 then [] else Requests(w, t, n, i - 1, k) + ([Create(t)] + if i < n then w.during(k + i - 1) else [])
  }

  function AwaitsIn(n: nat): nat {
    if n == 0 then 1 else n
  }

  function Awaits(per: Rates, seconds: nat): nat {
    if seconds == 0 then 0 else Awaits(per, seconds - 1) + AwaitsIn(per(seconds - 1))
  }

  function DispatchRun(per: Rates, w: World, seconds: nat): seq<Event> {
    if seconds == 0 then []
    else
      var n, k := per(seconds - 1), Awaits(per, seconds - 1);
      DispatchRun(per, w, seconds - 1) + Requests(w, seconds - 1, n, n, k) + w.during(k + AwaitsIn(n) - 1)
  }

  lemma DispatchNext(per: Rates, w: World, t: nat, n: nat)
    requires n == per(t)
    ensures Awaits(per, t + 1) == Awaits(per, t) + AwaitsIn(n)
    ensures DispatchRun(per, w, t + 1)
            == DispatchRun(per, w, t) + Requests(w, t, n, n, Awaits(per, t))
               + w.during(Awaits(per, t) + AwaitsIn(n) - 1)
  {
  }

  /** A run and the number of awaits in it. */
  datatype Progress = Progress(run: seq<Event>, awaits: nat)

  function TailRun(cap: nat, w: World, p: Progress, polls: nat): Progress
    decreases polls
  {
    if polls == 0 || AllDone(After(cap, p.run).tasks) then p
    else TailRun(cap, w, Progress(p.run + w.during(p.awaits), p.awaits + 1), polls - 1)
  }

  lemma TailStep(cap: nat, w: World, p: Progress, polls: nat)
    requires polls > 0 && !AllDone(After(cap, p.run).tasks)
    ensures TailRun(cap, w, p, polls)
            == TailRun(cap, w, Progress(p.run + w.during(p.awaits), p.awaits + 1), polls - 1)
  {
  }

  lemma TailEnd(cap: nat, w: World, p: Progress, polls: nat)
    requires AllDone(After(cap, p.run).tasks)
    ensures TailRun(cap, w, p, polls) == p
  {
  }

  /** How the await of a straggler ends, if the straggler is not done by then. */
  function Ending(tasks: seq<Task>, w: World, i: nat): seq<Event> {
    if i >= |tasks| || tasks[i].Done() then []
    else if tasks[i].phase == Running && w.reactions(i).Some? then [Answer(i, w.reactions(i).value)]
    else [Stop(i)]
  }

  function StragglerRun(cap: nat, w: World, p: Progress, stragglers: seq<nat>): Progress
    decreases |stragglers|
  {
    if stragglers == [] then p
    else
      var run := p.run + w.during(p.awaits);
      StragglerRun(cap, w, Progress(run + Ending(After(cap, run).tasks, w, stragglers[0]), p.awaits + 1),
                   stragglers[1..])
  }

  /** The tasks that are not done, in order. */
  function Pending(tasks: seq<Task>): (left: seq<nat>)
    ensures forall k :: 0 <= k < |left| ==> left[k] < |tasks| && !tasks[left[k]].Done()
    ensures forall i: nat :: i < |tasks| && !tasks[i].Done() ==> i in left
  {
    if tasks == [] then []
    else Pending(tasks[..|tasks| - 1]) + if tasks[|tasks| - 1].Done() then [] else [|tasks| - 1]
  }

  /** Everything up to the deadline. */
  function UntilDeadline(c: Config, cap: nat, w: World): Progress {
    TailRun(cap, w, Progress(DispatchRun(RatesOf(c), w, c.Seconds()), Awaits(RatesOf(c), c.Seconds())), w.polls)
  }

  /** The whole run. */
  function WholeRun(c: Config, cap: nat, w: World): seq<Event> {
    var p := UntilDeadline(c, cap, w);
    StragglerRun(cap, w, p.(run := p.run + [CancelAll]), Pending(After(cap, p.run).tasks)).run
  }

  // ----- the plan is kept -----

  /** Events of request tasks, as opposed to those of the dispatcher. */
  predicate OfTasks(events: seq<Event>) {
    forall k :: 0 <= k < |events| ==> !events[k].Create? && !events[k].CancelAll?
  }

  predicate NoneCancelled(tasks: seq<Task>) {
    forall k :: 0 <= k < |tasks| ==> !tasks[k].cancelling
  }

  /** The seconds of the requests a run creates. */
  function CreatedIn(run: seq<Event>): seq<nat> {
    if run == [] then []
    else
      var e := run[|run| - 1];
      CreatedIn(run[..|run| - 1]) + if e.Create? then [e.second] else []
  }

  /** It creates exactly these requests and cancels none. */
  predicate Creates(run: seq<Event>, plan: seq<nat>) {
    CreatedIn(run) == plan && CancelAll !in run
  }

  lemma {:induction false} CreatedAre(cap: nat, run: seq<Event>)
    ensures Planned(After(cap, run).tasks, CreatedIn(run))
    ensures CancelAll !in run ==> NoneCancelled(After(cap, run).tasks)
    decreases |run|
  {
    if run != [] {
      var n := |run| - 1;
      CreatedAre(cap, run[..n]);
      assert run[n] in run && forall e :: e in run[..n] ==> e in run;
    }
  }

  lemma {:induction false} CreatesThen(run: seq<Event>, plan: seq<nat>, events: seq<Event>, more: seq<nat>)
    requires Creates(run, plan) && Creates(events, more)
    ensures Creates(run + events, plan + more)
    decreases |events|
  {
    if events == [] {
      assert run + events == run && plan + more == plan;
    } else {
      var n := |events| - 1;
      var e := events[n];
      var init := CreatedIn(events[..n]);
      assert e in events;
      CreatesThen(run, plan, events[..n], init);
      assert (run + events)[..|run + events| - 1] == run + events[..n];
      assert plan + more == plan + init + if e.Create? then [e.second] else [];
    }
  }

  lemma {:induction false} TasksCreateNone(events: seq<Event>)
    requires OfTasks(events)
    ensures Creates(events, [])
    decreases |events|
  {
    if events != [] { TasksCreateNone(events[..|events| - 1]); }
  }

  lemma TasksKeepPlan(run: seq<Event>, plan: seq<nat>, events: seq<Event>)
    requires Creates(run, plan) && OfTasks(events)
    ensures Creates(run + events, plan)
  {
    TasksCreateNone(events);
    CreatesThen(run, plan, events, []);
    assert plan + [] == plan;
  }

  lemma {:induction false} RequestsCreate(w: World, t: nat, n: nat, i: nat, k: nat)
    requires i <= n && forall j :: OfTasks(w.during(j))
    ensures Creates(Requests(w, t, n, i, k), Repeated(t, i))
    decreases i
  {
    if i > 0 {
      RequestsCreate(w, t, n, i - 1, k);
      assert [Create(t)][..0] == [];
      assert Creates([Create(t)], [t]);
      var gap := if i < n then w.during(k + i - 1) else [];
      TasksKeepPlan([Create(t)], [t], gap);
      CreatesThen(Requests(w, t, n, i - 1, k), Repeated(t, i - 1), [Create(t)] + gap, [t]);
    }
  }

  lemma SecondCreates(run: seq<Event>, plan: seq<nat>, w: World, t: nat, n: nat, k: nat, after: nat)
    requires Creates(run, plan) && forall j :: OfTasks(w.during(j))
    ensures Creates(run + Requests(w, t, n, n, k) + w.during(after), plan + Repeated(t, n))
  {
    RequestsCreate(w, t, n, n, k);
    CreatesThen(run, plan, Requests(w, t, n, n, k), Repeated(t, n));
    TasksKeepPlan(run + Requests(w, t, n, n, k), plan + Repeated(t, n), w.during(after));
  }

  /** Whatever the tasks do meanwhile, dispatch creates exactly the planned requests. */
  lemma {:induction false} DispatchCreates(per: Rates, w: World, seconds: nat)
    requires forall j :: OfTasks(w.during(j))
    ensures Creates(DispatchRun(per, w, seconds), Plan(per, seconds))
  {
    if seconds > 0 {
      var t := seconds - 1;
      var n, k := per(t), Awaits(per, t);
      DispatchCreates(per, w, t);
      DispatchNext(per, w, t, n);
      SecondCreates(DispatchRun(per, w, t), Plan(per, t), w, t, n, k, k + AwaitsIn(n) - 1);
    }
  }

  lemma {:induction false} TailCreates(cap: nat, w: World, p: Progress, polls: nat, plan: seq<nat>)
    requires Creates(p.run, plan) && forall j :: OfTasks(w.during(j))
    ensures Creates(TailRun(cap, w, p, polls).run, plan)
    decreases polls
  {
    if polls > 0 && !AllDone(After(cap, p.run).tasks) {
      TasksKeepPlan(p.run, plan, w.during(p.awaits));
      TailCreates(cap, w, Progress(p.run + w.during(p.awaits), p.awaits + 1), polls - 1, plan);
    }
  }

  lemma UntilDeadlineCreates(c: Config, cap: nat, w: World)
    requires forall j :: OfTasks(w.during(j))
    ensures Creates(UntilDeadline(c, cap, w).run, Plan(RatesOf(c), c.Seconds()))
  {
    var per, seconds := RatesOf(c), c.Seconds();
    DispatchCreates(per, w, seconds);
    TailCreates(cap, w, Progress(DispatchRun(per, w, seconds), Awaits(per, seconds)), w.polls, Plan(per, seconds));
  }

  /** At the deadline the tasks are exactly the planned requests. */
  lemma UntilDeadlinePlanned(c: Config, cap: nat, w: World)
    requires forall j :: OfTasks(w.during(j))
    ensures var tasks := After(cap, UntilDeadline(c, cap, w).run).tasks;
            Planned(tasks, Plan(RatesOf(c), c.Seconds())) && NoneCancelled(tasks)
  {
    UntilDeadlineCreates(c, cap, w);
    CreatedAre(cap, UntilDeadline(c, cap, w).run);
  }

  // ----- how the dispatcher waits -----

  /** The tail is awaited until every request is done, and otherwise as often as the deadline allows. */
  lemma {:induction false} TailWaits(cap: nat, w: World, p: Progress, polls: nat)
    ensures var q := TailRun(cap, w, p, polls);
            && p.awaits <= q.awaits <= p.awaits + polls
            && (AllDone(After(cap, q.run).tasks) || q.awaits == p.awaits + polls)
            && (AllDone(After(cap, p.run).tasks) ==> q == p)
    decreases polls
  {
    if polls > 0 && !AllDone(After(cap, p.run).tasks) {
      TailWaits(cap, w, Progress(p.run + w.during(p.awaits), p.awaits + 1), polls - 1);
    }
  }

  /** So whatever is not done is cancelled only after the last poll. */
  lemma DeadlineOrDone(c: Config, cap: nat, w: World)
    ensures var p := UntilDeadline(c, cap, w);
            AllDone(After(cap, p.run).tasks) || p.awaits == Awaits(RatesOf(c), c.Seconds()) + w.polls
  {
    var per, seconds := RatesOf(c), c.Seconds();
    TailWaits(cap, w, Progress(DispatchRun(per, w, seconds), Awaits(per, seconds)), w.polls);
  }

  /** What the tasks do in a run. */
  function TaskEvents(run: seq<Event>): seq<Event> {
    if run == [] then []
    else
      var e := run[|run| - 1];
      TaskEvents(run[..|run| - 1]) + if e.Create? then [] else [e]
  }

  /** What they do in `n` awaits from number `k` on. */
  function Gaps(w: World, k: nat, n: nat): seq<Event> {
    if n == 0 then [] else Gaps(w, k, n - 1) + w.during(k + n - 1)
  }

  lemma {:induction false} TaskEventsThen(a: seq<Event>, b: seq<Event>)
    ensures TaskEvents(a + b) == TaskEvents(a) + TaskEvents(b)
    decreases |b|
  {
    if b == [] {
      assert a + b == a;
    } else {
      assert (a + b)[..|a + b| - 1] == a + b[..|b| - 1];
      TaskEventsThen(a, b[..|b| - 1]);
    }
  }

  lemma {:induction false} AllTaskEvents(events: seq<Event>)
    requires OfTasks(events)
    ensures TaskEvents(events) == events
    decreases |events|
  {
    if events != [] { AllTaskEvents(events[..|events| - 1]); }
  }

  lemma TaskEventsOf(e: Event, gap: seq<Event>)
    requires e.Create? && OfTasks(gap)
    ensures TaskEvents([e] + gap) == gap
  {
    TaskEventsThen([e], gap);
    AllTaskEvents(gap);
    assert [e][..0] == [];
  }

  /** The requests of a second are spread: by the time the tasks have had `i` awaits, `i` requests have been created. */
  lemma {:induction false} Spread(w: World, t: nat, n: nat, i: nat, k: nat)
    requires i <= n && forall j :: OfTasks(w.during(j))
    ensures CreatedIn(Requests(w, t, n, i, k)) == Repeated(t, i)
    ensures TaskEvents(Requests(w, t, n, i, k)) == Gaps(w, k, if i < n || n == 0 then i else n - 1)
    decreases i
  {
    RequestsCreate(w, t, n, i, k);
    if i > 0 {
      Spread(w, t, n, i - 1, k);
      var gap := if i < n then w.during(k + i - 1) else [];
      TaskEventsOf(Create(t), gap);
      TaskEventsThen(Requests(w, t, n, i - 1, k), [Create(t)] + gap);
    }
  }

  lemma {:induction false} GapsThen(w: World, k: nat, m: nat, n: nat)
    ensures Gaps(w, k, m) + Gaps(w, k + m, n) == Gaps(w, k, m + n)
    decreases n
  {
    if n > 0 { GapsThen(w, k, m, n - 1); }
  }

  lemma SecondAwaits(run: seq<Event>, w: World, t: nat, n: nat, k: nat)
    requires TaskEvents(run) == Gaps(w, 0, k) && forall j :: OfTasks(w.during(j))
    ensures TaskEvents(run + Requests(w, t, n, n, k) + w.during(k + AwaitsIn(n) - 1)) == Gaps(w, 0, k + AwaitsIn(n))
  {
    var requests, last := Requests(w, t, n, n, k), w.during(k + AwaitsIn(n) - 1);
    Spread(w, t, n, n, k);
    AllTaskEvents(last);
    TaskEventsThen(run, requests);
    TaskEventsThen(run + requests, last);
    GapsThen(w, 0, k, AwaitsIn(n) - 1);
    assert Gaps(w, 0, k + AwaitsIn(n)) == Gaps(w, 0, k + AwaitsIn(n) - 1) + last;
  }

  /** Over the whole dispatch the tasks have exactly as many awaits as `Awaits` says... */
  lemma {:induction false} DispatchAwaits(per: Rates, w: World, seconds: nat)
    requires forall j :: OfTasks(w.during(j))
    ensures TaskEvents(DispatchRun(per, w, seconds)) == Gaps(w, 0, Awaits(per, seconds))
  {
    if seconds > 0 {
      var t := seconds - 1;
      var n, k := per(t), Awaits(per, t);
      DispatchAwaits(per, w, t);
      DispatchNext(per, w, t, n);
      SecondAwaits(DispatchRun(per, w, t), w, t, n, k);
    }
  }

  /** The seconds that dispatch nothing. */
  function Idle(per: Rates, seconds: nat): nat {
    if seconds == 0 then 0 else Idle(per, seconds - 1) + if per(seconds - 1) == 0 then 1 else 0
  }

  /** ... which is one for every request, and one for every second without any. */
  lemma {:induction false} AwaitsAre(per: Rates, seconds: nat)
    ensures Awaits(per, seconds) == Dispatched(per, seconds) + Idle(per, seconds)
  {
    if seconds > 0 { AwaitsAre(per, seconds - 1); }
  }

  // ----- workloads that do not end as they should -----

  /** A request answers although it has been cancelled... */
  predicate OddAnswer(s: State, e: Event) {
    e.Answer? && Enabled(s, e) && s.tasks[e.task].cancelling
  }

  /** ... or ends in a cancellation although it has not been. */
  predicate OddStop(s: State, e: Event) {
    e.Stop? && Enabled(s, e) && !s.tasks[e.task].cancelling
  }

  function OddAnswers(cap: nat, run: seq<Event>): nat {
    if run == [] then 0
    else
      var n := |run| - 1;
      OddAnswers(cap, run[..n]) + if OddAnswer(After(cap, run[..n]), run[n]) then 1 else 0
  }

  function OddStops(cap: nat, run: seq<Event>): nat {
    if run == [] then 0
    else
      var n := |run| - 1;
      OddStops(cap, run[..n]) + if OddStop(After(cap, run[..n]), run[n]) then 1 else 0
  }

  function One(b: bool): nat {
    if b then 1 else 0
  }

  lemma {:induction false} CountsUpdated(tasks: seq<Task>, i: nat, t: Task)
    requires i < |tasks|
    ensures SwallowedCount(tasks[i := t]) + One(Swallowed(tasks[i])) == SwallowedCount(tasks) + One(Swallowed(t))
    ensures VanishedCount(tasks[i := t]) + One(Vanished(tasks[i])) == VanishedCount(tasks) + One(Vanished(t))
    decreases |tasks|
  {
    var n := |tasks| - 1;
    if i == n {
      assert tasks[i := t][..n] == tasks[..n];
    } else {
      assert tasks[i := t][..n] == tasks[..n][i := t];
      CountsUpdated(tasks[..n], i, t);
    }
  }

  lemma {:induction false} CancellingKeepsCounts(tasks: seq<Task>)
    ensures SwallowedCount(AllCancelled(tasks)) == SwallowedCount(tasks)
    ensures VanishedCount(AllCancelled(tasks)) == VanishedCount(tasks)
  {
    if tasks != [] {
      var n := |tasks| - 1;
      assert AllCancelled(tasks)[..n] == AllCancelled(tasks[..n]);
      CancellingKeepsCounts(tasks[..n]);
    }
  }

  lemma StepCounts(s: State, e: Event)
    ensures SwallowedCount(Step(s, e).tasks) == SwallowedCount(s.tasks) + One(OddAnswer(s, e))
    ensures VanishedCount(Step(s, e).tasks) == VanishedCount(s.tasks) + One(OddStop(s, e))
  {
    if Enabled(s, e) {
      match e {
        case Create(second) => assert Step(s, e).tasks[..|s.tasks|] == s.tasks;
        case CancelAll => CancellingKeepsCounts(s.tasks);
        case Admit(i) => CountsUpdated(s.tasks, i, s.tasks[i].(phase := Running));
        case Answer(i, reply) => CountsUpdated(s.tasks, i, s.tasks[i].(phase := Finished(SampleOf(reply))));
        case Stop(i) => CountsUpdated(s.tasks, i, s.tasks[i].(phase := Stopped));
      }
    }
  }

  /** The tasks that leave two samples, or none, are as many as the odd events of the run. */
  lemma {:induction false} CountsAre(cap: nat, run: seq<Event>)
    ensures SwallowedCount(After(cap, run).tasks) == OddAnswers(cap, run)
    ensures VanishedCount(After(cap, run).tasks) == OddStops(cap, run)
    decreases |run|
  {
    if run != [] {
      var n := |run| - 1;
      CountsAre(cap, run[..n]);
      StepCounts(After(cap, run[..n]), run[n]);
    }
  }

  // ----- which events can be odd -----

  predicate HasNoStop(run: seq<Event>) {
    forall k :: 0 <= k < |run| ==> !run[k].Stop?
  }

  predicate HasNoAnswer(run: seq<Event>) {
    forall k :: 0 <= k < |run| ==> !run[k].Answer?
  }

  /** Before the cancelling no answer is odd... */
  lemma {:induction false} BeforeCancelling(cap: nat, run: seq<Event>)
    requires CancelAll !in run
    ensures OddAnswers(cap, run) == 0 && (HasNoStop(run) ==> OddStops(cap, run) == 0)
    decreases |run|
  {
    if run != [] {
      var n := |run| - 1;
      BeforeCancelling(cap, run[..n]);
      CreatedAre(cap, run[..n]);
      assert forall k :: 0 <= k < n ==> run[..n][k] == run[k];
    }
  }

  predicate LateOnes(tasks: seq<Task>) {
    forall k :: 0 <= k < |tasks| ==> tasks[k].Done() || tasks[k].cancelling
  }

  lemma LateStep(s: State, e: Event)
    requires LateOnes(s.tasks) && !e.Create? && !e.CancelAll?
    ensures LateOnes(Step(s, e).tasks) && !OddStop(s, e)
  {
  }

  lemma LastEvent(before: seq<Event>, events: seq<Event>)
    requires events != []
    ensures var run, n := before + events, |events| - 1;
            run != [] && run[..|run| - 1] == before + events[..n] && run[|run| - 1] == events[n]
  {
  }

  /** ... and after it no stop is. */
  lemma {:induction false} AfterCancelling(cap: nat, before: seq<Event>, events: seq<Event>)
    requires LateOnes(After(cap, before).tasks) && OfTasks(events)
    ensures LateOnes(After(cap, before + events).tasks)
    ensures OddStops(cap, before + events) == OddStops(cap, before)
    ensures HasNoAnswer(events) ==> OddAnswers(cap, before + events) == OddAnswers(cap, before)
    decreases |events|
  {
    if events == [] {
      assert before + events == before;
    } else {
      var n := |events| - 1;
      AfterCancelling(cap, before, events[..n]);
      LastEvent(before, events);
      LateStep(After(cap, before + events[..n]), events[n]);
    }
  }

  /** What the stragglers do after the cancelling. */
  lemma {:induction false} StragglerEvents(cap: nat, w: World, p: Progress, stragglers: seq<nat>)
    returns (rest: seq<Event>)
    requires forall j :: OfTasks(w.during(j))
    ensures StragglerRun(cap, w, p, stragglers).run == p.run + rest && OfTasks(rest)
    ensures (forall i :: w.reactions(i) == None) && (forall j: nat :: j >= p.awaits ==> HasNoAnswer(w.during(j))) ==>
              HasNoAnswer(rest)
    decreases |stragglers|
  {
    if stragglers == [] {
      return [];
    }
    var run := p.run + w.during(p.awaits);
    var ending := Ending(After(cap, run).tasks, w, stragglers[0]);
    rest := StragglerEvents(cap, w, Progress(run + ending, p.awaits + 1), stragglers[1..]);
    assert run + ending + rest == p.run + (w.during(p.awaits) + ending + rest);
    rest := w.during(p.awaits) + ending + rest;
  }

  lemma {:induction false} RequestEvents(w: World, t: nat, n: nat, i: nat, k: nat, bound: nat)
    requires i <= n && k + AwaitsIn(n) <= bound && forall j: nat :: j < bound ==> HasNoStop(w.during(j))
    ensures HasNoStop(Requests(w, t, n, i, k))
    decreases i
  {
    if i > 0 { RequestEvents(w, t, n, i - 1, k, bound); }
  }

  lemma {:induction false} DispatchEvents(per: Rates, w: World, seconds: nat, bound: nat)
    requires Awaits(per, seconds) <= bound && forall j: nat :: j < bound ==> HasNoStop(w.during(j))
    ensures HasNoStop(DispatchRun(per, w, seconds))
  {
    if seconds > 0 {
      var n, k := per(seconds - 1), Awaits(per, seconds - 1);
      DispatchEvents(per, w, seconds - 1, bound);
      RequestEvents(w, seconds - 1, n, n, k, bound);
      assert HasNoStop(w.during(k + AwaitsIn(n) - 1));
    }
  }

  lemma {:induction false} TailEvents(cap: nat, w: World, p: Progress, polls: nat)
    ensures p.awaits <= TailRun(cap, w, p, polls).awaits
    ensures HasNoStop(p.run) && (forall j: nat :: j < TailRun(cap, w, p, polls).awaits ==> HasNoStop(w.during(j))) ==>
              HasNoStop(TailRun(cap, w, p, polls).run)
    decreases polls
  {
    if polls > 0 && !AllDone(After(cap, p.run).tasks) {
      TailEvents(cap, w, Progress(p.run + w.during(p.awaits), p.awaits + 1), polls - 1);
    }
  }

  /** The workloads let cancellations pass: none cancels itself before the deadline, and none answers after it. */
  ghost predicate Obedient(c: Config, cap: nat, w: World) {
    var deadline := UntilDeadline(c, cap, w).awaits;
    && (forall i :: w.reactions(i) == None)
    && (forall j: nat :: j < deadline ==> HasNoStop(w.during(j)))
    && (forall j: nat :: j >= deadline ==> HasNoAnswer(w.during(j)))
  }

  /** What happens up to the deadline, the cancelling, and the rest. */
  lemma WholeRunSplits(c: Config, cap: nat, w: World) returns (rest: seq<Event>)
    requires forall j :: OfTasks(w.during(j))
    ensures WholeRun(c, cap, w) == UntilDeadline(c, cap, w).run + [CancelAll] + rest && OfTasks(rest)
    ensures Obedient(c, cap, w) ==> HasNoAnswer(rest)
  {
    var p := UntilDeadline(c, cap, w);
    rest := StragglerEvents(cap, w, p.(run := p.run + [CancelAll]), Pending(After(cap, p.run).tasks));
  }

  /** Only stops before the cancelling and answers after it can be odd. */
  lemma OddByPhase(cap: nat, before: seq<Event>, rest: seq<Event>)
    requires CancelAll !in before && OfTasks(rest)
    ensures OddStops(cap, before + [CancelAll] + rest) == OddStops(cap, before) && OddAnswers(cap, before) == 0
    ensures HasNoAnswer(rest) ==> OddAnswers(cap, before + [CancelAll] + rest) == 0
  {
    BeforeCancelling(cap, before);
    CancellingIsPlain(cap, before);
    AfterCancelling(cap, before + [CancelAll], rest);
  }

  lemma CancellingIsPlain(cap: nat, before: seq<Event>)
    ensures LateOnes(After(cap, before + [CancelAll]).tasks)
    ensures OddStops(cap, before + [CancelAll]) == OddStops(cap, before)
    ensures OddAnswers(cap, before + [CancelAll]) == OddAnswers(cap, before)
  {
    assert (before + [CancelAll])[..|before|] == before;
  }

  lemma NoStopBefore(c: Config, cap: nat, w: World)
    requires Obedient(c, cap, w)
    ensures HasNoStop(UntilDeadline(c, cap, w).run)
  {
    var per, seconds := RatesOf(c), c.Seconds();
    TailEvents(cap, w, Progress(DispatchRun(per, w, seconds), Awaits(per, seconds)), w.polls);
    DispatchEvents(per, w, seconds, UntilDeadline(c, cap, w).awaits);
  }

  /** With workloads that let cancellations pass, nothing is odd. */
  lemma ObedientIsPlain(c: Config, cap: nat, w: World)
    requires Obedient(c, cap, w) && forall j :: OfTasks(w.during(j))
    ensures OddAnswers(cap, WholeRun(c, cap, w)) == OddStops(cap, WholeRun(c, cap, w)) == 0
  {
    var before := UntilDeadline(c, cap, w).run;
    var rest := WholeRunSplits(c, cap, w);
    UntilDeadlineCreates(c, cap, w);
    OddByPhase(cap, before, rest);
    NoStopBefore(c, cap, w);
    BeforeCancelling(cap, before);
  }
}
