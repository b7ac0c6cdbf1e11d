/** `run_agent`: walking the manifest from wherever the step log says, and the crash-and-resume demo. */
module ResumeMain {
  import opened Wrappers
  import opened ResumeModel
  import opened ResumeLog
  import opened ResumeRun
  import opened ResumeState
  import opened ResumeStore
  import opened ResumeTheorems
  import opened ResumeAgent
  import opened Runs

  // ----- one attempt at a step -----

  ghost function AttemptOps(plan: Plan, c: nat): seq<Op> {
    [Start(StepAt(c))] + plan(c)
  }

  /** What a step reads is canonical however much of its own plan is already on disk. */
  lemma PlanReadable(env: Env, c: nat, t: Track)
    requires env.Valid() && c < STEPS && t.all == StepOps(env, c)
    requires t.good ==> Resumable(CanonOf(env), c, t.w0.kv, t.w0.files)
    ensures Planned(env, c, t)
  {
    forall w: World, b: nat, done: seq<Op> | t.good && Midway(t, w, b, done)
      ensures Readable(env, c, w.kv, w.files)
    {
      assert done == t.all[..|done|];
      WritesKeep(env, t.w0, c, |done|);
      ResumableReadable(env, c, w.kv, w.files);
    }
  }

  /** Runs the function of step `c`. */
  method RunStep(env: Env, ws: WorkspaceStore, ghost wf: SimulatedWorkflow, record: RunRecord, c: nat, ghost t: Track)
    returns (o: Outcome)
    requires env.Valid() && c < STEPS && Begins(env, c, t, View(ws, wf), ws.host.budget)
    modifies ws`kv, ws`files, ws.host`budget, record`llmCalls
    ensures StepRan(t, View(ws, wf), ws.host.budget, o)
    ensures o == Done && t.good ==> record.llmCalls == old(record.llmCalls) + Calls(env, StepPrompts(env, c))
  {
    match c {
      case 0 => o := StepDiscover(env, ws, wf, record, t);
      case 1 => o := StepFetch(env, ws, wf, t);
      case 2 => o := StepExtract(env, ws, wf, record, t);
      case 3 => o := StepOutline(env, ws, wf, record, t);
      case 4 => o := StepWrite(env, ws, wf, record, t);
      case _ => o := StepPolish(env, ws, wf, record, t);
    }
  }

  lemma StartResumable(env: Env, w: World, c: nat)
    requires Inv(CanonOf(env), w, c) && c < STEPS
    ensures Resumable(CanonOf(env), c, w.kv, w.files)
  {
  }

  lemma AttemptRan(w: World, w1: World, w2: World, b: nat, b1: nat, b2: nat, plan: Plan, c: nat, died: bool)
    requires w1 == Apply(w, Start(StepAt(c))) && b == b1 + 1
    requires Ran(w1, w2, b1, b2, plan(c), died)
    ensures Ran(w, w2, b, b2, AttemptOps(plan, c), died)
  {
    RanOne(w, w1, b, b1, Start(StepAt(c)));
    RanThen(w, w1, w2, b, b1, b2, [Start(StepAt(c))], plan(c), died);
  }

  lemma StartIs(w: World, name: StepName, entry: StepInfo, w1: World)
    requires entry == StepInfo(w.nextId, name, Running, 1 + Attempts(w.steps, name), None)
    requires w1 == World(w.kv, w.files, w.snapshots, w.steps + [entry], RunningWorkflow, w.nextId + 1)
    ensures w1 == Apply(w, Start(name))
  {
  }

  lemma NotStarted(w: World, plan: Plan, c: nat)
    ensures Ran(w, w, 0, 0, AttemptOps(plan, c), true)
  {
    assert AttemptOps(plan, c)[..0] == [];
  }

  /** Starts step `c`, runs it, and marks the attempt failed if the step throws. */
  method Attempt(env: Env, ws: WorkspaceStore, wf: SimulatedWorkflow, record: RunRecord, c: nat, ghost good: bool)
    returns (o: Outcome, id: nat)
    requires env.Valid() && c < STEPS && ws.host == wf.host && wf.Valid()
    requires good ==> Inv(CanonOf(env), View(ws, wf), c)
    modifies ws`kv, ws`files, ws.host, wf, record`llmCalls
    ensures wf.Valid()
    ensures good && o != Threw ==>
              Ran(old(View(ws, wf)), View(ws, wf), old(ws.host.budget), ws.host.budget,
                  AttemptOps(PlanOf(env), c), o == Died)
    ensures o == Done ==>
              wf.steps == old(wf.steps)
                          + [StepInfo(id, StepAt(c), Running, 1 + Attempts(old(wf.steps), StepAt(c)), None)]
    ensures o == Done ==> id == old(ws.host.nextId) < ws.host.nextId
    ensures o == Done && good ==> record.llmCalls == old(record.llmCalls) + Calls(env, StepPrompts(env, c))
    ensures o == Threw ==> !good && FailedLast(wf.steps) && wf.status == RunningWorkflow
  {
    id := 0;
    ghost var w0, b0 := View(ws, wf), ws.host.budget;
    if good { StartResumable(env, w0, c); }
    var step := wf.StartStep(StepAt(c));
    assert !StepAt(c).Other?;
    if !step.Ok? {
      NotStarted(View(ws, wf), PlanOf(env), c);
      return Died, 0;
    }
    ghost var w1, b1 := View(ws, wf), ws.host.budget;
    StartIs(w0, StepAt(c), step.value, w1);
    id := step.value.id;
    o := RunStarted(env, ws, wf, record, c, step.value, old(wf.steps), good);
    if good { AttemptRan(w0, w1, View(ws, wf), b0, b1, ws.host.budget, PlanOf(env), c, o == Died); }
  }

  /** Runs the step whose entry has just been appended to the log, and marks the entry failed if it throws. */
  method RunStarted(env: Env, ws: WorkspaceStore, wf: SimulatedWorkflow, record: RunRecord, c: nat, entry: StepInfo,
                    ghost before: seq<StepInfo>, ghost good: bool)
    returns (o: Outcome)
    requires env.Valid() && c < STEPS && ws.host == wf.host && wf.Valid()
    requires wf.steps == before + [entry] && forall i :: 0 <= i < |before| ==> before[i].id < entry.id
    requires good ==> Resumable(CanonOf(env), c, ws.kv, ws.files)
    modifies ws`kv, ws`files, ws.host`budget, wf`steps, record`llmCalls
    ensures wf.Valid()
    ensures good ==> o != Threw
    ensures good ==> Ran(old(View(ws, wf)), View(ws, wf), old(ws.host.budget), ws.host.budget,
                         StepOps(env, c), o == Died)
    ensures o == Done ==> wf.steps == old(wf.steps)
    ensures o == Done && good ==> record.llmCalls == old(record.llmCalls) + Calls(env, StepPrompts(env, c))
    ensures o == Threw ==> FailedLast(wf.steps)
  {
    ghost var t := Track(good, View(ws, wf), ws.host.budget, StepOps(env, c));
    PlanReadable(env, c, t);
    o := RunStep(env, ws, wf, record, c, t);
    if o == Threw {
      LastFound(before, entry);
      var failed := wf.FailStep(entry.id);
      if failed == PowerLoss { o := Died; }
    }
  }

  /** The id a step log entry was just given finds that entry. */
  lemma {:induction false} LastFound(before: seq<StepInfo>, entry: StepInfo)
    requires forall i :: 0 <= i < |before| ==> before[i].id < entry.id
    ensures FindStep(before + [entry], entry.id) == |before|
    decreases |before|
  {
    if before != [] {
      LastFound(before[1..], entry);
      assert (before + [entry])[1..] == before[1..] + [entry];
    }
  }

  /** A failed attempt is on record. */
  ghost predicate FailedLast(steps: seq<StepInfo>) {
    steps != [] && steps[|steps| - 1].status == Failed
  }

  // ----- committing a step -----

  ghost function CommitOps(c: nat): seq<Op> {
    [Snap(StepAt(c)), Complete]
  }

  /** Snapshot, then completion of the running attempt; the machine may die before either. */
  method Commit(ws: WorkspaceStore, wf: SimulatedWorkflow, c: nat, id: nat, ghost before: seq<StepInfo>)
    returns (snapshot: Option<nat>)
    requires ws.host == wf.host && wf.Valid()
    requires |wf.steps| == |before| + 1 && wf.steps[..|before|] == before && wf.steps[|before|].id == id
    requires forall i :: 0 <= i < |before| ==> before[i].id < id
    modifies ws`snapshots, ws.host, wf
    ensures wf.Valid()
    ensures Ran(old(View(ws, wf)), View(ws, wf), old(ws.host.budget), ws.host.budget, CommitOps(c), snapshot == None)
  {
    ghost var w, b := View(ws, wf), ws.host.budget;
    var snap := ws.TakeSnapshot(StepAt(c));
    ghost var w1, b1 := View(ws, wf), ws.host.budget;
    if !snap.Ok? {
      assert CommitOps(c)[..0] == [];
      return None;
    }
    LastIndex(before, wf.steps, id);
    var done := wf.CompleteStep(id, snap.value);
    snapshot := if done.Ok? then Some(snap.value) else None;
    CommitRan(w, w1, View(ws, wf), b, b1, ws.host.budget, c, !done.Ok?);
  }

  lemma LastIndex(before: seq<StepInfo>, steps: seq<StepInfo>, id: nat)
    requires |steps| == |before| + 1 && steps[..|before|] == before && steps[|before|].id == id
    requires forall i :: 0 <= i < |before| ==> before[i].id < id
    ensures FindStep(steps, id) == |before|
  {
    LastFound(before, steps[|before|]);
    assert steps == before + [steps[|before|]];
  }

  lemma CommitRan(w: World, w1: World, w2: World, b: nat, b1: nat, b2: nat, c: nat, died: bool)
    requires w1 == Apply(w, Snap(StepAt(c))) && b == b1 + 1
    requires if died then b1 == 0 && b2 == 0 && w2 == w1 else w2 == Apply(w1, Complete) && b1 == b2 + 1
    ensures Ran(w, w2, b, b2, CommitOps(c), died)
  {
    RanOne(w, w1, b, b1, Snap(StepAt(c)));
    if died { assert [Complete][..0] == []; } else { RanOne(w1, w2, b1, b2, Complete); }
    RanThen(w, w1, w2, b, b1, b2, [Snap(StepAt(c))], [Complete], died);
  }

  // ----- where a run is -----

  /** The run that started at `w0` with `b0` writes to live has done exactly `done`: every step from `i` up
      to `c`. */
  ghost predicate OnTrack(env: Env, w0: World, b0: nat, crashAt: Option<StepName>, c: nat, w: World, b: nat,
                          done: seq<Op>) {
    var i := NextIndex(w0.steps);
    && i <= c <= STEPS
    && Ran(w0, w, b0, b, done, false)
    && done + Script(PlanOf(env), c, crashAt) == Script(PlanOf(env), i, crashAt)
    && forall j :: i <= j < c ==> crashAt != Some(StepAt(j))
  }

  lemma StepDone(env: Env, w0: World, b0: nat, crashAt: Option<StepName>, c: nat, w: World, b: nat, done: seq<Op>,
                 w': World, b': nat)
    requires env.Valid() && OnTrack(env, w0, b0, crashAt, c, w, b, done)
    requires c < STEPS && crashAt != Some(StepAt(c))
    requires Ran(w, w', b, b', Block(PlanOf(env), c), false)
    ensures OnTrack(env, w0, b0, crashAt, c + 1, w', b', done + Block(PlanOf(env), c))
  {
    var i := NextIndex(w0.steps);
    ScriptMoves(PlanOf(env), w0, b0, i, crashAt, c, w, b, done, w', b');
  }

  /** `b` operations take a run from step `i` to step `c`. */
  lemma {:induction false} DoneIs(plan: Plan, i: nat, c: nat, crashAt: Option<StepName>, b: int)
    requires i <= c <= STEPS && forall j :: i <= j < c ==> crashAt != Some(StepAt(j))
    requires b + |Script(plan, c, crashAt)| == |Script(plan, i, crashAt)|
    ensures b >= 0 && DoneAfter(plan, i, crashAt, b) == c
    decreases c - i
  {
    if i < c {
      OneBlockOn(plan, i, crashAt);
      DoneIs(plan, i + 1, c, crashAt, b - |Block(plan, i)|);
      DoneOneOn(plan, i, crashAt, b - |Block(plan, i)|);
    } else {
      NotYet(plan, c, crashAt);
    }
  }

  lemma NotYet(plan: Plan, c: nat, crashAt: Option<StepName>)
    requires c <= STEPS
    ensures DoneAfter(plan, c, crashAt, 0) == c
  {
  }

  lemma OneBlockOn(plan: Plan, i: nat, crashAt: Option<StepName>)
    requires i < STEPS && crashAt != Some(StepAt(i))
    ensures |Script(plan, i, crashAt)| == |Block(plan, i)| + |Script(plan, i + 1, crashAt)|
  {
  }

  lemma DoneOneOn(plan: Plan, i: nat, crashAt: Option<StepName>, b: nat)
    requires i < STEPS && crashAt != Some(StepAt(i))
    ensures DoneAfter(plan, i, crashAt, |Block(plan, i)| + b) == DoneAfter(plan, i + 1, crashAt, b)
  {
  }

  /** Wherever a run from a reachable state is, the invariant holds. */
  lemma OnTrackInv(env: Env, w0: World, b0: nat, crashAt: Option<StepName>, c: nat, w: World, b: nat, done: seq<Op>)
    requires env.Valid() && Good(CanonOf(env), w0) && OnTrack(env, w0, b0, crashAt, c, w, b, done)
    ensures Inv(CanonOf(env), w, c)
  {
    var plan, i := PlanOf(env), NextIndex(w0.steps);
    DoneIs(plan, i, c, crashAt, |done|);
    RunSafe(env);
    RunKeepsInv(CanonOf(env), plan, w0, i, crashAt, |done|);
    assert Script(plan, i, crashAt)[..|done|] == done;
  }

  lemma ScriptMoves(plan: Plan, w0: World, b0: nat, i: nat, crashAt: Option<StepName>, c: nat, w: World, b: nat,
                    done: seq<Op>, w': World, b': nat)
    requires i <= c < STEPS && crashAt != Some(StepAt(c))
    requires Ran(w0, w, b0, b, done, false) && Ran(w, w', b, b', Block(plan, c), false)
    requires done + Script(plan, c, crashAt) == Script(plan, i, crashAt)
    ensures Ran(w0, w', b0, b', done + Block(plan, c), false)
    ensures done + Block(plan, c) + Script(plan, c + 1, crashAt) == Script(plan, i, crashAt)
  {
    RanThen(w0, w, w', b0, b, b', done, Block(plan, c), false);
    Regroup(done, Block(plan, c), Script(plan, c + 1, crashAt));
  }

  lemma Regroup(a: seq<Op>, b: seq<Op>, c: seq<Op>)
    ensures a + b + c == a + (b + c)
  {
  }

  /** How a run can end: the machine dies, the requested crash, or the end of the manifest. */
  lemma RunDied(env: Env, w0: World, b0: nat, crashAt: Option<StepName>, c: nat, w: World, b: nat, done: seq<Op>,
                w': World, ops: seq<Op>)
    requires OnTrack(env, w0, b0, crashAt, c, w, b, done)
    requires Ran(w, w', b, 0, ops, true) && ops <= Script(PlanOf(env), c, crashAt)
    ensures w' == RunOnce(env, w0, Invocation(b0, crashAt)) && !Finishes(env, w0, Invocation(b0, crashAt))
  {
    RanThen(w0, w, w', b0, b, 0, done, ops, true);
    RanDied(w0, w', b0, done + ops, Script(PlanOf(env), NextIndex(w0.steps), crashAt));
  }

  lemma RunCrashed(env: Env, w0: World, b0: nat, crashAt: Option<StepName>, c: nat, w: World, b: nat, done: seq<Op>,
                   w': World, b': nat)
    requires OnTrack(env, w0, b0, crashAt, c, w, b, done)
    requires c < STEPS && crashAt == Some(StepAt(c)) && Ran(w, w', b, b', AttemptOps(PlanOf(env), c), false)
    ensures w' == RunOnce(env, w0, Invocation(b0, crashAt)) && !Finishes(env, w0, Invocation(b0, crashAt))
  {
    RanThen(w0, w, w', b0, b, b', done, AttemptOps(PlanOf(env), c), false);
  }

  lemma RunEnded(env: Env, w0: World, b0: nat, crashAt: Option<StepName>, w: World, b: nat, done: seq<Op>)
    requires OnTrack(env, w0, b0, crashAt, STEPS, w, b, done)
    ensures w == RunOnce(env, w0, Invocation(b0, crashAt)) && Finishes(env, w0, Invocation(b0, crashAt))
  {
    assert done + [] == done;
  }

  // ----- accounting -----

  lemma {:induction false} TokensOf(env: Env, calls: seq<LlmCall>, prompts: seq<Prompt>)
    ensures SumInput(calls + Calls(env, prompts)) == SumInput(calls) + InputTokens(env, prompts)
    ensures SumOutput(calls + Calls(env, prompts)) == SumOutput(calls) + OutputTokens(env, prompts)
    decreases |prompts|
  {
    var all := calls + Calls(env, prompts);
    if prompts == [] {
      assert all == calls;
    } else {
      var init := prompts[..|prompts| - 1];
      TokensOf(env, calls, init);
      assert all[..|all| - 1] == calls + Calls(env, init);
    }
  }

  /** One record per step from step `i` on, under its name and with its snapshot. */
  ghost predicate Rows(steps: seq<StepRecord>, i: nat) {
    steps == [] ||
    (var n := |steps| - 1;
     Rows(steps[..n], i) && steps[n].name == StepAt(i + n) && steps[n].snapshot.Some?)
  }

  /** The same, and one more without a snapshot. */
  ghost predicate RowsAndOne(steps: seq<StepRecord>, i: nat) {
    steps != []
    && var n := |steps| - 1;
       Rows(steps[..n], i) && steps[n].name == StepAt(i + n) && steps[n].snapshot == None
  }

  lemma {:induction false} RowsAt(steps: seq<StepRecord>, i: nat, j: nat)
    requires Rows(steps, i) && j < |steps|
    ensures steps[j].name == StepAt(i + j) && steps[j].snapshot.Some?
    decreases |steps|
  {
    if j < |steps| - 1 { RowsAt(steps[..|steps| - 1], i, j); }
  }

  /** Everything this run asked the model for, and what it made durable, are the tokens of steps `i`, ..., `c - 1`, and
      it has a record of each. */
  ghost predicate Accounted(env: Env, calls: seq<LlmCall>, steps: seq<StepRecord>, i: nat, c: nat) {
    && i <= c && SumInput(calls) + SumOutput(calls) == SumCommitted(steps) == TokensBetween(env, i, c)
    && |steps| == c - i && Rows(steps, i)
  }

  lemma StepAccounted(env: Env, calls: seq<LlmCall>, steps: seq<StepRecord>, i: nat, c: nat, calls': seq<LlmCall>,
                      last: StepRecord)
    requires Accounted(env, calls, steps, i, c) && calls' == calls + Calls(env, StepPrompts(env, c))
    requires last.inputTokens == SumInput(calls') - SumInput(calls)
    requires last.outputTokens == SumOutput(calls') - SumOutput(calls)
    ensures SumInput(calls') + SumOutput(calls') == TokensBetween(env, i, c + 1)
    ensures SumCommitted(steps + [last]) == TokensBetween(env, i, if last.snapshot.Some? then c + 1 else c)
  {
    TokensOf(env, calls, StepPrompts(env, c));
    assert (steps + [last])[..|steps|] == steps;
  }

  lemma RowsNext(steps: seq<StepRecord>, i: nat, c: nat, last: StepRecord)
    requires i <= c && |steps| == c - i && Rows(steps, i) && last.name == StepAt(c)
    ensures if last.snapshot.Some? then Rows(steps + [last], i) else RowsAndOne(steps + [last], i)
  {
    assert (steps + [last])[..|steps|] == steps;
  }

  method Record(record: RunRecord, name: StepName, snapshot: Option<nat>, inBefore: nat, outBefore: nat)
    modifies record`steps
    ensures record.steps == old(record.steps) +
              [StepRecord(name, snapshot, SumInput(record.llmCalls) - inBefore, SumOutput(record.llmCalls) - outBefore)]
  {
    var input := record.TotalInputTokens();
    var output := record.TotalOutputTokens();
    record.steps := record.steps + [StepRecord(name, snapshot, input - inBefore, output - outBefore)];
  }

  // ----- the run -----

  /** How a run ends: the manifest is done, the requested crash (exit code 99), the machine died, or a step raised. */
  datatype Exit = Ended | Exit99 | MachineDied | StepRaised

  /** From a reachable state: the run never raises, leaves the disk `RunOnce` says, ends the manifest exactly when
      `Finishes` says, and accounts for exactly the steps it went through, each under its name. */
  ghost predicate RanAgent(env: Env, w0: World, b0: nat, crashAt: Option<StepName>, w: World, exit: Exit,
                           calls: seq<LlmCall>, steps: seq<StepRecord>) {
    var i := NextIndex(w0.steps);
    var inv := Invocation(b0, crashAt);
    && w == RunOnce(env, w0, inv)
    && exit != StepRaised
    && CommittedUpTo(env, i, w, steps)
    && (if exit == Exit99 then RowsAndOne(steps, i) else Rows(steps, i))
    && |steps| == NextIndex(w.steps) - i + (if exit == Exit99 then 1 else 0)
    && (exit == Ended <==> Finishes(env, w0, inv))
    && (exit == Ended ==> Accounted(env, calls, steps, i, STEPS))
    && (exit == Exit99 ==> CrashedAt(env, crashAt, i, NextIndex(w.steps), calls, steps))
  }

  /** Whatever ended the run, its records carry as committed exactly the tokens of the steps it completed. */
  ghost predicate CommittedUpTo(env: Env, i: nat, w: World, steps: seq<StepRecord>) {
    i <= NextIndex(w.steps) && SumCommitted(steps) == TokensBetween(env, i, NextIndex(w.steps))
  }

  /** The run crashed on request in step `k`: that step's tokens were spent but not
      committed, and the next run starts with it. */
  ghost predicate CrashedAt(env: Env, crashAt: Option<StepName>, i: nat, k: nat, calls: seq<LlmCall>,
                            steps: seq<StepRecord>) {
    && i <= k < STEPS && crashAt == Some(StepAt(k))
    && SumCommitted(steps) == TokensBetween(env, i, k)
    && SumInput(calls) + SumOutput(calls) == TokensBetween(env, i, k + 1)
  }

  /** The ghost position of a run: where it started.  `good` says that it started from
      a reachable state. */
  datatype Position = Position(good: bool, w0: World, b0: nat, crashAt: Option<StepName>)

  ghost predicate Reachable(env: Env, p: Position) {
    p.good ==> exists from, schedule :: LedTo(env, from, schedule, p.w0)
  }

  /** Some schedule of invocations leads there from a state that satisfies the invariant. */
  ghost predicate LedTo(env: Env, from: World, schedule: seq<Invocation>, w: World) {
    Good(CanonOf(env), from) && w == Fold((w: World, inv: Invocation) => RunOnce(env, w, inv), from, schedule)
  }

  lemma GoodIsReachable(env: Env, p: Position)
    requires p.good ==> Good(CanonOf(env), p.w0)
    ensures Reachable(env, p)
  {
    if p.good { assert LedTo(env, p.w0, [], p.w0); }
  }

  lemma ReachableIsGood(env: Env, p: Position)
    requires env.Valid() && Reachable(env, p) && p.good
    ensures Good(CanonOf(env), p.w0)
  {
    var canon := CanonOf(env);
    var from, schedule :| LedTo(env, from, schedule, p.w0);
    InvocationsGood(env);
    FoldKeeps((w: World, inv: Invocation) => RunOnce(env, w, inv), (w: World) => Good(canon, w), from, schedule);
  }

  ghost predicate At(env: Env, p: Position, done: seq<Op>, c: nat, w: World, b: nat, calls: seq<LlmCall>,
                     steps: seq<StepRecord>) {
    p.good ==>
      OnTrack(env, p.w0, p.b0, p.crashAt, c, w, b, done) && Accounted(env, calls, steps, NextIndex(p.w0.steps), c)
  }

  ghost predicate Left(env: Env, p: Position, w: World, exit: Exit, calls: seq<LlmCall>, steps: seq<StepRecord>) {
    && (p.good ==> RanAgent(env, p.w0, p.b0, p.crashAt, w, exit, calls, steps))
    && (exit == StepRaised ==> w.status == RunningWorkflow && FailedLast(w.steps))
  }

  lemma DiedAt(env: Env, p: Position, done: seq<Op>, c: nat, w: World, b: nat, calls: seq<LlmCall>,
               steps: seq<StepRecord>, w': World, ops: seq<Op>, calls': seq<LlmCall>)
    requires env.Valid() && Reachable(env, p)
    requires At(env, p, done, c, w, b, calls, steps) && c < STEPS
    requires p.good ==> Ran(w, w', b, 0, ops, true)
    requires ops <= Block(PlanOf(env), c) && (p.crashAt == Some(StepAt(c)) ==> ops <= AttemptOps(PlanOf(env), c))
    ensures Left(env, p, w', MachineDied, calls', steps)
  {
    if p.good {
      RunDied(env, p.w0, p.b0, p.crashAt, c, w, b, done, w', ops);
      ReachableIsGood(env, p);
      OnTrackInv(env, p.w0, p.b0, p.crashAt, c, w, b, done);
      DeathKeeps(env, w, c, b, w', ops);
    }
  }

  /** Dying within a step leaves that step as the next one. */
  lemma DeathKeeps(env: Env, w: World, c: nat, b: nat, w': World, ops: seq<Op>)
    requires env.Valid() && Inv(CanonOf(env), w, c) && c < STEPS
    requires Ran(w, w', b, 0, ops, true) && ops <= Block(PlanOf(env), c)
    ensures NextIndex(w'.steps) == c
  {
    var plan := PlanOf(env);
    RunSafe(env);
    assert SafeStep(CanonOf(env), plan, c);
    BlockPrefix(CanonOf(env), plan, w, c, b);
    assert Block(plan, c)[..b] == ops[..b];
    ResumesAfterPrefix(CanonOf(env), w'.steps, w'.snapshots);
  }

  lemma AttemptKeeps(env: Env, w: World, c: nat, b: nat, b': nat, w': World)
    requires env.Valid() && Inv(CanonOf(env), w, c) && c < STEPS
    requires Ran(w, w', b, b', AttemptOps(PlanOf(env), c), false)
    ensures NextIndex(w'.steps) == c
  {
    var plan := PlanOf(env);
    RunSafe(env);
    assert SafeStep(CanonOf(env), plan, c);
    BeforeSnap(CanonOf(env), plan, w, c, |plan(c)|);
    assert Block(plan, c)[..|plan(c)| + 1] == AttemptOps(plan, c);
    ResumesAfterPrefix(CanonOf(env), w'.steps, w'.snapshots);
  }

  lemma CrashedHere(env: Env, p: Position, done: seq<Op>, c: nat, w: World, b: nat, calls: seq<LlmCall>,
                    steps: seq<StepRecord>, w': World, b': nat, calls': seq<LlmCall>, last: StepRecord)
    requires At(env, p, done, c, w, b, calls, steps) && c < STEPS && p.crashAt == Some(StepAt(c))
    requires p.good ==> Ran(w, w', b, b', AttemptOps(PlanOf(env), c), false)
    requires p.good ==> calls' == calls + Calls(env, StepPrompts(env, c))
    requires env.Valid() && Reachable(env, p) && last.name == StepAt(c) && last.snapshot == None
             && last.inputTokens == SumInput(calls') - SumInput(calls)
    requires last.outputTokens == SumOutput(calls') - SumOutput(calls)
    ensures Left(env, p, w', Exit99, calls', steps + [last])
  {
    if p.good {
      ReachableIsGood(env, p);
      OnTrackInv(env, p.w0, p.b0, p.crashAt, c, w, b, done);
      RunCrashed(env, p.w0, p.b0, p.crashAt, c, w, b, done, w', b');
      StepAccounted(env, calls, steps, NextIndex(p.w0.steps), c, calls', last);
      RowsNext(steps, NextIndex(p.w0.steps), c, last);
      AttemptKeeps(env, w, c, b, b', w');
      assert CrashedAt(env, p.crashAt, NextIndex(p.w0.steps), c, calls', steps + [last]);
    }
  }

  lemma Advanced(env: Env, p: Position, done: seq<Op>, c: nat, w: World, b: nat, calls: seq<LlmCall>,
                 steps: seq<StepRecord>, w': World, b': nat, calls': seq<LlmCall>, last: StepRecord)
    requires env.Valid() && At(env, p, done, c, w, b, calls, steps) && c < STEPS && p.crashAt != Some(StepAt(c))
    requires p.good ==> Ran(w, w', b, b', Block(PlanOf(env), c), false)
    requires p.good ==> calls' == calls + Calls(env, StepPrompts(env, c))
    requires last.name == StepAt(c) && last.snapshot.Some?
    requires last.inputTokens == SumInput(calls') - SumInput(calls)
    requires last.outputTokens == SumOutput(calls') - SumOutput(calls)
    ensures At(env, p, done + Block(PlanOf(env), c), c + 1, w', b', calls', steps + [last])
  {
    if p.good {
      StepDone(env, p.w0, p.b0, p.crashAt, c, w, b, done, w', b');
      StepAccounted(env, calls, steps, NextIndex(p.w0.steps), c, calls', last);
      RowsNext(steps, NextIndex(p.w0.steps), c, last);
    }
  }

  lemma BlockRan(plan: Plan, c: nat, w: World, w1: World, w2: World, b: nat, b1: nat, b2: nat, died: bool)
    requires Ran(w, w1, b, b1, AttemptOps(plan, c), false) && Ran(w1, w2, b1, b2, CommitOps(c), died)
    ensures Ran(w, w2, b, b2, Block(plan, c), died)
  {
    RanThen(w, w1, w2, b, b1, b2, AttemptOps(plan, c), CommitOps(c), died);
    assert AttemptOps(plan, c) + CommitOps(c) == Block(plan, c);
  }

  /** The books just before a step: what the disk, the budget and the accounting were. */
  datatype Before = Before(w: World, b: nat, log: seq<StepInfo>, calls: seq<LlmCall>, steps: seq<StepRecord>)

  ghost predicate Attempted(env: Env, p: Position, done: seq<Op>, c: nat, x: Before, w: World, b: nat,
                            calls: seq<LlmCall>) {
    && At(env, p, done, c, x.w, x.b, x.calls, x.steps)
    && (p.good ==> Ran(x.w, w, x.b, b, AttemptOps(PlanOf(env), c), false))
    && (p.good ==> calls == x.calls + Calls(env, StepPrompts(env, c)))
  }

  /** The step ran: crash on request, or commit it. */
  method Settle(env: Env, ws: WorkspaceStore, wf: SimulatedWorkflow, record: RunRecord, c: nat,
                crashAt: Option<StepName>, id: nat, inBefore: nat, outBefore: nat, ghost p: Position,
                ghost done: seq<Op>, ghost x: Before)
    returns (exit: Option<Exit>)
    requires env.Valid() && c < STEPS && ws.host == wf.host && wf.Valid() && p.crashAt == crashAt && Reachable(env, p)
    requires Attempted(env, p, done, c, x, View(ws, wf), ws.host.budget, record.llmCalls) && record.steps == x.steps
    requires inBefore == SumInput(x.calls) && outBefore == SumOutput(x.calls)
    requires |wf.steps| == |x.log| + 1 && wf.steps[..|x.log|] == x.log && wf.steps[|x.log|].id == id
    requires forall i :: 0 <= i < |x.log| ==> x.log[i].id < id
    modifies ws`snapshots, ws.host, wf, record`steps
    ensures wf.Valid()
    ensures exit.None? ==> crashAt != Some(StepAt(c))
    ensures exit.None? ==>
              At(env, p, done + Block(PlanOf(env), c), c + 1, View(ws, wf), ws.host.budget,
                 record.llmCalls, record.steps)
    ensures exit.Some? ==> exit.value == Exit99 || exit.value == MachineDied
    ensures exit.Some? ==> Left(env, p, View(ws, wf), exit.value, record.llmCalls, record.steps)
  {
    ghost var w1, b1 := View(ws, wf), ws.host.budget;
    if crashAt == Some(StepAt(c)) {
      Record(record, StepAt(c), None, inBefore, outBefore);
      CrashedHere(env, p, done, c, x.w, x.b, x.calls, x.steps, w1, b1, record.llmCalls, record.steps[|x.steps|]);
      return Some(Exit99);
    }
    var snapshot := Commit(ws, wf, c, id, x.log);
    if p.good { BlockRan(PlanOf(env), c, x.w, w1, View(ws, wf), x.b, b1, ws.host.budget, snapshot == None); }
    if snapshot == None {
      DiedAt(env, p, done, c, x.w, x.b, x.calls, x.steps, View(ws, wf), Block(PlanOf(env), c), record.llmCalls);
      return Some(MachineDied);
    }
    Record(record, StepAt(c), snapshot, inBefore, outBefore);
    Advanced(env, p, done, c, x.w, x.b, x.calls, x.steps, View(ws, wf), ws.host.budget, record.llmCalls,
             record.steps[|x.steps|]);
    return None;
  }

  /** One turn of the loop: attempt the step, then either crash on request or commit it. */
  method Advance(env: Env, ws: WorkspaceStore, wf: SimulatedWorkflow, record: RunRecord, c: nat,
                 crashAt: Option<StepName>, ghost p: Position, ghost done: seq<Op>)
    returns (exit: Option<Exit>, ghost next: seq<Op>)
    requires env.Valid() && c < STEPS && ws.host == wf.host && wf.Valid() && p.crashAt == crashAt && Reachable(env, p)
    requires At(env, p, done, c, View(ws, wf), ws.host.budget, record.llmCalls, record.steps)
    modifies ws, ws.host, wf, record
    ensures wf.Valid()
    ensures exit.None? ==> crashAt != Some(StepAt(c))
    ensures exit.None? ==>
              At(env, p, next, c + 1, View(ws, wf), ws.host.budget,
                 record.llmCalls, record.steps)
    ensures exit.Some? ==> !exit.value.Ended?
    ensures exit.Some? ==> Left(env, p, View(ws, wf), exit.value, record.llmCalls, record.steps)
  {
    ghost var x := Before(View(ws, wf), ws.host.budget, wf.steps, record.llmCalls, record.steps);
    var inBefore := record.TotalInputTokens();
    var outBefore := record.TotalOutputTokens();
    if p.good {
      ReachableIsGood(env, p);
      OnTrackInv(env, p.w0, p.b0, crashAt, c, x.w, x.b, done);
    }
    var o, id := Attempt(env, ws, wf, record, c, p.good);
    next := done + Block(PlanOf(env), c);
    if o == Threw { return Some(StepRaised), next; }
    if o == Died {
      DiedAt(env, p, done, c, x.w, x.b, x.calls, x.steps, View(ws, wf), AttemptOps(PlanOf(env), c), record.llmCalls);
      return Some(MachineDied), next;
    }
    exit := Settle(env, ws, wf, record, c, crashAt, id, inBefore, outBefore, p, done, x);
  }

  lemma RunBegins(env: Env, w: World, b: nat, crashAt: Option<StepName>)
    requires Good(CanonOf(env), w)
    ensures At(env, Position(true, w, b, crashAt), [], NextIndex(w.steps), w, b, [], [])
  {
    assert [] + Script(PlanOf(env), NextIndex(w.steps), crashAt) == Script(PlanOf(env), NextIndex(w.steps), crashAt);
  }

  lemma EndedAt(env: Env, p: Position, done: seq<Op>, w: World, b: nat, calls: seq<LlmCall>, steps: seq<StepRecord>)
    requires env.Valid() && Reachable(env, p)
    requires At(env, p, done, STEPS, w, b, calls, steps)
    ensures Left(env, p, w, Ended, calls, steps)
  {
    if p.good {
      RunEnded(env, p.w0, p.b0, p.crashAt, w, b, done);
      ReachableIsGood(env, p);
      OnTrackInv(env, p.w0, p.b0, p.crashAt, STEPS, w, b, done);
      ResumesAfterPrefix(CanonOf(env), w.steps, w.snapshots);
    }
  }

  /** Walks the manifest from step `start` forward, to its end unless the run ends earlier. */
  method Walk(env: Env, ws: WorkspaceStore, wf: SimulatedWorkflow, record: RunRecord, start: nat,
              crashAt: Option<StepName>, ghost p: Position)
    returns (left: Option<Exit>, ghost done: seq<Op>)
    requires env.Valid() && ws.host == wf.host && wf.Valid() && start <= STEPS && p.crashAt == crashAt
    requires Reachable(env, p)
    requires At(env, p, [], start, View(ws, wf), ws.host.budget, record.llmCalls, record.steps)
    modifies ws, ws.host, wf, record
    ensures wf.Valid()
    ensures left == None ==>
              At(env, p, done, STEPS, View(ws, wf), ws.host.budget, record.llmCalls, record.steps)
    ensures left.Some? ==> Left(env, p, View(ws, wf), left.value, record.llmCalls, record.steps)
  {
    done := [];
    for c := start to STEPS
      invariant wf.Valid()
      invariant At(env, p, done, c, View(ws, wf), ws.host.budget, record.llmCalls, record.steps)
    {
      left, done := Advance(env, ws, wf, record, c, crashAt, p, done);
      if left.Some? { return; }
    }
    left := None;
  }

  /** Walks the manifest from where the log says. */
  method Resume(env: Env, ws: WorkspaceStore, wf: SimulatedWorkflow, record: RunRecord, crashAt: Option<StepName>,
                ghost p: Position)
    returns (exit: Exit)
    requires env.Valid() && ws.host == wf.host && wf.Valid() && record.llmCalls == [] && record.steps == []
    requires p == Position(Good(CanonOf(env), View(ws, wf)), View(ws, wf), ws.host.budget, crashAt)
    modifies ws, ws.host, wf, record
    ensures wf.Valid()
    ensures Left(env, p, View(ws, wf), exit, record.llmCalls, record.steps)
  {
    GoodIsReachable(env, p);
    if p.good { RunBegins(env, View(ws, wf), ws.host.budget, crashAt); }
    var next, snapshot := wf.ResumeInfo();
    ghost var done;
    var left;
    left, done := Walk(env, ws, wf, record, if next.Some? then next.value else STEPS, crashAt, p);
    if left.Some? { return left.value; }
    EndedAt(env, p, done, View(ws, wf), ws.host.budget, record.llmCalls, record.steps);
    exit := Ended;
  }

  /** Walks the manifest from the next pending step forward; a finished workflow is left alone. */
  method RunAgent(env: Env, ws: WorkspaceStore, wf: SimulatedWorkflow, crashAt: Option<StepName>)
    returns (exit: Exit, record: RunRecord)
    requires env.Valid() && ws.host == wf.host && wf.Valid()
    modifies ws, ws.host, wf
    ensures wf.Valid() && fresh(record)
    ensures Good(CanonOf(env), old(View(ws, wf))) ==>
              RanAgent(env, old(View(ws, wf)), old(ws.host.budget), crashAt, View(ws, wf), exit,
                       record.llmCalls, record.steps)
    ensures exit.StepRaised? ==> wf.status == RunningWorkflow && FailedLast(wf.steps)
    ensures (record.completed <==> exit == Ended) && (record.crashed <==> exit == Exit99)
  {
    record := new RunRecord();
    ghost var p := Position(Good(CanonOf(env), View(ws, wf)), View(ws, wf), ws.host.budget, crashAt);
    exit := Resume(env, ws, wf, record, crashAt, p);
    record.completed, record.crashed := exit == Ended, exit == Exit99;
  }

  // ----- tokens over any schedule -----

  /** What one process leaves of its own accounting. */
  datatype Books = Books(exit: Exit, calls: seq<LlmCall>, steps: seq<StepRecord>)

  /** The books of the processes of a schedule, each run as `RunAgent` does. */
  ghost predicate RanSchedule(env: Env, schedule: seq<Invocation>, books: seq<Books>) {
    |books| == |schedule| && forall k :: 0 <= k < |schedule| ==> RanProcess(env, schedule, k, books[k])
  }

  ghost predicate RanProcess(env: Env, schedule: seq<Invocation>, k: nat, x: Books)
    requires k < |schedule|
  {
    RanAgent(env, RunAll(env, schedule[..k]), schedule[k].budget, schedule[k].crashAt, RunAll(env, schedule[..k + 1]),
             x.exit, x.calls, x.steps)
  }

  /** What the summaries of all processes report as committed. */
  function TotalCommitted(books: seq<Books>): int {
    if books == [] then 0 else TotalCommitted(books[..|books| - 1]) + SumCommitted(books[|books| - 1].steps)
  }

  lemma ProcessCommitted(env: Env, schedule: seq<Invocation>, k: nat, x: Books)
    requires k < |schedule| && RanProcess(env, schedule, k, x)
    ensures CommittedUpTo(env, NextIndex(RunAll(env, schedule[..k]).steps), RunAll(env, schedule[..k + 1]), x.steps)
  {
  }

  lemma EarlierRan(env: Env, schedule: seq<Invocation>, books: seq<Books>)
    requires schedule != [] && RanSchedule(env, schedule, books)
    ensures var n := |schedule| - 1;
            RanSchedule(env, schedule[..n], books[..n]) && RanProcess(env, schedule, n, books[n])
  {
    var n := |schedule| - 1;
    forall k | 0 <= k < n ensures RanProcess(env, schedule[..n], k, books[..n][k]) {
      assert RanProcess(env, schedule, k, books[k]);
      assert schedule[..n][..k] == schedule[..k] && schedule[..n][..k + 1] == schedule[..k + 1];
    }
  }

  /** Conservation: over any schedule, deaths of the machine included, what the processes report as committed adds up to
      the tokens of the steps completed so far.  A schedule that finishes reports exactly those of one clean run. */
  lemma {:induction false} CommittedTokensAddUp(env: Env, schedule: seq<Invocation>, books: seq<Books>)
    requires env.Valid() && RanSchedule(env, schedule, books)
    ensures TotalCommitted(books) == TokensBetween(env, 0, NextIndex(RunAll(env, schedule).steps))
    decreases |schedule|
  {
    if schedule == [] {
      FreshGood(env);
    } else {
      var n := |schedule| - 1;
      EarlierRan(env, schedule, books);
      CommittedTokensAddUp(env, schedule[..n], books[..n]);
      ProcessCommitted(env, schedule, n, books[n]);
      assert schedule[..n + 1] == schedule;
      var before := NextIndex(RunAll(env, schedule[..n]).steps);
      TokensSplit(env, 0, before, NextIndex(RunAll(env, schedule).steps));
    }
  }

  // ----- crash, then resume -----

  /** What `print_final_summary` adds up after a requested crash and one resumed run. */
  ghost predicate Saved(env: Env, crashAt: StepName, saved: int, spent1: int, spent2: int) {
    saved + spent2 == TokensBetween(env, 0, STEPS)
    && exists k :: 0 <= k < STEPS && crashAt == StepAt(k) && spent1 == saved + StepTokens(env, k)
  }

  lemma RunLeavesGood(env: Env, w0: World, b: nat, crashAt: Option<StepName>, w: World, exit: Exit,
                      calls: seq<LlmCall>, steps: seq<StepRecord>)
    requires env.Valid() && Good(CanonOf(env), w0) && RanAgent(env, w0, b, crashAt, w, exit, calls, steps)
    ensures Good(CanonOf(env), w)
  {
    RunOnceGood(env, w0, Invocation(b, crashAt));
  }

  /** What one process that starts at step `i` says it saved and spent. */
  ghost predicate Reported(env: Env, i: nat, crashAt: Option<StepName>, w: World, exit: Exit, saved: int, spent: nat) {
    && (exit == Exit99 ==> StoppedAt(env, i, NextIndex(w.steps), crashAt, saved, spent))
    && (exit == Ended ==>
          i <= NextIndex(w.steps) == STEPS && spent == TokensBetween(env, i, STEPS))
  }

  ghost predicate StoppedAt(env: Env, i: nat, k: nat, crashAt: Option<StepName>, saved: int, spent: nat) {
    && i <= k < STEPS && crashAt == Some(StepAt(k))
    && saved == TokensBetween(env, i, k) && spent == saved + StepTokens(env, k)
  }

  lemma Reports(env: Env, w0: World, b: nat, crashAt: Option<StepName>, w: World, exit: Exit, calls: seq<LlmCall>,
                steps: seq<StepRecord>)
    requires env.Valid() && Good(CanonOf(env), w0) && RanAgent(env, w0, b, crashAt, w, exit, calls, steps)
    ensures Reported(env, NextIndex(w0.steps), crashAt, w, exit, SumCommitted(steps),
                     SumInput(calls) + SumOutput(calls))
    ensures Good(CanonOf(env), w)
  {
    RunOnceGood(env, w0, Invocation(b, crashAt));
    var i := NextIndex(w0.steps);
    if exit == Exit99 {
      assert CrashedAt(env, crashAt, i, NextIndex(w.steps), calls, steps);
    }
  }

  /** One process, and what its accounting says. */
  method OneProcess(env: Env, ws: WorkspaceStore, wf: SimulatedWorkflow, crashAt: Option<StepName>)
    returns (exit: Exit, saved: int, spent: nat, ghost calls: seq<LlmCall>, ghost steps: seq<StepRecord>)
    requires env.Valid() && ws.host == wf.host && wf.Valid() && Good(CanonOf(env), View(ws, wf))
    modifies ws, ws.host, wf
    ensures wf.Valid()
    ensures RanAgent(env, old(View(ws, wf)), old(ws.host.budget), crashAt, View(ws, wf), exit, calls, steps)
    ensures Good(CanonOf(env), View(ws, wf))
    ensures saved == SumCommitted(steps) && spent == SumInput(calls) + SumOutput(calls)
  {
    var record;
    exit, record := RunAgent(env, ws, wf, crashAt);
    RunLeavesGood(env, old(View(ws, wf)), old(ws.host.budget), crashAt, View(ws, wf), exit, record.llmCalls,
                  record.steps);
    saved := CommittedStepTokens(record.steps);
    spent := TotalTokens(record);
    calls, steps := record.llmCalls, record.steps;
  }

  method Process(env: Env, ws: WorkspaceStore, wf: SimulatedWorkflow, crashAt: Option<StepName>)
    returns (exit: Exit, saved: int, spent: nat)
    requires env.Valid() && ws.host == wf.host && wf.Valid() && Good(CanonOf(env), View(ws, wf))
    modifies ws, ws.host, wf
    ensures wf.Valid() && Good(CanonOf(env), View(ws, wf))
    ensures Reported(env, NextIndex(old(wf.steps)), crashAt, View(ws, wf), exit, saved, spent)
  {
    ghost var w0, b := View(ws, wf), ws.host.budget;
    ghost var calls, steps;
    exit, saved, spent, calls, steps := OneProcess(env, ws, wf, crashAt);
    Reports(env, w0, b, crashAt, View(ws, wf), exit, calls, steps);
  }

  /** Two processes on a fresh workspace: one that crashes on request in some step, and one that resumes on a machine
      rebooted with `budget` writes to live.  Once the second one ends, the tokens it saved are exactly what the first
      one committed, only the crashed step's tokens were spent twice, and the disk is that of one clean run. */
  method CrashThenResume(env: Env, ws: WorkspaceStore, wf: SimulatedWorkflow, crashAt: StepName, budget: nat)
    returns (exit1: Exit, exit2: Exit, saved: int, spent1: nat, spent2: nat)
    requires env.Valid() && ws.host == wf.host && wf.Valid() && View(ws, wf) == FRESH
    modifies ws, ws.host, wf
    ensures exit1.Exit99? && exit2.Ended? ==> Saved(env, crashAt, saved, spent1, spent2)
    ensures exit2.Ended? ==>
              ws.kv == KvAt(env, STEPS) && ws.files == FilesAt(env, STEPS) && wf.status == CompletedWorkflow
  {
    FreshGood(env);
    exit1, saved, spent1 := Process(env, ws, wf, Some(crashAt));
    ghost var w1 := View(ws, wf);
    ws.host.budget := budget;
    var kept;
    exit2, kept, spent2 := Process(env, ws, wf, None);
    if exit2.Ended? { CleanDisk(env, View(ws, wf)); }
    if exit1.Exit99? && exit2.Ended? { Savings(env, crashAt, w1, saved, spent1, View(ws, wf), kept, spent2); }
  }

  lemma CleanDisk(env: Env, w: World)
    requires Good(CanonOf(env), w) && NextIndex(w.steps) == STEPS
    ensures w.kv == KvAt(env, STEPS) && w.files == FilesAt(env, STEPS) && w.status == CompletedWorkflow
  {
    FinishedStores(env, w, STEPS);
  }

  lemma Savings(env: Env, crashAt: StepName, w1: World, saved: int, spent1: nat, w2: World, kept: int, spent2: nat)
    requires Reported(env, 0, Some(crashAt), w1, Exit99, saved, spent1)
    requires Reported(env, NextIndex(w1.steps), None, w2, Ended, kept, spent2)
    ensures Saved(env, crashAt, saved, spent1, spent2)
  {
    TokensSplit(env, 0, NextIndex(w1.steps), STEPS);
  }

  method TotalTokens(record: RunRecord) returns (total: nat)
    ensures total == SumInput(record.llmCalls) + SumOutput(record.llmCalls)
  {
    var input := record.TotalInputTokens();
    var output := record.TotalOutputTokens();
    total := input + output;
  }
}
