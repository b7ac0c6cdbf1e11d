/** Safety of the resumable workflow over every schedule of crashes. */
module ResumeTheorems {
  import opened Wrappers
  import opened ResumeModel
  import opened ResumeState
  import opened ResumeLog
  import opened ResumeRun
  import opened Runs

  lemma FreshInv(env: Env)
    requires env.Valid()
    ensures Inv(CanonOf(env), FRESH, 0)
  {
    CanonAdvances(env, 0);
    NextResumable(CanonOf(env), 0);
  }

  lemma RunSafe(env: Env)
    requires env.Valid()
    ensures Safe(CanonOf(env), PlanOf(env))
  {
    var canon := CanonOf(env);
    CanonMeta(env);
    forall c: nat ensures SafeStep(canon, PlanOf(env), c) {
      CanonAdvances(env, c + 1);
      NextResumable(canon, c + 1);
      forall w: World, k: nat | Resumable(canon, c, w.kv, w.files) && k <= |StepOps(env, c)|
        ensures WritesSafe(canon, StepOps(env, c), c, w, k)
      {
        WritesKeep(env, w, c, k);
      }
    }
  }

  // ----- schedules -----

  /** One invocation: how many durable operations the machine survives, and the `--crash-at` argument. */
  datatype Invocation = Invocation(budget: nat, crashAt: Option<StepName>)

  function RunOnce(env: Env, w: World, inv: Invocation): World {
    var script := Script(PlanOf(env), NextIndex(w.steps), inv.crashAt);
    if inv.budget < |script| then Exec(w, script[..inv.budget]) else Exec(w, script)
  }

  /** The invocation reaches the end of the manifest. */
  predicate Finishes(env: Env, w: World, inv: Invocation) {
    var i := NextIndex(w.steps);
    |Script(PlanOf(env), i, inv.crashAt)| <= inv.budget
    && forall j :: i <= j < STEPS ==> inv.crashAt != Some(StepAt(j))
  }

  function RunAll(env: Env, schedule: seq<Invocation>): World {
    Fold((w: World, inv: Invocation) => RunOnce(env, w, inv), FRESH, schedule)
  }

  lemma {:induction false} FullRunFinishes(plan: Plan, c: nat, crashAt: Option<StepName>)
    requires c <= STEPS
    requires forall j :: c <= j < STEPS ==> crashAt != Some(StepAt(j))
    ensures DoneAfter(plan, c, crashAt, |Script(plan, c, crashAt)|) == STEPS
    decreases STEPS - c
  {
    if c < STEPS { FullRunFinishes(plan, c + 1, crashAt); }
  }

  /** The invariant at the step `resume_info` reports. */
  ghost predicate Good(canon: Canon, w: World) {
    Inv(canon, w, NextIndex(w.steps))
  }

  /** One invocation keeps the invariant and never loses a completed step; one that reaches the end of the
      manifest completes every step. */
  lemma RunOnceGood(env: Env, w: World, inv: Invocation)
    requires env.Valid() && Good(CanonOf(env), w)
    ensures var w' := RunOnce(env, w, inv);
            && Good(CanonOf(env), w')
            && NextIndex(w.steps) <= NextIndex(w'.steps)
            && (Finishes(env, w, inv) ==> NextIndex(w'.steps) == STEPS)
  {
    var c := NextIndex(w.steps);
    var script := Script(PlanOf(env), c, inv.crashAt);
    var b := if inv.budget < |script| then inv.budget else |script|;
    assert script[..|script|] == script;
    RunSafe(env);
    RunKeepsInv(CanonOf(env), PlanOf(env), w, c, inv.crashAt, b);
    var w' := RunOnce(env, w, inv);
    ResumesAfterPrefix(CanonOf(env), w'.steps, w'.snapshots);
    if Finishes(env, w, inv) { FullRunFinishes(PlanOf(env), c, inv.crashAt); }
  }

  lemma FreshGood(env: Env)
    requires env.Valid()
    ensures Good(CanonOf(env), FRESH) && NextIndex(FRESH.steps) == 0
  {
    FreshInv(env);
    ResumesAfterPrefix(CanonOf(env), [], []);
  }

  ghost predicate StepGood(canon: Canon, step: (World, Invocation) -> World) {
    Keeps(step, (w: World) => Good(canon, w))
    && NeverDrops(step, (w: World) => Good(canon, w), (w: World) => NextIndex(w.steps))
  }

  lemma InvocationsGood(env: Env)
    requires env.Valid()
    ensures StepGood(CanonOf(env), (w: World, inv: Invocation) => RunOnce(env, w, inv))
  {
    forall w: World, inv: Invocation | Good(CanonOf(env), w)
      ensures Good(CanonOf(env), RunOnce(env, w, inv))
      ensures NextIndex(w.steps) <= NextIndex(RunOnce(env, w, inv).steps)
    {
      RunOnceGood(env, w, inv);
    }
  }

  /** Every state any schedule can reach satisfies the invariant. */
  lemma ReachableGood(env: Env, schedule: seq<Invocation>)
    requires env.Valid()
    ensures Good(CanonOf(env), RunAll(env, schedule))
  {
    FreshGood(env);
    InvocationsGood(env);
    var canon := CanonOf(env);
    FoldKeeps((w: World, inv: Invocation) => RunOnce(env, w, inv), (w: World) => Good(canon, w), FRESH, schedule);
  }

  // ----- the main results -----

  lemma OnceFinished(env: Env, schedule: seq<Invocation>, k: nat)
    requires env.Valid() && k < |schedule|
    requires Finishes(env, RunAll(env, schedule[..k]), schedule[k])
    ensures NextIndex(RunAll(env, schedule).steps) == STEPS
  {
    ReachableGood(env, schedule[..k]);
    RunOnceGood(env, RunAll(env, schedule[..k]), schedule[k]);
    FoldNext((w: World, inv: Invocation) => RunOnce(env, w, inv), FRESH, schedule, k);
    FreshGood(env);
    InvocationsGood(env);
    StaysAhead(CanonOf(env), (w: World, inv: Invocation) => RunOnce(env, w, inv), schedule, k + 1);
  }

  lemma StaysAhead(canon: Canon, step: (World, Invocation) -> World, schedule: seq<Invocation>, k: nat)
    requires Good(canon, FRESH) && StepGood(canon, step) && k <= |schedule|
    ensures NextIndex(Fold(step, FRESH, schedule[..k]).steps) <= NextIndex(Fold(step, FRESH, schedule).steps)
  {
    FoldNeverDrops(step, (w: World) => Good(canon, w), (w: World) => NextIndex(w.steps), FRESH, schedule, k,
                   |schedule|);
    assert schedule[..|schedule|] == schedule;
  }

  /** The disk of a finished workflow is unique. */
  lemma FinishedContent(env: Env, schedule: seq<Invocation>)
    requires env.Valid() && NextIndex(RunAll(env, schedule).steps) == STEPS
    ensures var w := RunAll(env, schedule);
            w.status == CompletedWorkflow && w.kv == KvAt(env, STEPS) && w.files == FilesAt(env, STEPS)
  {
    ReachableGood(env, schedule);
    FinishedStores(env, RunAll(env, schedule), STEPS);
  }

  lemma FinishedStores(env: Env, w: World, c: nat)
    requires Inv(CanonOf(env), w, c) && STEPS <= c
    ensures w.kv == KvAt(env, c) && w.files == FilesAt(env, c)
  {
    CanonAdvances(env, c);
    NothingLeft(env, c);
  }

  lemma NothingLeft(env: Env, c: nat)
    requires STEPS <= c
    ensures KvPart(StepOps(env, c)) == map[] && FilePart(StepOps(env, c)) == map[]
  {
  }

  /** Crashes at any durable operations, any number of times: once some invocation finishes, the stores
      hold exactly what one uninterrupted run on a fresh workspace writes. */
  lemma CrashesAreInvisible(env: Env, schedule: seq<Invocation>, k: nat)
    requires env.Valid() && k < |schedule|
    requires Finishes(env, RunAll(env, schedule[..k]), schedule[k])
    ensures var w, clean := RunAll(env, schedule), Exec(FRESH, Script(PlanOf(env), 0, None));
            w.kv == clean.kv && w.files == clean.files && w.status == clean.status == CompletedWorkflow
  {
    OnceFinished(env, schedule, k);
    FinishedContent(env, schedule);
    CleanRun(env);
  }

  lemma CleanRun(env: Env)
    requires env.Valid()
    ensures var clean := Exec(FRESH, Script(PlanOf(env), 0, None));
            clean.status == CompletedWorkflow && clean.kv == KvAt(env, STEPS) && clean.files == FilesAt(env, STEPS)
  {
    FreshGood(env);
    var inv := Invocation(|Script(PlanOf(env), 0, None)|, None);
    RunOnceGood(env, FRESH, inv);
    FinishedStores(env, RunOnce(env, FRESH, inv), STEPS);
  }

  /** Invoking the agent on a finished workflow changes nothing. */
  lemma StaysFinished(env: Env, w: World, inv: Invocation)
    requires Good(CanonOf(env), w) && w.status == CompletedWorkflow
    ensures RunOnce(env, w, inv) == w
  {
  }

  /** A finished workspace holds the right report, computed from the fixture sources alone. */
  lemma FinishedReport(env: Env, schedule: seq<Invocation>)
    requires env.Valid() && RunAll(env, schedule).status == CompletedWorkflow
    ensures var files := RunAll(env, schedule).files;
            FinalFile in files && files[FinalFile] == FinalText(env)
            && ReportFile in files && files[ReportFile] == ReportText(env)
  {
    ReachableGood(env, schedule);
    FinishedContent(env, schedule);
    Contents(env, STEPS);
  }

  /** In every reachable state: completed names are the manifest prefix, the next step is the one after it,
      attempts of a name are numbered 1, 2, 3, ..., only the last attempt of a name is completed, and
      every completed entry's snapshot is in the store and lists exactly that stage's keys and paths. */
  lemma ReachableLog(env: Env, schedule: seq<Invocation>, j: nat)
    requires env.Valid()
    requires j < |RunAll(env, schedule).steps|
    ensures var w := RunAll(env, schedule);
            var c, entry := NextIndex(w.steps), w.steps[j];
            && |CompletedNames(w.steps)| == c
            && (forall i :: 0 <= i < c ==> CompletedNames(w.steps)[i] == StepAt(i))
            && entry.attempt == 1 + Attempts(w.steps[..j], entry.name)
            && (entry.status == Completed ==>
                 && (forall i :: j < i < |w.steps| ==> w.steps[i].name != entry.name)
                 && entry.snapshot.Some?
                 && exists m :: 0 <= m < c && entry.name == StepAt(m)
                      && SnapshotOf(CanonOf(env), m, entry.snapshot.value) in w.snapshots)
  {
    ReachableGood(env, schedule);
    var w := RunAll(env, schedule);
    LogEntry(CanonOf(env), w.steps, w.snapshots, j);
  }

  // ----- progress -----

  /** An invocation that survives the script of the next step commits at least that step. */
  lemma BigEnoughRunAdvances(env: Env, w: World, inv: Invocation)
    requires env.Valid() && Good(CanonOf(env), w) && NextIndex(w.steps) < STEPS
    requires |Block(PlanOf(env), NextIndex(w.steps))| <= inv.budget && inv.crashAt != Some(StepAt(NextIndex(w.steps)))
    ensures NextIndex(w.steps) < NextIndex(RunOnce(env, w, inv).steps)
  {
    var c := NextIndex(w.steps);
    var script := Script(PlanOf(env), c, inv.crashAt);
    var b := if inv.budget < |script| then inv.budget else |script|;
    assert script[..|script|] == script;
    RunSafe(env);
    RunKeepsInv(CanonOf(env), PlanOf(env), w, c, inv.crashAt, b);
    var w' := RunOnce(env, w, inv);
    ResumesAfterPrefix(CanonOf(env), w'.steps, w'.snapshots);
  }

  // ----- tokens -----

  lemma {:induction false} TokensSplit(env: Env, i: nat, j: nat, k: nat)
    requires i <= j <= k
    ensures TokensBetween(env, i, k) == TokensBetween(env, i, j) + TokensBetween(env, j, k)
    decreases k
  {
    if j < k { TokensSplit(env, i, j, k - 1); }
  }
}
