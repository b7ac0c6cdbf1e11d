/** The file-backed workspace and workflow stores, and the accounting of one run. */
module ResumeStore {
  import opened Wrappers
  import opened ResumeModel

  /** The machine a process runs on: how many more durable writes it survives, and where ids come from. */
  class Host {
    var budget: nat
    var nextId: nat

    constructor (budget: nat)
      ensures this.budget == budget && nextId == 0
    {
      this.budget, nextId := budget, 0;
    }

    /** One write-tmp-then-replace: it happens, or the machine has died before it. */
    method Save() returns (alive: bool)
      modifies this`budget
      ensures alive == (old(budget) > 0)
      ensures budget == if alive then old(budget) - 1 else 0
    {
      alive := budget > 0;
      if alive { budget := budget - 1; }
    }
  }

  datatype Result<+T> = Ok(value: T) | PowerLoss | Raised

  class WorkspaceStore {
    const host: Host
    var kv: map<Key, Value>
    var files: map<Path, string>
    var snapshots: seq<Snapshot>

    constructor (host: Host)
      ensures this.host == host && kv == map[] && files == map[] && snapshots == []
    {
      this.host := host;
      kv, files, snapshots := map[], map[], [];
    }

    method KvSet(key: Key, value: Value) returns (alive: bool)
      modifies this`kv, host`budget
      ensures alive == (old(host.budget) > 0)
      ensures host.budget == if alive then old(host.budget) - 1 else 0
      ensures kv == if alive then old(kv)[key := value] else old(kv)
    {
      alive := host.Save();
      if alive { kv := kv[key := value]; }
    }

    function KvGet(key: Key): (r: Result<Value>)
      reads this
      ensures r.Ok? <==> key in kv
      ensures r.Ok? ==> r.value == kv[key]
      ensures r != PowerLoss
    {
      if key in kv then Ok(kv[key]) else Raised
    }

    method FilesWrite(path: Path, content: string) returns (alive: bool)
      modifies this`files, host`budget
      ensures alive == (old(host.budget) > 0)
      ensures host.budget == if alive then old(host.budget) - 1 else 0
      ensures files == if alive then old(files)[path := content] else old(files)
    {
      alive := host.Save();
      if alive { files := files[path := content]; }
    }

    function FilesRead(path: Path): (r: Result<string>)
      reads this
      ensures r.Ok? <==> path in files
      ensures r.Ok? ==> r.value == files[path]
      ensures r != PowerLoss
    {
      if path in files then Ok(files[path]) else Raised
    }

    method TakeSnapshot(after: StepName) returns (r: Result<nat>)
      modifies this`snapshots, host
      ensures r == if old(host.budget) > 0 then Ok(old(host.nextId)) else PowerLoss
      ensures host.budget == if r.Ok? then old(host.budget) - 1 else 0
      ensures r.Ok? ==> host.nextId == old(host.nextId) + 1
                        && snapshots == old(snapshots) + [Snapshot(old(host.nextId), after, kv.Keys, files.Keys)]
      ensures !r.Ok? ==> host.nextId == old(host.nextId) && snapshots == old(snapshots)
    {
      var alive := host.Save();
      if !alive { return PowerLoss; }
      r := Ok(host.nextId);
      snapshots := snapshots + [Snapshot(host.nextId, after, kv.Keys, files.Keys)];
      host.nextId := host.nextId + 1;
    }
  }

  /** The first entry with this id, or the length of the log. */
  function FindStep(steps: seq<StepInfo>, id: nat): (i: nat)
    ensures i <= |steps|
    ensures i < |steps| ==> steps[i].id == id
    ensures forall j :: 0 <= j < i ==> steps[j].id != id
  {
    if steps == [] || steps[0].id == id then 0 else 1 + FindStep(steps[1..], id)
  }

  predicate NoneCompleted(steps: seq<StepInfo>) {
    forall i :: 0 <= i < |steps| ==> steps[i].status != Completed
  }

  lemma NoLater(steps: seq<StepInfo>, j: nat, k: nat)
    requires j < |steps| && k < |steps| && NoneCompleted(steps[j + 1..])
    ensures j < k ==> steps[k].status != Completed
  {
    if j < k { assert steps[j + 1..][k - j - 1] == steps[k]; }
  }

  class SimulatedWorkflow {
    const host: Host
    var steps: seq<StepInfo>
    var status: WorkflowStatus

    constructor (host: Host)
      ensures this.host == host && steps == [] && status == PendingWorkflow && Valid()
    {
      this.host := host;
      steps, status := [], PendingWorkflow;
    }

    /** Ids already handed out are below the next fresh one. */
    ghost predicate Valid()
      reads this, host
    {
      forall i :: 0 <= i < |steps| ==> steps[i].id < host.nextId
    }

    /** A new running attempt.  This sets the workflow to running even when it was already completed. */
    method StartStep(name: StepName) returns (r: Result<StepInfo>)
      requires Valid()
      modifies this, host
      ensures Valid()
      ensures name.Other? ==> r == Raised
      ensures !name.Other? ==> r == if old(host.budget) > 0
                then Ok(StepInfo(old(host.nextId), name, Running, 1 + Attempts(old(steps), name), None)) else PowerLoss
      ensures r.Ok? ==> steps == old(steps) + [r.value] && status == RunningWorkflow
                        && host.nextId == old(host.nextId) + 1 && host.budget == old(host.budget) - 1
      ensures !r.Ok? ==> steps == old(steps) && status == old(status)
                         && host.nextId == old(host.nextId) && host.budget == old(host.budget)
    {
      if name.Other? { return Raised; }
      var earlier := 0;
      for i := 0 to |steps|
        invariant earlier == Attempts(steps[..i], name)
      {
        assert steps[..i + 1][..i] == steps[..i];
        if steps[i].name == name { earlier := earlier + 1; }
      }
      assert steps[..|steps|] == steps;
      var alive := host.Save();
      if !alive { return PowerLoss; }
      var step := StepInfo(host.nextId, name, Running, 1 + earlier, None);
      steps, status := steps + [step], RunningWorkflow;
      host.nextId := host.nextId + 1;
      r := Ok(step);
    }

    /** Completes the entry with this id; the workflow is completed once every manifest name is. */
    method CompleteStep(id: nat, snapshot: nat) returns (r: Result<StepInfo>)
      requires Valid()
      modifies this, host`budget
      ensures Valid()
      ensures r == Raised <==> FindStep(old(steps), id) == |old(steps)|
      ensures r.Ok? ==>
                var i := FindStep(old(steps), id);
                && i < |old(steps)| && old(host.budget) > 0 && host.budget == old(host.budget) - 1
                && steps == old(steps)[i := old(steps)[i].(status := Completed, snapshot := Some(snapshot))]
                && r.value == steps[i]
                && status == if AllCompleted(steps) then CompletedWorkflow else RunningWorkflow
      ensures r == PowerLoss ==> old(host.budget) == 0
      ensures !r.Ok? ==> steps == old(steps) && status == old(status) && host.budget == old(host.budget)
    {
      var i := IndexOf(id);
      if i == |steps| { return Raised; }
      var alive := host.Save();
      if !alive { return PowerLoss; }
      steps := steps[i := steps[i].(status := Completed, snapshot := Some(snapshot))];
      var all := EveryNameCompleted();
      status := if all then CompletedWorkflow else RunningWorkflow;
      r := Ok(steps[i]);
    }

    /** Marks the entry failed and leaves the workflow status as it was. */
    method FailStep(id: nat) returns (r: Result<StepInfo>)
      requires Valid()
      modifies this`steps, host`budget
      ensures Valid()
      ensures r == Raised <==> FindStep(old(steps), id) == |old(steps)|
      ensures r.Ok? ==>
                var i := FindStep(old(steps), id);
                && i < |old(steps)| && old(host.budget) > 0 && host.budget == old(host.budget) - 1
                && steps == old(steps)[i := old(steps)[i].(status := Failed)] && r.value == steps[i]
      ensures r == PowerLoss ==> old(host.budget) == 0
      ensures !r.Ok? ==> steps == old(steps) && host.budget == old(host.budget)
    {
      var i := IndexOf(id);
      if i == |steps| { return Raised; }
      var alive := host.Save();
      if !alive { return PowerLoss; }
      steps := steps[i := steps[i].(status := Failed)];
      r := Ok(steps[i]);
    }

    method IndexOf(id: nat) returns (i: nat)
      ensures i == FindStep(steps, id)
    {
      i := 0;
      while i < |steps| && steps[i].id != id
        invariant i <= |steps|
        invariant FindStep(steps, id) == i + FindStep(steps[i..], id)
      {
        assert steps[i..][1..] == steps[i + 1..];
        i := i + 1;
      }
    }

    method CompletedSet() returns (names: set<StepName>)
      ensures forall name :: name in names <==> name in CompletedNames(steps)
    {
      names := {};
      for i := 0 to |steps|
        invariant forall name :: name in names <==> name in CompletedNames(steps[..i])
      {
        assert steps[..i + 1][..i] == steps[..i];
        if steps[i].status == Completed { names := names + {steps[i].name}; }
      }
      assert steps[..|steps|] == steps;
    }

    method EveryNameCompleted() returns (all: bool)
      ensures all <==> AllCompleted(steps)
    {
      var names := CompletedSet();
      all := true;
      for i := 0 to STEPS
        invariant all <==> forall j :: 0 <= j < i ==> StepAt(j) in CompletedNames(steps)
      {
        if StepAt(i) !in names { all := false; }
      }
    }

    /** The first manifest name without a completed entry, and the snapshot of the latest completed entry. */
    method ResumeInfo() returns (next: Option<nat>, snapshot: Option<nat>)
      ensures next == if NextIndex(steps) == STEPS then None else Some(NextIndex(steps))
      ensures NoneCompleted(steps) ==> snapshot == None
      ensures forall j :: 0 <= j < |steps| && steps[j].status == Completed && NoneCompleted(steps[j + 1..]) ==>
                snapshot == steps[j].snapshot
    {
      var names := CompletedSet();
      var i := 0;
      while i < STEPS && StepAt(i) in names
        invariant i <= STEPS && NextIndex(steps) == FirstMissing(CompletedNames(steps), i)
      {
        i := i + 1;
      }
      next := if i == STEPS then None else Some(i);
      snapshot := None;
      var j := |steps|;
      while j > 0
        invariant 0 <= j <= |steps| && snapshot == None && NoneCompleted(steps[j..])
      {
        j := j - 1;
        if steps[j].status == Completed {
          forall k | 0 <= k < |steps| && steps[k].status == Completed && NoneCompleted(steps[k + 1..]) ensures k == j {
            NoLater(steps, j, k);
            NoLater(steps, k, j);
          }
          return next, steps[j].snapshot;
        }
        assert steps[j..][1..] == steps[j + 1..];
      }
      assert steps[0..] == steps;
    }
  }

  // ----- accounting -----

  datatype LlmCall = LlmCall(promptTokens: nat, responseTokens: nat)

  datatype StepRecord = StepRecord(name: StepName, snapshot: Option<nat>, inputTokens: int, outputTokens: int)

  function SumInput(calls: seq<LlmCall>): nat {
    if calls == [] then 0 else SumInput(calls[..|calls| - 1]) + calls[|calls| - 1].promptTokens
  }

  function SumOutput(calls: seq<LlmCall>): nat {
    if calls == [] then 0 else SumOutput(calls[..|calls| - 1]) + calls[|calls| - 1].responseTokens
  }

  function SumCommitted(steps: seq<StepRecord>): int {
    if steps == [] then 0
    else
      var last := steps[|steps| - 1];
      SumCommitted(steps[..|steps| - 1]) + if last.snapshot.Some? then last.inputTokens + last.outputTokens else 0
  }

  class RunRecord {
    var llmCalls: seq<LlmCall>
    var steps: seq<StepRecord>
    var crashed: bool
    var completed: bool

    constructor ()
      ensures llmCalls == [] && steps == [] && !crashed && !completed
    {
      llmCalls, steps, crashed, completed := [], [], false, false;
    }

    method TotalInputTokens() returns (total: nat)
      ensures total == SumInput(llmCalls)
    {
      total := 0;
      for i := 0 to |llmCalls|
        invariant total == SumInput(llmCalls[..i])
      {
        assert llmCalls[..i + 1][..i] == llmCalls[..i];
        total := total + llmCalls[i].promptTokens;
      }
      assert llmCalls[..|llmCalls|] == llmCalls;
    }

    method TotalOutputTokens() returns (total: nat)
      ensures total == SumOutput(llmCalls)
    {
      total := 0;
      for i := 0 to |llmCalls|
        invariant total == SumOutput(llmCalls[..i])
      {
        assert llmCalls[..i + 1][..i] == llmCalls[..i];
        total := total + llmCalls[i].responseTokens;
      }
      assert llmCalls[..|llmCalls|] == llmCalls;
    }
  }

  /** The tokens of the steps of a run that ended with a snapshot. */
  method CommittedStepTokens(steps: seq<StepRecord>) returns (total: int)
    ensures total == SumCommitted(steps)
  {
    total := 0;
    for i := 0 to |steps|
      invariant total == SumCommitted(steps[..i])
    {
      assert steps[..i + 1][..i] == steps[..i];
      if steps[i].snapshot.Some? { total := total + steps[i].inputTokens + steps[i].outputTokens; }
    }
    assert steps[..|steps|] == steps;
  }
}
