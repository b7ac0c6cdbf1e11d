/** The step log: what every schedule of crashes keeps true of it. */
module ResumeLog {
  import opened Wrappers
  import opened ResumeModel

  /** The canonical history of a workspace: the two stores after `i` completed steps, and what step `i`
      writes. */
  datatype Canon = Canon(
    sources: seq<Source>,
    kv: nat -> map<Key, Value>,
    files: nat -> map<Path, string>,
    kvStep: nat -> map<Key, Value>,
    fileStep: nat -> map<Path, string>)

  /** Entry by entry: the name is the first manifest name not yet completed, attempts count up from 1,
      nothing ever failed, and a completed entry points to a snapshot of exactly the right contents. */
  ghost predicate LogOk(canon: Canon, steps: seq<StepInfo>, snapshots: seq<Snapshot>) {
    steps == [] ||
    (var init, last := steps[..|steps| - 1], steps[|steps| - 1];
     LogOk(canon, init, snapshots) && EntryOk(canon, init, last, snapshots))
  }

  ghost predicate EntryOk(canon: Canon, before: seq<StepInfo>, entry: StepInfo, snapshots: seq<Snapshot>) {
    var m := |CompletedNames(before)|;
    && m < STEPS
    && entry.name == StepAt(m)
    && entry.attempt == 1 + Attempts(before, entry.name)
    && entry.status != Failed
    && (entry.status == Running ==> entry.snapshot == None)
    && (entry.status == Completed ==>
          entry.snapshot.Some? && SnapshotOf(canon, m, entry.snapshot.value) in snapshots)
  }

  ghost function SnapshotOf(canon: Canon, m: nat, id: nat): Snapshot {
    Snapshot(id, StepAt(m), canon.kv(m + 1).Keys, canon.files(m + 1).Keys)
  }

  lemma ManifestDistinct()
    ensures forall i, j :: 0 <= i < j < STEPS ==> StepAt(i) != StepAt(j)
  {
  }

  /** The completed names are the manifest prefix, in order and without repetition. */
  lemma {:induction false} CompletedIsPrefix(canon: Canon, steps: seq<StepInfo>, snapshots: seq<Snapshot>)
    requires LogOk(canon, steps, snapshots)
    ensures |CompletedNames(steps)| <= STEPS
    ensures forall i :: 0 <= i < |CompletedNames(steps)| ==> CompletedNames(steps)[i] == StepAt(i)
    decreases |steps|
  {
    if steps != [] {
      CompletedIsPrefix(canon, steps[..|steps| - 1], snapshots);
    }
  }

  lemma PrefixMembers(names: seq<StepName>)
    requires |names| <= STEPS && forall i :: 0 <= i < |names| ==> names[i] == StepAt(i)
    ensures forall i :: 0 <= i < STEPS ==> (StepAt(i) in names <==> i < |names|)
  {
    ManifestDistinct();
    forall i | 0 <= i < |names| ensures StepAt(i) in names { assert names[i] == StepAt(i); }
  }

  /** `resume_info` sends the next run to the step after the completed prefix. */
  lemma ResumesAfterPrefix(canon: Canon, steps: seq<StepInfo>, snapshots: seq<Snapshot>)
    requires LogOk(canon, steps, snapshots)
    ensures NextIndex(steps) == |CompletedNames(steps)|
    ensures AllCompleted(steps) <==> NextIndex(steps) == STEPS
  {
    CompletedIsPrefix(canon, steps, snapshots);
    PrefixMembers(CompletedNames(steps));
    FirstMissingIs(CompletedNames(steps), 0);
    var names := CompletedNames(steps);
    assert StepAt(|names|) in names || StepAt(|names|) !in names;
  }

  lemma {:induction false} MoreSnapshots(canon: Canon, steps: seq<StepInfo>, snapshots: seq<Snapshot>, s: Snapshot)
    requires LogOk(canon, steps, snapshots)
    ensures LogOk(canon, steps, snapshots + [s])
    decreases |steps|
  {
    if steps != [] { MoreSnapshots(canon, steps[..|steps| - 1], snapshots, s); }
  }

  /** A new attempt at the next step. */
  lemma StartLog(canon: Canon, w: World)
    requires LogOk(canon, w.steps, w.snapshots) && |CompletedNames(w.steps)| < STEPS
    ensures var w' := Apply(w, Start(StepAt(|CompletedNames(w.steps)|)));
            LogOk(canon, w'.steps, w'.snapshots) && |CompletedNames(w'.steps)| == |CompletedNames(w.steps)|
  {
    var w' := Apply(w, Start(StepAt(|CompletedNames(w.steps)|)));
    assert w'.steps[..|w'.steps| - 1] == w.steps;
  }

  /** The last log entry is a running attempt at step `c`. */
  predicate Open(steps: seq<StepInfo>, c: nat) {
    steps != [] && steps[|steps| - 1].status == Running && |CompletedNames(steps)| == c
  }

  lemma CompleteEntry(canon: Canon, steps: seq<StepInfo>, snapshots: seq<Snapshot>, c: nat, id: nat)
    requires LogOk(canon, steps, snapshots) && Open(steps, c)
    requires SnapshotOf(canon, c, id) in snapshots
    ensures var last := |steps| - 1;
            var steps' := steps[last := steps[last].(status := Completed, snapshot := Some(id))];
            LogOk(canon, steps', snapshots) && |CompletedNames(steps')| == c + 1
  {
    var last := |steps| - 1;
    var steps' := steps[last := steps[last].(status := Completed, snapshot := Some(id))];
    assert steps'[..last] == steps[..last];
    assert EntryOk(canon, steps[..last], steps'[last], snapshots);
  }

  /** Completing the running attempt against a snapshot of the right contents. */
  lemma CompleteLog(canon: Canon, w: World, c: nat)
    requires LogOk(canon, w.steps, w.snapshots) && Open(w.steps, c)
    requires w.snapshots != []
    requires w.snapshots[|w.snapshots| - 1] == SnapshotOf(canon, c, w.snapshots[|w.snapshots| - 1].id)
    ensures var w' := Apply(w, Complete);
            LogOk(canon, w'.steps, w'.snapshots) && |CompletedNames(w'.steps)| == c + 1
  {
    assert w.snapshots[|w.snapshots| - 1] in w.snapshots;
    CompleteEntry(canon, w.steps, w.snapshots, c, w.snapshots[|w.snapshots| - 1].id);
  }

  lemma {:induction false} LogAt(canon: Canon, steps: seq<StepInfo>, snapshots: seq<Snapshot>, j: nat)
    requires LogOk(canon, steps, snapshots) && j < |steps|
    ensures EntryOk(canon, steps[..j], steps[j], snapshots)
    decreases |steps|
  {
    var n := |steps| - 1;
    if j < n {
      var init := steps[..n];
      LogAt(canon, init, snapshots, j);
      assert init[..j] == steps[..j] && init[j] == steps[j];
    }
  }

  lemma {:induction false} CompletedGrows(steps: seq<StepInfo>, i: nat, j: nat)
    requires i <= j <= |steps|
    ensures |CompletedNames(steps[..i])| <= |CompletedNames(steps[..j])|
    decreases j - i
  {
    if i < j {
      CompletedGrows(steps, i, j - 1);
      assert steps[..j][..j - 1] == steps[..j - 1];
    }
  }

  /** A completed name is never attempted again. */
  lemma CompletedIsLast(canon: Canon, steps: seq<StepInfo>, snapshots: seq<Snapshot>, j: nat, i: nat)
    requires LogOk(canon, steps, snapshots) && j < i < |steps| && steps[j].status == Completed
    ensures steps[i].name != steps[j].name
  {
    LogAt(canon, steps, snapshots, j);
    LogAt(canon, steps, snapshots, i);
    assert steps[..j + 1][..j] == steps[..j];
    assert |CompletedNames(steps[..j + 1])| == |CompletedNames(steps[..j])| + 1;
    CompletedGrows(steps, j + 1, i);
    ManifestDistinct();
  }

  /** What a log says about each of its entries. */
  lemma LogEntry(canon: Canon, steps: seq<StepInfo>, snapshots: seq<Snapshot>, j: nat)
    requires LogOk(canon, steps, snapshots) && j < |steps|
    ensures forall i :: 0 <= i < |CompletedNames(steps)| ==> CompletedNames(steps)[i] == StepAt(i)
    ensures steps[j].attempt == 1 + Attempts(steps[..j], steps[j].name)
    ensures steps[j].status == Completed ==>
              && (forall i :: j < i < |steps| ==> steps[i].name != steps[j].name)
              && steps[j].snapshot.Some?
              && exists m :: 0 <= m < |CompletedNames(steps)| && steps[j].name == StepAt(m)
                   && SnapshotOf(canon, m, steps[j].snapshot.value) in snapshots
  {
    CompletedIsPrefix(canon, steps, snapshots);
    LogAt(canon, steps, snapshots, j);
    if steps[j].status == Completed {
      forall i | j < i < |steps| ensures steps[i].name != steps[j].name {
        CompletedIsLast(canon, steps, snapshots, j, i);
      }
      var m := |CompletedNames(steps[..j])|;
      assert steps[..j + 1][..j] == steps[..j] && steps[..|steps|] == steps;
      CompletedGrows(steps, j + 1, |steps|);
      assert m < |CompletedNames(steps)|;
    }
  }

  // ----- the two stores -----

  /** `c` steps are complete and step `c` may have been attempted any number of times: everything the
      completed steps wrote is there, nothing a later step writes is, and outside the keys that step `c`
      itself writes the content is canonical.  While `fetch` is under way the flags may be either value. */
  ghost predicate Resumable(canon: Canon, c: nat, kv: map<Key, Value>, files: map<Path, string>) {
    && canon.kv(c).Keys <= kv.Keys <= canon.kv(c + 1).Keys
    && canon.files(c).Keys <= files.Keys <= canon.files(c + 1).Keys
    && (forall k :: k in canon.kv(c) && k !in canon.kvStep(c) ==> kv[k] == canon.kv(c)[k])
    && (forall p :: p in canon.files(c) && p !in canon.fileStep(c) ==> files[p] == canon.files(c)[p])
    && (c == 1 ==> MetaReadable(canon.sources, kv))
  }

  ghost predicate MetaReadable(sources: seq<Source>, kv: map<Key, Value>) {
    forall i :: 0 <= i < |sources| ==>
      var s := sources[i];
      MetaKey(s.url) in kv && kv[MetaKey(s.url)].Meta?
      && kv[MetaKey(s.url)].title == s.title && kv[MetaKey(s.url)].snippet == s.snippet
  }

  /** Stage `c + 1` is stage `c` overlaid with what step `c` writes. */
  ghost predicate Advances(canon: Canon, c: nat) {
    && canon.kv(c + 1) == canon.kv(c) + canon.kvStep(c)
    && canon.files(c + 1) == canon.files(c) + canon.fileStep(c)
  }

  /** Redoing a step over any of its own leftovers gives the canonical content of the next stage. */
  lemma OverlayRestores(canon: Canon, c: nat, kv: map<Key, Value>, files: map<Path, string>)
    requires Advances(canon, c) && Resumable(canon, c, kv, files)
    ensures kv + canon.kvStep(c) == canon.kv(c + 1)
    ensures files + canon.fileStep(c) == canon.files(c + 1)
  {
  }

  /** Writing some of the keys step `c` writes keeps it resumable. */
  lemma OverlayKeeps(canon: Canon, c: nat, kv: map<Key, Value>, files: map<Path, string>,
                     kvPart: map<Key, Value>, filePart: map<Path, string>)
    requires Advances(canon, c) && Resumable(canon, c, kv, files)
    requires kvPart.Keys <= canon.kvStep(c).Keys && filePart.Keys <= canon.fileStep(c).Keys
    requires c == 1 ==> MetaReadable(canon.sources, kv + kvPart)
    ensures Resumable(canon, c, kv + kvPart, files + filePart)
  {
  }

  /** A finished step's canonical content is a resumable start of the next step. */
  lemma NextResumable(canon: Canon, c: nat)
    requires Advances(canon, c)
    requires c == 1 ==> MetaReadable(canon.sources, canon.kv(1))
    ensures Resumable(canon, c, canon.kv(c), canon.files(c))
  {
  }

  // ----- the whole disk -----

  /** `c` steps are durably complete; the crash schedule so far is otherwise arbitrary. */
  ghost predicate Inv(canon: Canon, w: World, c: nat) {
    && LogInv(canon, w, c)
    && Resumable(canon, c, w.kv, w.files)
  }

  ghost predicate LogInv(canon: Canon, w: World, c: nat) {
    && c <= STEPS
    && |CompletedNames(w.steps)| == c
    && LogOk(canon, w.steps, w.snapshots)
    && (w.status == CompletedWorkflow <==> c == STEPS)
  }

  lemma StartKeeps(canon: Canon, w: World, c: nat)
    requires LogInv(canon, w, c) && c < STEPS
    ensures var w' := Apply(w, Start(StepAt(c))); LogInv(canon, w', c) && Open(w'.steps, c)
  {
    StartLog(canon, w);
  }

  /** A snapshot alone, as an interrupted commit leaves it, changes nothing that matters. */
  lemma SnapKeeps(canon: Canon, w: World, c: nat)
    requires LogInv(canon, w, c)
    ensures LogInv(canon, Apply(w, Snap(StepAt(c))), c)
  {
    MoreSnapshots(canon, w.steps, w.snapshots, Snapshot(w.nextId, StepAt(c), w.kv.Keys, w.files.Keys));
  }

  lemma CompleteAdvances(canon: Canon, w: World, c: nat)
    requires LogInv(canon, w, c) && Open(w.steps, c)
    requires canon.kv(c + 1).Keys == w.kv.Keys && canon.files(c + 1).Keys == w.files.Keys
    ensures LogInv(canon, Apply(Apply(w, Snap(StepAt(c))), Complete), c + 1)
  {
    var w' := Apply(w, Snap(StepAt(c)));
    SnapKeeps(canon, w, c);
    CompleteLog(canon, w', c);
    ResumesAfterPrefix(canon, Apply(w', Complete).steps, w'.snapshots);
  }

  /** Snapshot and completion, from the canonical content of the next stage. */
  lemma CommitStep(canon: Canon, w: World, c: nat)
    requires Inv(canon, w, c) && Open(w.steps, c)
    requires w.kv == canon.kv(c + 1) && w.files == canon.files(c + 1)
    requires Resumable(canon, c + 1, canon.kv(c + 1), canon.files(c + 1))
    ensures Inv(canon, Apply(w, Snap(StepAt(c))), c)
    ensures Inv(canon, Apply(Apply(w, Snap(StepAt(c))), Complete), c + 1)
  {
    SnapKeeps(canon, w, c);
    CompleteAdvances(canon, w, c);
  }
}
