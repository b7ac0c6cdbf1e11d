# Verified models of Plinth's workflow, messaging and tooling code

This project models the parts of the Plinth repository whose correctness is decided by code alone, and proves what that
code is for. Check it with `dafny verify dfyconfig.toml` (Dafny 4.11).

## What is modelled

**Crash and resume** (`Resume*.dfy`). A research workflow of six steps runs over a workspace file and a workflow file.
Every change to either file is one write-tmp-then-replace, so a run is a sequence of durable operations (`Op`), and the
machine may die between any two of them: between two writes of one step, between the start entry and the first write,
and between the snapshot and the completion, which leaves an orphan snapshot. `ResumeStore` and `ResumeAgent` hold the
stores and the agent as classes and methods with the loops of the source; `ResumeMain.RunAgent` is the manifest walk.
`Host.budget` says how many more durable operations the machine survives, and each method is proved to have executed
exactly its part of the script or exactly the prefix the budget allowed. `ResumeTheorems` then speaks of all schedules:
any number of invocations, each with any budget and any `--crash-at` step, and `ResumeContent` says what is then on the
disk, value by value: each is explained by the sources and by what else is stored.

**Durable worker** (`WorkerModel.dfy`, `DurableWorker.dfy`, `Leases.dfy`). The slot loops of one worker, interleaved at
their awaits in any order, with `stop`, the waiter queue and the counters; the `Worker` class has one method per segment
between two awaits, each proved to be one step of the state machine and to keep its invariants. `Leases` is a timed
model of any number of workers against one lease server, over real time, with the delay from the grant to the heartbeat
timer, the longest gap between beats that succeed, and the delivery delay as parameters. The server does what the
worker's README states: a lease is granted only on a pending step, runs out one ttl after the grant or the last
delivered beat, and the reaper reverts steps whose lease has run out (`expires <= now`).

**Channels and the three-agent pipeline** (`Channels.dfy`, `ChannelHistory.dfy`, `ChannelBus.dfy`, `Handoff*.dfy`). The
in-process bus with its string-keyed cursors; what a subscriber is delivered over any run of operations; waiting on a
channel while other threads use the bus between the polls; and researcher, writer and reviewer as threads that
interleave one workspace operation at a time. `HandoffAgents.Pipeline` holds the agents as written, in sequence, while
the other two threads do anything at all between any two of their operations; each is proved to be a run of the
interleaving. An ack is two operations, the rebuilding of the list and its assignment. `HandoffContent` says what is
stored under which key, and what the draft and the final text are made of.

**OpenAPI diff** (`JsonPointer.dfy`, `SchemaFlatten.dfy`, `OpenApi*.dfy`). Pointer resolution on parsed documents,
`$ref`/`allOf` flattening, documents to flat specifications, and the breaking-change report.

**Load generator** (`Sorting.dfy`, `RealSort.dfy`, `Percentiles.dfy`, `LoadRun.dfy`, `LoadTasks.dfy`, `LoadRunner.dfy`,
`LoadSummary.dfy`). The ramp curve; the request tasks, the semaphore, the deadline and the cancelling of stragglers as a
state machine under any interleaving; the `Runner` class that drives it; percentiles and the summary.

**Token costs** (`TokenHarness.dfy`, `Perturbation.dfy`), **rebranding rules** (`Rebrand.dfy`), **linear probing**
(`Picking.dfy`), **crash guard** (`CrashGuard.dfy`), **tool cache** (`ToolCache.dfy`).

## What turned out to differ from what is promised

- The constructor of the worker is documented as making a missed beat harmless. It does not: `Leases.MissedBeat`.
- `leased <= completed + failed + concurrency` fails without bound, for every concurrency, when building the context
  throws, when an output cannot be turned into JSON, or when the release of a completed step throws something other than
  a Plinth error:
  `WorkerModel.LeaksBreakTheBound`. `LeasesBalance` is the law that always holds, and `BalancedIffClean` says that the
  counters add up exactly when neither happens.
- Two subscribers whose channel and consumer names join to the same text share a cursor and can lose messages:
  `ChannelHistory.KeysCollide` says when, `CollisionLoses` shows the loss for every such pair.
- `receive` with `since` redelivers exactly when an unacked message lies between `since` and the cursor, and moves the
  cursor backwards exactly when everything it finds lies below it: `ChannelHistory.SinceRedelivers`, `SinceMovesBack`.
- A second wait on a channel misses a message of the batch the first wait returned from exactly when that batch held a
  match after the returned one, whatever happens in between: `ChannelBus.LaterPollMisses`.
- `diff(s, s)` is empty exactly when no operation declares two parameters of one name of which one is required:
  `OpenApiDocument.DocumentSelfDiff`, with a document that is reported against itself in `SelfDiffCanReport`. Such
  documents are legal, since OpenAPI identifies a parameter by its name and its place.
- Compatibility as the diff defines it composes exactly when the specification in the middle hides nothing:
  `OpenApiTheorems.SilenceComposesIff` lists the six ways it can, and `NotTransitive`, `DropInTwoSteps` and
  `DowngradeInTwoSteps` show three of them at work.
- The email rule of the rebranding script can never match, whatever the text: `Rebrand.EmailRuleIsDead`.
- Samples are documented as filed under their dispatch second. Synthetic samples of stragglers are filed under the last
  second of the run: `LoadRunner.RunWorkload`.
- A run does not always count every request once. It does exactly when no request of the run answers after it has been
  cancelled and none ends in a cancellation of its own, which is no `Exception`: `LoadRunner.OneSampleEach` states this
  over the events of the run, and `LoadTasks.OddByPhase` says that only stops before the deadline and answers after it
  matter. `LoadRunner.CountedTwice` and `NotCounted` each give a run of one request.
- When all three agents have ended, the channel depths are not always 0, 0, 1. An ack rebuilds the list of messages and
  then assigns it; what another thread sends or acks in between is undone. `HandoffProofs.PipelineResult` proves that
  the depths are right exactly when no thread does so, and `OverlapLosesFinal` gives a schedule that ends without an
  error, with the final message lost and the draft back. What the agents write and snapshot is right in every schedule.
- Scoped reads can cost more than the baseline, up to one handle per edge: `TokenHarness.BoundReachedIff` says when that
  bound is reached, `GainsAre` and `GainIs` by how much a scenario stays below it.
- The perturbed support scenario is not well formed for every scenario and draw. For each choice of kept steps it is
  exactly when the last kept reply precedes the note, and it is for every draw of 5 to 10 turns exactly when that holds
  for each of them: `Perturbation.WellFormedIffNoteReady`, `SurvivesIffReady`.

## Model

| member | source | states |
|---|---|---|
| ResumeModel.NamesAreInjective | examples/03-resumable-workflow/workflow_agent.py:264-271 | naming the keys and paths of the six steps structurally loses nothing: different ones have different strings |
| ResumeModel.RanThen | examples/03-resumable-workflow/shared.py:1181-1184 | two stretches of durable operations, each finished or cut off exactly where the budget ran out, compose |
| ResumeModel.FirstMissingIs | examples/03-resumable-workflow/shared.py:1405-1411 | the next step is the first manifest name that has no completed entry |
| ResumeStore.Host.Save | examples/03-resumable-workflow/shared.py:1181-1184 | one write-tmp-then-replace happens or the machine has died before it |
| ResumeStore.WorkspaceStore.KvSet | examples/03-resumable-workflow/shared.py:1225-1227 | sets exactly one key, or nothing when the machine dies |
| ResumeStore.WorkspaceStore.KvGet | examples/03-resumable-workflow/shared.py:1229-1234 | the stored value, or a KeyError exactly when the key is missing |
| ResumeStore.WorkspaceStore.FilesWrite | examples/03-resumable-workflow/shared.py:1245-1247 | writes exactly one path, or nothing when the machine dies |
| ResumeStore.WorkspaceStore.FilesRead | examples/03-resumable-workflow/shared.py:1249-1254 | the stored text, or a KeyError exactly when the path is missing |
| ResumeStore.WorkspaceStore.TakeSnapshot | examples/03-resumable-workflow/shared.py:1194-1206 | appends a snapshot with a fresh id that lists the keys and paths of that moment |
| ResumeStore.SimulatedWorkflow.StartStep | examples/03-resumable-workflow/shared.py:1344-1368 | appends a running entry whose attempt is one more than the earlier entries of that name, and sets the workflow to running even when it was completed; an unknown name raises and changes nothing |
| ResumeStore.SimulatedWorkflow.CompleteStep | examples/03-resumable-workflow/shared.py:1370-1389 | completes the first entry with the id and nothing else; the workflow is completed exactly when every manifest name is |
| ResumeStore.SimulatedWorkflow.FailStep | examples/03-resumable-workflow/shared.py:1391-1397 | marks one entry failed and leaves the workflow status alone |
| ResumeStore.SimulatedWorkflow.ResumeInfo | examples/03-resumable-workflow/shared.py:1405-1425 | the first manifest name without a completed entry and the snapshot of the last completed entry |
| ResumeStore.RunRecord.TotalInputTokens | examples/03-resumable-workflow/shared.py:1059-1061 | the sum of the prompt tokens of all calls |
| ResumeStore.CommittedStepTokens | examples/03-resumable-workflow/crash_resume.py:332-346 | the tokens of exactly the steps that ended with a snapshot |
| ResumeLog.CompletedIsPrefix | examples/03-resumable-workflow/shared.py:1405-1411 | the completed names are the manifest prefix, in order, without repetition |
| ResumeLog.ResumesAfterPrefix | examples/03-resumable-workflow/shared.py:1405-1425 | the next run starts at the step after the completed prefix, and all names are completed exactly when there is none |
| ResumeLog.CompletedIsLast | examples/03-resumable-workflow/shared.py:1344-1389 | a completed name is never attempted again |
| ResumeLog.OverlayRestores | examples/03-resumable-workflow/workflow_agent.py:243-410 | redoing a step over any of its own leftovers gives the canonical content of the next stage |
| ResumeLog.CommitStep | examples/03-resumable-workflow/workflow_agent.py:549-553 | the invariant survives a crash between snapshot and completion, and completion advances it by one step |
| ResumeState.PartialMeta | examples/03-resumable-workflow/workflow_agent.py:288-290 | after any prefix of fetch's read-modify-write the metadata records are still the sources' own, with the flag either way |
| ResumeState.ResumableReadable | examples/03-resumable-workflow/workflow_agent.py:243-410 | whatever a step has already written, the keys and files it reads hold the canonical values |
| ResumeState.WritesKeep | examples/03-resumable-workflow/workflow_agent.py:243-410 | dying after any number of a step's writes leaves a disk from which the step can be redone; all of them give the next stage |
| ResumeRun.BlockPrefix | examples/03-resumable-workflow/workflow_agent.py:527-553 | the invariant holds after any prefix of one step's operations, start, writes, snapshot and completion |
| ResumeRun.RunKeepsInv | examples/03-resumable-workflow/workflow_agent.py:470-563 | the invariant survives dying between any two durable operations of a run |
| ResumeTheorems.RunOnceGood | examples/03-resumable-workflow/workflow_agent.py:442-575 | one invocation keeps the invariant, never loses a completed step, and completes all of them when it reaches the end |
| ResumeTheorems.ReachableGood | examples/03-resumable-workflow/workflow_agent.py:442-575 | every state any schedule of crashes can reach satisfies the invariant |
| ResumeTheorems.CrashesAreInvisible | examples/03-resumable-workflow/workflow_agent.py:442-575 | for every schedule of crashes at any durable operations, once some invocation finishes, the two stores equal those of one crash-free run |
| ResumeTheorems.StaysFinished | examples/03-resumable-workflow/workflow_agent.py:475-483 | invoking the agent on a finished workflow changes nothing |
| ResumeTheorems.FinishedReport | examples/03-resumable-workflow/workflow_agent.py:357-410 | a finished workspace holds the report and the final report computed from the fixture sources alone |
| ResumeTheorems.ReachableLog | examples/03-resumable-workflow/shared.py:1344-1425 | in every reachable state: prefix of completed names, attempts 1, 2, 3, ... per name with only the last completed, and each completed entry's snapshot in the store with exactly that stage's keys and paths |
| ResumeTheorems.BigEnoughRunAdvances | examples/03-resumable-workflow/workflow_agent.py:527-563 | an invocation that survives the operations of the next step commits at least that step |
| ResumeContent.ReachableExplained | examples/03-resumable-workflow/workflow_agent.py:243-410 | in every state any schedule of crashes can reach, every stored value is explained by the sources and by what else is stored: metadata and pages are the sources' own, a record marked as fetched has its page, each fact answers the prompt over that source's title and stored page, the outline the prompt over the stored facts in order, the report over the stored outline and facts, the final report over the stored report |
| ResumeContent.ReachableStored | examples/03-resumable-workflow/workflow_agent.py:243-410 | ... everything the completed steps write is there, nothing a later step writes is, and after fetching every record is marked |
| ResumeContent.FinishedFromFacts | examples/03-resumable-workflow/workflow_agent.py:326-410 | a finished workspace has outline, report and final report, made of the facts as they are stored |
| ResumeContent.PromptsAre | examples/03-resumable-workflow/workflow_agent.py:243-410 | the prompts the tokens are counted for, read off the finished workspace: one per source with its title and stored page, then the stored facts, outline and report |
| ResumeContent.ReachableEntries | examples/03-resumable-workflow/shared.py:1370-1425 | a step lies before the next one exactly when the log has a completed entry of its name, and the snapshot of that entry is in the store and lists exactly the keys and paths the steps up to it write |
| ResumeContent.AttemptsCount | examples/03-resumable-workflow/shared.py:1351-1358 | the first entry of a name is attempt 1 and each later one is one more than the one before |
| ResumeMain.CommittedTokensAddUp | examples/03-resumable-workflow/crash_resume.py:332-365 | over any schedule, what the records of all processes carry as committed, for a process that died the record up to its death, adds up to exactly the tokens of the steps completed so far |
| ResumeAgent.StepDiscover | examples/03-resumable-workflow/workflow_agent.py:243-272 | writes exactly its plan or dies inside it, after one model call |
| ResumeAgent.StepFetch | examples/03-resumable-workflow/workflow_agent.py:275-292 | reads the index back, writes page and flag per source exactly as planned, and never throws from a resumable disk |
| ResumeAgent.StepExtract | examples/03-resumable-workflow/workflow_agent.py:295-323 | one model call per source on the stored title and page, and exactly the planned facts |
| ResumeAgent.CollectFacts | examples/03-resumable-workflow/workflow_agent.py:328-334 | the facts stored for the urls, in their order, each with its own text; only a url without facts is left out |
| ResumeAgent.StepOutline | examples/03-resumable-workflow/workflow_agent.py:326-354 | the outline is the answer to the prompt over all stored facts |
| ResumeAgent.StepWrite | examples/03-resumable-workflow/workflow_agent.py:357-387 | the report is the answer to the prompt over the outline and all stored facts |
| ResumeAgent.StepPolish | examples/03-resumable-workflow/workflow_agent.py:390-410 | the final report is the answer to the prompt over the stored report |
| ResumeMain.Attempt | examples/03-resumable-workflow/workflow_agent.py:527-547 | start and step run exactly the planned operations or die inside them; only from an unreachable disk does the step throw, and then the attempt is marked failed while the workflow still says running |
| ResumeMain.Commit | examples/03-resumable-workflow/workflow_agent.py:549-553 | snapshot, then completion of the running attempt, dying before either |
| ResumeMain.RunAgent | examples/03-resumable-workflow/workflow_agent.py:442-584 | from every reachable state: never throws, leaves exactly the disk the schedule semantics gives, ends the manifest exactly when the budget and the crash step allow it, and accounts for exactly the steps it went through, one record under the name of each, with a snapshot unless the crash was requested in it |
| ResumeMain.CrashThenResume | examples/03-resumable-workflow/crash_resume.py:349-390 | committed tokens of a crashed run plus the tokens of the resumed one are those of an uninterrupted run, the crashed step alone is paid twice, and the disk is that of a clean run |
| WorkerModel.NoLostWakeUp | worker-ts/src/worker.ts:249-256 | in every interleaving the waiters are exactly the sleeping slots, once each, and none sleeps once stopping is set |
| WorkerModel.LeasesBalance | worker-ts/src/worker.ts:302-372 | leased equals completed plus failed plus in flight plus leaked, always |
| WorkerModel.LeasedBound | worker-ts/src/worker.ts:302-372 | leased is at most completed plus failed plus concurrency exactly when leaks and in-flight leases fit the slots, and always when nothing leaks |
| WorkerModel.CleanNeverLeaks | worker-ts/src/worker.ts:327-371 | nothing has leaked exactly when no context build, no conversion of an output to JSON and no release of a completed step has thrown |
| WorkerModel.LeasesCounted | worker-ts/src/worker.ts:280-302 | over any run: every candidate is followed by a lease request, and leased and lost count what was granted and what was lost |
| WorkerModel.HandlersRun | worker-ts/src/worker.ts:309-346 | over any run: every granted lease is followed by the building of a context, and every context that is built by its handler |
| WorkerModel.CompletedMeansHandled | worker-ts/src/worker.ts:343-371 | over any run: handlers that returned are the completed steps, those still being released and those whose release has thrown; completed counts releases that settled, and failed counts handlers that threw |
| WorkerModel.ThrowsCounted | worker-ts/src/worker.ts:320-371 | over any run: every failed step is released, and what has leaked are exactly the throwing context builds, conversions and releases of completed steps |
| WorkerModel.BalancedIffClean | worker-ts/src/worker.ts:302-372 | leased equals completed plus failed plus in flight exactly when no context build, no conversion of an output to JSON and no release of a completed step has thrown |
| WorkerModel.LeaksBreakTheBound | worker-ts/src/worker.ts:320-334 | for every concurrency, with a throwing context build any number of leases ends in no counter |
| WorkerModel.OneMoreLease | worker-ts/src/worker.ts:450-465 | after stop each slot takes at most one more lease, and only if it was already looking for one |
| WorkerModel.DrainEnds | worker-ts/src/worker.ts:450-465 | after stop at most six segments per slot run, in any order |
| WorkerModel.DrainsInSixRounds | worker-ts/src/worker.ts:450-485 | after stop, once every pending await has settled six times over, in any order and with any results, every slot loop has left |
| WorkerModel.Drained | worker-ts/src/worker.ts:233-239 | once the remaining segments have run every slot has exited |
| DurableWorker.Worker.Create | worker-ts/src/worker.ts:159-174 | refused exactly when concurrency is below one or the heartbeat is not below the lease ttl |
| DurableWorker.Worker.GetStats | worker-ts/src/worker.ts:190-193 | the counters add up with what is in flight or leaked, and without leaks leased is within concurrency of completed plus failed |
| DurableWorker.Worker.Spawn | worker-ts/src/worker.ts:228-231 | every slot starts looking for work, or leaves at once when stop came first |
| DurableWorker.Worker.Stop | worker-ts/src/worker.ts:249-256 | wakes exactly the sleeping slots and empties the queue, so that no slot sleeps once stopping is set |
| DurableWorker.Worker.AfterLease | worker-ts/src/worker.ts:280-307 | a granted lease is counted and goes on to the refresh, a lost one is counted and ends the poll; any other error counts nothing |
| DurableWorker.Worker.AfterRefresh | worker-ts/src/worker.ts:309-341 | a context that is built is followed by the handler; a context build that throws leaves the lease without a heartbeat and uncounted |
| DurableWorker.Worker.AfterHandler | worker-ts/src/worker.ts:343-362 | a throwing handler is counted as failed before its release; an output that is not JSON ends the poll uncounted, without a release |
| DurableWorker.Worker.AfterRelease | worker-ts/src/worker.ts:359-371 | completed is counted only after the release has settled |
| DurableWorker.Worker.AfterPoll | worker-ts/src/worker.ts:450-485 | an unclaimed poll sleeps unless stopping; otherwise the loop goes round or leaves |
| DurableWorker.Worker.OnTimer | worker-ts/src/worker.ts:471-476 | the fired timer takes its own wake-up and no other out of the queue, and wakes its slot |
| Leases.RunSafe | worker-ts/README.md:158-174 | with delay + beat gap + delivery below the ttl every session's lease is covered by a beat that is certain to arrive before it runs out |
| Leases.NeverTwoHandlers | worker-ts/README.md:158-174 | under that condition no step with a live handler is reclaimed, so no step has two live handlers, in every timed run of any number of workers |
| Leases.SafeIffLongEnough | worker-ts/src/worker.ts:280-341 | two live handlers are impossible exactly when delay + beat gap + delivery < ttl |
| Leases.ConstructorCheck | worker-ts/src/worker.ts:169-174 | heartbeat < ttl holds exactly when some positive delays make the worker safe |
| Leases.MissedBeat | worker-ts/src/worker.ts:81-86 | a heartbeat of at least half the ttl passes the check and is unsafe as soon as one beat is missed |
| Leases.DeadWorkersLease | worker-ts/README.md:163-169 | the lease of a dead worker runs out at most one ttl after its death, and then the reaper can take the step back |
| Leases.ReleasedForGood | worker-ts/README.md:158-174 | with a ttl that is long enough, the release of a step by its live handler is always honoured, and the step is never pending or leased again |
| Channels.ReceivedIn | examples/02-multi-agent-handoff/shared.py:696-720 | a receive returns the lowest pending messages: everything pending up to the last one it returns |
| Channels.ReceivedOrder | examples/02-multi-agent-handoff/shared.py:696-720 | in increasing order, and two messages only under a limit of at least two |
| Channels.OnlyLimitLeavesOut | examples/02-multi-agent-handoff/shared.py:711-717 | a receive leaves out a pending message only when its limit is full, a limit below one counting as one, and never returns more |
| Channels.CursorMoves | examples/02-multi-agent-handoff/shared.py:705-720 | peeking, and reading for nobody, change nothing; any other receive moves only the reader's own cursor, to the last message it returned |
| ChannelHistory.DeliveredInOrderOnce | examples/02-multi-agent-handoff/shared.py:671-735 | over any run of operations the deliveries to a plain subscriber are strictly increasing, so none repeats |
| ChannelHistory.NothingSkipped | examples/02-multi-agent-handoff/shared.py:671-735 | every message at or below the cursor was delivered to the subscriber or acked |
| ChannelHistory.KeysCollide | examples/02-multi-agent-handoff/shared.py:704-719 | two subscribers share a cursor key exactly when their names shift a colon |
| ChannelHistory.CollisionLoses | examples/02-multi-agent-handoff/shared.py:704-719 | any colliding pair on different channels can lose a message |
| ChannelHistory.SinceGoesBack | examples/02-multi-agent-handoff/shared.py:704-719 | on every ordered bus a receive with since returns something at or below the cursor exactly when a message between the two is still on the channel |
| ChannelHistory.SinceRedelivers | examples/02-multi-agent-handoff/shared.py:704-719 | after any run of plain operations a receive with since delivers something a second time exactly when a message between since and the cursor has not been acked |
| ChannelHistory.SinceMovesBack | examples/02-multi-agent-handoff/shared.py:704-719 | without a limit the cursor moves backwards exactly when something is found and all of it lies below the cursor |
| ChannelHistory.SinceExample | examples/02-multi-agent-handoff/shared.py:704-719 | limit 0 with since returns one message, moves the cursor back, and the next plain receive delivers again |
| ChannelBus.SimChannels.Send | examples/02-multi-agent-handoff/shared.py:671-694 | appends one message with the next number of its channel |
| ChannelBus.SimChannels.Receive | examples/02-multi-agent-handoff/shared.py:696-720 | the loop with its early stop returns what the specification does, and moves only its own cursor |
| ChannelBus.SimChannels.AckId | examples/02-multi-agent-handoff/shared.py:722-735 | removes exactly the messages with that id |
| ChannelBus.SimChannels.MessageCount | examples/02-multi-agent-handoff/shared.py:743-746 | the depth of a channel |
| ChannelBus.WaitForChannel | examples/02-multi-agent-handoff/shared.py:911-958 | whatever other threads do between the polls: the returned message matches, is beyond the starting cursor, and every message still on the channel between the two does not match; no message means none up to the cursor matched |
| ChannelBus.LaterPollMisses | examples/02-multi-agent-handoff/shared.py:941-955 | whatever other threads and further polls do, a later poll misses a match of a batch exactly when the batch held one after the returned message, and such a message stays on the channel until acked |
| HandoffProofs.Reachable | examples/02-multi-agent-handoff/shared.py:722-735 | in every interleaving the shared state is a function of how far the three threads are and of the lists assigned by the acks; while no thread has sent or acked inside another one's ack the list of messages is the expected one, and afterwards it ends up wrong |
| HandoffProofs.HandoffsAreWritten | examples/02-multi-agent-handoff/researcher.py:181-206 | every key, path and snapshot a message refers to is written before it is on the bus and stays written when it is received |
| HandoffProofs.NothingMissing | examples/02-multi-agent-handoff/writer.py:87-97 | the writer never falls back to a default: each of its reads finds something, and the fact of each source and its metadata record are there under their own keys |
| HandoffContent.FindingsInPlace | examples/02-multi-agent-handoff/researcher.py:116-183 | in every interleaving, once the research is announced: the topic, the index, every page and metadata record, and under each facts key what the model extracts from that source's title, url and stored page; of results that share a url or a file the last one counts, and at most five are used |
| HandoffContent.WriterLooksUp | examples/02-multi-agent-handoff/writer.py:90-94 | in every interleaving: what the writer has read is, in turn, the value under each source's facts key and the value under its metadata key |
| HandoffContent.TextsAreMade | examples/02-multi-agent-handoff/writer.py:96-115 | in every interleaving the draft is made of all those facts and records as they are stored, the final report of the stored draft and its critique, and the critique of the draft |
| HandoffContent.MessagesSay | examples/02-multi-agent-handoff/researcher.py:195-206 | in every interleaving the messages on the bus carry the topic, the number of the snapshot, the facts keys in order or the path of the text, and the stored critique, each on its channel and with its type |
| HandoffProofs.InOrderOnce | examples/02-multi-agent-handoff/orchestrate.py:262-272 | snapshots appear in the order research, draft, final, and no channel carries a second message |
| HandoffProofs.PipelineResult | examples/02-multi-agent-handoff/orchestrate.py:218-293 | when all agents are done, in whatever order they ran: snapshots, workspace and texts are those of the agents run one after the other; the depths are 0, 0, 1 exactly when no thread sent or acked between another one's reading and assigning in an ack, and then the orchestrator finds the final message |
| HandoffProofs.OverlapLosesFinal | examples/02-multi-agent-handoff/shared.py:735 | for every job a schedule on which all agents end without an error, the final message is lost and the draft is back |
| HandoffProofs.NeverStuck | examples/02-multi-agent-handoff/orchestrate.py:218-236 | until all agents are done or one has given up, some thread can move and has one operation less to go |
| HandoffProofs.PlainChannelsSuffice | examples/02-multi-agent-handoff/shared.py:704-719 | distinct channel names without colons keep all cursors apart, whatever the consumers are called |
| HandoffProofs.NamesDistinct | examples/02-multi-agent-handoff/writer.py:70-76 | the channel names and cursor keys in use do not collide |
| HandoffAgents.Pipeline.Elsewhere | examples/02-multi-agent-handoff/orchestrate.py:218-236 | another thread makes one move of the interleaving |
| HandoffAgents.Pipeline.RunResearcher | examples/02-multi-agent-handoff/researcher.py:97-207 | whatever the other agents do between its operations, the researcher as written is a run of the interleaving that ends with the message sent and every finding stored under its own key |
| HandoffAgents.Pipeline.RunWriter | examples/02-multi-agent-handoff/writer.py:54-139 | whatever the other agents do meanwhile, the writer as written is a run of the interleaving; it fails only by timing out, and its draft is made of each fact and each metadata record as they are stored |
| HandoffAgents.Pipeline.RunReviewer | examples/02-multi-agent-handoff/reviewer.py:49-142 | likewise for the reviewer: it fails only by timing out, and leaves the final text and the critique of that draft |
| JsonPointer.ResolveRef | scripts/openapi_diff.py:83-93 | the loop follows the unescaped chunks, and gives an empty mapping on any failure |
| JsonPointer.UnescapeEscape | scripts/openapi_diff.py:89 | the replacement order inverts the escaping of RFC 6901, sections 3 and 4, for every string |
| JsonPointer.OtherOrderIff | scripts/openapi_diff.py:89 | the other order turns every `~1` of a key into a slash, so it inverts the escaping exactly for the keys without one |
| JsonPointer.SplitJoin | scripts/openapi_diff.py:88 | splitting at slashes recovers every list of escaped keys |
| JsonPointer.PointerResolves | scripts/openapi_diff.py:83-93 | for every non-empty path of keys its pointer resolves to exactly the mapping found by following the keys |
| JsonPointer.PointerInjective | scripts/openapi_diff.py:83-93 | different paths have different pointers |
| JsonPointer.PointerFinds | scripts/openapi_diff.py:83-93 | where the keys lead from mapping to mapping, the pointer resolves to what they lead to; where a key is missing or anything is not a mapping, to an empty mapping |
| JsonPointer.ComponentFound | scripts/openapi_diff.py:83-93 | the usual reference to a component of some kind resolves to just that component |
| SchemaFlatten.RefMeansPath | scripts/openapi_diff.py:96-106 | a reference written as the pointer of a path means the schema found there |
| SchemaFlatten.ReadWritten | scripts/openapi_diff.py:103-124 | reading a schema from a document loses nothing: what is written out is read back |
| SchemaFlatten.FlattenSchema | scripts/openapi_diff.py:96-125 | terminates on every document whose references can be ranked and computes the merged schema, without a top-level reference |
| SchemaFlatten.CyclesHaveNoRank | scripts/openapi_diff.py:105-106 | references that can be ranked lead nowhere back to themselves |
| SchemaFlatten.RankIffAcyclic | scripts/openapi_diff.py:96-106 | the references of a document can be ranked exactly when none leads back to itself |
| SchemaFlatten.TerminatesIff | scripts/openapi_diff.py:96-125 | the recursion on a schema of a document ends exactly when the references it follows lead to none that leads back to itself, whatever other cycles the document has |
| SchemaFlatten.PropertyUnion | scripts/openapi_diff.py:109-114 | the properties are the schema's own together with those of every branch |
| SchemaFlatten.PropertyOrigin | scripts/openapi_diff.py:109-114 | each comes from the schema itself, else from the first branch that has it |
| SchemaFlatten.RequiredUnion | scripts/openapi_diff.py:110-117 | the required names are the union of the schema's own and every branch's |
| SchemaFlatten.TypeOrigin | scripts/openapi_diff.py:118-120 | type and enum come from the schema itself, else from the first branch that has them |
| SchemaFlatten.ThroughReferences | scripts/openapi_diff.py:105-124 | what a reference flattens to, said of the schema at the end of its chain of references: that schema's properties with their values, then those of its branches, first branch first; its required names and theirs; its type and enum, else the first branch's |
| SchemaFlatten.FlatHasIff | scripts/openapi_diff.py:96-125 | a flattened schema has a property, a required name, a type or an enum exactly when some schema has it that is reached through references and branches in any mixture |
| SchemaFlatten.FlattenIdempotent | scripts/openapi_diff.py:96-125 | flattening a flattened schema gives it back |
| OpenApiDocument.ReadParameters | scripts/openapi_diff.py:180-198 | a name is required, or optional, exactly when some parameter of that name is |
| OpenApiDocument.FlattenOperation | scripts/openapi_diff.py:176-236 | fields, properties, statuses and required response fields of one operation, as the document has them after resolution |
| OpenApiDocument.BodyFieldsAre | scripts/openapi_diff.py:200-217 | a body field is required, or optional, exactly when the schemas the body reaches through references and branches say so |
| OpenApiDocument.BodyPropIs | scripts/openapi_diff.py:207-212 | what is kept of a body property is what the schemas it reaches itself say |
| OpenApiDocument.OpForIs | scripts/openapi_diff.py:168-173 | the operation of a method is that of the last entry spelt like it in any case, and there is none exactly when there is no such entry |
| OpenApiDocument.FlattenDocument | scripts/openapi_diff.py:157-240 | the paths that are mappings, and per path and lower-case method the last operation spelt that way |
| OpenApiDocument.DocumentSelfDiff | scripts/openapi_diff.py:180-198 | a document against itself is silent exactly when no operation has two parameters of one name with different requiredness |
| OpenApiDocument.SelfDiffCanReport | scripts/openapi_diff.py:180-198 | a document with a required path parameter and an optional query parameter of one name is reported against itself |
| OpenApiDocument.DocumentDiff | scripts/openapi_diff.py:288-403 | for any two documents, each resolved in its own components, nothing is reported exactly when they are compatible |
| OpenApiDocument.DemandIsReported | scripts/openapi_diff.py:358-369 | a property the new document demands in the body of an operation and the old one does not know is reported, however deep in references and branches either is written |
| OpenApiDocument.Compare | scripts/openapi_diff.py:424-445 | both documents through to the exit code: zero exactly when the new one is compatible with the old one |
| OpenApiDiff.Diff | scripts/openapi_diff.py:288-403 | reports a change exactly when it has a witness |
| OpenApiDiff.DiffOperation | scripts/openapi_diff.py:321-401 | the reports about one kept operation are exactly those with a witness in it |
| OpenApiTypes.ClashIff | scripts/openapi_diff.py:258-266 | two types clash exactly when they do not give the same names equally often, whatever their order, and whether one name stands alone or in a list |
| OpenApiTypes.MajorIs | scripts/openapi_diff.py:278-285 | the major version is the number before the first dot, or the whole version |
| OpenApiTheorems.SilentIffCompatible | scripts/openapi_diff.py:288-403 | for all flattened specifications the diff is empty exactly when no field becomes required or disappears while required, kept properties still accept what they did, and nothing promised is removed |
| OpenApiTheorems.SelfDiff | scripts/openapi_diff.py:335-340 | a specification against itself reports exactly its fields that are both required and optional |
| OpenApiTheorems.AdditionsAreSilent | scripts/openapi_diff.py:288-403 | adding paths, operations, statuses or optional fields never creates a report |
| OpenApiTheorems.SilenceComposesIff | scripts/openapi_diff.py:288-403 | two silent steps make one silent step exactly when the middle specification hides nothing: no dip through major version 0, no required field made optional before it goes, no property, type, enum or response it does not mention |
| OpenApiTheorems.NotTransitive | scripts/openapi_diff.py:345-356 | dropping a type and giving another passes twice and is reported in one step |
| OpenApiTheorems.DropInTwoSteps | scripts/openapi_diff.py:326-340 | making a required field optional and dropping it passes twice and is reported in one step |
| OpenApiTheorems.DowngradeInTwoSteps | scripts/openapi_diff.py:290-302 | a downgrade by way of a version that reads as 0 passes twice and is reported in one step |
| TokenHarness.Run | benchmarks/workflows/harness.py:123-170 | succeeds exactly when every required id is a step, with the totals and per-step inputs of both sides |
| TokenHarness.BaselineIsQuadratic | benchmarks/workflows/harness.py:133-141 | baseline input is the overheads plus each output once per later step |
| TokenHarness.WellFormedCloses | benchmarks/workflows/harness.py:125-147 | with dependencies on earlier steps only, no lookup misses |
| TokenHarness.PlinthWithinBaseline | benchmarks/workflows/harness.py:139-151 | Plinth input is at most the baseline plus 30 per edge, and at most the baseline when every required output has 1530 tokens or more |
| TokenHarness.GainsAre | benchmarks/workflows/harness.py:139-151 | baseline plus 30 per edge exceeds Plinth by exactly what the steps gain by not reading everything in full |
| TokenHarness.GainIs | benchmarks/workflows/harness.py:143-151 | a step gains exactly the earlier outputs it does not ask for and what its reads are cut off at their cap |
| TokenHarness.BoundReachedIff | benchmarks/workflows/harness.py:143-151 | the bound of 30 per edge is reached exactly when every step reads every earlier output, all in full |
| Perturbation.PickSteps | benchmarks/workflows/simulation.py:121-141 | keeps the first matching ids, as many as drawn but at least one and at most all |
| Perturbation.KeptIds | benchmarks/workflows/simulation.py:151-184 | exactly the ids the recipe keeps |
| Perturbation.PickedIff | benchmarks/workflows/simulation.py:129-141 | a pattern picks a step exactly when it matches it and fewer earlier steps match than were drawn; the first match is always picked |
| Perturbation.KeptIff | benchmarks/workflows/simulation.py:151-164 | outside the support scenario a step is kept exactly when no pattern matches it, or one that does picks it |
| Perturbation.TurnKeptIff | benchmarks/workflows/simulation.py:166-184 | a customer message, reply or lookup of a turn is kept exactly when the turn is one of those drawn; turn 1 is not mistaken for turn 10 |
| Perturbation.ReplyTurnIs | benchmarks/workflows/simulation.py:195-198 | replies are the ids t<digits>_reply, with the number as their turn |
| Perturbation.Perturb | benchmarks/workflows/simulation.py:144-213 | the kept steps in order, with scaled sizes and filtered or redirected requirements |
| Perturbation.RebuiltStep | benchmarks/workflows/simulation.py:186-213 | exactly the kept steps, each at its place in their order with its id and read mode, its sizes the whole part of size times factor but at least 1 and 20 |
| Perturbation.NewRequiresAre | benchmarks/workflows/simulation.py:191-202 | a step requires what it required of the kept steps; the closing note, of those not named like turns, and the last kept reply |
| Perturbation.RebuiltWellFormed | benchmarks/workflows/simulation.py:186-213 | unique ids and earlier dependencies survive any random choice, given for the support scenario that the last kept reply precedes the note |
| Perturbation.RebuiltDistinct | benchmarks/workflows/simulation.py:186-213 | requirements stay distinct, outputs are at least 1 and overheads at least 20 |
| Perturbation.PerturbedRuns | benchmarks/workflows/simulation.py:308-348 | a perturbed scenario can always be run and obeys the same cost bound |
| Perturbation.WellFormedIffNoteReady | benchmarks/workflows/simulation.py:186-213 | for each choice of kept steps of the support scenario the result is well formed exactly when the last kept reply precedes the note |
| Perturbation.SurvivesIffReady | benchmarks/workflows/simulation.py:166-213 | the support scenario is well formed after every draw of 5 to 10 turns exactly when for each of these numbers the last reply kept precedes the note |
| Perturbation.RepliesFirstSuffice | benchmarks/workflows/simulation.py:191-202 | replies that all precede the note are enough for every choice |
| Sorting.SortedPermutes | benchmarks/src/plinth_bench/runner.py:138 | for any total order, lists with the same elements sort alike |
| Sorting.SortedKeeps | benchmarks/src/plinth_bench/runner.py:138 | sorting keeps the elements |
| Percentiles.SamePercentile | benchmarks/workflows/simulation.py:295-305 | the percentile on percentages and the one on fractions agree for every p in [0, 1] |
| Percentiles.PercentileInterpolates | benchmarks/src/plinth_bench/runner.py:139-145 | sample k of n in sorted order is the percentile at k / (n - 1), and in between the percentile moves evenly from one sample to the next |
| Percentiles.PercentileMonotone | benchmarks/src/plinth_bench/runner.py:120-145 | monotone in p |
| Percentiles.PercentileBounds | benchmarks/src/plinth_bench/runner.py:404-427 | between the smallest and the largest sample, and p50 <= p95 <= p99 <= max |
| Percentiles.PercentilePermutes | benchmarks/src/plinth_bench/runner.py:120-145 | the order of the samples does not matter |
| LoadRun.RateStaysBetween | benchmarks/src/plinth_bench/runner.py:148-185 | the rate stays between initial and target in every phase, is the target while holding, and zero outside the run |
| LoadRun.RampIsLinear | benchmarks/src/plinth_bench/runner.py:170-175 | the ramp starts at the initial rate, changes by equal amounts in equal times, and what is left to the target is in proportion to the time left |
| LoadRun.CooldownIsLinear | benchmarks/src/plinth_bench/runner.py:179-184 | the cooldown starts at the target rate and heads for the initial one in the same way |
| LoadTasks.EveryRunKeeps | benchmarks/src/plinth_bench/runner.py:253-280 | in every interleaving of requests, dispatch and cancelling the samples are exactly those of the finished requests, one each, and at most the cap are in flight |
| LoadTasks.UntilDeadlinePlanned | benchmarks/src/plinth_bench/runner.py:288-325 | whatever the requests do meanwhile, the tasks at the deadline are exactly those the ramp curve asks for, second by second |
| LoadTasks.Spread | benchmarks/src/plinth_bench/runner.py:306-313 | the requests of a second are spread: by the time the tasks have had i awaits, i requests have been created |
| LoadTasks.DispatchAwaits | benchmarks/src/plinth_bench/runner.py:290-317 | what the tasks do during the dispatch is what they do in its awaits, one after the other |
| LoadTasks.AwaitsAre | benchmarks/src/plinth_bench/runner.py:302-317 | the dispatch has one await for every request, and one for every second without any |
| LoadTasks.DeadlineOrDone | benchmarks/src/plinth_bench/runner.py:319-326 | the tail is polled until every request is done, or else as often as the deadline allows |
| LoadRunner.Runner.Complete | benchmarks/src/plinth_bench/runner.py:253-280 | a returned, timed out, unconnected or raising workload files one sample under the second of its dispatch |
| LoadRunner.Runner.CancelStragglers | benchmarks/src/plinth_bench/runner.py:327-330 | exactly the requests that are not done are cancelled |
| LoadRunner.RunWorkload | benchmarks/src/plinth_bench/runner.py:288-343 | the samples are those of the whole run in the order they were filed and then one record per straggler: exactly what every planned request leaves behind |
| LoadRunner.OwnSampleFiled | benchmarks/src/plinth_bench/runner.py:253-280 | the sample of request i of second t is filed under t, and a straggler has its record |
| LoadTasks.OddByPhase | benchmarks/src/plinth_bench/runner.py:327-336 | only a request that ends in a cancellation before the stragglers are cancelled, or answers afterwards, is counted wrongly |
| LoadRunner.OneSampleEach | benchmarks/src/plinth_bench/runner.py:253-343 | every dispatched request is counted exactly once exactly when the run has no answer of a cancelled request and no stop of one that is not; each such event makes the total one more, or one less, than what was dispatched |
| LoadRunner.ObedientCountsOnce | benchmarks/src/plinth_bench/runner.py:253-343 | with workloads that neither cancel themselves nor answer a cancellation, every dispatched request is counted exactly once |
| LoadRunner.CountedTwice | benchmarks/src/plinth_bench/runner.py:331-343 | a single request that answers its own cancellation is counted as two |
| LoadRunner.NotCounted | benchmarks/src/plinth_bench/runner.py:253-280 | a single request that ends in a cancellation of its own is not counted |
| LoadSummary.Summarise | benchmarks/src/plinth_bench/runner.py:364-455 | total, successes, failures per label and per second, percentiles overall and per second |
| LoadSummary.BucketsConserve | benchmarks/src/plinth_bench/runner.py:412-427 | bucket counts sum to the total and bucket errors to the failures |
| LoadSummary.DurationsShared | benchmarks/src/plinth_bench/runner.py:384-427 | the buckets share out the durations of all samples: none is lost and none counted twice |
| LoadSummary.StragglersFail | benchmarks/src/plinth_bench/runner.py:338-343 | every straggler counts as a failure under its own label |
| LoadSummary.Bench | benchmarks/src/plinth_bench/runner.py:218-361 | the samples are what the planned requests leave behind; the total is the sum over the seconds of the rounded rate, plus the answers of cancelled requests, less the stops of requests that are not, and just that sum for workloads that let cancellations pass; every count adds up to it |
| Rebrand.Process | scripts/rebrand.py:134-151 | the rule loop computes the rewritten text and the number of substitutions |
| Rebrand.SubIs | scripts/rebrand.py:144 | a substitution replaces exactly the leftmost matches that do not overlap, keeps the pieces between them as they are, and counts the matches |
| Rebrand.ShorterByCount | scripts/rebrand.py:141-147 | for both lists and every text, the reported number of substitutions is the number of characters the text has become shorter by |
| Rebrand.Survives | scripts/rebrand.py:141-147 | what a rule's output matches was already matched in its input, away from what was replaced, seams and word boundaries included |
| Rebrand.NormalForm | scripts/rebrand.py:141-147 | for any rule list whose replacements stay apart from its patterns, no rule matches after one pass |
| Rebrand.OnePassIsEnough | scripts/rebrand.py:63-85 | for both rule lists and every text, no rule matches after one pass and a second pass substitutes nothing |
| Rebrand.NoDomainNoEmail | scripts/rebrand.py:68-70 | where the domain rule finds nothing, neither does the email rule |
| Rebrand.EmailRuleIsDead | scripts/rebrand.py:68-70 | in both lists and for every text the email rule finds nothing in what it receives and changes nothing |
| Picking.Pick | examples/01-research-agent/shared.py:609-622 | each index is what probing from its home slot gives after the earlier ones |
| Picking.PicksAreDistinct | examples/03-resumable-workflow/shared.py:490-501 | for every seed and non-empty list, up to its length the chosen indices are pairwise distinct |
| Picking.DrawnAt | examples/01-research-agent/shared.py:613-621 | draw k takes slot seed + 31 k modulo the length, unless an earlier draw has it; then the first free slot after it |
| Picking.ProbedIsFree | examples/02-multi-agent-handoff/shared.py:132-143 | while some slot is unused the probe ends at a free one within as many probes as there are items |
| CrashGuard.Service.RecordCrash | install/run_all.py:177-182 | the pruned list is the whole history filtered to the last 60 seconds, and the verdict counts exactly those |
| CrashGuard.Supervise | install/run_all.py:199-218 | exits at the first crash that makes more than three of one service within the window ending at it, and otherwise restarts |
| CrashGuard.TooManyIff | install/run_all.py:177-182 | a crash is one too many exactly when it is the fourth of its service within less than a minute |
| ToolCache.InProcessTools.Invoke | examples/01-research-agent/with_plinth.py:109-145 | answers from the cache or the backend, caches and logs only successes |
| ToolCache.TransparentIff | examples/01-research-agent/with_plinth.py:118-145 | caching is invisible in every session exactly when calls that share a key share their answer |
| ToolCache.BackendOncePerKey | examples/01-research-agent/with_plinth.py:118-145 | when the backend never raises: it is called once per distinct key of the cached calls and once per uncached call, nothing else is cached, every call is logged, and as many as uncached as there are backend calls |
| ToolCache.OneCall | examples/01-research-agent/with_plinth.py:118-145 | whatever the backend does: a call that raises is neither logged nor cached, every other one is logged once, and a call that does not use the cache always goes to the backend and leaves the cache alone |

## Left out

- The two state files are read at start-up and written once while still empty; a run starts from the loaded state, and the write of empty stores is not a durable operation of the model.
- ResumeState.PartialMeta: the metadata record is changed in memory before it is saved, which no later reader can observe since the process ends with the machine.
- ResumeTheorems.CrashesAreInvisible: all invocations share one topic, one workflow and fixture sources with distinct urls, as the demo runs them; prompts are modelled by their varying parts, and the model, token counts and file slugs are arbitrary deterministic functions.
- Timestamps, step inputs and outputs, error texts, messages of snapshots, costs in dollars and log lines are not modelled.
- Ids come from counters where the source draws random ones, so collisions of random ids are not modelled.
- The adapter that runs the same agent over the real workspace service: the services are not part of this model.
- LoadRunner.RunWorkload: time itself; which tasks move in which await, and after how many polls the deadline passes, are inputs.
- LoadSummary.Summarise: percentiles are exact reals; the rounding to three decimals, the mean and the error rate are not modelled.
- Worker heartbeats, registration, draining calls and the search for candidates: only their results enter the model.
- Leases.NeverTwoHandlers: a handler is live from the start of its heartbeat timer until its release is processed; timers and messages are late by at most the stated bounds.
- HandoffProofs.PipelineResult: derived payload fields (counts, titles, change lists) and the token records are not modelled; join timeouts of the orchestrator are not modelled.
- HandoffProofs.Reachable: setting one key or path, taking a snapshot, sending and receiving are each one move; a list that grows or is replaced while it is read counts as read at one moment in between.
- ChannelHistory.NothingSkipped: sends, receives and acks do not overlap; acks that overlap with sends or other acks are treated for the pipeline in HandoffProofs.PipelineResult.
- OpenApiDiff.Diff: reports are compared as a set with their witnesses; sorting of the output and the wording of details are not modelled.
- SchemaFlatten.FlattenSchema: parts of a schema that are malformed so that the source would raise read as absent; numbers are integers, and enum values or type names that are themselves lists or mappings read as empty text. The method is given a rank of all references of the document; where a document has cycles that the schema does not meet, SchemaFlatten.TerminatesIff alone speaks.
- OpenApiDocument.FlattenOperation: a response property is filed under the pair of its status and its name, where the source joins the two with a colon; status codes contain no colon.
- Major version numbers are read as plain digits; signs, blanks and underscores that Python's integer parser accepts are not modelled.
- Perturbation.WellFormedIffNoteReady: of two kept replies with the same turn number, such as t5_reply and t05_reply, the later step counts as the last, where the source leaves the order to a set.
- Perturbation.Perturb: the regular expressions are arbitrary predicates and the random factors arbitrary reals.
- TokenHarness.Run: the prices and percentages derived from the totals are not modelled.
- Rebrand.Process: which files are processed with which list is not modelled; word characters are any class that treats ASCII as Python does.
- CrashGuard.Supervise: signals, spawn errors and stopping the other services are not modelled; crash times do not decrease.
- ToolCache.InProcessTools.Invoke: the search and fetch tools are one backend function, and an unknown tool is a call it refuses.
- HTTP, subprocesses, the Go command line, OAuth flows, chat integrations, dashboards and plan tables add no property that code alone decides.
