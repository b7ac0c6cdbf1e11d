/** Safety of the pipeline over every interleaving of its threads. */
module HandoffProofs {
  import opened Wrappers
  import opened Runs
  import opened Channels
  import opened ChannelHistory
  import opened ChannelBus
  import opened Handoff

  // ----- the bus, one message at a time -----

  lemma {:induction false} PendingAppend(a: seq<Message>, b: seq<Message>, channel: string, base: int)
    ensures Pending(a + b, channel, base) == Pending(a, channel, base) + Pending(b, channel, base)
    decreases |b|
  {
    if b == [] {
      assert a + b == a;
    } else {
      assert (a + b)[..|a + b| - 1] == a + b[..|b| - 1];
      PendingAppend(a, b[..|b| - 1], channel, base);
    }
  }

  lemma {:induction false} WithoutAppend(a: seq<Message>, b: seq<Message>, id: nat)
    ensures Without(a + b, id) == Without(a, id) + Without(b, id)
    decreases |b|
  {
    if b == [] {
      assert a + b == a;
    } else {
      assert (a + b)[..|a + b| - 1] == a + b[..|b| - 1];
      WithoutAppend(a, b[..|b| - 1], id);
    }
  }

  /** A message that may be there. */
  function If(here: bool, m: Message): seq<Message> {
    if here then [m] else []
  }

  lemma OfOne(here: bool, m: Message, channel: string, base: int, id: nat)
    ensures Pending(If(here, m), channel, base) == If(here && Beyond(m, channel, base), m)
    ensures Without(If(here, m), id) == If(here && m.id != id, m)
    ensures Depth(If(here, m), channel) == if here && m.channel == channel then 1 else 0
  {
    assert [m][..0] == [];
  }

  lemma {:induction false} DepthAppend(a: seq<Message>, b: seq<Message>, channel: string)
    ensures Depth(a + b, channel) == Depth(a, channel) + Depth(b, channel)
    decreases |b|
  {
    if b == [] {
      assert a + b == a;
    } else {
      assert (a + b)[..|a + b| - 1] == a + b[..|b| - 1];
      DepthAppend(a, b[..|b| - 1], channel);
    }
  }

  /** Three messages that may be there: what a poll sees, what an ack leaves, how deep each channel is. */
  lemma OfThree(a: bool, b: bool, c: bool, x: Message, y: Message, z: Message, channel: string, base: int, id: nat)
    ensures Pending(If(a, x) + If(b, y) + If(c, z), channel, base)
            == If(a && Beyond(x, channel, base), x) + If(b && Beyond(y, channel, base), y)
               + If(c && Beyond(z, channel, base), z)
    ensures Without(If(a, x) + If(b, y) + If(c, z), id)
            == If(a && x.id != id, x) + If(b && y.id != id, y) + If(c && z.id != id, z)
    ensures Depth(If(a, x) + If(b, y) + If(c, z), channel)
            == (if a && x.channel == channel then 1 else 0) + (if b && y.channel == channel then 1 else 0)
               + if c && z.channel == channel then 1 else 0
  {
    PendingAppend(If(a, x) + If(b, y), If(c, z), channel, base);
    PendingAppend(If(a, x), If(b, y), channel, base);
    WithoutAppend(If(a, x) + If(b, y), If(c, z), id);
    WithoutAppend(If(a, x), If(b, y), id);
    DepthAppend(If(a, x) + If(b, y), If(c, z), channel);
    DepthAppend(If(a, x), If(b, y), channel);
    OfOne(a, x, channel, base, id);
    OfOne(b, y, channel, base, id);
    OfOne(c, z, channel, base, id);
  }

  // ----- where the threads are -----

  function WriterRank(w: Writer): nat {
    match w
    case Awaiting | WriterTimedOut => 0
    case Collecting(_, _) => 1
    case Drafted(_) => 2
    case DraftSnapped(_, _) => 3
    case DraftSent(_) => 4
    case WriterAcking(_) => 5
    case WriterDone => 6
  }

  function ReviewerRank(v: Reviewer): nat {
    match v
    case AwaitingDraft | ReviewerTimedOut => 0
    case GotDraft(_) => 1
    case Reviewing(_, _) => 2
    case FinalWritten(_, _) => 3
    case CritiqueWritten(_, _) => 4
    case FinalSnapped(_, _, _) => 5
    case FinalSent(_) => 6
    case ReviewerAcking(_) => 7
    case ReviewerDone => 8
  }

  function TheResearch(job: Job): Message {
    Message(0, job.names.research, 1, Some(job.names.researchKind), Research(job.topic, 0, job.FactKeys()))
  }

  function TheDraft(job: Job): Message {
    Message(1, job.names.draft, 1, Some(job.names.draftKind), Draft(job.topic, 1, "draft.md"))
  }

  function TheFinal(job: Job): Message {
    Message(2, job.names.final, 1, Some(job.names.finalKind), Final(job.topic, 2, "final.md", CritiqueText(job)))
  }

  /** Which of the three messages a list holds. */
  datatype Has = Has(research: bool, draft: bool, final: bool)

  function ListOf(job: Job, h: Has): seq<Message> {
    If(h.research, TheResearch(job)) + If(h.draft, TheDraft(job)) + If(h.final, TheFinal(job))
  }

  function Cursors(names: Names, w: nat, v: nat): map<string, int> {
    (if w >= 1 then map[names.Writer().Key() := 1] else map[])
    + if v >= 1 then map[names.Reviewer().Key() := 1] else map[]
  }

  function Sequences(names: Names, finished: bool, w: nat, v: nat): map<string, nat> {
    (if finished then map[names.research := 1] else map[]) + (if w >= 4 then map[names.draft := 1] else map[])
    + if v >= 6 then map[names.final := 1] else map[]
  }

  /** But for the list of messages, the bus is determined by how far the threads are: each channel ever carries one
      message. */
  function BusAt(job: Job, finished: bool, w: nat, v: nat, h: Has): Bus {
    Bus(ListOf(job, h), Cursors(job.names, w, v), Sequences(job.names, finished, w, v),
        (if finished then 1 else 0) + (if w >= 4 then 1 else 0) + if v >= 6 then 1 else 0)
  }

  /** No thread is ahead of what it waits for. */
  predicate InStep(finished: bool, w: nat, v: nat) {
    (w >= 1 ==> finished) && (v >= 1 ==> w >= 4) && w <= 6 && v <= 8
  }

  /** What the list should hold. */
  function Expected(finished: bool, w: nat, v: nat): Has {
    Has(finished && w < 6, w >= 4 && v < 8, v >= 6)
  }

  lemma SendsResearch(job: Job)
    requires job.names.Distinct()
    ensures Send(BusAt(job, false, 0, 0, Has(false, false, false)), job.names.research, Some(job.names.researchKind),
                 TheResearch(job).payload)
            == BusAt(job, true, 0, 0, Has(true, false, false))
  {
  }

  lemma SendsDraft(job: Job)
    requires job.names.Distinct()
    ensures Send(BusAt(job, true, 3, 0, Has(true, false, false)), job.names.draft, Some(job.names.draftKind),
                 TheDraft(job).payload)
            == BusAt(job, true, 4, 0, Has(true, true, false))
  {
    NextChannel(job.names);
  }

  lemma NextChannel(names: Names)
    requires names.Distinct()
    ensures names.draft !in Sequences(names, true, 3, 0)
    ensures Sequences(names, true, 3, 0)[names.draft := 1] == Sequences(names, true, 4, 0)
    ensures forall w :: 4 <= w <= 6 ==> names.final !in Sequences(names, true, w, 5)
    ensures forall w :: 4 <= w <= 6 ==> Sequences(names, true, w, 5)[names.final := 1] == Sequences(names, true, w, 6)
  {
  }

  lemma SendsFinal(job: Job, w: nat, h: Has)
    requires job.names.Distinct() && 4 <= w <= 6 && !h.final
    ensures Send(BusAt(job, true, w, 5, h), job.names.final, Some(job.names.finalKind), TheFinal(job).payload)
            == BusAt(job, true, w, 6, h.(final := true))
  {
    NextChannel(job.names);
  }

  lemma LeavesResearch(job: Job, h: Has)
    ensures Without(ListOf(job, h), TheResearch(job).id) == ListOf(job, h.(research := false))
  {
    OfThree(h.research, h.draft, h.final, TheResearch(job), TheDraft(job), TheFinal(job), "", 0, 0);
  }

  lemma LeavesDraft(job: Job, h: Has)
    ensures Without(ListOf(job, h), TheDraft(job).id) == ListOf(job, h.(draft := false))
  {
    OfThree(h.research, h.draft, h.final, TheResearch(job), TheDraft(job), TheFinal(job), "", 0, 1);
  }

  /** What the writer's poll finds, and what it does to the bus. */
  lemma WriterPolls(job: Job, finished: bool)
    requires job.names.Distinct()
    ensures var poll, h := Poll(job.names.Writer()), Has(finished, false, false);
            var bus := BusAt(job, finished, 0, 0, h);
            && Found(Received(bus, poll), job.names.researchKind) == (if finished then Some(TheResearch(job)) else None)
            && Receive(bus, poll) == if finished then BusAt(job, true, 1, 0, h) else bus
  {
    var h := Has(finished, false, false);
    OfThree(finished, false, false, TheResearch(job), TheDraft(job), TheFinal(job), job.names.research, 0, 0);
    assert Received(BusAt(job, finished, 0, 0, h), Poll(job.names.Writer())) == If(finished, TheResearch(job));
  }

  lemma ReviewerBase(job: Job, finished: bool, w: nat, h: Has)
    requires job.names.Distinct()
    ensures Base(BusAt(job, finished, w, 0, h), Poll(job.names.Reviewer())) == 0
  {
  }

  lemma ReviewerSees(job: Job, finished: bool, w: nat)
    requires job.names.Distinct() && InStep(finished, w, 0)
    ensures Received(BusAt(job, finished, w, 0, Expected(finished, w, 0)), Poll(job.names.Reviewer()))
            == If(w >= 4, TheDraft(job))
  {
    ReviewerBase(job, finished, w, Expected(finished, w, 0));
    OfThree(finished && w < 6, w >= 4, false, TheResearch(job), TheDraft(job), TheFinal(job), job.names.draft, 0, 0);
  }

  lemma ReviewerPolls(job: Job, finished: bool, w: nat)
    requires job.names.Distinct() && InStep(finished, w, 0)
    ensures ReviewerSeesAt(job, StagesOf(job), finished, w)
  {
    ReviewerSees(job, finished, w);
    if w >= 4 { DraftReceived(job, w, Expected(finished, w, 0)); }
  }

  lemma DraftReceived(job: Job, w: nat, h: Has)
    requires job.names.Distinct() && 4 <= w <= 6
    ensures BusAt(job, true, w, 0, h).(cursors := Cursors(job.names, w, 0)[job.names.Reviewer().Key() := 1])
            == BusAt(job, true, w, 1, h)
  {
  }

  /** The bus as a function of how far the threads are and of what its list holds. */
  type Stages = (bool, nat, nat, Has) -> Bus

  ghost function StagesOf(job: Job): Stages {
    (finished: bool, w: nat, v: nat, h: Has) => BusAt(job, finished, w, v, h)
  }

  ghost predicate WriterSeesAt(job: Job, at: Stages, finished: bool) {
    var poll, h := Poll(job.names.Writer()), Has(finished, false, false);
    && Found(Received(at(finished, 0, 0, h), poll), job.names.researchKind)
       == (if finished then Some(TheResearch(job)) else None)
    && Receive(at(finished, 0, 0, h), poll) == if finished then at(true, 1, 0, h) else at(finished, 0, 0, h)
  }

  ghost predicate ReviewerSeesAt(job: Job, at: Stages, finished: bool, w: nat) {
    var poll, h := Poll(job.names.Reviewer()), Expected(finished, w, 0);
    && Found(Received(at(finished, w, 0, h), poll), job.names.draftKind)
       == (if w >= 4 then Some(TheDraft(job)) else None)
    && Receive(at(finished, w, 0, h), poll) == if w >= 4 then at(finished, w, 1, h) else at(finished, w, 0, h)
  }

  /** Between two stages that only move a thread's local state the bus is the same. */
  lemma BusQuiet(job: Job, w: nat, v: nat, h: Has)
    ensures 1 <= w < 3 && v == 0 ==> BusAt(job, true, w, v, h) == BusAt(job, true, w + 1, v, h)
    ensures 4 <= w <= 5 ==> BusAt(job, true, w, v, h) == BusAt(job, true, w + 1, v, h)
    ensures 4 <= w <= 6 && (1 <= v < 5 || 6 <= v < 8) ==> BusAt(job, true, w, v, h) == BusAt(job, true, w, v + 1, h)
  {
  }

  // ----- the store and the snapshots -----

  function Done(job: Job, r: Researcher): (n: nat)
    ensures n <= |Tasks(job)|
  {
    if r.Working? && r.done <= |Tasks(job)| then r.done else |Tasks(job)|
  }

  /** What the writer and the reviewer have written. */
  function Later(job: Job, w: nat, v: nat): map<string, string> {
    var drafted := if w >= 2 then map["draft.md" := DraftText(job)] else map[];
    var reviewed := if v >= 3 then drafted["final.md" := FinalText(job)] else drafted;
    if v >= 4 then reviewed["critique.md" := CritiqueText(job)] else reviewed
  }

  function StoreAt(job: Job, r: Researcher, w: nat, v: nat): Store {
    Store(Researched(job, Done(job, r)).kv, Researched(job, Done(job, r)).files + Later(job, w, v))
  }

  /** Snapshots in the order research, draft, final. */
  function Snaps(r: Researcher, w: nat, v: nat): seq<string> {
    (if r.Working? then [] else ["research-complete"]) + (if w >= 3 then ["draft-complete"] else [])
    + if v >= 5 then ["final-complete"] else []
  }

  // ----- undisturbed acks -----

  /** The move changes the list of messages: a send, or the assignment that ends an ack. */
  predicate ChangesList(s: System, e: Event) {
    match e
    case ResearcherMoves => s.r.Snapped?
    case WriterMoves => s.w.DraftSnapped? || s.w.WriterAcking?
    case ReviewerMoves => s.v.FinalSnapped? || s.v.ReviewerAcking?
    case _ => false
  }

  /** ... while another thread has rebuilt the list and not yet assigned it. */
  predicate Disturbs(s: System, e: Event) {
    ChangesList(s, e) && ((s.w.WriterAcking? && e != WriterMoves) || (s.v.ReviewerAcking? && e != ReviewerMoves))
  }

  /** No thread sends or acks between another one's reading of the list and its assignment. */
  predicate Undisturbed(job: Job, schedule: seq<Event>) {
    schedule == [] ||
    (var n := |schedule| - 1;
     Undisturbed(job, schedule[..n]) && !Disturbs(Run(job, schedule[..n]), schedule[n]))
  }

  /** What the list holds, and the lists the two acks have rebuilt. */
  datatype Lists = Lists(now: Has, writers: Has, reviewers: Has)

  function ListsAfter(s: System, e: Event, x: Lists): Lists {
    match e
    case ResearcherMoves => if s.r.Snapped? then x.(now := x.now.(research := true)) else x
    case WriterMoves =>
      if s.w.DraftSnapped? then x.(now := x.now.(draft := true))
      else if s.w.DraftSent? then x.(writers := x.now.(research := false))
      else if s.w.WriterAcking? then x.(now := x.writers)
      else x
    case ReviewerMoves =>
      if s.v.FinalSnapped? then x.(now := x.now.(final := true))
      else if s.v.FinalSent? then x.(reviewers := x.now.(draft := false))
      else if s.v.ReviewerAcking? then x.(now := x.reviewers)
      else x
    case _ => x
  }

  const NO_LISTS := Lists(Has(false, false, false), Has(false, false, false), Has(false, false, false))

  function ListsOf(job: Job, schedule: seq<Event>): Lists {
    if schedule == [] then NO_LISTS
    else
      var n := |schedule| - 1;
      ListsAfter(Run(job, schedule[..n]), schedule[n], ListsOf(job, schedule[..n]))
  }

  /** As long as no ack has been disturbed, every list is what it should be... */
  predicate AsExpected(finished: bool, w: nat, v: nat, x: Lists) {
    && x.now == Expected(finished, w, v)
    && (w == 5 ==> x.writers == x.now.(research := false))
    && (v == 7 ==> x.reviewers == x.now.(draft := false))
  }

  /** ... and once one has, the list that is assigned last is wrong. */
  predicate Doomed(w: nat, v: nat, x: Lists) {
    && 5 <= w && 6 <= v
    && (w == 5 && v == 6 ==> x.now.research && x.writers.draft && !x.writers.final)
    && (w == 5 && v == 7 ==> x.writers.draft && x.reviewers.research)
    && (w == 5 && v == 8 ==> x.writers.draft)
    && (w == 6 && v == 6 ==> !x.now.final)
    && (w == 6 && v == 7 ==> x.reviewers.research || !x.reviewers.final)
    && (w == 6 && v == 8 ==> x.now != Has(false, false, true))
  }

  predicate ListsOk(clean: bool, finished: bool, w: nat, v: nat, x: Lists) {
    if clean then AsExpected(finished, w, v, x) else Doomed(w, v, x)
  }

  // ----- the invariant -----

  ghost predicate WriterOk(job: Job, w: Writer, rebuilt: Has) {
    match w
    case Collecting(msg, got) =>
      msg == TheResearch(job) && |got| <= 2 * |job.FactKeys()| && got == Reads(Findings(job), job.FactKeys(), |got|)
    case Drafted(msg) => msg == TheResearch(job)
    case DraftSnapped(msg, id) => msg == TheResearch(job) && id == 1
    case DraftSent(msg) => msg == TheResearch(job)
    case WriterAcking(left) => left == ListOf(job, rebuilt)
    case _ => true
  }

  ghost predicate ReviewerOk(job: Job, v: Reviewer, rebuilt: Has) {
    match v
    case GotDraft(msg) => msg == TheDraft(job)
    case Reviewing(msg, draft) => msg == TheDraft(job) && draft == DraftText(job)
    case FinalWritten(msg, draft) => msg == TheDraft(job) && draft == DraftText(job)
    case CritiqueWritten(msg, draft) => msg == TheDraft(job) && draft == DraftText(job)
    case FinalSnapped(msg, draft, id) => msg == TheDraft(job) && draft == DraftText(job) && id == 2
    case FinalSent(msg) => msg == TheDraft(job)
    case ReviewerAcking(left) => left == ListOf(job, rebuilt)
    case _ => true
  }

  ghost predicate ResearcherOk(job: Job, r: Researcher) {
    (r.Working? ==> r.done <= |Tasks(job)|) && (r.Snapped? ==> r.id == 0)
  }

  /** The shared state is a function of how far the three threads are and of the lists they have assigned, and the
      threads are in step. */
  ghost predicate Inv(job: Job, at: Stages, s: System, x: Lists) {
    var w, v := WriterRank(s.w), ReviewerRank(s.v);
    && ResearcherOk(job, s.r) && WriterOk(job, s.w, x.writers) && ReviewerOk(job, s.v, x.reviewers)
    && InStep(s.r.Finished?, w, v)
    && s.bus == at(s.r.Finished?, w, v, x.now)
    && s.store == StoreAt(job, s.r, w, v)
    && s.snaps == Snaps(s.r, w, v)
  }

  /** The lists follow from the ranks alone. */
  lemma ListsKeep(clean: bool, s: System, e: Event, s': System, x: Lists)
    requires ListsOk(clean, s.r.Finished?, WriterRank(s.w), ReviewerRank(s.v), x)
    requires InStep(s.r.Finished?, WriterRank(s.w), ReviewerRank(s.v)) && Follows(s, e, s')
    ensures ListsOk(clean && !Disturbs(s, e), s'.r.Finished?, WriterRank(s'.w), ReviewerRank(s'.v), ListsAfter(s, e, x))
  {
  }

  /** Only the moving thread gets further, and by at most one rank. */
  predicate Follows(s: System, e: Event, s': System) {
    match e
    case ResearcherMoves =>
      s'.w == s.w && s'.v == s.v && (s'.r.Finished? <==> s.r.Finished? || s.r.Snapped?)
    case WriterMoves =>
      && s'.r == s.r && s'.v == s.v
      && (WriterRank(s'.w) == WriterRank(s.w)
          || (WriterRank(s'.w) == WriterRank(s.w) + 1 && s.r.Finished?))
      && (WriterRank(s.w) in {3, 4, 5} ==> WriterRank(s'.w) == WriterRank(s.w) + 1)
    case ReviewerMoves =>
      && s'.r == s.r && s'.w == s.w
      && (ReviewerRank(s'.v) == ReviewerRank(s.v)
          || (ReviewerRank(s'.v) == ReviewerRank(s.v) + 1 && WriterRank(s.w) >= 4))
      && (ReviewerRank(s.v) in {5, 6, 7} ==> ReviewerRank(s'.v) == ReviewerRank(s.v) + 1)
    case _ => s'.r == s.r && WriterRank(s'.w) == WriterRank(s.w) && ReviewerRank(s'.v) == ReviewerRank(s.v)
  }

  lemma WorkingKeeps(job: Job, at: Stages, s: System, x: Lists)
    requires Inv(job, at, s, x) && s.r.Working? && s.r.done < |Tasks(job)|
    ensures Inv(job, at, StepResearcher(job, s), x)
  {
    var before, next := Researched(job, s.r.done), Researched(job, s.r.done + 1);
    assert before.files + map[] == before.files && s.store == before;
    assert next.files + map[] == next.files;
  }

  lemma ResearcherKeeps(job: Job, at: Stages, s: System, x: Lists)
    requires Send(at(false, 0, 0, Has(false, false, false)), job.names.research, Some(job.names.researchKind),
                  TheResearch(job).payload)
             == at(true, 0, 0, Has(true, false, false))
    requires Inv(job, at, s, x) && (!s.r.Finished? ==> x.now == Has(false, false, false))
    ensures Inv(job, at, StepResearcher(job, s), ListsAfter(s, ResearcherMoves, x))
  {
    if s.r.Working? && s.r.done < |Tasks(job)| { WorkingKeeps(job, at, s, x); }
  }

  lemma MergePut(a: map<string, string>, b: map<string, string>, k: string, v: string)
    ensures (a + b)[k := v] == a + b[k := v]
  {
  }

  lemma ReadsNext(job: Job, store: Store, n: nat)
    requires store.kv == Findings(job).kv && n < 2 * |job.FactKeys()|
    ensures ReadAt(store, job.FactKeys(), n) == ReadAt(Findings(job), job.FactKeys(), n)
  {
  }

  lemma WriterPollKeeps(job: Job, at: Stages, s: System, x: Lists)
    requires Inv(job, at, s, x) && s.w.Awaiting? && x.now == Has(s.r.Finished?, false, false)
    requires WriterSeesAt(job, at, s.r.Finished?)
    ensures Inv(job, at, StepWriter(job, s), x)
  {
  }

  lemma CollectingKeeps(job: Job, at: Stages, s: System, x: Lists)
    requires Inv(job, at, s, x) && s.w.Collecting? && |s.w.got| < 2 * |job.FactKeys()|
    ensures Inv(job, at, StepWriter(job, s), x)
  {
    ReadsNext(job, s.store, |s.w.got|);
  }

  lemma DraftingKeeps(job: Job, at: Stages, s: System, x: Lists)
    requires Inv(job, at, s, x) && s.w.Collecting? && |s.w.got| == 2 * |job.FactKeys()|
    requires at(true, 1, 0, x.now) == at(true, 2, 0, x.now)
    ensures Inv(job, at, StepWriter(job, s), x)
  {
    MergePut(Findings(job).files, map[], "draft.md", DraftText(job));
  }

  lemma DraftSnapKeeps(job: Job, at: Stages, s: System, x: Lists)
    requires Inv(job, at, s, x) && s.w.Drafted? && at(true, 2, 0, x.now) == at(true, 3, 0, x.now)
    ensures Inv(job, at, StepWriter(job, s), x)
  {
  }

  lemma DraftSendKeeps(job: Job, at: Stages, s: System, x: Lists)
    requires Inv(job, at, s, x) && s.w.DraftSnapped?
    requires Send(at(true, 3, 0, x.now), job.names.draft, Some(job.names.draftKind), TheDraft(job).payload)
             == at(true, 4, 0, x.now.(draft := true))
    ensures Inv(job, at, StepWriter(job, s), ListsAfter(s, WriterMoves, x))
  {
  }

  lemma ResearchReadKeeps(job: Job, at: Stages, s: System, x: Lists)
    requires Inv(job, at, s, x) && s.w.DraftSent?
    requires var v := ReviewerRank(s.v); at(true, 4, v, x.now) == at(true, 5, v, x.now)
    requires Without(at(true, 4, ReviewerRank(s.v), x.now).messages, TheResearch(job).id)
             == ListOf(job, x.now.(research := false))
    ensures Inv(job, at, StepWriter(job, s), ListsAfter(s, WriterMoves, x))
  {
  }

  lemma ResearchAssignKeeps(job: Job, at: Stages, s: System, x: Lists)
    requires Inv(job, at, s, x) && s.w.WriterAcking?
    requires var v := ReviewerRank(s.v);
             at(true, 5, v, x.now).(messages := ListOf(job, x.writers)) == at(true, 6, v, x.writers)
    ensures Inv(job, at, StepWriter(job, s), ListsAfter(s, WriterMoves, x))
  {
  }

  lemma ReviewerPollKeeps(job: Job, at: Stages, s: System, x: Lists)
    requires Inv(job, at, s, x) && s.v.AwaitingDraft? && x.now == Expected(s.r.Finished?, WriterRank(s.w), 0)
    requires ReviewerSeesAt(job, at, s.r.Finished?, WriterRank(s.w))
    ensures Inv(job, at, StepReviewer(job, s), x)
  {
  }

  lemma ReviewWorkKeeps(job: Job, at: Stages, s: System, x: Lists)
    requires Inv(job, at, s, x) && (s.v.GotDraft? || s.v.Reviewing? || s.v.FinalWritten?)
    requires var w, h := WriterRank(s.w), x.now;
             at(true, w, 1, h) == at(true, w, 2, h) == at(true, w, 3, h) == at(true, w, 4, h)
    ensures Inv(job, at, StepReviewer(job, s), x)
  {
    var w := WriterRank(s.w);
    match s.v {
      case GotDraft(msg) => assert "draft.md" in Later(job, w, 1);
      case Reviewing(msg, draft) => MergePut(Findings(job).files, Later(job, w, 2), "final.md", FinalText(job));
      case FinalWritten(msg, draft) =>
        MergePut(Findings(job).files, Later(job, w, 3), "critique.md", CritiqueText(job));
    }
  }

  lemma FinalSnapKeeps(job: Job, at: Stages, s: System, x: Lists)
    requires Inv(job, at, s, x) && s.v.CritiqueWritten?
    requires at(true, WriterRank(s.w), 4, x.now) == at(true, WriterRank(s.w), 5, x.now)
    ensures Inv(job, at, StepReviewer(job, s), x)
  {
  }

  lemma FinalSendKeeps(job: Job, at: Stages, s: System, x: Lists)
    requires Inv(job, at, s, x) && s.v.FinalSnapped?
    requires Send(at(true, WriterRank(s.w), 5, x.now), job.names.final, Some(job.names.finalKind),
                  TheFinal(job).payload)
             == at(true, WriterRank(s.w), 6, x.now.(final := true))
    ensures Inv(job, at, StepReviewer(job, s), ListsAfter(s, ReviewerMoves, x))
  {
  }

  lemma DraftReadKeeps(job: Job, at: Stages, s: System, x: Lists)
    requires Inv(job, at, s, x) && s.v.FinalSent?
    requires var w := WriterRank(s.w); at(true, w, 6, x.now) == at(true, w, 7, x.now)
    requires Without(at(true, WriterRank(s.w), 6, x.now).messages, TheDraft(job).id)
             == ListOf(job, x.now.(draft := false))
    ensures Inv(job, at, StepReviewer(job, s), ListsAfter(s, ReviewerMoves, x))
  {
  }

  lemma DraftAssignKeeps(job: Job, at: Stages, s: System, x: Lists)
    requires Inv(job, at, s, x) && s.v.ReviewerAcking?
    requires var w := WriterRank(s.w);
             at(true, w, 7, x.now).(messages := ListOf(job, x.reviewers)) == at(true, w, 8, x.reviewers)
    ensures Inv(job, at, StepReviewer(job, s), ListsAfter(s, ReviewerMoves, x))
  {
  }

  /** Assigning a rebuilt list. */
  lemma Assigns(job: Job, w: nat, v: nat, h: Has, rebuilt: Has)
    ensures w == 5 ==>
              BusAt(job, true, 5, v, h).(messages := ListOf(job, rebuilt)) == BusAt(job, true, 6, v, rebuilt)
    ensures v == 7 && 4 <= w ==>
              BusAt(job, true, w, 7, h).(messages := ListOf(job, rebuilt)) == BusAt(job, true, w, 8, rebuilt)
  {
  }

  /** The invariant and what it says about the lists. */
  ghost predicate Holds(job: Job, clean: bool, s: System, x: Lists) {
    Inv(job, StagesOf(job), s, x) && ListsOk(clean, s.r.Finished?, WriterRank(s.w), ReviewerRank(s.v), x)
  }

  lemma WriterKeeps(job: Job, clean: bool, s: System, x: Lists)
    requires job.names.Distinct() && Holds(job, clean, s, x) && (WriterRank(s.w) < 4 || s.w.WriterTimedOut?)
    ensures Inv(job, StagesOf(job), StepWriter(job, s), ListsAfter(s, WriterMoves, x))
  {
    match s.w {
      case Awaiting =>
        WriterPolls(job, s.r.Finished?);
        WriterPollKeeps(job, StagesOf(job), s, x);
      case Collecting(msg, got) =>
        BusQuiet(job, 1, 0, x.now);
        if |got| < 2 * |job.FactKeys()| {
          CollectingKeeps(job, StagesOf(job), s, x);
        } else {
          DraftingKeeps(job, StagesOf(job), s, x);
        }
      case Drafted(msg) =>
        BusQuiet(job, 2, 0, x.now);
        DraftSnapKeeps(job, StagesOf(job), s, x);
      case DraftSnapped(msg, id) =>
        SendsDraft(job);
        DraftSendKeeps(job, StagesOf(job), s, x);
      case _ =>
    }
  }

  lemma WriterAckKeeps(job: Job, s: System, x: Lists)
    requires Inv(job, StagesOf(job), s, x) && WriterRank(s.w) >= 4
    ensures Inv(job, StagesOf(job), StepWriter(job, s), ListsAfter(s, WriterMoves, x))
  {
    var v := ReviewerRank(s.v);
    match s.w {
      case DraftSent(msg) =>
        BusQuiet(job, 4, v, x.now);
        LeavesResearch(job, x.now);
        ResearchReadKeeps(job, StagesOf(job), s, x);
      case WriterAcking(left) =>
        Assigns(job, 5, v, x.now, x.writers);
        ResearchAssignKeeps(job, StagesOf(job), s, x);
      case _ =>
    }
  }

  lemma ReviewerKeeps(job: Job, clean: bool, s: System, x: Lists)
    requires job.names.Distinct() && Holds(job, clean, s, x) && ReviewerRank(s.v) < 4
    ensures Inv(job, StagesOf(job), StepReviewer(job, s), ListsAfter(s, ReviewerMoves, x))
  {
    var w := WriterRank(s.w);
    if s.v.AwaitingDraft? {
      ReviewerPolls(job, s.r.Finished?, w);
      ReviewerPollKeeps(job, StagesOf(job), s, x);
    } else if !s.v.ReviewerTimedOut? {
      BusQuiet(job, w, 1, x.now);
      BusQuiet(job, w, 2, x.now);
      BusQuiet(job, w, 3, x.now);
      ReviewWorkKeeps(job, StagesOf(job), s, x);
    }
  }

  lemma PublishKeeps(job: Job, clean: bool, s: System, x: Lists)
    requires job.names.Distinct() && Holds(job, clean, s, x) && (s.v.CritiqueWritten? || s.v.FinalSnapped?)
    ensures Inv(job, StagesOf(job), StepReviewer(job, s), ListsAfter(s, ReviewerMoves, x))
  {
    var w := WriterRank(s.w);
    if s.v.CritiqueWritten? {
      BusQuiet(job, w, 4, x.now);
      FinalSnapKeeps(job, StagesOf(job), s, x);
    } else {
      SendsFinal(job, w, x.now);
      FinalSendKeeps(job, StagesOf(job), s, x);
    }
  }

  lemma ReviewerAckKeeps(job: Job, s: System, x: Lists)
    requires Inv(job, StagesOf(job), s, x) && ReviewerRank(s.v) >= 6
    ensures Inv(job, StagesOf(job), StepReviewer(job, s), ListsAfter(s, ReviewerMoves, x))
  {
    var w := WriterRank(s.w);
    match s.v {
      case FinalSent(msg) =>
        BusQuiet(job, w, 6, x.now);
        LeavesDraft(job, x.now);
        DraftReadKeeps(job, StagesOf(job), s, x);
      case ReviewerAcking(left) =>
        Assigns(job, w, 7, x.now, x.reviewers);
        DraftAssignKeeps(job, StagesOf(job), s, x);
      case _ =>
    }
  }

  lemma ApplyKeeps(job: Job, clean: bool, s: System, x: Lists, e: Event)
    requires job.names.Distinct() && Holds(job, clean, s, x)
    ensures Inv(job, StagesOf(job), Apply(job, s, e), ListsAfter(s, e, x))
  {
    match e {
      case ResearcherMoves =>
        SendsResearch(job);
        ResearcherKeeps(job, StagesOf(job), s, x);
      case WriterMoves =>
        if WriterRank(s.w) < 4 { WriterKeeps(job, clean, s, x); } else { WriterAckKeeps(job, s, x); }
      case ReviewerMoves =>
        if ReviewerRank(s.v) < 4 {
          ReviewerKeeps(job, clean, s, x);
        } else if ReviewerRank(s.v) < 6 {
          PublishKeeps(job, clean, s, x);
        } else {
          ReviewerAckKeeps(job, s, x);
        }
      case _ =>
    }
  }

  /** How the writer gets on. */
  lemma WriterPollStep(job: Job, at: Stages, s: System)
    requires s.w.Awaiting? && s.bus == at(s.r.Finished?, 0, 0, Has(s.r.Finished?, false, false))
    requires WriterSeesAt(job, at, s.r.Finished?)
    ensures var s' := StepWriter(job, s);
            && s'.r == s.r && s'.v == s.v
            && s'.w == if s.r.Finished? then Collecting(TheResearch(job), []) else Awaiting
  {
  }

  lemma WriterWorkStep(job: Job, s: System)
    requires !s.w.Awaiting? && (s.w.Collecting? ==> s.w.msg == TheResearch(job))
    requires s.w.Collecting? ==> |s.w.got| <= 2 * |job.FactKeys()|
    ensures var s' := StepWriter(job, s);
            && s'.r == s.r && s'.v == s.v
            && if s.w == WriterDone || s.w == WriterTimedOut then s'.w == s.w
               else if s.w.Collecting? && |s.w.got| < 2 * |job.FactKeys()|
               then s'.w.Collecting? && |s'.w.got| == |s.w.got| + 1
               else WriterRank(s'.w) == WriterRank(s.w) + 1
  {
  }

  /** How the reviewer gets on. */
  lemma ReviewerPollStep(job: Job, at: Stages, s: System)
    requires var w := WriterRank(s.w);
             && s.v.AwaitingDraft? && s.bus == at(s.r.Finished?, w, 0, Expected(s.r.Finished?, w, 0))
             && ReviewerSeesAt(job, at, s.r.Finished?, w)
    ensures var s' := StepReviewer(job, s);
            && s'.r == s.r && s'.w == s.w
            && s'.v == if WriterRank(s.w) >= 4 then GotDraft(TheDraft(job)) else AwaitingDraft
  {
  }

  lemma ReviewerWorkStep(job: Job, s: System)
    requires !s.v.AwaitingDraft? && (s.v.GotDraft? ==> s.v.msg.payload.Draft?)
    ensures var s' := StepReviewer(job, s);
            && s'.r == s.r && s'.w == s.w
            && if s.v == ReviewerDone || s.v == ReviewerTimedOut then s'.v == s.v
               else ReviewerRank(s'.v) == ReviewerRank(s.v) + 1
  {
  }

  lemma WriterGetsOn(job: Job, clean: bool, s: System, x: Lists)
    requires job.names.Distinct() && Holds(job, clean, s, x)
    ensures Follows(s, WriterMoves, StepWriter(job, s))
    ensures s.r.Finished? && s.w != WriterDone && s.w != WriterTimedOut ==>
              Left(job, StepWriter(job, s)) == Left(job, s) - 1
  {
    if s.w.Awaiting? {
      WriterPolls(job, s.r.Finished?);
      WriterPollStep(job, StagesOf(job), s);
    } else {
      WriterWorkStep(job, s);
    }
  }

  lemma ReviewerGetsOn(job: Job, clean: bool, s: System, x: Lists)
    requires job.names.Distinct() && Holds(job, clean, s, x)
    ensures Follows(s, ReviewerMoves, StepReviewer(job, s))
    ensures WriterRank(s.w) >= 4 && s.v != ReviewerDone && s.v != ReviewerTimedOut ==>
              var s' := StepReviewer(job, s);
              ReviewerRank(s'.v) == ReviewerRank(s.v) + 1 && Left(job, s') == Left(job, s) - 1
  {
    if s.v.AwaitingDraft? {
      ReviewerPolls(job, s.r.Finished?, WriterRank(s.w));
      ReviewerPollStep(job, StagesOf(job), s);
    } else {
      ReviewerWorkStep(job, s);
    }
  }

  /** The operations the three threads have left. */
  function Left(job: Job, s: System): int {
    (match s.r case Working(done) => |Tasks(job)| - done + 2 case Snapped(_) => 1 case Finished => 0)
    + (match s.w case Awaiting => 2 * |job.FactKeys()| + 6
       case Collecting(_, got) => 2 * |job.FactKeys()| - |got| + 5
       case _ => 6 - WriterRank(s.w))
    + 8 - ReviewerRank(s.v)
  }

  lemma ApplyFollows(job: Job, clean: bool, s: System, x: Lists, e: Event)
    requires job.names.Distinct() && Holds(job, clean, s, x)
    ensures Follows(s, e, Apply(job, s, e))
  {
    match e {
      case WriterMoves => WriterGetsOn(job, clean, s, x);
      case ReviewerMoves => ReviewerGetsOn(job, clean, s, x);
      case _ =>
    }
  }

  /** In every interleaving the shared state is a function of how far the three threads are and of the lists assigned:
      while no ack has been disturbed the list of messages is the expected one, and once one has, it ends up wrong. */
  lemma {:induction false} Reachable(job: Job, schedule: seq<Event>)
    requires job.names.Distinct()
    ensures Holds(job, Undisturbed(job, schedule), Run(job, schedule), ListsOf(job, schedule))
    decreases |schedule|
  {
    if schedule != [] {
      var n := |schedule| - 1;
      var s, x, e := Run(job, schedule[..n]), ListsOf(job, schedule[..n]), schedule[n];
      var clean := Undisturbed(job, schedule[..n]);
      Reachable(job, schedule[..n]);
      ApplyKeeps(job, clean, s, x, e);
      ApplyFollows(job, clean, s, x, e);
      ListsKeep(clean, s, e, Apply(job, s, e), x);
    }
  }

  // ----- the findings -----

  lemma {:induction false} KeysStay(job: Job, m: nat, n: nat)
    requires m <= n <= |Tasks(job)|
    ensures Researched(job, m).kv.Keys <= Researched(job, n).kv.Keys
    decreases n
  {
    if m < n { KeysStay(job, m, n - 1); }
  }

  lemma {:induction false} FetchTasksAt(sources: seq<Source>, i: nat)
    requires i < |sources|
    ensures |FetchTasks(sources)| == 2 * |sources| && FetchTasks(sources)[2 * i + 1] == PutMeta(sources[i])
    decreases |sources|
  {
    var n := |sources| - 1;
    if i < n {
      FetchTasksAt(sources[..n], i);
    } else if n > 0 {
      FetchTasksAt(sources[..n], 0);
    }
  }

  lemma TaskAt(job: Job, i: nat)
    requires i < |job.Sources()|
    ensures |Tasks(job)| == 3 * |job.Sources()| + 3
    ensures Tasks(job)[2 + 2 * i] == WritePage(job.Sources()[i]) && Tasks(job)[3 + 2 * i] == PutMeta(job.Sources()[i])
    ensures Tasks(job)[2 + 2 * |job.Sources()| + i] == Extract(job.Sources()[i])
  {
    FetchTasksAt(job.Sources(), i);
    FetchPagesAt(job.Sources(), i);
  }

  lemma {:induction false} FetchPagesAt(sources: seq<Source>, i: nat)
    requires i < |sources|
    ensures |FetchTasks(sources)| == 2 * |sources| && FetchTasks(sources)[2 * i] == WritePage(sources[i])
    decreases |sources|
  {
    var n := |sources| - 1;
    if i < n {
      FetchPagesAt(sources[..n], i);
    } else if n > 0 {
      FetchPagesAt(sources[..n], 0);
    }
  }

  lemma TaskCount(job: Job)
    ensures |Tasks(job)| == 3 * |job.Sources()| + 3 && Tasks(job)[3 * |job.Sources()| + 2] == WriteFacts
    ensures Tasks(job)[0] == PutTopic && Tasks(job)[1] == PutIndex
  {
    if job.Sources() != [] { FetchTasksAt(job.Sources(), 0); }
  }

  /** The researcher stores a fact and the metadata of every source it uses. */
  lemma FoundKeys(job: Job, i: nat)
    requires i < |job.Sources()|
    ensures FactKey(job.Sources()[i].url) in Findings(job).kv && MetaKey(job.Sources()[i].url) in Findings(job).kv
  {
    var sources := job.Sources();
    FetchTasksAt(sources, i);
    var meta, fact := 2 + 2 * i + 1, 2 + 2 * |sources| + i;
    assert Tasks(job)[meta] == PutMeta(sources[i]);
    assert Tasks(job)[fact] == Extract(sources[i]);
    KeysStay(job, meta + 1, |Tasks(job)|);
    KeysStay(job, fact + 1, |Tasks(job)|);
  }

  lemma SlashAfterFacts(url: string)
    ensures AfterSlash(FactKey(url)) == url
  {
    var key := FactKey(url);
    assert key[5] == '/' && key[6..] == url;
    assert Tail(key[5..]) == url by { assert key[5..][1..] == key[6..]; }
    assert key[4..][1..] == key[5..] && key[3..][1..] == key[4..] && key[2..][1..] == key[3..];
    assert key[1..][1..] == key[2..];
    assert Tail(key[4..]) == url;
    assert Tail(key[3..]) == url;
    assert Tail(key[2..]) == url;
    assert Tail(key[1..]) == url;
  }

  // ----- the main results -----

  /** Every key, path and snapshot a payload refers to is in the workspace. */
  ghost predicate Written(s: System, payload: Payload) {
    match payload
    case Research(_, id, keys) =>
      id < |s.snaps| && s.snaps[id] == "research-complete" && forall i :: 0 <= i < |keys| ==> keys[i] in s.store.kv
    case Draft(_, id, path) => id < |s.snaps| && s.snaps[id] == "draft-complete" && path in s.store.files
    case Final(_, id, path, _) => id < |s.snaps| && s.snaps[id] == "final-complete" && path in s.store.files
    case Other(_) => false
  }

  lemma ResearchWritten(job: Job, at: Stages, s: System, x: Lists)
    requires Inv(job, at, s, x) && s.r.Finished?
    ensures Written(s, TheResearch(job).payload)
  {
    forall i | 0 <= i < |job.FactKeys()| ensures job.FactKeys()[i] in s.store.kv { FoundKeys(job, i); }
  }

  lemma DraftWritten(job: Job, at: Stages, s: System, x: Lists)
    requires Inv(job, at, s, x) && WriterRank(s.w) >= 4
    ensures Written(s, TheDraft(job).payload) && s.store.files["draft.md"] == DraftText(job)
  {
  }

  lemma FinalIsWritten(job: Job, at: Stages, s: System, x: Lists)
    requires Inv(job, at, s, x) && ReviewerRank(s.v) >= 6
    ensures Written(s, TheFinal(job).payload)
    ensures s.store.files["final.md"] == FinalText(job) && s.store.files["critique.md"] == CritiqueText(job)
  {
  }

  lemma LaterTexts(job: Job, w: nat, v: nat)
    ensures w >= 2 ==> "draft.md" in Later(job, w, v) && Later(job, w, v)["draft.md"] == DraftText(job)
    ensures v >= 4 ==>
              && "final.md" in Later(job, w, v) && Later(job, w, v)["final.md"] == FinalText(job)
              && "critique.md" in Later(job, w, v) && Later(job, w, v)["critique.md"] == CritiqueText(job)
  {
    assert "draft.md"[0] == 'd' && "final.md"[0] == 'f' && "critique.md"[0] == 'c';
  }

  /** In every interleaving: whatever a message on the bus refers to is already written, so it is when the message is
      received, and it stays. */
  lemma HandoffsAreWritten(job: Job, schedule: seq<Event>)
    requires job.names.Distinct()
    ensures var s := Run(job, schedule);
            && (forall m :: m in s.bus.messages ==> Written(s, m.payload))
            && (WriterRank(s.w) >= 1 ==> Written(s, TheResearch(job).payload))
            && (ReviewerRank(s.v) >= 1 ==> Written(s, TheDraft(job).payload))
  {
    Reachable(job, schedule);
    var s, x := Run(job, schedule), ListsOf(job, schedule);
    if s.r.Finished? { ResearchWritten(job, StagesOf(job), s, x); }
    if WriterRank(s.w) >= 4 { DraftWritten(job, StagesOf(job), s, x); }
    if ReviewerRank(s.v) >= 6 { FinalIsWritten(job, StagesOf(job), s, x); }
    OnlySent(job, Undisturbed(job, schedule), s, x);
  }

  /** A list never holds a message that has not been sent. */
  lemma OnlySent(job: Job, clean: bool, s: System, x: Lists)
    requires Holds(job, clean, s, x)
    ensures forall m :: m in s.bus.messages ==>
              || (m == TheResearch(job) && s.r.Finished?)
              || (m == TheDraft(job) && WriterRank(s.w) >= 4)
              || (m == TheFinal(job) && ReviewerRank(s.v) >= 6)
  {
  }

  /** The writer never falls back to a default: every read finds something, and what it should find, the fact under the
      facts key of each source and the record under its metadata key, is there. */
  lemma NothingMissing(job: Job, schedule: seq<Event>, i: nat)
    requires job.names.Distinct() && i < 2 * |job.FactKeys()| && WriterRank(Run(job, schedule).w) >= 1
    ensures ReadAt(Run(job, schedule).store, job.FactKeys(), i).Some?
    ensures var kv, url := Run(job, schedule).store.kv, job.Sources()[i / 2].url;
            "facts/" + url in kv && "sources/meta/" + url in kv
  {
    Reachable(job, schedule);
    FoundKeys(job, i / 2);
    SlashAfterFacts(job.Sources()[i / 2].url);
  }

  /** Snapshots appear in the order research, draft, final, and no channel ever carries a second message. */
  lemma InOrderOnce(job: Job, schedule: seq<Event>, channel: string)
    requires job.names.Distinct()
    ensures Run(job, schedule).snaps <= ["research-complete", "draft-complete", "final-complete"]
    ensures LastSeq(Run(job, schedule).bus, channel) <= 1
  {
    Reachable(job, schedule);
    var s, x := Run(job, schedule), ListsOf(job, schedule);
    OneEach(job, s.r.Finished?, WriterRank(s.w), ReviewerRank(s.v), x.now, channel);
    SnapsInOrder(s.r, WriterRank(s.w), ReviewerRank(s.v));
  }

  lemma OneEach(job: Job, finished: bool, w: nat, v: nat, h: Has, channel: string)
    ensures LastSeq(BusAt(job, finished, w, v, h), channel) <= 1
  {
  }

  lemma SnapsInOrder(r: Researcher, w: nat, v: nat)
    requires InStep(r.Finished?, w, v)
    ensures Snaps(r, w, v) <= ["research-complete", "draft-complete", "final-complete"]
  {
  }

  predicate AllDone(s: System) {
    s.r == Finished && s.w == WriterDone && s.v == ReviewerDone
  }

  /** What the summary of a run should show: nothing left on the first two channels, one message on the last. */
  predicate DepthsOk(job: Job, s: System) {
    && Depth(s.bus.messages, job.names.research) == 0
    && Depth(s.bus.messages, job.names.draft) == 0
    && Depth(s.bus.messages, job.names.final) == 1
  }

  /** Once all agents have ended without timing out, whatever the interleaving, the snapshots and the texts are those of
      a run of the agents one after the other.  The channel depths are 0, 0, 1 exactly when no thread sent or acked
      between another one's reading and assigning of the list in an ack, and then the orchestrator finds the final
      message. */
  lemma PipelineResult(job: Job, schedule: seq<Event>)
    requires job.names.Distinct() && AllDone(Run(job, schedule))
    ensures var s := Run(job, schedule);
            && s.snaps == ["research-complete", "draft-complete", "final-complete"]
            && s.store == Store(Findings(job).kv, Findings(job).files + Later(job, 6, 8))
            && (DepthsOk(job, s) <==> Undisturbed(job, schedule))
            && (Undisturbed(job, schedule) ==>
                  Found(Received(s.bus, Poll(job.names.Orchestrator())), job.names.finalKind) == Some(TheFinal(job)))
  {
    Reachable(job, schedule);
    var s, x := Run(job, schedule), ListsOf(job, schedule);
    DoneState(job, s, x);
    DepthsAre(job, x.now);
    OrchestratorSees(job, x.now);
  }

  lemma DoneState(job: Job, s: System, x: Lists)
    requires Inv(job, StagesOf(job), s, x) && AllDone(s)
    ensures s.bus == BusAt(job, true, 6, 8, x.now)
    ensures s.snaps == ["research-complete", "draft-complete", "final-complete"]
    ensures s.store == Store(Findings(job).kv, Findings(job).files + Later(job, 6, 8))
  {
  }

  lemma DepthsAre(job: Job, h: Has)
    requires job.names.Distinct()
    ensures Depth(ListOf(job, h), job.names.research) == if h.research then 1 else 0
    ensures Depth(ListOf(job, h), job.names.draft) == if h.draft then 1 else 0
    ensures Depth(ListOf(job, h), job.names.final) == if h.final then 1 else 0
  {
    var x, y, z := TheResearch(job), TheDraft(job), TheFinal(job);
    OfThree(h.research, h.draft, h.final, x, y, z, job.names.research, 0, 0);
    OfThree(h.research, h.draft, h.final, x, y, z, job.names.draft, 0, 0);
    OfThree(h.research, h.draft, h.final, x, y, z, job.names.final, 0, 0);
  }

  lemma OrchestratorSees(job: Job, h: Has)
    requires job.names.Distinct()
    ensures Received(BusAt(job, true, 6, 8, h), Poll(job.names.Orchestrator())) == If(h.final, TheFinal(job))
  {
    OfThree(h.research, h.draft, h.final, TheResearch(job), TheDraft(job), TheFinal(job), job.names.final, 0, 0);
  }

  /** Distinct channel names without colons are enough, whatever the consumers are called. */
  lemma PlainChannelsSuffice(names: Names)
    requires names.research != names.draft && names.draft != names.final && names.research != names.final
    requires ':' !in names.research && ':' !in names.draft && ':' !in names.final
    ensures names.Distinct()
  {
    PlainNamesDoNotCollide(names.Writer(), names.Reviewer());
    PlainNamesDoNotCollide(names.Reviewer(), names.Orchestrator());
    PlainNamesDoNotCollide(names.Writer(), names.Orchestrator());
  }

  /** The names in use are distinct and their cursor keys do not collide. */
  lemma NamesDistinct()
    ensures NAMES.Distinct()
  {
    assert NAMES.research[0] == 'r' && NAMES.draft[0] == 'w' && NAMES.final[0] == 'f';
    PlainChannelsSuffice(NAMES);
  }

  // ----- progress -----

  /** The pipeline cannot deadlock: until all agents are done or one has given up, some thread can move, and it has one
      operation less to go. */
  lemma NeverStuck(job: Job, schedule: seq<Event>)
    requires job.names.Distinct()
    ensures var s := Run(job, schedule);
            AllDone(s) || s.w == WriterTimedOut || s.v == ReviewerTimedOut
            || Left(job, StepResearcher(job, s)) == Left(job, s) - 1
            || Left(job, StepWriter(job, s)) == Left(job, s) - 1
            || Left(job, StepReviewer(job, s)) == Left(job, s) - 1
  {
    Reachable(job, schedule);
    var s, x, clean := Run(job, schedule), ListsOf(job, schedule), Undisturbed(job, schedule);
    if !s.r.Finished? {
      ResearcherHasMoved(job, StagesOf(job), s, x);
    } else {
      WriterGetsOn(job, clean, s, x);
      ReviewerGetsOn(job, clean, s, x);
    }
  }

  lemma ResearcherHasMoved(job: Job, at: Stages, s: System, x: Lists)
    requires Inv(job, at, s, x) && !s.r.Finished?
    ensures var s' := StepResearcher(job, s);
            s'.w == s.w && s'.v == s.v && Left(job, s') == Left(job, s) - 1
  {
  }

  // ----- acks that overlap -----

  function Times(e: Event, n: nat): (es: seq<Event>)
    ensures |es| == n && forall i :: 0 <= i < n ==> es[i] == e
  {
    if n == 0 then [] else Times(e, n - 1) + [e]
  }

  lemma OneMore(job: Job, schedule: seq<Event>, e: Event)
    ensures Run(job, schedule + [e]) == Apply(job, Run(job, schedule), e)
    ensures ListsOf(job, schedule + [e]) == ListsAfter(Run(job, schedule), e, ListsOf(job, schedule))
    ensures Undisturbed(job, schedule + [e])
            <==> Undisturbed(job, schedule) && !Disturbs(Run(job, schedule), e)
  {
    assert (schedule + [e])[..|schedule|] == schedule;
  }

  lemma ResearcherNext(job: Job, schedule: seq<Event>)
    requires job.names.Distinct() && Undisturbed(job, schedule)
    requires var s := Run(job, schedule);
             s.w == Awaiting && s.v == AwaitingDraft && Left(job, s) > 2 * |job.FactKeys()| + 14
    ensures var s, s' := Run(job, schedule), Run(job, schedule + [ResearcherMoves]);
            && s'.w == Awaiting && s'.v == AwaitingDraft && Undisturbed(job, schedule + [ResearcherMoves])
            && Left(job, s') == Left(job, s) - 1
  {
    Reachable(job, schedule);
    OneMore(job, schedule, ResearcherMoves);
    assert !Run(job, schedule).r.Finished?;
    ResearcherHasMoved(job, StagesOf(job), Run(job, schedule), ListsOf(job, schedule));
  }

  lemma WriterNext(job: Job, schedule: seq<Event>)
    requires job.names.Distinct() && Undisturbed(job, schedule)
    requires var s := Run(job, schedule);
             s.r == Finished && s.v == AwaitingDraft && s.w != WriterTimedOut && Left(job, s) > 8
    ensures var s, s' := Run(job, schedule), Run(job, schedule + [WriterMoves]);
            && s'.r == Finished && s'.v == AwaitingDraft && s'.w != WriterTimedOut
            && Undisturbed(job, schedule + [WriterMoves]) && Left(job, s') == Left(job, s) - 1
  {
    Reachable(job, schedule);
    OneMore(job, schedule, WriterMoves);
    WriterGetsOn(job, true, Run(job, schedule), ListsOf(job, schedule));
    WriterStays(job, Run(job, schedule));
  }

  lemma WriterStays(job: Job, s: System)
    requires s.w != WriterTimedOut
    ensures var s' := StepWriter(job, s); s'.r == s.r && s'.v == s.v && s'.w != WriterTimedOut
  {
  }

  lemma ReviewerNext(job: Job, schedule: seq<Event>)
    requires job.names.Distinct()
    requires var s := Run(job, schedule);
             s.r == Finished && s.w.WriterAcking? && s.v != ReviewerDone && s.v != ReviewerTimedOut
    ensures var s, s' := Run(job, schedule), Run(job, schedule + [ReviewerMoves]);
            && s'.r == Finished && s'.w == s.w && s'.v != ReviewerTimedOut
            && ReviewerRank(s'.v) == ReviewerRank(s.v) + 1
            && ListsOf(job, schedule + [ReviewerMoves]).writers == ListsOf(job, schedule).writers
  {
    Reachable(job, schedule);
    OneMore(job, schedule, ReviewerMoves);
    ReviewerGetsOn(job, Undisturbed(job, schedule), Run(job, schedule), ListsOf(job, schedule));
    ReviewerStays(job, Run(job, schedule));
  }

  lemma ReviewerStays(job: Job, s: System)
    requires s.v != ReviewerTimedOut
    ensures var s' := StepReviewer(job, s); s'.r == s.r && s'.w == s.w && s'.v != ReviewerTimedOut
  {
  }

  lemma NothingYet(job: Job)
    ensures Run(job, []) == Handoff.START && Undisturbed(job, [])
    ensures Left(job, Handoff.START) == |Tasks(job)| + 2 * |job.FactKeys()| + 16
  {
  }

  /** The researcher alone, for as long as it takes. */
  lemma {:induction false} ResearcherAlone(job: Job, left: nat, n: nat)
    requires job.names.Distinct() && n <= |Tasks(job)| + 2 && left == |Tasks(job)| + 2 * |job.FactKeys()| + 16
    ensures var s := Run(job, Times(ResearcherMoves, n));
            && s.w == Awaiting && s.v == AwaitingDraft && Undisturbed(job, Times(ResearcherMoves, n))
            && Left(job, s) == left - n
  {
    if n == 0 {
      NothingYet(job);
    } else {
      ResearcherAlone(job, left, n - 1);
      ResearcherNext(job, Times(ResearcherMoves, n - 1));
    }
  }

  lemma ResearcherEnds(job: Job)
    requires job.names.Distinct()
    ensures var first := Times(ResearcherMoves, |Tasks(job)| + 2);
            var s := Run(job, first);
            s.r == Finished && s.w == Awaiting && s.v == AwaitingDraft && Undisturbed(job, first)
  {
    var first := Times(ResearcherMoves, |Tasks(job)| + 2);
    ResearcherAlone(job, |Tasks(job)| + 2 * |job.FactKeys()| + 16, |Tasks(job)| + 2);
    ResearcherDone(job, first);
  }

  lemma ResearcherDone(job: Job, schedule: seq<Event>)
    requires job.names.Distinct()
    ensures var s := Run(job, schedule);
            s.w == Awaiting && s.v == AwaitingDraft && Left(job, s) == 2 * |job.FactKeys()| + 14 ==> s.r == Finished
  {
    Reachable(job, schedule);
  }

  /** Then the writer, until it has rebuilt the list for its ack. */
  lemma {:induction false} WriterAlone(job: Job, before: seq<Event>, n: nat)
    requires job.names.Distinct() && Undisturbed(job, before) && n <= 2 * |job.FactKeys()| + 5
    requires var s := Run(job, before); s.r == Finished && s.w == Awaiting && s.v == AwaitingDraft
    ensures var s := Run(job, before + Times(WriterMoves, n));
            && s.r == Finished && s.v == AwaitingDraft && s.w != WriterTimedOut
            && Undisturbed(job, before + Times(WriterMoves, n))
            && Left(job, s) == 2 * |job.FactKeys()| + 14 - n
  {
    if n == 0 {
      assert before + [] == before;
    } else {
      var schedule := before + Times(WriterMoves, n - 1);
      WriterAlone(job, before, n - 1);
      WriterNext(job, schedule);
      assert schedule + [WriterMoves] == before + Times(WriterMoves, n);
    }
  }

  lemma WriterHasRead(job: Job, schedule: seq<Event>)
    requires job.names.Distinct() && Undisturbed(job, schedule)
    requires var s := Run(job, schedule);
             s.r == Finished && s.v == AwaitingDraft && s.w != WriterTimedOut && Left(job, s) == 9
    ensures Run(job, schedule).w.WriterAcking? && ListsOf(job, schedule).writers == Has(false, true, false)
  {
    Reachable(job, schedule);
  }

  /** Then the reviewer, from its poll to the end of its ack. */
  lemma {:induction false} ReviewerAlone(job: Job, before: seq<Event>, n: nat)
    requires job.names.Distinct() && n <= 8
    requires var s := Run(job, before); s.r == Finished && s.w.WriterAcking? && s.v == AwaitingDraft
    ensures var schedule := before + Times(ReviewerMoves, n);
            var s := Run(job, schedule);
            && s.r == Finished && s.w == Run(job, before).w && ReviewerRank(s.v) == n && s.v != ReviewerTimedOut
            && ListsOf(job, schedule).writers == ListsOf(job, before).writers
  {
    if n == 0 {
      assert before + [] == before;
    } else {
      var schedule := before + Times(ReviewerMoves, n - 1);
      ReviewerAlone(job, before, n - 1);
      ReviewerNext(job, schedule);
      assert schedule + [ReviewerMoves] == before + Times(ReviewerMoves, n);
    }
  }

  /** The writer rebuilds the list before the reviewer sends... */
  function Prelude(job: Job): seq<Event> {
    Times(ResearcherMoves, |Tasks(job)| + 2) + Times(WriterMoves, 2 * |job.FactKeys()| + 5)
  }

  /** ... and assigns it after the reviewer is done. */
  function Overlap(job: Job): seq<Event> {
    Prelude(job) + Times(ReviewerMoves, 8) + [WriterMoves]
  }

  lemma AfterPrelude(job: Job)
    requires job.names.Distinct()
    ensures var s := Run(job, Prelude(job));
            && s.r == Finished && s.w.WriterAcking? && s.v == AwaitingDraft
            && ListsOf(job, Prelude(job)).writers == Has(false, true, false)
  {
    ResearcherEnds(job);
    WriterAlone(job, Times(ResearcherMoves, |Tasks(job)| + 2), 2 * |job.FactKeys()| + 5);
    WriterHasRead(job, Prelude(job));
  }

  lemma AfterOverlap(job: Job)
    requires job.names.Distinct()
    ensures AllDone(Run(job, Overlap(job))) && ListsOf(job, Overlap(job)).now == Has(false, true, false)
  {
    var third := Prelude(job) + Times(ReviewerMoves, 8);
    AfterPrelude(job);
    ReviewerAlone(job, Prelude(job), 8);
    OneMore(job, third, WriterMoves);
  }

  /** On that schedule every agent ends without an error, and yet the final message is lost and the draft is back. */
  lemma OverlapLosesFinal(job: Job)
    requires job.names.Distinct()
    ensures var s := Run(job, Overlap(job));
            && AllDone(s) && !Undisturbed(job, Overlap(job)) && s.bus.messages == [TheDraft(job)]
            && Depth(s.bus.messages, job.names.draft) == 1 && Depth(s.bus.messages, job.names.final) == 0
            && Received(s.bus, Poll(job.names.Orchestrator())) == []
  {
    AfterOverlap(job);
    Reachable(job, Overlap(job));
    DoneState(job, Run(job, Overlap(job)), ListsOf(job, Overlap(job)));
    DepthsAre(job, Has(false, true, false));
    OrchestratorSees(job, Has(false, true, false));
  }
}
