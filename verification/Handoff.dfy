/** The three-agent pipeline: researcher, writer and reviewer as concurrent threads over one workspace, one operation on
    the workspace at a time, in any order. */
module Handoff {
  import opened Wrappers
  import opened Runs
  import opened Channels
  import opened ChannelHistory
  import opened ChannelBus

  // ----- the job -----

  datatype Source = Source(url: string, title: string, snippet: string)

  datatype Value = Text(text: string) | Urls(urls: seq<string>) | Meta(title: string, url: string, snippet: string)

  /** The names the agents agree on. */
  datatype Names = Names(research: string, draft: string, final: string,
                         researchKind: string, draftKind: string, finalKind: string,
                         writer: string, reviewer: string, orchestrator: string)
  {
    function Writer(): Subscriber { Subscriber(research, writer) }
    function Reviewer(): Subscriber { Subscriber(draft, reviewer) }
    function Orchestrator(): Subscriber { Subscriber(final, orchestrator) }

    predicate Distinct() {
      && research != draft && draft != final && research != final
      && Writer().Key() != Reviewer().Key() && Reviewer().Key() != Orchestrator().Key()
      && Writer().Key() != Orchestrator().Key()
    }
  }

  const NAMES := Names("research-out", "writer-out", "final-out",
                       "research.complete", "draft.ready", "pipeline.done", "writer", "reviewer", "orchestrator")

  /** The topic, what the search found, and the deterministic functions of the agents. */
  datatype Job = Job(
    topic: string,
    found: seq<Source>,
    names: Names,
    slug: string -> string,
    fetch: string -> string,
    extract: (string, string, string) -> string,
    summary: seq<string> -> string,
    draft: (string, seq<string>, seq<Option<Value>>) -> string,
    critique: (string, string) -> string,
    finalize: (string, string, string) -> string)
  {
    /** At most five search results are used. */
    function Sources(): seq<Source> {
      if |found| <= 5 then found else found[..5]
    }

    function Urls(): seq<string> {
      seq(|Sources()|, i requires 0 <= i < |Sources()| => Sources()[i].url)
    }

    function FactKeys(): seq<string> {
      seq(|Sources()|, i requires 0 <= i < |Sources()| => FactKey(Sources()[i].url))
    }
  }

  function FactKey(url: string): string { "facts/" + url }
  function MetaKey(url: string): string { "sources/meta/" + url }
  function PagePath(job: Job, url: string): string { "sources/" + job.slug(url) + ".txt" }

  /** The part of a key after its first slash; a key without one is its own. */
  function AfterSlash(key: string): string {
    if '/' in key then Tail(key) else key
  }

  function Tail(key: string): string {
    if key == "" then "" else if key[0] == '/' then key[1..] else Tail(key[1..])
  }

  // ----- the workspace and the researcher's work -----

  datatype Store = Store(kv: map<string, Value>, files: map<string, string>)

  datatype Task =
    | PutTopic | PutIndex
    | WritePage(source: Source) | PutMeta(source: Source)
    | Extract(source: Source)
    | WriteFacts

  function Get(store: Store, key: string): Option<Value> {
    if key in store.kv then Some(store.kv[key]) else None
  }

  function Read(store: Store, path: string): string {
    if path in store.files then store.files[path] else ""
  }

  function Do(job: Job, store: Store, task: Task): Store {
    match task
    case PutTopic => store.(kv := store.kv["topic" := Text(job.topic)])
    case PutIndex =>
      store.(kv := store.kv["sources/index" := Urls(job.Urls())])
    case WritePage(s) => store.(files := store.files[PagePath(job, s.url) := job.fetch(s.url)])
    case PutMeta(s) => store.(kv := store.kv[MetaKey(s.url) := Meta(s.title, s.url, s.snippet)])
    case Extract(s) =>
      store.(kv := store.kv[FactKey(s.url) := Text(Response(job, store.files, s))])
    case WriteFacts =>
      store.(files := store.files["facts.json" := job.summary(Responses(job, store.files, |job.Sources()|))])
  }

  function Response(job: Job, files: map<string, string>, s: Source): string {
    var path := PagePath(job, s.url);
    job.extract(s.title, s.url, if path in files then files[path] else "")
  }

  function Responses(job: Job, files: map<string, string>, n: nat): seq<string>
    requires n <= |job.Sources()|
  {
    if n == 0 then [] else Responses(job, files, n - 1) + [Response(job, files, job.Sources()[n - 1])]
  }

  function FetchTasks(sources: seq<Source>): seq<Task> {
    if sources == [] then []
    else
      var last := sources[|sources| - 1];
      FetchTasks(sources[..|sources| - 1]) + [WritePage(last), PutMeta(last)]
  }

  function ExtractTasks(sources: seq<Source>): (tasks: seq<Task>)
    ensures |tasks| == |sources|
    ensures forall i :: 0 <= i < |sources| ==> tasks[i] == Extract(sources[i])
  {
    if sources == [] then [] else ExtractTasks(sources[..|sources| - 1]) + [Extract(sources[|sources| - 1])]
  }

  function Tasks(job: Job): seq<Task> {
    [PutTopic, PutIndex] + FetchTasks(job.Sources()) + ExtractTasks(job.Sources()) + [WriteFacts]
  }

  /** The store after the researcher's first `n` tasks, were it alone. */
  function Worked(job: Job, store: Store, n: nat): Store
    requires n <= |Tasks(job)|
  {
    if n == 0 then store else Do(job, Worked(job, store, n - 1), Tasks(job)[n - 1])
  }

  function Researched(job: Job, n: nat): Store
    requires n <= |Tasks(job)|
  {
    Worked(job, Store(map[], map[]), n)
  }

  function Findings(job: Job): Store {
    Researched(job, |Tasks(job)|)
  }

  // ----- what a clean pipeline produces -----

  /** What the writer reads: each fact and its source's metadata, in the order of the keys. */
  function Reads(store: Store, keys: seq<string>, n: nat): seq<Option<Value>>
    requires n <= 2 * |keys|
  {
    if n == 0 then [] else Reads(store, keys, n - 1) + [ReadAt(store, keys, n - 1)]
  }

  function ReadAt(store: Store, keys: seq<string>, i: nat): Option<Value>
    requires i < 2 * |keys|
  {
    var key := keys[i / 2];
    if i % 2 == 0 then Get(store, key) else Get(store, MetaKey(AfterSlash(key)))
  }

  function DraftText(job: Job): string {
    job.draft(job.topic, job.FactKeys(), Reads(Findings(job), job.FactKeys(), 2 * |job.FactKeys()|))
  }

  function CritiqueText(job: Job): string { job.critique(job.topic, DraftText(job)) }
  function FinalText(job: Job): string { job.finalize(job.topic, DraftText(job), CritiqueText(job)) }

  // ----- the threads -----

  // An ack is two moves: it rebuilds the list of messages from the one it finds, and assigns the rebuilt list.

  datatype Researcher = Working(done: nat) | Snapped(id: nat) | Finished

  datatype Writer =
    | Awaiting
    | Collecting(msg: Message, got: seq<Option<Value>>)
    | Drafted(msg: Message)
    | DraftSnapped(msg: Message, id: nat)
    | DraftSent(msg: Message)
    | WriterAcking(left: seq<Message>)
    | WriterDone
    | WriterTimedOut

  datatype Reviewer =
    | AwaitingDraft
    | GotDraft(msg: Message)
    | Reviewing(msg: Message, draft: string)
    | FinalWritten(msg: Message, draft: string)
    | CritiqueWritten(msg: Message, draft: string)
    | FinalSnapped(msg: Message, draft: string, id: nat)
    | FinalSent(msg: Message)
    | ReviewerAcking(left: seq<Message>)
    | ReviewerDone
    | ReviewerTimedOut

  /** Snapshot ids are positions in the list of snapshots. */
  datatype System = System(store: Store, snaps: seq<string>, bus: Bus, r: Researcher, w: Writer, v: Reviewer)

  datatype Event = ResearcherMoves | WriterMoves | ReviewerMoves | WriterGivesUp | ReviewerGivesUp

  function StepResearcher(job: Job, s: System): System {
    match s.r
    case Working(done) =>
      if done < |Tasks(job)| then s.(store := Do(job, s.store, Tasks(job)[done]), r := Working(done + 1))
      else s.(snaps := s.snaps + ["research-complete"], r := Snapped(|s.snaps|))
    case Snapped(id) =>
      s.(bus := Send(s.bus, job.names.research, Some(job.names.researchKind), Research(job.topic, id, job.FactKeys())),
         r := Finished)
    case Finished => s
  }

  function Topic(payload: Payload): string {
    if payload.Other? then "" else payload.topic
  }

  /** The first message of the requested kind in one poll. */
  function Found(out: seq<Message>, kind: string): Option<Message> {
    if out == [] then None else if Matches(out[0], Some(kind)) then Some(out[0]) else Found(out[1..], kind)
  }

  function StepWriter(job: Job, s: System): System {
    match s.w
    case Awaiting =>
      var poll := Poll(job.names.Writer());
      var msg := Found(Received(s.bus, poll), job.names.researchKind);
      s.(bus := Receive(s.bus, poll), w := if msg.Some? then Collecting(msg.value, []) else Awaiting)
    case Collecting(msg, got) =>
      if !msg.payload.Research? then s
      else
        var keys := msg.payload.factKeys;
        if |got| < 2 * |keys| then s.(w := Collecting(msg, got + [ReadAt(s.store, keys, |got|)]))
        else
          s.(store := s.store.(files := s.store.files["draft.md" := job.draft(Topic(msg.payload), keys, got)]),
             w := Drafted(msg))
    case Drafted(msg) => s.(snaps := s.snaps + ["draft-complete"], w := DraftSnapped(msg, |s.snaps|))
    case DraftSnapped(msg, id) =>
      s.(bus := Send(s.bus, job.names.draft, Some(job.names.draftKind), Draft(Topic(msg.payload), id, "draft.md")),
         w := DraftSent(msg))
    case DraftSent(msg) => s.(w := WriterAcking(Without(s.bus.messages, msg.id)))
    case WriterAcking(left) => s.(bus := s.bus.(messages := left), w := WriterDone)
    case _ => s
  }

  function StepReviewer(job: Job, s: System): System {
    match s.v
    case AwaitingDraft =>
      var poll := Poll(job.names.Reviewer());
      var msg := Found(Received(s.bus, poll), job.names.draftKind);
      s.(bus := Receive(s.bus, poll), v := if msg.Some? then GotDraft(msg.value) else AwaitingDraft)
    case GotDraft(msg) =>
      if !msg.payload.Draft? then s else s.(v := Reviewing(msg, Read(s.store, msg.payload.draftPath)))
    case Reviewing(msg, draft) =>
      var final := job.finalize(Topic(msg.payload), draft, job.critique(Topic(msg.payload), draft));
      s.(store := s.store.(files := s.store.files["final.md" := final]), v := FinalWritten(msg, draft))
    case FinalWritten(msg, draft) =>
      s.(store := s.store.(files := s.store.files["critique.md" := job.critique(Topic(msg.payload), draft)]),
         v := CritiqueWritten(msg, draft))
    case CritiqueWritten(msg, draft) =>
      s.(snaps := s.snaps + ["final-complete"], v := FinalSnapped(msg, draft, |s.snaps|))
    case FinalSnapped(msg, draft, id) =>
      s.(bus := Send(s.bus, job.names.final, Some(job.names.finalKind),
                     Final(Topic(msg.payload), id, "final.md", job.critique(Topic(msg.payload), draft))),
         v := FinalSent(msg))
    case FinalSent(msg) => s.(v := ReviewerAcking(Without(s.bus.messages, msg.id)))
    case ReviewerAcking(left) => s.(bus := s.bus.(messages := left), v := ReviewerDone)
    case _ => s
  }

  function Apply(job: Job, s: System, e: Event): System {
    match e
    case ResearcherMoves => StepResearcher(job, s)
    case WriterMoves => StepWriter(job, s)
    case ReviewerMoves => StepReviewer(job, s)
    case WriterGivesUp => if s.w == Awaiting then s.(w := WriterTimedOut) else s
    case ReviewerGivesUp => if s.v == AwaitingDraft then s.(v := ReviewerTimedOut) else s
  }

  const START := System(Store(map[], map[]), [], Channels.EMPTY, Working(0), Awaiting, AwaitingDraft)

  function Run(job: Job, schedule: seq<Event>): System {
    Fold((s: System, e: Event) => Apply(job, s, e), START, schedule)
  }
}
