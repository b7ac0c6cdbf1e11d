/** The three agents as written: each works on the shared workspace in sequence and hands over with a message, while the
    other two run on in between any two of its operations. */
module HandoffAgents {
  import opened Wrappers
  import opened Channels
  import opened ChannelBus
  import opened Handoff
  import opened HandoffProofs
  import opened HandoffContent

  class InProcessWorkspace {
    var kv: map<string, Value>
    var files: map<string, string>
    var snapshots: seq<string>
    const channels: SimChannels

    constructor ()
      ensures Contents() == Store(map[], map[]) && snapshots == []
      ensures fresh(channels) && channels.State() == Channels.EMPTY
    {
      kv, files, snapshots := map[], map[], [];
      channels := new SimChannels();
    }

    ghost function Contents(): Store
      reads this
    {
      Store(kv, files)
    }

    method Set(key: string, value: Value)
      modifies this`kv
      ensures kv == old(kv)[key := value]
    {
      kv := kv[key := value];
    }

    method Write(path: string, content: string)
      modifies this`files
      ensures files == old(files)[path := content]
    {
      files := files[path := content];
    }

    function GetOrNone(key: string): (r: Option<Value>)
      reads this
      ensures r == Get(Contents(), key)
    {
      if key in kv then Some(kv[key]) else None
    }

    function ReadText(path: string): (r: string)
      reads this
      ensures r == Read(Contents(), path)
    {
      if path in files then files[path] else ""
    }

    method Snapshot(name: string) returns (id: nat)
      modifies this`snapshots
      ensures id == |old(snapshots)| && snapshots == old(snapshots) + [name]
    {
      id := |snapshots|;
      snapshots := snapshots + [name];
    }
  }

  // ----- the other threads -----

  datatype Agent = TheResearcher | TheWriter | TheReviewer

  predicate MovedBy(e: Event, agent: Agent) {
    match e
    case ResearcherMoves => agent == TheResearcher
    case WriterMoves | WriterGivesUp => agent == TheWriter
    case ReviewerMoves | ReviewerGivesUp => agent == TheReviewer
  }

  /** What the other threads do in each gap between an agent's operations. */
  type Others = nat -> seq<Event>

  ghost predicate OthersOf(others: Others, agent: Agent) {
    forall k, i :: 0 <= i < |others(k)| ==> !MovedBy(others(k)[i], agent)
  }

  /** The files an agent reads back: what the other agents write lies elsewhere. */
  ghost predicate SamePages(job: Job, before: map<string, string>, after: map<string, string>) {
    forall url: string :: Page(job, before, url) == Page(job, after, url)
  }

  function Page(job: Job, files: map<string, string>, url: string): string {
    if PagePath(job, url) in files then files[PagePath(job, url)] else ""
  }

  lemma OthersKeepPages(job: Job, s: System, e: Event)
    requires !MovedBy(e, TheResearcher)
    ensures SamePages(job, s.store.files, Apply(job, s, e).store.files) && Apply(job, s, e).r == s.r
  {
    forall url: string ensures Page(job, s.store.files, url) == Page(job, Apply(job, s, e).store.files, url) {
      assert PagePath(job, url)[0] == 's' && "draft.md"[0] == 'd' && "final.md"[0] == 'f' && "critique.md"[0] == 'c';
    }
  }

  lemma {:induction false} SameResponses(job: Job, before: map<string, string>, after: map<string, string>, n: nat)
    requires SamePages(job, before, after) && n <= |job.Sources()|
    ensures Responses(job, before, n) == Responses(job, after, n)
  {
    if n > 0 {
      SameResponses(job, before, after, n - 1);
      var url := job.Sources()[n - 1].url;
      assert Page(job, before, url) == Page(job, after, url);
    }
  }

  lemma {:induction false} FoundIs(out: seq<Message>, kind: string, n: nat, found: Option<Message>)
    requires FirstMatch(out, Some(kind), n, found)
    ensures Found(out, kind) == found
  {
    if out != [] && n > 0 {
      assert !Matches(out[0], Some(kind));
      assert forall i :: 0 <= i < n - 1 ==> out[1..][i] == out[i + 1];
      FoundIs(out[1..], kind, n - 1, found);
    }
  }

  // ----- the researcher's tasks and keys -----

  /** The task that sets one key. */
  predicate Puts(job: Job, task: Task, key: string, value: Value) {
    match task
    case PutTopic => key == "topic" && value == Text(job.topic)
    case PutIndex => key == "sources/index" && value == Urls(job.Urls())
    case PutMeta(s) => key == MetaKey(s.url) && value == Meta(s.title, s.url, s.snippet)
    case _ => false
  }

  function KeysUpTo(sources: seq<Source>, n: nat): (keys: seq<string>)
    requires n <= |sources|
    ensures |keys| == n
  {
    if n == 0 then [] else KeysUpTo(sources, n - 1) + [FactKey(sources[n - 1].url)]
  }

  lemma {:induction false} KeysAre(job: Job, n: nat)
    requires n <= |job.Sources()|
    ensures KeysUpTo(job.Sources(), n) == job.FactKeys()[..n]
    ensures n == |job.Sources()| ==> KeysUpTo(job.Sources(), n) == job.FactKeys()
  {
    if n > 0 { KeysAre(job, n - 1); }
  }

  // ----- the pipeline -----

  /** The workspace and the three threads: how far each is, and what has happened so far. */
  class Pipeline {
    const job: Job
    const ws: InProcessWorkspace
    var r: Researcher
    var w: Writer
    var v: Reviewer
    var gaps: nat
    ghost var run: seq<Event>

    ghost function Now(): System
      reads this, ws, ws.channels
    {
      System(ws.Contents(), ws.snapshots, ws.channels.State(), r, w, v)
    }

    /** The shared state is where the interleaving so far leads. */
    ghost predicate Valid()
      reads this, ws, ws.channels
    {
      Now() == Run(job, run)
    }

    constructor (job: Job)
      ensures Valid() && this.job == job && fresh(ws) && fresh(ws.channels)
      ensures r == Working(0) && w == Awaiting && v == AwaitingDraft
    {
      this.job := job;
      ws := new InProcessWorkspace();
      r, w, v, gaps, run := Working(0), Awaiting, AwaitingDraft, 0, [];
    }

    lemma Longer(before: System, e: Event)
      requires before == Run(job, run)
      ensures Run(job, run + [e]) == Apply(job, before, e)
    {
      assert (run + [e])[..|run|] == run;
    }

    /** Another thread moves. */
    method Elsewhere(e: Event)
      requires Valid()
      modifies this, ws, ws.channels
      ensures Valid() && run == old(run) + [e] && gaps == old(gaps) && Now() == Apply(job, old(Now()), e)
    {
      Longer(Now(), e);
      var bus := Bus(ws.channels.messages, ws.channels.cursors, ws.channels.nextSeq, ws.channels.nextId);
      var next := Apply(job, System(Store(ws.kv, ws.files), ws.snapshots, bus, r, w, v), e);
      ws.kv, ws.files, ws.snapshots := next.store.kv, next.store.files, next.snaps;
      ws.channels.messages, ws.channels.cursors := next.bus.messages, next.bus.cursors;
      ws.channels.nextSeq, ws.channels.nextId := next.bus.nextSeq, next.bus.nextId;
      r, w, v, run := next.r, next.w, next.v, run + [e];
    }

    /** A gap between two operations of an agent. */
    method Gap(others: Others, me: Agent)
      requires Valid() && OthersOf(others, me)
      modifies this, ws, ws.channels
      ensures Valid() && old(run) <= run
      ensures me == TheResearcher ==> r == old(r) && SamePages(job, old(ws.files), ws.files)
      ensures me == TheWriter ==> w == old(w)
      ensures me == TheReviewer ==> v == old(v)
    {
      var events := others(gaps);
      for i := 0 to |events|
        invariant Valid() && old(run) <= run && gaps == old(gaps)
        invariant me == TheResearcher ==> r == old(r) && SamePages(job, old(ws.files), ws.files)
        invariant me == TheWriter ==> w == old(w)
        invariant me == TheReviewer ==> v == old(v)
      {
        if me == TheResearcher { OthersKeepPages(job, Now(), events[i]); }
        Elsewhere(events[i]);
      }
      gaps := gaps + 1;
    }

    // ----- the researcher -----

    /** The researcher's next task has just been carried out. */
    method TaskDone(ghost before: System)
      requires before == Run(job, run) && r == before.r && r.Working? && r.done < |Tasks(job)|
      requires Now() == before.(store := Do(job, before.store, Tasks(job)[r.done]))
      modifies this`r, this`run
      ensures Valid() && run == old(run) + [ResearcherMoves] && r == Working(old(r.done) + 1)
    {
      Longer(before, ResearcherMoves);
      r, run := Working(r.done + 1), run + [ResearcherMoves];
    }

    method PutTask(others: Others, key: string, value: Value)
      requires Valid() && OthersOf(others, TheResearcher) && r.Working? && r.done < |Tasks(job)|
      requires Puts(job, Tasks(job)[r.done], key, value)
      modifies this, ws, ws.channels
      ensures Valid() && old(run) <= run && r == Working(old(r.done) + 1)
      ensures SamePages(job, old(ws.files), ws.files)
    {
      Gap(others, TheResearcher);
      ghost var before := Now();
      ws.Set(key, value);
      TaskDone(before);
    }

    method FetchSources(others: Others)
      requires Valid() && OthersOf(others, TheResearcher) && r == Working(0)
      modifies this, ws, ws.channels
      ensures Valid() && old(run) <= run && r == Working(2 + 2 * |job.Sources()|)
    {
      StoreTopic(others);
      for i := 0 to |job.Sources()|
        invariant Valid() && old(run) <= run && r == Working(2 + 2 * i)
      {
        FetchOne(others, i);
      }
    }

    method StoreTopic(others: Others)
      requires Valid() && OthersOf(others, TheResearcher) && r == Working(0)
      modifies this, ws, ws.channels
      ensures Valid() && old(run) <= run && r == Working(2)
    {
      TaskCount(job);
      PutTask(others, "topic", Text(job.topic));
      PutTask(others, "sources/index", Urls(job.Urls()));
    }

    method FetchOne(others: Others, i: nat)
      requires Valid() && OthersOf(others, TheResearcher) && i < |job.Sources()| && r == Working(2 + 2 * i)
      modifies this, ws, ws.channels
      ensures Valid() && old(run) <= run && r == Working(4 + 2 * i)
    {
      TaskAt(job, i);
      var source := job.Sources()[i];
      StorePage(others, source);
      PutTask(others, MetaKey(source.url), Meta(source.title, source.url, source.snippet));
    }

    method StorePage(others: Others, source: Source)
      requires Valid() && OthersOf(others, TheResearcher) && r.Working? && r.done < |Tasks(job)|
      requires Tasks(job)[r.done] == WritePage(source)
      modifies this, ws, ws.channels
      ensures Valid() && old(run) <= run && r == Working(old(r.done) + 1)
    {
      Gap(others, TheResearcher);
      ghost var before := Now();
      ws.Write(PagePath(job, source.url), job.fetch(source.url));
      TaskDone(before);
    }

    method ReadPage(others: Others, source: Source) returns (text: string)
      requires Valid() && OthersOf(others, TheResearcher)
      modifies this, ws, ws.channels
      ensures Valid() && old(run) <= run && r == old(r)
      ensures SamePages(job, old(ws.files), ws.files) && text == Page(job, ws.files, source.url)
    {
      Gap(others, TheResearcher);
      text := ws.ReadText(PagePath(job, source.url));
    }

    method StoreFact(others: Others, source: Source, text: string) returns (response: string)
      requires Valid() && OthersOf(others, TheResearcher) && r.Working? && r.done < |Tasks(job)|
      requires Tasks(job)[r.done] == Extract(source) && text == Page(job, ws.files, source.url)
      modifies this, ws, ws.channels
      ensures Valid() && old(run) <= run && r == Working(old(r.done) + 1)
      ensures SamePages(job, old(ws.files), ws.files) && response == Response(job, ws.files, source)
    {
      response := job.extract(source.title, source.url, text);
      ghost var read := ws.files;
      Gap(others, TheResearcher);
      assert Page(job, read, source.url) == Page(job, ws.files, source.url);
      ghost var before := Now();
      ws.Set(FactKey(source.url), Text(response));
      TaskDone(before);
    }

    method ExtractOne(others: Others, i: nat) returns (response: string)
      requires Valid() && OthersOf(others, TheResearcher) && i < |job.Sources()|
      requires r == Working(2 + 2 * |job.Sources()| + i)
      modifies this, ws, ws.channels
      ensures Valid() && old(run) <= run && r == Working(3 + 2 * |job.Sources()| + i)
      ensures SamePages(job, old(ws.files), ws.files) && response == Response(job, ws.files, job.Sources()[i])
    {
      TaskAt(job, i);
      var text := ReadPage(others, job.Sources()[i]);
      response := StoreFact(others, job.Sources()[i], text);
    }

    method ExtractFacts(others: Others) returns (keys: seq<string>, summary: seq<string>)
      requires Valid() && OthersOf(others, TheResearcher) && r == Working(2 + 2 * |job.Sources()|)
      modifies this, ws, ws.channels
      ensures Valid() && old(run) <= run && r == Working(2 + 3 * |job.Sources()|)
      ensures keys == job.FactKeys() && summary == Responses(job, ws.files, |job.Sources()|)
    {
      keys, summary := [], [];
      for i := 0 to |job.Sources()|
        invariant Valid() && old(run) <= run && r == Working(2 + 2 * |job.Sources()| + i)
        invariant keys == KeysUpTo(job.Sources(), i) && summary == Responses(job, ws.files, i)
      {
        keys, summary := ExtractNext(others, i, keys, summary);
      }
      KeysAre(job, |job.Sources()|);
    }

    method ExtractNext(others: Others, i: nat, keys: seq<string>, summary: seq<string>)
      returns (keys': seq<string>, summary': seq<string>)
      requires Valid() && OthersOf(others, TheResearcher) && i < |job.Sources()|
      requires r == Working(2 + 2 * |job.Sources()| + i)
      requires keys == KeysUpTo(job.Sources(), i) && summary == Responses(job, ws.files, i)
      modifies this, ws, ws.channels
      ensures Valid() && old(run) <= run && r == Working(3 + 2 * |job.Sources()| + i)
      ensures keys' == KeysUpTo(job.Sources(), i + 1) && summary' == Responses(job, ws.files, i + 1)
    {
      ghost var files := ws.files;
      var response := ExtractOne(others, i);
      SameResponses(job, files, ws.files, i);
      keys' := keys + [FactKey(job.Sources()[i].url)];
      summary' := summary + [response];
    }

    /** Fetches every source, extracts the facts of each, then hands over: whatever the others do meanwhile, all its
        findings are in the workspace. */
    method RunResearcher(others: Others)
      requires Valid() && r == Working(0) && OthersOf(others, TheResearcher)
      modifies this, ws, ws.channels
      ensures Valid() && old(run) <= run && r == Finished
      ensures job.names.Distinct() ==> ws.kv == Findings(job).kv && FindingsStored(job, ws.Contents())
    {
      FetchSources(others);
      var keys, summary := ExtractFacts(others);
      WriteSummary(others, summary);
      HandOverResearch(others, keys);
      if job.names.Distinct() { ResearcherResult(job, run); }
    }

    method WriteSummary(others: Others, summary: seq<string>)
      requires Valid() && OthersOf(others, TheResearcher) && r == Working(2 + 3 * |job.Sources()|)
      requires summary == Responses(job, ws.files, |job.Sources()|)
      modifies this, ws, ws.channels
      ensures Valid() && old(run) <= run && r == Working(|Tasks(job)|)
    {
      TaskCount(job);
      ghost var files := ws.files;
      Gap(others, TheResearcher);
      SameResponses(job, files, ws.files, |job.Sources()|);
      ghost var before := Now();
      ws.Write("facts.json", job.summary(summary));
      TaskDone(before);
    }

    method HandOverResearch(others: Others, keys: seq<string>)
      requires Valid() && OthersOf(others, TheResearcher) && r == Working(|Tasks(job)|) && keys == job.FactKeys()
      modifies this, ws, ws.channels
      ensures Valid() && old(run) <= run && r == Finished
    {
      Gap(others, TheResearcher);
      Longer(Now(), ResearcherMoves);
      var id := ws.Snapshot("research-complete");
      r, run := Snapped(id), run + [ResearcherMoves];
      Gap(others, TheResearcher);
      Longer(Now(), ResearcherMoves);
      var _ := ws.channels.Send(job.names.research, Some(job.names.researchKind), Research(job.topic, id, keys));
      r, run := Finished, run + [ResearcherMoves];
    }

    // ----- the writer -----

    /** Polls for the research until it comes or the time is up. */
    method AwaitResearch(others: Others, polls: nat) returns (found: Option<Message>)
      requires Valid() && OthersOf(others, TheWriter) && w == Awaiting
      modifies this, ws, ws.channels
      ensures Valid() && old(run) <= run
      ensures w == if found.Some? then Collecting(found.value, []) else WriterTimedOut
    {
      var left := polls;
      while true
        invariant Valid() && old(run) <= run && w == Awaiting
        decreases left
      {
        Gap(others, TheWriter);
        found := PollResearch();
        if found.Some? { return; }
        if left == 0 {
          Longer(Now(), WriterGivesUp);
          w, run := WriterTimedOut, run + [WriterGivesUp];
          return;
        }
        left := left - 1;
      }
    }

    method PollResearch() returns (found: Option<Message>)
      requires Valid() && w == Awaiting
      modifies this`w, this`run, ws.channels`cursors
      ensures Valid() && run == old(run) + [WriterMoves]
      ensures w == if found.Some? then Collecting(found.value, []) else Awaiting
    {
      Longer(Now(), WriterMoves);
      ghost var bus, n := ws.channels.State(), 0;
      found, n := PollOnce(ws.channels, job.names.Writer(), Some(job.names.researchKind));
      FoundIs(Received(bus, Poll(job.names.Writer())), job.names.researchKind, n, found);
      w, run := if found.Some? then Collecting(found.value, []) else Awaiting, run + [WriterMoves];
    }

    /** Reads one value; the key is the fact's own, or that of its source's metadata. */
    method ReadNext(others: Others, msg: Message, got: seq<Option<Value>>, ghost i: nat, key: string)
      returns (all: seq<Option<Value>>)
      requires Valid() && OthersOf(others, TheWriter) && w == Collecting(msg, got) && msg.payload.Research?
      requires i < |msg.payload.factKeys|
      requires || (|got| == 2 * i && key == msg.payload.factKeys[i])
               || (|got| == 2 * i + 1 && key == MetaKey(AfterSlash(msg.payload.factKeys[i])))
      modifies this, ws, ws.channels
      ensures Valid() && old(run) <= run && w == Collecting(msg, all)
      ensures all == got + [if key in ws.kv then Some(ws.kv[key]) else None]
    {
      Gap(others, TheWriter);
      Longer(Now(), WriterMoves);
      all := got + [ws.GetOrNone(key)];
      w, run := Collecting(msg, all), run + [WriterMoves];
    }

    method CollectFacts(others: Others, msg: Message) returns (got: seq<Option<Value>>)
      requires Valid() && OthersOf(others, TheWriter) && w == Collecting(msg, []) && msg.payload.Research?
      modifies this, ws, ws.channels
      ensures Valid() && old(run) <= run && w == Collecting(msg, got) && |got| == 2 * |msg.payload.factKeys|
    {
      got := [];
      for i := 0 to |msg.payload.factKeys|
        invariant Valid() && old(run) <= run && w == Collecting(msg, got) && |got| == 2 * i
      {
        got := ReadFact(others, msg, got, i);
      }
    }

    method ReadFact(others: Others, msg: Message, got: seq<Option<Value>>, i: nat) returns (all: seq<Option<Value>>)
      requires Valid() && OthersOf(others, TheWriter) && w == Collecting(msg, got) && msg.payload.Research?
      requires i < |msg.payload.factKeys| && |got| == 2 * i
      modifies this, ws, ws.channels
      ensures Valid() && old(run) <= run && w == Collecting(msg, all) && |all| == 2 * i + 2
    {
      var key := msg.payload.factKeys[i];
      all := ReadNext(others, msg, got, i, key);
      all := ReadNext(others, msg, all, i, MetaKey(AfterSlash(key)));
    }

    /** Waits for the research, reads the facts by key, drafts, hands over, and acks.  False is the original's error:
        nothing arrived in time, or the message carries no research.  Whatever the others do meanwhile, the draft is the
        one made of all findings. */
    method RunWriter(others: Others, polls: nat) returns (ok: bool)
      requires Valid() && w == Awaiting && OthersOf(others, TheWriter)
      modifies this, ws, ws.channels
      ensures Valid() && old(run) <= run
      ensures ok <==> w == WriterDone
      ensures !ok && job.names.Distinct() ==> w == WriterTimedOut
      ensures ok && job.names.Distinct() ==>
                && Read(ws.Contents(), "draft.md") == DraftText(job)
                && DraftOf(job, ws.kv, Read(ws.Contents(), "draft.md"))
    {
      var found := AwaitResearch(others, polls);
      if found == None { return false; }
      if !found.value.payload.Research? {
        if job.names.Distinct() { WriterMessage(job, run); }
        return false;
      }
      var got := CollectFacts(others, found.value);
      HandOverDraft(others, found.value, got);
      if job.names.Distinct() { WriterResult(job, run); }
      ok := true;
    }

    method HandOverDraft(others: Others, msg: Message, got: seq<Option<Value>>)
      requires Valid() && OthersOf(others, TheWriter) && w == Collecting(msg, got) && msg.payload.Research?
      requires |got| == 2 * |msg.payload.factKeys|
      modifies this, ws, ws.channels
      ensures Valid() && old(run) <= run && w == WriterDone
    {
      Gap(others, TheWriter);
      Longer(Now(), WriterMoves);
      ws.Write("draft.md", job.draft(Topic(msg.payload), msg.payload.factKeys, got));
      w, run := Drafted(msg), run + [WriterMoves];
      Gap(others, TheWriter);
      Longer(Now(), WriterMoves);
      var id := ws.Snapshot("draft-complete");
      w, run := DraftSnapped(msg, id), run + [WriterMoves];
      SendDraft(others, msg, id);
    }

    method SendDraft(others: Others, msg: Message, id: nat)
      requires Valid() && OthersOf(others, TheWriter) && w == DraftSnapped(msg, id)
      modifies this, ws, ws.channels
      ensures Valid() && old(run) <= run && w == WriterDone
    {
      Gap(others, TheWriter);
      Longer(Now(), WriterMoves);
      var _ := ws.channels.Send(job.names.draft, Some(job.names.draftKind), Draft(Topic(msg.payload), id, "draft.md"));
      w, run := DraftSent(msg), run + [WriterMoves];
      Gap(others, TheWriter);
      Longer(Now(), WriterMoves);
      var left := ws.channels.Remaining(msg.id);
      w, run := WriterAcking(left), run + [WriterMoves];
      AssignAsWriter(others, left);
    }

    method AssignAsWriter(others: Others, left: seq<Message>)
      requires Valid() && OthersOf(others, TheWriter) && w == WriterAcking(left)
      modifies this, ws, ws.channels
      ensures Valid() && old(run) <= run && w == WriterDone
    {
      Gap(others, TheWriter);
      Longer(Now(), WriterMoves);
      ws.channels.messages := left;
      w, run := WriterDone, run + [WriterMoves];
    }

    // ----- the reviewer -----

    method AwaitDraft(others: Others, polls: nat) returns (found: Option<Message>)
      requires Valid() && OthersOf(others, TheReviewer) && v == AwaitingDraft
      modifies this, ws, ws.channels
      ensures Valid() && old(run) <= run
      ensures v == if found.Some? then GotDraft(found.value) else ReviewerTimedOut
    {
      var left := polls;
      while true
        invariant Valid() && old(run) <= run && v == AwaitingDraft
        decreases left
      {
        Gap(others, TheReviewer);
        found := PollDraft();
        if found.Some? { return; }
        if left == 0 {
          Longer(Now(), ReviewerGivesUp);
          v, run := ReviewerTimedOut, run + [ReviewerGivesUp];
          return;
        }
        left := left - 1;
      }
    }

    method PollDraft() returns (found: Option<Message>)
      requires Valid() && v == AwaitingDraft
      modifies this`v, this`run, ws.channels`cursors
      ensures Valid() && run == old(run) + [ReviewerMoves]
      ensures v == if found.Some? then GotDraft(found.value) else AwaitingDraft
    {
      Longer(Now(), ReviewerMoves);
      ghost var bus, n := ws.channels.State(), 0;
      found, n := PollOnce(ws.channels, job.names.Reviewer(), Some(job.names.draftKind));
      FoundIs(Received(bus, Poll(job.names.Reviewer())), job.names.draftKind, n, found);
      v, run := if found.Some? then GotDraft(found.value) else AwaitingDraft, run + [ReviewerMoves];
    }

    /** Waits for the draft, reads it, writes the final report and the critique, hands over, and acks. */
    method RunReviewer(others: Others, polls: nat) returns (ok: bool)
      requires Valid() && v == AwaitingDraft && OthersOf(others, TheReviewer)
      modifies this, ws, ws.channels
      ensures Valid() && old(run) <= run
      ensures ok <==> v == ReviewerDone
      ensures !ok && job.names.Distinct() ==> v == ReviewerTimedOut
      ensures ok && job.names.Distinct() ==>
                && Read(ws.Contents(), "final.md") == FinalText(job)
                && Read(ws.Contents(), "critique.md") == CritiqueText(job)
                && FinalOf(job, Read(ws.Contents(), "draft.md"), Read(ws.Contents(), "final.md"))
    {
      var found := AwaitDraft(others, polls);
      if found == None { return false; }
      if !found.value.payload.Draft? {
        if job.names.Distinct() { ReviewerMessage(job, run); }
        return false;
      }
      Review(others, found.value);
      if job.names.Distinct() { ReviewerResult(job, run); }
      ok := true;
    }

    method Review(others: Others, msg: Message)
      requires Valid() && OthersOf(others, TheReviewer) && v == GotDraft(msg) && msg.payload.Draft?
      modifies this, ws, ws.channels
      ensures Valid() && old(run) <= run && v == ReviewerDone
    {
      Gap(others, TheReviewer);
      Longer(Now(), ReviewerMoves);
      var topic, draft := Topic(msg.payload), ws.ReadText(msg.payload.draftPath);
      v, run := Reviewing(msg, draft), run + [ReviewerMoves];
      var critique := job.critique(topic, draft);
      WriteFinal(others, msg, draft, critique);
      HandOverFinal(others, msg, draft, critique);
    }

    method WriteFinal(others: Others, msg: Message, draft: string, critique: string)
      requires Valid() && OthersOf(others, TheReviewer) && v == Reviewing(msg, draft)
      requires critique == job.critique(Topic(msg.payload), draft)
      modifies this, ws, ws.channels
      ensures Valid() && old(run) <= run && v == CritiqueWritten(msg, draft)
    {
      Gap(others, TheReviewer);
      Longer(Now(), ReviewerMoves);
      ws.Write("final.md", job.finalize(Topic(msg.payload), draft, critique));
      v, run := FinalWritten(msg, draft), run + [ReviewerMoves];
      Gap(others, TheReviewer);
      Longer(Now(), ReviewerMoves);
      ws.Write("critique.md", critique);
      v, run := CritiqueWritten(msg, draft), run + [ReviewerMoves];
    }

    method HandOverFinal(others: Others, msg: Message, draft: string, critique: string)
      requires Valid() && OthersOf(others, TheReviewer) && v == CritiqueWritten(msg, draft)
      requires critique == job.critique(Topic(msg.payload), draft)
      modifies this, ws, ws.channels
      ensures Valid() && old(run) <= run && v == ReviewerDone
    {
      Gap(others, TheReviewer);
      Longer(Now(), ReviewerMoves);
      var id := ws.Snapshot("final-complete");
      v, run := FinalSnapped(msg, draft, id), run + [ReviewerMoves];
      SendFinal(others, msg, draft, critique, id);
    }

    method SendFinal(others: Others, msg: Message, draft: string, critique: string, id: nat)
      requires Valid() && OthersOf(others, TheReviewer) && v == FinalSnapped(msg, draft, id)
      requires critique == job.critique(Topic(msg.payload), draft)
      modifies this, ws, ws.channels
      ensures Valid() && old(run) <= run && v == ReviewerDone
    {
      Gap(others, TheReviewer);
      Longer(Now(), ReviewerMoves);
      var _ := ws.channels.Send(job.names.final, Some(job.names.finalKind),
                                Final(Topic(msg.payload), id, "final.md", critique));
      v, run := FinalSent(msg), run + [ReviewerMoves];
      AckDraft(others, msg);
    }

    method AckDraft(others: Others, msg: Message)
      requires Valid() && OthersOf(others, TheReviewer) && v == FinalSent(msg)
      modifies this, ws, ws.channels
      ensures Valid() && old(run) <= run && v == ReviewerDone
    {
      Gap(others, TheReviewer);
      Longer(Now(), ReviewerMoves);
      var left := ws.channels.Remaining(msg.id);
      v, run := ReviewerAcking(left), run + [ReviewerMoves];
      Gap(others, TheReviewer);
      Longer(Now(), ReviewerMoves);
      ws.channels.messages := left;
      v, run := ReviewerDone, run + [ReviewerMoves];
    }
  }

  /** On every interleaving the writer's message carries the research. */
  lemma WriterMessage(job: Job, run: seq<Event>)
    requires job.names.Distinct()
    ensures var s := Run(job, run); s.w.Collecting? ==> s.w.msg == TheResearch(job)
  {
    Reachable(job, run);
  }

  /** ... and the reviewer's the draft. */
  lemma ReviewerMessage(job: Job, run: seq<Event>)
    requires job.names.Distinct()
    ensures var s := Run(job, run); s.v.GotDraft? ==> s.v.msg == TheDraft(job)
  {
    Reachable(job, run);
  }

  /** What the workspace holds once an agent is done, on every interleaving. */
  lemma ResearcherResult(job: Job, run: seq<Event>)
    requires job.names.Distinct() && Run(job, run).r == Finished
    ensures Run(job, run).store.kv == Findings(job).kv && FindingsStored(job, Run(job, run).store)
  {
    Reachable(job, run);
    FindingsInPlace(job, run);
  }

  lemma WriterResult(job: Job, run: seq<Event>)
    requires job.names.Distinct() && Run(job, run).w == WriterDone
    ensures Read(Run(job, run).store, "draft.md") == DraftText(job)
    ensures DraftOf(job, Run(job, run).store.kv, Read(Run(job, run).store, "draft.md"))
  {
    Reachable(job, run);
    TextsAreMade(job, run);
    LaterTexts(job, 6, ReviewerRank(Run(job, run).v));
  }

  lemma ReviewerResult(job: Job, run: seq<Event>)
    requires job.names.Distinct() && Run(job, run).v == ReviewerDone
    ensures Read(Run(job, run).store, "final.md") == FinalText(job)
    ensures Read(Run(job, run).store, "critique.md") == CritiqueText(job)
    ensures FinalOf(job, Read(Run(job, run).store, "draft.md"), Read(Run(job, run).store, "final.md"))
  {
    Reachable(job, run);
    TextsAreMade(job, run);
    LaterTexts(job, WriterRank(Run(job, run).w), 8);
  }
}
