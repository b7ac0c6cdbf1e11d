/** The agent: six steps that read and write the workspace, and the loop that walks the manifest. */
module ResumeAgent {
  import opened ResumeModel
  import opened ResumeLog
  import opened ResumeState
  import opened ResumeStore

  /** What both state files hold. */
  ghost function View(ws: WorkspaceStore, wf: SimulatedWorkflow): World
    reads ws, wf, ws.host
  {
    World(ws.kv, ws.files, ws.snapshots, wf.steps, wf.status, ws.host.nextId)
  }

  datatype Outcome = Done | Died | Threw

  // ----- following a plan, one durable write at a time -----

  /** Where a step started, how long the machine will last, and what it is meant to write.  Nothing is
      claimed unless it started from a disk where the step can be (re)done. */
  datatype Track = Track(good: bool, w0: World, b0: nat, all: seq<Op>)

  /** `done` has been written so far. */
  ghost predicate Follows(t: Track, w: World, b: nat, done: seq<Op>) {
    t.good ==> done <= t.all && Ran(t.w0, w, t.b0, b, done, false)
  }

  ghost predicate DiedIn(t: Track, w: World, b: nat) {
    t.good ==> Ran(t.w0, w, t.b0, b, t.all, true)
  }

  lemma OneMore(t: Track, w: World, w': World, b: nat, done: seq<Op>, op: Op, alive: bool)
    requires Follows(t, w, b, done) && (t.good ==> done + [op] <= t.all)
    requires alive ==> b > 0 && w' == Apply(w, op)
    requires !alive ==> b == 0 && w' == w
    ensures alive ==> Follows(t, w', b - 1, done + [op])
    ensures !alive ==> DiedIn(t, w', 0)
  {
    if t.good {
      if alive {
        RanOne(w, w', b, b - 1, op);
        RanThen(t.w0, w, w', t.b0, b, b - 1, done, [op], false);
      } else {
        assert [op][..0] == [];
        assert Ran(w, w, 0, 0, [op], true);
        RanThen(t.w0, w, w, t.b0, 0, 0, done, [op], true);
        RanDied(t.w0, w, t.b0, done + [op], t.all);
      }
    }
  }

  method Put(ws: WorkspaceStore, ghost wf: SimulatedWorkflow, key: Key, value: Value, ghost t: Track,
             ghost done: seq<Op>)
    returns (alive: bool)
    requires Follows(t, View(ws, wf), ws.host.budget, done)
    requires t.good ==> done + [Op.Put(key, value)] <= t.all
    modifies ws`kv, ws.host`budget
    ensures alive ==> Follows(t, View(ws, wf), ws.host.budget, done + [Op.Put(key, value)])
    ensures !alive ==> DiedIn(t, View(ws, wf), ws.host.budget)
  {
    alive := ws.KvSet(key, value);
    OneMore(t, old(View(ws, wf)), View(ws, wf), old(ws.host.budget), done, Op.Put(key, value), alive);
  }

  method WriteFile(ws: WorkspaceStore, ghost wf: SimulatedWorkflow, path: Path, content: string,
                   ghost t: Track, ghost done: seq<Op>)
    returns (alive: bool)
    requires Follows(t, View(ws, wf), ws.host.budget, done)
    requires t.good ==> done + [Op.Write(path, content)] <= t.all
    modifies ws`files, ws.host`budget
    ensures alive ==> Follows(t, View(ws, wf), ws.host.budget, done + [Op.Write(path, content)])
    ensures !alive ==> DiedIn(t, View(ws, wf), ws.host.budget)
  {
    alive := ws.FilesWrite(path, content);
    OneMore(t, old(View(ws, wf)), View(ws, wf), old(ws.host.budget), done, Op.Write(path, content), alive);
  }

  // ----- the contract of a step -----

  /** The track is the plan of step `c`, and whatever part of it has been written, the step reads the
      canonical values. */
  ghost predicate Planned(env: Env, c: nat, t: Track) {
    && t.all == StepOps(env, c)
    && forall w: World, b: nat, done: seq<Op> {:trigger Midway(t, w, b, done)} ::
         t.good && Midway(t, w, b, done) ==> Readable(env, c, w.kv, w.files)
  }

  /** A point of the plan where the step reads. */
  ghost predicate Midway(t: Track, w: World, b: nat, done: seq<Op>) {
    Follows(t, w, b, done)
  }

  /** The step did not throw and wrote exactly its plan, or the machine died somewhere in it. */
  ghost predicate StepRan(t: Track, w: World, b: nat, outcome: Outcome) {
    t.good ==> outcome != Threw && Ran(t.w0, w, t.b0, b, t.all, outcome == Died)
  }

  ghost predicate Begins(env: Env, c: nat, t: Track, w: World, b: nat) {
    Planned(env, c, t) && t.w0 == w && t.b0 == b
  }

  lemma Started(t: Track)
    ensures Follows(t, t.w0, t.b0, [])
  {
  }

  // ----- accounting -----

  function Calls(env: Env, prompts: seq<Prompt>): (calls: seq<LlmCall>)
    ensures |calls| == |prompts|
  {
    if prompts == [] then []
    else
      var p := prompts[|prompts| - 1];
      Calls(env, prompts[..|prompts| - 1]) + [LlmCall(env.promptTokens(p), env.responseTokens(env.llm(p)))]
  }

  lemma {:induction false} CallsAt(env: Env, prompts: seq<Prompt>, k: nat)
    requires k < |prompts|
    ensures Calls(env, prompts)[k]
            == LlmCall(env.promptTokens(prompts[k]), env.responseTokens(env.llm(prompts[k])))
    decreases |prompts|
  {
    if k < |prompts| - 1 { CallsAt(env, prompts[..|prompts| - 1], k); }
  }

  method LlmAnswer(env: Env, prompt: Prompt, record: RunRecord) returns (answer: string)
    modifies record`llmCalls
    ensures answer == env.llm(prompt)
    ensures record.llmCalls == old(record.llmCalls) + Calls(env, [prompt])
  {
    answer := env.llm(prompt);
    assert [prompt][..0] == [];
    assert Calls(env, [prompt]) == Calls(env, []) + [LlmCall(env.promptTokens(prompt), env.responseTokens(answer))];
    record.llmCalls := record.llmCalls + [LlmCall(env.promptTokens(prompt), env.responseTokens(answer))];
  }

  // ----- the six steps -----

  method StepDiscover(env: Env, ws: WorkspaceStore, ghost wf: SimulatedWorkflow, record: RunRecord, ghost t: Track)
    returns (o: Outcome)
    requires Begins(env, 0, t, View(ws, wf), ws.host.budget)
    modifies ws`kv, ws`files, ws.host`budget, record`llmCalls
    ensures StepRan(t, View(ws, wf), ws.host.budget, o)
    ensures o == Done ==> record.llmCalls == old(record.llmCalls) + Calls(env, StepPrompts(env, 0))
  {
    var _ := LlmAnswer(env, DiscoverPrompt(env.topic), record);
    Started(t);
    IndexStart(env);
    var alive := Put(ws, wf, TopicKey, Text(env.topic), t, []);
    if !alive { return Died; }
    alive := Put(ws, wf, SourcesKey, UrlList(env.Urls()), t, [Op.Put(TopicKey, Text(env.topic))]);
    if !alive { return Died; }
    for i := 0 to |env.sources|
      modifies ws`kv, ws.host`budget
      invariant Follows(t, View(ws, wf), ws.host.budget, IndexOps(env, i))
    {
      IndexPrefix(env, i + 1);
      alive := Put(ws, wf, MetaKey(env.sources[i].url), Meta(env.sources[i].title, env.sources[i].snippet, false),
                   t, IndexOps(env, i));
      if !alive { return Died; }
    }
    return Done;
  }

  lemma IndexStart(env: Env)
    ensures [] + [Op.Put(TopicKey, Text(env.topic))] == [Op.Put(TopicKey, Text(env.topic))] <= StepOps(env, 0)
    ensures [Op.Put(TopicKey, Text(env.topic))] + [Op.Put(SourcesKey, UrlList(env.Urls()))] == IndexOps(env, 0)
    ensures IndexOps(env, 0) <= StepOps(env, 0)
  {
    IndexPrefix(env, 0);
    assert [Op.Put(TopicKey, Text(env.topic))] <= IndexOps(env, 0);
  }

  lemma {:induction false} IndexPrefix(env: Env, i: nat)
    requires i <= |env.sources|
    ensures IndexOps(env, i) <= IndexOps(env, |env.sources|)
    decreases |env.sources| - i
  {
    if i < |env.sources| { IndexPrefix(env, i + 1); }
  }

  lemma {:induction false} FetchPrefix(env: Env, i: nat)
    requires i <= |env.sources|
    ensures FetchOps(env, i) <= FetchOps(env, |env.sources|)
    decreases |env.sources| - i
  {
    if i < |env.sources| { FetchPrefix(env, i + 1); }
  }

  lemma {:induction false} ExtractPrefix(env: Env, i: nat)
    requires i <= |env.sources|
    ensures ExtractOps(env, i) <= ExtractOps(env, |env.sources|)
    decreases |env.sources| - i
  {
    if i < |env.sources| { ExtractPrefix(env, i + 1); }
  }

  predicate LastWith(sources: seq<Source>, n: nat, url: string, i: int) {
    0 <= i < n <= |sources| && sources[i].url == url && forall j :: i < j < n ==> sources[j].url != url
  }

  /** The content of the fixture source with this url (a later duplicate would win), or a placeholder. */
  method ContentOf(sources: seq<Source>, url: string) returns (content: string)
    ensures (forall i :: 0 <= i < |sources| ==> sources[i].url != url) ==> content == "[mock] no content for " + url
    ensures forall i :: LastWith(sources, |sources|, url, i) ==> content == sources[i].content
  {
    content := "[mock] no content for " + url;
    for i := 0 to |sources|
      invariant (forall k :: 0 <= k < i ==> sources[k].url != url) ==> content == "[mock] no content for " + url
      invariant forall k :: LastWith(sources, i, url, k) ==> content == sources[k].content
    {
      if sources[i].url == url { content := sources[i].content; }
      forall k | LastWith(sources, i + 1, url, k) ensures content == sources[k].content {
        assert k == i || LastWith(sources, i, url, k);
      }
    }
  }

  method StepFetch(env: Env, ws: WorkspaceStore, ghost wf: SimulatedWorkflow, ghost t: Track) returns (o: Outcome)
    requires env.Valid() && Begins(env, 1, t, View(ws, wf), ws.host.budget)
    modifies ws`kv, ws`files, ws.host`budget
    ensures StepRan(t, View(ws, wf), ws.host.budget, o)
  {
    Started(t);
    assert Midway(t, View(ws, wf), ws.host.budget, []);
    var listed := ws.KvGet(SourcesKey);
    if !listed.Ok? || !listed.value.UrlList? { return Threw; }
    var urls := listed.value.urls;
    ghost var done: seq<Op> := [];
    for i := 0 to |urls|
      invariant t.good ==> urls == env.Urls() && done == FetchOps(env, i)
      invariant Follows(t, View(ws, wf), ws.host.budget, done)
    {
      o := FetchOne(env, ws, wf, urls[i], t, done, i);
      if o != Done { return o; }
      if t.good {
        done := FetchOps(env, i + 1);
      } else {
        done := [];
      }
    }
    return Done;
  }

  method FetchOne(env: Env, ws: WorkspaceStore, ghost wf: SimulatedWorkflow, url: string,
                  ghost t: Track, ghost done: seq<Op>, ghost i: nat)
    returns (o: Outcome)
    requires env.Valid() && Planned(env, 1, t) && Follows(t, View(ws, wf), ws.host.budget, done)
    requires t.good ==> i < |env.sources| && url == env.sources[i].url && done == FetchOps(env, i)
    modifies ws`kv, ws`files, ws.host`budget
    ensures o == Done && t.good ==> Follows(t, View(ws, wf), ws.host.budget, FetchOps(env, i + 1))
    ensures o == Died ==> DiedIn(t, View(ws, wf), ws.host.budget)
    ensures o == Threw ==> !t.good
  {
    var content := ContentOf(env.sources, url);
    if t.good {
      HalfFetch(env, i);
      assert LastWith(env.sources, |env.sources|, url, i);
    }
    var alive := WriteFile(ws, wf, env.Path(url), content, t, done);
    if !alive { return Died; }
    var meta := ws.KvGet(MetaKey(url));
    if t.good {
      assert Midway(t, View(ws, wf), ws.host.budget, done + [Op.Write(env.Path(url), content)]);
      ReadMeta(env, ws.kv, i);
    }
    if !meta.Ok? || !meta.value.Meta? { return Threw; }
    alive := Put(ws, wf, MetaKey(url), meta.value.(fetched := true), t, done + [Op.Write(env.Path(url), content)]);
    return if alive then Done else Died;
  }

  lemma ReadMeta(env: Env, kv: map<Key, Value>, i: nat)
    requires i < |env.sources| && MetaReadable(env.sources, kv)
    ensures var key := MetaKey(env.sources[i].url);
            key in kv && kv[key].Meta?
            && kv[key].(fetched := true) == Meta(env.sources[i].title, env.sources[i].snippet, true)
  {
  }

  lemma HalfFetch(env: Env, i: nat)
    requires i < |env.sources|
    ensures var s := env.sources[i];
            var half := FetchOps(env, i) + [Op.Write(env.Path(s.url), s.content)];
            && half <= FetchOps(env, |env.sources|)
            && half + [Op.Put(MetaKey(s.url), Meta(s.title, s.snippet, true))] == FetchOps(env, i + 1)
            && FetchOps(env, i + 1) <= FetchOps(env, |env.sources|)
  {
    FetchPrefix(env, i + 1);
    var s := env.sources[i];
    assert FetchOps(env, i + 1) == FetchOps(env, i) + [Op.Write(env.Path(s.url), s.content)]
                                   + [Op.Put(MetaKey(s.url), Meta(s.title, s.snippet, true))];
  }

  method StepExtract(env: Env, ws: WorkspaceStore, ghost wf: SimulatedWorkflow, record: RunRecord, ghost t: Track)
    returns (o: Outcome)
    requires env.Valid() && Begins(env, 2, t, View(ws, wf), ws.host.budget)
    modifies ws`kv, ws`files, ws.host`budget, record`llmCalls
    ensures StepRan(t, View(ws, wf), ws.host.budget, o)
    ensures o == Done && t.good ==> record.llmCalls == old(record.llmCalls) + Calls(env, StepPrompts(env, 2))
  {
    Started(t);
    assert Midway(t, View(ws, wf), ws.host.budget, []);
    var listed := ws.KvGet(SourcesKey);
    if !listed.Ok? || !listed.value.UrlList? { return Threw; }
    var urls := listed.value.urls;
    ghost var done: seq<Op> := [];
    for i := 0 to |urls|
      invariant t.good ==> urls == env.Urls() && done == ExtractOps(env, i)
      invariant Follows(t, View(ws, wf), ws.host.budget, done)
      invariant t.good ==> Asked(env, old(record.llmCalls), record.llmCalls, i)
    {
      o := ExtractOne(env, ws, wf, record, urls[i], t, done, i, old(record.llmCalls));
      if o != Done { return o; }
      done := ExtractDone(env, t, i + 1);
    }
    return Done;
  }

  /** The first `n` sources have been put to the model. */
  ghost predicate Asked(env: Env, before: seq<LlmCall>, calls: seq<LlmCall>, n: nat) {
    n <= |env.sources| && calls == before + Calls(env, ExtractPrompts(env, n))
  }

  ghost function ExtractDone(env: Env, t: Track, n: nat): seq<Op> {
    if t.good && n <= |env.sources| then ExtractOps(env, n) else []
  }

  lemma CallsAppend(env: Env, prompts: seq<Prompt>, p: Prompt)
    ensures Calls(env, prompts + [p]) == Calls(env, prompts) + Calls(env, [p])
  {
    assert (prompts + [p])[..|prompts|] == prompts && [p][..0] == [];
  }

  method ExtractOne(env: Env, ws: WorkspaceStore, ghost wf: SimulatedWorkflow, record: RunRecord, url: string,
                    ghost t: Track, ghost done: seq<Op>, ghost i: nat, ghost before: seq<LlmCall>)
    returns (o: Outcome)
    requires env.Valid() && Planned(env, 2, t) && Follows(t, View(ws, wf), ws.host.budget, done)
    requires t.good ==> i < |env.sources| && url == env.sources[i].url && done == ExtractOps(env, i)
    requires t.good ==> Asked(env, before, record.llmCalls, i)
    modifies ws`kv, ws.host`budget, record`llmCalls
    ensures o == Done ==> Follows(t, View(ws, wf), ws.host.budget, ExtractDone(env, t, i + 1))
    ensures o == Done && t.good ==> Asked(env, before, record.llmCalls, i + 1)
    ensures o == Died ==> DiedIn(t, View(ws, wf), ws.host.budget)
    ensures o == Threw ==> !t.good
  {
    var page := ReadPage(env, ws, url);
    if t.good {
      assert Midway(t, View(ws, wf), ws.host.budget, done);
      PageRead(env, ws.kv, ws.files, i);
    }
    if !page.Ok? { return Threw; }
    var answer := LlmAnswer(env, ExtractPrompt(page.value.0, url, page.value.1), record);
    if t.good { NextAnswer(env, before, record.llmCalls, i); }
    var alive := Put(ws, wf, FactsKey(url), Text(answer), t, done);
    return if alive then Done else Died;
  }

  lemma NextAnswer(env: Env, before: seq<LlmCall>, calls: seq<LlmCall>, i: nat)
    requires i < |env.sources|
    requires calls == before + Calls(env, ExtractPrompts(env, i)) + Calls(env, [ExtractionPrompt(env, env.sources[i])])
    ensures Asked(env, before, calls, i + 1)
    ensures ExtractOps(env, i + 1) <= StepOps(env, 2)
    ensures ExtractOps(env, i + 1)
            == ExtractOps(env, i) + [Op.Put(FactsKey(env.sources[i].url), Text(FactText(env, env.sources[i])))]
  {
    ExtractPrefix(env, i + 1);
    CallsAppend(env, ExtractPrompts(env, i), ExtractionPrompt(env, env.sources[i]));
  }

  /** The stored title and page of a source. */
  method ReadPage(env: Env, ws: WorkspaceStore, url: string) returns (r: Result<(string, string)>)
    ensures r.Ok? <==> HasPage(env, ws.kv, ws.files, url)
    ensures r.Ok? ==> r.value.0 == ws.kv[MetaKey(url)].title && r.value.1 == ws.files[env.Path(url)]
  {
    var meta := ws.KvGet(MetaKey(url));
    if !meta.Ok? || !meta.value.Meta? { return Raised; }
    var content := ws.FilesRead(env.Path(url));
    return if content.Ok? then Ok((meta.value.title, content.value)) else Raised;
  }

  predicate HasPage(env: Env, kv: map<Key, Value>, files: map<Path, string>, url: string) {
    MetaKey(url) in kv && kv[MetaKey(url)].Meta? && env.Path(url) in files
  }

  lemma PageRead(env: Env, kv: map<Key, Value>, files: map<Path, string>, i: nat)
    requires i < |env.sources| && Readable(env, 2, kv, files)
    ensures var s := env.sources[i];
            && HasPage(env, kv, files, s.url) && kv[MetaKey(s.url)].title == s.title
            && files[env.Path(s.url)] == PageText(env, env.Path(s.url))
  {
  }

  /** This text is stored as the facts of this url. */
  predicate IsFact(kv: map<Key, Value>, url: string, text: string) {
    FactsKey(url) in kv && kv[FactsKey(url)] == Text(text)
  }

  /** The facts found for these urls, in order, skipping urls that have none. */
  method CollectFacts(env: Env, ws: WorkspaceStore, urls: seq<string>) returns (facts: seq<(string, string)>)
    ensures urls == env.Urls() && FactsReadable(env, ws.kv) ==> facts == AllFacts(env)
    ensures forall k :: 0 <= k < |facts| ==> facts[k].0 in urls && IsFact(ws.kv, facts[k].0, facts[k].1)
    ensures forall i, text :: 0 <= i < |urls| && IsFact(ws.kv, urls[i], text) ==> (urls[i], text) in facts
    ensures (forall i :: 0 <= i < |urls| ==> FactsKey(urls[i]) in ws.kv && ws.kv[FactsKey(urls[i])].Text?) ==>
              |facts| == |urls|
              && forall i :: 0 <= i < |urls| ==> facts[i].0 == urls[i] && IsFact(ws.kv, urls[i], facts[i].1)
  {
    facts := [];
    for i := 0 to |urls|
      invariant urls == env.Urls() && FactsReadable(env, ws.kv) ==> facts == FactList(env, i)
      invariant forall k :: 0 <= k < |facts| ==> facts[k].0 in urls && IsFact(ws.kv, facts[k].0, facts[k].1)
      invariant forall j, text :: 0 <= j < i && IsFact(ws.kv, urls[j], text) ==> (urls[j], text) in facts
      invariant (forall j :: 0 <= j < i ==> FactsKey(urls[j]) in ws.kv && ws.kv[FactsKey(urls[j])].Text?) ==>
                  |facts| == i
                  && forall j :: 0 <= j < i ==> facts[j].0 == urls[j] && IsFact(ws.kv, urls[j], facts[j].1)
    {
      var found := ws.KvGet(FactsKey(urls[i]));
      if found.Ok? && found.value.Text? { facts := facts + [(urls[i], found.value.text)]; }
    }
  }

  lemma OutlineReads(env: Env, t: Track, w: World, b: nat)
    requires t.good && Planned(env, 3, t) && Follows(t, w, b, [])
    ensures SourcesKey in w.kv && w.kv[SourcesKey] == UrlList(env.Urls()) && FactsReadable(env, w.kv)
    ensures t.all == [Op.Put(OutlineKey, Text(env.llm(OutlinePrompt(env.topic, AllFacts(env)))))]
  {
    assert Midway(t, w, b, []);
  }

  lemma WriteReads(env: Env, t: Track, w: World, b: nat)
    requires t.good && Planned(env, 4, t) && Follows(t, w, b, [])
    ensures SourcesKey in w.kv && w.kv[SourcesKey] == UrlList(env.Urls()) && FactsReadable(env, w.kv)
    ensures OutlineKey in w.kv && w.kv[OutlineKey] == Text(OutlineText(env))
    ensures t.all == [Op.Write(ReportFile, env.llm(WritePrompt(env.topic, OutlineText(env), AllFacts(env))))]
  {
    assert Midway(t, w, b, []);
  }

  lemma PolishReads(env: Env, t: Track, w: World, b: nat)
    requires t.good && Planned(env, 5, t) && Follows(t, w, b, [])
    ensures ReportFile in w.files && w.files[ReportFile] == ReportText(env)
    ensures t.all == [Op.Write(FinalFile, env.llm(PolishPrompt(env.topic, ReportText(env))))]
  {
    assert Midway(t, w, b, []);
  }

  method StepOutline(env: Env, ws: WorkspaceStore, ghost wf: SimulatedWorkflow, record: RunRecord, ghost t: Track)
    returns (o: Outcome)
    requires Begins(env, 3, t, View(ws, wf), ws.host.budget)
    modifies ws`kv, ws`files, ws.host`budget, record`llmCalls
    ensures StepRan(t, View(ws, wf), ws.host.budget, o)
    ensures o == Done && t.good ==> record.llmCalls == old(record.llmCalls) + Calls(env, StepPrompts(env, 3))
  {
    Started(t);
    if t.good { OutlineReads(env, t, View(ws, wf), ws.host.budget); }
    var listed := ws.KvGet(SourcesKey);
    if !listed.Ok? || !listed.value.UrlList? { return Threw; }
    var facts := CollectFacts(env, ws, listed.value.urls);
    var outline := LlmAnswer(env, OutlinePrompt(env.topic, facts), record);
    var alive := Put(ws, wf, OutlineKey, Text(outline), t, []);
    return if alive then Done else Died;
  }

  method StepWrite(env: Env, ws: WorkspaceStore, ghost wf: SimulatedWorkflow, record: RunRecord, ghost t: Track)
    returns (o: Outcome)
    requires Begins(env, 4, t, View(ws, wf), ws.host.budget)
    modifies ws`kv, ws`files, ws.host`budget, record`llmCalls
    ensures StepRan(t, View(ws, wf), ws.host.budget, o)
    ensures o == Done && t.good ==> record.llmCalls == old(record.llmCalls) + Calls(env, StepPrompts(env, 4))
  {
    Started(t);
    if t.good { WriteReads(env, t, View(ws, wf), ws.host.budget); }
    var outline := ws.KvGet(OutlineKey);
    if !outline.Ok? || !outline.value.Text? { return Threw; }
    var listed := ws.KvGet(SourcesKey);
    if !listed.Ok? || !listed.value.UrlList? { return Threw; }
    var facts := CollectFacts(env, ws, listed.value.urls);
    var report := LlmAnswer(env, WritePrompt(env.topic, outline.value.text, facts), record);
    var alive := WriteFile(ws, wf, ReportFile, report, t, []);
    return if alive then Done else Died;
  }

  method StepPolish(env: Env, ws: WorkspaceStore, ghost wf: SimulatedWorkflow, record: RunRecord, ghost t: Track)
    returns (o: Outcome)
    requires Begins(env, 5, t, View(ws, wf), ws.host.budget)
    modifies ws`kv, ws`files, ws.host`budget, record`llmCalls
    ensures StepRan(t, View(ws, wf), ws.host.budget, o)
    ensures o == Done && t.good ==> record.llmCalls == old(record.llmCalls) + Calls(env, StepPrompts(env, 5))
  {
    Started(t);
    if t.good { PolishReads(env, t, View(ws, wf), ws.host.budget); }
    var draft := ws.FilesRead(ReportFile);
    if !draft.Ok? { return Threw; }
    var final := LlmAnswer(env, PolishPrompt(env.topic, draft.value), record);
    var alive := WriteFile(ws, wf, FinalFile, final, t, []);
    return if alive then Done else Died;
  }
}
