/** What the agents of the pipeline leave in the workspace, key by key: what was fetched, what was extracted from it,
    and which texts were made of what. */
module HandoffContent {
  import opened Wrappers
  import opened Channels
  import opened ChannelBus
  import opened Handoff
  import opened HandoffProofs

  /** How many of the search results are used. */
  function Used(job: Job): nat {
    if |job.found| < 5 then |job.found| else 5
  }

  lemma SourcesAre(job: Job)
    ensures |job.Sources()| == Used(job) && |job.FactKeys()| == Used(job)
    ensures forall i :: 0 <= i < Used(job) ==>
              job.Sources()[i] == job.found[i] && job.FactKeys()[i] == "facts/" + job.found[i].url
  {
  }

  // ----- what the researcher stores -----

  function FileOf(job: Job, url: string): string {
    "sources/" + job.slug(url) + ".txt"
  }

  /** Result `i` is the last of the first `n` with its url. */
  ghost predicate LastUrl(job: Job, n: nat, i: nat)
    requires i < n <= |job.found|
  {
    forall k :: i < k < n ==> job.found[k].url != job.found[i].url
  }

  /** Result `i` is the last of the first `n` whose page goes to its file. */
  ghost predicate LastFile(job: Job, n: nat, i: nat)
    requires i < n <= |job.found|
  {
    forall k :: i < k < n ==> FileOf(job, job.found[k].url) != FileOf(job, job.found[i].url)
  }

  /** The topic, the index, and for the first `n` results their pages and metadata; of results that share a url or a
      file the last one counts. */
  ghost predicate Fetched(job: Job, store: Store, n: nat)
    requires n <= |job.found|
  {
    && "topic" in store.kv && store.kv["topic"] == Text(job.topic)
    && "sources/index" in store.kv && IsIndex(job, store.kv["sources/index"])
    && (forall i :: 0 <= i < n ==> PageFetched(job, store, n, i) && MetaStored(job, store, n, i))
  }

  predicate IsIndex(job: Job, v: Value) {
    v.Urls? && |v.urls| == Used(job) && forall i :: 0 <= i < Used(job) ==> v.urls[i] == job.found[i].url
  }

  ghost predicate PageFetched(job: Job, store: Store, n: nat, i: nat)
    requires i < n <= |job.found|
  {
    var path := FileOf(job, job.found[i].url);
    path in store.files && (LastFile(job, n, i) ==> store.files[path] == job.fetch(job.found[i].url))
  }

  ghost predicate MetaStored(job: Job, store: Store, n: nat, i: nat)
    requires i < n <= |job.found|
  {
    var s := job.found[i];
    var key := "sources/meta/" + s.url;
    key in store.kv && (LastUrl(job, n, i) ==> store.kv[key] == Meta(s.title, s.url, s.snippet))
  }

  /** Under the facts key of result `i`: what the model extracts from its title, its url and its page as stored. */
  ghost predicate FactStored(job: Job, store: Store, n: nat, i: nat)
    requires i < n <= |job.found|
  {
    var s := job.found[i];
    && FileOf(job, s.url) in store.files && "facts/" + s.url in store.kv
    && (LastUrl(job, n, i) ==>
          store.kv["facts/" + s.url] == Text(job.extract(s.title, s.url, store.files[FileOf(job, s.url)])))
  }

  ghost predicate Extracted(job: Job, store: Store, n: nat)
    requires n <= |job.found|
  {
    forall i :: 0 <= i < n ==> FactStored(job, store, n, i)
  }

  /** The flat artifact holds what was extracted for every result, in order. */
  ghost predicate Summarised(job: Job, files: map<string, string>) {
    "facts.json" in files
    && exists summary ::
         && |summary| == Used(job) && files["facts.json"] == job.summary(summary)
         && forall i :: 0 <= i < Used(job) ==>
              var s := job.found[i];
              FileOf(job, s.url) in files
              && summary[i] == job.extract(s.title, s.url, files[FileOf(job, s.url)])
  }

  ghost predicate FindingsStored(job: Job, store: Store) {
    Fetched(job, store, Used(job)) && Extracted(job, store, Used(job)) && Summarised(job, store.files)
  }

  lemma KeysDiffer(a: string, b: string)
    ensures "facts/" + a != "sources/meta/" + b && "facts/" + a != "topic" && "facts/" + a != "sources/index"
    ensures "sources/meta/" + a != "topic" && "sources/meta/" + a != "sources/index"
    ensures "facts/" + a == "facts/" + b <==> a == b
    ensures "sources/meta/" + a == "sources/meta/" + b <==> a == b
  {
    assert ("facts/" + a)[0] == 'f' && ("sources/meta/" + b)[0] == 's';
    assert ("sources/meta/" + a)[8] == 'm' && "sources/index"[8] == 'i';
    assert ("facts/" + a)[6..] == a && ("facts/" + b)[6..] == b;
    assert ("sources/meta/" + a)[13..] == a && ("sources/meta/" + b)[13..] == b;
  }

  lemma FilesDiffer(job: Job, url: string)
    ensures var path := FileOf(job, url);
            path != "facts.json" && path != "draft.md" && path != "final.md" && path != "critique.md"
  {
    assert FileOf(job, url)[0] == 's';
    assert "facts.json"[0] == 'f' && "draft.md"[0] == 'd' && "final.md"[0] == 'f' && "critique.md"[0] == 'c';
  }

  lemma TopicStored(job: Job)
    requires |Tasks(job)| >= 2
    ensures Fetched(job, Researched(job, 2), 0)
  {
    TaskCount(job);
    SourcesAre(job);
    assert Researched(job, 1) == Do(job, Researched(job, 0), PutTopic);
    assert Researched(job, 2) == Do(job, Researched(job, 1), PutIndex);
  }

  /** Page and metadata of one more result. */
  lemma NextFetched(job: Job, store: Store, n: nat, m: nat)
    requires n < Used(job) && m == n + 1 && Fetched(job, store, n)
    ensures Fetched(job, Do(job, Do(job, store, WritePage(job.found[n])), PutMeta(job.found[n])), m)
  {
    var store' := Do(job, Do(job, store, WritePage(job.found[n])), PutMeta(job.found[n]));
    KeysDiffer(job.found[n].url, "");
    forall i | 0 <= i < m ensures PageFetched(job, store', m, i) && MetaStored(job, store', m, i) {
      KeysDiffer(job.found[i].url, job.found[n].url);
      if i < n { assert PageFetched(job, store, n, i) && MetaStored(job, store, n, i); }
    }
  }

  lemma {:induction false} FetchedAfter(job: Job, n: nat, k: nat)
    requires n <= Used(job) && k == 2 + 2 * n && |Tasks(job)| == 3 * Used(job) + 3
    ensures Fetched(job, Researched(job, k), n)
  {
    if n == 0 {
      TopicStored(job);
    } else {
      FetchedAfter(job, n - 1, k - 2);
      FetchTasksOf(job, n - 1, k - 2);
      TwoTasks(job, k - 2, WritePage(job.found[n - 1]), PutMeta(job.found[n - 1]));
      NextFetched(job, Researched(job, k - 2), n - 1, n);
    }
  }

  lemma FetchTasksOf(job: Job, i: nat, k: nat)
    requires i < Used(job) && k == 2 + 2 * i
    ensures k + 1 < |Tasks(job)|
    ensures Tasks(job)[k] == WritePage(job.found[i]) && Tasks(job)[k + 1] == PutMeta(job.found[i])
  {
    SourcesAre(job);
    TaskAt(job, i);
  }

  lemma TwoTasks(job: Job, k: nat, a: Task, b: Task)
    requires k + 2 <= |Tasks(job)| && Tasks(job)[k] == a && Tasks(job)[k + 1] == b
    ensures Researched(job, k + 2) == Do(job, Do(job, Researched(job, k), a), b)
  {
    assert Researched(job, k + 1) == Do(job, Researched(job, k), a);
  }

  lemma OneTask(job: Job, k: nat, a: Task)
    requires k < |Tasks(job)| && Tasks(job)[k] == a
    ensures Researched(job, k + 1) == Do(job, Researched(job, k), a)
  {
  }

  /** The facts of one more result. */
  lemma NextExtracted(job: Job, store: Store, n: nat, m: nat)
    requires n < Used(job) && m == n + 1 && Fetched(job, store, Used(job)) && Extracted(job, store, n)
    ensures var store' := Do(job, store, Extract(job.found[n]));
            Fetched(job, store', Used(job)) && Extracted(job, store', m)
  {
    var store' := Do(job, store, Extract(job.found[n]));
    FactsElsewhere(job, store, n, Used(job));
    assert PageFetched(job, store, Used(job), n);
    forall i | 0 <= i < m ensures FactStored(job, store', m, i) {
      KeysDiffer(job.found[n].url, job.found[i].url);
      if i < n { assert FactStored(job, store, n, i); }
    }
  }

  lemma FactsElsewhere(job: Job, store: Store, n: nat, used: nat)
    requires n < used <= |job.found| && Fetched(job, store, used)
    ensures Fetched(job, Do(job, store, Extract(job.found[n])), used)
  {
    var store' := Do(job, store, Extract(job.found[n]));
    forall i | 0 <= i < used ensures PageFetched(job, store', used, i) && MetaStored(job, store', used, i) {
      assert PageFetched(job, store, used, i) && MetaStored(job, store, used, i);
      KeysDiffer(job.found[n].url, job.found[i].url);
    }
    KeysDiffer(job.found[n].url, "");
  }

  lemma {:induction false} ExtractedAfter(job: Job, base: nat, n: nat)
    requires n <= Used(job) && base == 2 + 2 * Used(job) && |Tasks(job)| == 3 * Used(job) + 3
    ensures Fetched(job, Researched(job, base + n), Used(job)) && Extracted(job, Researched(job, base + n), n)
  {
    if n == 0 {
      FetchedAfter(job, Used(job), base);
    } else {
      ExtractedAfter(job, base, n - 1);
      ExtractTaskAt(job, n - 1);
      OneTask(job, base + n - 1, Extract(job.found[n - 1]));
      NextExtracted(job, Researched(job, base + n - 1), n - 1, n);
    }
  }

  lemma ExtractTaskAt(job: Job, i: nat)
    requires i < Used(job)
    ensures |Tasks(job)| == 3 * Used(job) + 3 && Tasks(job)[2 + 2 * Used(job) + i] == Extract(job.found[i])
  {
    SourcesAre(job);
    TaskAt(job, i);
  }

  lemma {:induction false} ResponsesAt(job: Job, files: map<string, string>, n: nat, i: nat)
    requires i < n <= |job.Sources()|
    ensures |Responses(job, files, n)| == n
    ensures Responses(job, files, n)[i] == Response(job, files, job.Sources()[i])
  {
    if i < n - 1 {
      ResponsesAt(job, files, n - 1, i);
    } else if n > 1 {
      ResponsesAt(job, files, n - 1, 0);
    }
  }

  /** The flat artifact, written last. */
  lemma NowSummarised(job: Job, store: Store)
    requires Fetched(job, store, Used(job)) && Extracted(job, store, Used(job))
    ensures FindingsStored(job, Do(job, store, WriteFacts))
  {
    var store', summary := Do(job, store, WriteFacts), Responses(job, store.files, |job.Sources()|);
    SourcesAre(job);
    assert Used(job) == 0 ==> summary == [];
    forall i | 0 <= i < Used(job)
      ensures PageFetched(job, store', Used(job), i) && MetaStored(job, store', Used(job), i)
      ensures FactStored(job, store', Used(job), i)
      ensures |summary| == Used(job)
      ensures var s := job.found[i]; summary[i] == job.extract(s.title, s.url, store'.files[FileOf(job, s.url)])
    {
      assert PageFetched(job, store, Used(job), i) && MetaStored(job, store, Used(job), i);
      assert FactStored(job, store, Used(job), i);
      FilesDiffer(job, job.found[i].url);
      ResponsesAt(job, store.files, |job.Sources()|, i);
    }
  }

  lemma FindingsAre(job: Job)
    ensures FindingsStored(job, Findings(job))
  {
    var base, last := 2 + 2 * Used(job), 2 + 3 * Used(job);
    LastTask(job, last);
    ExtractedAfter(job, base, Used(job));
    OneTask(job, last, WriteFacts);
    NowSummarised(job, Researched(job, last));
  }

  lemma LastTask(job: Job, last: nat)
    requires last == 2 + 3 * Used(job)
    ensures |Tasks(job)| == 3 * Used(job) + 3 == last + 1 && Tasks(job)[last] == WriteFacts
  {
    SourcesAre(job);
    TaskCount(job);
  }

  /** What the writer and the reviewer write lies elsewhere. */
  lemma FindingsStay(job: Job, before: Store, after: Store)
    requires FindingsStored(job, before) && after.kv == before.kv
    requires forall path :: path != "draft.md" && path != "final.md" && path != "critique.md"
                            && path in before.files ==>
               path in after.files && after.files[path] == before.files[path]
    ensures FindingsStored(job, after)
  {
    forall i | 0 <= i < Used(job)
      ensures PageFetched(job, after, Used(job), i) && MetaStored(job, after, Used(job), i)
      ensures FactStored(job, after, Used(job), i)
    {
      assert PageFetched(job, before, Used(job), i) && MetaStored(job, before, Used(job), i);
      assert FactStored(job, before, Used(job), i);
      FilesDiffer(job, job.found[i].url);
    }
    SummaryStays(job, before.files, after.files);
  }

  lemma SummaryStays(job: Job, before: map<string, string>, after: map<string, string>)
    requires Summarised(job, before)
    requires forall path :: path != "draft.md" && path != "final.md" && path != "critique.md" && path in before ==>
               path in after && after[path] == before[path]
    ensures Summarised(job, after)
  {
    assert "facts.json"[0] == 'f' && "facts.json"[1] == 'a' && "final.md"[1] == 'i';
    assert "draft.md"[0] == 'd' && "critique.md"[0] == 'c';
    forall i | 0 <= i < Used(job)
      ensures var path := FileOf(job, job.found[i].url); path in before ==> path in after && after[path] == before[path]
    {
      FilesDiffer(job, job.found[i].url);
    }
  }

  /** In every interleaving: when the research is announced, every finding is stored under its own key, and it stays. */
  lemma FindingsInPlace(job: Job, schedule: seq<Event>)
    requires job.names.Distinct() && Run(job, schedule).r == Finished
    ensures FindingsStored(job, Run(job, schedule).store)
  {
    Reachable(job, schedule);
    FindingsAre(job);
    WhenFinished(job, Run(job, schedule), ListsOf(job, schedule));
    FindingsStay(job, Findings(job), Run(job, schedule).store);
  }

  lemma WhenFinished(job: Job, s: System, x: Lists)
    requires Inv(job, StagesOf(job), s, x) && s.r == Finished
    ensures s.store.kv == Findings(job).kv
    ensures forall path :: path != "draft.md" && path != "final.md" && path != "critique.md"
                           && path in Findings(job).files ==>
              path in s.store.files && s.store.files[path] == Findings(job).files[path]
  {
  }

  // ----- what the writer reads -----

  /** Read so far: the fact under the facts key of each result, and the metadata under its own key. */
  ghost predicate LookedUp(job: Job, kv: map<string, Value>, got: seq<Option<Value>>) {
    |got| <= 2 * Used(job) && forall j :: 0 <= j < Used(job) ==> LookedUpAt(job, kv, got, j)
  }

  ghost predicate LookedUpAt(job: Job, kv: map<string, Value>, got: seq<Option<Value>>, j: nat)
    requires j < Used(job)
  {
    var fact, meta := "facts/" + job.found[j].url, "sources/meta/" + job.found[j].url;
    && (2 * j < |got| ==> fact in kv && got[2 * j] == Some(kv[fact]))
    && (2 * j + 1 < |got| ==> meta in kv && got[2 * j + 1] == Some(kv[meta]))
  }

  lemma {:induction false} ReadsAt(store: Store, keys: seq<string>, n: nat, i: nat)
    requires i < n <= 2 * |keys|
    ensures |Reads(store, keys, n)| == n && Reads(store, keys, n)[i] == ReadAt(store, keys, i)
  {
    if i < n - 1 {
      ReadsAt(store, keys, n - 1, i);
    } else if n > 1 {
      ReadsAt(store, keys, n - 1, 0);
    }
  }

  lemma ReadsAreLookups(job: Job, n: nat)
    requires n <= 2 * |job.FactKeys()|
    ensures LookedUp(job, Findings(job).kv, Reads(Findings(job), job.FactKeys(), n))
    ensures |Reads(Findings(job), job.FactKeys(), n)| == n
  {
    SourcesAre(job);
    FindingsAre(job);
    var got := Reads(Findings(job), job.FactKeys(), n);
    if n > 0 { ReadsAt(Findings(job), job.FactKeys(), n, 0); }
    forall j | 0 <= j < Used(job) ensures LookedUpAt(job, Findings(job).kv, got, j) {
      assert FactStored(job, Findings(job), Used(job), j) && MetaStored(job, Findings(job), Used(job), j);
      ReadPair(job, n, j);
    }
  }

  lemma ReadPair(job: Job, n: nat, j: nat)
    requires n <= 2 * |job.FactKeys()| && j < Used(job)
    requires FactStored(job, Findings(job), Used(job), j) && MetaStored(job, Findings(job), Used(job), j)
    ensures LookedUpAt(job, Findings(job).kv, Reads(Findings(job), job.FactKeys(), n), j)
  {
    SourcesAre(job);
    PairRead(Findings(job), job.FactKeys(), job.found[j].url, n, j);
  }

  lemma PairRead(store: Store, keys: seq<string>, url: string, n: nat, j: nat)
    requires n <= 2 * |keys| && j < |keys| && keys[j] == "facts/" + url
    ensures var got := Reads(store, keys, n);
            && |got| == n && (2 * j < n ==> got[2 * j] == Get(store, "facts/" + url))
            && (2 * j + 1 < n ==> got[2 * j + 1] == Get(store, "sources/meta/" + url))
  {
    PairAt(store, keys, url, j);
    if n > 0 { ReadsAt(store, keys, n, 0); }
    if 2 * j < n { ReadsAt(store, keys, n, 2 * j); }
    if 2 * j + 1 < n { ReadsAt(store, keys, n, 2 * j + 1); }
  }

  lemma PairAt(store: Store, keys: seq<string>, url: string, j: nat)
    requires j < |keys| && keys[j] == "facts/" + url
    ensures ReadAt(store, keys, 2 * j) == Get(store, "facts/" + url)
    ensures ReadAt(store, keys, 2 * j + 1) == Get(store, "sources/meta/" + url)
  {
    SlashAfterFacts(url);
    assert 2 * j / 2 == j && (2 * j + 1) / 2 == j && 2 * j % 2 == 0 && (2 * j + 1) % 2 == 1;
  }

  /** In every interleaving the writer looks up each fact under its own key and each source's metadata under its key. */
  lemma WriterLooksUp(job: Job, schedule: seq<Event>)
    requires job.names.Distinct() && Run(job, schedule).w.Collecting?
    ensures LookedUp(job, Run(job, schedule).store.kv, Run(job, schedule).w.got)
  {
    Reachable(job, schedule);
    ReadsAreLookups(job, |Run(job, schedule).w.got|);
  }

  /** The research message lists the facts keys of the results that are used, in order. */
  predicate KeysListed(job: Job, keys: seq<string>) {
    |keys| == Used(job) && forall i :: 0 <= i < Used(job) ==> keys[i] == "facts/" + job.found[i].url
  }

  /** The draft is made of all findings: of every fact and its source's metadata as they are stored. */
  ghost predicate DraftOf(job: Job, kv: map<string, Value>, draft: string) {
    exists keys, got ::
      && KeysListed(job, keys) && |got| == 2 * Used(job) && LookedUp(job, kv, got)
      && draft == job.draft(job.topic, keys, got)
  }

  lemma DraftIs(job: Job)
    ensures DraftOf(job, Findings(job).kv, DraftText(job))
  {
    SourcesAre(job);
    ReadsAreLookups(job, 2 * |job.FactKeys()|);
    assert KeysListed(job, job.FactKeys());
  }

  predicate FinalOf(job: Job, draft: string, final: string) {
    final == job.finalize(job.topic, draft, job.critique(job.topic, draft))
  }

  /** In every interleaving: the draft is made of the stored findings, the final report of the stored draft and the
      stored critique, and the critique of the draft. */
  lemma TextsAreMade(job: Job, schedule: seq<Event>)
    requires job.names.Distinct()
    ensures var s := Run(job, schedule);
            var files, v := s.store.files, ReviewerRank(s.v);
            && (WriterRank(s.w) >= 2 ==> "draft.md" in files && DraftOf(job, s.store.kv, files["draft.md"]))
            && (v >= 3 ==>
                  "draft.md" in files && "final.md" in files && FinalOf(job, files["draft.md"], files["final.md"]))
            && (v >= 4 ==>
                  "critique.md" in files && files["critique.md"] == job.critique(job.topic, files["draft.md"]))
  {
    Reachable(job, schedule);
    DraftIs(job);
    var s := Run(job, schedule);
    LaterTexts(job, WriterRank(s.w), ReviewerRank(s.v));
  }

  /** What a message may say: the topic, the snapshot, and where the text it hands over is, or the keys of the facts. */
  ghost predicate Says(job: Job, files: map<string, string>, payload: Payload) {
    match payload
    case Research(topic, id, keys) => topic == job.topic && id == 0 && KeysListed(job, keys)
    case Draft(topic, id, path) => topic == job.topic && id == 1 && path == "draft.md"
    case Final(topic, id, path, notes) =>
      topic == job.topic && id == 2 && path == "final.md" && "critique.md" in files && notes == files["critique.md"]
    case Other(_) => false
  }

  /** In every interleaving the messages on the bus say so. */
  lemma MessagesSay(job: Job, schedule: seq<Event>)
    requires job.names.Distinct()
    ensures var s := Run(job, schedule);
            forall m :: m in s.bus.messages ==>
              && Says(job, s.store.files, m.payload)
              && (m.channel == job.names.research ==> m.payload.Research? && m.kind == Some(job.names.researchKind))
              && (m.channel == job.names.draft ==> m.payload.Draft? && m.kind == Some(job.names.draftKind))
              && (m.channel == job.names.final ==> m.payload.Final? && m.kind == Some(job.names.finalKind))
  {
    Reachable(job, schedule);
    SourcesAre(job);
    var s := Run(job, schedule);
    OnlySent(job, Undisturbed(job, schedule), s, ListsOf(job, schedule));
    LaterTexts(job, WriterRank(s.w), ReviewerRank(s.v));
  }
}
