/** What is on the disk, said without the canonical texts: every stored value is explained by the sources and by what
    else is stored. */
module ResumeContent {
  import opened Wrappers
  import opened Runs
  import opened ResumeModel
  import opened ResumeLog
  import opened ResumeState
  import opened ResumeRun
  import opened ResumeTheorems

  // ----- explaining the two stores -----

  /** Every source's url with the text stored under its facts key, in the order of the sources. */
  ghost predicate StoredFacts(env: Env, kv: map<Key, Value>, facts: seq<(string, string)>) {
    |facts| == |env.sources|
    && forall i :: 0 <= i < |facts| ==>
         var url := env.sources[i].url;
         facts[i].0 == url && FactsKey(url) in kv && kv[FactsKey(url)] == Text(facts[i].1)
  }

  /** Source `j` is the last one whose page goes to this file. */
  ghost predicate LastOn(env: Env, path: Path, j: int) {
    0 <= j < |env.sources| && PageFile(env.slug(env.sources[j].url)) == path
    && forall k :: j < k < |env.sources| ==> PageFile(env.slug(env.sources[k].url)) != path
  }

  ghost predicate MetaOf(env: Env, files: map<Path, string>, url: string, v: Value) {
    exists i :: 0 <= i < |env.sources| && MetaOfSource(env.sources[i], url, v)
                && (v.fetched ==> PageFile(env.slug(url)) in files)
  }

  predicate MetaOfSource(s: Source, url: string, v: Value) {
    s.url == url && v.Meta? && v.title == s.title && v.snippet == s.snippet
  }

  /** The answer to the prompt over the title and the stored page of a source, which is the last one written there. */
  ghost predicate FactOf(env: Env, files: map<Path, string>, url: string, v: Value) {
    var path := PageFile(env.slug(url));
    && path in files
    && (exists i :: 0 <= i < |env.sources| && env.sources[i].url == url
                    && v == Text(env.llm(ExtractPrompt(env.sources[i].title, url, files[path]))))
    && exists j :: LastOn(env, path, j) && files[path] == env.sources[j].content
  }

  ghost predicate OutlineOf(env: Env, kv: map<Key, Value>, v: Value) {
    exists facts :: StoredFacts(env, kv, facts) && v == Text(env.llm(OutlinePrompt(env.topic, facts)))
  }

  ghost predicate ReportOf(env: Env, kv: map<Key, Value>, report: string) {
    OutlineKey in kv && kv[OutlineKey].Text?
    && exists facts :: StoredFacts(env, kv, facts)
                       && report == env.llm(WritePrompt(env.topic, kv[OutlineKey].text, facts))
  }

  ghost predicate KvExplained(env: Env, kv: map<Key, Value>, files: map<Path, string>, key: Key)
    requires key in kv
  {
    var v := kv[key];
    match key
    case TopicKey => v == Text(env.topic)
    case SourcesKey =>
      v.UrlList? && |v.urls| == |env.sources| && forall i :: 0 <= i < |v.urls| ==> v.urls[i] == env.sources[i].url
    case MetaKey(url) => v.Meta? && MetaOf(env, files, url, v)
    case FactsKey(url) => FactOf(env, files, url, v)
    case OutlineKey => OutlineOf(env, kv, v)
  }

  ghost predicate FileExplained(env: Env, kv: map<Key, Value>, files: map<Path, string>, path: Path)
    requires path in files
  {
    match path
    case PageFile(_) =>
      exists j :: 0 <= j < |env.sources| && path == PageFile(env.slug(env.sources[j].url))
                  && files[path] == env.sources[j].content
    case ReportFile => ReportOf(env, kv, files[path])
    case FinalFile => ReportFile in files && files[path] == env.llm(PolishPrompt(env.topic, files[ReportFile]))
  }

  ghost predicate Explained(env: Env, kv: map<Key, Value>, files: map<Path, string>) {
    && (forall key :: key in kv ==> KvExplained(env, kv, files, key))
    && (forall path :: path in files ==> FileExplained(env, kv, files, path))
  }

  // ----- which keys there are at each stage -----

  ghost predicate IsSource(env: Env, url: string) {
    exists i :: 0 <= i < |env.sources| && env.sources[i].url == url
  }

  ghost predicate IsPage(env: Env, path: Path) {
    exists i :: 0 <= i < |env.sources| && PageFile(env.slug(env.sources[i].url)) == path
  }

  /** What `c` completed steps have written. */
  ghost predicate KeyAt(env: Env, c: nat, key: Key) {
    match key
    case TopicKey | SourcesKey => c >= 1
    case MetaKey(url) => c >= 1 && IsSource(env, url)
    case FactsKey(url) => c >= 3 && IsSource(env, url)
    case OutlineKey => c >= 4
  }

  ghost predicate PathAt(env: Env, c: nat, path: Path) {
    match path
    case PageFile(_) => c >= 2 && IsPage(env, path)
    case ReportFile => c >= 5
    case FinalFile => c >= 6
  }

  /** The `i`-th operations of the three steps that loop over the sources. */
  lemma {:induction false} IndexOpsAt(env: Env, n: nat, k: nat)
    requires n <= |env.sources| && k < n + 2
    ensures |IndexOps(env, n)| == n + 2
    ensures IndexOps(env, n)[k] ==
            if k == 0 then Put(TopicKey, Text(env.topic))
            else if k == 1 then Put(SourcesKey, UrlList(env.Urls()))
            else var s := env.sources[k - 2]; Put(MetaKey(s.url), Meta(s.title, s.snippet, false))
  {
    if n > 0 { IndexOpsAt(env, n - 1, if k < n + 1 then k else 0); }
  }

  lemma {:induction false} FetchOpsAt(env: Env, n: nat, k: nat)
    requires n <= |env.sources| && k < 2 * n
    ensures |FetchOps(env, n)| == 2 * n
    ensures var s := env.sources[k / 2];
            FetchOps(env, n)[k] ==
            if k % 2 == 0 then Write(PageFile(env.slug(s.url)), s.content)
            else Put(MetaKey(s.url), Meta(s.title, s.snippet, true))
  {
    if k < 2 * (n - 1) {
      FetchOpsAt(env, n - 1, k);
    } else if n > 1 {
      FetchOpsAt(env, n - 1, 0);
    }
  }

  lemma {:induction false} ExtractOpsAt(env: Env, n: nat, k: nat)
    requires n <= |env.sources| && k < n
    ensures |ExtractOps(env, n)| == n
    ensures ExtractOps(env, n)[k] == Put(FactsKey(env.sources[k].url), Text(FactText(env, env.sources[k])))
  {
    if k < n - 1 {
      ExtractOpsAt(env, n - 1, k);
    } else if n > 1 {
      ExtractOpsAt(env, n - 1, 0);
    }
  }

  lemma {:induction false} FactsAt(env: Env, n: nat, i: nat)
    requires i < n <= |env.sources|
    ensures FactList(env, n)[i] == (env.sources[i].url, FactText(env, env.sources[i]))
  {
    if i < n - 1 { FactsAt(env, n - 1, i); }
  }

  /** The page stored for a path is that of the last source that shares it. */
  lemma {:induction false} LastPage(env: Env, n: nat, path: Path)
    requires n <= |env.sources| && path in PagesUpTo(env, n)
    ensures exists j :: 0 <= j < n && PageFile(env.slug(env.sources[j].url)) == path
                        && (forall k :: j < k < n ==> PageFile(env.slug(env.sources[k].url)) != path)
                        && PagesUpTo(env, n)[path] == env.sources[j].content
  {
    if PageFile(env.slug(env.sources[n - 1].url)) != path { LastPage(env, n - 1, path); }
  }

  /** The keys and paths step `c` writes. */
  lemma StepWritesOnly(env: Env, c: nat)
    ensures forall key :: key in KvPart(StepOps(env, c)) ==> KeyAt(env, c + 1, key)
    ensures forall path :: path in FilePart(StepOps(env, c)) ==> PathAt(env, c + 1, path)
  {
    PartKeys(StepOps(env, c));
    forall op | op in StepOps(env, c) ensures WritesAt(env, c, op) { StepOpWrites(env, c, op); }
  }

  lemma StepWritesAll(env: Env, c: nat)
    requires env.Valid()
    ensures forall key :: KeyAt(env, c + 1, key) && !KeyAt(env, c, key) ==> key in KvPart(StepOps(env, c))
    ensures forall path :: PathAt(env, c + 1, path) && !PathAt(env, c, path) ==> path in FilePart(StepOps(env, c))
  {
    StepValues(env, c);
    if c == 0 { TopicWritten(env); }
  }

  lemma TopicWritten(env: Env)
    requires env.Valid()
    ensures TopicKey in KvPart(StepOps(env, 0))
  {
    IndexPart(env, |env.sources|);
  }

  ghost predicate WritesAt(env: Env, c: nat, op: Op) {
    (op.Put? ==> KeyAt(env, c + 1, op.key)) && (op.Write? ==> PathAt(env, c + 1, op.path))
  }

  lemma StepOpWrites(env: Env, c: nat, op: Op)
    requires op in StepOps(env, c)
    ensures WritesAt(env, c, op)
  {
    var k :| 0 <= k < |StepOps(env, c)| && StepOps(env, c)[k] == op;
    var n := |env.sources|;
    if c == 0 { IndexOpsAt(env, n, 0); IndexOpsAt(env, n, k); }
    if c == 1 && n > 0 { FetchOpsAt(env, n, 0); FetchOpsAt(env, n, k); }
    if c == 2 && n > 0 { ExtractOpsAt(env, n, 0); ExtractOpsAt(env, n, k); }
  }

  lemma KeyWritten(env: Env, c: nat, key: Key)
    requires env.Valid()
    ensures key in KvAt(env, c + 1) <==> key in KvAt(env, c) || key in KvPart(StepOps(env, c))
    ensures key in KvPart(StepOps(env, c)) ==> KeyAt(env, c + 1, key)
    ensures KeyAt(env, c + 1, key) ==> KeyAt(env, c, key) || key in KvPart(StepOps(env, c))
  {
    AtNext(env, c);
    StepWritesOnly(env, c);
    StepWritesAll(env, c);
  }

  lemma PathWritten(env: Env, c: nat, path: Path)
    requires env.Valid()
    ensures path in FilesAt(env, c + 1) <==> path in FilesAt(env, c) || path in FilePart(StepOps(env, c))
    ensures path in FilePart(StepOps(env, c)) ==> PathAt(env, c + 1, path)
    ensures PathAt(env, c + 1, path) ==> PathAt(env, c, path) || path in FilePart(StepOps(env, c))
  {
    AtNext(env, c);
    StepWritesOnly(env, c);
    StepWritesAll(env, c);
  }

  lemma {:induction false} KeyIs(env: Env, c: nat, key: Key)
    requires env.Valid()
    ensures key in KvAt(env, c) <==> KeyAt(env, c, key)
  {
    if c > 0 {
      KeyIs(env, c - 1, key);
      KeyWritten(env, c - 1, key);
    }
  }

  lemma {:induction false} PathIs(env: Env, c: nat, path: Path)
    requires env.Valid()
    ensures path in FilesAt(env, c) <==> PathAt(env, c, path)
  {
    if c > 0 {
      PathIs(env, c - 1, path);
      PathWritten(env, c - 1, path);
    }
  }

  /** After `c` steps exactly these keys and paths are there. */
  lemma KeysAre(env: Env, c: nat)
    requires env.Valid()
    ensures forall key :: key in KvAt(env, c) <==> KeyAt(env, c, key)
    ensures forall path :: path in FilesAt(env, c) <==> PathAt(env, c, path)
  {
    forall key ensures key in KvAt(env, c) <==> KeyAt(env, c, key) { KeyIs(env, c, key); }
    forall path ensures path in FilesAt(env, c) <==> PathAt(env, c, path) { PathIs(env, c, path); }
  }

  // ----- one durable operation -----

  /** Nothing that a later step writes is there. */
  ghost predicate Early(env: Env, c: nat, kv: map<Key, Value>, files: map<Path, string>) {
    && (forall key :: key in kv ==> KeyAt(env, c + 1, key))
    && (forall path :: path in files ==> PathAt(env, c + 1, path))
  }

  lemma PutExplained(env: Env, kv: map<Key, Value>, files: map<Path, string>, key: Key, value: Value)
    requires Explained(env, kv, files) && KvExplained(env, kv[key := value], files, key)
    requires key.FactsKey? ==> OutlineKey !in kv && ReportFile !in files
    requires key == OutlineKey ==> ReportFile !in files
    ensures Explained(env, kv[key := value], files)
  {
    var kv' := kv[key := value];
    forall other | other in kv' ensures KvExplained(env, kv', files, other) {
      if other != key { assert KvExplained(env, kv, files, other); }
      if other == OutlineKey && other != key { SameFacts(env, kv, kv'); }
    }
    forall path | path in files ensures FileExplained(env, kv', files, path) {
      assert FileExplained(env, kv, files, path);
      if path == ReportFile { SameFacts(env, kv, kv'); }
    }
  }

  lemma SameFacts(env: Env, before: map<Key, Value>, after: map<Key, Value>)
    requires forall url: string ::
               FactsKey(url) in before ==> FactsKey(url) in after && after[FactsKey(url)] == before[FactsKey(url)]
    ensures forall facts :: StoredFacts(env, before, facts) ==> StoredFacts(env, after, facts)
  {
  }

  lemma WriteExplained(env: Env, kv: map<Key, Value>, files: map<Path, string>, path: Path, content: string)
    requires Explained(env, kv, files) && FileExplained(env, kv, files[path := content], path)
    requires path.PageFile? ==> forall url: string :: FactsKey(url) !in kv
    requires path == ReportFile ==> FinalFile !in files
    ensures Explained(env, kv, files[path := content])
  {
    var files' := files[path := content];
    forall key | key in kv ensures KvExplained(env, kv, files', key) { assert KvExplained(env, kv, files, key); }
    forall other | other in files' ensures FileExplained(env, kv, files', other) {
      if other != path { assert FileExplained(env, kv, files, other); }
    }
  }

  /** Operation `k` of step `c` finds what it needs, and what it writes is explained by it. */
  lemma IndexExplained(env: Env, w: World, k: nat)
    requires Explained(env, w.kv, w.files) && k < |StepOps(env, 0)|
    requires Early(env, 0, w.kv, w.files)
    ensures var w' := Apply(w, StepOps(env, 0)[k]); Explained(env, w'.kv, w'.files)
  {
    IndexOpsAt(env, |env.sources|, 0);
    IndexOpsAt(env, |env.sources|, k);
    var op := StepOps(env, 0)[k];
    if k >= 2 {
      assert MetaOfSource(env.sources[k - 2], op.key.url, op.value);
    }
    PutExplained(env, w.kv, w.files, op.key, op.value);
  }

  lemma FetchExplained(env: Env, w: World, k: nat)
    requires Explained(env, w.kv, w.files) && k < |StepOps(env, 1)|
    requires Early(env, 1, w.kv, w.files)
    requires MarksWritten(env, w, k)
    ensures var w' := Apply(w, StepOps(env, 1)[k]); Explained(env, w'.kv, w'.files)
  {
    var n := |env.sources|;
    if n > 0 { FetchOpsAt(env, n, 0); FetchOpsAt(env, n, k); }
    var op, s := StepOps(env, 1)[k], env.sources[k / 2];
    if k % 2 == 0 {
      WriteExplained(env, w.kv, w.files, op.path, op.content);
    } else {
      FetchOpsAt(env, n, k - 1);
      assert MetaOfSource(s, s.url, op.value);
      PutExplained(env, w.kv, w.files, op.key, op.value);
    }
  }

  lemma ExtractExplained(env: Env, w: World, k: nat)
    requires Explained(env, w.kv, w.files) && k < |StepOps(env, 2)|
    requires Early(env, 2, w.kv, w.files) && PagesReadable(env, w.files)
    ensures var w' := Apply(w, StepOps(env, 2)[k]); Explained(env, w'.kv, w'.files)
  {
    var n := |env.sources|;
    if n > 0 {
      ExtractOpsAt(env, n, 0);
      ExtractOpsAt(env, n, k);
    }
    PageExplained(env, w.files, k);
    FactExplained(env, w.kv, w.files, env.sources[k].url, Text(FactText(env, env.sources[k])));
  }

  lemma FactExplained(env: Env, kv: map<Key, Value>, files: map<Path, string>, url: string, v: Value)
    requires Explained(env, kv, files) && Early(env, 2, kv, files) && FactOf(env, files, url, v)
    ensures Explained(env, kv[FactsKey(url) := v], files)
  {
    PutExplained(env, kv, files, FactsKey(url), v);
  }

  lemma PageExplained(env: Env, files: map<Path, string>, i: nat)
    requires i < |env.sources| && PagesReadable(env, files)
    ensures FactOf(env, files, env.sources[i].url, Text(FactText(env, env.sources[i])))
  {
    var path := env.Path(env.sources[i].url);
    PagesThere(env, |env.sources|, i);
    LastPage(env, |env.sources|, path);
    assert files[path] == PageText(env, path);
  }

  lemma {:induction false} PagesThere(env: Env, n: nat, i: nat)
    requires i < n <= |env.sources|
    ensures env.Path(env.sources[i].url) in PagesUpTo(env, n)
  {
    if i < n - 1 { PagesThere(env, n - 1, i); }
  }

  lemma AllFactsStored(env: Env, kv: map<Key, Value>)
    requires FactsReadable(env, kv)
    ensures StoredFacts(env, kv, AllFacts(env))
  {
    forall i | 0 <= i < |env.sources| ensures AllFacts(env)[i] == (env.sources[i].url, FactText(env, env.sources[i])) {
      FactsAt(env, |env.sources|, i);
    }
  }

  /** The three steps that write one text each. */
  lemma OutlineExplained(env: Env, w: World)
    requires Explained(env, w.kv, w.files) && Early(env, 3, w.kv, w.files) && FactsReadable(env, w.kv)
    ensures Explained(env, w.kv[OutlineKey := Text(OutlineText(env))], w.files)
  {
    var kv' := w.kv[OutlineKey := Text(OutlineText(env))];
    AllFactsStored(env, w.kv);
    SameFacts(env, w.kv, kv');
    assert StoredFacts(env, kv', AllFacts(env));
    PutExplained(env, w.kv, w.files, OutlineKey, Text(OutlineText(env)));
  }

  lemma ReportExplained(env: Env, w: World)
    requires Explained(env, w.kv, w.files) && Early(env, 4, w.kv, w.files) && FactsReadable(env, w.kv)
    requires OutlineKey in w.kv && w.kv[OutlineKey] == Text(OutlineText(env))
    ensures Explained(env, w.kv, w.files[ReportFile := ReportText(env)])
  {
    AllFactsStored(env, w.kv);
    WriteExplained(env, w.kv, w.files, ReportFile, ReportText(env));
  }

  lemma FinalExplained(env: Env, w: World)
    requires Explained(env, w.kv, w.files) && ReportFile in w.files && w.files[ReportFile] == ReportText(env)
    ensures Explained(env, w.kv, w.files[FinalFile := FinalText(env)])
  {
    WriteExplained(env, w.kv, w.files, FinalFile, FinalText(env));
  }

  lemma TextExplained(env: Env, c: nat, w: World, op: Op)
    requires Explained(env, w.kv, w.files) && 3 <= c <= 5 && op == TextOp(env, c)
    requires Early(env, c, w.kv, w.files) && Readable(env, c, w.kv, w.files)
    ensures Explained(env, Apply(w, op).kv, Apply(w, op).files)
  {
    if c == 3 {
      OutlineExplained(env, w);
    } else if c == 4 {
      ReportExplained(env, w);
    } else {
      FinalExplained(env, w);
    }
  }

  function TextOp(env: Env, c: nat): Op {
    if c == 3 then Put(OutlineKey, Text(OutlineText(env)))
    else if c == 4 then Write(ReportFile, ReportText(env))
    else Write(FinalFile, FinalText(env))
  }

  lemma OnlyText(env: Env, c: nat, k: nat)
    requires 3 <= c < STEPS && k < |StepOps(env, c)|
    ensures StepOps(env, c)[k] == TextOp(env, c)
  {
  }

  lemma NextExplained(env: Env, w: World, c: nat, k: nat, op: Op)
    requires Explained(env, w.kv, w.files) && c < STEPS && k < |StepOps(env, c)| && op == StepOps(env, c)[k]
    requires Early(env, c, w.kv, w.files) && Readable(env, c, w.kv, w.files)
    requires c == 1 ==> MarksWritten(env, w, k)
    ensures Explained(env, Apply(w, op).kv, Apply(w, op).files)
  {
    if c == 0 {
      IndexExplained(env, w, k);
    } else if c == 1 {
      FetchExplained(env, w, k);
    } else if c == 2 {
      ExtractExplained(env, w, k);
    } else {
      OnlyText(env, c, k);
      TextExplained(env, c, w, op);
    }
  }

  /** A page is written before its metadata is marked as fetched. */
  ghost predicate MarksWritten(env: Env, w: World, k: nat)
    requires k < |StepOps(env, 1)|
  {
    k % 2 == 1 ==> StepOps(env, 1)[k - 1].Write? && StepOps(env, 1)[k - 1].path in w.files
  }

  // ----- any run -----

  /** However many of its writes step `c` has done. */
  lemma {:induction false} WritesExplained(env: Env, w: World, c: nat, k: nat)
    requires env.Valid() && c < STEPS && Resumable(CanonOf(env), c, w.kv, w.files) && k <= |StepOps(env, c)|
    requires Explained(env, w.kv, w.files)
    ensures var w' := Exec(w, StepOps(env, c)[..k]); Explained(env, w'.kv, w'.files)
    decreases k
  {
    if k > 0 {
      WritesExplained(env, w, c, k - 1);
      var w' := Exec(w, StepOps(env, c)[..k - 1]);
      WritesKeep(env, w, c, k - 1);
      ResumableReadable(env, c, w'.kv, w'.files);
      ResumableEarly(env, c, w'.kv, w'.files);
      if c == 1 { PageWritten(env, w, k - 1); }
      NextExplained(env, w', c, k - 1, StepOps(env, c)[k - 1]);
      ExecNext(w, StepOps(env, c), k - 1);
    }
  }

  lemma ResumableEarly(env: Env, c: nat, kv: map<Key, Value>, files: map<Path, string>)
    requires env.Valid() && Resumable(CanonOf(env), c, kv, files)
    ensures Early(env, c, kv, files)
  {
    KeysAre(env, c + 1);
  }

  lemma PageWritten(env: Env, w: World, k: nat)
    requires k < |StepOps(env, 1)|
    ensures MarksWritten(env, Exec(w, StepOps(env, 1)[..k]), k)
  {
    if k % 2 == 1 {
      PageFirst(env, k);
      ExecNext(w, StepOps(env, 1), k - 1);
    }
  }

  lemma PageFirst(env: Env, k: nat)
    requires k < |StepOps(env, 1)| && k % 2 == 1
    ensures StepOps(env, 1)[k - 1].Write?
  {
    FetchOpsAt(env, |env.sources|, 0);
    FetchOpsAt(env, |env.sources|, k - 1);
  }

  /** The invariant of the schedules, with every stored value explained. */
  ghost predicate FullInv(env: Env, w: World, c: nat) {
    Inv(CanonOf(env), w, c) && Explained(env, w.kv, w.files)
  }

  lemma BlockExplained(env: Env, w: World, c: nat, b: nat)
    requires env.Valid() && FullInv(env, w, c) && c < STEPS && b <= |Block(PlanOf(env), c)|
    ensures var w' := Exec(w, Block(PlanOf(env), c)[..b]); Explained(env, w'.kv, w'.files)
  {
    var n := |StepOps(env, c)|;
    if 0 < b <= n + 1 {
      StartedExplained(env, w, c, b - 1);
    } else if b > 0 {
      StartedExplained(env, w, c, n);
      CommitKeepsStores(w, Block(PlanOf(env), c), n, c, b);
    }
  }

  lemma StartedExplained(env: Env, w: World, c: nat, k: nat)
    requires env.Valid() && FullInv(env, w, c) && c < STEPS && k <= |StepOps(env, c)|
    ensures var w' := Exec(w, Block(PlanOf(env), c)[..k + 1]); Explained(env, w'.kv, w'.files)
  {
    var start := [Start(StepAt(c))];
    var w1 := Apply(w, Start(StepAt(c)));
    assert Exec(w, start) == w1 by { assert start[..0] == []; }
    assert Block(PlanOf(env), c)[..k + 1] == start + StepOps(env, c)[..k];
    ExecAppend(w, start, StepOps(env, c)[..k]);
    WritesExplained(env, w1, c, k);
  }

  lemma CommitKeepsStores(w: World, block: seq<Op>, n: nat, c: nat, b: nat)
    requires |block| == n + 3 && block[n + 1] == Snap(StepAt(c)) && block[n + 2] == Complete && n + 1 < b <= n + 3
    ensures var before, after := Exec(w, block[..n + 1]), Exec(w, block[..b]);
            after.kv == before.kv && after.files == before.files
  {
    ExecNext(w, block, n + 1);
    if b == n + 3 { ExecNext(w, block, n + 2); }
  }

  lemma RunExplained(env: Env, w: World, inv: Invocation)
    requires env.Valid() && FullInv(env, w, NextIndex(w.steps))
    ensures var w' := RunOnce(env, w, inv); FullInv(env, w', NextIndex(w'.steps))
  {
    var plan, canon, c := PlanOf(env), CanonOf(env), NextIndex(w.steps);
    var script := Script(plan, c, inv.crashAt);
    var b := if inv.budget < |script| then inv.budget else |script|;
    var full := (w: World, c: nat) => FullInv(env, w, c);
    RunSafe(env);
    forall w: World, c: nat, b: nat | full(w, c) && c < STEPS && b <= |Block(plan, c)|
      ensures full(Exec(w, Block(plan, c)[..b]), DoneInBlock(plan, c, b))
    {
      assert SafeStep(canon, plan, c);
      BlockPrefix(canon, plan, w, c, b);
      BlockExplained(env, w, c, b);
    }
    ScriptKeeps(full, plan, w, c, inv.crashAt, b);
    assert script[..|script|] == script;
    RunOnceGood(env, w, inv);
  }

  /** In every state any schedule of crashes can reach: whatever is stored is explained by the sources and by what else
      is stored, down to the prompts that carry the stored facts... */
  lemma ReachableExplained(env: Env, schedule: seq<Invocation>)
    requires env.Valid()
    ensures Explained(env, RunAll(env, schedule).kv, RunAll(env, schedule).files)
  {
    FreshGood(env);
    forall w: World, inv: Invocation | FullInv(env, w, NextIndex(w.steps))
      ensures FullInv(env, RunOnce(env, w, inv), NextIndex(RunOnce(env, w, inv).steps))
    {
      RunExplained(env, w, inv);
    }
    FoldKeeps((w: World, inv: Invocation) => RunOnce(env, w, inv),
              (w: World) => FullInv(env, w, NextIndex(w.steps)), FRESH, schedule);
  }

  /** ... and everything the completed steps write is there, every page marked as fetched. */
  lemma ReachableStored(env: Env, schedule: seq<Invocation>)
    requires env.Valid()
    ensures var w := RunAll(env, schedule);
            var c := NextIndex(w.steps);
            && (forall key :: key in w.kv ==> KeyAt(env, c + 1, key))
            && (forall key :: KeyAt(env, c, key) ==> key in w.kv)
            && (forall path :: path in w.files ==> PathAt(env, c + 1, path))
            && (forall path :: PathAt(env, c, path) ==> path in w.files)
            && (c >= 2 ==> forall i :: 0 <= i < |env.sources| ==>
                  var s := env.sources[i];
                  MetaKey(s.url) in w.kv && w.kv[MetaKey(s.url)] == Meta(s.title, s.snippet, true))
  {
    ReachableGood(env, schedule);
    var w := RunAll(env, schedule);
    StageStored(env, w, NextIndex(w.steps));
    FetchedMarked(env, w, NextIndex(w.steps));
  }

  lemma StageStored(env: Env, w: World, c: nat)
    requires env.Valid() && Resumable(CanonOf(env), c, w.kv, w.files)
    ensures forall key :: (key in w.kv ==> KeyAt(env, c + 1, key)) && (KeyAt(env, c, key) ==> key in w.kv)
    ensures forall path :: (path in w.files ==> PathAt(env, c + 1, path)) && (PathAt(env, c, path) ==> path in w.files)
  {
    KeysAre(env, c);
    KeysAre(env, c + 1);
  }

  lemma FetchedMarked(env: Env, w: World, c: nat)
    requires env.Valid() && Resumable(CanonOf(env), c, w.kv, w.files)
    ensures c >= 2 ==> forall i :: 0 <= i < |env.sources| ==>
              var s := env.sources[i];
              MetaKey(s.url) in w.kv && w.kv[MetaKey(s.url)] == Meta(s.title, s.snippet, true)
  {
    StepKeys(env, c);
    forall i | 0 <= i < |env.sources| ensures HasSource(env, c, env.sources[i]) { SourceContents(env, c, i); }
  }

  /** A finished workspace: the outline and the report answer prompts with the facts as they are stored, the report with
      the outline as it is stored, and the final report with the report. */
  lemma FinishedFromFacts(env: Env, schedule: seq<Invocation>)
    requires env.Valid() && RunAll(env, schedule).status == CompletedWorkflow
    ensures var w := RunAll(env, schedule);
            && OutlineKey in w.kv && ReportFile in w.files && FinalFile in w.files
            && OutlineOf(env, w.kv, w.kv[OutlineKey]) && ReportOf(env, w.kv, w.files[ReportFile])
            && w.files[FinalFile] == env.llm(PolishPrompt(env.topic, w.files[ReportFile]))
  {
    var w := RunAll(env, schedule);
    ReachableGood(env, schedule);
    ReachableExplained(env, schedule);
    ReachableStored(env, schedule);
    assert KeyAt(env, STEPS, OutlineKey) && PathAt(env, STEPS, ReportFile) && PathAt(env, STEPS, FinalFile);
    assert KvExplained(env, w.kv, w.files, OutlineKey);
    assert FileExplained(env, w.kv, w.files, ReportFile) && FileExplained(env, w.kv, w.files, FinalFile);
  }

  /** What each step asks the model, read off the finished workspace. */
  lemma PromptsAre(env: Env, schedule: seq<Invocation>)
    requires env.Valid() && RunAll(env, schedule).status == CompletedWorkflow
    ensures var w := RunAll(env, schedule);
            && StepPrompts(env, 0) == [DiscoverPrompt(env.topic)] && StepPrompts(env, 1) == []
            && |StepPrompts(env, 2)| == |env.sources|
            && (forall i :: 0 <= i < |env.sources| ==>
                  var s := env.sources[i];
                  PageFile(env.slug(s.url)) in w.files
                  && StepPrompts(env, 2)[i] == ExtractPrompt(s.title, s.url, w.files[PageFile(env.slug(s.url))]))
            && (exists facts :: StoredFacts(env, w.kv, facts) && OutlineKey in w.kv && w.kv[OutlineKey].Text?
                  && StepPrompts(env, 3) == [OutlinePrompt(env.topic, facts)]
                  && StepPrompts(env, 4) == [WritePrompt(env.topic, w.kv[OutlineKey].text, facts)])
            && ReportFile in w.files && StepPrompts(env, 5) == [PolishPrompt(env.topic, w.files[ReportFile])]
  {
    var w := RunAll(env, schedule);
    ReachableGood(env, schedule);
    FinishedContent(env, schedule);
    Contents(env, STEPS);
    FinishedFacts(env, w);
    forall i | 0 <= i < |env.sources|
      ensures var s := env.sources[i];
              PageFile(env.slug(s.url)) in w.files && |StepPrompts(env, 2)| == |env.sources|
              && StepPrompts(env, 2)[i] == ExtractPrompt(s.title, s.url, w.files[PageFile(env.slug(s.url))])
    {
      SourceContents(env, STEPS, i);
      ExtractPromptsAt(env, |env.sources|, i);
    }
  }

  lemma FinishedFacts(env: Env, w: World)
    requires env.Valid() && w.kv == KvAt(env, STEPS)
    ensures StoredFacts(env, w.kv, AllFacts(env))
  {
    forall i | 0 <= i < |env.sources| ensures HasSource(env, STEPS, env.sources[i]) { SourceContents(env, STEPS, i); }
    AllFactsStored(env, w.kv);
  }

  lemma {:induction false} ExtractPromptsAt(env: Env, n: nat, i: nat)
    requires i < n <= |env.sources|
    ensures |ExtractPrompts(env, n)| == n
    ensures ExtractPrompts(env, n)[i] == ExtractionPrompt(env, env.sources[i])
  {
    if n > 1 { ExtractPromptsAt(env, n - 1, if i < n - 1 then i else 0); }
  }

  // ----- the log, entry by entry -----

  /** The snapshot lists exactly what `c` completed steps write. */
  ghost predicate ListsStage(env: Env, s: Snapshot, c: nat) {
    (forall key :: key in s.kvKeys <==> KeyAt(env, c, key))
    && forall path :: path in s.filePaths <==> PathAt(env, c, path)
  }

  /** Entry `j` of the log is a completed attempt at step `m`. */
  predicate CompletedAt(steps: seq<StepInfo>, m: nat, j: int) {
    0 <= j < |steps| && steps[j].name == StepAt(m) && steps[j].status == Completed
  }

  lemma {:induction false} CompletedNamesIn(steps: seq<StepInfo>, m: nat)
    ensures StepAt(m) in CompletedNames(steps) <==> exists j :: CompletedAt(steps, m, j)
    decreases |steps|
  {
    if steps != [] {
      var n := |steps| - 1;
      CompletedNamesIn(steps[..n], m);
      if j :| CompletedAt(steps[..n], m, j) { assert CompletedAt(steps, m, j); }
      if j :| CompletedAt(steps, m, j) { assert j == n || CompletedAt(steps[..n], m, j); }
      if CompletedAt(steps, m, n) { assert steps[n].name == StepAt(m); }
    }
  }

  /** In every reachable state: a step of the manifest comes before the next one exactly when the log has a completed
      entry of its name, and that entry's snapshot is in the store and lists exactly that stage. */
  lemma ReachableEntries(env: Env, schedule: seq<Invocation>, m: nat)
    requires env.Valid() && m < STEPS
    ensures var w := RunAll(env, schedule);
            && (m < NextIndex(w.steps) <==> exists j :: CompletedAt(w.steps, m, j))
            && forall j :: CompletedAt(w.steps, m, j) ==>
                 exists s :: s in w.snapshots && Some(s.id) == w.steps[j].snapshot && s.after == StepAt(m)
                             && ListsStage(env, s, m + 1)
  {
    ReachableGood(env, schedule);
    var w := RunAll(env, schedule);
    CompletedCount(env, w, m);
    forall j | CompletedAt(w.steps, m, j)
      ensures exists s :: s in w.snapshots && Some(s.id) == w.steps[j].snapshot && s.after == StepAt(m)
                          && ListsStage(env, s, m + 1)
    {
      EntrySnapshot(env, w, m, j);
    }
  }

  lemma CompletedCount(env: Env, w: World, m: nat)
    requires Good(CanonOf(env), w) && m < STEPS
    ensures m < NextIndex(w.steps) <==> exists j :: CompletedAt(w.steps, m, j)
  {
    CompletedIsPrefix(CanonOf(env), w.steps, w.snapshots);
    PrefixMembers(CompletedNames(w.steps));
    ResumesAfterPrefix(CanonOf(env), w.steps, w.snapshots);
    CompletedNamesIn(w.steps, m);
  }

  lemma EntrySnapshot(env: Env, w: World, m: nat, j: nat)
    requires env.Valid() && Good(CanonOf(env), w) && m < STEPS && CompletedAt(w.steps, m, j)
    ensures exists s :: s in w.snapshots && Some(s.id) == w.steps[j].snapshot && s.after == StepAt(m)
                        && ListsStage(env, s, m + 1)
  {
    EntryStored(CanonOf(env), w, m, j);
    StageListed(env, m, w.steps[j].snapshot.value);
  }

  lemma EntryStored(canon: Canon, w: World, m: nat, j: nat)
    requires LogOk(canon, w.steps, w.snapshots) && m < STEPS && CompletedAt(w.steps, m, j)
    ensures w.steps[j].snapshot.Some? && SnapshotOf(canon, m, w.steps[j].snapshot.value) in w.snapshots
  {
    LogAt(canon, w.steps, w.snapshots, j);
    CompletedBefore(canon, w, j);
    ManifestDistinct();
  }

  lemma StageListed(env: Env, m: nat, id: nat)
    requires env.Valid()
    ensures ListsStage(env, SnapshotOf(CanonOf(env), m, id), m + 1)
  {
    KeysAre(env, m + 1);
  }

  lemma CompletedBefore(canon: Canon, w: World, j: nat)
    requires LogOk(canon, w.steps, w.snapshots) && j < |w.steps|
    ensures w.steps[j].name == StepAt(|CompletedNames(w.steps[..j])|) && |CompletedNames(w.steps[..j])| < STEPS
  {
    LogAt(canon, w.steps, w.snapshots, j);
  }

  /** Attempts of a step are numbered from 1 without a gap. */
  lemma AttemptsCount(env: Env, schedule: seq<Invocation>, i: nat, j: nat)
    requires env.Valid() && i <= j < |RunAll(env, schedule).steps|
    requires var steps := RunAll(env, schedule).steps; forall k :: i < k < j ==> steps[k].name != steps[j].name
    ensures var steps := RunAll(env, schedule).steps;
            && (i == 0 && (i == j || steps[0].name != steps[j].name) ==> steps[j].attempt == 1)
            && (i < j && steps[i].name == steps[j].name ==> steps[j].attempt == steps[i].attempt + 1)
  {
    ReachableGood(env, schedule);
    var w := RunAll(env, schedule);
    LogAt(CanonOf(env), w.steps, w.snapshots, i);
    LogAt(CanonOf(env), w.steps, w.snapshots, j);
    AttemptsAfter(w.steps, i, j, w.steps[j].name);
  }

  lemma {:induction false} AttemptsAfter(steps: seq<StepInfo>, i: nat, j: nat, name: StepName)
    requires i <= j <= |steps| && i < |steps| && forall k :: i < k < j ==> steps[k].name != name
    ensures Attempts(steps[..i], name) + (if i < j && steps[i].name == name then 1 else 0) == Attempts(steps[..j], name)
    decreases j - i
  {
    if i < j {
      assert steps[..j][..j - 1] == steps[..j - 1];
      AttemptsAfter(steps, i, j - 1, name);
    }
  }
}
