/** What the disk may look like at any moment of any schedule of crashes. */
module ResumeState {
  import opened ResumeModel
  import opened ResumeLog

  // ----- the net effect of a list of writes -----

  predicate OnlyWrites(ops: seq<Op>) {
    forall op | op in ops :: op.Put? || op.Write?
  }

  function KvPart(ops: seq<Op>): map<Key, Value> {
    if ops == [] then map[]
    else
      var last := ops[|ops| - 1];
      var before := KvPart(ops[..|ops| - 1]);
      if last.Put? then before[last.key := last.value] else before
  }

  function FilePart(ops: seq<Op>): map<Path, string> {
    if ops == [] then map[]
    else
      var last := ops[|ops| - 1];
      var before := FilePart(ops[..|ops| - 1]);
      if last.Write? then before[last.path := last.content] else before
  }

  lemma {:induction false} PartsAppend(a: seq<Op>, b: seq<Op>)
    ensures KvPart(a + b) == KvPart(a) + KvPart(b)
    ensures FilePart(a + b) == FilePart(a) + FilePart(b)
    decreases |b|
  {
    if b == [] {
      assert a + b == a;
    } else {
      assert (a + b)[..|a + b| - 1] == a + b[..|b| - 1];
      PartsAppend(a, b[..|b| - 1]);
    }
  }

  /** Writes leave the step log and the snapshots alone and overlay the two stores. */
  lemma {:induction false} ExecWrites(w: World, ops: seq<Op>)
    requires OnlyWrites(ops)
    ensures Exec(w, ops) == w.(kv := w.kv + KvPart(ops), files := w.files + FilePart(ops))
    decreases |ops|
  {
    if ops == [] {
      assert w.kv + map[] == w.kv && w.files + map[] == w.files;
    } else {
      var n := |ops| - 1;
      assert forall op | op in ops[..n] :: op in ops;
      ExecWrites(w, ops[..n]);
      assert ops[n] in ops;
      match ops[n] {
        case Put(key, value) =>
          assert (w.kv + KvPart(ops[..n]))[key := value] == w.kv + KvPart(ops[..n])[key := value];
        case Write(path, content) =>
          assert (w.files + FilePart(ops[..n]))[path := content] == w.files + FilePart(ops[..n])[path := content];
      }
    }
  }

  lemma {:induction false} PrefixKeys(ops: seq<Op>, k: nat)
    requires k <= |ops|
    ensures KvPart(ops[..k]).Keys <= KvPart(ops).Keys
    ensures FilePart(ops[..k]).Keys <= FilePart(ops).Keys
  {
    assert ops == ops[..k] + ops[k..];
    PartsAppend(ops[..k], ops[k..]);
  }

  lemma {:induction false} PartKeys(ops: seq<Op>)
    ensures forall key :: key in KvPart(ops) <==> exists op :: op in ops && op.Put? && op.key == key
    ensures forall path :: path in FilePart(ops) <==> exists op :: op in ops && op.Write? && op.path == path
    ensures forall key :: key in KvPart(ops) ==> Put(key, KvPart(ops)[key]) in ops
    decreases |ops|
  {
    if ops != [] {
      var n := |ops| - 1;
      PartKeys(ops[..n]);
      assert ops == ops[..n] + [ops[n]];
    }
  }

  // ----- the canonical content after `c` completed steps -----

  function AllOps(env: Env, c: nat): seq<Op> {
    if c == 0 then [] else AllOps(env, c - 1) + StepOps(env, c - 1)
  }

  function KvAt(env: Env, c: nat): map<Key, Value> { KvPart(AllOps(env, c)) }
  function FilesAt(env: Env, c: nat): map<Path, string> { FilePart(AllOps(env, c)) }

  lemma AtNext(env: Env, c: nat)
    ensures KvAt(env, c + 1) == KvAt(env, c) + KvPart(StepOps(env, c))
    ensures FilesAt(env, c + 1) == FilesAt(env, c) + FilePart(StepOps(env, c))
  {
    PartsAppend(AllOps(env, c), StepOps(env, c));
  }

  // ----- what each step writes -----

  lemma {:induction false} IndexPart(env: Env, n: nat)
    requires env.Valid() && n <= |env.sources|
    ensures FilePart(IndexOps(env, n)) == map[]
    ensures forall op | op in IndexOps(env, n) ::
              op.Put? && (op.key == TopicKey || op.key == SourcesKey || op.key.MetaKey?)
    ensures var m := KvPart(IndexOps(env, n));
            && TopicKey in m && m[TopicKey] == Text(env.topic)
            && SourcesKey in m && m[SourcesKey] == UrlList(env.Urls())
            && forall i :: 0 <= i < n ==>
                 var s := env.sources[i]; MetaKey(s.url) in m && m[MetaKey(s.url)] == Meta(s.title, s.snippet, false)
  {
    if n == 0 {
      PartsAppend([Put(TopicKey, Text(env.topic))], [Put(SourcesKey, UrlList(env.Urls()))]);
      SinglePart(Put(TopicKey, Text(env.topic)));
      SinglePart(Put(SourcesKey, UrlList(env.Urls())));
      assert IndexOps(env, 0) == [Put(TopicKey, Text(env.topic))] + [Put(SourcesKey, UrlList(env.Urls()))];
    } else {
      IndexPart(env, n - 1);
      var s := env.sources[n - 1];
      var last := Put(MetaKey(s.url), Meta(s.title, s.snippet, false));
      PartsAppend(IndexOps(env, n - 1), [last]);
      SinglePart(last);
    }
  }

  /** Every metadata record `fetch` writes is the source's own, marked fetched. */
  ghost predicate FetchOpOk(env: Env, op: Op) {
    match op
    case Write(path, _) => path.PageFile?
    case Put(key, value) =>
      key.MetaKey? && forall i :: 0 <= i < |env.sources| && env.sources[i].url == key.url ==>
        value == Meta(env.sources[i].title, env.sources[i].snippet, true)
    case _ => false
  }

  lemma {:induction false} FetchShape(env: Env, n: nat)
    requires env.Valid() && n <= |env.sources|
    ensures forall op | op in FetchOps(env, n) :: FetchOpOk(env, op)
  {
    if n != 0 {
      FetchShape(env, n - 1);
      var s := env.sources[n - 1];
      forall op | op in FetchOps(env, n) ensures FetchOpOk(env, op) {
        assert op in FetchOps(env, n - 1) || op == Write(env.Path(s.url), s.content)
               || op == Put(MetaKey(s.url), Meta(s.title, s.snippet, true));
      }
    }
  }

  lemma {:induction false} FetchPart(env: Env, n: nat)
    requires env.Valid() && n <= |env.sources|
    ensures FilePart(FetchOps(env, n)) == PagesUpTo(env, n)
    ensures forall i :: 0 <= i < n ==>
              var s := env.sources[i];
              && MetaKey(s.url) in KvPart(FetchOps(env, n))
              && KvPart(FetchOps(env, n))[MetaKey(s.url)] == Meta(s.title, s.snippet, true)
              && env.Path(s.url) in PagesUpTo(env, n)
  {
    if n != 0 {
      FetchPart(env, n - 1);
      var s := env.sources[n - 1];
      var page, meta := Write(env.Path(s.url), s.content), Put(MetaKey(s.url), Meta(s.title, s.snippet, true));
      assert FetchOps(env, n) == FetchOps(env, n - 1) + [page] + [meta];
      PartsAppend(FetchOps(env, n - 1), [page]);
      PartsAppend(FetchOps(env, n - 1) + [page], [meta]);
      SinglePart(page);
      SinglePart(meta);
    }
  }

  lemma {:induction false} ExtractPart(env: Env, n: nat)
    requires env.Valid() && n <= |env.sources|
    ensures FilePart(ExtractOps(env, n)) == map[]
    ensures forall op | op in ExtractOps(env, n) :: op.Put? && op.key.FactsKey?
    ensures forall i :: 0 <= i < n ==>
              var s := env.sources[i];
              && FactsKey(s.url) in KvPart(ExtractOps(env, n))
              && KvPart(ExtractOps(env, n))[FactsKey(s.url)] == Text(FactText(env, s))
  {
    if n != 0 {
      ExtractPart(env, n - 1);
      var s := env.sources[n - 1];
      var last := Put(FactsKey(s.url), Text(FactText(env, s)));
      PartsAppend(ExtractOps(env, n - 1), [last]);
      SinglePart(last);
    }
  }

  lemma SinglePart(op: Op)
    requires op.Put? || op.Write?
    ensures KvPart([op]) == if op.Put? then map[op.key := op.value] else map[]
    ensures FilePart([op]) == if op.Write? then map[op.path := op.content] else map[]
  {
    assert [op][..0] == [];
    assert KvPart([op][..0]) == map[] && FilePart([op][..0]) == map[];
  }

  lemma StepOnlyWrites(env: Env, c: nat)
    requires env.Valid()
    ensures OnlyWrites(StepOps(env, c))
  {
    if c == 0 { IndexPart(env, |env.sources|); }
    if c == 1 { FetchShape(env, |env.sources|); }
    if c == 2 { ExtractPart(env, |env.sources|); }
  }

  // ----- the invariant on the two stores -----

  ghost function CanonOf(env: Env): Canon {
    Canon(env.sources, (i: nat) => KvAt(env, i), (i: nat) => FilesAt(env, i),
          (i: nat) => KvPart(StepOps(env, i)), (i: nat) => FilePart(StepOps(env, i)))
  }

  lemma CanonAdvances(env: Env, c: nat)
    ensures Advances(CanonOf(env), c)
  {
    AtNext(env, c);
  }

  lemma PartialMeta(env: Env, kv: map<Key, Value>, k: nat)
    requires env.Valid() && MetaReadable(env.sources, kv) && k <= |StepOps(env, 1)|
    ensures MetaReadable(env.sources, kv + KvPart(StepOps(env, 1)[..k]))
  {
    var ops := StepOps(env, 1)[..k];
    FetchShape(env, |env.sources|);
    PartKeys(ops);
    forall i | 0 <= i < |env.sources| && MetaKey(env.sources[i].url) in KvPart(ops)
      ensures KvPart(ops)[MetaKey(env.sources[i].url)] == Meta(env.sources[i].title, env.sources[i].snippet, true)
    {
      var key := MetaKey(env.sources[i].url);
      var op := Put(key, KvPart(ops)[key]);
      assert op in ops && op in FetchOps(env, |env.sources|);
      assert FetchOpOk(env, op);
    }
  }

  // ----- what a step can rely on reading -----

  /** The keys step `c` writes, by kind. */
  lemma StepKeys(env: Env, c: nat)
    requires env.Valid()
    ensures forall key :: key in KvPart(StepOps(env, c)) ==>
              && (key.MetaKey? ==> c <= 1)
              && (key.FactsKey? ==> c == 2)
              && (key == SourcesKey ==> c == 0)
              && (key == OutlineKey ==> c == 3)
    ensures forall path :: path in FilePart(StepOps(env, c)) ==>
              && (path == ReportFile ==> c == 4)
              && (path == FinalFile ==> c == 5)
              && (c == 1 || c == 4 || c == 5)
    ensures forall u: string {:trigger env.Path(u)} :: env.Path(u) in FilePart(StepOps(env, c)) ==> c == 1
  {
    PartKeys(StepOps(env, c));
    match c {
      case 0 => IndexPart(env, |env.sources|);
      case 1 => FetchShape(env, |env.sources|);
      case 2 => ExtractPart(env, |env.sources|);
      case 3 | 4 | 5 => SinglePart(StepOps(env, c)[0]);
      case _ =>
    }
  }

  /** The canonical content, key by key. */
  ghost predicate HasContents(env: Env, c: nat) {
    && (c >= 1 ==> SourcesKey in KvAt(env, c) && KvAt(env, c)[SourcesKey] == UrlList(env.Urls()))
    && (c >= 4 ==> OutlineKey in KvAt(env, c) && KvAt(env, c)[OutlineKey] == Text(OutlineText(env)))
    && (c >= 5 ==> ReportFile in FilesAt(env, c) && FilesAt(env, c)[ReportFile] == ReportText(env))
    && (c >= 6 ==> FinalFile in FilesAt(env, c) && FilesAt(env, c)[FinalFile] == FinalText(env))
  }

  ghost predicate HasSource(env: Env, c: nat, s: Source) {
    && (c >= 1 ==> MetaKey(s.url) in KvAt(env, c) && KvAt(env, c)[MetaKey(s.url)] == Meta(s.title, s.snippet, c >= 2))
    && (c >= 2 ==> env.Path(s.url) in FilesAt(env, c)
                   && FilesAt(env, c)[env.Path(s.url)] == PageText(env, env.Path(s.url)))
    && (c >= 3 ==> FactsKey(s.url) in KvAt(env, c) && KvAt(env, c)[FactsKey(s.url)] == Text(FactText(env, s)))
  }

  lemma {:induction false} Contents(env: Env, c: nat)
    requires env.Valid()
    ensures HasContents(env, c)
  {
    if c > 0 {
      Contents(env, c - 1);
      AtNext(env, c - 1);
      StepKeys(env, c - 1);
      StepValues(env, c - 1);
    }
  }

  lemma {:induction false} SourceContents(env: Env, c: nat, i: nat)
    requires env.Valid() && i < |env.sources|
    ensures HasSource(env, c, env.sources[i])
  {
    if c > 0 {
      SourceContents(env, c - 1, i);
      AtNext(env, c - 1);
      StepKeys(env, c - 1);
      StepValues(env, c - 1);
    }
  }

  lemma StepValues(env: Env, c: nat)
    requires env.Valid()
    ensures c == 0 ==>
              SourcesKey in KvPart(StepOps(env, c))
              && KvPart(StepOps(env, c))[SourcesKey] == UrlList(env.Urls())
    ensures forall i :: 0 <= i < |env.sources| ==>
              var s := env.sources[i];
              && (c <= 1 ==> MetaKey(s.url) in KvPart(StepOps(env, c))
                             && KvPart(StepOps(env, c))[MetaKey(s.url)] == Meta(s.title, s.snippet, c == 1))
              && (c == 1 ==> env.Path(s.url) in FilePart(StepOps(env, c))
                             && FilePart(StepOps(env, c))[env.Path(s.url)] == PageText(env, env.Path(s.url)))
              && (c == 2 ==> FactsKey(s.url) in KvPart(StepOps(env, c))
                             && KvPart(StepOps(env, c))[FactsKey(s.url)] == Text(FactText(env, s)))
    ensures c == 3 ==> KvPart(StepOps(env, c)) == map[OutlineKey := Text(OutlineText(env))]
    ensures c == 4 ==> FilePart(StepOps(env, c)) == map[ReportFile := ReportText(env)]
    ensures c == 5 ==> FilePart(StepOps(env, c)) == map[FinalFile := FinalText(env)]
  {
    IndexPart(env, |env.sources|);
    FetchPart(env, |env.sources|);
    ExtractPart(env, |env.sources|);
    if 3 <= c <= 5 { SinglePart(StepOps(env, c)[0]); }
  }

  /** Whatever step `c` itself has already written, the keys it reads hold the canonical values. */
  ghost predicate Readable(env: Env, c: nat, kv: map<Key, Value>, files: map<Path, string>) {
    && (c >= 1 ==> SourcesKey in kv && kv[SourcesKey] == UrlList(env.Urls()))
    && (c >= 1 ==> MetaReadable(env.sources, kv))
    && (c == 2 ==> PagesReadable(env, files))
    && (c >= 3 ==> FactsReadable(env, kv))
    && (c >= 4 ==> OutlineKey in kv && kv[OutlineKey] == Text(OutlineText(env)))
    && (c == 5 ==> ReportFile in files && files[ReportFile] == ReportText(env))
  }

  ghost predicate PagesReadable(env: Env, files: map<Path, string>) {
    forall i :: 0 <= i < |env.sources| ==>
      var path := env.Path(env.sources[i].url); path in files && files[path] == PageText(env, path)
  }

  ghost predicate FactsReadable(env: Env, kv: map<Key, Value>) {
    forall i :: 0 <= i < |env.sources| ==>
      var s := env.sources[i]; FactsKey(s.url) in kv && kv[FactsKey(s.url)] == Text(FactText(env, s))
  }

  lemma ResumableReadable(env: Env, c: nat, kv: map<Key, Value>, files: map<Path, string>)
    requires env.Valid() && Resumable(CanonOf(env), c, kv, files) && c < STEPS
    ensures Readable(env, c, kv, files)
  {
    Contents(env, c);
    StepKeys(env, c);
    ReadableSources(env, c, kv, files);
  }

  lemma ReadableSources(env: Env, c: nat, kv: map<Key, Value>, files: map<Path, string>)
    requires env.Valid() && Resumable(CanonOf(env), c, kv, files) && c < STEPS
    ensures c >= 1 ==> MetaReadable(env.sources, kv)
    ensures c == 2 ==> PagesReadable(env, files)
    ensures c >= 3 ==> FactsReadable(env, kv)
  {
    StepKeys(env, c);
    forall i | 0 <= i < |env.sources| ensures HasSource(env, c, env.sources[i]) { SourceContents(env, c, i); }
  }

  lemma CanonMeta(env: Env)
    requires env.Valid()
    ensures MetaReadable(env.sources, KvAt(env, 1))
  {
    forall i | 0 <= i < |env.sources| ensures HasSource(env, 1, env.sources[i]) { SourceContents(env, 1, i); }
  }

  /** Dying anywhere inside a step leaves the disk where the step can be redone; redoing it over any of its
      own leftovers gives the canonical content of the next stage. */
  lemma WritesKeep(env: Env, w: World, c: nat, k: nat)
    requires env.Valid() && Resumable(CanonOf(env), c, w.kv, w.files) && k <= |StepOps(env, c)|
    ensures var w' := Exec(w, StepOps(env, c)[..k]);
            && Resumable(CanonOf(env), c, w'.kv, w'.files)
            && w' == w.(kv := w'.kv, files := w'.files)
            && (k == |StepOps(env, c)| ==> w'.kv == CanonOf(env).kv(c + 1) && w'.files == CanonOf(env).files(c + 1))
  {
    StepOnlyWrites(env, c);
    var all := StepOps(env, c);
    var ops := all[..k];
    assert forall op | op in ops :: op in all;
    ExecWrites(w, ops);
    CanonAdvances(env, c);
    PrefixKeys(all, k);
    if c == 1 { PartialMeta(env, w.kv, k); }
    OverlayKeeps(CanonOf(env), c, w.kv, w.files, KvPart(ops), FilePart(ops));
    if k == |all| {
      assert ops == all;
      OverlayRestores(CanonOf(env), c, w.kv, w.files);
    }
  }
}
