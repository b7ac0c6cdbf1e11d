/** The resumable research workflow as a sequence of durable operations.

    Each operation is one write-tmp-then-replace of a state file, so it either happened or it did not;
    the process may die between any two of them. */
module ResumeModel {
  import opened Wrappers

  // ----- the work: sources, prompts, model answers -----

  datatype Source = Source(url: string, title: string, snippet: string, content: string)

  /** The varying parts of the prompts the six steps send. */
  datatype Prompt =
    | DiscoverPrompt(topic: string)
    | ExtractPrompt(title: string, url: string, content: string)
    | OutlinePrompt(topic: string, facts: seq<(string, string)>)
    | WritePrompt(topic: string, outline: string, facts: seq<(string, string)>)
    | PolishPrompt(topic: string, draft: string)

  /** Everything a run depends on besides the disk: the topic, the fixture sources for it, and the
      deterministic functions for file names, answers and token counts. */
  datatype Env = Env(
    topic: string,
    sources: seq<Source>,
    slug: string -> string,
    llm: Prompt -> string,
    promptTokens: Prompt -> nat,
    responseTokens: string -> nat)
  {
    ghost predicate Valid() {
      forall i, j :: 0 <= i < j < |sources| ==> sources[i].url != sources[j].url
    }

    function Urls(): seq<string> {
      seq(|sources|, i requires 0 <= i < |sources| => sources[i].url)
    }

    function Path(url: string): Path {
      PageFile(slug(url))
    }
  }

  // ----- the disk -----

  /** Step names; `Other` stands for any name outside the manifest. */
  datatype StepName = Discover | Fetch | Extract | Outline | WriteUp | Polish | Other(name: string)

  /** The keys and file paths the steps use.  `KeyName` and `PathName` give the strings. */
  datatype Key = TopicKey | SourcesKey | MetaKey(url: string) | FactsKey(url: string) | OutlineKey

  datatype Path = PageFile(slug: string) | ReportFile | FinalFile

  function KeyName(key: Key): string {
    match key
    case TopicKey => "topic"
    case SourcesKey => "sources"
    case MetaKey(url) => "sources/meta/" + url
    case FactsKey(url) => "facts/" + url
    case OutlineKey => "outline"
  }

  function PathName(path: Path): string {
    match path
    case PageFile(slug) => "sources/" + slug + ".txt"
    case ReportFile => "report.md"
    case FinalFile => "final.md"
  }

  datatype Value =
    | Text(text: string)
    | UrlList(urls: seq<string>)
    | Meta(title: string, snippet: string, fetched: bool)

  datatype Snapshot = Snapshot(id: nat, after: StepName, kvKeys: set<Key>, filePaths: set<Path>)

  datatype StepStatus = Running | Completed | Failed

  datatype StepInfo = StepInfo(id: nat, name: StepName, status: StepStatus, attempt: nat, snapshot: Option<nat>)

  datatype WorkflowStatus = PendingWorkflow | RunningWorkflow | CompletedWorkflow

  /** Both state files of one workspace, and the source of fresh ids. */
  datatype World = World(
    kv: map<Key, Value>,
    files: map<Path, string>,
    snapshots: seq<Snapshot>,
    steps: seq<StepInfo>,
    status: WorkflowStatus,
    nextId: nat)

  const STEPS: nat := 6

  /** The manifest: the name of step `i`. */
  function StepAt(i: nat): StepName {
    match i
    case 0 => Discover
    case 1 => Fetch
    case 2 => Extract
    case 3 => Outline
    case 4 => WriteUp
    case 5 => Polish
    case _ => Other("")
  }

  const FRESH := World(map[], map[], [], [], PendingWorkflow, 0)

  /** No two keys and no two paths share a string, so naming them structurally loses nothing. */
  lemma NamesAreInjective(k1: Key, k2: Key, p1: Path, p2: Path)
    ensures KeyName(k1) == KeyName(k2) ==> k1 == k2
    ensures PathName(p1) == PathName(p2) ==> p1 == p2
  {
    KeyShape(k1);
    KeyShape(k2);
    PathShape(p1);
    PathShape(p2);
  }

  lemma KeyShape(k: Key)
    ensures KeyName(k)[0] == match k
            case TopicKey => 't'
            case SourcesKey => 's'
            case MetaKey(_) => 's'
            case FactsKey(_) => 'f'
            case OutlineKey => 'o'
    ensures k.SourcesKey? ==> |KeyName(k)| == 7
    ensures k.MetaKey? ==> |KeyName(k)| >= 13 && KeyName(k)[13..] == k.url
    ensures k.FactsKey? ==> KeyName(k)[6..] == k.url
  {
  }

  lemma PathShape(p: Path)
    ensures PathName(p)[0] == match p case PageFile(_) => 's' case ReportFile => 'r' case FinalFile => 'f'
    ensures p.PageFile? ==> PathName(p)[8..|PathName(p)| - 4] == p.slug
  {
  }

  // ----- durable operations -----

  datatype Op =
    | Put(key: Key, value: Value)
    | Write(path: Path, content: string)
    | Start(name: StepName)
    | Snap(after: StepName)
    | Complete

  function CompletedNames(steps: seq<StepInfo>): (names: seq<StepName>)
    ensures |names| <= |steps|
  {
    if steps == [] then []
    else
      var last := steps[|steps| - 1];
      CompletedNames(steps[..|steps| - 1]) + if last.status == Completed then [last.name] else []
  }

  function Attempts(steps: seq<StepInfo>, name: StepName): nat {
    if steps == [] then 0
    else Attempts(steps[..|steps| - 1], name) + if steps[|steps| - 1].name == name then 1 else 0
  }

  predicate AllCompleted(steps: seq<StepInfo>) {
    forall i :: 0 <= i < STEPS ==> StepAt(i) in CompletedNames(steps)
  }

  function StartEntry(w: World, name: StepName): StepInfo {
    StepInfo(w.nextId, name, Running, 1 + Attempts(w.steps, name), None)
  }

  function Apply(w: World, op: Op): World {
    match op
    case Put(key, value) => w.(kv := w.kv[key := value])
    case Write(path, content) => w.(files := w.files[path := content])
    case Start(name) =>
      w.(steps := w.steps + [StartEntry(w, name)], status := RunningWorkflow, nextId := w.nextId + 1)
    case Snap(after) =>
      w.(snapshots := w.snapshots + [Snapshot(w.nextId, after, w.kv.Keys, w.files.Keys)], nextId := w.nextId + 1)
    case Complete =>
      if w.steps == [] || w.snapshots == [] then w
      else
        var last := |w.steps| - 1;
        var done := w.steps[last].(status := Completed, snapshot := Some(w.snapshots[|w.snapshots| - 1].id));
        var steps := w.steps[last := done];
        w.(steps := steps, status := if AllCompleted(steps) then CompletedWorkflow else RunningWorkflow)
  }

  function Exec(w: World, ops: seq<Op>): World {
    if ops == [] then w else Apply(Exec(w, ops[..|ops| - 1]), ops[|ops| - 1])
  }

  lemma {:induction false} ExecAppend(w: World, a: seq<Op>, b: seq<Op>)
    ensures Exec(w, a + b) == Exec(Exec(w, a), b)
    decreases |b|
  {
    if b == [] {
      assert a + b == a;
    } else {
      var n := |b| - 1;
      assert (a + b)[..|a + b| - 1] == a + b[..n];
      ExecAppend(w, a, b[..n]);
    }
  }

  /** One process, given `b0` durable operations before the machine dies, went from `w0` to `w1` with
      `b1` left: either it executed all of `ops`, or it died exactly when the budget ran out. */
  ghost predicate Ran(w0: World, w1: World, b0: nat, b1: nat, ops: seq<Op>, died: bool) {
    if died then b0 < |ops| && b1 == 0 && w1 == Exec(w0, ops[..b0])
    else b0 == b1 + |ops| && w1 == Exec(w0, ops)
  }

  lemma RanOne(w0: World, w1: World, b0: nat, b1: nat, op: Op)
    requires b0 == b1 + 1 && w1 == Apply(w0, op)
    ensures Ran(w0, w1, b0, b1, [op], false)
  {
    assert [op][..0] == [];
    assert Exec(w0, [op]) == Apply(Exec(w0, []), op);
  }

  lemma RanThen(w0: World, w1: World, w2: World, b0: nat, b1: nat, b2: nat, first: seq<Op>, next: seq<Op>, died: bool)
    requires Ran(w0, w1, b0, b1, first, false)
    requires Ran(w1, w2, b1, b2, next, died)
    ensures Ran(w0, w2, b0, b2, first + next, died)
  {
    if died {
      assert (first + next)[..b0] == first + next[..b1];
      ExecAppend(w0, first, next[..b1]);
    } else {
      ExecAppend(w0, first, next);
    }
  }

  lemma RanDied(w0: World, w1: World, b0: nat, ops: seq<Op>, all: seq<Op>)
    requires Ran(w0, w1, b0, 0, ops, true)
    requires ops <= all
    ensures Ran(w0, w1, b0, 0, all, true)
  {
    assert all[..b0] == ops[..b0];
  }

  // ----- what each step is meant to write -----

  function PagesUpTo(env: Env, n: nat): map<Path, string>
    requires n <= |env.sources|
  {
    if n == 0 then map[]
    else PagesUpTo(env, n - 1)[env.Path(env.sources[n - 1].url) := env.sources[n - 1].content]
  }

  /** The page stored under `path` once every source is fetched; with colliding slugs the last one wins. */
  function PageText(env: Env, path: Path): string {
    var pages := PagesUpTo(env, |env.sources|);
    if path in pages then pages[path] else ""
  }

  function ExtractionPrompt(env: Env, s: Source): Prompt {
    ExtractPrompt(s.title, s.url, PageText(env, env.Path(s.url)))
  }

  function FactText(env: Env, s: Source): string {
    env.llm(ExtractionPrompt(env, s))
  }

  function FactList(env: Env, n: nat): (facts: seq<(string, string)>)
    requires n <= |env.sources|
    ensures |facts| == n
  {
    if n == 0 then []
    else FactList(env, n - 1) + [(env.sources[n - 1].url, FactText(env, env.sources[n - 1]))]
  }

  function AllFacts(env: Env): seq<(string, string)> { FactList(env, |env.sources|) }
  function OutlineText(env: Env): string { env.llm(OutlinePrompt(env.topic, AllFacts(env))) }
  function ReportText(env: Env): string { env.llm(WritePrompt(env.topic, OutlineText(env), AllFacts(env))) }
  function FinalText(env: Env): string { env.llm(PolishPrompt(env.topic, ReportText(env))) }

  function IndexOps(env: Env, n: nat): seq<Op>
    requires n <= |env.sources|
  {
    if n == 0 then [Put(TopicKey, Text(env.topic)), Put(SourcesKey, UrlList(env.Urls()))]
    else
      var s := env.sources[n - 1];
      IndexOps(env, n - 1) + [Put(MetaKey(s.url), Meta(s.title, s.snippet, false))]
  }

  function FetchOps(env: Env, n: nat): seq<Op>
    requires n <= |env.sources|
  {
    if n == 0 then []
    else
      var s := env.sources[n - 1];
      FetchOps(env, n - 1) +
      [Write(env.Path(s.url), s.content), Put(MetaKey(s.url), Meta(s.title, s.snippet, true))]
  }

  function ExtractOps(env: Env, n: nat): seq<Op>
    requires n <= |env.sources|
  {
    if n == 0 then []
    else
      var s := env.sources[n - 1];
      ExtractOps(env, n - 1) + [Put(FactsKey(s.url), Text(FactText(env, s)))]
  }

  /** The writes of step `i` of the manifest. */
  function StepOps(env: Env, i: nat): seq<Op> {
    match i
    case 0 => IndexOps(env, |env.sources|)
    case 1 => FetchOps(env, |env.sources|)
    case 2 => ExtractOps(env, |env.sources|)
    case 3 => [Put(OutlineKey, Text(OutlineText(env)))]
    case 4 => [Write(ReportFile, ReportText(env))]
    case 5 => [Write(FinalFile, FinalText(env))]
    case _ => []
  }

  /** What each step of the manifest writes. */
  type Plan = nat -> seq<Op>

  function PlanOf(env: Env): Plan { (i: nat) => StepOps(env, i) }

  /** The durable operations of one run that starts at step `i` of the manifest. */
  function Script(plan: Plan, i: nat, crashAt: Option<StepName>): seq<Op>
    requires i <= STEPS
    decreases STEPS - i
  {
    if i == STEPS then []
    else if crashAt == Some(StepAt(i)) then [Start(StepAt(i))] + plan(i)
    else Block(plan, i) + Script(plan, i + 1, crashAt)
  }

  function Block(plan: Plan, i: nat): seq<Op> {
    [Start(StepAt(i))] + plan(i) + [Snap(StepAt(i)), Complete]
  }

  /** Where `resume_info` sends the next run: the first manifest name with no completed entry. */
  function NextIndex(steps: seq<StepInfo>): (i: nat)
    ensures i <= STEPS
  {
    FirstMissing(CompletedNames(steps), 0)
  }

  function FirstMissing(names: seq<StepName>, from: nat): (i: nat)
    requires from <= STEPS
    ensures from <= i <= STEPS
    decreases |names| + STEPS - from
  {
    if from == STEPS || StepAt(from) !in names then from else FirstMissing(names, from + 1)
  }

  lemma {:induction false} FirstMissingIs(names: seq<StepName>, from: nat)
    requires from <= STEPS
    ensures var i := FirstMissing(names, from);
            (forall j :: from <= j < i ==> StepAt(j) in names) && (i < STEPS ==> StepAt(i) !in names)
    decreases STEPS - from
  {
    if from < STEPS && StepAt(from) in names { FirstMissingIs(names, from + 1); }
  }

  // ----- the tokens of each step -----

  function ExtractPrompts(env: Env, n: nat): seq<Prompt>
    requires n <= |env.sources|
  {
    if n == 0 then [] else ExtractPrompts(env, n - 1) + [ExtractionPrompt(env, env.sources[n - 1])]
  }

  function StepPrompts(env: Env, i: nat): seq<Prompt> {
    match i
    case 0 => [DiscoverPrompt(env.topic)]
    case 2 => ExtractPrompts(env, |env.sources|)
    case 3 => [OutlinePrompt(env.topic, AllFacts(env))]
    case 4 => [WritePrompt(env.topic, OutlineText(env), AllFacts(env))]
    case 5 => [PolishPrompt(env.topic, ReportText(env))]
    case _ => []
  }

  function InputTokens(env: Env, prompts: seq<Prompt>): nat {
    if prompts == [] then 0
    else InputTokens(env, prompts[..|prompts| - 1]) + env.promptTokens(prompts[|prompts| - 1])
  }

  function OutputTokens(env: Env, prompts: seq<Prompt>): nat {
    if prompts == [] then 0
    else OutputTokens(env, prompts[..|prompts| - 1]) + env.responseTokens(env.llm(prompts[|prompts| - 1]))
  }

  function StepTokens(env: Env, i: nat): nat {
    InputTokens(env, StepPrompts(env, i)) + OutputTokens(env, StepPrompts(env, i))
  }

  /** The tokens of steps `i`, `i + 1`, ..., `j - 1`. */
  function TokensBetween(env: Env, i: nat, j: nat): nat
    requires i <= j
  {
    if i == j then 0 else TokensBetween(env, i, j - 1) + StepTokens(env, j - 1)
  }
}
