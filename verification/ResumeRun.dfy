/** One run of the agent, dying after any number of durable operations. */
module ResumeRun {
  import opened Wrappers
  import opened ResumeModel
  import opened ResumeLog

  /** Dying `k` writes into step `c` leaves it resumable, and all its writes reach the next stage. */
  ghost predicate WritesSafe(canon: Canon, ops: seq<Op>, c: nat, w: World, k: nat)
    requires k <= |ops|
  {
    var w' := Exec(w, ops[..k]);
    && Resumable(canon, c, w'.kv, w'.files)
    && w' == w.(kv := w'.kv, files := w'.files)
    && (k == |ops| ==> w'.kv == canon.kv(c + 1) && w'.files == canon.files(c + 1))
  }

  ghost predicate SafeStep(canon: Canon, plan: Plan, c: nat) {
    && Resumable(canon, c + 1, canon.kv(c + 1), canon.files(c + 1))
    && forall w: World, k: nat {:trigger WritesSafe(canon, plan(c), c, w, k)} ::
         Resumable(canon, c, w.kv, w.files) && k <= |plan(c)| ==>
         WritesSafe(canon, plan(c), c, w, k)
  }

  ghost predicate Safe(canon: Canon, plan: Plan) {
    forall c: nat :: SafeStep(canon, plan, c)
  }

  /** Dying `b` operations into one step's block. */
  lemma BlockPrefix(canon: Canon, plan: Plan, w: World, c: nat, b: nat)
    requires SafeStep(canon, plan, c)
    requires Inv(canon, w, c) && c < STEPS && b <= |Block(plan, c)|
    ensures Inv(canon, Exec(w, Block(plan, c)[..b]), DoneInBlock(plan, c, b))
  {
    var n := |plan(c)|;
    if b == 0 {
    } else if b <= n + 1 {
      BeforeSnap(canon, plan, w, c, b - 1);
    } else {
      BlockTail(canon, plan, w, c, b);
    }
  }

  lemma BlockTail(canon: Canon, plan: Plan, w: World, c: nat, b: nat)
    requires SafeStep(canon, plan, c)
    requires Inv(canon, w, c) && c < STEPS && |plan(c)| + 2 <= b <= |Block(plan, c)|
    ensures Inv(canon, Exec(w, Block(plan, c)[..b]), DoneInBlock(plan, c, b))
  {
    BeforeSnap(canon, plan, w, c, |plan(c)|);
    AfterSnapPrefix(canon, w, Block(plan, c), |plan(c)| + 1, c, b);
  }

  lemma AfterSnapPrefix(canon: Canon, w: World, all: seq<Op>, n: nat, c: nat, b: nat)
    requires |all| == n + 2 && all[n] == Snap(StepAt(c)) && all[n + 1] == Complete
    requires AtSnap(canon, Exec(w, all[..n]), c)
    requires Resumable(canon, c + 1, canon.kv(c + 1), canon.files(c + 1))
    requires n < b <= |all|
    ensures Inv(canon, Exec(w, all[..b]), if b == |all| then c + 1 else c)
  {
    AfterSnap(canon, w, all, n, c);
    if b == |all| { assert all[..b] == all; }
  }

  /** Step `c` has been run in full and is not yet committed. */
  ghost predicate AtSnap(canon: Canon, w: World, c: nat) {
    && Inv(canon, w, c) && Open(w.steps, c)
    && w.kv == canon.kv(c + 1) && w.files == canon.files(c + 1)
  }

  function DoneInBlock(plan: Plan, c: nat, b: nat): nat {
    if b == |Block(plan, c)| then c + 1 else c
  }

  lemma BeforeSnap(canon: Canon, plan: Plan, w: World, c: nat, k: nat)
    requires SafeStep(canon, plan, c)
    requires Inv(canon, w, c) && c < STEPS && k <= |plan(c)|
    ensures var w' := Exec(w, Block(plan, c)[..k + 1]);
            && Inv(canon, w', c) && Open(w'.steps, c)
            && (k == |plan(c)| ==> AtSnap(canon, w', c))
  {
    var start, ops := [Start(StepAt(c))], plan(c);
    StartKeeps(canon, w, c);
    assert start[..0] == [] && Exec(w, start[..0]) == w;
    var w1 := Exec(w, start);
    assert w1 == Apply(w, Start(StepAt(c)));
    assert Block(plan, c)[..k + 1] == start + ops[..k];
    ExecAppend(w, start, ops[..k]);
    assert WritesSafe(canon, plan(c), c, w1, k);
  }

  lemma AfterSnap(canon: Canon, w: World, all: seq<Op>, n: nat, c: nat)
    requires |all| == n + 2 && all[n] == Snap(StepAt(c)) && all[n + 1] == Complete
    requires AtSnap(canon, Exec(w, all[..n]), c)
    requires Resumable(canon, c + 1, canon.kv(c + 1), canon.files(c + 1))
    ensures Inv(canon, Exec(w, all[..n + 1]), c)
    ensures Inv(canon, Exec(w, all), c + 1)
  {
    CommitStep(canon, Exec(w, all[..n]), c);
    ExecTwo(w, all, n, Snap(StepAt(c)), Complete);
  }

  lemma ExecTwo(w: World, ops: seq<Op>, k: nat, a: Op, b: Op)
    requires |ops| == k + 2 && ops[k] == a && ops[k + 1] == b
    ensures Exec(w, ops[..k + 1]) == Apply(Exec(w, ops[..k]), a)
    ensures Exec(w, ops) == Apply(Apply(Exec(w, ops[..k]), a), b)
  {
    ExecNext(w, ops, k);
    ExecNext(w, ops, k + 1);
    assert ops[..k + 2] == ops;
  }

  lemma ExecNext(w: World, ops: seq<Op>, k: nat)
    requires k < |ops|
    ensures Exec(w, ops[..k + 1]) == Apply(Exec(w, ops[..k]), ops[k])
  {
    assert ops[..k + 1][..k] == ops[..k];
  }

  /** How many steps are complete after a run, started with `c` complete, dies `b` operations in. */
  function DoneAfter(plan: Plan, c: nat, crashAt: Option<StepName>, b: nat): (done: nat)
    requires c <= STEPS
    ensures c <= done <= STEPS
    decreases STEPS - c
  {
    if c == STEPS || crashAt == Some(StepAt(c)) || b < |Block(plan, c)| then c
    else DoneAfter(plan, c + 1, crashAt, b - |Block(plan, c)|)
  }

  /** An invariant indexed by the number of complete steps that survives dying anywhere in a block... */
  ghost predicate BlockKeeps(inv: (World, nat) -> bool, plan: Plan) {
    forall w: World, c: nat, b: nat {:trigger Exec(w, Block(plan, c)[..b])} ::
      inv(w, c) && c < STEPS && b <= |Block(plan, c)| ==>
      inv(Exec(w, Block(plan, c)[..b]), DoneInBlock(plan, c, b))
  }

  /** ... survives dying anywhere in a run. */
  lemma {:induction false} ScriptKeeps(inv: (World, nat) -> bool, plan: Plan,
                                       w: World, c: nat, crashAt: Option<StepName>, b: nat)
    requires BlockKeeps(inv, plan)
    requires inv(w, c) && c <= STEPS && b <= |Script(plan, c, crashAt)|
    ensures inv(Exec(w, Script(plan, c, crashAt)[..b]), DoneAfter(plan, c, crashAt, b))
    decreases STEPS - c
  {
    if c < STEPS {
      if crashAt == Some(StepAt(c)) || b < |Block(plan, c)| {
        ScriptHead(plan, c, crashAt, b);
        PartOfBlock(inv, plan, w, c, b);
      } else {
        WholeBlock(inv, plan, w, c);
        ScriptKeeps(inv, plan, Exec(w, Block(plan, c)), c + 1, crashAt, b - |Block(plan, c)|);
        ScriptPrefix(plan, w, c, crashAt, b);
      }
    }
  }

  lemma ScriptHead(plan: Plan, c: nat, crashAt: Option<StepName>, b: nat)
    requires c < STEPS && b <= |Script(plan, c, crashAt)|
    requires crashAt == Some(StepAt(c)) || b < |Block(plan, c)|
    ensures b < |Block(plan, c)| && Script(plan, c, crashAt)[..b] == Block(plan, c)[..b]
    ensures DoneAfter(plan, c, crashAt, b) == c
  {
  }

  lemma PartOfBlock(inv: (World, nat) -> bool, plan: Plan, w: World, c: nat, b: nat)
    requires BlockKeeps(inv, plan) && inv(w, c) && c < STEPS && b < |Block(plan, c)|
    ensures inv(Exec(w, Block(plan, c)[..b]), c)
  {
    assert DoneInBlock(plan, c, b) == c;
  }

  lemma WholeBlock(inv: (World, nat) -> bool, plan: Plan, w: World, c: nat)
    requires BlockKeeps(inv, plan) && inv(w, c) && c < STEPS
    ensures inv(Exec(w, Block(plan, c)), c + 1)
  {
    var first := Block(plan, c);
    assert inv(Exec(w, Block(plan, c)[..|first|]), DoneInBlock(plan, c, |first|));
    assert first[..|first|] == first;
  }

  /** The invariant survives a crash between any two durable operations of a run. */
  lemma RunKeepsInv(canon: Canon, plan: Plan, w: World, c: nat, crashAt: Option<StepName>, b: nat)
    requires Safe(canon, plan)
    requires Inv(canon, w, c) && b <= |Script(plan, c, crashAt)|
    ensures Inv(canon, Exec(w, Script(plan, c, crashAt)[..b]), DoneAfter(plan, c, crashAt, b))
  {
    var inv := (w: World, c: nat) => Inv(canon, w, c);
    forall w: World, c: nat, b: nat | Inv(canon, w, c) && c < STEPS && b <= |Block(plan, c)|
      ensures Inv(canon, Exec(w, Block(plan, c)[..b]), DoneInBlock(plan, c, b))
    {
      assert SafeStep(canon, plan, c);
      BlockPrefix(canon, plan, w, c, b);
    }
    ScriptKeeps(inv, plan, w, c, crashAt, b);
  }

  lemma ScriptPrefix(plan: Plan, w: World, c: nat, crashAt: Option<StepName>, b: nat)
    requires c < STEPS && crashAt != Some(StepAt(c))
    requires |Block(plan, c)| <= b <= |Script(plan, c, crashAt)|
    ensures Exec(w, Script(plan, c, crashAt)[..b])
            == Exec(Exec(w, Block(plan, c)), Script(plan, c + 1, crashAt)[..b - |Block(plan, c)|])
  {
    PrefixOfAppend(w, Block(plan, c), Script(plan, c + 1, crashAt), b);
  }

  lemma PrefixOfAppend(w: World, first: seq<Op>, rest: seq<Op>, b: nat)
    requires |first| <= b <= |first| + |rest|
    ensures Exec(w, (first + rest)[..b]) == Exec(Exec(w, first), rest[..b - |first|])
  {
    assert (first + rest)[..b] == first + rest[..b - |first|];
    ExecAppend(w, first, rest[..b - |first|]);
  }
}
