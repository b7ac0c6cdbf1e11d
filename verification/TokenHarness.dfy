/** Baseline against scoped reads: the token cost of a workflow. */
module TokenHarness {
  import opened Wrappers

  const HANDLE: nat := 30
  const SUMMARY: nat := 300
  const SLICE: nat := 1500

  /** `slice` is the read mode; anything but "slice" reads a summary. */
  datatype Step = Step(id: string, produces: nat, overhead: nat, requires_: seq<string>, slice: bool)

  datatype StepResult = StepResult(id: string, baselineInput: nat, plinthInput: nat, output: nat)

  datatype Result = Result(steps: seq<StepResult>, baselineInput: nat, plinthInput: nat, output: nat)

  function Min(a: nat, b: nat): nat { if a < b then a else b }

  // ----- looking steps up by id -----

  /** `by_id`: the last step with this id. */
  function Find(steps: seq<Step>, id: string): Option<Step> {
    if steps == [] then None
    else if steps[|steps| - 1].id == id then Some(steps[|steps| - 1])
    else Find(steps[..|steps| - 1], id)
  }

  ghost predicate Known(steps: seq<Step>, id: string) {
    exists i :: 0 <= i < |steps| && steps[i].id == id
  }

  lemma {:induction false} FindKnown(steps: seq<Step>, id: string)
    ensures Find(steps, id).Some? <==> Known(steps, id)
    ensures Find(steps, id).Some? ==> Find(steps, id).value in steps && Find(steps, id).value.id == id
    decreases |steps|
  {
    if steps != [] {
      var n := |steps| - 1;
      FindKnown(steps[..n], id);
      if Known(steps, id) && steps[n].id != id {
        var i :| 0 <= i < |steps| && steps[i].id == id;
        assert steps[..n][i].id == id;
      }
      if Known(steps[..n], id) {
        var i :| 0 <= i < n && steps[..n][i].id == id;
        assert steps[i].id == id;
      }
    }
  }

  /** With several steps of one id the last one counts. */
  lemma {:induction false} FindIsLast(steps: seq<Step>, i: nat)
    requires i < |steps| && forall j :: i < j < |steps| ==> steps[j].id != steps[i].id
    ensures Find(steps, steps[i].id) == Some(steps[i])
    decreases |steps|
  {
    var n := |steps| - 1;
    if i < n {
      assert steps[..n][i] == steps[i];
      FindIsLast(steps[..n], i);
    }
  }

  // ----- what the totals should be -----

  function ReadCost(step: Step, produced: nat): nat {
    Min(if step.slice then SLICE else SUMMARY, produced)
  }

  function Produced(steps: seq<Step>, id: string): nat {
    match Find(steps, id)
    case Some(s) => s.produces
    case None => 0
  }

  function EdgeCosts(steps: seq<Step>, step: Step, n: nat): nat
    requires n <= |step.requires_|
  {
    if n == 0 then 0
    else EdgeCosts(steps, step, n - 1) + HANDLE + ReadCost(step, Produced(steps, step.requires_[n - 1]))
  }

  function Outputs(steps: seq<Step>, n: nat): nat
    requires n <= |steps|
  {
    if n == 0 then 0 else Outputs(steps, n - 1) + steps[n - 1].produces
  }

  function Overheads(steps: seq<Step>, n: nat): nat
    requires n <= |steps|
  {
    if n == 0 then 0 else Overheads(steps, n - 1) + steps[n - 1].overhead
  }

  function BaselineInput(steps: seq<Step>, n: nat): nat
    requires n <= |steps|
  {
    if n == 0 then 0 else BaselineInput(steps, n - 1) + steps[n - 1].overhead + Outputs(steps, n - 1)
  }

  function PlinthInput(steps: seq<Step>, n: nat): nat
    requires n <= |steps|
  {
    if n == 0 then 0
    else
      var step := steps[n - 1];
      PlinthInput(steps, n - 1) + step.overhead + EdgeCosts(steps, step, |step.requires_|)
  }

  /** Every required id names a step, so no lookup misses. */
  ghost predicate Closed(steps: seq<Step>) {
    forall i, j :: 0 <= i < |steps| && 0 <= j < |steps[i].requires_| ==> Known(steps, steps[i].requires_[j])
  }

  /** Computes the two totals; None is the original's KeyError on an unknown id. */
  method Run(steps: seq<Step>) returns (r: Option<Result>)
    ensures r.Some? <==> Closed(steps)
    ensures r.Some? ==>
              && |r.value.steps| == |steps|
              && r.value.baselineInput == BaselineInput(steps, |steps|)
              && r.value.plinthInput == PlinthInput(steps, |steps|)
              && r.value.output == Outputs(steps, |steps|)
              && forall i :: 0 <= i < |steps| ==> r.value.steps[i] == ResultOf(steps, i)
  {
    ClosedIff(steps);
    var out := Result([], 0, 0, 0);
    var cumulative := 0;
    for i := 0 to |steps|
      invariant cumulative == Outputs(steps, i)
      invariant out.baselineInput == BaselineInput(steps, i) && out.plinthInput == PlinthInput(steps, i)
      invariant out.output == Outputs(steps, i)
      invariant |out.steps| == i && forall k :: 0 <= k < i ==> out.steps[k] == ResultOf(steps, k)
      invariant forall k :: 0 <= k < i ==> ClosedAt(steps, k)
    {
      var baseline := steps[i].overhead + cumulative;
      var plinth := Reads(steps, i);
      if plinth == None { return None; }
      out := Result(out.steps + [StepResult(steps[i].id, baseline, plinth.value, steps[i].produces)],
                    out.baselineInput + baseline, out.plinthInput + plinth.value, out.output + steps[i].produces);
      cumulative := cumulative + steps[i].produces;
    }
    r := Some(out);
  }

  ghost predicate ClosedAt(steps: seq<Step>, i: nat)
    requires i < |steps|
  {
    forall j :: 0 <= j < |steps[i].requires_| ==> Known(steps, steps[i].requires_[j])
  }

  lemma ClosedIff(steps: seq<Step>)
    ensures Closed(steps) <==> forall i :: 0 <= i < |steps| ==> ClosedAt(steps, i)
  {
    if Closed(steps) {
      forall i | 0 <= i < |steps| ensures ClosedAt(steps, i) {}
    }
    if forall i :: 0 <= i < |steps| ==> ClosedAt(steps, i) {
      forall i, j | 0 <= i < |steps| && 0 <= j < |steps[i].requires_| ensures Known(steps, steps[i].requires_[j]) {
        assert ClosedAt(steps, i);
      }
    }
  }

  function ResultOf(steps: seq<Step>, i: nat): StepResult
    requires i < |steps|
  {
    StepResult(steps[i].id, steps[i].overhead + Outputs(steps, i),
               steps[i].overhead + EdgeCosts(steps, steps[i], |steps[i].requires_|), steps[i].produces)
  }

  method Reads(steps: seq<Step>, i: nat) returns (cost: Option<nat>)
    requires i < |steps|
    ensures cost.Some? <==> ClosedAt(steps, i)
    ensures cost.Some? ==> cost.value == steps[i].overhead + EdgeCosts(steps, steps[i], |steps[i].requires_|)
  {
    var step := steps[i];
    var plinth := step.overhead;
    for j := 0 to |step.requires_|
      invariant plinth == step.overhead + EdgeCosts(steps, step, j)
      invariant forall k :: 0 <= k < j ==> Known(steps, step.requires_[k])
    {
      var req := Find(steps, step.requires_[j]);
      FindKnown(steps, step.requires_[j]);
      if req == None { return None; }
      plinth := plinth + HANDLE + Min(if step.slice then SLICE else SUMMARY, req.value.produces);
    }
    return Some(plinth);
  }

  // ----- the baseline is quadratic -----

  /** Output `i` is sent again with each of the `n - 1 - i` later prompts. */
  function Carried(steps: seq<Step>, n: nat, i: nat): nat
    requires i <= n <= |steps|
  {
    if i == 0 then 0 else Carried(steps, n, i - 1) + (n - i) * steps[i - 1].produces
  }

  lemma {:induction false} CarriedGrows(steps: seq<Step>, n: nat, i: nat)
    requires i <= n < |steps|
    ensures Carried(steps, n + 1, i) == Carried(steps, n, i) + Outputs(steps, i)
  {
    if i > 0 {
      CarriedGrows(steps, n, i - 1);
      var p := steps[i - 1].produces;
      assert (n + 1 - i) * p == (n - i) * p + p;
    }
  }

  lemma {:induction false} BaselineIsQuadratic(steps: seq<Step>, n: nat)
    requires n <= |steps|
    ensures BaselineInput(steps, n) == Overheads(steps, n) + Carried(steps, n, n)
  {
    if n > 0 {
      BaselineIsQuadratic(steps, n - 1);
      CarriedGrows(steps, n - 1, n - 1);
      assert Carried(steps, n, n) == Carried(steps, n, n - 1) + 0 * steps[n - 1].produces;
    }
  }

  // ----- how much scoped reads can cost -----

  ghost predicate UniqueIds(steps: seq<Step>) {
    forall i, j :: 0 <= i < j < |steps| ==> steps[i].id != steps[j].id
  }

  /** Every dependency is an earlier step. */
  ghost predicate EarlierDeps(steps: seq<Step>) {
    forall i, j :: 0 <= i < |steps| && 0 <= j < |steps[i].requires_| ==> Known(steps[..i], steps[i].requires_[j])
  }

  ghost predicate WellFormed(steps: seq<Step>) {
    UniqueIds(steps) && EarlierDeps(steps)
  }

  predicate Distinct(ids: seq<string>) {
    forall i, j :: 0 <= i < j < |ids| ==> ids[i] != ids[j]
  }

  /** No step lists the same requirement twice. */
  ghost predicate DistinctRequires(steps: seq<Step>) {
    forall i :: 0 <= i < |steps| ==> Distinct(steps[i].requires_)
  }

  function Edges(steps: seq<Step>, n: nat): nat
    requires n <= |steps|
  {
    if n == 0 then 0 else Edges(steps, n - 1) + |steps[n - 1].requires_|
  }

  /** On a well-formed scenario no lookup misses. */
  lemma WellFormedCloses(steps: seq<Step>)
    requires EarlierDeps(steps)
    ensures Closed(steps)
  {
    forall i, j | 0 <= i < |steps| && 0 <= j < |steps[i].requires_| ensures Known(steps, steps[i].requires_[j]) {
      var k :| 0 <= k < i && steps[..i][k].id == steps[i].requires_[j];
      assert steps[k].id == steps[i].requires_[j];
    }
  }

  function Total(ids: seq<string>, steps: seq<Step>): nat {
    if ids == [] then 0 else Total(ids[..|ids| - 1], steps) + Produced(steps, ids[|ids| - 1])
  }

  lemma FindUnique(steps: seq<Step>, i: nat)
    requires UniqueIds(steps) && i < |steps|
    ensures Find(steps, steps[i].id) == Some(steps[i])
  {
    FindIsLast(steps, i);
  }

  /** The ids without the one at position `k`. */
  function Removed(ids: seq<string>, k: nat): seq<string>
    requires k < |ids|
  {
    ids[..k] + ids[k + 1..]
  }

  lemma {:induction false} TotalRemoved(ids: seq<string>, k: nat, steps: seq<Step>)
    requires k < |ids|
    ensures Total(ids, steps) == Total(Removed(ids, k), steps) + Produced(steps, ids[k])
    decreases |ids|
  {
    var n := |ids| - 1;
    if k == n {
      assert Removed(ids, k) == ids[..n];
    } else {
      TotalRemoved(ids[..n], k, steps);
      assert ids[..n][..k] == ids[..k] && ids[..n][k + 1..] == ids[k + 1..n];
      var r := Removed(ids, k);
      assert r[..|r| - 1] == Removed(ids[..n], k);
    }
  }

  /** What the first `n` steps produce for nobody in `ids`. */
  function Unasked(ids: seq<string>, steps: seq<Step>, n: nat): nat
    requires n <= |steps|
  {
    if n == 0 then 0 else Unasked(ids, steps, n - 1) + if steps[n - 1].id in ids then 0 else steps[n - 1].produces
  }

  lemma {:induction false} UnaskedRemoved(ids: seq<string>, k: nat, steps: seq<Step>, n: nat)
    requires n <= |steps| && k < |ids| && forall j :: 0 <= j < n ==> steps[j].id != ids[k]
    ensures Unasked(Removed(ids, k), steps, n) == Unasked(ids, steps, n)
  {
    if n > 0 {
      UnaskedRemoved(ids, k, steps, n - 1);
      assert ids == ids[..k] + [ids[k]] + ids[k + 1..];
    }
  }

  lemma {:induction false} UnaskedNone(steps: seq<Step>, n: nat)
    requires n <= |steps|
    ensures Unasked([], steps, n) == Outputs(steps, n)
  {
    if n > 0 { UnaskedNone(steps, n - 1); }
  }

  /** What the first `n` steps produce is what distinct required ids among them produce and what nobody asks for. */
  lemma {:induction false} TotalSplits(ids: seq<string>, steps: seq<Step>, n: nat)
    requires UniqueIds(steps) && n <= |steps| && Distinct(ids)
    requires forall j :: 0 <= j < |ids| ==> Known(steps[..n], ids[j])
    ensures Total(ids, steps) + Unasked(ids, steps, n) == Outputs(steps, n)
    decreases n
  {
    if ids == [] {
      UnaskedNone(steps, n);
    } else if k: nat :| n > 0 && k < |ids| && ids[k] == steps[n - 1].id {
      TotalRemoved(ids, k, steps);
      FindUnique(steps, n - 1);
      KnownBefore(Removed(ids, k), steps, n);
      TotalSplits(Removed(ids, k), steps, n - 1);
      UnaskedRemoved(ids, k, steps, n - 1);
    } else {
      var i :| 0 <= i < n && steps[..n][i].id == ids[0];
      KnownBefore(ids, steps, n);
      TotalSplits(ids, steps, n - 1);
    }
  }

  lemma KnownBefore(ids: seq<string>, steps: seq<Step>, n: nat)
    requires 0 < n <= |steps| && forall j :: 0 <= j < |ids| ==> Known(steps[..n], ids[j]) && ids[j] != steps[n - 1].id
    ensures forall j :: 0 <= j < |ids| ==> Known(steps[..n - 1], ids[j])
  {
    forall j | 0 <= j < |ids| ensures Known(steps[..n - 1], ids[j]) {
      var i :| 0 <= i < n && steps[..n][i].id == ids[j];
      assert steps[..n - 1][i].id == ids[j];
    }
  }

  /** What the reads of the first `n` requirements leave out, each being cut off at the cap. */
  function CutOff(steps: seq<Step>, step: Step, n: nat): nat
    requires n <= |step.requires_|
  {
    if n == 0 then 0
    else
      var cap, produced := if step.slice then SLICE else SUMMARY, Produced(steps, step.requires_[n - 1]);
      CutOff(steps, step, n - 1) + if produced > cap then produced - cap else 0
  }

  /** Each requirement costs its handle and its output, as far as the read is not cut off. */
  lemma {:induction false} EdgesAre(steps: seq<Step>, step: Step, n: nat)
    requires n <= |step.requires_|
    ensures EdgeCosts(steps, step, n) + CutOff(steps, step, n) == Total(step.requires_[..n], steps) + HANDLE * n
    ensures (forall j :: 0 <= j < n ==> Produced(steps, step.requires_[j]) >= SLICE + HANDLE) ==>
              EdgeCosts(steps, step, n) <= Total(step.requires_[..n], steps)
    decreases n
  {
    if n > 0 {
      EdgesAre(steps, step, n - 1);
      assert step.requires_[..n][..n - 1] == step.requires_[..n - 1];
    }
  }

  /** Every required output has at least 1530 tokens. */
  ghost predicate LargeOutputs(steps: seq<Step>) {
    forall i, j :: 0 <= i < |steps| && 0 <= j < |steps[i].requires_| ==>
      Produced(steps, steps[i].requires_[j]) >= SLICE + HANDLE
  }

  /** Scoped reads cost at most the baseline plus one handle per edge, and at most the baseline when every required
      output has 1530 tokens or more. */
  lemma {:induction false} PlinthWithinBaseline(steps: seq<Step>, n: nat)
    requires WellFormed(steps) && DistinctRequires(steps) && n <= |steps|
    ensures PlinthInput(steps, n) <= BaselineInput(steps, n) + HANDLE * Edges(steps, n)
    ensures LargeOutputs(steps) ==> PlinthInput(steps, n) <= BaselineInput(steps, n)
  {
    if n > 0 {
      PlinthWithinBaseline(steps, n - 1);
      var step := steps[n - 1];
      assert step.requires_[..|step.requires_|] == step.requires_;
      EdgesAre(steps, step, |step.requires_|);
      TotalSplits(step.requires_, steps, n - 1);
    }
  }

  // ----- when the bound is reached -----

  /** Everything an earlier step produced is asked for. */
  predicate AsksForAll(ids: seq<string>, steps: seq<Step>, n: nat)
    requires n <= |steps|
  {
    forall k :: 0 <= k < n && steps[k].produces > 0 ==> steps[k].id in ids
  }

  lemma {:induction false} UnaskedIff(ids: seq<string>, steps: seq<Step>, n: nat)
    requires n <= |steps|
    ensures Unasked(ids, steps, n) == 0 <==> AsksForAll(ids, steps, n)
  {
    if n > 0 { UnaskedIff(ids, steps, n - 1); }
  }

  /** No read is cut short. */
  predicate ReadsInFull(steps: seq<Step>, step: Step, n: nat)
    requires n <= |step.requires_|
  {
    forall j :: 0 <= j < n ==>
      Produced(steps, step.requires_[j]) <= if step.slice then SLICE else SUMMARY
  }

  lemma {:induction false} CutOffIff(steps: seq<Step>, step: Step, n: nat)
    requires n <= |step.requires_|
    ensures CutOff(steps, step, n) == 0 <==> ReadsInFull(steps, step, n)
    decreases n
  {
    if n > 0 { CutOffIff(steps, step, n - 1); }
  }

  /** A step that gains nothing from scoped reads: it reads all there is, and all of it in full. */
  predicate GainsNothing(steps: seq<Step>, i: nat)
    requires i < |steps|
  {
    AsksForAll(steps[i].requires_, steps, i) && ReadsInFull(steps, steps[i], |steps[i].requires_|)
  }

  predicate NoneGains(steps: seq<Step>, n: nat)
    requires n <= |steps|
  {
    n == 0 || (NoneGains(steps, n - 1) && GainsNothing(steps, n - 1))
  }

  /** How far one step stays below its part of the bound. */
  function Gain(steps: seq<Step>, i: nat): int
    requires i < |steps|
  {
    Outputs(steps, i) + HANDLE * |steps[i].requires_| - EdgeCosts(steps, steps[i], |steps[i].requires_|)
  }

  function Gains(steps: seq<Step>, n: nat): int
    requires n <= |steps|
  {
    if n == 0 then 0 else Gains(steps, n - 1) + Gain(steps, n - 1)
  }

  /** A step gains exactly the earlier outputs it does not ask for and what its reads are cut off. */
  lemma GainIs(steps: seq<Step>, i: nat)
    requires WellFormed(steps) && DistinctRequires(steps) && i < |steps|
    ensures var step := steps[i];
            Gain(steps, i) == Unasked(step.requires_, steps, i) + CutOff(steps, step, |step.requires_|)
  {
    var step := steps[i];
    assert step.requires_[..|step.requires_|] == step.requires_;
    EdgesAre(steps, step, |step.requires_|);
    TotalSplits(step.requires_, steps, i);
  }

  lemma GainIff(steps: seq<Step>, i: nat)
    requires WellFormed(steps) && DistinctRequires(steps) && i < |steps|
    ensures Gain(steps, i) >= 0 && (Gain(steps, i) == 0 <==> GainsNothing(steps, i))
  {
    GainIs(steps, i);
    UnaskedIff(steps[i].requires_, steps, i);
    CutOffIff(steps, steps[i], |steps[i].requires_|);
  }

  lemma {:induction false} GainsAre(steps: seq<Step>, n: nat)
    requires n <= |steps|
    ensures PlinthInput(steps, n) + Gains(steps, n) == BaselineInput(steps, n) + HANDLE * Edges(steps, n)
  {
    if n > 0 { GainsAre(steps, n - 1); }
  }

  lemma {:induction false} GainsZeroIff(steps: seq<Step>, n: nat)
    requires WellFormed(steps) && DistinctRequires(steps) && n <= |steps|
    ensures Gains(steps, n) >= 0 && (Gains(steps, n) == 0 <==> NoneGains(steps, n))
  {
    if n > 0 {
      GainsZeroIff(steps, n - 1);
      GainIff(steps, n - 1);
    }
  }

  /** The bound of one handle per edge is reached exactly when no step gains anything. */
  lemma BoundReachedIff(steps: seq<Step>, n: nat)
    requires WellFormed(steps) && DistinctRequires(steps) && n <= |steps|
    ensures PlinthInput(steps, n) == BaselineInput(steps, n) + HANDLE * Edges(steps, n)
            <==> NoneGains(steps, n)
  {
    GainsAre(steps, n);
    GainsZeroIff(steps, n);
  }

  /** For example, with a small output that the next step reads. */
  lemma HandlesCanCostMore(output: nat)
    requires output <= SUMMARY
    ensures var steps := [Step("a", output, 100, [], false), Step("b", 1, 100, ["a"], false)];
            WellFormed(steps) && PlinthInput(steps, 2) == BaselineInput(steps, 2) + HANDLE
  {
    var steps := [Step("a", output, 100, [], false), Step("b", 1, 100, ["a"], false)];
    assert steps[0].id == "a" && steps[1].id == "b" && steps[..1][0].id == "a";
    FindUnique(steps, 0);
    assert Produced(steps, "a") == output;
    assert steps[1].requires_ == ["a"] && steps[1].requires_[0] == "a";
    assert AsksForAll(["a"], steps, 1) && ReadsInFull(steps, steps[1], 1);
    assert NoneGains(steps, 0) && NoneGains(steps, 1) && NoneGains(steps, 2);
    BoundReachedIff(steps, 2);
    assert Edges(steps, 1) == 0 && Edges(steps, 2) == 1;
  }
}
