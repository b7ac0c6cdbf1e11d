/** Perturbing a scenario: dropping steps and varying sizes without breaking its dependency graph. */
module Perturbation {
  import opened Wrappers
  import opened TokenHarness

  /** A count pattern: which ids it matches, and the range its count is drawn from. */
  datatype Pattern = Pattern(matches: string -> bool, low: int, high: int)

  /** `support` marks the customer-support scenario, which drops trailing turns instead. */
  datatype Recipe = Recipe(patterns: seq<Pattern>, support: bool)

  /** What the random generator returns: a count per pattern, the number of turns, and two factors per kept step. */
  datatype Draws = Draws(counts: nat -> int, turns: nat, tokens: nat -> real, overheads: nat -> real)

  // ----- the ids of the customer-support scenario -----

  const NOTE := "ticket_resolution_note"

  predicate OfTurn(id: string, t: nat) {
    var turn := "t" + Numeral(t);
    (turn + "_customer") <= id || (turn + "_reply") <= id || (turn + "_lookup") <= id
  }

  predicate StartsT(id: string) {
    id != "" && id[0] == 't'
  }

  /** The turn of an id of the form t<digits>_reply. */
  function ReplyTurn(id: string): Option<nat> {
    if StartsT(id) && |id| >= 8 && id[|id| - 6..] == "_reply" && AllDigits(id[1..|id| - 6])
    then Some(NumberOf(id[1..|id| - 6])) else None
  }

  // ----- which steps are kept -----

  function Matching(steps: seq<Step>, p: Pattern): (ids: seq<string>)
    ensures forall i :: 0 <= i < |ids| ==> exists j :: 0 <= j < |steps| && steps[j].id == ids[i]
  {
    if steps == [] then []
    else
      var last := steps[|steps| - 1].id;
      Matching(steps[..|steps| - 1], p) + if p.matches(last) then [last] else []
  }

  /** Never none of a pattern that matches something, and never more than there are. */
  function PickCount(available: nat, draw: int): (n: nat)
    ensures n <= available && (available > 0 ==> n >= 1)
  {
    if available == 0 then 0 else if draw < 1 then 1 else if draw > available then available else draw
  }

  function Firsts(ids: seq<string>, n: nat): set<string>
    requires n <= |ids|
  {
    set i | 0 <= i < n :: ids[i]
  }

  /** Keeps the first ids that match the pattern, as many as were drawn. */
  method PickSteps(steps: seq<Step>, p: Pattern, draw: int) returns (kept: set<string>)
    ensures kept == Firsts(Matching(steps, p), PickCount(|Matching(steps, p)|, draw))
  {
    var matching := [];
    for i := 0 to |steps|
      invariant matching == Matching(steps[..i], p)
    {
      assert steps[..i + 1][..i] == steps[..i];
      if p.matches(steps[i].id) { matching := matching + [steps[i].id]; }
    }
    assert steps[..|steps|] == steps;
    if matching == [] { return {}; }
    var target := if draw < |matching| then draw else |matching|;
    if target < 1 { target := 1; }
    kept := Firsts(matching, target);
  }

  predicate AnyMatches(patterns: seq<Pattern>, n: nat, id: string)
    requires n <= |patterns|
  {
    exists i :: 0 <= i < n && patterns[i].matches(id)
  }

  predicate Picked(steps: seq<Step>, patterns: seq<Pattern>, draws: Draws, n: nat, id: string)
    requires n <= |patterns|
  {
    exists i :: 0 <= i < n && id in PickedBy(steps, patterns[i], draws.counts(i))
  }

  function PickedBy(steps: seq<Step>, p: Pattern, draw: int): set<string> {
    Firsts(Matching(steps, p), PickCount(|Matching(steps, p)|, draw))
  }

  predicate KeptTurn(draws: Draws, id: string) {
    id == NOTE || !StartsT(id) || exists t :: 1 <= t <= draws.turns && OfTurn(id, t)
  }

  /** Whether a step with this id survives. */
  predicate Keeps(steps: seq<Step>, recipe: Recipe, draws: Draws, id: string) {
    if recipe.support then KeptTurn(draws, id)
    else
      Picked(steps, recipe.patterns, draws, |recipe.patterns|, id)
      || !AnyMatches(recipe.patterns, |recipe.patterns|, id)
  }

  method KeptIds(steps: seq<Step>, recipe: Recipe, draws: Draws) returns (kept: set<string>)
    ensures forall id :: id in kept <==> Known(steps, id) && Keeps(steps, recipe, draws, id)
  {
    var picked: set<string> := {};
    for i := 0 to |recipe.patterns|
      invariant forall id :: id in picked <==> Picked(steps, recipe.patterns, draws, i, id)
    {
      var ids := PickSteps(steps, recipe.patterns[i], draws.counts(i));
      assert ids == PickedBy(steps, recipe.patterns[i], draws.counts(i));
      picked := picked + ids;
    }
    kept := {};
    for i := 0 to |steps|
      invariant forall id :: id in kept <==> Known(steps[..i], id) && Keeps(steps, recipe, draws, id)
    {
      KnownNext(steps, i);
      var id := steps[i].id;
      var keep := if recipe.support then KeptTurn(draws, id)
                  else id in picked || !AnyMatches(recipe.patterns, |recipe.patterns|, id);
      if keep { kept := kept + {id}; }
    }
    assert steps[..|steps|] == steps;
  }

  lemma KnownNext(steps: seq<Step>, i: nat)
    requires i < |steps|
    ensures forall id :: Known(steps[..i + 1], id) <==> Known(steps[..i], id) || id == steps[i].id
  {
    KnownAppend(steps[..i], steps[i]);
    assert steps[..i + 1] == steps[..i] + [steps[i]];
  }

  lemma KnownAppend(steps: seq<Step>, s: Step)
    ensures forall id :: Known(steps + [s], id) <==> Known(steps, id) || id == s.id
  {
    forall id ensures Known(steps + [s], id) <==> Known(steps, id) || id == s.id {
      if Known(steps, id) {
        var i :| 0 <= i < |steps| && steps[i].id == id;
        assert (steps + [s])[i].id == id;
      }
      assert (steps + [s])[|steps|].id == s.id;
    }
  }

  // ----- which steps are kept, one by one -----

  /** How many of the first `i` steps match. */
  function MatchesBefore(steps: seq<Step>, p: Pattern, i: nat): nat
    requires i <= |steps|
  {
    if i == 0 then 0 else MatchesBefore(steps, p, i - 1) + if p.matches(steps[i - 1].id) then 1 else 0
  }

  lemma {:induction false} SameMatches(steps: seq<Step>, p: Pattern, n: nat, i: nat)
    requires i <= n <= |steps|
    ensures MatchesBefore(steps[..n], p, i) == MatchesBefore(steps, p, i)
  {
    if i > 0 { SameMatches(steps, p, n, i - 1); }
  }

  lemma {:induction false} MatchingAt(steps: seq<Step>, p: Pattern, i: nat)
    requires i < |steps| && p.matches(steps[i].id)
    ensures var k := MatchesBefore(steps, p, i); k < |Matching(steps, p)| && Matching(steps, p)[k] == steps[i].id
    decreases |steps|
  {
    var n := |steps| - 1;
    if i < n {
      MatchingAt(steps[..n], p, i);
      SameMatches(steps, p, n, i);
    } else {
      MatchingCount(steps, p, n);
    }
  }

  lemma {:induction false} MatchingCount(steps: seq<Step>, p: Pattern, n: nat)
    requires n <= |steps|
    ensures |Matching(steps[..n], p)| == MatchesBefore(steps, p, n)
  {
    if n > 0 {
      MatchingCount(steps, p, n - 1);
      assert steps[..n][..n - 1] == steps[..n - 1];
    }
  }

  lemma {:induction false} MatchingFrom(steps: seq<Step>, p: Pattern, k: nat) returns (i: nat)
    requires k < |Matching(steps, p)|
    ensures i < |steps| && p.matches(steps[i].id) && MatchesBefore(steps, p, i) == k
    ensures Matching(steps, p)[k] == steps[i].id
    decreases |steps|
  {
    var n := |steps| - 1;
    if k < |Matching(steps[..n], p)| {
      i := MatchingFrom(steps[..n], p, k);
      SameMatches(steps, p, n, i);
    } else {
      i := n;
      MatchingCount(steps, p, n);
    }
  }

  /** A pattern picks a step exactly when it matches it and fewer steps before it match than were drawn; the first match
      is always picked. */
  lemma PickedIff(steps: seq<Step>, p: Pattern, draw: int, i: nat)
    requires UniqueIds(steps) && i < |steps|
    ensures var before := MatchesBefore(steps, p, i);
            steps[i].id in PickedBy(steps, p, draw)
            <==> p.matches(steps[i].id) && (before == 0 || before < draw)
  {
    var ids := Matching(steps, p);
    var n := PickCount(|ids|, draw);
    if p.matches(steps[i].id) { MatchingAt(steps, p, i); }
    if steps[i].id in PickedBy(steps, p, draw) {
      var k :| 0 <= k < n && ids[k] == steps[i].id;
      var j := MatchingFrom(steps, p, k);
      assert j == i;
    }
  }

  /** Outside the support scenario a step is kept exactly when no pattern matches it, or one that does picks it. */
  lemma KeptIff(steps: seq<Step>, recipe: Recipe, draws: Draws, i: nat)
    requires UniqueIds(steps) && i < |steps| && !recipe.support
    ensures Keeps(steps, recipe, draws, steps[i].id) <==>
              (forall k :: 0 <= k < |recipe.patterns| ==> !recipe.patterns[k].matches(steps[i].id))
              || exists k :: 0 <= k < |recipe.patterns| && recipe.patterns[k].matches(steps[i].id)
                             && Early(MatchesBefore(steps, recipe.patterns[k], i), draws.counts(k))
  {
    forall k | 0 <= k < |recipe.patterns|
      ensures steps[i].id in PickedBy(steps, recipe.patterns[k], draws.counts(k))
              <==> recipe.patterns[k].matches(steps[i].id)
                   && Early(MatchesBefore(steps, recipe.patterns[k], i), draws.counts(k))
    {
      PickedIff(steps, recipe.patterns[k], draws.counts(k), i);
    }
  }

  predicate Early(before: nat, draw: int) {
    before == 0 || before < draw
  }

  // ----- turns -----

  lemma UpToUnderscore(a: string, b: string, c: string, d: string)
    requires '_' !in a && '_' !in c && a + "_" + b == c + "_" + d
    ensures a == c
  {
    var s := a + "_" + b;
    assert s[..|a|] == a && s[|a|] == '_' && s[..|c|] == c && s[|c|] == '_';
    assert forall i :: 0 <= i < |a| ==> s[i] == a[i] && a[i] != '_';
    assert forall i :: 0 <= i < |c| ==> s[i] == c[i] && c[i] != '_';
  }

  /** The ids of turn `n` begin like this. */
  function TurnId(n: nat, kind: string, rest: string): string {
    "t" + Numeral(n) + "_" + (kind + rest)
  }

  lemma TurnPlain(n: nat)
    ensures '_' !in "t" + Numeral(n) && |Numeral(n)| > 0 && '0' <= ("t" + Numeral(n))[1] <= '9'
    ensures forall m: nat :: "t" + Numeral(n) == "t" + Numeral(m) ==> n == m
  {
    NumeralRead(n);
    var turn := "t" + Numeral(n);
    assert forall i :: 0 <= i < |Numeral(n)| ==> turn[i + 1] == Numeral(n)[i];
    forall m: nat | "t" + Numeral(n) == "t" + Numeral(m) ensures n == m {
      NumeralRead(m);
      assert ("t" + Numeral(n))[1..] == Numeral(n) && ("t" + Numeral(m))[1..] == Numeral(m);
    }
  }

  lemma PrefixGives(turn: string, kind: string, id: string)
    requires turn + ("_" + kind) <= id
    ensures exists rest: string :: id == turn + "_" + rest
  {
    var rest := kind + id[|turn + ("_" + kind)|..];
    assert id == turn + "_" + rest;
  }

  lemma TurnOfId(n: nat, kind: string, rest: string, t: nat)
    requires OfTurn(TurnId(n, kind, rest), t)
    ensures t == n
  {
    var id, turn := TurnId(n, kind, rest), "t" + Numeral(t);
    assert "_customer" == "_" + "customer" && "_reply" == "_" + "reply" && "_lookup" == "_" + "lookup";
    if turn + "_customer" <= id { PrefixGives(turn, "customer", id); }
    if turn + "_reply" <= id { PrefixGives(turn, "reply", id); }
    if turn + "_lookup" <= id { PrefixGives(turn, "lookup", id); }
    var more: string :| id == turn + "_" + more;
    TurnPlain(n);
    TurnPlain(t);
    UpToUnderscore("t" + Numeral(n), kind + rest, turn, more);
  }

  lemma OwnTurn(n: nat, kind: string, rest: string)
    requires kind == "customer" || kind == "reply" || kind == "lookup"
    ensures OfTurn(TurnId(n, kind, rest), n)
  {
    var id, turn := TurnId(n, kind, rest), "t" + Numeral(n);
    assert "_customer" == "_" + "customer" && "_reply" == "_" + "reply" && "_lookup" == "_" + "lookup";
    assert id == turn + ("_" + kind) + rest;
  }

  /** A customer message, a reply or a lookup of turn `n` is kept exactly when the turn is one of those drawn: turn 1 is
      not mistaken for turn 10. */
  lemma TurnKeptIff(draws: Draws, n: nat, kind: string, rest: string)
    requires kind == "customer" || kind == "reply" || kind == "lookup"
    ensures KeptTurn(draws, TurnId(n, kind, rest)) <==> 1 <= n <= draws.turns
  {
    var id := TurnId(n, kind, rest);
    TurnPlain(n);
    assert id[1] == ("t" + Numeral(n))[1] && NOTE[1] == 'i' && id[0] == 't';
    OwnTurn(n, kind, rest);
    forall t | OfTurn(id, t) ensures t == n { TurnOfId(n, kind, rest, t); }
  }

  /** The closing note, and whatever is not named like a turn, is always kept. */
  lemma OthersKept(draws: Draws, id: string)
    requires id == "ticket_resolution_note" || id == "" || id[0] != 't'
    ensures KeptTurn(draws, id)
  {
  }

  lemma InThree(s: string, i: nat, j: nat)
    requires i <= j <= |s|
    ensures s == s[..i] + s[i..j] + s[j..]
  {
  }

  lemma FirstIsT(id: string)
    requires StartsT(id)
    ensures id[..1] == "t"
  {
  }

  /** The ids that count as replies, and their turn. */
  lemma ReplyTurnIs(id: string)
    ensures ReplyTurn(id).Some? <==> exists digits :: IsReply(id, digits)
    ensures forall digits :: IsReply(id, digits) ==> ReplyTurn(id) == Some(NumberOf(digits))
  {
    if ReplyTurn(id).Some? {
      var digits := id[1..|id| - 6];
      InThree(id, 1, |id| - 6);
      FirstIsT(id);
      assert IsReply(id, digits);
    }
    forall digits | IsReply(id, digits) ensures ReplyTurn(id) == Some(NumberOf(digits)) {
      assert id[1..|id| - 6] == digits && id[|id| - 6..] == "_reply" && id[0] == 't';
    }
  }

  predicate IsReply(id: string, digits: string) {
    digits != "" && AllDigits(digits) && id == "t" + digits + "_reply"
  }

  // ----- rebuilding -----

  function Filtered(ids: seq<string>, kept: set<string>, dropT: bool): seq<string> {
    if ids == [] then []
    else
      var last := ids[|ids| - 1];
      Filtered(ids[..|ids| - 1], kept, dropT) + if last in kept && !(dropT && StartsT(last)) then [last] else []
  }

  /** The kept reply with the highest turn. */
  function LastReply(steps: seq<Step>, kept: set<string>): Option<string> {
    if steps == [] then None
    else
      var id := steps[|steps| - 1].id;
      var before := LastReply(steps[..|steps| - 1], kept);
      if id in kept && ReplyTurn(id).Some? && (before == None || Turn(id) >= Turn(before.value))
      then Some(id)
      else before
  }

  function Turn(id: string): nat {
    if ReplyTurn(id).Some? then ReplyTurn(id).value else 0
  }

  function NewRequires(recipe: Recipe, steps: seq<Step>, kept: set<string>, s: Step): seq<string> {
    if recipe.support && s.id == NOTE then
      Filtered(s.requires_, kept, true)
      + (match LastReply(steps, kept) case Some(id) => [id] case None => [])
    else Filtered(s.requires_, kept, false)
  }

  /** The whole part of `x`, or `low` if that is more. */
  predicate SizedFrom(n: nat, x: real, low: nat) {
    n >= low && x < n as real + 1.0 && (n > low ==> n as real <= x)
  }

  /** `max(low, int(size * factor))`: truncation toward zero of a product that is not negative. */
  function Scaled(size: nat, factor: real, low: nat): (n: nat)
    ensures SizedFrom(n, size as real * factor, low)
  {
    var x := (size as real * factor).Floor;
    if x < low then low else x
  }

  function Remade(recipe: Recipe, steps: seq<Step>, kept: set<string>, draws: Draws, s: Step, i: nat): Step {
    Step(s.id, Scaled(s.produces, draws.tokens(i), 1), Scaled(s.overhead, draws.overheads(i), 20),
         NewRequires(recipe, steps, kept, s), s.slice)
  }

  function Rebuilt(recipe: Recipe, steps: seq<Step>, kept: set<string>, draws: Draws, n: nat): seq<Step>
    requires n <= |steps|
  {
    if n == 0 then []
    else
      var before := Rebuilt(recipe, steps, kept, draws, n - 1);
      before + if steps[n - 1].id in kept then [Remade(recipe, steps, kept, draws, steps[n - 1], |before|)] else []
  }

  method Perturb(recipe: Recipe, steps: seq<Step>, draws: Draws) returns (out: seq<Step>, kept: set<string>)
    ensures KeepsExactly(recipe, steps, draws, kept)
    ensures out == Rebuilt(recipe, steps, kept, draws, |steps|)
  {
    kept := KeptIds(steps, recipe, draws);
    out := [];
    for i := 0 to |steps|
      invariant out == Rebuilt(recipe, steps, kept, draws, i)
    {
      if steps[i].id in kept {
        var made := Remake(recipe, steps, kept, draws, steps[i], |out|);
        out := out + [made];
      }
    }
  }

  method Remake(recipe: Recipe, steps: seq<Step>, keep: set<string>, draws: Draws, s: Step, i: nat) returns (made: Step)
    ensures made == Remade(recipe, steps, keep, draws, s, i)
  {
    var requires_ := Filter(s.requires_, keep, recipe.support && s.id == NOTE);
    if recipe.support && s.id == NOTE {
      var reply := LastReply(steps, keep);
      if reply.Some? { requires_ := requires_ + [reply.value]; }
    }
    made := Step(s.id, Scaled(s.produces, draws.tokens(i), 1), Scaled(s.overhead, draws.overheads(i), 20),
                 requires_, s.slice);
  }

  method Filter(ids: seq<string>, kept: set<string>, dropT: bool) returns (out: seq<string>)
    ensures out == Filtered(ids, kept, dropT)
  {
    out := [];
    for i := 0 to |ids|
      invariant out == Filtered(ids[..i], kept, dropT)
    {
      assert ids[..i + 1][..i] == ids[..i];
      if ids[i] in kept && !(dropT && StartsT(ids[i])) { out := out + [ids[i]]; }
    }
    assert ids[..|ids|] == ids;
  }

  // ----- the result is well formed -----

  lemma {:induction false} FilteredIn(ids: seq<string>, kept: set<string>, dropT: bool, id: string)
    ensures id in Filtered(ids, kept, dropT) <==> id in ids && id in kept && !(dropT && StartsT(id))
    decreases |ids|
  {
    if ids != [] {
      FilteredIn(ids[..|ids| - 1], kept, dropT, id);
      assert ids == ids[..|ids| - 1] + [ids[|ids| - 1]];
    }
  }

  lemma {:induction false} FilteredDistinct(ids: seq<string>, kept: set<string>, dropT: bool)
    requires Distinct(ids)
    ensures Distinct(Filtered(ids, kept, dropT))
    decreases |ids|
  {
    if ids != [] {
      var n := |ids| - 1;
      var out := Filtered(ids[..n], kept, dropT);
      FilteredDistinct(ids[..n], kept, dropT);
      forall i | 0 <= i < |out| ensures out[i] != ids[n] {
        FilteredIn(ids[..n], kept, dropT, out[i]);
        var j :| 0 <= j < n && ids[..n][j] == out[i];
        assert ids[j] != ids[n];
      }
    }
  }

  lemma {:induction false} LastReplyIs(steps: seq<Step>, kept: set<string>)
    ensures LastReply(steps, kept).Some? ==>
              var id := LastReply(steps, kept).value;
              id in kept && ReplyTurn(id).Some? && Known(steps, id)
    ensures forall i :: 0 <= i < |steps| && steps[i].id in kept && ReplyTurn(steps[i].id).Some? ==>
              LastReply(steps, kept).Some? && Turn(steps[i].id) <= Turn(LastReply(steps, kept).value)
    decreases |steps|
  {
    if steps != [] {
      var n := |steps| - 1;
      LastReplyIs(steps[..n], kept);
      KnownAppend(steps[..n], steps[n]);
      assert steps == steps[..n] + [steps[n]];
    }
  }

  /** A requirement of a rebuilt step is one it had that is kept, or, for the closing note of a support scenario, the
      last reply; the note loses its other requirements on turns. */
  lemma NewRequiresAre(recipe: Recipe, steps: seq<Step>, kept: set<string>, s: Step, id: string)
    ensures var note := recipe.support && s.id == NOTE;
            id in NewRequires(recipe, steps, kept, s) <==>
              (id in s.requires_ && id in kept && !(note && StartsT(id)))
              || (note && LastReply(steps, kept) == Some(id))
  {
    FilteredIn(s.requires_, kept, recipe.support && s.id == NOTE, id);
  }

  /** In the customer-support scenario every reply comes before the closing note. */
  ghost predicate RepliesBeforeNote(steps: seq<Step>) {
    forall i, j :: 0 <= i < |steps| && 0 <= j < |steps| && steps[i].id == NOTE && ReplyTurn(steps[j].id).Some? ==> j < i
  }

  /** The last kept reply comes before the closing note. */
  ghost predicate NoteReady(steps: seq<Step>, kept: set<string>) {
    forall i :: 0 <= i < |steps| && steps[i].id == NOTE && NOTE in kept && LastReply(steps, kept).Some? ==>
      Known(steps[..i], LastReply(steps, kept).value)
  }

  /** It does whatever is kept, when all replies come before the note. */
  lemma RepliesFirstSuffice(steps: seq<Step>, kept: set<string>)
    requires RepliesBeforeNote(steps)
    ensures NoteReady(steps, kept)
  {
    LastReplyIs(steps, kept);
    forall i | 0 <= i < |steps| && steps[i].id == NOTE && LastReply(steps, kept).Some?
      ensures Known(steps[..i], LastReply(steps, kept).value)
    {
      var j :| 0 <= j < |steps| && steps[j].id == LastReply(steps, kept).value;
      assert steps[..i][j].id == steps[j].id;
    }
  }

  /** The kept steps in their order: a step is in the result exactly when it was kept. */
  lemma {:induction false} RebuiltKnown(recipe: Recipe, steps: seq<Step>, kept: set<string>, draws: Draws, n: nat)
    requires n <= |steps|
    ensures forall id :: Known(Rebuilt(recipe, steps, kept, draws, n), id) <==> Known(steps[..n], id) && id in kept
  {
    if n == 0 {
    } else {
      var before := Rebuilt(recipe, steps, kept, draws, n - 1);
      RebuiltKnown(recipe, steps, kept, draws, n - 1);
      KnownNext(steps, n - 1);
      KnownAppend(before, Remade(recipe, steps, kept, draws, steps[n - 1], |before|));
      assert before + [] == before;
    }
  }

  lemma AppendWellFormed(steps: seq<Step>, s: Step)
    requires WellFormed(steps) && !Known(steps, s.id)
    requires forall j :: 0 <= j < |s.requires_| ==> Known(steps, s.requires_[j])
    ensures WellFormed(steps + [s])
  {
    var all := steps + [s];
    forall i, j | 0 <= i < j < |all| ensures all[i].id != all[j].id {
      if j == |steps| { assert steps[i].id == all[i].id; }
    }
    forall i, j | 0 <= i < |all| && 0 <= j < |all[i].requires_| ensures Known(all[..i], all[i].requires_[j]) {
      assert all[..i] == steps[..i];
      assert steps[..|steps|] == steps;
    }
  }

  lemma RequiresEarlier(recipe: Recipe, steps: seq<Step>, kept: set<string>, i: nat, id: string)
    requires WellFormed(steps) && i < |steps| && steps[i].id in kept && (recipe.support ==> NoteReady(steps, kept))
    requires id in NewRequires(recipe, steps, kept, steps[i])
    ensures Known(steps[..i], id) && id in kept
  {
    var s := steps[i];
    FilteredIn(s.requires_, kept, recipe.support && s.id == NOTE, id);
    if id in s.requires_ {
      var j :| 0 <= j < |s.requires_| && s.requires_[j] == id;
      assert Known(steps[..i], s.requires_[j]);
      LastReplyIs(steps, kept);
    } else {
      LastReplyIs(steps, kept);
      assert s.id == NOTE && LastReply(steps, kept) == Some(id);
    }
  }

  lemma RequiresKept(recipe: Recipe, steps: seq<Step>, kept: set<string>, i: nat, before: seq<Step>)
    requires WellFormed(steps) && i < |steps| && steps[i].id in kept && (recipe.support ==> NoteReady(steps, kept))
    requires forall id :: Known(before, id) <==> Known(steps[..i], id) && id in kept
    ensures var ids := NewRequires(recipe, steps, kept, steps[i]);
            forall j :: 0 <= j < |ids| ==> Known(before, ids[j])
  {
    var ids := NewRequires(recipe, steps, kept, steps[i]);
    forall j | 0 <= j < |ids| ensures Known(before, ids[j]) { RequiresEarlier(recipe, steps, kept, i, ids[j]); }
  }

  /** Unique ids and earlier dependencies survive, whatever was drawn. */
  lemma {:induction false} RebuiltWellFormed(recipe: Recipe, steps: seq<Step>, kept: set<string>, draws: Draws, n: nat)
    requires WellFormed(steps) && n <= |steps| && (recipe.support ==> NoteReady(steps, kept))
    ensures WellFormed(Rebuilt(recipe, steps, kept, draws, n))
  {
    if n > 0 {
      RebuiltWellFormed(recipe, steps, kept, draws, n - 1);
      var s, before := steps[n - 1], Rebuilt(recipe, steps, kept, draws, n - 1);
      if s.id in kept {
        RebuiltKnown(recipe, steps, kept, draws, n - 1);
        assert !Known(steps[..n - 1], s.id);
        RequiresKept(recipe, steps, kept, n - 1, before);
        AppendWellFormed(before, Remade(recipe, steps, kept, draws, s, |before|));
      } else {
        assert before + [] == before;
      }
    }
  }

  lemma NewRequiresDistinct(recipe: Recipe, steps: seq<Step>, kept: set<string>, s: Step)
    requires Distinct(s.requires_)
    ensures Distinct(NewRequires(recipe, steps, kept, s))
  {
    FilteredDistinct(s.requires_, kept, recipe.support && s.id == NOTE);
    if recipe.support && s.id == NOTE && LastReply(steps, kept).Some? {
      LastReplyIs(steps, kept);
      FilteredIn(s.requires_, kept, true, LastReply(steps, kept).value);
    }
  }

  lemma {:induction false} RebuiltDistinct(recipe: Recipe, steps: seq<Step>, kept: set<string>, draws: Draws, n: nat)
    requires DistinctRequires(steps) && n <= |steps|
    ensures var out := Rebuilt(recipe, steps, kept, draws, n);
            DistinctRequires(out) && forall i :: 0 <= i < |out| ==> out[i].produces >= 1 && out[i].overhead >= 20
  {
    if n > 0 {
      RebuiltDistinct(recipe, steps, kept, draws, n - 1);
      NewRequiresDistinct(recipe, steps, kept, steps[n - 1]);
    }
  }

  /** A perturbed scenario can always be run, and its cost obeys the same bound. */
  lemma PerturbedRuns(recipe: Recipe, steps: seq<Step>, kept: set<string>, draws: Draws)
    requires WellFormed(steps) && DistinctRequires(steps) && (recipe.support ==> NoteReady(steps, kept))
    ensures var out := Rebuilt(recipe, steps, kept, draws, |steps|);
            && WellFormed(out) && Closed(out)
            && PlinthInput(out, |out|) <= BaselineInput(out, |out|) + HANDLE * Edges(out, |out|)
  {
    var out := Rebuilt(recipe, steps, kept, draws, |steps|);
    RebuiltWellFormed(recipe, steps, kept, draws, |steps|);
    RebuiltDistinct(recipe, steps, kept, draws, |steps|);
    WellFormedCloses(out);
    PlinthWithinBaseline(out, |out|);
  }

  /** How many of the first `n` steps are kept. */
  function KeptBefore(steps: seq<Step>, kept: set<string>, n: nat): nat
    requires n <= |steps|
  {
    if n == 0 then 0 else KeptBefore(steps, kept, n - 1) + if steps[n - 1].id in kept then 1 else 0
  }

  lemma {:induction false} RebuiltCount(recipe: Recipe, steps: seq<Step>, kept: set<string>, draws: Draws, n: nat)
    requires n <= |steps|
    ensures |Rebuilt(recipe, steps, kept, draws, n)| == KeptBefore(steps, kept, n)
  {
    if n > 0 { RebuiltCount(recipe, steps, kept, draws, n - 1); }
  }

  /** The kept steps and no others are rebuilt, each at its place in their order, with its id and read mode, and with
      sizes that are those of the scenario times the factors drawn, but no less than 1 and 20. */
  lemma RebuiltStep(recipe: Recipe, steps: seq<Step>, kept: set<string>, draws: Draws, i: nat)
    requires i < |steps| && steps[i].id in kept
    ensures var out, k := Rebuilt(recipe, steps, kept, draws, |steps|), KeptBefore(steps, kept, i);
            && |out| == KeptBefore(steps, kept, |steps|) && k < |out|
            && out[k].id == steps[i].id && out[k].slice == steps[i].slice
            && SizedFrom(out[k].produces, steps[i].produces as real * draws.tokens(k), 1)
            && SizedFrom(out[k].overhead, steps[i].overhead as real * draws.overheads(k), 20)
  {
    RebuiltCount(recipe, steps, kept, draws, i);
    RebuiltCount(recipe, steps, kept, draws, |steps|);
    RebuiltAt(recipe, steps, kept, draws, |steps|, i);
  }

  // ----- the proviso is exact -----

  lemma {:induction false} RebuiltAt(recipe: Recipe, steps: seq<Step>, kept: set<string>, draws: Draws, n: nat, i: nat)
    requires i < n <= |steps| && steps[i].id in kept
    ensures var before, out := Rebuilt(recipe, steps, kept, draws, i), Rebuilt(recipe, steps, kept, draws, n);
            && |before| < |out| && out[..|before|] == before
            && out[|before|] == Remade(recipe, steps, kept, draws, steps[i], |before|)
    decreases n
  {
    if i < n - 1 {
      RebuiltAt(recipe, steps, kept, draws, n - 1, i);
      var mid := Rebuilt(recipe, steps, kept, draws, n - 1);
      assert mid <= Rebuilt(recipe, steps, kept, draws, n);
    }
  }

  /** Whatever is kept, the result is well formed exactly when the last kept reply comes before the note. */
  lemma WellFormedIffNoteReady(recipe: Recipe, steps: seq<Step>, kept: set<string>, draws: Draws)
    requires recipe.support && WellFormed(steps)
    ensures WellFormed(Rebuilt(recipe, steps, kept, draws, |steps|)) <==> NoteReady(steps, kept)
  {
    if NoteReady(steps, kept) {
      RebuiltWellFormed(recipe, steps, kept, draws, |steps|);
    } else {
      var i :| 0 <= i < |steps| && steps[i].id == NOTE && NOTE in kept && LastReply(steps, kept).Some?
               && !Known(steps[..i], LastReply(steps, kept).value);
      NoteNotReady(recipe, steps, kept, draws, i);
    }
  }

  lemma NoteNotReady(recipe: Recipe, steps: seq<Step>, kept: set<string>, draws: Draws, i: nat)
    requires recipe.support && i < |steps| && steps[i].id == NOTE && NOTE in kept && LastReply(steps, kept).Some?
    requires !Known(steps[..i], LastReply(steps, kept).value)
    ensures !WellFormed(Rebuilt(recipe, steps, kept, draws, |steps|))
  {
    var before, out := Rebuilt(recipe, steps, kept, draws, i), Rebuilt(recipe, steps, kept, draws, |steps|);
    RebuiltAt(recipe, steps, kept, draws, |steps|, i);
    RebuiltKnown(recipe, steps, kept, draws, i);
    var note := out[|before|];
    assert note.requires_[|note.requires_| - 1] == LastReply(steps, kept).value;
    assert out[..|before|] == before && !Known(out[..|before|], note.requires_[|note.requires_| - 1]);
  }

  // ----- the turns that can be drawn -----

  /** What the support scenario keeps when so many turns are drawn. */
  ghost function KeptFor(steps: seq<Step>, draws: Draws): set<string> {
    set i | 0 <= i < |steps| && KeptTurn(draws, steps[i].id) :: steps[i].id
  }

  function Drawn(turns: nat): Draws {
    Draws((i: nat) => 0, turns, (i: nat) => 1.0, (i: nat) => 1.0)
  }

  predicate CanBeDrawn(turns: nat) {
    5 <= turns <= 10
  }

  /** The last reply of the turns t1, ..., tk comes before the note, for every k that can be drawn. */
  ghost predicate ReadyForEveryDraw(steps: seq<Step>) {
    forall turns: nat :: CanBeDrawn(turns) ==> NoteReady(steps, KeptFor(steps, Drawn(turns)))
  }

  ghost predicate SurvivesEveryDraw(recipe: Recipe, steps: seq<Step>) {
    forall draws: Draws :: CanBeDrawn(draws.turns) ==>
      WellFormed(Rebuilt(recipe, steps, KeptFor(steps, draws), draws, |steps|))
  }

  /** What the perturbation keeps. */
  ghost predicate KeepsExactly(recipe: Recipe, steps: seq<Step>, draws: Draws, kept: set<string>) {
    forall id :: id in kept <==> Known(steps, id) && Keeps(steps, recipe, draws, id)
  }

  lemma KeptForIs(recipe: Recipe, steps: seq<Step>, draws: Draws, kept: set<string>)
    requires recipe.support && KeepsExactly(recipe, steps, draws, kept)
    ensures kept == KeptFor(steps, draws) == KeptFor(steps, Drawn(draws.turns))
  {
    forall id ensures KeptTurn(draws, id) == KeptTurn(Drawn(draws.turns), id) {}
    forall id ensures id in kept <==> id in KeptFor(steps, draws) {}
    forall id ensures id in KeptFor(steps, Drawn(draws.turns)) <==> id in KeptFor(steps, draws) {}
  }

  /** `kept` is what the perturbation keeps of a support scenario.  Its result is well formed for every draw of 5 to 10
      turns exactly when for each such number of turns the last reply comes before the note. */
  lemma SurvivesIffReady(recipe: Recipe, steps: seq<Step>)
    requires recipe.support && WellFormed(steps)
    ensures SurvivesEveryDraw(recipe, steps) <==> ReadyForEveryDraw(steps)
    ensures forall draws, kept :: KeepsExactly(recipe, steps, draws, kept) ==> kept == KeptFor(steps, draws)
  {
    forall draws, kept | KeepsExactly(recipe, steps, draws, kept)
      ensures kept == KeptFor(steps, draws)
    {
      KeptForIs(recipe, steps, draws, kept);
    }
    forall draws: Draws
      ensures WellFormed(Rebuilt(recipe, steps, KeptFor(steps, draws), draws, |steps|))
              <==> NoteReady(steps, KeptFor(steps, Drawn(draws.turns)))
    {
      SameKept(steps, draws);
      WellFormedIffNoteReady(recipe, steps, KeptFor(steps, draws), draws);
    }
    if SurvivesEveryDraw(recipe, steps) {
      forall turns: nat | CanBeDrawn(turns) ensures NoteReady(steps, KeptFor(steps, Drawn(turns))) {
        assert CanBeDrawn(Drawn(turns).turns);
      }
    }
  }

  lemma SameKept(steps: seq<Step>, draws: Draws)
    ensures KeptFor(steps, draws) == KeptFor(steps, Drawn(draws.turns))
  {
    forall id ensures KeptTurn(draws, id) == KeptTurn(Drawn(draws.turns), id) {}
  }

  lemma FirstReply()
    ensures ReplyTurn("t1_reply").Some? && ReplyTurn(NOTE) == None && OfTurn("t1_reply", 1) && NOTE != "t1_reply"
  {
    assert NOTE[1] == 'i' && "t1_reply"[1] == '1' && NOTE[|NOTE| - 6..][5] == 'e';
    assert "t1_reply"[2..] == "_reply" && "t1_reply"[1..2] == "1";
    assert Numeral(1) == "1";
  }

  /** For example, a note that comes before the only reply fails for every draw. */
  lemma NoteBeforeReply(recipe: Recipe, draws: Draws)
    requires recipe.support && CanBeDrawn(draws.turns)
    ensures var steps := [Step(NOTE, 1, 20, [], false), Step("t1_reply", 1, 20, [], false)];
            WellFormed(steps) && !WellFormed(Rebuilt(recipe, steps, KeptFor(steps, draws), draws, |steps|))
  {
    var steps := [Step(NOTE, 1, 20, [], false), Step("t1_reply", 1, 20, [], false)];
    var kept := KeptFor(steps, draws);
    FirstReply();
    assert steps[0].id in kept && steps[1].id in kept;
    LastReplyIs(steps, kept);
    assert LastReply(steps, kept) == Some("t1_reply");
    assert steps[..0] == [] && !Known(steps[..0], "t1_reply");
    NoteNotReady(recipe, steps, kept, draws, 0);
  }
}
