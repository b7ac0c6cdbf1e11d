/** The rebranding rules: one pass over a text reaches a normal form. */
module Rebrand {

  /** A literal pattern, with word boundaries required before and after it or not. */
  datatype Rule = Rule(pattern: string, repl: string, left: bool, right: bool)

  /** `\w` for the characters that matter; any other character may or may not be a word character. */
  type WordClass = char -> bool

  ghost predicate Usual(word: WordClass) {
    && (forall c: char :: 'a' <= c <= 'z' || 'A' <= c <= 'Z' || '0' <= c <= '9' || c == '_' ==> word(c))
    && !word('@') && !word('/') && !word(':') && !word('.')
  }

  const HTTPS := Rule("https://plinth.dev", "https://plynf.com", false, false)
  const HTTP := Rule("http://plinth.dev", "http://plynf.com", false, false)
  const DOMAIN := Rule("plinth.dev", "plynf.com", true, true)
  const EMAIL := Rule("@plinth.dev", "@plynf.com", false, true)
  const UPPER := Rule("PLINTH", "PLYNF", true, true)
  const TITLE := Rule("Plinth", "Plynf", true, true)

  const CONSERVATIVE := [HTTPS, HTTP, DOMAIN, EMAIL]
  const AGGRESSIVE := [HTTPS, HTTP, DOMAIN, EMAIL, UPPER, TITLE]

  // ----- one rule -----

  /** Whether the character before position `i` is a word character; nothing before the text is. */
  predicate WordBefore(word: WordClass, s: string, i: nat)
    requires i <= |s|
  {
    i > 0 && word(s[i - 1])
  }

  predicate WordAt(word: WordClass, s: string, i: nat)
    requires i <= |s|
  {
    i < |s| && word(s[i])
  }

  predicate Boundary(word: WordClass, s: string, i: nat)
    requires i <= |s|
  {
    WordBefore(word, s, i) != WordAt(word, s, i)
  }

  predicate Matches(word: WordClass, rule: Rule, s: string, i: nat)
    requires i <= |s|
  {
    && rule.pattern <= s[i..]
    && (rule.left ==> Boundary(word, s, i))
    && (rule.right ==> Boundary(word, s, i + |rule.pattern|))
  }

  ghost predicate NoMatch(word: WordClass, rule: Rule, s: string) {
    forall i :: 0 <= i <= |s| ==> !Matches(word, rule, s, i)
  }

  /** `re.subn` from position `i` on: leftmost matches, none overlapping. */
  function Sub(word: WordClass, rule: Rule, s: string, i: nat): string
    requires i <= |s| && rule.pattern != ""
    decreases |s| - i
  {
    if i == |s| then ""
    else if Matches(word, rule, s, i) then rule.repl + Sub(word, rule, s, i + |rule.pattern|)
    else [s[i]] + Sub(word, rule, s, i + 1)
  }

  function Count(word: WordClass, rule: Rule, s: string, i: nat): nat
    requires i <= |s| && rule.pattern != ""
    decreases |s| - i
  {
    if i == |s| then 0
    else if Matches(word, rule, s, i) then 1 + Count(word, rule, s, i + |rule.pattern|)
    else Count(word, rule, s, i + 1)
  }

  // ----- all rules in order -----

  predicate Patterned(rules: seq<Rule>) {
    forall i :: 0 <= i < |rules| ==> rules[i].pattern != ""
  }

  function Rewritten(word: WordClass, rules: seq<Rule>, s: string, n: nat): string
    requires Patterned(rules) && n <= |rules|
  {
    if n == 0 then s else Sub(word, rules[n - 1], Rewritten(word, rules, s, n - 1), 0)
  }

  function Substitutions(word: WordClass, rules: seq<Rule>, s: string, n: nat): nat
    requires Patterned(rules) && n <= |rules|
  {
    if n == 0 then 0
    else Substitutions(word, rules, s, n - 1) + Count(word, rules[n - 1], Rewritten(word, rules, s, n - 1), 0)
  }

  /** The rule loop of `process`. */
  method Process(word: WordClass, rules: seq<Rule>, text: string) returns (new_: string, n: nat)
    requires Patterned(rules)
    ensures new_ == Rewritten(word, rules, text, |rules|) && n == Substitutions(word, rules, text, |rules|)
  {
    new_, n := text, 0;
    for i := 0 to |rules|
      invariant new_ == Rewritten(word, rules, text, i) && n == Substitutions(word, rules, text, i)
    {
      var k;
      new_, k := SubN(word, rules[i], new_);
      n := n + k;
    }
  }

  method SubN(word: WordClass, rule: Rule, s: string) returns (out: string, k: nat)
    requires rule.pattern != ""
    ensures out == Sub(word, rule, s, 0) && k == Count(word, rule, s, 0)
  {
    out, k := "", 0;
    var i := 0;
    while i < |s|
      invariant i <= |s|
      invariant Sub(word, rule, s, 0) == out + Sub(word, rule, s, i)
      invariant Count(word, rule, s, 0) == k + Count(word, rule, s, i)
    {
      if Matches(word, rule, s, i) {
        Assoc(out, rule.repl, Sub(word, rule, s, i + |rule.pattern|));
        out, k, i := out + rule.repl, k + 1, i + |rule.pattern|;
      } else {
        Assoc(out, [s[i]], Sub(word, rule, s, i + 1));
        out, i := out + [s[i]], i + 1;
      }
    }
  }

  lemma Assoc(a: string, b: string, c: string)
    ensures (a + b) + c == a + (b + c)
  {
  }

  // ----- what a substitution is -----

  predicate NoneIn(word: WordClass, rule: Rule, s: string, i: nat, j: nat)
    requires j <= |s|
  {
    forall k :: i <= k < j ==> !Matches(word, rule, s, k)
  }

  /** The pieces between the matches from position `i` on: leftmost first, none overlapping, none left out. */
  ghost predicate Cut(word: WordClass, rule: Rule, s: string, i: nat, pieces: seq<string>)
    requires i <= |s|
    decreases |pieces|
  {
    pieces != []
    && var j := i + |pieces[0]|;
       && j <= |s| && pieces[0] == s[i..j] && NoneIn(word, rule, s, i, j)
       && if |pieces| == 1 then j == |s|
          else j + |rule.pattern| <= |s| && Matches(word, rule, s, j)
               && Cut(word, rule, s, j + |rule.pattern|, pieces[1..])
  }

  /** The pieces with this text between any two of them. */
  function Glue(pieces: seq<string>, x: string): string
    requires pieces != []
  {
    if |pieces| == 1 then pieces[0] else pieces[0] + x + Glue(pieces[1..], x)
  }

  /** One more character in front of the first piece. */
  function Longer(c: char, pieces: seq<string>): seq<string>
    requires pieces != []
  {
    [[c] + pieces[0]] + pieces[1..]
  }

  lemma GlueLonger(c: char, pieces: seq<string>, x: string)
    requires pieces != []
    ensures Glue(Longer(c, pieces), x) == [c] + Glue(pieces, x)
  {
    assert Longer(c, pieces)[1..] == pieces[1..];
    if |pieces| > 1 {
      Assoc([c], pieces[0], x);
      Assoc([c], pieces[0] + x, Glue(pieces[1..], x));
    }
  }

  lemma OneLonger(s: string, i: nat, j: nat)
    requires i < j <= |s|
    ensures [s[i]] + s[i + 1..j] == s[i..j]
  {
  }

  lemma CutLonger(word: WordClass, rule: Rule, s: string, i: nat, pieces: seq<string>)
    requires i < |s| && !Matches(word, rule, s, i) && Cut(word, rule, s, i + 1, pieces)
    ensures Cut(word, rule, s, i, Longer(s[i], pieces))
  {
    OneLonger(s, i, i + 1 + |pieces[0]|);
    assert Longer(s[i], pieces)[1..] == pieces[1..];
  }

  lemma MatchFits(word: WordClass, rule: Rule, s: string, i: nat)
    requires i <= |s| && Matches(word, rule, s, i)
    ensures i + |rule.pattern| <= |s|
  {
    assert rule.pattern <= s[i..];
  }

  /** The pieces, and what they are glued to with the replacement. */
  ghost predicate Replaces(word: WordClass, rule: Rule, s: string, i: nat, pieces: seq<string>, out: string, count: nat)
    requires i <= |s|
  {
    Cut(word, rule, s, i, pieces) && out == Glue(pieces, rule.repl) && count == |pieces| - 1
  }

  lemma ReplacesNothing(word: WordClass, rule: Rule, s: string)
    ensures Replaces(word, rule, s, |s|, [""], "", 0)
  {
  }

  lemma ReplacesHere(word: WordClass, rule: Rule, s: string, i: nat, pieces: seq<string>, out: string, count: nat)
    requires i + |rule.pattern| <= |s| && Matches(word, rule, s, i)
    requires Replaces(word, rule, s, i + |rule.pattern|, pieces, out, count)
    ensures Replaces(word, rule, s, i, [""] + pieces, rule.repl + out, 1 + count)
  {
    assert ([""] + pieces)[1..] == pieces;
    assert "" + rule.repl == rule.repl;
  }

  lemma ReplacesLater(word: WordClass, rule: Rule, s: string, i: nat, pieces: seq<string>, out: string, count: nat)
    requires i < |s| && !Matches(word, rule, s, i) && Replaces(word, rule, s, i + 1, pieces, out, count)
    ensures Replaces(word, rule, s, i, Longer(s[i], pieces), [s[i]] + out, count)
  {
    CutLonger(word, rule, s, i, pieces);
    GlueLonger(s[i], pieces, rule.repl);
  }

  /** A substitution replaces exactly the leftmost matches that do not overlap, keeps the pieces between them as they
      are, and counts the matches. */
  lemma {:induction false} SubIs(word: WordClass, rule: Rule, s: string, i: nat) returns (pieces: seq<string>)
    requires rule.pattern != "" && i <= |s|
    ensures Replaces(word, rule, s, i, pieces, Sub(word, rule, s, i), Count(word, rule, s, i))
    decreases |s| - i
  {
    if i == |s| {
      ReplacesNothing(word, rule, s);
      return [""];
    }
    var out, count := Sub(word, rule, s, i), Count(word, rule, s, i);
    if Matches(word, rule, s, i) {
      var j := i + |rule.pattern|;
      MatchFits(word, rule, s, i);
      pieces := SubIs(word, rule, s, j);
      assert out == rule.repl + Sub(word, rule, s, j) && count == 1 + Count(word, rule, s, j);
      ReplacesHere(word, rule, s, i, pieces, Sub(word, rule, s, j), Count(word, rule, s, j));
      pieces := [""] + pieces;
    } else {
      var j := i + 1;
      pieces := SubIs(word, rule, s, j);
      assert out == [s[i]] + Sub(word, rule, s, j) && count == Count(word, rule, s, j);
      ReplacesLater(word, rule, s, i, pieces, Sub(word, rule, s, j), Count(word, rule, s, j));
      pieces := Longer(s[i], pieces);
    }
  }

  /** With a replacement one character shorter than the pattern, each substitution makes the text one character
      shorter. */
  lemma {:induction false} SubLength(word: WordClass, rule: Rule, s: string, i: nat)
    requires rule.pattern != "" && i <= |s| && |rule.pattern| == |rule.repl| + 1
    ensures |Sub(word, rule, s, i)| + Count(word, rule, s, i) == |s| - i
    decreases |s| - i
  {
    if i < |s| {
      if Matches(word, rule, s, i) {
        MatchFits(word, rule, s, i);
        SubLength(word, rule, s, i + |rule.pattern|);
      } else {
        SubLength(word, rule, s, i + 1);
      }
    }
  }

  // ----- when a replacement cannot make new matches -----

  predicate Agree(a: string, b: string) {
    a <= b || b <= a
  }

  /** No match of `q` can overlap an occurrence of `repl`: the strings disagree wherever they could meet, or the match
      would have to end between two word characters. */
  predicate Apart(word: WordClass, repl: string, q: Rule)
    requires q.pattern != ""
  {
    && (forall k :: 0 <= k < |repl| ==> !Agree(repl[k..], q.pattern))
    && (forall k :: 0 <= k < |q.pattern| && Agree(q.pattern[k..], repl) ==> Blocked(word, repl, q, |q.pattern| - k))
  }

  predicate Blocked(word: WordClass, repl: string, q: Rule, n: nat)
    requires q.pattern != ""
  {
    q.right && n < |repl| && word(q.pattern[|q.pattern| - 1]) && word(repl[n])
  }

  /** The right boundary of a match of `q` that ends at `n`. */
  predicate EndsWell(word: WordClass, q: Rule, s: string, n: nat)
    requires q.pattern != "" && n <= |s|
  {
    q.right ==> word(q.pattern[|q.pattern| - 1]) != WordAt(word, s, n)
  }

  /** The replacement begins and ends with the same class of character as the pattern. */
  predicate SameEdges(word: WordClass, rule: Rule) {
    && rule.pattern != "" && rule.repl != ""
    && word(rule.pattern[0]) == word(rule.repl[0])
    && word(rule.pattern[|rule.pattern| - 1]) == word(rule.repl[|rule.repl| - 1])
  }

  /** The first character of what is left has the class it had. */
  lemma {:induction false} SameClass(word: WordClass, rule: Rule, s: string, i: nat)
    requires SameEdges(word, rule) && i <= |s|
    ensures (Sub(word, rule, s, i) == "") <==> i == |s|
    ensures WordAt(word, Sub(word, rule, s, i), 0) == WordAt(word, s, i)
  {
  }

  /** The end of a match that survives at the head of the output was copied from the input, and so was the class of what
      follows it. */
  lemma {:induction false} Copied(word: WordClass, rule: Rule, q: Rule, k: nat, s: string, i: nat)
    requires SameEdges(word, rule) && q.pattern != "" && Apart(word, rule.repl, q) && i <= |s| && k <= |q.pattern|
    requires q.pattern[k..] <= Sub(word, rule, s, i) && EndsWell(word, q, Sub(word, rule, s, i), |q.pattern| - k)
    ensures q.pattern[k..] <= s[i..]
    ensures WordAt(word, Sub(word, rule, s, i), |q.pattern| - k) == WordAt(word, s, i + (|q.pattern| - k))
    decreases |q.pattern| - k
  {
    if k == |q.pattern| {
      SameClass(word, rule, s, i);
    } else {
      NotReplaced(word, rule, q, k, s, i);
      HeadAndTail(q.pattern, k, s, i, Sub(word, rule, s, i + 1));
      NextClass(word, s[i], Sub(word, rule, s, i + 1), |q.pattern| - k);
      Copied(word, rule, q, k + 1, s, i + 1);
    }
  }

  lemma NextClass(word: WordClass, c: char, rest: string, n: nat)
    requires 0 < n <= |[c] + rest|
    ensures WordAt(word, [c] + rest, n) == WordAt(word, rest, n - 1)
  {
  }

  lemma NotReplaced(word: WordClass, rule: Rule, q: Rule, k: nat, s: string, i: nat)
    requires rule.pattern != "" && q.pattern != "" && Apart(word, rule.repl, q) && i <= |s| && k < |q.pattern|
    requires q.pattern[k..] <= Sub(word, rule, s, i) && EndsWell(word, q, Sub(word, rule, s, i), |q.pattern| - k)
    ensures i < |s| && !Matches(word, rule, s, i)
  {
    assert Agree(q.pattern[k..], rule.repl) ==> Blocked(word, rule.repl, q, |q.pattern| - k);
  }

  lemma HeadAndTail(pattern: string, k: nat, s: string, i: nat, rest: string)
    requires k < |pattern| && i < |s| && pattern[k..] <= [s[i]] + rest
    ensures pattern[k] == s[i] && pattern[k + 1..] <= rest
    ensures pattern[k..] == [s[i]] + pattern[k + 1..] && s[i..] == [s[i]] + s[i + 1..]
  {
    assert pattern[k..][0] == pattern[k];
    PrefixTail(pattern[k..], [s[i]] + rest);
    assert ([s[i]] + rest)[1..] == rest;
  }

  lemma PrefixTail(a: string, b: string)
    requires a <= b && a != ""
    ensures a[1..] <= b[1..]
  {
    assert b == a + b[|a|..];
    assert b[1..] == a[1..] + b[|a|..];
  }

  /** A match whose left neighbour, when it starts the text, is of class `before`. */
  predicate MatchesAfter(word: WordClass, q: Rule, before: bool, s: string, k: nat)
    requires k <= |s| && q.pattern != ""
  {
    && q.pattern <= s[k..]
    && (q.left ==> (if k == 0 then before else word(s[k - 1])) != WordAt(word, s, k))
    && EndsWell(word, q, s, k + |q.pattern|)
  }

  lemma MatchesIs(word: WordClass, q: Rule, s: string, i: nat)
    requires i <= |s| && q.pattern != ""
    ensures Matches(word, q, s, i) <==>
              q.pattern <= s[i..]
              && (q.left ==> WordBefore(word, s, i) != WordAt(word, s, i))
              && EndsWell(word, q, s, i + |q.pattern|)
  {
    if q.pattern <= s[i..] { assert s[i..][|q.pattern| - 1] == s[i + |q.pattern| - 1]; }
  }

  /** What a rule's output matches was already matched in its input, away from what the rule replaced. */
  lemma {:induction false} Survives(word: WordClass, rule: Rule, q: Rule, s: string, i: nat, k: nat) returns (m: nat)
    requires SameEdges(word, rule) && q.pattern != "" && Apart(word, rule.repl, q) && i <= |s|
    requires k <= |Sub(word, rule, s, i)| && MatchesAfter(word, q, WordBefore(word, s, i), Sub(word, rule, s, i), k)
    ensures m <= |s| && Matches(word, q, s, m) && !Matches(word, rule, s, m)
    decreases |s| - i
  {
    if i < |s| && Matches(word, rule, s, i) {
      var j := i + |rule.pattern|;
      AfterReplacement(word, q, rule, s, i, k, Sub(word, rule, s, j));
      m := Survives(word, rule, q, s, j, k - |rule.repl|);
    } else if k > 0 {
      AfterCopy(word, q, WordBefore(word, s, i), s[i], Sub(word, rule, s, i + 1), k);
      m := Survives(word, rule, q, s, i + 1, k - 1);
    } else {
      AtCopy(word, rule, q, s, i);
      m := i;
    }
  }

  lemma AfterCopy(word: WordClass, q: Rule, before: bool, c: char, rest: string, k: nat)
    requires q.pattern != "" && 0 < k <= |[c] + rest| && MatchesAfter(word, q, before, [c] + rest, k)
    ensures MatchesAfter(word, q, word(c), rest, k - 1)
  {
    assert ([c] + rest)[k..] == rest[k - 1..];
  }

  lemma AfterReplacement(word: WordClass, q: Rule, rule: Rule, s: string, i: nat, k: nat, rest: string)
    requires SameEdges(word, rule) && q.pattern != "" && Apart(word, rule.repl, q)
    requires i <= |s| && Matches(word, rule, s, i) && k <= |rule.repl + rest|
    requires MatchesAfter(word, q, WordBefore(word, s, i), rule.repl + rest, k)
    ensures k >= |rule.repl| && MatchesAfter(word, q, WordBefore(word, s, i + |rule.pattern|), rest, k - |rule.repl|)
  {
    var out := rule.repl + rest;
    NotInside(word, rule.repl, rest, q, k);
    assert out[k..] == rest[k - |rule.repl|..];
    assert s[i..][|rule.pattern| - 1] == s[i + |rule.pattern| - 1];
  }

  lemma NotInside(word: WordClass, repl: string, rest: string, q: Rule, k: nat)
    requires q.pattern != "" && Apart(word, repl, q) && k <= |repl + rest| && q.pattern <= (repl + rest)[k..]
    ensures k >= |repl|
  {
    TailOf(repl, rest, k);
    assert k < |repl| ==> !Agree(repl[k..], q.pattern);
  }

  lemma TailOf(a: string, b: string, k: nat)
    ensures k <= |a| ==> (a + b)[k..] == a[k..] + b
  {
  }

  lemma AtCopy(word: WordClass, rule: Rule, q: Rule, s: string, i: nat)
    requires SameEdges(word, rule) && q.pattern != "" && Apart(word, rule.repl, q) && i <= |s|
    requires MatchesAfter(word, q, WordBefore(word, s, i), Sub(word, rule, s, i), 0)
    ensures Matches(word, q, s, i) && !Matches(word, rule, s, i)
  {
    var out := Sub(word, rule, s, i);
    assert out[0..] == out && q.pattern[0..] == q.pattern;
    Copied(word, rule, q, 0, s, i);
    NotReplaced(word, rule, q, 0, s, i);
    SameClass(word, rule, s, i);
    MatchesIs(word, q, s, i);
  }

  // ----- the normal form -----

  /** Every replacement keeps its edges and stays apart from every pattern. */
  ghost predicate Confluent(word: WordClass, rules: seq<Rule>) {
    && (forall i :: 0 <= i < |rules| ==> SameEdges(word, rules[i]))
    && (forall i, j :: 0 <= i < |rules| && 0 <= j < |rules| ==> Apart(word, rules[i].repl, rules[j]))
  }

  lemma SubLeavesNone(word: WordClass, rule: Rule, q: Rule, s: string)
    requires SameEdges(word, rule) && q.pattern != "" && Apart(word, rule.repl, q)
    requires q == rule || NoMatch(word, q, s)
    ensures NoMatch(word, q, Sub(word, rule, s, 0))
  {
    var out := Sub(word, rule, s, 0);
    forall k | 0 <= k <= |out| ensures !Matches(word, q, out, k) {
      MatchesIs(word, q, out, k);
      if MatchesAfter(word, q, false, out, k) { var m := Survives(word, rule, q, s, 0, k); }
    }
  }

  /** After the first `n` rules none of them matches, including across the seams of the replacements. */
  lemma {:induction false} NormalForm(word: WordClass, rules: seq<Rule>, s: string, n: nat, j: nat)
    requires Patterned(rules) && Confluent(word, rules) && j < n <= |rules|
    ensures NoMatch(word, rules[j], Rewritten(word, rules, s, n))
    decreases n
  {
    if j < n - 1 { NormalForm(word, rules, s, n - 1, j); }
    SubLeavesNone(word, rules[n - 1], rules[j], Rewritten(word, rules, s, n - 1));
  }

  lemma {:induction false} NoMatchNoChange(word: WordClass, rule: Rule, s: string, i: nat)
    requires rule.pattern != "" && NoMatch(word, rule, s) && i <= |s|
    ensures Sub(word, rule, s, i) == s[i..] && Count(word, rule, s, i) == 0
    decreases |s| - i
  {
    if i < |s| {
      NoMatchNoChange(word, rule, s, i + 1);
      assert s[i..] == [s[i]] + s[i + 1..];
    }
  }

  lemma {:induction false} IdleRun(word: WordClass, rules: seq<Rule>, out: string, n: nat)
    requires Patterned(rules) && n <= |rules| && forall j :: 0 <= j < n ==> NoMatch(word, rules[j], out)
    ensures Rewritten(word, rules, out, n) == out && Substitutions(word, rules, out, n) == 0
    decreases n
  {
    if n > 0 {
      IdleRun(word, rules, out, n - 1);
      NoMatchNoChange(word, rules[n - 1], out, 0);
      assert out[0..] == out;
    }
  }

  /** A second run makes no substitution and changes nothing. */
  lemma SecondRunIsIdle(word: WordClass, rules: seq<Rule>, s: string)
    requires Patterned(rules) && Confluent(word, rules)
    ensures var out := Rewritten(word, rules, s, |rules|);
            Rewritten(word, rules, out, |rules|) == out && Substitutions(word, rules, out, |rules|) == 0
  {
    var out := Rewritten(word, rules, s, |rules|);
    forall j | 0 <= j < |rules| ensures NoMatch(word, rules[j], out) { NormalForm(word, rules, s, |rules|, j); }
    IdleRun(word, rules, out, |rules|);
  }

  // ----- the two rule lists -----

  /** Where the `i` of the old name and the `y` of the new one stand. */
  function Pivot(r: Rule): nat {
    if r == HTTPS then 10 else if r == HTTP then 9 else if r == EMAIL then 3 else 2
  }

  predicate IsHead(c: char) { c == 'h' || c == 'p' || c == '@' || c == 'P' }
  predicate IsY(c: char) { c == 'y' || c == 'Y' }
  predicate IsI(c: char) { c == 'i' || c == 'I' }

  /** The replacement: one `y`, no `i`, and after the `y` no character a rule's strings begin with. */
  ghost predicate ReplFacts(repl: string, m: nat) {
    && m < |repl| && IsY(repl[m]) && IsHead(repl[0])
    && (forall k :: 0 <= k < |repl| ==> !IsI(repl[k]))
    && (forall k :: m < k < |repl| ==> !IsHead(repl[k]))
    && (repl[0] == 'h' ==> repl[1] == 't')
  }

  /** The pattern: one `i`, no `y`, and after the `i` at most an `h`, followed by a dot or at the end of a bounded
      word. */
  ghost predicate PatternFacts(q: Rule, m: nat) {
    && m < |q.pattern| && IsI(q.pattern[m]) && IsHead(q.pattern[0])
    && (forall k :: 0 <= k < |q.pattern| ==> !IsY(q.pattern[k]))
    && (forall k :: m < k < |q.pattern| && IsHead(q.pattern[k]) ==>
          q.pattern[k] == 'h' && if k + 1 < |q.pattern| then q.pattern[k + 1] == '.' else q.right)
  }

  ghost predicate Facts(r: Rule) {
    ReplFacts(r.repl, Pivot(r)) && PatternFacts(r, Pivot(r))
  }

  lemma HttpsRepl() ensures ReplFacts(HTTPS.repl, Pivot(HTTPS)) {}
  lemma HttpRepl() ensures ReplFacts(HTTP.repl, Pivot(HTTP)) {}
  lemma HttpsFacts() ensures Facts(HTTPS) { HttpsRepl(); }
  lemma HttpFacts() ensures Facts(HTTP) { HttpRepl(); }
  lemma DomainFacts() ensures Facts(DOMAIN) {}
  lemma EmailFacts() ensures Facts(EMAIL) {}
  lemma UpperFacts() ensures Facts(UPPER) {}
  lemma TitleFacts() ensures Facts(TITLE) {}

  lemma RuleFacts(r: Rule)
    requires r in AGGRESSIVE
    ensures Facts(r)
  {
    HttpsFacts();
    HttpFacts();
    DomainFacts();
    EmailFacts();
    UpperFacts();
    TitleFacts();
  }

  lemma ApartByPivots(word: WordClass, repl: string, m: nat, q: Rule, n: nat)
    requires Usual(word) && ReplFacts(repl, m) && PatternFacts(q, n)
    ensures Apart(word, repl, q)
  {
    forall k | 0 <= k < |repl| ensures !Agree(repl[k..], q.pattern) {
      Differ(repl[k..], q.pattern, if k > m then 0 else if m - k < |q.pattern| then m - k else n);
    }
    forall k | 0 <= k < |q.pattern| ensures Agree(q.pattern[k..], repl) ==> Blocked(word, repl, q, |q.pattern| - k) {
      if k <= n {
        Differ(q.pattern[k..], repl, if n - k < |repl| then n - k else m);
      } else {
        TailHeads(q.pattern, k);
        Differ(q.pattern[k..], repl, 0);
        Differ(q.pattern[k..], repl, 1);
      }
    }
  }

  lemma TailHeads(s: string, k: nat)
    requires k < |s|
    ensures s[k..][0] == s[k] && (k + 1 < |s| ==> |s[k..]| > 1 && s[k..][1] == s[k + 1])
  {
  }

  lemma Differ(a: string, b: string, i: nat)
    ensures i < |a| && i < |b| && a[i] != b[i] ==> !Agree(a, b)
  {
  }

  lemma ListConfluent(word: WordClass, rules: seq<Rule>)
    requires Usual(word) && (rules == CONSERVATIVE || rules == AGGRESSIVE)
    ensures Patterned(rules) && Confluent(word, rules)
  {
    forall i | 0 <= i < |rules| ensures SameEdges(word, rules[i]) { Edges(word, rules[i]); }
    forall i, j | 0 <= i < |rules| && 0 <= j < |rules| ensures Apart(word, rules[i].repl, rules[j]) {
      ApartAll(word, rules[i], rules[j]);
    }
  }

  lemma Edges(word: WordClass, r: Rule)
    requires Usual(word) && r in AGGRESSIVE
    ensures SameEdges(word, r)
  {
    assert r.pattern[0] == r.repl[0];
  }

  lemma ApartAll(word: WordClass, r: Rule, q: Rule)
    requires Usual(word) && r in AGGRESSIVE && q in AGGRESSIVE
    ensures Apart(word, r.repl, q)
  {
    RuleFacts(r);
    RuleFacts(q);
    ApartByPivots(word, r.repl, Pivot(r), q, Pivot(q));
  }

  /** For both rule lists and every text: after one pass no rule matches anywhere, and a second pass substitutes
      nothing. */
  lemma OnePassIsEnough(word: WordClass, rules: seq<Rule>, text: string)
    requires Usual(word) && (rules == CONSERVATIVE || rules == AGGRESSIVE)
    ensures Patterned(rules)
    ensures var out := Rewritten(word, rules, text, |rules|);
            && (forall j :: 0 <= j < |rules| ==> NoMatch(word, rules[j], out))
            && Rewritten(word, rules, out, |rules|) == out && Substitutions(word, rules, out, |rules|) == 0
  {
    ListConfluent(word, rules);
    forall j | 0 <= j < |rules| ensures NoMatch(word, rules[j], Rewritten(word, rules, text, |rules|)) {
      NormalForm(word, rules, text, |rules|, j);
    }
    SecondRunIsIdle(word, rules, text);
  }

  /** The reported number of substitutions is exactly the number of characters the text has become shorter by. */
  lemma {:induction false} ShorterByCount(word: WordClass, rules: seq<Rule>, text: string, n: nat)
    requires (rules == CONSERVATIVE || rules == AGGRESSIVE) && n <= |rules|
    ensures Patterned(rules)
    ensures |Rewritten(word, rules, text, n)| + Substitutions(word, rules, text, n) == |text|
    decreases n
  {
    if n > 0 {
      ShorterByCount(word, rules, text, n - 1);
      OneShorter(rules, n - 1);
      SubLength(word, rules[n - 1], Rewritten(word, rules, text, n - 1), 0);
    }
  }

  lemma OneShorter(rules: seq<Rule>, i: nat)
    requires (rules == CONSERVATIVE || rules == AGGRESSIVE) && i < |rules|
    ensures |rules[i].pattern| == |rules[i].repl| + 1
  {
  }

  /** Where the domain rule finds nothing, neither does the email rule. */
  lemma NoDomainNoEmail(word: WordClass, s: string)
    requires Usual(word)
    ensures NoMatch(word, DOMAIN, s) ==> NoMatch(word, EMAIL, s)
  {
    forall i | 0 <= i <= |s| && Matches(word, EMAIL, s, i) ensures Matches(word, DOMAIN, s, i + 1) {
      assert s[i..][0] == '@' && s[i..][1] == 'p' && s[i..][1..] == s[i + 1..];
      PrefixTail(EMAIL.pattern, s[i..]);
      assert EMAIL.pattern[1..] == DOMAIN.pattern;
    }
  }

  /** The fourth rule never finds anything in any text: the third has already taken every domain after an at sign, so
      the lists rewrite every text as they would without it. */
  lemma EmailRuleIsDead(word: WordClass, rules: seq<Rule>, text: string)
    requires Usual(word) && (rules == CONSERVATIVE || rules == AGGRESSIVE)
    ensures Patterned(rules) && rules[3] == EMAIL
    ensures NoMatch(word, EMAIL, Rewritten(word, rules, text, 3))
    ensures Rewritten(word, rules, text, 4) == Rewritten(word, rules, text, 3)
    ensures Substitutions(word, rules, text, 4) == Substitutions(word, rules, text, 3)
  {
    ListConfluent(word, rules);
    assert rules[2] == DOMAIN && rules[3] == EMAIL;
    var received := Rewritten(word, rules, text, 3);
    NormalForm(word, rules, text, 3, 2);
    NoDomainNoEmail(word, received);
    NoMatchNoChange(word, EMAIL, received, 0);
    assert received[0..] == received;
  }
}
