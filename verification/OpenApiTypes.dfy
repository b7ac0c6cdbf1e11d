/** What two types and two versions have to be for the diff to tell them apart. */
module OpenApiTypes {
  import opened Wrappers
  import opened Sorting
  import opened SchemaFlatten
  import opened OpenApiDiff

  // ----- the order of type names -----

  /** Up to the first difference the strings are the same, and there the character of the first one is smaller, or it
      ends. */
  lemma {:induction false} AtMostIs(a: string, b: string)
    ensures AtMost(a, b) <==>
              a <= b || exists i :: 0 <= i < |a| && i < |b| && a[..i] == b[..i] && a[i] < b[i]
  {
    if a != "" && b != "" {
      AtMostIs(a[1..], b[1..]);
      if a[0] == b[0] {
        assert a == [a[0]] + a[1..] && b == [b[0]] + b[1..];
        assert a <= b <==> a[1..] <= b[1..];
        if i :| 0 <= i < |a| && i < |b| && a[..i] == b[..i] && a[i] < b[i] {
          assert a[1..][..i - 1] == a[..i][1..] && b[1..][..i - 1] == b[..i][1..];
          assert a[1..][i - 1] < b[1..][i - 1];
        }
        if j :| 0 <= j < |a| - 1 && j < |b| - 1 && a[1..][..j] == b[1..][..j] && a[1..][j] < b[1..][j] {
          assert a[..j + 1] == [a[0]] + a[1..][..j] && b[..j + 1] == [b[0]] + b[1..][..j];
          assert a[j + 1] < b[j + 1];
        }
      } else if a[0] < b[0] {
        assert a[..0] == b[..0];
      } else {
        SameHeads(a, b);
      }
    }
  }

  lemma SameHeads(a: string, b: string)
    ensures forall i :: 0 < i <= |a| && i <= |b| && a[..i] == b[..i] ==> a[0] == b[0]
  {
    forall i | 0 < i <= |a| && i <= |b| && a[..i] == b[..i] ensures a[0] == b[0] {
      assert a[..i][0] == a[0] && b[..i][0] == b[0];
    }
  }

  lemma {:induction false} AtMostTotal(a: string, b: string)
    ensures AtMost(a, b) || AtMost(b, a)
    ensures AtMost(a, b) && AtMost(b, a) ==> a == b
  {
    if a != "" && b != "" {
      AtMostTotal(a[1..], b[1..]);
      assert a == [a[0]] + a[1..] && b == [b[0]] + b[1..];
    }
  }

  lemma {:induction false} AtMostTransitive(a: string, b: string, c: string)
    requires AtMost(a, b) && AtMost(b, c)
    ensures AtMost(a, c)
  {
    if a != "" && a[0] == b[0] && b[0] == c[0] { AtMostTransitive(a[1..], b[1..], c[1..]); }
  }

  lemma NamesOrdered()
    ensures TotalOrder(AtMost)
  {
    forall a, b ensures AtMost(a, b) || AtMost(b, a) { AtMostTotal(a, b); }
    forall a, b | AtMost(a, b) && AtMost(b, a) ensures a == b { AtMostTotal(a, b); }
    forall a, b, c | AtMost(a, b) && AtMost(b, c) ensures AtMost(a, c) { AtMostTransitive(a, b, c); }
  }

  // ----- joined names -----

  /** A name a type can have: not empty, and without the bar the names are joined with. */
  predicate Proper(name: string) {
    name != "" && '|' !in name
  }

  predicate AllProper(names: seq<string>) {
    forall i :: 0 <= i < |names| ==> Proper(names[i])
  }

  /** The text up to the first bar. */
  lemma FirstNames(a: string, b: string, c: string, d: string)
    requires '|' !in a && '|' !in c && (b == "" || b[0] == '|') && (d == "" || d[0] == '|') && a + b == c + d
    ensures a == c && b == d
  {
    var s := a + b;
    assert s[..|a|] == a && s[..|c|] == c && s[|a|..] == b && s[|c|..] == d;
    assert |a| < |s| ==> s[|a|] == '|';
    assert |c| < |s| ==> s[|c|] == '|';
    assert forall i :: 0 <= i < |a| ==> s[i] == a[i] && a[i] != '|';
    assert forall i :: 0 <= i < |c| ==> s[i] == c[i] && c[i] != '|';
  }

  function Rest(names: seq<string>): string
    requires names != []
  {
    if |names| == 1 then "" else "|" + JoinBar(names[1..])
  }

  lemma JoinSplits(names: seq<string>)
    requires names != []
    ensures JoinBar(names) == names[0] + Rest(names)
  {
    if |names| > 1 { assert names[0] + "|" + JoinBar(names[1..]) == names[0] + ("|" + JoinBar(names[1..])); }
  }

  /** Joining proper names loses nothing. */
  lemma {:induction false} JoinInjective(a: seq<string>, b: seq<string>)
    requires AllProper(a) && AllProper(b) && JoinBar(a) == JoinBar(b)
    ensures a == b
    decreases |a|
  {
    if a == [] || b == [] {
      if a != [] { JoinSplits(a); }
      if b != [] { JoinSplits(b); }
    } else {
      JoinSplits(a);
      JoinSplits(b);
      FirstNames(a[0], Rest(a), b[0], Rest(b));
      if |a| > 1 && |b| > 1 {
        assert Rest(a)[1..] == JoinBar(a[1..]) && Rest(b)[1..] == JoinBar(b[1..]);
        JoinInjective(a[1..], b[1..]);
        assert a == [a[0]] + a[1..] && b == [b[0]] + b[1..];
      }
    }
  }

  /** The names a type stands for, as often as each is given. */
  function NamesOf(t: TypeName): seq<string> {
    match t
    case One(name) => [name]
    case Many(names) => names
  }

  lemma ScalarIs(s: Schema)
    requires s.Schema? && s.type_.Some?
    ensures ScalarType(s) == JoinBar(Sorted(AtMost, NamesOf(s.type_.value)))
  {
  }

  lemma SortedProper(names: seq<string>)
    requires AllProper(names)
    ensures AllProper(Sorted(AtMost, names))
  {
    var sorted := Sorted(AtMost, names);
    SortedKeeps(AtMost, names);
    forall i | 0 <= i < |sorted| ensures Proper(sorted[i]) {
      assert sorted[i] in multiset(sorted);
      assert sorted[i] in names;
    }
  }

  predicate ProperType(s: Schema) {
    s.Schema? && s.type_.Some? && NamesOf(s.type_.value) != [] && AllProper(NamesOf(s.type_.value))
  }

  /** Two types clash exactly when they do not give the same names, each as often, whatever their order, and whether one
      name is given alone or in a list. */
  lemma ClashIff(o: Schema, n: Schema)
    requires ProperType(o) && ProperType(n)
    ensures TypesClash(o, n) <==> multiset(NamesOf(o.type_.value)) != multiset(NamesOf(n.type_.value))
  {
    var a, b := NamesOf(o.type_.value), NamesOf(n.type_.value);
    NamesOrdered();
    ScalarIs(o);
    ScalarIs(n);
    SortedProper(a);
    SortedProper(b);
    SortedKeeps(AtMost, a);
    SortedKeeps(AtMost, b);
    JoinSplits(Sorted(AtMost, a));
    JoinSplits(Sorted(AtMost, b));
    if multiset(a) == multiset(b) { SortedPermutes(AtMost, a, b); }
    if ScalarType(o) == ScalarType(n) { JoinInjective(Sorted(AtMost, a), Sorted(AtMost, b)); }
  }

  /** A schema without a type, or with an empty list of types, clashes with nothing. */
  lemma UntypedNeverClashes(o: Schema, n: Schema)
    requires o.NotASchema? || o.type_ == None || NamesOf(o.type_.value) == []
    ensures !TypesClash(o, n) && !TypesClash(n, o)
  {
  }

  // ----- versions -----

  lemma {:induction false} HeadOf(digits: string, rest: string)
    requires AllDigits(digits) && (rest == "" || rest[0] == '.')
    ensures Head(digits + rest) == digits
  {
    if digits != "" {
      HeadOf(digits[1..], rest);
      assert (digits + rest)[1..] == digits[1..] + rest;
    }
  }

  /** The major version is the number before the first dot, or the whole version if it has none. */
  lemma MajorIs(n: nat, rest: string)
    requires rest == "" || rest[0] == '.'
    ensures Major(Numeral(n) + rest) == n
  {
    NumeralRead(n);
    HeadOf(Numeral(n), rest);
  }
}
