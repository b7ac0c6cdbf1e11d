/** Resolving a local `#/...` reference: JSON pointers (RFC 6901) over parsed documents. */
module JsonPointer {
  datatype Json =
    | Null | Bool(b: bool) | Number(n: int) | Text(s: string)
    | List(items: seq<Json>)
    | Object(fields: map<string, Json>)

  // ----- strings -----

  /** `s.replace([a, b], [c])`: every occurrence of the two-character pattern, left to right. */
  function Replace(s: string, a: char, b: char, c: char): string {
    if |s| < 2 then s
    else if s[0] == a && s[1] == b then [c] + Replace(s[2..], a, b, c)
    else [s[0]] + Replace(s[1..], a, b, c)
  }

  /** `s.split("/")`: always at least one chunk. */
  function Split(s: string): (chunks: seq<string>)
    ensures |chunks| >= 1
  {
    if s == "" then [""]
    else
      var rest := Split(s[1..]);
      if s[0] == '/' then [""] + rest else [[s[0]] + rest[0]] + rest[1..]
  }

  /** What the resolver does to each chunk: `~1` first, then `~0`. */
  function Unescape(chunk: string): string {
    Replace(Replace(chunk, '~', '1', '/'), '~', '0', '~')
  }

  /** Sections 3 and 4 of RFC 6901: `~` is written `~0` and `/` is written `~1`. */
  function Escape(key: string): string {
    if key == "" then "" else EscapeChar(key[0]) + Escape(key[1..])
  }

  function EscapeChar(c: char): string {
    if c == '~' then "~0" else if c == '/' then "~1" else [c]
  }

  function Join(chunks: seq<string>): string
    requires |chunks| >= 1
  {
    if |chunks| == 1 then chunks[0] else chunks[0] + "/" + Join(chunks[1..])
  }

  function EscapeAll(keys: seq<string>): (chunks: seq<string>)
    ensures |chunks| == |keys|
  {
    if keys == [] then [] else [Escape(keys[0])] + EscapeAll(keys[1..])
  }

  /** The pointer that names a path of keys. */
  function Pointer(keys: seq<string>): string
    requires keys != []
  {
    "#/" + Join(EscapeAll(keys))
  }

  // ----- resolution -----

  /** Follows the keys; anything missing, or anything on the way or at the end that is not a mapping, gives `{}`. */
  function Walk(cur: Json, keys: seq<string>): map<string, Json>
    decreases |keys|
  {
    if keys == [] then if cur.Object? then cur.fields else map[]
    else if !cur.Object? || keys[0] !in cur.fields then map[]
    else Walk(cur.fields[keys[0]], keys[1..])
  }

  function UnescapeAll(chunks: seq<string>): seq<string> {
    if chunks == [] then [] else [Unescape(chunks[0])] + UnescapeAll(chunks[1..])
  }

  function Resolved(doc: Json, ref: string): map<string, Json> {
    if "#/" <= ref then Walk(doc, UnescapeAll(Split(ref[2..]))) else map[]
  }

  method ResolveRef(doc: Json, ref: string) returns (found: map<string, Json>)
    ensures found == Resolved(doc, ref)
  {
    if !("#/" <= ref) { return map[]; }
    var cur := doc;
    var chunks := Split(ref[2..]);
    for i := 0 to |chunks|
      invariant Walk(doc, UnescapeAll(chunks)) == Walk(cur, UnescapeAll(chunks[i..]))
    {
      var chunk := Unescape(chunks[i]);
      assert chunks[i..] == [chunks[i]] + chunks[i + 1..];
      if !cur.Object? || chunk !in cur.fields { return map[]; }
      cur := cur.fields[chunk];
    }
    return if cur.Object? then cur.fields else map[];
  }

  // ----- escaping is inverted -----

  /** After the first replacement only `~` is still escaped. */
  function Halfway(key: string): string {
    if key == "" then "" else (if key[0] == '~' then "~0" else [key[0]]) + Halfway(key[1..])
  }

  lemma ReplaceKeeps(x: char, s: string, a: char, b: char, c: char)
    requires x != a || s == "" || s[0] != b
    ensures Replace([x] + s, a, b, c) == [x] + Replace(s, a, b, c)
  {
    assert ([x] + s)[1..] == s;
  }

  lemma ReplacePair(s: string, a: char, b: char, c: char)
    ensures Replace([a, b] + s, a, b, c) == [c] + Replace(s, a, b, c)
  {
    assert ([a, b] + s)[2..] == s;
  }

  lemma {:induction false} FirstReplace(key: string)
    ensures Replace(Escape(key), '~', '1', '/') == Halfway(key)
  {
    if key != "" {
      FirstReplace(key[1..]);
      var rest := Escape(key[1..]);
      if key[0] == '/' {
        ReplacePair(rest, '~', '1', '/');
      } else if key[0] == '~' {
        assert "~0" + rest == ['~'] + (['0'] + rest);
        ReplaceKeeps('~', ['0'] + rest, '~', '1', '/');
        ReplaceKeeps('0', rest, '~', '1', '/');
      } else {
        ReplaceKeeps(key[0], rest, '~', '1', '/');
      }
    }
  }

  lemma {:induction false} SecondReplace(key: string)
    ensures Replace(Halfway(key), '~', '0', '~') == key
  {
    if key != "" {
      SecondReplace(key[1..]);
      var rest := Halfway(key[1..]);
      if key[0] == '~' {
        ReplacePair(rest, '~', '0', '~');
      } else {
        ReplaceKeeps(key[0], rest, '~', '0', '~');
      }
    }
  }

  /** The `~1`-then-`~0` order inverts the escaping for every string. */
  lemma UnescapeEscape(key: string)
    ensures Unescape(Escape(key)) == key
  {
    FirstReplace(key);
    SecondReplace(key);
  }

  /** What the two replacements give the other way round. */
  function UnescapeZeroFirst(chunk: string): string {
    Replace(Replace(chunk, '~', '0', '~'), '~', '1', '/')
  }

  /** With `~0` replaced first, only `/` is still escaped. */
  function OtherHalfway(key: string): string {
    if key == "" then "" else (if key[0] == '/' then "~1" else [key[0]]) + OtherHalfway(key[1..])
  }

  lemma {:induction false} ZeroFirst(key: string)
    ensures Replace(Escape(key), '~', '0', '~') == OtherHalfway(key)
  {
    if key != "" {
      ZeroFirst(key[1..]);
      var rest := Escape(key[1..]);
      if key[0] == '~' {
        ReplacePair(rest, '~', '0', '~');
      } else if key[0] == '/' {
        SlashKept(rest);
      } else {
        ReplaceKeeps(key[0], rest, '~', '0', '~');
      }
    }
  }

  lemma SlashKept(rest: string)
    ensures Replace("~1" + rest, '~', '0', '~') == "~1" + Replace(rest, '~', '0', '~')
  {
    assert "~1" + rest == ['~'] + (['1'] + rest);
    ReplaceKeeps('~', ['1'] + rest, '~', '0', '~');
    ReplaceKeeps('1', rest, '~', '0', '~');
  }

  lemma {:induction false} ThenOne(key: string)
    ensures Replace(OtherHalfway(key), '~', '1', '/') == Replace(key, '~', '1', '/')
    decreases |key|
  {
    if key != "" {
      ThenOne(key[1..]);
      var rest := OtherHalfway(key[1..]);
      if key[0] == '/' {
        ReplacePair(rest, '~', '1', '/');
        ReplaceKeeps('/', key[1..], '~', '1', '/');
      } else if |key| >= 2 && key[0] == '~' && key[1] == '1' {
        ThenOne(key[2..]);
        TildeOne(key);
      } else {
        ReplaceKeeps(key[0], rest, '~', '1', '/');
        ReplaceKeeps(key[0], key[1..], '~', '1', '/');
        assert [key[0]] + key[1..] == key;
      }
    }
  }

  lemma TildeOne(key: string)
    requires |key| >= 2 && key[0] == '~' && key[1] == '1'
    ensures Replace(OtherHalfway(key), '~', '1', '/') == "/" + Replace(OtherHalfway(key[2..]), '~', '1', '/')
  {
    assert key[1..][1..] == key[2..];
    assert OtherHalfway(key) == ['~', '1'] + OtherHalfway(key[2..]);
    ReplacePair(OtherHalfway(key[2..]), '~', '1', '/');
  }

  predicate Occurs(a: char, b: char, s: string) {
    exists i :: 0 <= i < |s| - 1 && s[i] == a && s[i + 1] == b
  }

  lemma {:induction false} ReplaceShrinks(s: string, a: char, b: char, c: char)
    ensures |Replace(s, a, b, c)| <= |s|
    ensures if Occurs(a, b, s) then |Replace(s, a, b, c)| < |s| else Replace(s, a, b, c) == s
    decreases |s|
  {
    if |s| < 2 {
    } else if s[0] == a && s[1] == b {
      ReplaceShrinks(s[2..], a, b, c);
    } else {
      ReplaceShrinks(s[1..], a, b, c);
      if i :| 0 <= i < |s| - 1 && s[i] == a && s[i + 1] == b { assert s[1..][i - 1] == a && s[1..][i] == b; }
      if j :| 0 <= j < |s| - 2 && s[1..][j] == a && s[1..][j + 1] == b { assert s[j + 1] == a && s[j + 2] == b; }
    }
  }

  /** The other order brings a key back exactly when the key does not contain `~1`; it turns each `~1` into a slash. */
  lemma OtherOrderIff(key: string)
    ensures UnescapeZeroFirst(Escape(key)) == Replace(key, '~', '1', '/')
    ensures UnescapeZeroFirst(Escape(key)) == key <==> !Occurs('~', '1', key)
  {
    ZeroFirst(key);
    ThenOne(key);
    ReplaceShrinks(key, '~', '1', '/');
  }

  // ----- splitting inverts joining -----

  lemma {:induction false} EscapedHasNoSlash(key: string)
    ensures '/' !in Escape(key)
  {
    if key != "" { EscapedHasNoSlash(key[1..]); }
  }

  lemma {:induction false} SplitOne(chunk: string)
    requires '/' !in chunk
    ensures Split(chunk) == [chunk]
  {
    if chunk != "" {
      SplitOne(chunk[1..]);
      assert chunk[0] != '/' && [chunk[0]] + chunk[1..] == chunk;
    }
  }

  lemma {:induction false} SplitFirst(chunk: string, rest: string)
    requires '/' !in chunk
    ensures Split(chunk + "/" + rest) == [chunk] + Split(rest)
    decreases |chunk|
  {
    var s := chunk + "/" + rest;
    if chunk == "" {
      assert s[1..] == rest;
    } else {
      SplitFirst(chunk[1..], rest);
      assert s[1..] == chunk[1..] + "/" + rest && chunk[0] != '/';
      assert [chunk[0]] + chunk[1..] == chunk;
    }
  }

  lemma {:induction false} SplitJoin(keys: seq<string>)
    requires keys != []
    ensures Split(Join(EscapeAll(keys))) == EscapeAll(keys)
  {
    EscapedHasNoSlash(keys[0]);
    if |keys| == 1 {
      SplitOne(Escape(keys[0]));
    } else {
      SplitJoin(keys[1..]);
      assert EscapeAll(keys)[1..] == EscapeAll(keys[1..]);
      SplitFirst(Escape(keys[0]), Join(EscapeAll(keys[1..])));
    }
  }

  lemma {:induction false} UnescapeEscapeAll(keys: seq<string>)
    ensures UnescapeAll(EscapeAll(keys)) == keys
  {
    if keys != [] {
      UnescapeEscape(keys[0]);
      UnescapeEscapeAll(keys[1..]);
      assert EscapeAll(keys)[1..] == EscapeAll(keys[1..]);
    }
  }

  /** For every non-empty path of keys, whatever characters they contain, the pointer that names it resolves to exactly
      the mapping found by following the keys. */
  lemma PointerResolves(doc: Json, keys: seq<string>)
    requires keys != []
    ensures Resolved(doc, Pointer(keys)) == Walk(doc, keys)
  {
    SplitJoin(keys);
    UnescapeEscapeAll(keys);
    assert Pointer(keys)[2..] == Join(EscapeAll(keys));
  }

  /** Distinct paths have distinct pointers. */
  lemma PointerInjective(a: seq<string>, b: seq<string>)
    requires a != [] && b != [] && Pointer(a) == Pointer(b)
    ensures a == b
  {
    assert Pointer(a)[2..] == Join(EscapeAll(a)) && Pointer(b)[2..] == Join(EscapeAll(b));
    SplitJoin(a);
    SplitJoin(b);
    UnescapeEscapeAll(a);
    UnescapeEscapeAll(b);
  }

  /** The documents found on the way along the keys, one inside the other, as far as they go. */
  ghost predicate Nested(doc: Json, keys: seq<string>, docs: seq<Json>) {
    |docs| >= 1 && docs[0] == doc && |docs| <= |keys| + 1
    && forall i :: 0 <= i < |docs| - 1 ==>
         docs[i].Object? && keys[i] in docs[i].fields && docs[i + 1] == docs[i].fields[keys[i]]
  }

  lemma {:induction false} WalkNested(doc: Json, keys: seq<string>, docs: seq<Json>)
    requires Nested(doc, keys, docs)
    ensures Walk(doc, keys) == Walk(docs[|docs| - 1], keys[|docs| - 1..])
    decreases |keys|
  {
    if |docs| > 1 {
      WalkNested(docs[1], keys[1..], docs[1..]);
      assert keys[1..][|docs| - 2..] == keys[|docs| - 1..];
    }
  }

  /** Where the keys lead to a mapping, the pointer resolves to it; where one of them is missing, or something on the
      way or at the end is not a mapping, it resolves to an empty one. */
  lemma PointerFinds(doc: Json, keys: seq<string>, docs: seq<Json>)
    requires keys != [] && Nested(doc, keys, docs)
    ensures var last, n := docs[|docs| - 1], |docs| - 1;
            && (n == |keys| && last.Object? ==> Resolved(doc, Pointer(keys)) == last.fields)
            && (n == |keys| && !last.Object? ==> Resolved(doc, Pointer(keys)) == map[])
            && (n < |keys| && (!last.Object? || keys[n] !in last.fields) ==> Resolved(doc, Pointer(keys)) == map[])
  {
    PointerResolves(doc, keys);
    WalkNested(doc, keys, docs);
  }

  lemma {:induction false} PlainKey(key: string)
    requires '~' !in key && '/' !in key
    ensures Escape(key) == key
  {
    if key != "" { PlainKey(key[1..]); }
  }

  /** The usual reference to a component of some kind, with nothing to escape in its name, means just that component. */
  lemma ComponentFound(doc: Json, kind: string, name: string, components: Json, group: Json, item: Json)
    requires '~' !in kind && '/' !in kind && '~' !in name && '/' !in name
    requires doc.Object? && "components" in doc.fields && doc.fields["components"] == components
    requires components.Object? && kind in components.fields && components.fields[kind] == group
    requires group.Object? && name in group.fields && group.fields[name] == item && item.Object?
    ensures Resolved(doc, "#/components/" + kind + "/" + name) == item.fields
  {
    var keys := ["components", kind, name];
    ComponentPointer(kind, name);
    assert Nested(doc, keys, [doc, components, group, item]);
    PointerFinds(doc, keys, [doc, components, group, item]);
  }

  lemma ComponentPointer(kind: string, name: string)
    requires '~' !in kind && '/' !in kind && '~' !in name && '/' !in name
    ensures Pointer(["components", kind, name]) == "#/components/" + kind + "/" + name
  {
    ComponentsIsPlain();
    ThreeKeys("components", kind, name);
    Regrouped("#/", "components", "/", kind, name);
  }

  lemma ComponentsIsPlain()
    ensures '~' !in "components" && '/' !in "components" && "#/" + "components" + "/" == "#/components/"
  {
  }

  lemma Regrouped(a: string, b: string, c: string, d: string, e: string)
    ensures a + (b + c + (d + c + e)) == a + b + c + d + c + e
  {
    assert b + c + (d + c + e) == b + c + d + c + e;
    assert a + (b + c + d + c + e) == a + b + c + d + c + e;
  }

  lemma ThreeKeys(a: string, b: string, c: string)
    requires '~' !in a && '/' !in a && '~' !in b && '/' !in b && '~' !in c && '/' !in c
    ensures Pointer([a, b, c]) == "#/" + (a + "/" + (b + "/" + c))
  {
    PlainKey(a);
    PlainKey(b);
    PlainKey(c);
    assert EscapeAll([c]) == [c];
    assert EscapeAll([b, c]) == [b, c] by { assert [b, c][1..] == [c]; }
    assert EscapeAll([a, b, c]) == [a, b, c] by { assert [a, b, c][1..] == [b, c]; }
    assert Join([b, c]) == b + "/" + c by { assert [b, c][1..] == [c]; }
    assert Join([a, b, c]) == a + "/" + Join([b, c]) by { assert [a, b, c][1..] == [b, c]; }
  }
}
