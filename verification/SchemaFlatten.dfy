/** Flattening a schema: following `$ref` and merging `allOf`. */
module SchemaFlatten {
  import opened Wrappers
  import opened JsonPointer

  /** The value under `type`; anything but a string or a list reads as the empty string. */
  datatype TypeName = One(name: string) | Many(names: seq<string>)

  /** The keys of a schema the contract checks look at.  An enum that is not a list reads as an
      empty one, and so do an absent `properties`, `required` or `allOf`. */
  datatype Schema =
    | NotASchema
    | Schema(ref: Option<string>, type_: Option<TypeName>, values: Option<seq<string>>,
             properties: map<string, Schema>, required: seq<string>, allOf: seq<Schema>)

  const EMPTY := Schema(None, None, None, map[], [], [])

  // ----- reading a schema from a document -----

  /** `str(j)` for the values an enum or a list of types can hold; nested lists and mappings read as empty text. */
  function Str(j: Json): string {
    match j
    case Null => "None"
    case Bool(b) => if b then "True" else "False"
    case Number(n) => if n < 0 then "-" + Numeral(-n) else Numeral(n)
    case Text(s) => s
    case _ => ""
  }

  function Texts(items: seq<Json>): (texts: seq<string>)
    ensures |texts| == |items|
  {
    seq(|items|, i requires 0 <= i < |items| => Str(items[i]))
  }

  /** The text itself; anything else reads as empty. */
  function NameOf(j: Json): string {
    if j.Text? then j.s else ""
  }

  function ReadSchema(j: Json): Schema {
    if !j.Object? then NotASchema
    else
      var f := j.fields;
      Schema(
        if "$ref" in f then Some(NameOf(f["$ref"])) else None,
        if "type" in f then Some(if f["type"].List? then Many(Texts(f["type"].items)) else One(NameOf(f["type"])))
        else None,
        if "enum" in f then Some(if f["enum"].List? then Texts(f["enum"].items) else []) else None,
        if "properties" in f && f["properties"].Object? then
          map k | k in f["properties"].fields :: ReadSchema(f["properties"].fields[k])
        else map[],
        if "required" in f && f["required"].List? then Texts(f["required"].items) else [],
        if "allOf" in f && f["allOf"].List? then
          seq(|f["allOf"].items|, i requires 0 <= i < |f["allOf"].items| => ReadSchema(f["allOf"].items[i]))
        else [])
  }

  /** A schema written out as a document again. */
  function WriteSchema(s: Schema): Json {
    match s
    case NotASchema => Null
    case Schema(ref, type_, values, properties, required, allOf) =>
      Object((if ref.Some? then map["$ref" := Text(ref.value)] else map[])
             + (if type_.Some? then map["type" := WriteType(type_.value)] else map[])
             + (if values.Some? then map["enum" := WriteTexts(values.value)] else map[])
             + map["properties" := Object(map k | k in properties :: WriteSchema(properties[k]))]
             + map["required" := WriteTexts(required)]
             + map["allOf" := List(seq(|allOf|, i requires 0 <= i < |allOf| => WriteSchema(allOf[i])))])
  }

  function WriteType(t: TypeName): Json {
    match t
    case One(name) => Text(name)
    case Many(names) => WriteTexts(names)
  }

  function WriteTexts(texts: seq<string>): Json {
    List(seq(|texts|, i requires 0 <= i < |texts| => Text(texts[i])))
  }

  lemma TextsBack(texts: seq<string>)
    ensures WriteTexts(texts).List? && Texts(WriteTexts(texts).items) == texts
  {
  }

  lemma WrittenRef(s: Schema)
    requires s.Schema?
    ensures var f := WriteSchema(s).fields;
            if s.ref.Some? then "$ref" in f && f["$ref"] == Text(s.ref.value) else "$ref" !in f
  {
    FieldNamesDiffer();
  }

  lemma WrittenType(s: Schema)
    requires s.Schema?
    ensures var f := WriteSchema(s).fields;
            if s.type_.Some? then "type" in f && f["type"] == WriteType(s.type_.value) else "type" !in f
  {
    FieldNamesDiffer();
  }

  lemma WrittenEnum(s: Schema)
    requires s.Schema?
    ensures var f := WriteSchema(s).fields;
            if s.values.Some? then "enum" in f && f["enum"] == WriteTexts(s.values.value) else "enum" !in f
  {
    FieldNamesDiffer();
  }

  lemma WrittenRequired(s: Schema)
    requires s.Schema?
    ensures var f := WriteSchema(s).fields; "required" in f && f["required"] == WriteTexts(s.required)
  {
    FieldNamesDiffer();
  }

  lemma FieldNamesDiffer()
    ensures "$ref"[0] == '$' && "type"[0] == 't' && "enum"[0] == 'e'
    ensures "properties"[0] == 'p' && "required"[0] == 'r' && "allOf"[0] == 'a'
  {
  }

  lemma WrittenParts(s: Schema)
    requires s.Schema?
    ensures var f := WriteSchema(s).fields;
            && "properties" in f && f["properties"].Object? && f["properties"].fields.Keys == s.properties.Keys
            && (forall k :: k in s.properties ==> f["properties"].fields[k] == WriteSchema(s.properties[k]))
            && "allOf" in f && f["allOf"].List? && |f["allOf"].items| == |s.allOf|
            && (forall i :: 0 <= i < |s.allOf| ==> f["allOf"].items[i] == WriteSchema(s.allOf[i]))
  {
    FieldNamesDiffer();
  }

  /** Reading a schema from a document loses nothing: what was written is read back. */
  lemma {:induction false} ReadWritten(s: Schema)
    ensures ReadSchema(WriteSchema(s)) == s
  {
    if s.Schema? {
      forall k | k in s.properties ensures ReadSchema(WriteSchema(s.properties[k])) == s.properties[k] {
        ReadWritten(s.properties[k]);
      }
      forall i | 0 <= i < |s.allOf| ensures ReadSchema(WriteSchema(s.allOf[i])) == s.allOf[i] {
        ReadWritten(s.allOf[i]);
      }
      OwnFieldsBack(s);
      PartsBack(s);
    }
  }

  lemma OwnFieldsBack(s: Schema)
    requires s.Schema?
    ensures var r := ReadSchema(WriteSchema(s));
            r.Schema? && r.ref == s.ref && r.type_ == s.type_ && r.values == s.values && r.required == s.required
  {
    WrittenRef(s);
    WrittenType(s);
    WrittenEnum(s);
    WrittenRequired(s);
    TextsBack(s.required);
    if s.values.Some? { TextsBack(s.values.value); }
    if s.type_.Some? && s.type_.value.Many? { TextsBack(s.type_.value.names); }
  }

  lemma PartsBack(s: Schema)
    requires s.Schema?
    requires forall k :: k in s.properties ==> ReadSchema(WriteSchema(s.properties[k])) == s.properties[k]
    requires forall i :: 0 <= i < |s.allOf| ==> ReadSchema(WriteSchema(s.allOf[i])) == s.allOf[i]
    ensures var r := ReadSchema(WriteSchema(s)); r.Schema? && r.properties == s.properties && r.allOf == s.allOf
  {
    WrittenParts(s);
  }

  /** What a reference means: the schema found under its pointer, or an empty one. */
  type Refs = string -> Schema

  function RefsOf(doc: Json): Refs {
    (ref: string) => ReadSchema(Object(Resolved(doc, ref)))
  }

  /** A reference written as the pointer of a path means the schema found by following that path. */
  lemma RefMeansPath(doc: Json, keys: seq<string>)
    requires keys != []
    ensures RefsOf(doc)(Pointer(keys)) == ReadSchema(Object(Walk(doc, keys)))
  {
    PointerResolves(doc, keys);
  }

  // ----- references that can be ranked -----

  function Max(a: nat, b: nat): nat { if a < b then b else a }

  /** One more than the number of branches. */
  function Size(s: Schema): nat { if s.Schema? then |s.allOf| + 1 else 0 }

  /** How high the references on the way of flattening this schema are ranked. */
  ghost function Height(s: Schema, rank: string -> nat): nat
    decreases s, Size(s)
  {
    match s
    case NotASchema => 0
    case Schema(ref, _, _, _, _, allOf) =>
      if ref.Some? then rank(ref.value) + 1
      else HeightOfAll(s, rank, |allOf|)
  }

  ghost function HeightOfAll(s: Schema, rank: string -> nat, n: nat): nat
    requires s.Schema? && n <= |s.allOf|
    decreases s, n
  {
    if n == 0 then 0 else Max(HeightOfAll(s, rank, n - 1), Height(s.allOf[n - 1], rank))
  }

  lemma {:induction false} HeightOfOne(s: Schema, rank: string -> nat, n: nat, i: nat)
    requires s.Schema? && i < n <= |s.allOf|
    ensures Height(s.allOf[i], rank) <= HeightOfAll(s, rank, n)
    decreases n
  {
    if i < n - 1 { HeightOfOne(s, rank, n - 1, i); }
  }

  /** Every reference leads only to lower ones. */
  ghost predicate Ranked(refs: Refs, rank: string -> nat) {
    forall ref :: Height(refs(ref), rank) <= rank(ref)
  }

  /** The references flattening this schema follows first. */
  ghost predicate LeadsTo(s: Schema, ref: string) {
    s.Schema? && if s.ref.Some? then s.ref.value == ref
                 else exists i :: 0 <= i < |s.allOf| && LeadsTo(s.allOf[i], ref)
  }

  lemma {:induction false} LeadsLower(s: Schema, ref: string, rank: string -> nat)
    requires LeadsTo(s, ref)
    ensures rank(ref) < Height(s, rank)
  {
    if s.ref == None {
      var i :| 0 <= i < |s.allOf| && LeadsTo(s.allOf[i], ref);
      LeadsLower(s.allOf[i], ref, rank);
      HeightOfOne(s, rank, |s.allOf|, i);
    }
  }

  /** Each reference leads to the next. */
  ghost predicate Follows(refs: Refs, path: seq<string>) {
    |path| >= 2 && forall i :: 0 <= i < |path| - 1 ==> LeadsTo(refs(path[i]), path[i + 1])
  }

  lemma {:induction false} PathDescends(refs: Refs, rank: string -> nat, path: seq<string>)
    requires Ranked(refs, rank) && Follows(refs, path)
    ensures rank(path[|path| - 1]) < rank(path[0])
    decreases |path|
  {
    LeadsLower(refs(path[0]), path[1], rank);
    if |path| > 2 { PathDescends(refs, rank, path[1..]); }
  }

  ghost predicate Reaches(refs: Refs, a: string, b: string) {
    exists path :: Follows(refs, path) && path[0] == a && path[|path| - 1] == b
  }

  /** No reference leads back to itself, on which flattening would not terminate. */
  ghost predicate Acyclic(refs: Refs) {
    forall a :: !Reaches(refs, a, a)
  }

  /** A cycle of references admits no rank. */
  lemma CyclesHaveNoRank(refs: Refs, rank: string -> nat)
    requires Ranked(refs, rank)
    ensures Acyclic(refs)
  {
    forall a ensures !Reaches(refs, a, a) {
      if path :| Follows(refs, path) && path[0] == a && path[|path| - 1] == a { PathDescends(refs, rank, path); }
    }
  }

  ghost function Reached(refs: Refs, nodes: set<string>, a: string): set<string> {
    set b | b in nodes && Reaches(refs, a, b)
  }

  /** The number of references a reference leads to, at any distance. */
  ghost function ByReach(refs: Refs, nodes: set<string>): string -> nat {
    (a: string) => |Reached(refs, nodes, a)|
  }

  lemma StepReaches(refs: Refs, a: string, b: string)
    requires LeadsTo(refs(a), b)
    ensures Reaches(refs, a, b)
    ensures forall c :: Reaches(refs, b, c) ==> Reaches(refs, a, c)
  {
    assert Follows(refs, [a, b]) && [a, b][0] == a && [a, b][1] == b;
    forall c | Reaches(refs, b, c) ensures Reaches(refs, a, c) {
      var path :| Follows(refs, path) && path[0] == b && path[|path| - 1] == c;
      var longer := [a] + path;
      assert Follows(refs, longer) && longer[0] == a && longer[|longer| - 1] == c;
    }
  }

  lemma ReachDrops(refs: Refs, nodes: set<string>, a: string, b: string)
    requires Acyclic(refs) && LeadsTo(refs(a), b) && b in nodes
    ensures ByReach(refs, nodes)(b) < ByReach(refs, nodes)(a)
  {
    StepReaches(refs, a, b);
    SubsetSize(Reached(refs, nodes, b) + {b}, Reached(refs, nodes, a));
  }

  /** A height comes from some reference that is followed first. */
  lemma {:induction false} HeightFrom(s: Schema, rank: string -> nat)
    ensures Height(s, rank) == 0 || exists ref :: LeadsTo(s, ref) && Height(s, rank) == rank(ref) + 1
    decreases s, Size(s)
  {
    if s.Schema? {
      if s.ref.Some? {
        assert LeadsTo(s, s.ref.value);
      } else {
        HeightFromAll(s, rank, |s.allOf|);
      }
    }
  }

  lemma {:induction false} HeightFromAll(s: Schema, rank: string -> nat, n: nat)
    requires s.Schema? && s.ref == None && n <= |s.allOf|
    ensures HeightOfAll(s, rank, n) == 0 || exists ref :: LeadsTo(s, ref) && HeightOfAll(s, rank, n) == rank(ref) + 1
    decreases s, n
  {
    if n > 0 {
      HeightFromAll(s, rank, n - 1);
      HeightFrom(s.allOf[n - 1], rank);
    }
  }

  /** With no cycle and finitely many references, counting what each of them leads to ranks them. */
  lemma AcyclicRanked(refs: Refs, nodes: set<string>)
    requires Acyclic(refs) && forall a, b :: LeadsTo(refs(a), b) ==> b in nodes
    ensures Ranked(refs, ByReach(refs, nodes))
  {
    var rank := ByReach(refs, nodes);
    forall a ensures Height(refs(a), rank) <= rank(a) {
      HeightFrom(refs(a), rank);
      if Height(refs(a), rank) > 0 {
        var b :| LeadsTo(refs(a), b) && Height(refs(a), rank) == rank(b) + 1;
        ReachDrops(refs, nodes, a, b);
      }
    }
  }

  /** Every reference written anywhere in a document. */
  ghost function Written(j: Json): set<string> {
    match j
    case List(items) => set i, x | 0 <= i < |items| && x in Written(items[i]) :: x
    case Object(fields) =>
      (if "$ref" in fields then {NameOf(fields["$ref"])} else {})
      + set k, x | k in fields && x in Written(fields[k]) :: x
    case _ => {}
  }

  lemma {:induction false} LeadsToWritten(j: Json, ref: string)
    requires LeadsTo(ReadSchema(j), ref)
    ensures ref in Written(j)
    decreases j
  {
    var f, s := j.fields, ReadSchema(j);
    if s.ref == None {
      var i :| 0 <= i < |s.allOf| && LeadsTo(s.allOf[i], ref);
      var items := f["allOf"].items;
      assert s.allOf[i] == ReadSchema(items[i]);
      LeadsToWritten(items[i], ref);
      assert ref in Written(f["allOf"]);
    }
  }

  lemma {:induction false} WalkWritten(doc: Json, keys: seq<string>)
    ensures Written(Object(Walk(doc, keys))) <= Written(doc)
    decreases |keys|
  {
    if keys != [] && doc.Object? && keys[0] in doc.fields {
      WalkWritten(doc.fields[keys[0]], keys[1..]);
    } else if keys == [] && doc.Object? {
      assert Object(doc.fields) == doc;
    }
  }

  lemma LeadsIntoDocument(doc: Json, a: string, b: string)
    requires LeadsTo(RefsOf(doc)(a), b)
    ensures b in Written(doc)
  {
    LeadsToWritten(Object(Resolved(doc, a)), b);
    if "#/" <= a { WalkWritten(doc, UnescapeAll(Split(a[2..]))); }
  }

  /** The references of a document can be ranked exactly when none of them leads back to itself. */
  lemma RankIffAcyclic(doc: Json)
    ensures (exists rank :: Ranked(RefsOf(doc), rank)) <==> Acyclic(RefsOf(doc))
  {
    var refs := RefsOf(doc);
    if rank :| Ranked(refs, rank) { CyclesHaveNoRank(refs, rank); }
    if Acyclic(refs) {
      forall a, b | LeadsTo(refs(a), b) ensures b in Written(doc) { LeadsIntoDocument(doc, a, b); }
      AcyclicRanked(refs, Written(doc));
    }
  }

  // ----- termination on one schema -----

  /** The recursion of flattening this schema is at most `depth` calls deep. */
  ghost predicate Finishes(refs: Refs, s: Schema, depth: nat)
    decreases depth
  {
    depth > 0
    && (s.NotASchema?
        || if s.ref.Some? then Finishes(refs, refs(s.ref.value), depth - 1)
           else forall i :: 0 <= i < |s.allOf| ==> Finishes(refs, s.allOf[i], depth - 1))
  }

  ghost predicate Terminates(refs: Refs, s: Schema) {
    exists depth: nat :: Finishes(refs, s, depth)
  }

  /** Flattening this schema follows a reference that leads, at some distance, back to itself. */
  ghost predicate MeetsCycle(refs: Refs, s: Schema) {
    exists ref :: LeadsTo(s, ref) && MeetsCycleFrom(refs, ref)
  }

  ghost predicate MeetsCycleFrom(refs: Refs, ref: string) {
    Reaches(refs, ref, ref) || exists b :: Reaches(refs, ref, b) && Reaches(refs, b, b)
  }

  lemma {:induction false} Deeper(refs: Refs, s: Schema, depth: nat, more: nat)
    requires Finishes(refs, s, depth) && depth <= more
    ensures Finishes(refs, s, more)
    decreases depth
  {
    if s.Schema? && s.ref.Some? {
      Deeper(refs, refs(s.ref.value), depth - 1, more - 1);
    } else if s.Schema? {
      forall i | 0 <= i < |s.allOf| ensures Finishes(refs, s.allOf[i], more - 1) {
        Deeper(refs, s.allOf[i], depth - 1, more - 1);
      }
    }
  }

  /** What a finishing schema leads to finishes sooner. */
  lemma {:induction false} Sooner(refs: Refs, s: Schema, ref: string, depth: nat) returns (less: nat)
    requires Finishes(refs, s, depth) && LeadsTo(s, ref)
    ensures less < depth && Finishes(refs, refs(ref), less)
    decreases depth
  {
    if s.ref.Some? {
      less := depth - 1;
    } else {
      var i :| 0 <= i < |s.allOf| && LeadsTo(s.allOf[i], ref);
      less := Sooner(refs, s.allOf[i], ref, depth - 1);
    }
  }

  lemma {:induction false} SoonerAlong(refs: Refs, path: seq<string>, depth: nat) returns (less: nat)
    requires Follows(refs, path) && Finishes(refs, refs(path[0]), depth)
    ensures less < depth && Finishes(refs, refs(path[|path| - 1]), less)
    decreases |path|
  {
    less := Sooner(refs, refs(path[0]), path[1], depth);
    if |path| > 2 { less := SoonerAlong(refs, path[1..], less); }
  }

  lemma {:induction false} CyclesNeverFinish(refs: Refs, a: string, depth: nat)
    requires Reaches(refs, a, a)
    ensures !Finishes(refs, refs(a), depth)
    decreases depth
  {
    if Finishes(refs, refs(a), depth) {
      var path :| Follows(refs, path) && path[0] == a && path[|path| - 1] == a;
      var less := SoonerAlong(refs, path, depth);
      CyclesNeverFinish(refs, a, less);
    }
  }

  lemma FinishedMeetsNone(refs: Refs, s: Schema, depth: nat)
    requires Finishes(refs, s, depth)
    ensures !MeetsCycle(refs, s)
  {
    if ref :| LeadsTo(s, ref) && MeetsCycleFrom(refs, ref) {
      var less := Sooner(refs, s, ref, depth);
      if Reaches(refs, ref, ref) {
        CyclesNeverFinish(refs, ref, less);
      } else {
        var b :| Reaches(refs, ref, b) && Reaches(refs, b, b);
        var path :| Follows(refs, path) && path[0] == ref && path[|path| - 1] == b;
        var least := SoonerAlong(refs, path, less);
        CyclesNeverFinish(refs, b, least);
      }
    }
  }

  /** Away from cycles, what a reference leads to reaches fewer references. */
  lemma ReachesFewer(refs: Refs, nodes: set<string>, a: string, b: string)
    requires LeadsTo(refs(a), b) && b in nodes && !MeetsCycleFrom(refs, a)
    ensures |Reached(refs, nodes, b)| < |Reached(refs, nodes, a)| && !MeetsCycleFrom(refs, b)
  {
    StepReaches(refs, a, b);
    SubsetSize(Reached(refs, nodes, b) + {b}, Reached(refs, nodes, a));
  }

  /** How deep flattening a reference goes. */
  lemma {:induction false} ReferenceFinishes(refs: Refs, nodes: set<string>, a: string) returns (depth: nat)
    requires !MeetsCycleFrom(refs, a) && forall a, b :: LeadsTo(refs(a), b) ==> b in nodes
    ensures Finishes(refs, refs(a), depth)
    decreases |Reached(refs, nodes, a)|, 1
  {
    forall b | LeadsTo(refs(a), b)
      ensures |Reached(refs, nodes, b)| < |Reached(refs, nodes, a)| && !MeetsCycleFrom(refs, b)
    {
      ReachesFewer(refs, nodes, a, b);
    }
    depth := SchemaFinishes(refs, nodes, refs(a), |Reached(refs, nodes, a)|);
  }

  lemma {:induction false} SchemaFinishes(refs: Refs, nodes: set<string>, s: Schema, bound: nat) returns (depth: nat)
    requires forall a, b :: LeadsTo(refs(a), b) ==> b in nodes
    requires forall b :: LeadsTo(s, b) ==> !MeetsCycleFrom(refs, b) && |Reached(refs, nodes, b)| < bound
    ensures Finishes(refs, s, depth)
    decreases bound, 0, s
  {
    depth := 1;
    if s.Schema? && s.ref.Some? {
      assert LeadsTo(s, s.ref.value);
      depth := ReferenceFinishes(refs, nodes, s.ref.value);
      depth := depth + 1;
    } else if s.Schema? {
      for i := 0 to |s.allOf|
        invariant depth > 0 && forall j :: 0 <= j < i ==> Finishes(refs, s.allOf[j], depth - 1)
      {
        forall b | LeadsTo(s.allOf[i], b) ensures LeadsTo(s, b) {}
        var more := SchemaFinishes(refs, nodes, s.allOf[i], bound);
        forall j | 0 <= j < i ensures Finishes(refs, s.allOf[j], depth + more) {
          Deeper(refs, s.allOf[j], depth - 1, depth + more);
        }
        Deeper(refs, s.allOf[i], more, depth + more);
        depth := depth + more + 1;
      }
    }
  }

  /** Flattening a schema of a document terminates exactly when it meets no cycle of references, whatever other cycles
      the document has. */
  lemma TerminatesIff(doc: Json, s: Schema)
    ensures Terminates(RefsOf(doc), s) <==> !MeetsCycle(RefsOf(doc), s)
  {
    var refs := RefsOf(doc);
    if depth: nat :| Finishes(refs, s, depth) { FinishedMeetsNone(refs, s, depth); }
    if !MeetsCycle(refs, s) {
      forall a, b | LeadsTo(refs(a), b) ensures b in Written(doc) { LeadsIntoDocument(doc, a, b); }
      var nodes := Written(doc);
      forall b | LeadsTo(s, b) ensures !MeetsCycleFrom(refs, b) && |Reached(refs, nodes, b)| < |nodes| + 1 {
        SubsetSize(Reached(refs, nodes, b), nodes);
      }
      var depth := SchemaFinishes(refs, nodes, s, |nodes| + 1);
    }
  }

  // ----- flattening -----

  function AddNew(required: seq<string>, more: seq<string>): seq<string> {
    if more == [] then required
    else
      var before := AddNew(required, more[..|more| - 1]);
      if more[|more| - 1] in before then before else before + [more[|more| - 1]]
  }

  /** Merges one flattened branch: what is already there wins. */
  function Absorb(out: Schema, branch: Schema): Schema
    requires out.Schema? && branch.Schema?
  {
    out.(properties := branch.properties + out.properties,
         required := AddNew(out.required, branch.required),
         type_ := if out.type_.Some? then out.type_ else branch.type_,
         values := if out.values.Some? then out.values else branch.values)
  }

  ghost function Flat(refs: Refs, rank: string -> nat, s: Schema): (r: Schema)
    requires Ranked(refs, rank)
    ensures r.Schema? && r.ref == None
    decreases Height(s, rank), s, Size(s)
  {
    if s.NotASchema? then EMPTY
    else if s.ref.Some? then Flat(refs, rank, refs(s.ref.value))
    else Merged(refs, rank, s, |s.allOf|)
  }

  /** The schema with its first `n` branches merged. */
  ghost function Merged(refs: Refs, rank: string -> nat, s: Schema, n: nat): (r: Schema)
    requires Ranked(refs, rank) && s.Schema? && s.ref == None && n <= |s.allOf|
    ensures r.Schema? && r.ref == None && r.allOf == s.allOf
    decreases Height(s, rank), s, n
  {
    if n == 0 then s
    else
      HeightOfOne(s, rank, |s.allOf|, n - 1);
      Absorb(Merged(refs, rank, s, n - 1), Flat(refs, rank, s.allOf[n - 1]))
  }

  method FlattenSchema(refs: Refs, ghost rank: string -> nat, schema: Schema) returns (out: Schema)
    requires Ranked(refs, rank)
    ensures out == Flat(refs, rank, schema)
    decreases Height(schema, rank), schema
  {
    if schema.NotASchema? { return EMPTY; }
    if schema.ref.Some? {
      out := FlattenSchema(refs, rank, refs(schema.ref.value));
      return;
    }
    out := schema;
    for i := 0 to |schema.allOf|
      invariant out == Merged(refs, rank, schema, i)
    {
      HeightOfOne(schema, rank, |schema.allOf|, i);
      var branch := FlattenSchema(refs, rank, schema.allOf[i]);
      out := MergeBranch(out, branch);
    }
  }

  method MergeBranch(out: Schema, branch: Schema) returns (r: Schema)
    requires out.Schema? && branch.Schema?
    ensures r == Absorb(out, branch)
  {
    var required := out.required;
    for i := 0 to |branch.required|
      invariant required == AddNew(out.required, branch.required[..i])
    {
      assert branch.required[..i + 1][..i] == branch.required[..i];
      if branch.required[i] !in required { required := required + [branch.required[i]]; }
    }
    assert branch.required[..|branch.required|] == branch.required;
    r := out.(properties := branch.properties + out.properties, required := required);
    if out.type_ == None && branch.type_.Some? { r := r.(type_ := branch.type_); }
    if out.values == None && branch.values.Some? { r := r.(values := branch.values); }
  }

  // ----- what flattening means -----

  lemma {:induction false} AddNewIn(required: seq<string>, more: seq<string>, x: string)
    ensures x in AddNew(required, more) <==> x in required || x in more
    decreases |more|
  {
    if more != [] {
      AddNewIn(required, more[..|more| - 1], x);
      assert more == more[..|more| - 1] + [more[|more| - 1]];
    }
  }

  lemma {:induction false} AddNothing(required: seq<string>, more: seq<string>)
    requires forall x :: x in more ==> x in required
    ensures AddNew(required, more) == required
    decreases |more|
  {
    if more != [] {
      assert more == more[..|more| - 1] + [more[|more| - 1]];
      AddNothing(required, more[..|more| - 1]);
    }
  }

  ghost function Branch(refs: Refs, rank: string -> nat, s: Schema, i: nat): Schema
    requires Ranked(refs, rank) && s.Schema? && i < |s.allOf|
  {
    Flat(refs, rank, s.allOf[i])
  }

  /** The properties are the schema's own together with those of every branch... */
  lemma {:induction false} PropertyUnion(refs: Refs, rank: string -> nat, s: Schema, n: nat, k: string)
    requires Ranked(refs, rank) && s.Schema? && s.ref == None && n <= |s.allOf|
    ensures k in Merged(refs, rank, s, n).properties <==>
              k in s.properties || exists i :: 0 <= i < n && k in Branch(refs, rank, s, i).properties
    decreases n
  {
    if n > 0 {
      PropertyUnion(refs, rank, s, n - 1, k);
      assert Branch(refs, rank, s, n - 1) == Flat(refs, rank, s.allOf[n - 1]);
    }
  }

  /** ... and each comes from the schema itself, else from the first branch that has it. */
  lemma {:induction false} PropertyOrigin(refs: Refs, rank: string -> nat, s: Schema, n: nat, k: string, i: nat)
    requires Ranked(refs, rank) && s.Schema? && s.ref == None && i < n <= |s.allOf|
    requires k in s.properties || FirstWith(refs, rank, s, i, k)
    ensures var r := Merged(refs, rank, s, n);
            k in r.properties
            && r.properties[k] == if k in s.properties then s.properties[k] else Branch(refs, rank, s, i).properties[k]
    decreases n
  {
    if k in s.properties {
      OwnProperty(refs, rank, s, n, k);
    } else if i < n - 1 {
      PropertyOrigin(refs, rank, s, n - 1, k, i);
    } else {
      PropertyUnion(refs, rank, s, i, k);
    }
  }

  lemma {:induction false} OwnProperty(refs: Refs, rank: string -> nat, s: Schema, n: nat, k: string)
    requires Ranked(refs, rank) && s.Schema? && s.ref == None && n <= |s.allOf| && k in s.properties
    ensures k in Merged(refs, rank, s, n).properties && Merged(refs, rank, s, n).properties[k] == s.properties[k]
    decreases n
  {
    if n > 0 { OwnProperty(refs, rank, s, n - 1, k); }
  }

  ghost predicate FirstWith(refs: Refs, rank: string -> nat, s: Schema, i: nat, k: string)
    requires Ranked(refs, rank) && s.Schema? && i < |s.allOf|
  {
    && k in Branch(refs, rank, s, i).properties
    && forall j :: 0 <= j < i ==> k !in Branch(refs, rank, s, j).properties
  }

  /** The required names are the schema's own together with those of every branch. */
  lemma {:induction false} RequiredUnion(refs: Refs, rank: string -> nat, s: Schema, n: nat, x: string)
    requires Ranked(refs, rank) && s.Schema? && s.ref == None && n <= |s.allOf|
    ensures x in Merged(refs, rank, s, n).required <==>
              x in s.required || exists i :: 0 <= i < n && x in Branch(refs, rank, s, i).required
    decreases n
  {
    if n > 0 {
      RequiredUnion(refs, rank, s, n - 1, x);
      AddNewIn(Merged(refs, rank, s, n - 1).required, Flat(refs, rank, s.allOf[n - 1]).required, x);
      assert Branch(refs, rank, s, n - 1) == Flat(refs, rank, s.allOf[n - 1]);
    }
  }

  ghost predicate FirstTyped(refs: Refs, rank: string -> nat, s: Schema, i: nat)
    requires Ranked(refs, rank) && s.Schema? && i < |s.allOf|
  {
    Branch(refs, rank, s, i).type_.Some? && forall j :: 0 <= j < i ==> Branch(refs, rank, s, j).type_ == None
  }

  ghost predicate FirstListed(refs: Refs, rank: string -> nat, s: Schema, i: nat)
    requires Ranked(refs, rank) && s.Schema? && i < |s.allOf|
  {
    Branch(refs, rank, s, i).values.Some? && forall j :: 0 <= j < i ==> Branch(refs, rank, s, j).values == None
  }

  /** `type` and `enum` too come from the schema itself, else from the first branch that has them. */
  lemma {:induction false} TypeOrigin(refs: Refs, rank: string -> nat, s: Schema, n: nat)
    requires Ranked(refs, rank) && s.Schema? && s.ref == None && n <= |s.allOf|
    ensures var r := Merged(refs, rank, s, n);
            && (s.type_.Some? ==> r.type_ == s.type_)
            && (s.values.Some? ==> r.values == s.values)
            && (forall i :: 0 <= i < n && s.type_ == None && FirstTyped(refs, rank, s, i) ==>
                  r.type_ == Branch(refs, rank, s, i).type_)
            && (forall i :: 0 <= i < n && s.values == None && FirstListed(refs, rank, s, i) ==>
                  r.values == Branch(refs, rank, s, i).values)
            && (s.type_ == None && (forall i :: 0 <= i < n ==> Branch(refs, rank, s, i).type_ == None) ==>
                  r.type_ == None)
            && (s.values == None && (forall i :: 0 <= i < n ==> Branch(refs, rank, s, i).values == None) ==>
                  r.values == None)
    decreases n
  {
    if n > 0 {
      TypeOrigin(refs, rank, s, n - 1);
      assert Branch(refs, rank, s, n - 1) == Flat(refs, rank, s.allOf[n - 1]);
    }
  }

  /** `out` already has everything `branch` offers. */
  ghost predicate Covers(out: Schema, branch: Schema)
    requires out.Schema? && branch.Schema?
  {
    && branch.properties.Keys <= out.properties.Keys
    && (forall x :: x in branch.required ==> x in out.required)
    && (branch.type_.Some? ==> out.type_.Some?)
    && (branch.values.Some? ==> out.values.Some?)
  }

  lemma AbsorbCovers(out: Schema, branch: Schema, other: Schema)
    requires out.Schema? && branch.Schema? && other.Schema?
    ensures Covers(Absorb(out, branch), branch)
    ensures Covers(out, other) ==> Covers(Absorb(out, branch), other)
  {
    forall x ensures x in AddNew(out.required, branch.required) <==> x in out.required || x in branch.required {
      AddNewIn(out.required, branch.required, x);
    }
  }

  lemma AbsorbNothing(out: Schema, branch: Schema)
    requires out.Schema? && branch.Schema? && Covers(out, branch)
    ensures Absorb(out, branch) == out
  {
    AddNothing(out.required, branch.required);
    assert branch.properties + out.properties == out.properties;
  }

  lemma {:induction false} MergedCovers(refs: Refs, rank: string -> nat, s: Schema, n: nat, i: nat)
    requires Ranked(refs, rank) && s.Schema? && s.ref == None && i < n <= |s.allOf|
    ensures Covers(Merged(refs, rank, s, n), Branch(refs, rank, s, i))
    decreases n
  {
    AbsorbCovers(Merged(refs, rank, s, n - 1), Flat(refs, rank, s.allOf[n - 1]), Branch(refs, rank, s, i));
    if i < n - 1 { MergedCovers(refs, rank, s, n - 1, i); }
  }

  /** Merging the branches into a schema that already covers them changes nothing. */
  lemma {:induction false} MergeAgain(refs: Refs, rank: string -> nat, s: Schema, r: Schema, n: nat)
    requires Ranked(refs, rank) && s.Schema? && r.Schema? && r.ref == None && r.allOf == s.allOf
    requires n <= |s.allOf| && forall i :: 0 <= i < n ==> Covers(r, Branch(refs, rank, s, i))
    ensures Merged(refs, rank, r, n) == r
    decreases n
  {
    if n > 0 {
      MergeAgain(refs, rank, s, r, n - 1);
      assert Covers(r, Branch(refs, rank, s, n - 1));
      AbsorbNothing(r, Flat(refs, rank, s.allOf[n - 1]));
    }
  }

  /** The schema a chain of references ends at. */
  ghost function Target(refs: Refs, rank: string -> nat, s: Schema): (r: Schema)
    requires Ranked(refs, rank)
    ensures Flat(refs, rank, r) == Flat(refs, rank, s)
    ensures r.NotASchema? || r.ref == None
    decreases Height(s, rank), s
  {
    if s.Schema? && s.ref.Some? then Target(refs, rank, refs(s.ref.value)) else s
  }

  /** Flattening a flattened schema gives it back. */
  lemma FlattenIdempotent(refs: Refs, rank: string -> nat, s: Schema)
    requires Ranked(refs, rank)
    ensures Flat(refs, rank, Flat(refs, rank, s)) == Flat(refs, rank, s)
  {
    var t := Target(refs, rank, s);
    if t.Schema? {
      var n, r := |t.allOf|, Flat(refs, rank, t);
      forall i | 0 <= i < n ensures Covers(r, Branch(refs, rank, t, i)) { MergedCovers(refs, rank, t, n, i); }
      MergeAgain(refs, rank, t, r, n);
    }
  }

  // ----- through references -----

  /** Each schema but the last is a reference to the next. */
  ghost predicate Chain(refs: Refs, path: seq<Schema>) {
    |path| >= 1 && forall i :: 0 <= i < |path| - 1 ==> IsRefTo(refs, path[i], path[i + 1])
  }

  predicate IsRefTo(refs: Refs, s: Schema, t: Schema) {
    s.Schema? && s.ref.Some? && t == refs(s.ref.value)
  }

  lemma {:induction false} ChainFlat(refs: Refs, rank: string -> nat, path: seq<Schema>)
    requires Ranked(refs, rank) && Chain(refs, path)
    ensures Flat(refs, rank, path[0]) == Flat(refs, rank, path[|path| - 1])
    decreases |path|
  {
    if |path| > 1 {
      assert IsRefTo(refs, path[0], path[1]);
      ChainTail(refs, path);
      ChainFlat(refs, rank, path[1..]);
    }
  }

  lemma ChainTail(refs: Refs, path: seq<Schema>)
    requires Chain(refs, path) && |path| > 1
    ensures Chain(refs, path[1..])
  {
    forall i | 0 <= i < |path| - 2 ensures IsRefTo(refs, path[1..][i], path[1..][i + 1]) {
      assert IsRefTo(refs, path[i + 1], path[i + 2]);
    }
  }

  /** Every schema leads to one that is not a reference. */
  lemma {:induction false} ChainEnds(refs: Refs, rank: string -> nat, s: Schema) returns (path: seq<Schema>)
    requires Ranked(refs, rank)
    ensures Chain(refs, path) && path[0] == s
    ensures var t := path[|path| - 1]; t.NotASchema? || t.ref == None
    decreases Height(s, rank)
  {
    path := [s];
    if s.Schema? && s.ref.Some? {
      var rest := ChainEnds(refs, rank, refs(s.ref.value));
      path := [s] + rest;
    }
  }

  /** What a reference flattens to, said of the schema `t` at the end of its chain of references: the properties are
      those of `t` with the values they have there, and then those of its branches, the first branch that has one first;
      the required names are those of `t` and of its branches; type and enum are those of `t`, else of the first branch
      that has them.  What is not a schema gives nothing. */
  lemma ThroughReferences(refs: Refs, rank: string -> nat, path: seq<Schema>, k: string)
    requires Ranked(refs, rank) && Chain(refs, path)
    ensures var r, t := Flat(refs, rank, path[0]), path[|path| - 1];
            && (t.NotASchema? ==> r == EMPTY)
            && (t.Schema? && t.ref == None ==>
                  PropertyFrom(refs, rank, t, k, r) && RequiredFrom(refs, rank, t, k, r) && TypesFrom(refs, rank, t, r))
  {
    var t := path[|path| - 1];
    ChainFlat(refs, rank, path);
    if t.Schema? && t.ref == None { OfTarget(refs, rank, t, k); }
  }

  ghost predicate PropertyFrom(refs: Refs, rank: string -> nat, t: Schema, k: string, r: Schema)
    requires Ranked(refs, rank) && t.Schema? && r.Schema?
  {
    && (k in r.properties <==>
          k in t.properties || exists i :: 0 <= i < |t.allOf| && k in Branch(refs, rank, t, i).properties)
    && (k in t.properties ==> k in r.properties && r.properties[k] == t.properties[k])
    && (forall i :: 0 <= i < |t.allOf| && k !in t.properties && FirstWith(refs, rank, t, i, k) ==>
          k in r.properties && r.properties[k] == Branch(refs, rank, t, i).properties[k])
  }

  ghost predicate RequiredFrom(refs: Refs, rank: string -> nat, t: Schema, x: string, r: Schema)
    requires Ranked(refs, rank) && t.Schema? && r.Schema?
  {
    x in r.required <==> x in t.required || exists i :: 0 <= i < |t.allOf| && x in Branch(refs, rank, t, i).required
  }

  ghost predicate TypesFrom(refs: Refs, rank: string -> nat, t: Schema, r: Schema)
    requires Ranked(refs, rank) && t.Schema? && r.Schema?
  {
    && (t.type_.Some? ==> r.type_ == t.type_)
    && (t.values.Some? ==> r.values == t.values)
    && (forall i :: 0 <= i < |t.allOf| && t.type_ == None && FirstTyped(refs, rank, t, i) ==>
          r.type_ == Branch(refs, rank, t, i).type_)
    && (forall i :: 0 <= i < |t.allOf| && t.values == None && FirstListed(refs, rank, t, i) ==>
          r.values == Branch(refs, rank, t, i).values)
  }

  lemma OfTarget(refs: Refs, rank: string -> nat, t: Schema, k: string)
    requires Ranked(refs, rank) && t.Schema? && t.ref == None
    ensures var r := Flat(refs, rank, t);
            PropertyFrom(refs, rank, t, k, r) && RequiredFrom(refs, rank, t, k, r) && TypesFrom(refs, rank, t, r)
  {
    var n := |t.allOf|;
    PropertyUnion(refs, rank, t, n, k);
    RequiredUnion(refs, rank, t, n, k);
    TypeOrigin(refs, rank, t, n);
    if k in t.properties { OwnProperty(refs, rank, t, n, k); }
    forall i | 0 <= i < n && k !in t.properties && FirstWith(refs, rank, t, i, k)
      ensures k in Merged(refs, rank, t, n).properties
              && Merged(refs, rank, t, n).properties[k] == Branch(refs, rank, t, i).properties[k]
    {
      PropertyOrigin(refs, rank, t, n, k, i);
    }
  }

  // ----- where anything in a flattened schema is written -----

  /** What a schema can offer to a flattened one. */
  datatype Feature = HasProperty(name: string) | Requires(name: string) | HasType | HasValues

  predicate Offers(s: Schema, f: Feature) {
    s.Schema?
    && match f
       case HasProperty(k) => k in s.properties
       case Requires(x) => x in s.required
       case HasType => s.type_.Some?
       case HasValues => s.values.Some?
  }

  /** Each schema on the way is a reference to the next, or has it as a branch. */
  ghost predicate Way(refs: Refs, path: seq<Schema>) {
    |path| >= 1 && forall i :: 0 <= i < |path| - 1 ==> GoesTo(refs, path[i], path[i + 1])
  }

  predicate GoesTo(refs: Refs, s: Schema, t: Schema) {
    s.Schema? && if s.ref.Some? then t == refs(s.ref.value) else t in s.allOf
  }

  /** A schema on such a way offers it, and is not a reference itself. */
  ghost predicate Offered(refs: Refs, s: Schema, f: Feature) {
    exists path :: Way(refs, path) && path[0] == s && OfferedAt(path[|path| - 1], f)
  }

  predicate OfferedAt(t: Schema, f: Feature) {
    Offers(t, f) && t.ref == None
  }

  lemma OfferedVia(refs: Refs, s: Schema, t: Schema, f: Feature)
    requires GoesTo(refs, s, t) && Offered(refs, t, f)
    ensures Offered(refs, s, f)
  {
    var rest :| Way(refs, rest) && rest[0] == t && OfferedAt(rest[|rest| - 1], f);
    var path := [s] + rest;
    forall i | 0 <= i < |path| - 1 ensures GoesTo(refs, path[i], path[i + 1]) {
      assert i > 0 ==> GoesTo(refs, rest[i - 1], rest[i]);
    }
    assert Way(refs, path) && path[0] == s && OfferedAt(path[|path| - 1], f);
  }

  lemma {:induction false} MergedOffers(refs: Refs, rank: string -> nat, s: Schema, n: nat, f: Feature)
    requires Ranked(refs, rank) && s.Schema? && s.ref == None && n <= |s.allOf|
    ensures Offers(Merged(refs, rank, s, n), f) <==>
              Offers(s, f) || exists i :: 0 <= i < n && Offers(Branch(refs, rank, s, i), f)
    decreases n
  {
    if n > 0 {
      MergedOffers(refs, rank, s, n - 1, f);
      assert Branch(refs, rank, s, n - 1) == Flat(refs, rank, s.allOf[n - 1]);
      if f.Requires? {
        AddNewIn(Merged(refs, rank, s, n - 1).required, Flat(refs, rank, s.allOf[n - 1]).required, f.name);
      }
    }
  }

  lemma {:induction false} FlatOffered(refs: Refs, rank: string -> nat, s: Schema, f: Feature)
    requires Ranked(refs, rank) && Offers(Flat(refs, rank, s), f)
    ensures Offered(refs, s, f)
    decreases Height(s, rank), s
  {
    if s.ref.Some? {
      FlatOffered(refs, rank, refs(s.ref.value), f);
      OfferedVia(refs, s, refs(s.ref.value), f);
    } else {
      MergedOffers(refs, rank, s, |s.allOf|, f);
      if Offers(s, f) {
        assert Way(refs, [s]) && [s][0] == s && OfferedAt([s][|[s]| - 1], f);
      } else {
        var i :| 0 <= i < |s.allOf| && Offers(Branch(refs, rank, s, i), f);
        HeightOfOne(s, rank, |s.allOf|, i);
        FlatOffered(refs, rank, s.allOf[i], f);
        OfferedVia(refs, s, s.allOf[i], f);
      }
    }
  }

  lemma {:induction false} OfferedFlat(refs: Refs, rank: string -> nat, path: seq<Schema>, f: Feature)
    requires Ranked(refs, rank) && Way(refs, path) && OfferedAt(path[|path| - 1], f)
    ensures Offers(Flat(refs, rank, path[0]), f)
    decreases |path|
  {
    var s := path[0];
    if |path| > 1 {
      assert GoesTo(refs, s, path[1]);
      WayTail(refs, path);
      OfferedFlat(refs, rank, path[1..], f);
    }
    if s.ref == None {
      MergedOffers(refs, rank, s, |s.allOf|, f);
      if |path| > 1 {
        var i :| 0 <= i < |s.allOf| && s.allOf[i] == path[1];
        assert Branch(refs, rank, s, i) == Flat(refs, rank, path[1]);
      }
    }
  }

  lemma WayTail(refs: Refs, path: seq<Schema>)
    requires Way(refs, path) && |path| > 1
    ensures Way(refs, path[1..])
  {
    forall i | 0 <= i < |path| - 2 ensures GoesTo(refs, path[1..][i], path[1..][i + 1]) {
      assert GoesTo(refs, path[i + 1], path[i + 2]);
    }
  }

  /** A flattened schema has a property, a required name, a type or an enum exactly when some schema has it that is
      reached through references and branches, in any mixture. */
  lemma FlatHasIff(refs: Refs, rank: string -> nat, s: Schema, f: Feature)
    requires Ranked(refs, rank)
    ensures Offers(Flat(refs, rank, s), f) <==> Offered(refs, s, f)
  {
    if Offers(Flat(refs, rank, s), f) { FlatOffered(refs, rank, s, f); }
    if path :| Way(refs, path) && path[0] == s && OfferedAt(path[|path| - 1], f) { OfferedFlat(refs, rank, path, f); }
  }
}
