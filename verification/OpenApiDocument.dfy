/** From a document to a flat specification. */
module OpenApiDocument {
  import opened Wrappers
  import opened SchemaFlatten
  import opened OpenApiDiff
  import opened OpenApiTheorems

  datatype Param = Param(name: Option<string>, required: bool)

  /** An entry of a list or mapping: given in place, by reference, or not a mapping at all. */
  datatype Entry<T> = Here(value: T) | ByRef(ref: string) | Junk

  /** Bodies and responses are reduced to the schema of their JSON content, empty when there is none. */
  datatype OpDoc = OpDoc(parameters: seq<Entry<Param>>, body: Entry<Schema>, responses: map<string, Entry<Schema>>)

  /** A path item lists its keys in order; an item or operation that is not a mapping is skipped. */
  type PathItem = seq<(string, Option<OpDoc>)>

  datatype Document = Document(version: string, paths: map<string, Option<PathItem>>)

  /** What references to the three kinds of component resolve to, and to schemas. */
  datatype Components = Components(schemas: Refs, params: string -> Param, bodies: string -> Schema,
                                   responses: string -> Schema)

  /** The same text with its ASCII capitals in lower case. */
  function Lower(s: string): (r: string)
    ensures |r| == |s|
    ensures forall i :: 0 <= i < |s| ==> r[i] == if 'A' <= s[i] <= 'Z' then s[i] + ' ' else s[i]
  {
    if s == "" then ""
    else (if 'A' <= s[0] <= 'Z' then [s[0] - 'A' + 'a'] else [s[0]]) + Lower(s[1..])
  }

  predicate IsMethod(m: string) {
    m == "get" || m == "post" || m == "put" || m == "patch" || m == "delete" || m == "head" || m == "options"
  }

  // ----- parameters -----

  function ParamOf(comps: Components, e: Entry<Param>): Param {
    match e
    case Here(p) => p
    case ByRef(ref) => comps.params(ref)
    case Junk => Param(None, false)
  }

  /** The entry is a parameter of this name and requiredness, given in place or by reference. */
  predicate IsParam(comps: Components, e: Entry<Param>, name: string, required: bool) {
    || (e.Here? && e.value.name == Some(name) && e.value.required == required)
    || (e.ByRef? && comps.params(e.ref).name == Some(name) && comps.params(e.ref).required == required)
  }

  /** Some parameter of the operation has this name and requiredness. */
  predicate Declares(comps: Components, op: OpDoc, name: string, required: bool) {
    exists i :: 0 <= i < |op.parameters| && IsParam(comps, op.parameters[i], name, required)
  }

  method ReadParameters(comps: Components, parameters: seq<Entry<Param>>)
    returns (required: set<Field>, optional: set<Field>)
    ensures forall f :: f in required <==>
              f.ParamField?
              && exists i :: 0 <= i < |parameters| && IsParam(comps, parameters[i], f.name, true)
    ensures forall f :: f in optional <==>
              f.ParamField?
              && exists i :: 0 <= i < |parameters| && IsParam(comps, parameters[i], f.name, false)
  {
    required, optional := {}, {};
    for i := 0 to |parameters|
      invariant forall f :: f in required <==>
                  f.ParamField? && exists j :: 0 <= j < i && IsParam(comps, parameters[j], f.name, true)
      invariant forall f :: f in optional <==>
                  f.ParamField? && exists j :: 0 <= j < i && IsParam(comps, parameters[j], f.name, false)
    {
      var p := ParamOf(comps, parameters[i]);
      if p.name.Some? {
        if p.required {
          required := required + {ParamField(p.name.value)};
        } else {
          optional := optional + {ParamField(p.name.value)};
        }
      }
    }
  }

  // ----- bodies and responses -----

  function SchemaOf(refs: string -> Schema, e: Entry<Schema>): (s: Schema)
    ensures e.Here? ==> s == e.value
    ensures e.ByRef? ==> s == refs(e.ref)
    ensures e.Junk? ==> s == EMPTY
  {
    match e
    case Here(s) => s
    case ByRef(ref) => refs(ref)
    case Junk => EMPTY
  }

  ghost function FlatProps(refs: Refs, rank: string -> nat, props: map<string, Schema>): map<string, Schema>
    requires Ranked(refs, rank)
  {
    map k | k in props :: Flat(refs, rank, props[k])
  }

  method FlattenProps(refs: Refs, ghost rank: string -> nat, props: map<string, Schema>)
    returns (out: map<string, Schema>)
    requires Ranked(refs, rank)
    ensures out == FlatProps(refs, rank, props)
  {
    out := map[];
    var names := Listed(props.Keys);
    for i := 0 to |names|
      invariant forall k :: k in out <==> exists j :: 0 <= j < i && names[j] == k
      invariant forall k :: k in out ==> k in props && out[k] == Flat(refs, rank, props[k])
    {
      assert names[i] in props.Keys;
      var flat := FlattenSchema(refs, rank, props[names[i]]);
      out := out[names[i] := flat];
    }
    forall k | k in props ensures k in out {
      assert k in props.Keys;
      var j :| 0 <= j < |names| && names[j] == k;
    }
  }

  /** The flat schema of a request or response body. */
  ghost function BodyOf(comps: Components, rank: string -> nat, refs: string -> Schema, e: Entry<Schema>): Schema
    requires Ranked(comps.schemas, rank)
  {
    Flat(comps.schemas, rank, SchemaOf(refs, e))
  }

  // ----- an operation -----

  /** What the flattened operation says about the document's one. */
  ghost predicate Describes(comps: Components, rank: string -> nat, op: OpDoc, o: Operation)
    requires Ranked(comps.schemas, rank)
  {
    var body := BodyOf(comps, rank, comps.bodies, op.body);
    && (forall n :: ParamField(n) in o.requestRequired <==> Declares(comps, op, n, true))
    && (forall n :: ParamField(n) in o.requestOptional <==> Declares(comps, op, n, false))
    && (forall n :: BodyField(n) in o.requestRequired <==> n in body.properties && n in body.required)
    && (forall n :: BodyField(n) in o.requestOptional <==> n in body.properties && n !in body.required)
    && o.requestProps == FlatProps(comps.schemas, rank, body.properties)
    && DescribesResponses(comps, rank, op, o)
  }

  ghost predicate DescribesResponses(comps: Components, rank: string -> nat, op: OpDoc, o: Operation)
    requires Ranked(comps.schemas, rank)
  {
    o.responses == op.responses.Keys
    && forall s :: DescribesCode(comps, rank, op.responses, op.responses.Keys, s, o.responseRequired, o.responseProps)
  }

  /** What the two response maps say about status `s`, when the statuses in `seen` have been read. */
  ghost predicate DescribesCode(comps: Components, rank: string -> nat, responses: map<string, Entry<Schema>>,
                                seen: set<string>, s: string, required: map<string, set<string>>,
                                props: map<(string, string), Schema>)
    requires Ranked(comps.schemas, rank)
  {
    if s in seen && s in responses && !responses[s].Junk? then
      var body := BodyOf(comps, rank, comps.responses, responses[s]);
      && s in required && required[s] == (set x | x in body.required)
      && (forall n :: (s, n) in props <==> n in body.properties)
      && (forall n :: n in body.properties ==>
            (s, n) in props && props[(s, n)] == Flat(comps.schemas, rank, body.properties[n]))
    else s !in required && forall n :: (s, n) !in props
  }

  method FlattenOperation(comps: Components, ghost rank: string -> nat, op: OpDoc) returns (o: Operation)
    requires Ranked(comps.schemas, rank)
    ensures Describes(comps, rank, op, o)
  {
    var required, optional := ReadParameters(comps, op.parameters);
    var body := FlattenSchema(comps.schemas, rank, SchemaOf(comps.bodies, op.body));
    var props := FlattenProps(comps.schemas, rank, body.properties);
    var bodyRequired := set n | n in body.properties && n in body.required :: BodyField(n);
    var bodyOptional := set n | n in body.properties && n !in body.required :: BodyField(n);
    var responseRequired, responseProps := FlattenResponses(comps, rank, op.responses);
    o := Operation(required + bodyRequired, optional + bodyOptional, props, op.responses.Keys, responseRequired,
                   responseProps);
    forall n ensures BodyField(n) in o.requestRequired <==> n in body.properties && n in body.required {}
    forall n ensures BodyField(n) in o.requestOptional <==> n in body.properties && n !in body.required {}
  }

  method FlattenResponses(comps: Components, ghost rank: string -> nat, responses: map<string, Entry<Schema>>)
    returns (required: map<string, set<string>>, props: map<(string, string), Schema>)
    requires Ranked(comps.schemas, rank)
    ensures forall s :: DescribesCode(comps, rank, responses, responses.Keys, s, required, props)
  {
    required, props := map[], map[];
    var codes := Listed(responses.Keys);
    ghost var seen: set<string> := {};
    for i := 0 to |codes|
      invariant forall s :: s in seen <==> exists j :: 0 <= j < i && codes[j] == s
      invariant forall s :: DescribesCode(comps, rank, responses, seen, s, required, props)
    {
      assert codes[i] in responses.Keys;
      required, props := AddResponse(comps, rank, responses, seen, codes[i], required, props);
      seen := seen + {codes[i]};
    }
    assert forall s :: s in responses.Keys <==> s in seen;
    assert seen == responses.Keys;
  }

  method AddResponse(comps: Components, ghost rank: string -> nat, responses: map<string, Entry<Schema>>,
                     ghost seen: set<string>, code: string, required: map<string, set<string>>,
                     props: map<(string, string), Schema>)
    returns (required': map<string, set<string>>, props': map<(string, string), Schema>)
    requires Ranked(comps.schemas, rank) && code in responses
    requires forall s :: DescribesCode(comps, rank, responses, seen, s, required, props)
    ensures forall s :: DescribesCode(comps, rank, responses, seen + {code}, s, required', props')
  {
    required', props' := required, props;
    if !responses[code].Junk? {
      var schema := FlattenSchema(comps.schemas, rank, SchemaOf(comps.responses, responses[code]));
      var flat := FlattenProps(comps.schemas, rank, schema.properties);
      required' := required[code := set x | x in schema.required];
      props' := Filed(code, flat, props);
    }
    forall s ensures DescribesCode(comps, rank, responses, seen + {code}, s, required', props') {
      assert DescribesCode(comps, rank, responses, seen, s, required, props);
    }
  }

  /** The properties filed under their status. */
  function Filed(code: string, flat: map<string, Schema>, props: map<(string, string), Schema>)
    : (r: map<(string, string), Schema>)
    ensures forall s, n :: (s, n) in r <==> (s, n) in props || (s == code && n in flat)
    ensures forall s, n :: (s, n) in r ==> r[(s, n)] == if s == code && n in flat then flat[n] else props[(s, n)]
  {
    props + map n | n in flat :: (code, n) := flat[n]
  }

  // ----- a document -----

  /** The operation a path item gives for a lower-case method: the last one spelt that way, in any case. */
  function OpFor(item: PathItem, m: string): Option<OpDoc> {
    if item == [] then None
    else
      var (key, op) := item[|item| - 1];
      if op.Some? && Lower(key) == m && IsMethod(m) then op else OpFor(item[..|item| - 1], m)
  }

  /** Entry `i` of the path item is an operation for this method, spelt in any case. */
  predicate SpeltAs(item: PathItem, i: int, m: string) {
    0 <= i < |item| && item[i].1.Some? && Lower(item[i].0) == m && IsMethod(m)
  }

  /** The operation is that of the last such entry, and there is none exactly when there is no such entry. */
  lemma {:induction false} OpForIs(item: PathItem, m: string)
    ensures OpFor(item, m).Some? <==> exists i :: SpeltAs(item, i, m)
    ensures forall i :: SpeltAs(item, i, m) && (forall j :: i < j < |item| ==> !SpeltAs(item, j, m)) ==>
              OpFor(item, m) == item[i].1
    decreases |item|
  {
    if item != [] {
      var n := |item| - 1;
      OpForIs(item[..n], m);
      forall i ensures SpeltAs(item, i, m) <==> SpeltAs(item[..n], i, m) || (i == n && SpeltAs(item, n, m)) {}
      if !SpeltAs(item, n, m) {
        forall i | SpeltAs(item, i, m) && (forall j :: i < j < |item| ==> !SpeltAs(item, j, m))
          ensures OpFor(item, m) == item[i].1
        {
          assert SpeltAs(item[..n], i, m) && forall j :: i < j < n ==> !SpeltAs(item[..n], j, m);
        }
      }
    }
  }

  ghost predicate Flattens(comps: Components, rank: string -> nat, doc: Document, spec: FlatSpec)
    requires Ranked(comps.schemas, rank)
  {
    && spec.version == doc.version
    && (forall p :: p in spec.paths <==> p in doc.paths && doc.paths[p].Some?)
    && forall p, m :: DescribesOp(comps, rank, doc, p, m, spec.operations)
  }

  ghost predicate DescribesOp(comps: Components, rank: string -> nat, doc: Document, p: string, m: string,
                              operations: map<OpKey, Operation>)
    requires Ranked(comps.schemas, rank)
  {
    if p in doc.paths && doc.paths[p].Some? && OpFor(doc.paths[p].value, m).Some?
    then (p, m) in operations && Describes(comps, rank, OpFor(doc.paths[p].value, m).value, operations[(p, m)])
    else (p, m) !in operations
  }

  /** The paths in `seen` have been read. */
  ghost predicate DescribesPath(comps: Components, rank: string -> nat, doc: Document, seen: set<string>, p: string,
                                m: string, operations: map<OpKey, Operation>)
    requires Ranked(comps.schemas, rank)
  {
    if p in seen then DescribesOp(comps, rank, doc, p, m, operations) else (p, m) !in operations
  }

  method FlattenDocument(comps: Components, ghost rank: string -> nat, doc: Document) returns (spec: FlatSpec)
    requires Ranked(comps.schemas, rank)
    ensures Flattens(comps, rank, doc, spec)
  {
    var operations: map<OpKey, Operation> := map[];
    var names := Listed(doc.paths.Keys);
    ghost var seen: set<string> := {};
    for i := 0 to |names|
      invariant forall p :: p in seen <==> exists j :: 0 <= j < i && names[j] == p
      invariant forall p, m :: DescribesPath(comps, rank, doc, seen, p, m, operations)
    {
      assert names[i] in doc.paths.Keys;
      operations := FlattenPath(comps, rank, doc, names[i], seen, operations);
      seen := seen + {names[i]};
    }
    assert forall p :: p in doc.paths.Keys <==> p in seen;
    spec := FlatSpec(doc.version, (set p | p in doc.paths && doc.paths[p].Some?), operations);
    forall p, m ensures DescribesOp(comps, rank, doc, p, m, operations) {
      assert DescribesPath(comps, rank, doc, seen, p, m, operations) && (p in doc.paths ==> p in doc.paths.Keys);
    }
  }

  method FlattenPath(comps: Components, ghost rank: string -> nat, doc: Document, path: string, ghost seen: set<string>,
                     operations: map<OpKey, Operation>)
    returns (out: map<OpKey, Operation>)
    requires Ranked(comps.schemas, rank) && path in doc.paths
    requires forall p, m :: DescribesPath(comps, rank, doc, seen, p, m, operations)
    ensures forall p, m :: DescribesPath(comps, rank, doc, seen + {path}, p, m, out)
  {
    out := operations;
    if doc.paths[path] == None {
      forall p, m ensures DescribesPath(comps, rank, doc, seen + {path}, p, m, out) {
        assert DescribesPath(comps, rank, doc, seen, p, m, operations);
      }
      return;
    }
    var here := FlattenItem(comps, rank, doc.paths[path].value);
    out := operations + map m | m in here :: (path, m) := here[m];
    forall p, m ensures DescribesPath(comps, rank, doc, seen + {path}, p, m, out) {
      assert DescribesPath(comps, rank, doc, seen, p, m, operations);
      assert (p, m) in out <==> (p, m) in operations || (p == path && m in here);
      assert DescribesMethod(comps, rank, doc.paths[path].value, m, here);
    }
  }

  ghost predicate DescribesMethod(comps: Components, rank: string -> nat, item: PathItem, m: string,
                                  ops: map<string, Operation>)
    requires Ranked(comps.schemas, rank)
  {
    if OpFor(item, m).Some? then m in ops && Describes(comps, rank, OpFor(item, m).value, ops[m]) else m !in ops
  }

  method FlattenItem(comps: Components, ghost rank: string -> nat, item: PathItem) returns (ops: map<string, Operation>)
    requires Ranked(comps.schemas, rank)
    ensures forall m :: DescribesMethod(comps, rank, item, m, ops)
  {
    ops := map[];
    for i := 0 to |item|
      invariant forall m :: DescribesMethod(comps, rank, item[..i], m, ops)
    {
      ghost var before := ops;
      var method_ := Lower(item[i].0);
      if IsMethod(method_) && item[i].1.Some? {
        var o := FlattenOperation(comps, rank, item[i].1.value);
        ops := ops[method_ := o];
      }
      ghost var read := item[..i + 1];
      assert read[..i] == item[..i];
      forall m ensures DescribesMethod(comps, rank, read, m, ops) {
        assert DescribesMethod(comps, rank, item[..i], m, before);
      }
    }
    assert item[..|item|] == item;
  }

  // ----- bodies, by what is written in them -----

  /** A body field of the flattened operation is required, or optional, exactly when the schemas that the body reaches
      through references and branches say so. */
  lemma BodyFieldsAre(comps: Components, rank: string -> nat, op: OpDoc, o: Operation, n: string)
    requires Ranked(comps.schemas, rank) && Describes(comps, rank, op, o)
    ensures var body := SchemaOf(comps.bodies, op.body);
            && (BodyField(n) in o.requestRequired <==>
                  Offered(comps.schemas, body, HasProperty(n)) && Offered(comps.schemas, body, Requires(n)))
            && (BodyField(n) in o.requestOptional <==>
                  Offered(comps.schemas, body, HasProperty(n)) && !Offered(comps.schemas, body, Requires(n)))
  {
    var body := SchemaOf(comps.bodies, op.body);
    FlatHasIff(comps.schemas, rank, body, HasProperty(n));
    FlatHasIff(comps.schemas, rank, body, Requires(n));
  }

  /** What is kept of a body property is what the schemas it reaches say, through its own references and branches. */
  lemma BodyPropIs(comps: Components, rank: string -> nat, op: OpDoc, o: Operation, n: string, f: Feature)
    requires Ranked(comps.schemas, rank) && Describes(comps, rank, op, o)
    requires n in BodyOf(comps, rank, comps.bodies, op.body).properties
    ensures n in o.requestProps
    ensures Offers(o.requestProps[n], f)
            <==> Offered(comps.schemas, BodyOf(comps, rank, comps.bodies, op.body).properties[n], f)
  {
    FlatHasIff(comps.schemas, rank, BodyOf(comps, rank, comps.bodies, op.body).properties[n], f);
  }

  /** The operation of the document under this path and method. */
  ghost predicate HasOp(doc: Document, p: string, m: string, op: OpDoc) {
    p in doc.paths && doc.paths[p].Some? && OpFor(doc.paths[p].value, m) == Some(op)
  }

  /** A property that the new document demands in the body of an operation and the old one does not know is reported,
      however deep in references and branches either of them is written. */
  lemma DemandIsReported(comps: Components, rank: string -> nat, old_: Document, o: FlatSpec,
                         comps': Components, rank': string -> nat, new_: Document, n: FlatSpec,
                         p: string, m: string, was: OpDoc, now: OpDoc, field: string)
    requires Ranked(comps.schemas, rank) && Flattens(comps, rank, old_, o)
    requires Ranked(comps'.schemas, rank') && Flattens(comps', rank', new_, n)
    requires HasOp(old_, p, m, was) && HasOp(new_, p, m, now)
    requires var body := SchemaOf(comps'.bodies, now.body);
             Offered(comps'.schemas, body, HasProperty(field)) && Offered(comps'.schemas, body, Requires(field))
    requires !Offered(comps.schemas, SchemaOf(comps.bodies, was.body), HasProperty(field))
    ensures Breaks(o, n, AddedRequiredField((p, m), BodyField(field))) && !Compatible(o, n)
  {
    assert DescribesOp(comps, rank, old_, p, m, o.operations) && DescribesOp(comps', rank', new_, p, m, n.operations);
    BodyFieldsAre(comps, rank, was, o.operations[(p, m)], field);
    BodyFieldsAre(comps', rank', now, n.operations[(p, m)], field);
    assert !Silent(o, n, AddedRequiredField((p, m), BodyField(field)));
    DocumentDiff(comps, rank, old_, o, comps', rank', new_, n);
  }

  // ----- a document against itself -----

  /** Two parameters of the operation share a name, for example in two places, and only one of them is required. */
  ghost predicate Ambiguous(comps: Components, op: OpDoc) {
    exists name :: Declares(comps, op, name, true) && Declares(comps, op, name, false)
  }

  lemma DisjointIff(comps: Components, rank: string -> nat, op: OpDoc, o: Operation)
    requires Ranked(comps.schemas, rank) && Describes(comps, rank, op, o)
    ensures Disjoint(o) <==> !Ambiguous(comps, op)
  {
    if name :| Declares(comps, op, name, true) && Declares(comps, op, name, false) {
      assert ParamField(name) in o.requestRequired * o.requestOptional;
    }
    forall f | f in o.requestRequired && f in o.requestOptional ensures Ambiguous(comps, op) {
      match f {
        case ParamField(name) => assert Declares(comps, op, name, true) && Declares(comps, op, name, false);
        case BodyField(name) => assert BodyField(name) in o.requestRequired && BodyField(name) in o.requestOptional;
      }
    }
  }

  ghost predicate Clear(comps: Components, doc: Document, p: string, m: string) {
    p in doc.paths && doc.paths[p].Some? && OpFor(doc.paths[p].value, m).Some? ==>
      !Ambiguous(comps, OpFor(doc.paths[p].value, m).value)
  }

  /** A document compared with itself: nothing is reported exactly when no operation has such a pair of parameters.
      Fields of the body are never in the way. */
  lemma DocumentSelfDiff(comps: Components, rank: string -> nat, doc: Document, spec: FlatSpec)
    requires Ranked(comps.schemas, rank) && Flattens(comps, rank, doc, spec)
    ensures NoReports(spec, spec) <==> forall p, m :: Clear(comps, doc, p, m)
  {
    SelfDiff(spec);
    forall p, m
      ensures Clear(comps, doc, p, m) <==> ((p, m) in spec.operations ==> Disjoint(spec.operations[(p, m)]))
    {
      assert DescribesOp(comps, rank, doc, p, m, spec.operations);
      if (p, m) in spec.operations {
        DisjointIff(comps, rank, OpFor(doc.paths[p].value, m).value, spec.operations[(p, m)]);
      }
    }
    if forall p, m :: Clear(comps, doc, p, m) {
      forall op | op in spec.operations ensures Disjoint(spec.operations[op]) {
        assert Clear(comps, doc, op.0, op.1) && op == (op.0, op.1);
      }
    }
  }

  /** The diff of any two documents, each resolved against its own components, is empty exactly when what they flatten
      to is compatible. */
  lemma DocumentDiff(comps: Components, rank: string -> nat, old_: Document, o: FlatSpec,
                     comps': Components, rank': string -> nat, new_: Document, n: FlatSpec)
    requires Ranked(comps.schemas, rank) && Flattens(comps, rank, old_, o)
    requires Ranked(comps'.schemas, rank') && Flattens(comps', rank', new_, n)
    ensures NoReports(o, n) <==> Compatible(o, n)
  {
    DocumentRegular(comps, rank, old_, o);
    DocumentRegular(comps', rank', new_, n);
    SilentIffCompatible(o, n);
  }

  lemma DocumentRegular(comps: Components, rank: string -> nat, doc: Document, spec: FlatSpec)
    requires Ranked(comps.schemas, rank) && Flattens(comps, rank, doc, spec)
    ensures Regular(spec)
  {
    forall op | op in spec.operations ensures op.0 in spec.paths {
      assert op == (op.0, op.1) && DescribesOp(comps, rank, doc, op.0, op.1, spec.operations);
    }
  }

  /** Both documents through to the exit code: zero exactly when the new one is compatible. */
  method Compare(comps: Components, ghost rank: string -> nat, old_: Document,
                 comps': Components, ghost rank': string -> nat, new_: Document)
    returns (code: int, changes: seq<Change>, o: FlatSpec, n: FlatSpec)
    requires Ranked(comps.schemas, rank) && Ranked(comps'.schemas, rank')
    ensures Flattens(comps, rank, old_, o) && Flattens(comps', rank', new_, n)
    ensures forall c :: c in changes <==> Breaks(o, n, c)
    ensures code == (if Compatible(o, n) then 0 else 1)
  {
    o := FlattenDocument(comps, rank, old_);
    n := FlattenDocument(comps', rank', new_);
    changes := Diff(o, n);
    code := if changes == [] then 0 else 1;
    DocumentDiff(comps, rank, old_, o, comps', rank', new_, n);
    NoneIffNoReports(o, n, changes);
  }

  lemma NoneIffNoReports(o: FlatSpec, n: FlatSpec, changes: seq<Change>)
    requires forall c :: c in changes <==> Breaks(o, n, c)
    ensures changes == [] <==> NoReports(o, n)
  {
    if changes != [] {
      assert changes[0] in changes;
      assert !Silent(o, n, changes[0]);
    }
    if changes == [] {
      forall c ensures Silent(o, n, c) { assert c !in changes; }
    }
  }

  /** A document with a required path parameter and an optional query parameter of one name. */
  function TwoIds(name: string): Document {
    var op := OpDoc([Here(Param(Some(name), true)), Here(Param(Some(name), false))], Junk, map[]);
    Document("1.0", map["/things/{id}" := Some([("get", Some(op))])])
  }

  /** Such a document is reported as breaking against itself. */
  lemma SelfDiffCanReport(comps: Components, rank: string -> nat, name: string, spec: FlatSpec)
    requires Ranked(comps.schemas, rank) && Flattens(comps, rank, TwoIds(name), spec)
    ensures !NoReports(spec, spec)
  {
    var p, item := "/things/{id}", TwoIds(name).paths["/things/{id}"].value;
    var op := item[0].1.value;
    assert Lower("get") == "get" by { assert "get"[1..] == "et" && "et"[1..] == "t" && "t"[1..] == ""; }
    assert OpFor(item, "get") == Some(op);
    assert IsParam(comps, op.parameters[0], name, true) && IsParam(comps, op.parameters[1], name, false);
    assert Declares(comps, op, name, true) && Declares(comps, op, name, false);
    assert !Clear(comps, TwoIds(name), p, "get");
    DocumentSelfDiff(comps, rank, TwoIds(name), spec);
  }
}
