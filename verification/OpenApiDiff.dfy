/** The breaking-change relation between two flattened specifications. */
module OpenApiDiff {
  import opened Wrappers
  import opened Sorting
  import opened SchemaFlatten

  /** `param:<name>` and `body:<name>`. */
  datatype Field = ParamField(name: string) | BodyField(name: string)

  datatype Operation = Operation(
    requestRequired: set<Field>,
    requestOptional: set<Field>,
    requestProps: map<string, Schema>,
    responses: set<string>,
    responseRequired: map<string, set<string>>,
    responseProps: map<(string, string), Schema>)

  /** An operation is named by its path and its lower-case method. */
  type OpKey = (string, string)

  datatype FlatSpec = FlatSpec(version: string, paths: set<string>, operations: map<OpKey, Operation>)

  datatype Change =
    | VersionDowngrade
    | RemovedPath(path: string)
    | RemovedMethod(op: OpKey)
    | RemovedStatus(op: OpKey, status: string)
    | RemovedRequiredField(op: OpKey, field: Field)
    | RequiredFlip(op: OpKey, field: Field)
    | TypeChange(op: OpKey, prop: string, was: string, now: string)
    | RemovedEnumValue(op: OpKey, prop: string, removed: set<string>)
    | AddedRequiredField(op: OpKey, field: Field)
    | RemovedResponseField(op: OpKey, status: string, name: string)
    | ResponseTypeChange(op: OpKey, at: (string, string), was: string, now: string)

  // ----- versions, types, enums -----

  function Head(version: string): string {
    if version == "" || version[0] == '.' then "" else [version[0]] + Head(version[1..])
  }

  /** The number before the first dot, or 0. */
  function Major(version: string): nat {
    if AllDigits(Head(version)) then NumberOf(Head(version)) else 0
  }

  /** Strings in the order of their characters, as `sorted` has them. */
  predicate AtMost(a: string, b: string) {
    a == "" || (b != "" && (a[0] < b[0] || (a[0] == b[0] && AtMost(a[1..], b[1..]))))
  }

  function JoinBar(xs: seq<string>): string {
    if xs == [] then "" else if |xs| == 1 then xs[0] else xs[0] + "|" + JoinBar(xs[1..])
  }

  function ScalarType(s: Schema): string {
    if s.NotASchema? || s.type_ == None then ""
    else
      match s.type_.value
      case One(name) => name
      case Many(names) => JoinBar(Sorted(AtMost, names))
  }

  function EnumSet(s: Schema): set<string> {
    if s.NotASchema? || s.values == None then {} else set x | x in s.values.value
  }

  predicate TypesClash(old_: Schema, new_: Schema) {
    ScalarType(old_) != "" && ScalarType(new_) != "" && ScalarType(old_) != ScalarType(new_)
  }

  // ----- what counts as a breaking change -----

  predicate Kept(old_: FlatSpec, new_: FlatSpec, op: OpKey) {
    op in old_.operations && op in new_.operations
  }

  /** The witnesses each kind of report needs. */
  predicate Breaks(old_: FlatSpec, new_: FlatSpec, c: Change) {
    match c
    case VersionDowngrade => 0 < Major(new_.version) < Major(old_.version)
    case RemovedPath(p) => p in old_.paths && p !in new_.paths
    case RemovedMethod(op) =>
      op.0 in old_.paths && op.0 in new_.paths && op in old_.operations && op !in new_.operations
    case _ => Kept(old_, new_, c.op) && OpBreaks(old_.operations[c.op], new_.operations[c.op], c)
  }

  predicate OpBreaks(o: Operation, n: Operation, c: Change)
    requires !c.VersionDowngrade? && !c.RemovedPath? && !c.RemovedMethod?
  {
    match c
    case RemovedStatus(_, status) => status in o.responses && status !in n.responses
    case RemovedRequiredField(_, f) => f in o.requestRequired && f !in n.requestRequired && f !in n.requestOptional
    case RequiredFlip(_, f) => f in o.requestOptional && f in n.requestRequired
    case AddedRequiredField(_, f) => f in n.requestRequired && f !in o.requestRequired && f !in o.requestOptional
    case TypeChange(_, prop, was, now) =>
      && prop in o.requestProps && prop in n.requestProps && TypesClash(o.requestProps[prop], n.requestProps[prop])
      && was == ScalarType(o.requestProps[prop]) && now == ScalarType(n.requestProps[prop])
    case RemovedEnumValue(_, prop, removed) =>
      && prop in o.requestProps && prop in n.requestProps && removed != {}
      && removed == EnumSet(o.requestProps[prop]) - EnumSet(n.requestProps[prop])
    case RemovedResponseField(_, status, name) =>
      && status in o.responseRequired && status in n.responseRequired
      && name in o.responseRequired[status] && name !in n.responseRequired[status]
    case ResponseTypeChange(_, at, was, now) =>
      && at in o.responseProps && at in n.responseProps && TypesClash(o.responseProps[at], n.responseProps[at])
      && was == ScalarType(o.responseProps[at]) && now == ScalarType(n.responseProps[at])
  }

  // ----- the diff, loop by loop -----

  /** The elements of a set, once each, in some order. */
  method Listed<T(==)>(s: set<T>) returns (xs: seq<T>)
    ensures forall x :: x in xs <==> x in s
    ensures |xs| == |s|
  {
    xs := [];
    var rest := s;
    while rest != {}
      invariant rest <= s && |xs| + |rest| == |s|
      invariant forall x :: x in xs <==> x in s && x !in rest
      decreases |rest|
    {
      var x :| x in rest;
      xs := xs + [x];
      rest := rest - {x};
    }
  }

  /** One report for every element. */
  method Report<T(==)>(s: set<T>, change: T -> Change) returns (out: seq<Change>)
    ensures forall c :: c in out <==> exists x :: x in s && change(x) == c
    ensures |out| == |s|
  {
    var xs := Listed(s);
    out := [];
    for i := 0 to |xs|
      invariant |out| == i && forall j :: 0 <= j < i ==> out[j] == change(xs[j])
    {
      out := out + [change(xs[i])];
    }
    forall c ensures c in out <==> exists x :: x in s && change(x) == c {
      if x :| x in s && change(x) == c {
        var j :| 0 <= j < |xs| && xs[j] == x;
        assert out[j] == c;
      }
      if c in out {
        var j :| 0 <= j < |out| && out[j] == c;
        assert xs[j] in s;
      }
    }
  }

  method DiffRequestProps(op: OpKey, o: map<string, Schema>, n: map<string, Schema>) returns (out: seq<Change>)
    ensures forall c :: c in out <==> exists prop :: PropBreaks(op, o, n, prop, c)
  {
    out := [];
    var props := Listed(o.Keys * n.Keys);
    for i := 0 to |props|
      invariant forall c :: c in out <==> exists j :: 0 <= j < i && PropBreaks(op, o, n, props[j], c)
    {
      assert props[i] in o.Keys * n.Keys;
      var more := DiffProp(op, o, n, props[i]);
      out := out + more;
    }
    forall c, prop | PropBreaks(op, o, n, prop, c) ensures c in out {
      assert prop in o.Keys * n.Keys;
      var j :| 0 <= j < |props| && props[j] == prop;
    }
  }

  method DiffProp(op: OpKey, o: map<string, Schema>, n: map<string, Schema>, prop: string) returns (out: seq<Change>)
    requires prop in o && prop in n
    ensures forall c :: c in out <==> PropBreaks(op, o, n, prop, c)
  {
    out := [];
    if TypesClash(o[prop], n[prop]) {
      out := out + [TypeChange(op, prop, ScalarType(o[prop]), ScalarType(n[prop]))];
    }
    var removed := EnumSet(o[prop]) - EnumSet(n[prop]);
    if EnumSet(o[prop]) != {} && removed != {} {
      out := out + [RemovedEnumValue(op, prop, removed)];
    }
  }

  /** The two reports a request property can give rise to. */
  predicate PropBreaks(op: OpKey, o: map<string, Schema>, n: map<string, Schema>, prop: string, c: Change) {
    && prop in o && prop in n
    && ((TypesClash(o[prop], n[prop]) && c == TypeChange(op, prop, ScalarType(o[prop]), ScalarType(n[prop])))
        || (EnumSet(o[prop]) - EnumSet(n[prop]) != {}
            && c == RemovedEnumValue(op, prop, EnumSet(o[prop]) - EnumSet(n[prop]))))
  }

  method DiffResponses(op: OpKey, o: Operation, n: Operation) returns (out: seq<Change>)
    ensures forall c :: c in out <==> exists status, name :: ResponseBreaks(op, o, n, status, name, c)
  {
    out := [];
    var statuses := Listed(o.responseRequired.Keys * n.responseRequired.Keys);
    for i := 0 to |statuses|
      invariant forall c :: c in out <==> exists j, name :: 0 <= j < i && ResponseBreaks(op, o, n, statuses[j], name, c)
    {
      assert statuses[i] in o.responseRequired.Keys * n.responseRequired.Keys;
      var status := statuses[i];
      var more := Report(o.responseRequired[status] - n.responseRequired[status],
                         name => RemovedResponseField(op, status, name));
      forall c ensures c in more <==> exists name :: ResponseBreaks(op, o, n, status, name, c) {
        if c in more {
          var name :|
            name in o.responseRequired[status] - n.responseRequired[status]
            && RemovedResponseField(op, status, name) == c;
          assert ResponseBreaks(op, o, n, status, name, c);
        }
      }
      out := out + more;
    }
    forall c, status, name | ResponseBreaks(op, o, n, status, name, c) ensures c in out {
      assert status in o.responseRequired.Keys * n.responseRequired.Keys;
      var j :| 0 <= j < |statuses| && statuses[j] == status;
    }
  }

  predicate ResponseBreaks(op: OpKey, o: Operation, n: Operation, status: string, name: string, c: Change) {
    && status in o.responseRequired && status in n.responseRequired
    && name in o.responseRequired[status] - n.responseRequired[status] && c == RemovedResponseField(op, status, name)
  }

  method DiffResponseProps(op: OpKey, o: map<(string, string), Schema>, n: map<(string, string), Schema>)
    returns (out: seq<Change>)
    ensures forall c :: c in out <==> exists at :: ResponsePropBreaks(op, o, n, at, c)
  {
    out := [];
    var ats := Listed(o.Keys * n.Keys);
    for i := 0 to |ats|
      invariant forall c :: c in out <==> exists j :: 0 <= j < i && ResponsePropBreaks(op, o, n, ats[j], c)
    {
      assert ats[i] in o.Keys * n.Keys;
      if TypesClash(o[ats[i]], n[ats[i]]) {
        out := out + [ResponseTypeChange(op, ats[i], ScalarType(o[ats[i]]), ScalarType(n[ats[i]]))];
      }
    }
    forall c, at | ResponsePropBreaks(op, o, n, at, c) ensures c in out {
      assert at in o.Keys * n.Keys;
      var j :| 0 <= j < |ats| && ats[j] == at;
    }
  }

  predicate ResponsePropBreaks(op: OpKey, o: map<(string, string), Schema>, n: map<(string, string), Schema>,
                               at: (string, string), c: Change) {
    && at in o && at in n && TypesClash(o[at], n[at])
    && c == ResponseTypeChange(op, at, ScalarType(o[at]), ScalarType(n[at]))
  }

  /** Whether a report is one about this operation. */
  predicate About(op: OpKey, o: Operation, n: Operation, c: Change) {
    !c.VersionDowngrade? && !c.RemovedPath? && !c.RemovedMethod? && c.op == op && OpBreaks(o, n, c)
  }

  method DiffOperation(op: OpKey, o: Operation, n: Operation) returns (out: seq<Change>)
    ensures forall c :: c in out <==> About(op, o, n, c)
  {
    var statuses := Report(o.responses - n.responses, status => RemovedStatus(op, status));
    var removed := Report(o.requestRequired - n.requestRequired - n.requestOptional, f => RemovedRequiredField(op, f));
    var flips := Report(o.requestOptional * n.requestRequired, f => RequiredFlip(op, f));
    var props := DiffRequestProps(op, o.requestProps, n.requestProps);
    var added := Report(n.requestRequired - o.requestRequired - o.requestOptional, f => AddedRequiredField(op, f));
    var responses := DiffResponses(op, o, n);
    var responseProps := DiffResponseProps(op, o.responseProps, n.responseProps);
    out := statuses + removed + flips + props + added + responses + responseProps;
    FieldReports(op, o, n, statuses, removed, flips, added);
    forall c ensures c in out <==> About(op, o, n, c) {
      assert c in out <==>
        c in statuses || c in removed || c in flips || c in props || c in added || c in responses || c in responseProps;
      OtherReports(op, o, n, c);
    }
  }

  lemma FieldReports(op: OpKey, o: Operation, n: Operation, statuses: seq<Change>, removed: seq<Change>,
                     flips: seq<Change>, added: seq<Change>)
    requires forall c :: c in statuses <==> exists s :: s in o.responses - n.responses && RemovedStatus(op, s) == c
    requires forall c :: c in removed <==>
               exists f :: f in o.requestRequired - n.requestRequired - n.requestOptional
                           && RemovedRequiredField(op, f) == c
    requires forall c :: c in flips <==>
               exists f :: f in o.requestOptional * n.requestRequired && RequiredFlip(op, f) == c
    requires forall c :: c in added <==>
               exists f :: f in n.requestRequired - o.requestRequired - o.requestOptional
                           && AddedRequiredField(op, f) == c
    ensures forall c :: c in statuses <==> About(op, o, n, c) && c.RemovedStatus?
    ensures forall c :: c in removed <==> About(op, o, n, c) && c.RemovedRequiredField?
    ensures forall c :: c in flips <==> About(op, o, n, c) && c.RequiredFlip?
    ensures forall c :: c in added <==> About(op, o, n, c) && c.AddedRequiredField?
  {
  }

  lemma OtherReports(op: OpKey, o: Operation, n: Operation, c: Change)
    ensures (exists prop :: PropBreaks(op, o.requestProps, n.requestProps, prop, c))
            <==> About(op, o, n, c) && (c.TypeChange? || c.RemovedEnumValue?)
    ensures (exists status, name :: ResponseBreaks(op, o, n, status, name, c))
            <==> About(op, o, n, c) && c.RemovedResponseField?
    ensures (exists at :: ResponsePropBreaks(op, o.responseProps, n.responseProps, at, c))
            <==> About(op, o, n, c) && c.ResponseTypeChange?
  {
    if About(op, o, n, c) {
      match c {
        case TypeChange(_, prop, _, _) => assert PropBreaks(op, o.requestProps, n.requestProps, prop, c);
        case RemovedEnumValue(_, prop, _) => assert PropBreaks(op, o.requestProps, n.requestProps, prop, c);
        case RemovedResponseField(_, status, name) => assert ResponseBreaks(op, o, n, status, name, c);
        case ResponseTypeChange(_, at, _, _) => assert ResponsePropBreaks(op, o.responseProps, n.responseProps, at, c);
        case _ =>
      }
    }
  }

  /** Every report has its witness, and everything with a witness is reported. */
  method Diff(old_: FlatSpec, new_: FlatSpec) returns (out: seq<Change>)
    ensures forall c :: c in out <==> Breaks(old_, new_, c)
  {
    var version: seq<Change> := if 0 < Major(new_.version) < Major(old_.version) then [VersionDowngrade] else [];
    var paths := Report(old_.paths - new_.paths, p => RemovedPath(p));
    var lost := set op | op in old_.operations && op.0 in old_.paths * new_.paths && op !in new_.operations;
    var methods := Report(lost, op => RemovedMethod(op));
    var ops := DiffOperations(old_, new_);
    out := version + paths + methods + ops;
    TopReports(old_, new_, lost, paths, methods);
    forall c ensures c in out <==> Breaks(old_, new_, c) {
      assert c in out <==> c in version || c in paths || c in methods || c in ops;
      OpReports(old_, new_, c);
    }
  }

  lemma TopReports(old_: FlatSpec, new_: FlatSpec, lost: set<OpKey>, paths: seq<Change>, methods: seq<Change>)
    requires forall op :: op in lost <==>
               op in old_.operations && op.0 in old_.paths * new_.paths && op !in new_.operations
    requires forall c :: c in paths <==> exists p :: p in old_.paths - new_.paths && RemovedPath(p) == c
    requires forall c :: c in methods <==> exists op :: op in lost && RemovedMethod(op) == c
    ensures forall c :: c in paths <==> c.RemovedPath? && Breaks(old_, new_, c)
    ensures forall c :: c in methods <==> c.RemovedMethod? && Breaks(old_, new_, c)
  {
  }

  lemma OpReports(old_: FlatSpec, new_: FlatSpec, c: Change)
    ensures (exists op :: OpReported(old_, new_, op, c))
            <==> !c.VersionDowngrade? && !c.RemovedPath? && !c.RemovedMethod? && Breaks(old_, new_, c)
  {
    if !c.VersionDowngrade? && !c.RemovedPath? && !c.RemovedMethod? {
      assert Breaks(old_, new_, c) <==> OpReported(old_, new_, c.op, c);
    }
  }

  predicate OpReported(old_: FlatSpec, new_: FlatSpec, op: OpKey, c: Change) {
    Kept(old_, new_, op) && About(op, old_.operations[op], new_.operations[op], c)
  }

  method DiffOperations(old_: FlatSpec, new_: FlatSpec) returns (out: seq<Change>)
    ensures forall c :: c in out <==> exists op :: OpReported(old_, new_, op, c)
  {
    out := [];
    var ops := Listed(old_.operations.Keys * new_.operations.Keys);
    for i := 0 to |ops|
      invariant forall c :: c in out <==> exists j :: 0 <= j < i && OpReported(old_, new_, ops[j], c)
    {
      assert ops[i] in old_.operations.Keys * new_.operations.Keys;
      var more := DiffOperation(ops[i], old_.operations[ops[i]], new_.operations[ops[i]]);
      out := out + more;
    }
    forall c, op | OpReported(old_, new_, op, c) ensures c in out {
      assert op in old_.operations.Keys * new_.operations.Keys;
      var j :| 0 <= j < |ops| && ops[j] == op;
    }
  }
}
