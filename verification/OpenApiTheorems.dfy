/** What an empty diff means. */
module OpenApiTheorems {
  import opened Wrappers
  import opened SchemaFlatten
  import opened OpenApiDiff

  predicate Silent(old_: FlatSpec, new_: FlatSpec, c: Change) {
    !Breaks(old_, new_, c)
  }

  /** Nothing is reported. */
  ghost predicate NoReports(old_: FlatSpec, new_: FlatSpec) {
    forall c :: Silent(old_, new_, c)
  }

  // ----- compatibility, from the client's side -----

  datatype Presence = Required | Both | Optional | Absent

  function PresenceOf(o: Operation, f: Field): Presence {
    if f in o.requestRequired then if f in o.requestOptional then Both else Required
    else if f in o.requestOptional then Optional
    else Absent
  }

  /** No field may become required, and a required field may not disappear.  A field that is both counts as optional
      before and as required after. */
  predicate AllowedMove(was: Presence, now: Presence) {
    match was
    case Required => now != Absent
    case Both => now == Optional
    case Optional | Absent => now == Optional || now == Absent
  }

  predicate SameType(old_: Schema, new_: Schema) {
    ScalarType(old_) == "" || ScalarType(new_) == "" || ScalarType(old_) == ScalarType(new_)
  }

  /** The enum of the schema has this value. */
  predicate Lists(s: Schema, value: string) {
    s.Schema? && s.values.Some? && value in s.values.value
  }

  /** No value the old schema lists is missing from the new one. */
  ghost predicate KeepsValues(old_: Schema, new_: Schema) {
    forall value :: Lists(old_, value) ==> Lists(new_, value)
  }

  /** Every value of a property the old schema allowed is still allowed, as far as types and enums say. */
  ghost predicate StillAccepts(old_: Schema, new_: Schema) {
    SameType(old_, new_) && KeepsValues(old_, new_)
  }

  lemma KeptIff(old_: Schema, new_: Schema)
    ensures KeepsValues(old_, new_) <==> EnumSet(old_) - EnumSet(new_) == {}
  {
    assert forall value :: value in EnumSet(old_) <==> Lists(old_, value);
    assert forall value :: value in EnumSet(new_) <==> Lists(new_, value);
    if EnumSet(old_) - EnumSet(new_) == {} {
      forall value | Lists(old_, value) ensures Lists(new_, value) { assert value !in EnumSet(old_) - EnumSet(new_); }
    }
  }

  ghost predicate OpCompatible(o: Operation, n: Operation) {
    && o.responses <= n.responses
    && (forall f :: AllowedMove(PresenceOf(o, f), PresenceOf(n, f)))
    && (forall p :: p in o.requestProps && p in n.requestProps ==> StillAccepts(o.requestProps[p], n.requestProps[p]))
    && (forall s :: s in o.responseRequired && s in n.responseRequired ==>
          o.responseRequired[s] <= n.responseRequired[s])
    && (forall at :: at in o.responseProps && at in n.responseProps ==>
          SameType(o.responseProps[at], n.responseProps[at]))
  }

  ghost predicate Compatible(old_: FlatSpec, new_: FlatSpec) {
    && (Major(old_.version) == 0 || Major(new_.version) == 0 || Major(old_.version) <= Major(new_.version))
    && old_.paths <= new_.paths
    && old_.operations.Keys <= new_.operations.Keys
    && forall op :: op in old_.operations && op in new_.operations ==>
         OpCompatible(old_.operations[op], new_.operations[op])
  }

  /** No field is both required and optional. */
  predicate Disjoint(o: Operation) {
    o.requestRequired !! o.requestOptional
  }

  /** What flattening gives. */
  ghost predicate Regular(s: FlatSpec) {
    forall op :: op in s.operations ==> op.0 in s.paths
  }

  lemma OpSilentIff(op: OpKey, o: Operation, n: Operation)
    ensures (forall c :: !About(op, o, n, c)) <==> OpCompatible(o, n)
  {
    if forall c :: !About(op, o, n, c) {
      NoFieldReports(op, o, n);
      NoPropReports(op, o, n);
    }
    if OpCompatible(o, n) {
      forall c ensures !About(op, o, n, c) {
        if c.RemovedRequiredField? || c.RequiredFlip? || c.AddedRequiredField? {
          assert AllowedMove(PresenceOf(o, c.field), PresenceOf(n, c.field));
        }
        if c.RemovedEnumValue? && c.prop in o.requestProps && c.prop in n.requestProps {
          assert StillAccepts(o.requestProps[c.prop], n.requestProps[c.prop]);
          KeptIff(o.requestProps[c.prop], n.requestProps[c.prop]);
        }
      }
    }
  }

  lemma NoFieldReports(op: OpKey, o: Operation, n: Operation)
    requires forall c :: !About(op, o, n, c)
    ensures o.responses <= n.responses
    ensures forall f :: AllowedMove(PresenceOf(o, f), PresenceOf(n, f))
    ensures forall s :: s in o.responseRequired && s in n.responseRequired ==>
              o.responseRequired[s] <= n.responseRequired[s]
  {
    forall s | s in o.responses ensures s in n.responses { assert !About(op, o, n, RemovedStatus(op, s)); }
    forall f ensures AllowedMove(PresenceOf(o, f), PresenceOf(n, f)) {
      assert !About(op, o, n, RemovedRequiredField(op, f));
      assert !About(op, o, n, RequiredFlip(op, f));
      assert !About(op, o, n, AddedRequiredField(op, f));
    }
    forall s, name | s in o.responseRequired && s in n.responseRequired && name in o.responseRequired[s]
      ensures name in n.responseRequired[s]
    {
      assert !About(op, o, n, RemovedResponseField(op, s, name));
    }
  }

  lemma NoPropReports(op: OpKey, o: Operation, n: Operation)
    requires forall c :: !About(op, o, n, c)
    ensures forall p :: p in o.requestProps && p in n.requestProps ==>
              StillAccepts(o.requestProps[p], n.requestProps[p])
    ensures forall at :: at in o.responseProps && at in n.responseProps ==>
              SameType(o.responseProps[at], n.responseProps[at])
  {
    forall p | p in o.requestProps && p in n.requestProps ensures StillAccepts(o.requestProps[p], n.requestProps[p]) {
      var was, now := o.requestProps[p], n.requestProps[p];
      assert !About(op, o, n, TypeChange(op, p, ScalarType(was), ScalarType(now)));
      assert !About(op, o, n, RemovedEnumValue(op, p, EnumSet(was) - EnumSet(now)));
      KeptIff(was, now);
    }
    forall at | at in o.responseProps && at in n.responseProps
      ensures SameType(o.responseProps[at], n.responseProps[at])
    {
      var was, now := ScalarType(o.responseProps[at]), ScalarType(n.responseProps[at]);
      assert !About(op, o, n, ResponseTypeChange(op, at, was, now));
    }
  }

  /** The diff is empty exactly when the new specification is compatible with the old one. */
  lemma SilentIffCompatible(old_: FlatSpec, new_: FlatSpec)
    requires Regular(old_) && Regular(new_)
    ensures NoReports(old_, new_) <==> Compatible(old_, new_)
  {
    if NoReports(old_, new_) {
      assert Silent(old_, new_, VersionDowngrade);
      forall p | p in old_.paths ensures p in new_.paths { assert Silent(old_, new_, RemovedPath(p)); }
      forall op | op in old_.operations ensures op in new_.operations { assert Silent(old_, new_, RemovedMethod(op)); }
      forall op | op in old_.operations && op in new_.operations
        ensures OpCompatible(old_.operations[op], new_.operations[op])
      {
        OpSilentIff(op, old_.operations[op], new_.operations[op]);
        assert forall c :: About(op, old_.operations[op], new_.operations[op], c) ==> !Silent(old_, new_, c);
      }
    }
    if Compatible(old_, new_) {
      forall c ensures Silent(old_, new_, c) { CompatibleSilent(old_, new_, c); }
    }
  }

  lemma CompatibleSilent(old_: FlatSpec, new_: FlatSpec, c: Change)
    requires Regular(old_) && Regular(new_) && Compatible(old_, new_)
    ensures Silent(old_, new_, c)
  {
    if !c.VersionDowngrade? && !c.RemovedPath? && !c.RemovedMethod? && Kept(old_, new_, c.op) {
      OpSilentIff(c.op, old_.operations[c.op], new_.operations[c.op]);
      assert !About(c.op, old_.operations[c.op], new_.operations[c.op], c);
    }
  }

  // ----- a specification against itself -----

  /** Comparing a specification with itself reports nothing exactly when no operation has a field that is both required
      and optional; each such field is reported as having become required. */
  lemma SelfDiff(s: FlatSpec)
    ensures NoReports(s, s) <==> forall op :: op in s.operations ==> Disjoint(s.operations[op])
    ensures forall c :: !Silent(s, s, c) <==>
              c.RequiredFlip? && c.op in s.operations
              && c.field in s.operations[c.op].requestRequired * s.operations[c.op].requestOptional
  {
    forall op, f | op in s.operations && f in s.operations[op].requestRequired * s.operations[op].requestOptional
      ensures !Silent(s, s, RequiredFlip(op, f))
    {
    }
    if NoReports(s, s) {
      forall op | op in s.operations ensures Disjoint(s.operations[op]) {
        forall f | f in s.operations[op].requestRequired ensures f !in s.operations[op].requestOptional {
          assert Silent(s, s, RequiredFlip(op, f));
        }
      }
    }
  }

  // ----- additions -----

  /** `n` only adds: statuses, optional fields the old one did not have, properties, required response fields. */
  predicate OpAdds(o: Operation, n: Operation) {
    && o.responses <= n.responses
    && n.requestRequired == o.requestRequired
    && o.requestOptional <= n.requestOptional && (n.requestOptional - o.requestOptional) !! o.requestRequired
    && (forall p :: p in o.requestProps && p in n.requestProps ==> n.requestProps[p] == o.requestProps[p])
    && (forall s :: s in o.responseRequired && s in n.responseRequired ==>
          o.responseRequired[s] <= n.responseRequired[s])
    && (forall at :: at in o.responseProps && at in n.responseProps ==> n.responseProps[at] == o.responseProps[at])
  }

  ghost predicate Adds(old_: FlatSpec, new_: FlatSpec) {
    && Major(old_.version) <= Major(new_.version)
    && old_.paths <= new_.paths
    && old_.operations.Keys <= new_.operations.Keys
    && forall op :: op in old_.operations ==> op in new_.operations && OpAdds(old_.operations[op], new_.operations[op])
  }

  /** Adding paths, operations, statuses or optional fields never creates a report: whatever is reported was already
      reported for the old specification against itself. */
  lemma AdditionsAreSilent(old_: FlatSpec, new_: FlatSpec, c: Change)
    requires Adds(old_, new_)
    ensures !Silent(old_, new_, c) ==> !Silent(old_, old_, c)
  {
  }

  // ----- compatibility composes, up to what the middle forgets -----

  /** What a comparison in two steps can miss, because the specification in the middle does not mention it. */
  datatype Gap =
    | VersionDip
    | DroppedField(op: OpKey, field: Field)
    | RetypedProp(op: OpKey, prop: string)
    | ShrunkEnum(op: OpKey, prop: string)
    | ShrunkResponse(op: OpKey, status: string)
    | RetypedResponse(op: OpKey, at: (string, string))

  predicate Untyped<K>(props: map<K, Schema>, k: K) {
    k !in props || ScalarType(props[k]) == ""
  }

  /** The middle specification passes through major version 0, makes a required field optional before it goes, or says
      nothing about a property, a type or a response that the outer two disagree on. */
  ghost predicate Hidden(old_: FlatSpec, mid: FlatSpec, new_: FlatSpec, g: Gap) {
    match g
    case VersionDip => Major(mid.version) == 0 && 0 < Major(new_.version) < Major(old_.version)
    case _ =>
      && g.op in old_.operations && g.op in mid.operations && g.op in new_.operations
      && OpHidden(old_.operations[g.op], mid.operations[g.op], new_.operations[g.op], g)
  }

  ghost predicate OpHidden(o: Operation, m: Operation, n: Operation, g: Gap)
    requires !g.VersionDip?
  {
    match g
    case DroppedField(_, f) =>
      f in o.requestRequired && f in m.requestOptional && f !in n.requestRequired && f !in n.requestOptional
    case RetypedProp(_, p) =>
      && p in o.requestProps && Untyped(m.requestProps, p) && p in n.requestProps
      && TypesClash(o.requestProps[p], n.requestProps[p])
    case ShrunkEnum(_, p) =>
      && p in o.requestProps && p !in m.requestProps && p in n.requestProps
      && !KeepsValues(o.requestProps[p], n.requestProps[p])
    case ShrunkResponse(_, s) =>
      && s in o.responseRequired && s !in m.responseRequired && s in n.responseRequired
      && !(o.responseRequired[s] <= n.responseRequired[s])
    case RetypedResponse(_, at) =>
      && at in o.responseProps && Untyped(m.responseProps, at) && at in n.responseProps
      && TypesClash(o.responseProps[at], n.responseProps[at])
  }

  ghost predicate NothingHidden(op: OpKey, o: Operation, m: Operation, n: Operation) {
    forall g: Gap :: !g.VersionDip? && g.op == op ==> !OpHidden(o, m, n, g)
  }

  lemma OpComposes(op: OpKey, o: Operation, m: Operation, n: Operation)
    requires OpCompatible(o, m) && OpCompatible(m, n)
    ensures OpCompatible(o, n) <==> NothingHidden(op, o, m, n)
  {
    if NothingHidden(op, o, m, n) {
      FieldsCompose(op, o, m, n);
      PropsCompose(op, o, m, n);
      ResponsesCompose(op, o, m, n);
    }
    if OpCompatible(o, n) {
      forall g: Gap | !g.VersionDip? && g.op == op ensures !OpHidden(o, m, n, g) {
        if g.DroppedField? { assert AllowedMove(PresenceOf(o, g.field), PresenceOf(n, g.field)); }
      }
    }
  }

  lemma FieldsCompose(op: OpKey, o: Operation, m: Operation, n: Operation)
    requires OpCompatible(o, m) && OpCompatible(m, n) && NothingHidden(op, o, m, n)
    ensures forall f :: AllowedMove(PresenceOf(o, f), PresenceOf(n, f))
  {
    forall f ensures AllowedMove(PresenceOf(o, f), PresenceOf(n, f)) {
      assert AllowedMove(PresenceOf(o, f), PresenceOf(m, f)) && AllowedMove(PresenceOf(m, f), PresenceOf(n, f));
      assert !OpHidden(o, m, n, DroppedField(op, f));
    }
  }

  lemma PropsCompose(op: OpKey, o: Operation, m: Operation, n: Operation)
    requires OpCompatible(o, m) && OpCompatible(m, n) && NothingHidden(op, o, m, n)
    ensures forall p :: p in o.requestProps && p in n.requestProps ==>
              StillAccepts(o.requestProps[p], n.requestProps[p])
  {
    forall p | p in o.requestProps && p in n.requestProps ensures StillAccepts(o.requestProps[p], n.requestProps[p]) {
      assert !OpHidden(o, m, n, RetypedProp(op, p)) && !OpHidden(o, m, n, ShrunkEnum(op, p));
      if p in m.requestProps {
        assert StillAccepts(o.requestProps[p], m.requestProps[p]) && StillAccepts(m.requestProps[p], n.requestProps[p]);
      }
    }
  }

  lemma ResponsesCompose(op: OpKey, o: Operation, m: Operation, n: Operation)
    requires OpCompatible(o, m) && OpCompatible(m, n) && NothingHidden(op, o, m, n)
    ensures forall s :: s in o.responseRequired && s in n.responseRequired ==>
              o.responseRequired[s] <= n.responseRequired[s]
    ensures forall at :: at in o.responseProps && at in n.responseProps ==>
              SameType(o.responseProps[at], n.responseProps[at])
  {
    forall s | s in o.responseRequired && s in n.responseRequired
      ensures o.responseRequired[s] <= n.responseRequired[s]
    {
      assert !OpHidden(o, m, n, ShrunkResponse(op, s));
    }
    forall at | at in o.responseProps && at in n.responseProps
      ensures SameType(o.responseProps[at], n.responseProps[at])
    {
      assert !OpHidden(o, m, n, RetypedResponse(op, at));
    }
  }

  /** Two silent steps make one silent step exactly when the middle specification hides nothing. */
  lemma SilenceComposesIff(old_: FlatSpec, mid: FlatSpec, new_: FlatSpec)
    requires Regular(old_) && Regular(mid) && Regular(new_)
    requires NoReports(old_, mid) && NoReports(mid, new_)
    ensures NoReports(old_, new_) <==> forall g :: !Hidden(old_, mid, new_, g)
  {
    SilentIffCompatible(old_, mid);
    SilentIffCompatible(mid, new_);
    SilentIffCompatible(old_, new_);
    forall op | op in old_.operations
      ensures OpCompatible(old_.operations[op], new_.operations[op])
              <==> NothingHidden(op, old_.operations[op], mid.operations[op], new_.operations[op])
    {
      OpComposes(op, old_.operations[op], mid.operations[op], new_.operations[op]);
    }
    HiddenByParts(old_, mid, new_);
  }

  lemma HiddenByParts(old_: FlatSpec, mid: FlatSpec, new_: FlatSpec)
    requires old_.operations.Keys <= mid.operations.Keys <= new_.operations.Keys
    ensures (forall g :: !Hidden(old_, mid, new_, g)) <==>
              && !Hidden(old_, mid, new_, VersionDip)
              && forall op :: op in old_.operations ==>
                   NothingHidden(op, old_.operations[op], mid.operations[op], new_.operations[op])
  {
    if forall g :: !Hidden(old_, mid, new_, g) {
      forall op, g: Gap | op in old_.operations && !g.VersionDip? && g.op == op
        ensures !OpHidden(old_.operations[op], mid.operations[op], new_.operations[op], g)
      {
        assert !Hidden(old_, mid, new_, g);
      }
    }
  }

  /** One operation with one property. */
  function OneProp(version: string, required: bool, props: map<string, Schema>): FlatSpec {
    var f := {BodyField("a")};
    FlatSpec(version, {"/x"}, map[("/x", "post") :=
      Operation(if required then f else {}, if required then {} else f, props, {}, map[], map[])])
  }

  function Typed(t: string): map<string, Schema> {
    map["a" := EMPTY.(type_ := Some(One(t)))]
  }

  /** Dropping a type and then giving another one passes twice, though the two steps together are reported. */
  lemma NotTransitive(version: string, a: string, b: string)
    requires a != "" && b != "" && a != b
    ensures var old_, mid, new_ := OneProp(version, false, Typed(a)), OneProp(version, false, map["a" := EMPTY]),
                                   OneProp(version, false, Typed(b));
            NoReports(old_, mid) && NoReports(mid, new_) && !NoReports(old_, new_)
  {
    var old_, mid := OneProp(version, false, Typed(a)), OneProp(version, false, map["a" := EMPTY]);
    var new_ := OneProp(version, false, Typed(b));
    assert Hidden(old_, mid, new_, RetypedProp(("/x", "post"), "a"));
    SilenceComposesIff(old_, mid, new_);
  }

  /** So does making a required field optional and then dropping it. */
  lemma DropInTwoSteps(version: string)
    ensures var old_, mid := OneProp(version, true, map[]), OneProp(version, false, map[]);
            var new_ := mid.(operations := map[("/x", "post") := Operation({}, {}, map[], {}, map[], map[])]);
            NoReports(old_, mid) && NoReports(mid, new_) && !NoReports(old_, new_)
  {
    var old_, mid := OneProp(version, true, map[]), OneProp(version, false, map[]);
    var new_ := mid.(operations := map[("/x", "post") := Operation({}, {}, map[], {}, map[], map[])]);
    assert Hidden(old_, mid, new_, DroppedField(("/x", "post"), BodyField("a")));
    SilenceComposesIff(old_, mid, new_);
  }

  /** And so does a downgrade by way of a version that reads as 0. */
  lemma DowngradeInTwoSteps(old_: string, mid: string, new_: string)
    requires Major(mid) == 0 && 0 < Major(new_) < Major(old_)
    ensures NoReports(FlatSpec(old_, {}, map[]), FlatSpec(mid, {}, map[]))
    ensures NoReports(FlatSpec(mid, {}, map[]), FlatSpec(new_, {}, map[]))
    ensures !NoReports(FlatSpec(old_, {}, map[]), FlatSpec(new_, {}, map[]))
  {
    assert !Silent(FlatSpec(old_, {}, map[]), FlatSpec(new_, {}, map[]), VersionDowngrade);
  }
}
