/** Where validation finds fault: at the value, inside it, or with the schema itself. So the field a diagnostic
names is a field of the action. */
module SchemaPaths {
  import opened Wrappers
  import opened Json
  import opened WireFields
  import opened SchemaDocument

  /** The same place, or one inside it. */
  predicate Below(path: string, place: string) {
    path <= place && (|place| == |path| || place[|path|] == '/')
  }

  /** A fault of the whole, or at this place or inside it. */
  predicate At(path: string, fault: Option<Fault>) {
    fault.Some? ==> fault.value.path == "#" || Below(path, fault.value.path)
  }

  /** A fault of the whole, or at this very place. */
  predicate Here(path: string, fault: Option<Fault>) {
    fault.Some? ==> fault.value.path == "#" || fault.value.path == path
  }

  /** The keywords that look at one node report the place they were given, and only the keys of an object are gone
      through. */
  ghost predicate Located(kw: Keywords) {
    && (forall own, value, path :: Here(path, kw.check(own, value, path)))
    && (forall own, items, path :: Here(path, kw.counts(own, items, path)))
    && (forall own, members, path :: Here(path, kw.sizes(own, members, path)))
    && (forall names: set<string>, name :: name in kw.order(names) ==> name in names)
    && (forall own, value :: kw.excludes(own, value).Unclear? ==> FaultOf(kw.excludes(own, value)).path == "#")
  }

  function FaultOf(m: Match): Fault
    requires m.Unclear?
  {
    match m case Unclear(fault) => fault
  }

  lemma {:induction false} ChildIsBelow(path: string, name: string, fault: Option<Fault>)
    requires At(ChildPath(path, name), fault)
    ensures At(path, fault)
    ensures fault.Some? && fault.value.path != "#" ==> Below(ChildPath(path, name), fault.value.path)
  {
    if fault.Some? && fault.value.path != "#" {
      var child, place := ChildPath(path, name), fault.value.path;
      assert child[|path|] == '/' && child[..|path|] == path;
      assert place[..|child|] == child;
      assert place[..|path|] == child[..|path|];
      assert place[|path|] == child[|path|];
    }
  }

  lemma {:induction false} UnclearIsWhole(kw: Keywords, raw: Tree, schema: Tree, value: Tree, depth: nat)
    requires Located(kw)
    ensures CouldMatch(kw, raw, schema, value, depth).Unclear? ==>
              FaultOf(CouldMatch(kw, raw, schema, value, depth)).path == "#"
    decreases Fuel(depth)
  {
    if depth <= MAX_REFERENCE_DEPTH && schema.TObj? && kw.excludes(schema.members, value).Possible?
       && "$ref" in schema.members && schema.members["$ref"].TStr? {
      var target := ResolveReference(raw, ReferenceText(schema.members["$ref"]));
      if target.Some? {
        UnclearIsWhole(kw, raw, target.value, value, depth + 1);
      }
    }
  }

  lemma {:induction false} FaultIsAt(kw: Keywords, raw: Tree, schema: Tree, value: Tree, path: string, depth: nat)
    requires Located(kw)
    ensures At(path, Validate(kw, raw, schema, value, path, depth))
    decreases Fuel(depth), schema, 2, 1
  {
    if depth <= MAX_REFERENCE_DEPTH && schema.TObj? && schema.members.Keys <= SUPPORTED {
      if "$ref" in schema.members {
        ReferenceFaultIsAt(kw, raw, schema, value, path, depth);
      } else {
        InsideFaultIsAt(kw, raw, schema, value, path, depth);
        ChoiceFaultIsAt(kw, raw, schema, "anyOf", value, path, depth);
        ChoiceFaultIsAt(kw, raw, schema, "oneOf", value, path, depth);
      }
    }
  }

  lemma {:induction false} ReferenceFaultIsAt(kw: Keywords, raw: Tree, schema: Tree, value: Tree, path: string,
      depth: nat)
    requires Located(kw)
    requires depth <= MAX_REFERENCE_DEPTH && schema.TObj? && schema.members.Keys <= SUPPORTED
        && "$ref" in schema.members
    ensures At(path, Validate(kw, raw, schema, value, path, depth))
    decreases Fuel(depth), schema, 2, 0
  {
    match schema.members["$ref"]
    case TStr(reference) =>
      var target := ResolveReference(raw, reference);
      if target.Some? {
        FaultIsAt(kw, raw, target.value, value, path, depth + 1);
      }
    case _ =>
  }

  lemma {:induction false} InsideFaultIsAt(kw: Keywords, raw: Tree, schema: Tree, value: Tree, path: string, depth: nat)
    requires Located(kw) && schema.TObj?
    ensures At(path, ValidateInside(kw, raw, schema, value, path, depth))
    decreases Fuel(depth), schema, 2, 0
  {
    match value
    case TArr(items) =>
      if "items" in schema.members {
        ItemsFaultIsAt(kw, raw, schema, items, path, depth);
      }
    case TObj(members) => MembersFaultIsAt(kw, raw, schema, members, path, depth);
    case _ =>
  }

  lemma {:induction false} ItemsFaultIsAt(kw: Keywords, raw: Tree, schema: Tree, items: seq<Tree>, path: string,
      depth: nat)
    requires Located(kw) && schema.TObj? && "items" in schema.members
    ensures At(path, ValidateItems(kw, raw, schema, items, path, depth))
    decreases Fuel(depth), schema, 1, |items|
  {
    if items != [] {
      var n := |items| - 1;
      var place := ChildPath(path, Decimal(n));
      ItemsFaultIsAt(kw, raw, schema, items[..n], path, depth);
      FaultIsAt(kw, raw, schema.members["items"], items[n], place, depth);
      ChildIsBelow(path, Decimal(n), Validate(kw, raw, schema.members["items"], items[n], place, depth));
    }
  }

  /** A fault of the whole or at the object, or one of a member of this name or inside it. */
  ghost predicate AtMember(path: string, names: seq<string>, fault: Option<Fault>) {
    fault.Some? ==>
      || fault.value.path == "#" || fault.value.path == path
      || exists name <- names :: Below(ChildPath(path, name), fault.value.path)
  }

  lemma {:induction false} AtMemberIsAt(path: string, names: seq<string>, fault: Option<Fault>)
    requires AtMember(path, names, fault)
    ensures At(path, fault)
  {
    if fault.Some? && fault.value.path != "#" && fault.value.path != path {
      var name :| name in names && Below(ChildPath(path, name), fault.value.path);
      ChildIsBelow(path, name, fault);
    }
  }

  lemma {:induction false} RequiredFaultIsAt(members: map<string, Tree>, required: seq<Tree>, path: string)
    ensures var fault := CheckRequired(members, required, path);
            fault.Some? ==> fault.value.path == "#" || fault.value.path == path
  {
    if required != [] {
      RequiredFaultIsAt(members, required[..|required| - 1], path);
    }
  }

  lemma {:induction false} NamesFaultIsAt(kw: Keywords, raw: Tree, schema: Tree, names: seq<string>, path: string,
      depth: nat)
    requires Located(kw) && schema.TObj?
    ensures AtMember(path, names, ValidateNames(kw, raw, schema, names, path, depth))
    decreases Fuel(depth), schema, 1, |names|
  {
    if names != [] && "propertyNames" in schema.members {
      var n := |names| - 1;
      var place := ChildPath(path, names[n]);
      NamesFaultIsAt(kw, raw, schema, names[..n], path, depth);
      FaultIsAt(kw, raw, schema.members["propertyNames"], TStr(names[n]), place, depth);
      ChildIsBelow(path, names[n],
                   Validate(kw, raw, schema.members["propertyNames"], TStr(names[n]), place, depth));
      assert names[n] in names && forall name <- names[..n] :: name in names;
    }
  }

  lemma {:induction false} MemberFaultIsAt(kw: Keywords, raw: Tree, schema: Tree, said: Tree, value: Tree, path: string,
      name: string, depth: nat)
    requires Located(kw) && schema.TObj? && said < schema
    ensures var fault := Validate(kw, raw, said, value, ChildPath(path, name), depth);
            fault.Some? ==> fault.value.path == "#" || Below(ChildPath(path, name), fault.value.path)
    decreases Fuel(depth), schema, 0, 0
  {
    FaultIsAt(kw, raw, said, value, ChildPath(path, name), depth);
  }

  lemma {:induction false} PropertiesFaultIsAt(kw: Keywords, raw: Tree, schema: Tree, names: seq<string>,
      members: map<string, Tree>, path: string, depth: nat)
    requires Located(kw) && schema.TObj? && ("properties" in schema.members ==> schema.members["properties"].TObj?)
    ensures AtMember(path, names, ValidateProperties(kw, raw, schema, names, members, path, depth))
    decreases Fuel(depth), schema, 1, |names|
  {
    if names != [] {
      var n, own := |names| - 1, schema.members;
      PropertiesFaultIsAt(kw, raw, schema, names[..n], members, path, depth);
      assert names[n] in names && forall name <- names[..n] :: name in names;
      if names[n] in members {
        if "properties" in own && names[n] in own["properties"].members {
          MemberFaultIsAt(kw, raw, schema, own["properties"].members[names[n]], members[names[n]], path, names[n],
              depth);
        } else if "additionalProperties" in own {
          MemberFaultIsAt(kw, raw, schema, own["additionalProperties"], members[names[n]], path, names[n], depth);
        }
        assert Below(ChildPath(path, names[n]), ChildPath(path, names[n]));
      }
    }
  }

  lemma {:induction false} MembersFaultIsAtMember(kw: Keywords, raw: Tree, schema: Tree, members: map<string, Tree>,
      path: string, depth: nat)
    requires Located(kw) && schema.TObj?
    ensures AtMember(path, kw.order(members.Keys), ValidateMembers(kw, raw, schema, members, path, depth))
    decreases Fuel(depth), schema, 1, |kw.order(members.Keys)| + 1
  {
    var own, names := schema.members, kw.order(members.Keys);
    NamesFaultIsAt(kw, raw, schema, names, path, depth);
    if "required" in own && own["required"].TArr? {
      RequiredFaultIsAt(members, own["required"].items, path);
    }
    if "properties" in own ==> own["properties"].TObj? {
      PropertiesFaultIsAt(kw, raw, schema, names, members, path, depth);
    }
  }

  lemma {:induction false} MembersFaultIsAt(kw: Keywords, raw: Tree, schema: Tree, members: map<string, Tree>,
      path: string, depth: nat)
    requires Located(kw) && schema.TObj?
    ensures At(path, ValidateInside(kw, raw, schema, TObj(members), path, depth))
    decreases Fuel(depth), schema, 1, |kw.order(members.Keys)| + 2
  {
    MembersFaultIsAtMember(kw, raw, schema, members, path, depth);
    AtMemberIsAt(path, kw.order(members.Keys), ValidateMembers(kw, raw, schema, members, path, depth));
  }

  lemma {:induction false} ChoiceFaultIsAt(kw: Keywords, raw: Tree, schema: Tree, keyword: string, value: Tree,
      path: string, depth: nat)
    requires Located(kw) && schema.TObj?
    ensures At(path, ValidateChoice(kw, raw, schema, keyword, value, path, depth))
    decreases Fuel(depth), schema, 2, 0
  {
    if keyword in schema.members && schema.members[keyword].TArr? {
      var n := |schema.members[keyword].items|;
      if Matching(kw, raw, schema, keyword, n, value, path, depth).Err? {
        MatchingFaultIsAt(kw, raw, schema, keyword, n, value, path, depth);
      }
    }
  }

  /** The alternative whose fault ends the count. */
  lemma {:induction false} MatchingFaultFrom(kw: Keywords, raw: Tree, schema: Tree, keyword: string, n: nat,
      value: Tree, path: string, depth: nat) returns (i: nat)
    requires schema.TObj? && keyword in schema.members && schema.members[keyword].TArr?
    requires n <= |schema.members[keyword].items| && Matching(kw, raw, schema, keyword, n, value, path, depth).Err?
    ensures i < n
    ensures var alternative := schema.members[keyword].items[i];
            var fault := Matching(kw, raw, schema, keyword, n, value, path, depth).error;
            || Validate(kw, raw, alternative, value, path, depth) == Some(fault)
            || CouldMatch(kw, raw, alternative, value, depth) == Unclear(fault)
  {
    if Matching(kw, raw, schema, keyword, n - 1, value, path, depth).Err? {
      i := MatchingFaultFrom(kw, raw, schema, keyword, n - 1, value, path, depth);
    } else {
      i := n - 1;
    }
  }

  lemma {:induction false} MatchingFaultIsAt(kw: Keywords, raw: Tree, schema: Tree, keyword: string, n: nat,
      value: Tree, path: string, depth: nat)
    requires Located(kw) && schema.TObj? && keyword in schema.members && schema.members[keyword].TArr?
    requires n <= |schema.members[keyword].items| && Matching(kw, raw, schema, keyword, n, value, path, depth).Err?
    ensures At(path, Some(Matching(kw, raw, schema, keyword, n, value, path, depth).error))
    decreases Fuel(depth), schema, 1, n
  {
    var i := MatchingFaultFrom(kw, raw, schema, keyword, n, value, path, depth);
    FaultIsAt(kw, raw, schema.members[keyword].items[i], value, path, depth);
    UnclearIsWhole(kw, raw, schema.members[keyword].items[i], value, depth);
  }

  // ----- the parameters of a call -----

  /** A fault of the whole, or of a parameter or inside it. */
  ghost predicate AtParameter(params: map<string, Tree>, fault: Option<Fault>) {
    fault.Some? ==>
      fault.value.path == "#" || exists name <- params :: Below(ChildPath("#", name), fault.value.path)
  }

  lemma {:induction false} TopFault(kw: Keywords, raw: Tree, schema: Tree, params: map<string, Tree>, depth: nat)
    requires Located(kw)
    ensures AtParameter(params, Validate(kw, raw, schema, TObj(params), "#", depth))
    decreases Fuel(depth), schema, 1
  {
    if depth <= MAX_REFERENCE_DEPTH && schema.TObj? && schema.members.Keys <= SUPPORTED {
      if "$ref" in schema.members {
        TopReferenceFault(kw, raw, schema, params, depth);
      } else {
        TopMembersFault(kw, raw, schema, params, depth);
        TopChoiceFault(kw, raw, schema, "anyOf", params, depth);
        TopChoiceFault(kw, raw, schema, "oneOf", params, depth);
      }
    }
  }

  lemma {:induction false} TopReferenceFault(kw: Keywords, raw: Tree, schema: Tree, params: map<string, Tree>,
      depth: nat)
    requires Located(kw)
    requires depth <= MAX_REFERENCE_DEPTH && schema.TObj? && schema.members.Keys <= SUPPORTED
        && "$ref" in schema.members
    ensures AtParameter(params, Validate(kw, raw, schema, TObj(params), "#", depth))
    decreases Fuel(depth), schema, 0
  {
    match schema.members["$ref"]
    case TStr(reference) =>
      var target := ResolveReference(raw, reference);
      if target.Some? {
        TopFault(kw, raw, target.value, params, depth + 1);
      }
    case _ =>
  }

  lemma {:induction false} TopMembersFault(kw: Keywords, raw: Tree, schema: Tree, params: map<string, Tree>, depth: nat)
    requires Located(kw) && schema.TObj?
    ensures AtParameter(params, ValidateInside(kw, raw, schema, TObj(params), "#", depth))
  {
    MembersFaultIsAtMember(kw, raw, schema, params, "#", depth);
    var fault := ValidateMembers(kw, raw, schema, params, "#", depth);
    if fault.Some? && fault.value.path != "#" {
      var name :| name in kw.order(params.Keys) && Below(ChildPath("#", name), fault.value.path);
      assert name in params.Keys;
    }
  }

  lemma {:induction false} TopChoiceFault(kw: Keywords, raw: Tree, schema: Tree, keyword: string,
      params: map<string, Tree>, depth: nat)
    requires Located(kw) && schema.TObj?
    ensures AtParameter(params, ValidateChoice(kw, raw, schema, keyword, TObj(params), "#", depth))
    decreases Fuel(depth), schema, 0
  {
    if keyword in schema.members && schema.members[keyword].TArr? {
      var n := |schema.members[keyword].items|;
      if Matching(kw, raw, schema, keyword, n, TObj(params), "#", depth).Err? {
        TopMatchingFault(kw, raw, schema, keyword, n, params, depth);
      }
    }
  }

  lemma {:induction false} TopMatchingFault(kw: Keywords, raw: Tree, schema: Tree, keyword: string, n: nat,
      params: map<string, Tree>, depth: nat)
    requires Located(kw) && schema.TObj? && keyword in schema.members && schema.members[keyword].TArr?
    requires n <= |schema.members[keyword].items|
    requires Matching(kw, raw, schema, keyword, n, TObj(params), "#", depth).Err?
    ensures AtParameter(params, Some(Matching(kw, raw, schema, keyword, n, TObj(params), "#", depth).error))
    decreases Fuel(depth), schema.members[keyword], n
  {
    var i := MatchingFaultFrom(kw, raw, schema, keyword, n, TObj(params), "#", depth);
    TopFault(kw, raw, schema.members[keyword].items[i], params, depth);
    UnclearIsWhole(kw, raw, schema.members[keyword].items[i], TObj(params), depth);
  }

  /** The path of a fault leads to the parameter it is about, in the form that is turned back into a field name. */
  lemma {:induction false} BelowIsInstance(name: string, place: string)
    requires Below(ChildPath("#", name), place)
    ensures exists inside :: place == InstancePath(name, inside) && (inside == "" || inside[0] == '/')
  {
    var child := ChildPath("#", name);
    var inside := place[|child|..];
    assert child == "#/" + Escaped(name);
    assert place == child + inside;
    assert InstancePath(name, inside) == "#/" + Escaped(name) + inside;
  }

  lemma {:induction false} FieldOfParam(checked: seq<WireField>, fields: seq<Field>, wire: string) returns (i: nat)
    requires Follows(checked, fields) && wire in Params(checked)
    ensures i < |fields| && WireName(fields[i].name) == wire
  {
    NewKey(checked, wire);
    var f :| f in checked && f.wire == wire;
    i :| 0 <= i < |checked| && checked[i] == f;
  }

  /** The place is the parameter of a field of this name, or inside it. */
  ghost predicate IsInside(name: string, place: string) {
    exists inside :: place == InstancePath(WireName(name), inside) && (inside == "" || inside[0] == '/')
  }

  /** A fault of a call that names a place names a field of the action: the path it gives is one inside the
      parameter of some field, and is reported under that field's own spelling unless a slash or a tilde is in it. */
  lemma {:induction false} ReportedFieldIsGiven(kw: Keywords, raw: Tree, call: string, fields: seq<Field>,
      reported: string)
    requires Located(kw) && CheckedFields(fields).Ok?
    requires var fault := ValidateMethod(kw, raw, call, Params(CheckedFields(fields).value));
             fault.Some? && FieldFromInstancePath(fault.value.path) == Some(reported)
    ensures exists i | 0 <= i < |fields| ::
              IsInside(fields[i].name, ValidateMethod(kw, raw, call, Params(CheckedFields(fields).value)).value.path)
    ensures (forall i | 0 <= i < |fields| :: '/' !in fields[i].name && '~' !in fields[i].name)
            ==> exists i | 0 <= i < |fields| :: fields[i].name == reported
  {
    var checked := CheckedFields(fields).value;
    var params := Params(checked);
    var path := ValidateMethod(kw, raw, call, params).value.path;
    AcceptsExactly(fields);
    CallFault(kw, raw, call, params);
    assert path != "#" by {
      assert !("#/" <= "#");
    }
    var wire :| wire in params && Below(ChildPath("#", wire), path);
    BelowIsInstance(wire, path);
    var inside :| path == InstancePath(wire, inside) && (inside == "" || inside[0] == '/');
    var i := FieldOfParam(checked, fields, wire);
    SpellingRecoveredExactly(fields[i].name, inside);
    assert IsInside(fields[i].name, path);
  }

  lemma {:induction false} CallFault(kw: Keywords, raw: Tree, call: string, params: map<string, Tree>)
    requires Located(kw)
    ensures AtParameter(params, ValidateMethod(kw, raw, call, params))
  {
    var request := Walk(raw, REQUEST);
    if request.Some? {
      var declared := ParamsOf(Branches(request.value), call);
      if |declared| == 1 && RootOf(raw, declared[0]).Some? {
        TopFault(kw, raw, RootOf(raw, declared[0]).value, params, 0);
      }
    }
  }
}
