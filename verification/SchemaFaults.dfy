/** Whom validation blames: where the schema is well formed all along the way of a value, never the schema. Then an
alternative is passed over only because the value does not fit it. */
module SchemaFaults {
  import opened Wrappers
  import opened Json
  import opened WireFields
  import opened SchemaDocument
  import opened SchemaMeaning

  predicate SparesSchema(fault: Option<Fault>) {
    fault.Some? ==> !fault.value.ofSchema
  }

  /** The keywords that look at one node only have nothing to say against the node itself. */
  ghost predicate LocalsProper(kw: Keywords, own: map<string, Tree>, value: Tree) {
    && (forall path :: SparesSchema(kw.check(own, value, path)))
    && (value.TArr? ==> forall path :: SparesSchema(kw.counts(own, value.items, path)))
    && (value.TObj? ==> forall path :: SparesSchema(kw.sizes(own, value.members, path)))
  }

  /** Every node that this value meets is well formed, and references nest within the limit. */
  ghost predicate Proper(kw: Keywords, raw: Tree, schema: Tree, value: Tree, depth: nat)
    decreases Fuel(depth), schema, 2
  {
    && depth <= MAX_REFERENCE_DEPTH && schema.TObj? && schema.members.Keys <= SUPPORTED
    && LocalsProper(kw, schema.members, value)
    && if "$ref" in schema.members then
         && schema.members["$ref"].TStr?
         && var target := ResolveReference(raw, ReferenceText(schema.members["$ref"]));
            target.Some? && Proper(kw, raw, target.value, value, depth + 1)
       else
         && (value.TArr? ==> ProperItems(kw, raw, schema, value.items, depth))
         && (value.TObj? ==> ProperMembers(kw, raw, schema, value.members, depth))
         && ProperChoice(kw, raw, schema, "anyOf", value, depth)
         && ProperChoice(kw, raw, schema, "oneOf", value, depth)
  }

  ghost predicate ProperItems(kw: Keywords, raw: Tree, schema: Tree, items: seq<Tree>, depth: nat)
    requires schema.TObj?
    decreases Fuel(depth), schema, 1
  {
    "items" in schema.members ==>
      forall i | 0 <= i < |items| :: Proper(kw, raw, schema.members["items"], items[i], depth)
  }

  ghost predicate ProperMembers(kw: Keywords, raw: Tree, schema: Tree, members: map<string, Tree>, depth: nat)
    requires schema.TObj?
    decreases Fuel(depth), schema, 1
  {
    var own := schema.members;
    && ("properties" in own ==> own["properties"].TObj?)
    && ("required" in own ==>
          own["required"].TArr? && forall i | 0 <= i < |own["required"].items| :: own["required"].items[i].TStr?)
    && ("propertyNames" in own ==> forall name <- members :: Proper(kw, raw, own["propertyNames"], TStr(name), depth))
    && forall name <- members :: ProperMember(kw, raw, schema, name, members[name], depth)
  }

  ghost predicate ProperMember(kw: Keywords, raw: Tree, schema: Tree, name: string, value: Tree, depth: nat)
    requires schema.TObj?
    decreases Fuel(depth), schema, 0
  {
    match SaidOf(schema.members, name)
    case By(said) => said < schema && Proper(kw, raw, said, value, depth)
    case _ => true
  }

  ghost predicate ProperChoice(kw: Keywords, raw: Tree, schema: Tree, keyword: string, value: Tree, depth: nat)
    requires schema.TObj?
    decreases Fuel(depth), schema, 1
  {
    keyword in schema.members ==>
      && schema.members[keyword].TArr?
      && forall i | 0 <= i < |schema.members[keyword].items| ::
           Proper(kw, raw, schema.members[keyword].items[i], value, depth)
  }

  // ----- where a fault comes from -----

  lemma {:induction false} ItemsFaultFrom(kw: Keywords, raw: Tree, schema: Tree, items: seq<Tree>, path: string,
      depth: nat) returns (i: nat)
    requires schema.TObj? && "items" in schema.members
    requires ValidateItems(kw, raw, schema, items, path, depth).Some?
    ensures i < |items|
    ensures ValidateItems(kw, raw, schema, items, path, depth)
            == Validate(kw, raw, schema.members["items"], items[i], ChildPath(path, Decimal(i)), depth)
  {
    var n := |items| - 1;
    if ValidateItems(kw, raw, schema, items[..n], path, depth).Some? {
      i := ItemsFaultFrom(kw, raw, schema, items[..n], path, depth);
    } else {
      i := n;
    }
  }

  lemma {:induction false} NamesFaultFrom(kw: Keywords, raw: Tree, schema: Tree, names: seq<string>, path: string,
      depth: nat) returns (name: string)
    requires schema.TObj? && ValidateNames(kw, raw, schema, names, path, depth).Some?
    ensures "propertyNames" in schema.members && name in names
    ensures ValidateNames(kw, raw, schema, names, path, depth)
            == Validate(kw, raw, schema.members["propertyNames"], TStr(name), ChildPath(path, name), depth)
  {
    var n := |names| - 1;
    if ValidateNames(kw, raw, schema, names[..n], path, depth).Some? {
      name := NamesFaultFrom(kw, raw, schema, names[..n], path, depth);
    } else {
      name := names[n];
    }
  }

  lemma {:induction false} PropertiesFaultFrom(kw: Keywords, raw: Tree, schema: Tree, names: seq<string>,
      members: map<string, Tree>, path: string, depth: nat) returns (name: string)
    requires schema.TObj? && ("properties" in schema.members ==> schema.members["properties"].TObj?)
    requires ValidateProperties(kw, raw, schema, names, members, path, depth).Some?
    ensures name in names && name in members
    ensures ValidateProperties(kw, raw, schema, names, members, path, depth)
            == match SaidOf(schema.members, name)
               case Forbidden => Some(Fault(false, ChildPath(path, name)))
               case Anything => None
               case By(said) => Validate(kw, raw, said, members[name], ChildPath(path, name), depth)
  {
    var n := |names| - 1;
    if ValidateProperties(kw, raw, schema, names[..n], members, path, depth).Some? {
      name := PropertiesFaultFrom(kw, raw, schema, names[..n], members, path, depth);
    } else {
      name := names[n];
    }
  }

  /** A name that is missing is the value's fault, an item that is no name the schema's; whichever comes first. */
  lemma {:induction false} RequiredFaultExactly(members: map<string, Tree>, required: seq<Tree>, path: string)
    ensures CheckRequired(members, required, path) == Some(Fault(false, path)) <==>
              exists i | 0 <= i < |required| ::
                && required[i].TStr? && !NamesPresent(members, required[i])
                && forall j | 0 <= j < i :: NamesPresent(members, required[j])
  {
    if required != [] {
      var n := |required| - 1;
      var front := required[..n];
      RequiredFaultExactly(members, front, path);
      RequiredExactly(members, front, path);
      assert forall i | 0 <= i < n :: front[i] == required[i];
    }
  }

  // ----- a proper schema is never blamed -----

  /** Where every node that a value meets is well formed, the value is blamed or nothing is. */
  lemma {:induction false} ProperIsSpared(kw: Keywords, raw: Tree, schema: Tree, value: Tree, path: string, depth: nat)
    requires Ordered(kw) && Proper(kw, raw, schema, value, depth)
    ensures SparesSchema(Validate(kw, raw, schema, value, path, depth))
    decreases Fuel(depth), schema, 3
  {
    if "$ref" in schema.members {
      var target := ResolveReference(raw, ReferenceText(schema.members["$ref"]));
      ProperIsSpared(kw, raw, target.value, value, path, depth + 1);
      ReferenceHands(kw, raw, schema, value, path, depth);
    } else {
      InsideIsSpared(kw, raw, schema, value, path, depth);
      ChoiceIsSpared(kw, raw, schema, "anyOf", value, path, depth);
      ChoiceIsSpared(kw, raw, schema, "oneOf", value, path, depth);
      OneOfFour(kw, raw, schema, value, path, depth);
    }
  }

  lemma {:induction false} ReferenceHands(kw: Keywords, raw: Tree, schema: Tree, value: Tree, path: string, depth: nat)
    requires depth <= MAX_REFERENCE_DEPTH && schema.TObj? && schema.members.Keys <= SUPPORTED
    requires "$ref" in schema.members && schema.members["$ref"].TStr?
    requires ResolveReference(raw, ReferenceText(schema.members["$ref"])).Some?
    ensures var target := ResolveReference(raw, ReferenceText(schema.members["$ref"])).value;
            Validate(kw, raw, schema, value, path, depth) == Validate(kw, raw, target, value, path, depth + 1)
  {
  }

  lemma {:induction false} OneOfFour(kw: Keywords, raw: Tree, schema: Tree, value: Tree, path: string, depth: nat)
    requires depth <= MAX_REFERENCE_DEPTH && schema.TObj? && schema.members.Keys <= SUPPORTED
    requires "$ref" !in schema.members
    ensures var fault := Validate(kw, raw, schema, value, path, depth);
            || fault == kw.check(schema.members, value, path)
            || fault == ValidateInside(kw, raw, schema, value, path, depth)
            || fault == ValidateChoice(kw, raw, schema, "anyOf", value, path, depth)
            || fault == ValidateChoice(kw, raw, schema, "oneOf", value, path, depth)
  {
  }

  lemma {:induction false} InsideIsSpared(kw: Keywords, raw: Tree, schema: Tree, value: Tree, path: string, depth: nat)
    requires Ordered(kw) && Proper(kw, raw, schema, value, depth) && "$ref" !in schema.members
    ensures SparesSchema(ValidateInside(kw, raw, schema, value, path, depth))
    decreases Fuel(depth), schema, 2
  {
    match value
    case TArr(items) => ItemsAreSpared(kw, raw, schema, items, path, depth);
    case TObj(members) => MembersAreSpared(kw, raw, schema, members, path, depth);
    case _ =>
  }

  lemma {:induction false} ItemsAreSpared(kw: Keywords, raw: Tree, schema: Tree, items: seq<Tree>, path: string,
      depth: nat)
    requires Ordered(kw) && schema.TObj? && ProperItems(kw, raw, schema, items, depth)
    requires SparesSchema(kw.counts(schema.members, items, path))
    ensures SparesSchema(ValidateInside(kw, raw, schema, TArr(items), path, depth))
    decreases Fuel(depth), schema, 1
  {
    if "items" in schema.members && ValidateItems(kw, raw, schema, items, path, depth).Some? {
      var i := ItemsFaultFrom(kw, raw, schema, items, path, depth);
      ProperIsSpared(kw, raw, schema.members["items"], items[i], ChildPath(path, Decimal(i)), depth);
    }
  }

  lemma {:induction false} NamesAreSpared(kw: Keywords, raw: Tree, schema: Tree, members: map<string, Tree>,
      path: string, depth: nat)
    requires Ordered(kw) && schema.TObj? && ProperMembers(kw, raw, schema, members, depth)
    ensures SparesSchema(ValidateNames(kw, raw, schema, kw.order(members.Keys), path, depth))
    decreases Fuel(depth), schema, 0
  {
    var names := kw.order(members.Keys);
    if ValidateNames(kw, raw, schema, names, path, depth).Some? {
      var name := NamesFaultFrom(kw, raw, schema, names, path, depth);
      assert name in members.Keys;
      ProperIsSpared(kw, raw, schema.members["propertyNames"], TStr(name), ChildPath(path, name), depth);
    }
  }

  lemma {:induction false} PropertiesAreSpared(kw: Keywords, raw: Tree, schema: Tree, members: map<string, Tree>,
      path: string, depth: nat)
    requires Ordered(kw) && schema.TObj? && ProperMembers(kw, raw, schema, members, depth)
    ensures SparesSchema(ValidateProperties(kw, raw, schema, kw.order(members.Keys), members, path, depth))
    decreases Fuel(depth), schema, 0
  {
    var names := kw.order(members.Keys);
    if ValidateProperties(kw, raw, schema, names, members, path, depth).Some? {
      var name := PropertiesFaultFrom(kw, raw, schema, names, members, path, depth);
      assert ProperMember(kw, raw, schema, name, members[name], depth);
      if SaidOf(schema.members, name).By? {
        ProperIsSpared(kw, raw, SaidOf(schema.members, name).schema, members[name], ChildPath(path, name), depth);
      }
    }
  }

  lemma {:induction false} RequiredIsSpared(members: map<string, Tree>, required: seq<Tree>, path: string)
    requires forall i | 0 <= i < |required| :: required[i].TStr?
    ensures SparesSchema(CheckRequired(members, required, path))
  {
    if required != [] {
      RequiredIsSpared(members, required[..|required| - 1], path);
    }
  }

  lemma {:induction false} MembersAreSpared(kw: Keywords, raw: Tree, schema: Tree, members: map<string, Tree>,
      path: string, depth: nat)
    requires Ordered(kw) && schema.TObj? && ProperMembers(kw, raw, schema, members, depth)
    requires SparesSchema(kw.sizes(schema.members, members, path))
    ensures SparesSchema(ValidateInside(kw, raw, schema, TObj(members), path, depth))
    decreases Fuel(depth), schema, 1
  {
    if "required" in schema.members {
      RequiredIsSpared(members, schema.members["required"].items, path);
    }
    NamesAreSpared(kw, raw, schema, members, path, depth);
    PropertiesAreSpared(kw, raw, schema, members, path, depth);
  }

  lemma {:induction false} AlternativesAreSound(kw: Keywords, raw: Tree, schema: Tree, keyword: string, value: Tree,
      path: string, depth: nat)
    requires Ordered(kw) && schema.TObj? && keyword in schema.members
    requires ProperChoice(kw, raw, schema, keyword, value, depth)
    ensures AllSound(kw, raw, schema.members[keyword].items, value, path, depth)
    decreases Fuel(depth), schema, 0
  {
    var alternatives := schema.members[keyword].items;
    forall i | 0 <= i < |alternatives|
      ensures Sound(kw, raw, alternatives[i], value, path, depth)
    {
      ProperIsSpared(kw, raw, alternatives[i], value, path, depth);
    }
  }

  lemma {:induction false} SoundChoice(kw: Keywords, raw: Tree, schema: Tree, keyword: string, value: Tree,
      path: string, depth: nat)
    requires schema.TObj? && keyword in schema.members && schema.members[keyword].TArr?
    requires AllSound(kw, raw, schema.members[keyword].items, value, path, depth)
    ensures SparesSchema(ValidateChoice(kw, raw, schema, keyword, value, path, depth))
  {
    MatchingCounts(kw, raw, schema, keyword, |schema.members[keyword].items|, value, path, depth);
  }

  lemma {:induction false} ChoiceIsSpared(kw: Keywords, raw: Tree, schema: Tree, keyword: string, value: Tree,
      path: string, depth: nat)
    requires Ordered(kw) && schema.TObj? && ProperChoice(kw, raw, schema, keyword, value, depth)
    ensures SparesSchema(ValidateChoice(kw, raw, schema, keyword, value, path, depth))
    decreases Fuel(depth), schema, 1
  {
    if keyword in schema.members {
      AlternativesAreSound(kw, raw, schema, keyword, value, path, depth);
      SoundChoice(kw, raw, schema, keyword, value, path, depth);
    }
  }

  /** So a choice among well-formed alternatives is fitted exactly when one of them fits, and for `oneOf` no two. */
  lemma {:induction false} ProperChoiceExactly(kw: Keywords, raw: Tree, schema: Tree, keyword: string, value: Tree,
      path: string, depth: nat)
    requires Ordered(kw) && schema.TObj? && keyword in schema.members
    requires ProperChoice(kw, raw, schema, keyword, value, depth)
    ensures FitsChoice(kw, raw, schema, keyword, value, path, depth) <==>
              && OneFits(kw, raw, schema, keyword, value, path, depth)
              && (keyword == "oneOf" ==> !TwoFit(kw, raw, schema, keyword, value, path, depth))
  {
    AlternativesAreSound(kw, raw, schema, keyword, value, path, depth);
  }

  // ----- a malformed node is -----

  /** A reference that is no text, or leads nowhere. */
  predicate Dangling(raw: Tree, own: map<string, Tree>) {
    "$ref" in own &&
    match own["$ref"]
    case TStr(reference) => ResolveReference(raw, reference).None?
    case _ => true
  }

  /** What stops validation at a node before the value is looked at: too deep a nesting of references, a node that
      is no object, an unknown keyword, or a dangling reference. */
  predicate Broken(raw: Tree, schema: Tree, depth: nat) {
    || depth > MAX_REFERENCE_DEPTH || !schema.TObj? || !(schema.members.Keys <= SUPPORTED)
    || Dangling(raw, schema.members)
  }

  /** A broken node is blamed whatever the value. As an alternative it cannot be told apart from one that matches,
      unless its own keywords exclude the value or only the keyword is unknown. */
  lemma {:induction false} BrokenIsBlamed(kw: Keywords, raw: Tree, schema: Tree, value: Tree, path: string, depth: nat)
    requires Broken(raw, schema, depth)
    ensures var fault := Validate(kw, raw, schema, value, path, depth); fault.Some? && fault.value.ofSchema
    ensures depth > MAX_REFERENCE_DEPTH || !schema.TObj?
            || (Dangling(raw, schema.members) && kw.excludes(schema.members, value).Possible?) ==>
              CouldMatch(kw, raw, schema, value, depth) == Unclear(Fault(true, "#"))
  {
  }
}
