/** What it means for a value to fit a schema, said keyword by keyword, and that validation finds no fault exactly
when the value fits. */
module SchemaMeaning {
  import opened Wrappers
  import opened Json
  import opened WireFields
  import opened SchemaDocument

  /** The keys of an object are gone through, each of them and no others. */
  ghost predicate Ordered(kw: Keywords) {
    forall names: set<string>, name :: name in kw.order(names) <==> name in names
  }

  /** The value fits the node. A reference stands for the whole node; references nest to a limited depth. */
  ghost predicate Fits(kw: Keywords, raw: Tree, schema: Tree, value: Tree, path: string, depth: nat)
    decreases Fuel(depth), schema, 2, 0
  {
    && depth <= MAX_REFERENCE_DEPTH && schema.TObj? && schema.members.Keys <= SUPPORTED
    && if "$ref" in schema.members then FitsReference(kw, raw, schema, value, path, depth)
       else
         && kw.check(schema.members, value, path).None?
         && (value.TArr? ==> FitsItems(kw, raw, schema, value.items, path, depth))
         && (value.TObj? ==> FitsMembers(kw, raw, schema, value.members, path, depth))
         && ("anyOf" in schema.members ==> FitsChoice(kw, raw, schema, "anyOf", value, path, depth))
         && ("oneOf" in schema.members ==> FitsChoice(kw, raw, schema, "oneOf", value, path, depth))
  }

  ghost predicate FitsReference(kw: Keywords, raw: Tree, schema: Tree, value: Tree, path: string, depth: nat)
    requires depth <= MAX_REFERENCE_DEPTH && schema.TObj? && "$ref" in schema.members
    decreases Fuel(depth), schema, 1, 0
  {
    && schema.members["$ref"].TStr?
    && var target := ResolveReference(raw, ReferenceText(schema.members["$ref"]));
       target.Some? && Fits(kw, raw, target.value, value, path, depth + 1)
  }

  /** The list is of a size the node allows, and each item fits what is said about items. */
  ghost predicate FitsItems(kw: Keywords, raw: Tree, schema: Tree, items: seq<Tree>, path: string, depth: nat)
    requires schema.TObj?
    decreases Fuel(depth), schema, 1, 0
  {
    && kw.counts(schema.members, items, path).None?
    && ("items" in schema.members ==>
          forall i | 0 <= i < |items| ::
            Fits(kw, raw, schema.members["items"], items[i], ChildPath(path, Decimal(i)), depth))
  }

  /** The names that have to be there. */
  predicate RequiredPresent(own: map<string, Tree>, members: map<string, Tree>) {
    "required" in own ==>
      && own["required"].TArr?
      && forall i | 0 <= i < |own["required"].items| :: NamesPresent(members, own["required"].items[i])
  }

  predicate NamesPresent(members: map<string, Tree>, item: Tree) {
    match item
    case TStr(name) => name in members
    case _ => false
  }

  /** What is said about a member of this name; nothing when any value is allowed. */
  datatype Said = Forbidden | Anything | By(schema: Tree)

  function SaidOf(own: map<string, Tree>, name: string): Said {
    if "properties" in own && own["properties"].TObj? && name in own["properties"].members
    then By(own["properties"].members[name])
    else if "additionalProperties" !in own then Forbidden
    else
      match own["additionalProperties"]
      case TBool(true) => Anything
      case TBool(false) => Forbidden
      case schema => By(schema)
  }

  /** A node that declares no members at all, but alternatives, leaves the members to those. */
  predicate LeavesMembers(own: map<string, Tree>) {
    "properties" !in own && "additionalProperties" !in own && ("oneOf" in own || "anyOf" in own)
  }

  ghost predicate FitsMembers(kw: Keywords, raw: Tree, schema: Tree, members: map<string, Tree>, path: string,
      depth: nat)
    requires schema.TObj?
    decreases Fuel(depth), schema, 1, 0
  {
    var own := schema.members;
    && kw.sizes(own, members, path).None?
    && ("properties" in own ==> own["properties"].TObj?) && RequiredPresent(own, members)
    && ("propertyNames" in own ==>
          forall name <- members :: Fits(kw, raw, own["propertyNames"], TStr(name), ChildPath(path, name), depth))
    && (LeavesMembers(own) || forall name <- members :: FitsMember(kw, raw, schema, members, name, path, depth))
  }

  ghost predicate FitsMember(kw: Keywords, raw: Tree, schema: Tree, members: map<string, Tree>, name: string,
      path: string, depth: nat)
    requires schema.TObj? && name in members
    decreases Fuel(depth), schema, 0, 0
  {
    match SaidOf(schema.members, name)
    case Forbidden => false
    case Anything => true
    case By(said) =>
      said < schema && Fits(kw, raw, said, members[name], ChildPath(path, name), depth)
  }

  /** No alternative that the value could be meant for is malformed; some alternative fits, and for `oneOf` just
      one. */
  ghost predicate FitsChoice(kw: Keywords, raw: Tree, schema: Tree, keyword: string, value: Tree, path: string,
      depth: nat)
    requires schema.TObj? && keyword in schema.members
    decreases Fuel(depth), schema, 1, 0
  {
    && schema.members[keyword].TArr?
    && AllSound(kw, raw, schema.members[keyword].items, value, path, depth)
    && OneFits(kw, raw, schema, keyword, value, path, depth)
    && (keyword == "oneOf" ==> !TwoFit(kw, raw, schema, keyword, value, path, depth))
  }

  predicate AllSound(kw: Keywords, raw: Tree, alternatives: seq<Tree>, value: Tree, path: string, depth: nat) {
    forall i | 0 <= i < |alternatives| :: Sound(kw, raw, alternatives[i], value, path, depth)
  }

  ghost predicate OneFits(kw: Keywords, raw: Tree, schema: Tree, keyword: string, value: Tree, path: string, depth: nat)
    requires schema.TObj? && keyword in schema.members && schema.members[keyword].TArr?
    decreases Fuel(depth), schema, 0, 0
  {
    exists i | 0 <= i < |schema.members[keyword].items| ::
      Fits(kw, raw, schema.members[keyword].items[i], value, path, depth)
  }

  ghost predicate TwoFit(kw: Keywords, raw: Tree, schema: Tree, keyword: string, value: Tree, path: string, depth: nat)
    requires schema.TObj? && keyword in schema.members && schema.members[keyword].TArr?
    decreases Fuel(depth), schema, 0, 0
  {
    exists i, j | 0 <= i < j < |schema.members[keyword].items| ::
      && Fits(kw, raw, schema.members[keyword].items[i], value, path, depth)
      && Fits(kw, raw, schema.members[keyword].items[j], value, path, depth)
  }

  /** A fault of the alternative itself does not stand in the way. */
  predicate Sound(kw: Keywords, raw: Tree, alternative: Tree, value: Tree, path: string, depth: nat) {
    match Validate(kw, raw, alternative, value, path, depth)
    case None => true
    case Some(fault) => !fault.ofSchema || CouldMatch(kw, raw, alternative, value, depth).Excluded?
  }

  // ----- validation finds no fault exactly when the value fits -----

  lemma {:induction false} ValidExactly(kw: Keywords, raw: Tree, schema: Tree, value: Tree, path: string, depth: nat)
    requires Ordered(kw)
    ensures Validate(kw, raw, schema, value, path, depth).None? <==> Fits(kw, raw, schema, value, path, depth)
    decreases Fuel(depth), schema, 2, 1
  {
    if depth <= MAX_REFERENCE_DEPTH && schema.TObj? && schema.members.Keys <= SUPPORTED {
      if "$ref" in schema.members {
        ReferenceUnfolded(kw, raw, schema, value, path, depth);
        ReferenceExactly(kw, raw, schema, value, path, depth);
      } else {
        InsideExactly(kw, raw, schema, value, path, depth);
        ChoiceExactly(kw, raw, schema, "anyOf", value, path, depth);
        ChoiceExactly(kw, raw, schema, "oneOf", value, path, depth);
        InPlaceExactly(kw, raw, schema, value, path, depth);
      }
    }
  }

  lemma {:induction false} InPlaceExactly(kw: Keywords, raw: Tree, schema: Tree, value: Tree, path: string, depth: nat)
    requires depth <= MAX_REFERENCE_DEPTH && schema.TObj? && schema.members.Keys <= SUPPORTED
    requires "$ref" !in schema.members
    ensures Validate(kw, raw, schema, value, path, depth).None? <==>
              && kw.check(schema.members, value, path).None?
              && ValidateInside(kw, raw, schema, value, path, depth).None?
              && ValidateChoice(kw, raw, schema, "anyOf", value, path, depth).None?
              && ValidateChoice(kw, raw, schema, "oneOf", value, path, depth).None?
  {
  }

  /** What a reference node finds. */
  function Followed(kw: Keywords, raw: Tree, schema: Tree, value: Tree, path: string, depth: nat): Option<Fault>
    requires schema.TObj? && "$ref" in schema.members
  {
    if !schema.members["$ref"].TStr? then MALFORMED
    else
      var target := ResolveReference(raw, ReferenceText(schema.members["$ref"]));
      if target.Some? then Validate(kw, raw, target.value, value, path, depth + 1) else MALFORMED
  }

  lemma {:induction false} ReferenceUnfolded(kw: Keywords, raw: Tree, schema: Tree, value: Tree, path: string,
      depth: nat)
    requires depth <= MAX_REFERENCE_DEPTH && schema.TObj? && schema.members.Keys <= SUPPORTED
        && "$ref" in schema.members
    ensures Validate(kw, raw, schema, value, path, depth) == Followed(kw, raw, schema, value, path, depth)
  {
  }

  lemma {:induction false} TargetMeans(kw: Keywords, raw: Tree, schema: Tree, value: Tree, path: string, depth: nat,
      fits: bool)
    requires depth <= MAX_REFERENCE_DEPTH && schema.TObj? && "$ref" in schema.members && schema.members["$ref"].TStr?
    requires var target := ResolveReference(raw, ReferenceText(schema.members["$ref"]));
             fits <==> target.Some? && Fits(kw, raw, target.value, value, path, depth + 1)
    ensures FitsReference(kw, raw, schema, value, path, depth) <==> fits
  {
  }

  lemma {:induction false} TargetFollowed(kw: Keywords, raw: Tree, schema: Tree, value: Tree, path: string, depth: nat,
      fits: bool)
    requires depth <= MAX_REFERENCE_DEPTH && schema.TObj? && "$ref" in schema.members && schema.members["$ref"].TStr?
    requires var target := ResolveReference(raw, ReferenceText(schema.members["$ref"]));
             fits <==> target.Some? && Validate(kw, raw, target.value, value, path, depth + 1).None?
    ensures Followed(kw, raw, schema, value, path, depth).None? <==> fits
  {
  }

  lemma {:induction false} TargetExactly(kw: Keywords, raw: Tree, schema: Tree, target: Option<Tree>, value: Tree,
      path: string, depth: nat) returns (fits: bool)
    requires Ordered(kw) && depth <= MAX_REFERENCE_DEPTH
    ensures fits <==> target.Some? && Validate(kw, raw, target.value, value, path, depth + 1).None?
    ensures fits <==> target.Some? && Fits(kw, raw, target.value, value, path, depth + 1)
    decreases Fuel(depth), schema, 1, 0
  {
    fits := false;
    if target.Some? {
      ValidExactly(kw, raw, target.value, value, path, depth + 1);
      fits := Validate(kw, raw, target.value, value, path, depth + 1).None?;
    }
  }

  lemma {:induction false} ReferenceExactly(kw: Keywords, raw: Tree, schema: Tree, value: Tree, path: string,
      depth: nat)
    requires Ordered(kw) && depth <= MAX_REFERENCE_DEPTH && schema.TObj? && "$ref" in schema.members
    ensures Followed(kw, raw, schema, value, path, depth).None? <==> FitsReference(kw, raw, schema, value, path, depth)
    decreases Fuel(depth), schema, 2, 0
  {
    if schema.members["$ref"].TStr? {
      var target := ResolveReference(raw, ReferenceText(schema.members["$ref"]));
      var fits := TargetExactly(kw, raw, schema, target, value, path, depth);
      TargetMeans(kw, raw, schema, value, path, depth, fits);
      TargetFollowed(kw, raw, schema, value, path, depth, fits);
    }
  }

  lemma {:induction false} InsideExactly(kw: Keywords, raw: Tree, schema: Tree, value: Tree, path: string, depth: nat)
    requires Ordered(kw) && schema.TObj?
    ensures ValidateInside(kw, raw, schema, value, path, depth).None? <==>
              && (value.TArr? ==> FitsItems(kw, raw, schema, value.items, path, depth))
              && (value.TObj? ==> FitsMembers(kw, raw, schema, value.members, path, depth))
    decreases Fuel(depth), schema, 2, 0
  {
    match value
    case TArr(items) => ListExactly(kw, raw, schema, items, path, depth);
    case TObj(members) => MembersExactly(kw, raw, schema, members, path, depth);
    case _ =>
  }

  lemma {:induction false} ListExactly(kw: Keywords, raw: Tree, schema: Tree, items: seq<Tree>, path: string,
      depth: nat)
    requires Ordered(kw) && schema.TObj?
    ensures ValidateInside(kw, raw, schema, TArr(items), path, depth).None?
            <==> FitsItems(kw, raw, schema, items, path, depth)
    decreases Fuel(depth), schema, 1, |items| + 1
  {
    if "items" in schema.members {
      ItemsExactly(kw, raw, schema, items, path, depth);
    }
  }

  predicate ItemClear(kw: Keywords, raw: Tree, schema: Tree, item: Tree, i: nat, path: string, depth: nat)
    requires schema.TObj? && "items" in schema.members
  {
    Validate(kw, raw, schema.members["items"], item, ChildPath(path, Decimal(i)), depth).None?
  }

  lemma {:induction false} ItemsOneMore(kw: Keywords, raw: Tree, schema: Tree, items: seq<Tree>, path: string,
      depth: nat)
    requires schema.TObj? && "items" in schema.members && items != []
    ensures var n := |items| - 1;
            ValidateItems(kw, raw, schema, items, path, depth).None? <==>
              && ValidateItems(kw, raw, schema, items[..n], path, depth).None?
              && ItemClear(kw, raw, schema, items[n], n, path, depth)
  {
  }

  lemma {:induction false} ItemsAre(kw: Keywords, raw: Tree, schema: Tree, items: seq<Tree>, path: string, depth: nat)
    requires schema.TObj? && "items" in schema.members
    ensures ValidateItems(kw, raw, schema, items, path, depth).None? <==>
              forall i | 0 <= i < |items| :: ItemClear(kw, raw, schema, items[i], i, path, depth)
  {
    if items != [] {
      var n := |items| - 1;
      var front := items[..n];
      ItemsAre(kw, raw, schema, front, path, depth);
      ItemsOneMore(kw, raw, schema, items, path, depth);
      assert forall i | 0 <= i < n :: front[i] == items[i];
    }
  }

  lemma {:induction false} ItemsExactly(kw: Keywords, raw: Tree, schema: Tree, items: seq<Tree>, path: string,
      depth: nat)
    requires Ordered(kw) && schema.TObj? && "items" in schema.members
    ensures ValidateItems(kw, raw, schema, items, path, depth).None? <==>
              forall i | 0 <= i < |items| ::
                Fits(kw, raw, schema.members["items"], items[i], ChildPath(path, Decimal(i)), depth)
    decreases Fuel(depth), schema, 1, |items|
  {
    ItemsAre(kw, raw, schema, items, path, depth);
    forall i | 0 <= i < |items|
      ensures ItemClear(kw, raw, schema, items[i], i, path, depth)
          <==> Fits(kw, raw, schema.members["items"], items[i], ChildPath(path, Decimal(i)), depth)
    {
      ValidExactly(kw, raw, schema.members["items"], items[i], ChildPath(path, Decimal(i)), depth);
    }
  }

  lemma {:induction false} RequiredExactly(members: map<string, Tree>, required: seq<Tree>, path: string)
    ensures CheckRequired(members, required, path).None? <==>
              forall i | 0 <= i < |required| :: NamesPresent(members, required[i])
  {
    if required != [] {
      var n := |required| - 1;
      var front := required[..n];
      RequiredExactly(members, front, path);
      assert CheckRequired(members, required, path).None?
        <==> CheckRequired(members, front, path).None? && NamesPresent(members, required[n]);
      assert forall i | 0 <= i < n :: front[i] == required[i];
    }
  }

  predicate NameClear(kw: Keywords, raw: Tree, schema: Tree, name: string, path: string, depth: nat)
    requires schema.TObj? && "propertyNames" in schema.members
  {
    Validate(kw, raw, schema.members["propertyNames"], TStr(name), ChildPath(path, name), depth).None?
  }

  lemma {:induction false} NamesOneMore(kw: Keywords, raw: Tree, schema: Tree, names: seq<string>, path: string,
      depth: nat)
    requires schema.TObj? && "propertyNames" in schema.members && names != []
    ensures var n := |names| - 1;
            ValidateNames(kw, raw, schema, names, path, depth).None? <==>
              && ValidateNames(kw, raw, schema, names[..n], path, depth).None?
              && NameClear(kw, raw, schema, names[n], path, depth)
  {
  }

  lemma {:induction false} NamesAre(kw: Keywords, raw: Tree, schema: Tree, names: seq<string>, path: string, depth: nat)
    requires schema.TObj? && "propertyNames" in schema.members
    ensures ValidateNames(kw, raw, schema, names, path, depth).None?
            <==> forall name <- names :: NameClear(kw, raw, schema, name, path, depth)
  {
    if names != [] {
      var n := |names| - 1;
      NamesAre(kw, raw, schema, names[..n], path, depth);
      NamesOneMore(kw, raw, schema, names, path, depth);
      assert forall name :: name in names <==> name in names[..n] || name == names[n];
    }
  }

  lemma {:induction false} NamesExactly(kw: Keywords, raw: Tree, schema: Tree, names: seq<string>, path: string,
      depth: nat)
    requires Ordered(kw) && schema.TObj? && "propertyNames" in schema.members
    ensures ValidateNames(kw, raw, schema, names, path, depth).None? <==>
              forall name <- names :: Fits(kw, raw, schema.members["propertyNames"], TStr(name), ChildPath(path, name), depth)
    decreases Fuel(depth), schema, 1, |names|
  {
    NamesAre(kw, raw, schema, names, path, depth);
    forall name <- names
      ensures NameClear(kw, raw, schema, name, path, depth)
          <==> Fits(kw, raw, schema.members["propertyNames"], TStr(name), ChildPath(path, name), depth)
    {
      ValidExactly(kw, raw, schema.members["propertyNames"], TStr(name), ChildPath(path, name), depth);
    }
  }

  lemma {:induction false} MemberExactly(kw: Keywords, raw: Tree, schema: Tree, members: map<string, Tree>,
      name: string, path: string, depth: nat)
    requires Ordered(kw) && schema.TObj? && name in members && SaidOf(schema.members, name).By?
    ensures var said := SaidOf(schema.members, name).schema;
            FitsMember(kw, raw, schema, members, name, path, depth)
            <==> Validate(kw, raw, said, members[name], ChildPath(path, name), depth).None?
    decreases Fuel(depth), schema, 0, 0
  {
    var said := SaidOf(schema.members, name).schema;
    assert said < schema;
    ValidExactly(kw, raw, said, members[name], ChildPath(path, name), depth);
  }

  predicate MemberClear(kw: Keywords, raw: Tree, schema: Tree, members: map<string, Tree>, name: string, path: string,
      depth: nat)
    requires schema.TObj? && name in members
  {
    match SaidOf(schema.members, name)
    case Forbidden => false
    case Anything => true
    case By(said) => Validate(kw, raw, said, members[name], ChildPath(path, name), depth).None?
  }

  lemma {:induction false} PropertiesOneMore(kw: Keywords, raw: Tree, schema: Tree, names: seq<string>,
      members: map<string, Tree>, path: string, depth: nat)
    requires schema.TObj? && ("properties" in schema.members ==> schema.members["properties"].TObj?)
    requires names != [] && names[|names| - 1] in members
    ensures var n := |names| - 1;
            ValidateProperties(kw, raw, schema, names, members, path, depth).None? <==>
              && ValidateProperties(kw, raw, schema, names[..n], members, path, depth).None?
              && MemberClear(kw, raw, schema, members, names[n], path, depth)
  {
  }

  lemma {:induction false} PropertiesAre(kw: Keywords, raw: Tree, schema: Tree, names: seq<string>,
      members: map<string, Tree>, path: string, depth: nat)
    requires schema.TObj? && ("properties" in schema.members ==> schema.members["properties"].TObj?)
    requires forall name <- names :: name in members
    ensures ValidateProperties(kw, raw, schema, names, members, path, depth).None?
            <==> forall name <- names :: MemberClear(kw, raw, schema, members, name, path, depth)
  {
    if names != [] {
      var n := |names| - 1;
      PropertiesAre(kw, raw, schema, names[..n], members, path, depth);
      PropertiesOneMore(kw, raw, schema, names, members, path, depth);
      assert forall name :: name in names <==> name in names[..n] || name == names[n];
    }
  }

  lemma {:induction false} PropertiesExactly(kw: Keywords, raw: Tree, schema: Tree, names: seq<string>,
      members: map<string, Tree>, path: string, depth: nat)
    requires Ordered(kw) && schema.TObj? && ("properties" in schema.members ==> schema.members["properties"].TObj?)
    requires forall name <- names :: name in members
    ensures ValidateProperties(kw, raw, schema, names, members, path, depth).None? <==>
              forall name <- names :: FitsMember(kw, raw, schema, members, name, path, depth)
    decreases Fuel(depth), schema, 1, |names|
  {
    PropertiesAre(kw, raw, schema, names, members, path, depth);
    forall name <- names
      ensures MemberClear(kw, raw, schema, members, name, path, depth)
          <==> FitsMember(kw, raw, schema, members, name, path, depth)
    {
      if SaidOf(schema.members, name).By? {
        MemberExactly(kw, raw, schema, members, name, path, depth);
      }
    }
  }

  lemma {:induction false} MembersUnfolded(kw: Keywords, raw: Tree, schema: Tree, members: map<string, Tree>,
      path: string, depth: nat)
    requires schema.TObj?
    ensures var own, names := schema.members, kw.order(members.Keys);
            ValidateInside(kw, raw, schema, TObj(members), path, depth).None? <==>
              && kw.sizes(own, members, path).None?
              && ("properties" in own ==> own["properties"].TObj?) && ("required" in own ==> own["required"].TArr?)
              && ("required" in own ==> CheckRequired(members, own["required"].items, path).None?)
              && ValidateNames(kw, raw, schema, names, path, depth).None?
              && (LeavesMembers(own) || ValidateProperties(kw, raw, schema, names, members, path, depth).None?)
  {
  }

  lemma {:induction false} RequiredMeans(own: map<string, Tree>, members: map<string, Tree>, path: string)
    ensures RequiredPresent(own, members) <==>
              ("required" in own ==> own["required"].TArr? && CheckRequired(members, own["required"].items, path).None?)
  {
    if "required" in own && own["required"].TArr? {
      RequiredExactly(members, own["required"].items, path);
    }
  }

  lemma {:induction false} NoNamesAsked(kw: Keywords, raw: Tree, schema: Tree, names: seq<string>, path: string,
      depth: nat)
    requires schema.TObj? && "propertyNames" !in schema.members
    ensures ValidateNames(kw, raw, schema, names, path, depth) == None
  {
  }

  lemma {:induction false} MembersExactly(kw: Keywords, raw: Tree, schema: Tree, members: map<string, Tree>,
      path: string, depth: nat)
    requires Ordered(kw) && schema.TObj?
    ensures ValidateInside(kw, raw, schema, TObj(members), path, depth).None?
            <==> FitsMembers(kw, raw, schema, members, path, depth)
    decreases Fuel(depth), schema, 1, |kw.order(members.Keys)| + 1
  {
    var own, names := schema.members, kw.order(members.Keys);
    MembersUnfolded(kw, raw, schema, members, path, depth);
    RequiredMeans(own, members, path);
    forall name
      ensures name in names <==> name in members
    {
      assert name in members <==> name in members.Keys;
    }
    if "propertyNames" in own {
      NamesExactly(kw, raw, schema, names, path, depth);
    } else {
      NoNamesAsked(kw, raw, schema, names, path, depth);
    }
    if "properties" in own ==> own["properties"].TObj? {
      PropertiesExactly(kw, raw, schema, names, members, path, depth);
    }
  }

  // ----- alternatives -----

  /** How many of the first alternatives the value fits. */
  ghost function Count(kw: Keywords, raw: Tree, alternatives: seq<Tree>, n: nat, value: Tree, path: string,
      depth: nat): nat
    requires n <= |alternatives|
  {
    if n == 0 then 0
    else
      Count(kw, raw, alternatives, n - 1, value, path, depth)
      + if Validate(kw, raw, alternatives[n - 1], value, path, depth).None? then 1 else 0
  }

  lemma {:induction false} CountMeans(kw: Keywords, raw: Tree, alternatives: seq<Tree>, n: nat, value: Tree,
      path: string, depth: nat)
    requires n <= |alternatives|
    ensures Count(kw, raw, alternatives, n, value, path, depth) >= 1 <==>
              exists i | 0 <= i < n :: Validate(kw, raw, alternatives[i], value, path, depth).None?
    ensures Count(kw, raw, alternatives, n, value, path, depth) <= 1 <==>
              forall i, j | 0 <= i < j < n ::
                !(Validate(kw, raw, alternatives[i], value, path, depth).None?
                  && Validate(kw, raw, alternatives[j], value, path, depth).None?)
  {
    if n > 0 {
      CountMeans(kw, raw, alternatives, n - 1, value, path, depth);
    }
  }

  lemma {:induction false} MatchingCounts(kw: Keywords, raw: Tree, schema: Tree, keyword: string, n: nat, value: Tree,
      path: string, depth: nat)
    requires schema.TObj? && keyword in schema.members && schema.members[keyword].TArr?
    requires n <= |schema.members[keyword].items|
    ensures var alternatives := schema.members[keyword].items;
            var matching := Matching(kw, raw, schema, keyword, n, value, path, depth);
            && (matching.Ok? <==> forall i | 0 <= i < n :: Sound(kw, raw, alternatives[i], value, path, depth))
            && (matching.Ok? ==> matching.value == Count(kw, raw, alternatives, n, value, path, depth))
  {
    if n > 0 {
      MatchingCounts(kw, raw, schema, keyword, n - 1, value, path, depth);
    }
  }

  lemma {:induction false} ChoiceUnfolded(kw: Keywords, raw: Tree, schema: Tree, keyword: string, value: Tree,
      path: string, depth: nat)
    requires schema.TObj? && keyword in schema.members && schema.members[keyword].TArr?
    ensures var alternatives := schema.members[keyword].items;
            var count := Count(kw, raw, alternatives, |alternatives|, value, path, depth);
            ValidateChoice(kw, raw, schema, keyword, value, path, depth).None? <==>
              && AllSound(kw, raw, alternatives, value, path, depth)
              && count >= 1 && (keyword == "oneOf" ==> count <= 1)
  {
    MatchingCounts(kw, raw, schema, keyword, |schema.members[keyword].items|, value, path, depth);
  }

  lemma {:induction false} AlternativesExactly(kw: Keywords, raw: Tree, schema: Tree, keyword: string, value: Tree,
      path: string, depth: nat, i: nat)
    requires Ordered(kw) && schema.TObj? && keyword in schema.members && schema.members[keyword].TArr?
    requires i < |schema.members[keyword].items|
    ensures var alternative := schema.members[keyword].items[i];
            Validate(kw, raw, alternative, value, path, depth).None?
            <==> Fits(kw, raw, alternative, value, path, depth)
    decreases Fuel(depth), schema, 1, 0
  {
    ValidExactly(kw, raw, schema.members[keyword].items[i], value, path, depth);
  }

  lemma {:induction false} SomeFit(kw: Keywords, raw: Tree, schema: Tree, keyword: string, value: Tree, path: string,
      depth: nat)
    requires schema.TObj? && keyword in schema.members && schema.members[keyword].TArr?
    requires forall i | 0 <= i < |schema.members[keyword].items| ::
               Validate(kw, raw, schema.members[keyword].items[i], value, path, depth).None?
               <==> Fits(kw, raw, schema.members[keyword].items[i], value, path, depth)
    ensures var alternatives := schema.members[keyword].items;
            Count(kw, raw, alternatives, |alternatives|, value, path, depth) >= 1
            <==> OneFits(kw, raw, schema, keyword, value, path, depth)
  {
    var alternatives := schema.members[keyword].items;
    CountMeans(kw, raw, alternatives, |alternatives|, value, path, depth);
  }

  lemma {:induction false} NotTwoFit(kw: Keywords, raw: Tree, schema: Tree, keyword: string, value: Tree, path: string,
      depth: nat)
    requires schema.TObj? && keyword in schema.members && schema.members[keyword].TArr?
    requires forall i | 0 <= i < |schema.members[keyword].items| ::
               Validate(kw, raw, schema.members[keyword].items[i], value, path, depth).None?
               <==> Fits(kw, raw, schema.members[keyword].items[i], value, path, depth)
    ensures var alternatives := schema.members[keyword].items;
            Count(kw, raw, alternatives, |alternatives|, value, path, depth) <= 1
            <==> !TwoFit(kw, raw, schema, keyword, value, path, depth)
  {
    var alternatives := schema.members[keyword].items;
    CountMeans(kw, raw, alternatives, |alternatives|, value, path, depth);
  }

  lemma {:induction false} ChoiceMeans(kw: Keywords, raw: Tree, schema: Tree, keyword: string, value: Tree,
      path: string, depth: nat, count: nat)
    requires schema.TObj? && keyword in schema.members && schema.members[keyword].TArr?
    requires count >= 1 <==> OneFits(kw, raw, schema, keyword, value, path, depth)
    requires count <= 1 <==> !TwoFit(kw, raw, schema, keyword, value, path, depth)
    ensures FitsChoice(kw, raw, schema, keyword, value, path, depth) <==>
              && AllSound(kw, raw, schema.members[keyword].items, value, path, depth)
              && count >= 1 && (keyword == "oneOf" ==> count <= 1)
  {
  }

  lemma {:induction false} NotAList(kw: Keywords, raw: Tree, schema: Tree, keyword: string, value: Tree, path: string,
      depth: nat)
    requires schema.TObj? && (keyword in schema.members ==> !schema.members[keyword].TArr?)
    ensures ValidateChoice(kw, raw, schema, keyword, value, path, depth).None? <==> keyword !in schema.members
  {
  }

  lemma {:induction false} ListedExactly(kw: Keywords, raw: Tree, schema: Tree, keyword: string, value: Tree,
      path: string, depth: nat)
    requires schema.TObj? && keyword in schema.members && schema.members[keyword].TArr?
    requires forall i | 0 <= i < |schema.members[keyword].items| ::
               Validate(kw, raw, schema.members[keyword].items[i], value, path, depth).None?
               <==> Fits(kw, raw, schema.members[keyword].items[i], value, path, depth)
    ensures ValidateChoice(kw, raw, schema, keyword, value, path, depth).None?
            <==> FitsChoice(kw, raw, schema, keyword, value, path, depth)
  {
    var alternatives := schema.members[keyword].items;
    ChoiceUnfolded(kw, raw, schema, keyword, value, path, depth);
    SomeFit(kw, raw, schema, keyword, value, path, depth);
    NotTwoFit(kw, raw, schema, keyword, value, path, depth);
    ChoiceMeans(kw, raw, schema, keyword, value, path, depth,
                Count(kw, raw, alternatives, |alternatives|, value, path, depth));
  }

  lemma {:induction false} ChoiceExactly(kw: Keywords, raw: Tree, schema: Tree, keyword: string, value: Tree,
      path: string, depth: nat)
    requires Ordered(kw) && schema.TObj?
    ensures ValidateChoice(kw, raw, schema, keyword, value, path, depth).None? <==>
              (keyword in schema.members ==> FitsChoice(kw, raw, schema, keyword, value, path, depth))
    decreases Fuel(depth), schema, 2, 0
  {
    if keyword in schema.members && schema.members[keyword].TArr? {
      forall i | 0 <= i < |schema.members[keyword].items|
        ensures Validate(kw, raw, schema.members[keyword].items[i], value, path, depth).None?
                <==> Fits(kw, raw, schema.members[keyword].items[i], value, path, depth)
      {
        AlternativesExactly(kw, raw, schema, keyword, value, path, depth, i);
      }
      ListedExactly(kw, raw, schema, keyword, value, path, depth);
    } else {
      NotAList(kw, raw, schema, keyword, value, path, depth);
    }
  }

  // ----- calls -----

  const CALL := ["properties", "method", "const"]

  const PARAMS := ["properties", "params"]

  const ALTERNATIVES := ["schemas", "request", "oneOf"]

  /** The alternative names the method, and describes its parameters. */
  predicate Declares(branch: Tree, call: string, params: Tree) {
    Walk(branch, CALL) == Some(TStr(call)) && Walk(branch, PARAMS) == Some(params)
  }

  lemma {:induction false} NoIndex()
    ensures IndexOf("properties").None? && IndexOf("method").None? && IndexOf("const").None? && IndexOf("params").None?
  {
    assert "properties"[9] == 's' && "method"[5] == 'd' && "const"[4] == 't' && "params"[5] == 's';
  }

  lemma {:induction false} WalkTwo(node: Tree, a: string, b: string)
    ensures Walk(node, [a, b])
            == match Child(node, a) case Some(child) => Child(child, b) case None => None
  {
    assert [a, b][1..] == [b] && [b][1..] == [];
    match Child(node, a)
    case Some(child) =>
      assert Walk(node, [a, b]) == Walk(child, [b]);
      match Child(child, b) {
        case Some(leaf) => assert Walk(child, [b]) == Walk(leaf, []);
        case None =>
      }
    case None =>
  }

  lemma {:induction false} WalkThree(node: Tree, a: string, b: string, c: string)
    ensures Walk(node, [a, b, c])
            == match Child(node, a) case Some(child) => Walk(child, [b, c]) case None => None
  {
    assert [a, b, c][1..] == [b, c];
  }

  /** An alternative is read as the declaration of a method exactly when both paths lead somewhere, the first to
      a text. */
  lemma {:induction false} DeclaresExactly(branch: Tree, call: string, params: Tree)
    ensures MethodOf(branch) == Some((call, params)) <==> Declares(branch, call, params)
  {
    NoIndex();
    WalkThree(branch, "properties", "method", "const");
    WalkTwo(branch, "properties", "params");
    var properties := Child(branch, "properties");
    if properties.Some? {
      WalkTwo(properties.value, "method", "const");
    }
  }

  ghost predicate CountGiven(members: map<string, Tree>, name: string) {
    name in members && exists n: nat :: members[name] == TNum(Integer(n))
  }

  /** A document is taken exactly when it is an object with two version numbers, zero included, and a request part
      that is a list of alternatives. */
  lemma {:induction false} ParsesExactly(raw: Tree)
    ensures Parses(raw) <==>
              && raw.TObj? && CountGiven(raw.members, "protocol") && CountGiven(raw.members, "schema_version")
              && exists branches :: Walk(raw, ALTERNATIVES) == Some(TArr(branches))
  {
    assert IndexOf("protocol").None? && IndexOf("schema_version").None? by {
      assert "protocol"[7] == 'l' && "schema_version"[13] == 'n';
    }
    WalkThree(raw, "schemas", "request", "oneOf");
    WalkTwo(raw, "schemas", "request");
    var schemas := Child(raw, "schemas");
    if schemas.Some? {
      WalkTwo(schemas.value, "request", "oneOf");
    }
  }

  ghost predicate DeclaredAt(branches: seq<Tree>, call: string, i: nat)
    requires i < |branches|
  {
    exists params :: Declares(branches[i], call, params)
  }

  /** The method is declared by one alternative and by no other. */
  ghost predicate DeclaredOnce(branches: seq<Tree>, call: string, params: Tree) {
    exists i | 0 <= i < |branches| ::
      Declares(branches[i], call, params)
      && forall j | 0 <= j < |branches| :: DeclaredAt(branches, call, j) ==> j == i
  }

  lemma {:induction false} LastDeclared(branches: seq<Tree>, call: string)
    requires branches != []
    ensures var n, last := |branches| - 1, MethodOf(branches[|branches| - 1]);
            && (DeclaredAt(branches, call, n) <==> last.Some? && last.value.0 == call)
            && ParamsOf(branches, call) == ParamsOf(branches[..n], call)
                                           + (if DeclaredAt(branches, call, n) then [last.value.1] else [])
            && (DeclaredAt(branches, call, n) ==> Declares(branches[n], call, last.value.1))
  {
    var n, last := |branches| - 1, MethodOf(branches[|branches| - 1]);
    if last.Some? && last.value.0 == call {
      DeclaresExactly(branches[n], call, last.value.1);
    }
    if params :| Declares(branches[n], call, params) {
      DeclaresExactly(branches[n], call, params);
    }
  }

  lemma {:induction false} NoneDeclared(branches: seq<Tree>, call: string)
    ensures ParamsOf(branches, call) == [] <==> forall i | 0 <= i < |branches| :: !DeclaredAt(branches, call, i)
  {
    if branches != [] {
      var front := branches[..|branches| - 1];
      NoneDeclared(front, call);
      LastDeclared(branches, call);
      forall i | 0 <= i < |front|
        ensures DeclaredAt(front, call, i) <==> DeclaredAt(branches, call, i)
      {
        assert front[i] == branches[i];
      }
    }
  }

  lemma {:induction false} OnceExactly(branches: seq<Tree>, call: string, params: Tree)
    ensures ParamsOf(branches, call) == [params] <==> DeclaredOnce(branches, call, params)
  {
    if branches != [] {
      var n := |branches| - 1;
      var front := branches[..n];
      OnceExactly(front, call, params);
      NoneDeclared(front, call);
      LastDeclared(branches, call);
      forall i | 0 <= i < n
        ensures DeclaredAt(front, call, i) <==> DeclaredAt(branches, call, i)
        ensures front[i] == branches[i]
      {
      }
      if DeclaredAt(branches, call, n) {
        DeclaresExactly(branches[n], call, params);
        LastIsTheOne(branches, call, params);
        var before, last := ParamsOf(front, call), MethodOf(branches[n]).value.1;
        assert (before + [last])[|before|] == last && |before + [last]| == |before| + 1;
        assert before + [last] == [params] <==> before == [] && last == params;
      } else {
        NotTheLast(branches, call, params);
      }
    }
  }

  lemma {:induction false} LastIsTheOne(branches: seq<Tree>, call: string, params: Tree)
    requires branches != [] && DeclaredAt(branches, call, |branches| - 1)
    ensures DeclaredOnce(branches, call, params) <==>
              && Declares(branches[|branches| - 1], call, params)
              && forall i | 0 <= i < |branches| - 1 :: !DeclaredAt(branches, call, i)
  {
  }

  lemma {:induction false} NotTheLast(branches: seq<Tree>, call: string, params: Tree)
    requires branches != [] && !DeclaredAt(branches, call, |branches| - 1)
    ensures DeclaredOnce(branches, call, params) <==> DeclaredOnce(branches[..|branches| - 1], call, params)
  {
    var n := |branches| - 1;
    var front := branches[..n];
    forall i | 0 <= i < n
      ensures DeclaredAt(front, call, i) <==> DeclaredAt(branches, call, i)
    {
      assert front[i] == branches[i];
    }
    if DeclaredOnce(branches, call, params) {
      var i :| 0 <= i < |branches| && Declares(branches[i], call, params)
               && forall j | 0 <= j < |branches| :: DeclaredAt(branches, call, j) ==> j == i;
      assert i != n;
      assert Declares(front[i], call, params);
    }
    if DeclaredOnce(front, call, params) {
      var i :| 0 <= i < |front| && Declares(front[i], call, params)
               && forall j | 0 <= j < |front| :: DeclaredAt(front, call, j) ==> j == i;
      assert Declares(branches[i], call, params);
    }
  }

  lemma {:induction false} BranchesAre(raw: Tree, branches: seq<Tree>) returns (request: Tree)
    requires Walk(raw, ALTERNATIVES) == Some(TArr(branches))
    ensures Walk(raw, REQUEST) == Some(request) && Branches(request) == branches
  {
    WalkThree(raw, "schemas", "request", "oneOf");
    WalkTwo(raw, "schemas", "request");
    var schemas := Child(raw, "schemas").value;
    WalkTwo(schemas, "request", "oneOf");
    request := Child(schemas, "request").value;
  }

  /** A call is accepted exactly when its method is declared by just one of the alternatives for a request, what
      describes the parameters can be found, and the parameters fit it. */
  lemma {:induction false} CallFitsExactly(kw: Keywords, raw: Tree, branches: seq<Tree>, call: string,
      params: map<string, Tree>)
    requires Ordered(kw) && Walk(raw, ALTERNATIVES) == Some(TArr(branches))
    ensures ValidateMethod(kw, raw, call, params).None? <==>
              exists described ::
                && DeclaredOnce(branches, call, described) && RootOf(raw, described).Some?
                && Fits(kw, raw, RootOf(raw, described).value, TObj(params), "#", 0)
  {
    var request := BranchesAre(raw, branches);
    var declared := ParamsOf(branches, call);
    if |declared| == 1 {
      OnceExactly(branches, call, declared[0]);
      if RootOf(raw, declared[0]).Some? {
        ValidExactly(kw, raw, RootOf(raw, declared[0]).value, TObj(params), "#", 0);
      }
    }
    forall described
      ensures DeclaredOnce(branches, call, described) <==> declared == [described]
    {
      OnceExactly(branches, call, described);
    }
  }
}
