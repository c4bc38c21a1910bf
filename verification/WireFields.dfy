/** Turning the fields of a configured native action into wire parameters: spellings, wire names and values. */
module WireFields {
  import opened Wrappers
  import opened Json

  datatype ContextType =
    | HostKind | ServerId | ClientId | SessionId | WorkspaceId | TabId | UnsignedInteger | PaneId | PaneType
    | AbsolutePath | String | InvocationSource | WorktreeId | AgentId | Url | LinkHandlerId

  datatype Double = Finite(bits: nat) | NotFinite

  datatype ConfigValue =
    | NullValue
    | BooleanValue(bool)
    | IntegerValue(int)
    | FloatValue(Double)
    | StringValue(string)
    | ContextValue(path: string, expected: ContextType)
    | SequenceValue(items: seq<ConfigValue>)
    | MappingValue(fields: seq<Field>)

  datatype Field = Field(name: string, value: ConfigValue)

  datatype Refusal = Underscore(name: string) | Repeated(wire: string) | NotANumber

  /** A field as it was spelt, its name on the wire, and its value there. */
  datatype WireField = WireField(name: string, wire: string, value: Tree)

  // ----- names -----

  function Replaced(name: string, from: char, to: char): (replaced: string)
    ensures |replaced| == |name|
    ensures forall i | 0 <= i < |name| :: replaced[i] == if name[i] == from then to else name[i]
  {
    if name == [] then []
    else Replaced(name[..|name| - 1], from, to) + [if name[|name| - 1] == from then to else name[|name| - 1]]
  }

  function WireName(name: string): string {
    Replaced(name, '-', '_')
  }

  /** Hyphenated again, the wire name is the spelling exactly when the spelling has no underscore. */
  lemma {:induction false} SpellingFromWire(name: string)
    ensures Replaced(WireName(name), '_', '-') == name <==> '_' !in name
  {
    if i :| 0 <= i < |name| && name[i] == '_' {
      assert Replaced(WireName(name), '_', '-')[i] == '-';
    }
  }

  /** Accepted spellings keep their identity on the wire. */
  lemma {:induction false} WireNameInjective(a: string, b: string)
    requires '_' !in a && '_' !in b
    ensures WireName(a) == WireName(b) <==> a == b
  {
    SpellingFromWire(a);
    SpellingFromWire(b);
  }

  // ----- values -----

  function Placeholder(expected: ContextType): Tree {
    match expected
    case UnsignedInteger => TNum(Integer(0))
    case HostKind => TStr("herdr")
    case AbsolutePath => TStr("/")
    case _ => TStr("muxe-context")
  }

  function ToTree(value: ConfigValue): Result<Tree, Refusal>
    decreases value
  {
    match value
    case NullValue => Ok(TNull)
    case BooleanValue(b) => Ok(TBool(b))
    case IntegerValue(n) => Ok(TNum(Integer(n)))
    case FloatValue(x) => if x.Finite? then Ok(TNum(Float(x.bits))) else Err(NotANumber)
    case StringValue(s) => Ok(TStr(s))
    case ContextValue(_, expected) => Ok(Placeholder(expected))
    case SequenceValue(items) =>
      var trees := ToTrees(items);
      if trees.Ok? then Ok(TArr(trees.value)) else Err(trees.error)
    case MappingValue(fields) =>
      var checked := CheckedFields(fields);
      if checked.Ok? then Ok(TObj(Params(checked.value))) else Err(checked.error)
  }

  function ToTrees(items: seq<ConfigValue>): Result<seq<Tree>, Refusal>
    decreases items
  {
    if items == [] then Ok([])
    else
      var front := ToTrees(items[..|items| - 1]);
      if front.Err? then front
      else
        var last := ToTree(items[|items| - 1]);
        if last.Ok? then Ok(front.value + [last.value]) else Err(last.error)
  }

  /** The wire fields in source order, or what is wrong with the first bad field. */
  function CheckedFields(fields: seq<Field>): Result<seq<WireField>, Refusal>
    decreases fields
  {
    if fields == [] then Ok([])
    else
      var front := CheckedFields(fields[..|fields| - 1]);
      if front.Err? then front
      else
        var field := fields[|fields| - 1];
        if '_' in field.name then Err(Underscore(field.name))
        else if exists f <- front.value :: f.wire == WireName(field.name) then Err(Repeated(WireName(field.name)))
        else
          var value := ToTree(field.value);
          if value.Err? then Err(value.error)
          else Ok(front.value + [WireField(field.name, WireName(field.name), value.value)])
  }

  function Params(checked: seq<WireField>): map<string, Tree> {
    if checked == [] then map[]
    else Params(checked[..|checked| - 1])[checked[|checked| - 1].wire := checked[|checked| - 1].value]
  }

  lemma {:induction false} FrontFailed(fields: seq<Field>, n: nat)
    requires n <= |fields| && CheckedFields(fields[..n]).Err?
    ensures CheckedFields(fields) == CheckedFields(fields[..n])
  {
    if n < |fields| {
      assert fields[..|fields| - 1][..n] == fields[..n];
      FrontFailed(fields[..|fields| - 1], n);
    } else {
      assert fields[..n] == fields;
    }
  }

  lemma {:induction false} OneMoreField(fields: seq<Field>, i: nat, done: seq<WireField>)
    requires i < |fields| && CheckedFields(fields[..i]) == Ok(done)
    ensures CheckedFields(fields[..i + 1])
            == if '_' in fields[i].name then Err(Underscore(fields[i].name))
               else if exists f <- done :: f.wire == WireName(fields[i].name) then Err(Repeated(WireName(fields[i].name)))
               else if ToTree(fields[i].value).Err? then Err(ToTree(fields[i].value).error)
               else Ok(done + [WireField(fields[i].name, WireName(fields[i].name), ToTree(fields[i].value).value)])
    ensures CheckedFields(fields[..i + 1]).Err? ==> CheckedFields(fields) == CheckedFields(fields[..i + 1])
  {
    assert fields[..i + 1][..i] == fields[..i] && fields[..i + 1][i] == fields[i];
    if CheckedFields(fields[..i + 1]).Err? {
      FrontFailed(fields, i + 1);
    }
  }

  /** Checks the fields one after the other, collecting the wire names already used. */
  method CheckWireFields(fields: seq<Field>) returns (checked: Result<seq<WireField>, Refusal>)
    ensures checked == CheckedFields(fields)
    ensures checked.Ok? ==>
              && |checked.value| == |fields|
              && forall i | 0 <= i < |fields| ::
                   && checked.value[i].name == fields[i].name && Spells(fields[i].name, checked.value[i].wire)
                   && Stands(fields[i].value, checked.value[i].value)
  {
    var names: set<string> := {};
    var done: seq<WireField> := [];
    for i := 0 to |fields|
      invariant CheckedFields(fields[..i]) == Ok(done)
      invariant forall wire :: wire in names <==> exists f <- done :: f.wire == wire
    {
      var field := fields[i];
      OneMoreField(fields, i, done);
      if '_' in field.name {
        return Err(Underscore(field.name));
      }
      var wire := WireName(field.name);
      if wire in names {
        return Err(Repeated(wire));
      }
      var value := ToTree(field.value);
      if value.Err? {
        return Err(value.error);
      }
      names := names + {wire};
      done := done + [WireField(field.name, wire, value.value)];
    }
    assert fields[..|fields|] == fields;
    AcceptsExactly(fields);
    forall i | 0 <= i < |fields|
      ensures Stands(fields[i].value, done[i].value)
    {
      SentValueStands(fields[i].value);
    }
    return Ok(done);
  }

  // ----- what is accepted -----

  predicate Representable(value: ConfigValue)
    decreases value
  {
    match value
    case FloatValue(x) => x.Finite?
    case SequenceValue(items) => forall i | 0 <= i < |items| :: Representable(items[i])
    case MappingValue(fields) => Acceptable(fields)
    case _ => true
  }

  /** Every spelling is free of underscores, no two are the same, and every value can be represented. */
  predicate Acceptable(fields: seq<Field>)
    decreases fields
  {
    && (forall i | 0 <= i < |fields| :: '_' !in fields[i].name && Representable(fields[i].value))
    && (forall i, j | 0 <= i < j < |fields| :: fields[i].name != fields[j].name)
  }

  lemma {:induction false} RepresentedExactly(value: ConfigValue)
    ensures ToTree(value).Ok? <==> Representable(value)
    decreases value
  {
    match value
    case SequenceValue(items) => AllRepresentedExactly(items);
    case MappingValue(fields) => AcceptsExactly(fields);
    case _ =>
  }

  lemma {:induction false} AllRepresentedExactly(items: seq<ConfigValue>)
    ensures ToTrees(items).Ok? <==> forall i | 0 <= i < |items| :: Representable(items[i])
    decreases items
  {
    if items != [] {
      var n := |items| - 1;
      var front := items[..n];
      AllRepresentedExactly(front);
      RepresentedExactly(items[n]);
      assert ToTrees(items).Ok? <==> ToTrees(front).Ok? && ToTree(items[n]).Ok?;
      assert forall i | 0 <= i < n :: front[i] == items[i];
    }
  }

  /** The fields are accepted exactly when they are acceptable, at every nesting level; then each field
      gives one wire field, in source order. */
  lemma {:induction false} AcceptsExactly(fields: seq<Field>)
    ensures CheckedFields(fields).Ok? <==> Acceptable(fields)
    ensures CheckedFields(fields).Ok? ==> Follows(CheckedFields(fields).value, fields)
    decreases fields
  {
    if fields != [] {
      var front, field := fields[..|fields| - 1], fields[|fields| - 1];
      AcceptsExactly(front);
      RepresentedExactly(field.value);
      assert fields == front + [field];
      if CheckedFields(front).Ok? && '_' !in field.name {
        NewNameExactly(CheckedFields(front).value, front, field.name);
      }
    }
  }

  /** One wire field for each field, in the same order, under the same spelling and value. */
  predicate Follows(checked: seq<WireField>, fields: seq<Field>) {
    && |checked| == |fields|
    && forall i | 0 <= i < |fields| ::
         checked[i].name == fields[i].name && checked[i].wire == WireName(fields[i].name)
         && ToTree(fields[i].value) == Ok(checked[i].value)
  }

  lemma {:induction false} NewNameExactly(checked: seq<WireField>, fields: seq<Field>, name: string)
    requires Follows(checked, fields) && Acceptable(fields) && '_' !in name
    ensures (exists f <- checked :: f.wire == WireName(name)) <==> exists i | 0 <= i < |fields| :: fields[i].name == name
  {
    if f :| f in checked && f.wire == WireName(name) {
      var i :| 0 <= i < |checked| && checked[i] == f;
      WireNameInjective(fields[i].name, name);
    }
    if i :| 0 <= i < |fields| && fields[i].name == name {
      assert checked[i] in checked;
    }
  }

  /** The parameters sent are exactly the fields given, each under its wire name. */
  lemma {:induction false} ParamsAreTheFields(fields: seq<Field>)
    requires Acceptable(fields)
    ensures CheckedFields(fields).Ok?
    ensures var params := Params(CheckedFields(fields).value);
            && (forall i | 0 <= i < |fields| ::
                  WireName(fields[i].name) in params && ToTree(fields[i].value) == Ok(params[WireName(fields[i].name)]))
            && |params| == |fields|
  {
    AcceptsExactly(fields);
    if fields != [] {
      var front, field := fields[..|fields| - 1], fields[|fields| - 1];
      assert fields == front + [field];
      ParamsAreTheFields(front);
      var checked := CheckedFields(fields).value;
      assert checked[..|checked| - 1] == CheckedFields(front).value;
      var before := Params(CheckedFields(front).value);
      NewKey(CheckedFields(front).value, WireName(field.name));
      forall i | 0 <= i < |front|
        ensures WireName(front[i].name) != WireName(field.name)
      {
        WireNameInjective(front[i].name, field.name);
      }
    }
  }

  lemma {:induction false} NewKey(checked: seq<WireField>, wire: string)
    ensures wire in Params(checked) <==> exists f <- checked :: f.wire == wire
  {
    if checked != [] {
      var front, last := checked[..|checked| - 1], checked[|checked| - 1];
      NewKey(front, wire);
      assert checked == front + [last];
    }
  }

  // ----- what is sent -----

  /** The name as it is spelt, with an underscore for every hyphen. */
  predicate Spells(name: string, wire: string) {
    |wire| == |name| && forall i | 0 <= i < |name| :: if name[i] == '-' then wire[i] == '_' else wire[i] == name[i]
  }

  /** What stands for a context value until it is known: zero for a number, and for a text one that fits. */
  predicate HoldsPlaceOf(expected: ContextType, tree: Tree) {
    && (expected == UnsignedInteger <==> tree == TNum(Integer(0)))
    && (expected == HostKind <==> tree == TStr("herdr"))
    && (expected == AbsolutePath <==> tree == TStr("/"))
    && (tree == TStr("muxe-context") <==> expected !in {UnsignedInteger, HostKind, AbsolutePath})
  }

  /** The tree says what the configured value says. */
  predicate Stands(value: ConfigValue, tree: Tree)
    decreases value
  {
    match value
    case NullValue => tree.TNull?
    case BooleanValue(b) => tree.TBool? && (tree == TBool(true) <==> b)
    case IntegerValue(n) => tree == TNum(Integer(n))
    case FloatValue(x) => x.Finite? && tree == TNum(Float(x.bits))
    case StringValue(s) => tree == TStr(s)
    case ContextValue(_, expected) => HoldsPlaceOf(expected, tree)
    case SequenceValue(items) =>
      tree.TArr? && |tree.items| == |items| && forall i | 0 <= i < |items| :: Stands(items[i], tree.items[i])
    case MappingValue(fields) => tree.TObj? && AllStand(fields, tree.members)
  }

  /** One member for each field, under its wire name, and no other. */
  predicate AllStand(fields: seq<Field>, members: map<string, Tree>)
    decreases fields
  {
    && |members| == |fields|
    && (forall i | 0 <= i < |fields| ::
          var wire := WireName(fields[i].name);
          Spells(fields[i].name, wire) && wire in members && Stands(fields[i].value, members[wire]))
  }

  /** What is sent for a value says what the value says, at every depth. */
  lemma {:induction false} SentValueStands(value: ConfigValue)
    requires ToTree(value).Ok?
    ensures Stands(value, ToTree(value).value)
    decreases value
  {
    match value
    case SequenceValue(items) => SentItemsStand(items);
    case MappingValue(fields) => SentFieldsStand(fields);
    case _ =>
  }

  lemma {:induction false} SentItemsStand(items: seq<ConfigValue>)
    requires ToTrees(items).Ok?
    ensures var trees := ToTrees(items).value;
            |trees| == |items| && forall i | 0 <= i < |items| :: Stands(items[i], trees[i])
    decreases items
  {
    if items != [] {
      SentItemsStand(items[..|items| - 1]);
      SentValueStands(items[|items| - 1]);
    }
  }

  lemma {:induction false} SentFieldsStand(fields: seq<Field>)
    requires CheckedFields(fields).Ok?
    ensures AllStand(fields, Params(CheckedFields(fields).value))
    decreases fields, 1
  {
    AcceptsExactly(fields);
    ParamsAreTheFields(fields);
    forall i | 0 <= i < |fields|
      ensures Stands(fields[i].value, ToTree(fields[i].value).value)
    {
      SentValueStands(fields[i].value);
    }
  }

  /** The two values say the same: they are equal but for the order of fields. */
  predicate Alike(v: ConfigValue, w: ConfigValue)
    decreases v
  {
    match v
    case SequenceValue(items) =>
      w.SequenceValue? && |items| == |w.items| && forall i | 0 <= i < |items| :: Alike(items[i], w.items[i])
    case MappingValue(fields) =>
      && w.MappingValue? && |fields| == |w.fields|
      && forall i | 0 <= i < |fields| :: IsAmong(fields[i], w.fields)
    case _ => v == w
  }

  predicate IsAmong(field: Field, others: seq<Field>)
    decreases field
  {
    exists j | 0 <= j < |others| :: others[j].name == field.name && Alike(field.value, others[j].value)
  }

  /** No placeholder anywhere, and nothing that is refused. */
  predicate LiteralOnly(value: ConfigValue)
    decreases value
  {
    match value
    case ContextValue(_, _) => false
    case SequenceValue(items) => forall i | 0 <= i < |items| :: LiteralOnly(items[i])
    case MappingValue(fields) => Acceptable(fields) && forall i | 0 <= i < |fields| :: LiteralOnly(fields[i].value)
    case _ => true
  }

  /** The tree gives a literal value back: nothing that says something else has the same tree. */
  lemma {:induction false} TreeGivesBack(v: ConfigValue, w: ConfigValue, tree: Tree)
    requires LiteralOnly(v) && LiteralOnly(w) && Stands(v, tree) && Stands(w, tree)
    ensures Alike(v, w)
    decreases v
  {
    match v
    case SequenceValue(items) =>
      forall i | 0 <= i < |items|
        ensures Alike(items[i], w.items[i])
      {
        TreeGivesBack(items[i], w.items[i], tree.items[i]);
      }
    case MappingValue(fields) =>
      forall i | 0 <= i < |fields|
        ensures IsAmong(fields[i], w.fields)
      {
        var j := FieldUnder(w.fields, tree.members, fields[i].name);
        TreeGivesBack(fields[i].value, w.fields[j].value, tree.members[WireName(fields[i].name)]);
        assert w.fields[j].name == fields[i].name && Alike(fields[i].value, w.fields[j].value);
      }
    case _ =>
  }

  /** Every member comes from a field, under its own spelling. */
  lemma {:induction false} FieldUnder(fields: seq<Field>, members: map<string, Tree>, name: string) returns (j: nat)
    requires Acceptable(fields) && AllStand(fields, members) && '_' !in name && WireName(name) in members
    ensures j < |fields| && fields[j].name == name
  {
    var names := set i | 0 <= i < |fields| :: WireName(fields[i].name);
    DistinctNames(fields);
    assert names <= members.Keys && |members.Keys| == |members|;
    if names < members.Keys {
      SmallerSet(names, members.Keys);
    }
    j :| 0 <= j < |fields| && WireName(fields[j].name) == WireName(name);
    WireNameInjective(fields[j].name, name);
  }

  lemma {:induction false} SmallerSet(a: set<string>, b: set<string>)
    requires a < b
    ensures |a| < |b|
  {
    assert b == a + (b - a);
  }

  lemma {:induction false} DistinctNames(fields: seq<Field>)
    requires Acceptable(fields)
    ensures |set i | 0 <= i < |fields| :: WireName(fields[i].name)| == |fields|
  {
    var names := set i | 0 <= i < |fields| :: WireName(fields[i].name);
    if fields == [] {
      assert names == {};
    } else {
      var front, last := fields[..|fields| - 1], fields[|fields| - 1];
      var before := set i | 0 <= i < |front| :: WireName(front[i].name);
      DistinctNames(front);
      forall i | 0 <= i < |front|
        ensures WireName(front[i].name) != WireName(last.name)
      {
        WireNameInjective(front[i].name, last.name);
      }
      assert names == before + {WireName(last.name)};
    }
  }

  // ----- finding the field an error is about -----

  /** A member name as one segment of a JSON pointer. */
  function Escaped(name: string): string {
    if name == [] then []
    else
      Escaped(name[..|name| - 1])
      + if name[|name| - 1] == '~' then "~0" else if name[|name| - 1] == '/' then "~1" else [name[|name| - 1]]
  }

  /** Where validation finds fault with the parameter, or with something inside it. */
  function InstancePath(wire: string, inside: string): string {
    "#/" + Escaped(wire) + inside
  }

  function UpToSlash(path: string): string {
    if path == [] || path[0] == '/' then [] else [path[0]] + UpToSlash(path[1..])
  }

  function FieldFromInstancePath(path: string): Option<string> {
    if "#/" <= path then Some(Replaced(UpToSlash(path[2..]), '_', '-')) else None
  }

  lemma {:induction false} EscapedHasNoSlash(name: string)
    ensures '/' !in Escaped(name)
    ensures |Escaped(name)| >= |name|
    ensures Escaped(name) == name <==> '/' !in name && '~' !in name
    ensures '/' in name || '~' in name ==> |Escaped(name)| > |name|
  {
    if name != [] {
      EscapedHasNoSlash(name[..|name| - 1]);
      assert name == name[..|name| - 1] + [name[|name| - 1]];
    }
  }

  lemma {:induction false} FirstSegment(segment: string, inside: string)
    requires '/' !in segment && (inside == [] || inside[0] == '/')
    ensures UpToSlash(segment + inside) == segment
  {
    if segment != [] {
      assert (segment + inside)[1..] == segment[1..] + inside;
      FirstSegment(segment[1..], inside);
    } else {
      assert segment + inside == inside;
    }
  }

  /** The name reported is what stands in the path, with its underscores turned back. */
  lemma {:induction false} ReportedName(wire: string, inside: string)
    requires inside == [] || inside[0] == '/'
    ensures FieldFromInstancePath(InstancePath(wire, inside)) == Some(Replaced(Escaped(wire), '_', '-'))
  {
    var path := InstancePath(wire, inside);
    EscapedHasNoSlash(wire);
    assert path[..2] == "#/" && path[2..] == Escaped(wire) + inside;
    FirstSegment(Escaped(wire), inside);
  }

  /** The field an error is reported for is the one in the source exactly when its spelling has neither a
      slash nor a tilde, the two characters that a path writes differently. */
  lemma {:induction false} SpellingRecoveredExactly(name: string, inside: string)
    requires '_' !in name && (inside == [] || inside[0] == '/')
    ensures FieldFromInstancePath(InstancePath(WireName(name), inside)) == Some(name) <==> '/' !in name && '~' !in name
  {
    var wire := WireName(name);
    ReportedName(wire, inside);
    EscapedHasNoSlash(wire);
    SpellingFromWire(name);
    assert ('/' in name <==> '/' in wire) && ('~' in name <==> '~' in wire) by {
      assert forall i | 0 <= i < |name| :: (name[i] == '/' <==> wire[i] == '/') && (name[i] == '~' <==> wire[i] == '~');
    }
  }

  /** A spelling that is accepted and yet reported under another name. */
  lemma {:induction false} TildeIsNotRecovered()
    ensures Acceptable([Field("a~b", NullValue)])
    ensures FieldFromInstancePath(InstancePath(WireName("a~b"), "")) != Some("a~b")
  {
    SpellingRecoveredExactly("a~b", "");
  }
}
