/** A Herdr schema document: its request part, the methods that part declares, and validation of parameters,
which follows references through the whole document. */
module SchemaDocument {
  import opened Wrappers
  import opened Json
  import opened WireFields
  import opened SchemaCache

  // ----- pointers (RFC 6901) -----

  /** The segments of a pointer, still escaped; the text before the first slash is the first segment. */
  function Segments(text: string): (segments: seq<string>)
    ensures segments != []
  {
    if text == [] then [[]]
    else
      var later := Segments(text[1..]);
      if text[0] == '/' then [[]] + later else [[text[0]] + later[0]] + later[1..]
  }

  function Unescaped(segment: string): string {
    if segment == [] then []
    else if "~1" <= segment then "/" + Unescaped(segment[2..])
    else if "~0" <= segment then "~" + Unescaped(segment[2..])
    else [segment[0]] + Unescaped(segment[1..])
  }

  function AllUnescaped(segments: seq<string>): (tokens: seq<string>)
    ensures |tokens| == |segments|
  {
    if segments == [] then [] else [Unescaped(segments[0])] + AllUnescaped(segments[1..])
  }

  /** The tokens of a pointer: none for the empty one, and no pointer at all without a leading slash. */
  function Tokens(pointer: string): Option<seq<string>> {
    if pointer == [] then Some([])
    else if pointer[0] != '/' then None
    else Some(AllUnescaped(Segments(pointer[1..])))
  }

  /** The pointer that leads along the tokens. */
  function PointerTo(tokens: seq<string>): string {
    if tokens == [] then [] else "/" + Escaped(tokens[0]) + PointerTo(tokens[1..])
  }

  lemma {:induction false} EscapedOn(name: string, c: char)
    ensures Escaped([c] + name) == Escaped([c]) + Escaped(name)
  {
    if name == [] {
      assert [c] + name == [c];
      assert Escaped([c]) + [] == Escaped([c]);
    } else {
      var front, last := name[..|name| - 1], name[|name| - 1];
      EscapedOn(front, c);
      assert ([c] + name)[..|name|] == [c] + front;
    }
  }

  lemma {:induction false} EscapedChar(c: char)
    ensures Escaped([c]) == if c == '~' then "~0" else if c == '/' then "~1" else [c]
  {
    assert [c][..0] == [];
  }

  lemma {:induction false} UnescapedOn(c: char, more: string)
    ensures Unescaped(Escaped([c]) + more) == [c] + Unescaped(more)
  {
    EscapedChar(c);
    var all := Escaped([c]) + more;
    assert "~1"[1] == '1' && "~0"[1] == '0' && "~1"[0] == "~0"[0] == '~';
    if c == '~' {
      assert all[1] == '0' && "~0" <= all && all[2..] == more;
    } else if c == '/' {
      assert "~1" <= all && all[2..] == more;
    } else {
      assert all[0] == c && all[1..] == more;
    }
  }

  lemma {:induction false} UnescapedBack(name: string)
    ensures Unescaped(Escaped(name)) == name
  {
    if name != [] {
      EscapedOn(name[1..], name[0]);
      UnescapedOn(name[0], Escaped(name[1..]));
      UnescapedBack(name[1..]);
      assert name == [name[0]] + name[1..];
    }
  }

  lemma {:induction false} SegmentEnds(segment: string, more: string)
    requires '/' !in segment && (more == [] || more[0] == '/')
    ensures Segments(segment + more) == [segment] + if more == [] then [] else Segments(more[1..])
  {
    var text := segment + more;
    if segment == [] {
      assert text == more;
    } else {
      assert text[1..] == segment[1..] + more && text[0] == segment[0];
      SegmentEnds(segment[1..], more);
      assert [segment[0]] + segment[1..] == segment;
    }
  }

  lemma {:induction false} SegmentsOfPointer(first: string, rest: seq<string>)
    ensures Segments(Escaped(first) + PointerTo(rest))
            == [Escaped(first)] + if rest == [] then [] else Segments(PointerTo(rest)[1..])
  {
    EscapedHasNoSlash(first);
    SegmentEnds(Escaped(first), PointerTo(rest));
  }

  lemma {:induction false} PointerStarts(tokens: seq<string>)
    requires tokens != []
    ensures PointerTo(tokens) != [] && PointerTo(tokens)[0] == '/'
    ensures PointerTo(tokens)[1..] == Escaped(tokens[0]) + PointerTo(tokens[1..])
  {
    var pointer := Escaped(tokens[0]) + PointerTo(tokens[1..]);
    assert PointerTo(tokens) == "/" + pointer && ("/" + pointer)[1..] == pointer;
  }

  lemma {:induction false} FirstUnescaped(first: string, segments: seq<string>)
    ensures AllUnescaped([first] + segments) == [Unescaped(first)] + AllUnescaped(segments)
  {
    assert ([first] + segments)[1..] == segments;
  }

  lemma {:induction false} UnescapedSegments(first: string, rest: seq<string>)
    ensures AllUnescaped(Segments(Escaped(first) + PointerTo(rest))) == [first] + rest
    decreases |rest|
  {
    var later := if rest == [] then [] else Segments(PointerTo(rest)[1..]);
    if rest != [] {
      PointerStarts(rest);
      UnescapedSegments(rest[0], rest[1..]);
      assert [rest[0]] + rest[1..] == rest;
    }
    assert AllUnescaped(later) == rest;
    SegmentsOfPointer(first, rest);
    FirstUnescaped(Escaped(first), later);
    UnescapedBack(first);
  }

  /** Pointers and tokens stand for each other. */
  lemma {:induction false} TokensBack(tokens: seq<string>)
    ensures Tokens(PointerTo(tokens)) == Some(tokens)
  {
    if tokens != [] {
      PointerStarts(tokens);
      UnescapedSegments(tokens[0], tokens[1..]);
      assert [tokens[0]] + tokens[1..] == tokens;
    }
  }

  function DigitsValue(text: string): Option<nat> {
    if text == [] then Some(0)
    else
      var front, c := DigitsValue(text[..|text| - 1]), text[|text| - 1];
      if front.Some? && '0' <= c <= '9' then Some(10 * front.value + (c as int - '0' as int)) else None
  }

  /** An array index is written in digits, without a needless zero. */
  function IndexOf(token: string): Option<nat> {
    if token == [] || (token[0] == '0' && |token| > 1) then None else DigitsValue(token)
  }

  lemma {:induction false} NumeralIsRead(n: nat)
    ensures DigitsValue(Decimal(n)) == Some(n)
    ensures Decimal(n) != [] && (Decimal(n)[0] == '0' ==> n == 0 && |Decimal(n)| == 1)
  {
    if n >= 10 {
      NumeralIsRead(n / 10);
      assert Decimal(n)[..|Decimal(n)| - 1] == Decimal(n / 10);
    }
  }

  lemma {:induction false} IndexIsNumeral(token: string)
    requires IndexOf(token).Some?
    ensures Decimal(IndexOf(token).value) == token
  {
    var front, c := token[..|token| - 1], token[|token| - 1];
    var n, digit := IndexOf(token).value, c as int - '0' as int;
    assert token == front + [c] && Digit(digit) == c;
    if front != [] {
      assert front[0] == token[0] && IndexOf(front).Some?;
      IndexIsNumeral(front);
      var m := IndexOf(front).value;
      assert m != 0 by {
        assert Decimal(0)[0] == '0';
      }
      assert n == 10 * m + digit;
      assert n / 10 == m && n % 10 == digit;
    } else {
      assert DigitsValue(front) == Some(0) && n == digit;
    }
  }

  /** An item is pointed to by its position in decimal, and by nothing else. */
  lemma {:induction false} IndexExactly(token: string, n: nat)
    ensures IndexOf(token) == Some(n) <==> token == Decimal(n)
  {
    NumeralIsRead(n);
    if IndexOf(token).Some? {
      IndexIsNumeral(token);
    }
  }

  function Child(node: Tree, token: string): Option<Tree> {
    match node
    case TObj(members) => if token in members then Some(members[token]) else None
    case TArr(items) =>
      var index := IndexOf(token);
      if index.Some? && index.value < |items| then Some(items[index.value]) else None
    case _ => None
  }

  function Walk(node: Tree, tokens: seq<string>): Option<Tree> {
    if tokens == [] then Some(node)
    else
      match Child(node, tokens[0])
      case Some(child) => Walk(child, tokens[1..])
      case None => None
  }

  const REQUEST := ["schemas", "request"]

  /** The tokens of a reference within the document; any other reference is unsupported. */
  function ReferenceTokens(reference: string): Option<seq<string>> {
    if reference == [] || reference[0] != '#' then None else Tokens(reference[1..])
  }

  /** A reference is looked up in the whole document. */
  function ResolveReference(raw: Tree, reference: string): Option<Tree> {
    match ReferenceTokens(reference)
    case Some(tokens) => Walk(raw, tokens)
    case None => None
  }

  // ----- parsing -----

  predicate IsUnsigned(value: Option<Tree>) {
    value.Some? && match value.value case TNum(Integer(n)) => n >= 0 case _ => false
  }

  /** The document has its two version numbers, and a request part with a list of alternatives. */
  predicate Parses(raw: Tree) {
    && IsUnsigned(Child(raw, "protocol")) && IsUnsigned(Child(raw, "schema_version"))
    && Walk(raw, REQUEST).Some?
    && var branches := Child(Walk(raw, REQUEST).value, "oneOf"); branches.Some? && branches.value.TArr?
  }

  /** The method and the parameter schema of one alternative, if it declares them. */
  function MethodOf(branch: Tree): Option<(string, Tree)> {
    var properties := Child(branch, "properties");
    if properties.None? || !properties.value.TObj? then None
    else
      var named, params := Child(properties.value, "method"), Child(properties.value, "params");
      if named.None? || params.None? then None
      else
        match Child(named.value, "const")
        case Some(TStr(name)) => Some((name, params.value))
        case _ => None
  }

  /** The parameter schemas that the alternatives up to `n` declare for the method. */
  function ParamsOf(branches: seq<Tree>, call: string): seq<Tree> {
    if branches == [] then []
    else
      var last := MethodOf(branches[|branches| - 1]);
      ParamsOf(branches[..|branches| - 1], call)
      + if last.Some? && last.value.0 == call then [last.value.1] else []
  }

  function Branches(request: Tree): seq<Tree> {
    match Child(request, "oneOf")
    case Some(TArr(branches)) => branches
    case _ => []
  }

  // ----- validation -----

  /** A fault of the schema itself, or of the value; and where in the value it was found. */
  datatype Fault = Fault(ofSchema: bool, path: string)

  datatype Match = Excluded | Possible | Unclear(Fault)

  /** The keywords that look at nothing but their own node and the value: constants, types, formats, ranges,
      lengths, patterns and counts; whether type, constant and enumeration leave an alternative possible; and
      the order in which the keys of an object are gone through. */
  datatype Keywords = Keywords(
    check: (map<string, Tree>, Tree, string) -> Option<Fault>,
    counts: (map<string, Tree>, seq<Tree>, string) -> Option<Fault>,
    sizes: (map<string, Tree>, map<string, Tree>, string) -> Option<Fault>,
    excludes: (map<string, Tree>, Tree) -> Match,
    order: set<string> -> seq<string>)

  const SUPPORTED: set<string> := {
    "$defs", "$ref", "$schema", "additionalProperties", "anyOf", "const", "default", "definitions", "description",
    "enum", "format", "items", "maxItems", "maxLength", "maxProperties", "maximum", "minItems", "minLength",
    "minProperties", "minimum", "oneOf", "pattern", "properties", "propertyNames", "required", "title", "type",
    "uniqueItems" }

  const MAX_REFERENCE_DEPTH := 128

  const MALFORMED := Some(Fault(true, "#"))

  function ChildPath(path: string, name: string): string {
    path + "/" + Escaped(name)
  }

  function Fuel(depth: nat): nat {
    if depth > MAX_REFERENCE_DEPTH then 0 else MAX_REFERENCE_DEPTH + 1 - depth
  }

  /** The first fault of a value against a schema node. A reference stands for the whole node. */
  function Validate(kw: Keywords, raw: Tree, schema: Tree, value: Tree, path: string, depth: nat): Option<Fault>
    decreases Fuel(depth), schema, 2, 0
  {
    if depth > MAX_REFERENCE_DEPTH then Some(Fault(true, path))
    else if !schema.TObj? then MALFORMED
    else if !(schema.members.Keys <= SUPPORTED) then Some(Fault(true, path))
    else if "$ref" in schema.members then
      match schema.members["$ref"]
      case TStr(reference) =>
        (match ResolveReference(raw, reference)
         case Some(target) => Validate(kw, raw, target, value, path, depth + 1)
         case None => MALFORMED)
      case _ => MALFORMED
    else
      var own := kw.check(schema.members, value, path);
      var inside := ValidateInside(kw, raw, schema, value, path, depth);
      if own.Some? then own
      else if inside.Some? then inside
      else
        var any := ValidateChoice(kw, raw, schema, "anyOf", value, path, depth);
        if any.Some? then any else ValidateChoice(kw, raw, schema, "oneOf", value, path, depth)
  }

  function ValidateInside(kw: Keywords, raw: Tree, schema: Tree, value: Tree, path: string, depth: nat): Option<Fault>
    requires schema.TObj?
    decreases Fuel(depth), schema, 1, 0
  {
    match value
    case TArr(items) =>
      var own := kw.counts(schema.members, items, path);
      if own.Some? then own
      else if "items" in schema.members then ValidateItems(kw, raw, schema, items, path, depth)
      else None
    case TObj(members) =>
      var own := kw.sizes(schema.members, members, path);
      if own.Some? then own else ValidateMembers(kw, raw, schema, members, path, depth)
    case _ => None
  }

  function ValidateItems(kw: Keywords, raw: Tree, schema: Tree, items: seq<Tree>, path: string,
      depth: nat): Option<Fault>
    requires schema.TObj? && "items" in schema.members
    decreases Fuel(depth), schema, 0, |items|
  {
    if items == [] then None
    else
      var n := |items| - 1;
      var front := ValidateItems(kw, raw, schema, items[..n], path, depth);
      if front.Some? then front
      else Validate(kw, raw, schema.members["items"], items[n], ChildPath(path, Decimal(n)), depth)
  }

  /** Every required name is a string and present. */
  function CheckRequired(members: map<string, Tree>, required: seq<Tree>, path: string): Option<Fault> {
    if required == [] then None
    else
      var front := CheckRequired(members, required[..|required| - 1], path);
      if front.Some? then front
      else
        match required[|required| - 1]
        case TStr(name) => if name in members then None else Some(Fault(false, path))
        case _ => MALFORMED
  }

  function ValidateMembers(kw: Keywords, raw: Tree, schema: Tree, members: map<string, Tree>, path: string, depth: nat)
    : Option<Fault>
    requires schema.TObj?
    decreases Fuel(depth), schema, 0, |kw.order(members.Keys)| + 1
  {
    var own := schema.members;
    if "properties" in own && !own["properties"].TObj? then MALFORMED
    else if "required" in own && !own["required"].TArr? then MALFORMED
    else
      var missing := if "required" in own then CheckRequired(members, own["required"].items, path) else None;
      var names := ValidateNames(kw, raw, schema, kw.order(members.Keys), path, depth);
      if missing.Some? then missing
      else if names.Some? then names
      else if "properties" !in own && "additionalProperties" !in own && ("oneOf" in own || "anyOf" in own) then None
      else ValidateProperties(kw, raw, schema, kw.order(members.Keys), members, path, depth)
  }

  function ValidateNames(kw: Keywords, raw: Tree, schema: Tree, names: seq<string>, path: string,
      depth: nat): Option<Fault>
    requires schema.TObj?
    decreases Fuel(depth), schema, 0, |names|
  {
    if names == [] || "propertyNames" !in schema.members then None
    else
      var n := |names| - 1;
      var front := ValidateNames(kw, raw, schema, names[..n], path, depth);
      if front.Some? then front
      else Validate(kw, raw, schema.members["propertyNames"], TStr(names[n]), ChildPath(path, names[n]), depth)
  }

  /** Each member against its declared schema, or against what is said about additional ones; said nothing,
      an additional one is a fault. */
  function ValidateProperties(kw: Keywords, raw: Tree, schema: Tree, names: seq<string>, members: map<string, Tree>,
                              path: string, depth: nat): Option<Fault>
    requires schema.TObj? && ("properties" in schema.members ==> schema.members["properties"].TObj?)
    decreases Fuel(depth), schema, 0, |names|
  {
    if names == [] then None
    else
      var n, own := |names| - 1, schema.members;
      var front, name := ValidateProperties(kw, raw, schema, names[..n], members, path, depth), names[n];
      if front.Some? then front
      else if name !in members then None
      else if "properties" in own && name in own["properties"].members then
        Validate(kw, raw, own["properties"].members[name], members[name], ChildPath(path, name), depth)
      else if "additionalProperties" !in own || own["additionalProperties"] == TBool(false) then
        Some(Fault(false, ChildPath(path, name)))
      else if own["additionalProperties"] == TBool(true) then None
      else Validate(kw, raw, own["additionalProperties"], members[name], ChildPath(path, name), depth)
  }

  /** At least one alternative must match, and for `oneOf` exactly one. */
  function ValidateChoice(kw: Keywords, raw: Tree, schema: Tree, keyword: string, value: Tree, path: string, depth: nat)
    : Option<Fault>
    requires schema.TObj?
    decreases Fuel(depth), schema, 1, 0
  {
    if keyword !in schema.members then None
    else if !schema.members[keyword].TArr? then MALFORMED
    else
      match Matching(kw, raw, schema, keyword, |schema.members[keyword].items|, value, path, depth)
      case Err(fault) => Some(fault)
      case Ok(n) => if n == 0 || (keyword == "oneOf" && n != 1) then Some(Fault(false, path)) else None
  }

  /** How many of the first `n` alternatives match; a faulty one that could have matched ends the count. */
  function Matching(kw: Keywords, raw: Tree, schema: Tree, keyword: string, n: nat, value: Tree, path: string,
      depth: nat)
    : Result<nat, Fault>
    requires schema.TObj? && keyword in schema.members && schema.members[keyword].TArr?
    requires n <= |schema.members[keyword].items|
    decreases Fuel(depth), schema, 0, n
  {
    if n == 0 then Ok(0)
    else
      var front := Matching(kw, raw, schema, keyword, n - 1, value, path, depth);
      var alternative := schema.members[keyword].items[n - 1];
      if front.Err? then front
      else
        match Validate(kw, raw, alternative, value, path, depth)
        case None => Ok(front.value + 1)
        case Some(fault) =>
          if !fault.ofSchema then front
          else
            match CouldMatch(kw, raw, alternative, value, depth)
            case Possible => Err(fault)
            case Unclear(other) => Err(other)
            case Excluded => front
  }

  function CouldMatch(kw: Keywords, raw: Tree, schema: Tree, value: Tree, depth: nat): Match
    decreases Fuel(depth)
  {
    if depth > MAX_REFERENCE_DEPTH || !schema.TObj? then Unclear(Fault(true, "#"))
    else
      var own := kw.excludes(schema.members, value);
      if !own.Possible? || "$ref" !in schema.members then own
      else
        match schema.members["$ref"]
        case TStr(reference) =>
          (match ResolveReference(raw, reference)
           case Some(target) => CouldMatch(kw, raw, target, value, depth + 1)
           case None => Unclear(Fault(true, "#")))
        case _ => Unclear(Fault(true, "#"))
  }

  /** The schema of a method's parameters, if the request part declares the method once and a reference in
      its place can be resolved. */
  function RootOf(raw: Tree, params: Tree): Option<Tree> {
    match Child(params, "$ref")
    case Some(TStr(reference)) => ResolveReference(raw, reference)
    case _ => Some(params)
  }

  /** The first fault of the parameters of a call. */
  function ValidateMethod(kw: Keywords, raw: Tree, call: string, params: map<string, Tree>): Option<Fault> {
    match Walk(raw, REQUEST)
    case None => MALFORMED
    case Some(request) =>
      var declared := ParamsOf(Branches(request), call);
      if declared == [] then Some(Fault(false, "#"))
      else if |declared| > 1 then MALFORMED
      else
        match RootOf(raw, declared[0])
        case Some(root) => Validate(kw, raw, root, TObj(params), "#", 0)
        case None => MALFORMED
  }

  // ----- references that stay in the request part -----

  /** A reference that leads under `#/schemas/request`. */
  predicate StaysInside(reference: string) {
    match ReferenceTokens(reference)
    case Some(tokens) => REQUEST <= tokens
    case None => true
  }

  /** Where a reference leads, seen from the request part. */
  function ResolveInside(request: Tree, reference: string): Option<Tree>
    requires StaysInside(reference)
  {
    match ReferenceTokens(reference)
    case Some(tokens) => Walk(request, tokens[2..])
    case None => None
  }

  /** Every reference that validation can reach from this node stays in the request part. */
  predicate Contained(request: Tree, schema: Tree, depth: nat)
    decreases Fuel(depth), schema
  {
    if depth > MAX_REFERENCE_DEPTH || !schema.TObj? then true
    else if "$ref" in schema.members then
      match schema.members["$ref"]
      case TStr(reference) =>
        StaysInside(reference) && (match ResolveInside(request, reference)
                                   case Some(target) => Contained(request, target, depth + 1)
                                   case None => true)
      case _ => true
    else
      && (forall key | key in schema.members && key in {"items", "propertyNames", "additionalProperties"} ::
            Contained(request, schema.members[key], depth))
      && ("properties" in schema.members && schema.members["properties"].TObj? ==>
            forall name <- schema.members["properties"].members ::
              Contained(request, schema.members["properties"].members[name], depth))
      && (forall key | key in schema.members && key in {"anyOf", "oneOf"} && schema.members[key].TArr? ::
            forall i | 0 <= i < |schema.members[key].items| :: Contained(request, schema.members[key].items[i], depth))
  }

  /** The parameters a method declares are described within the request part, by reference or in place. */
  predicate RootContained(request: Tree, params: Tree) {
    match Child(params, "$ref")
    case Some(TStr(reference)) =>
      StaysInside(reference) && (match ResolveInside(request, reference)
                                 case Some(root) => Contained(request, root, 0)
                                 case None => true)
    case _ => Contained(request, params, 0)
  }

  /** No reference that validation can reach from the request part leads out of it. */
  predicate SelfContained(request: Tree) {
    forall branch <- Branches(request) :: MethodOf(branch).Some? ==> RootContained(request, MethodOf(branch).value.1)
  }

  // ----- the request part decides -----

  /** `request` is the request part of both documents. */
  predicate Share(a: Tree, b: Tree, request: Tree) {
    Walk(a, REQUEST) == Some(request) == Walk(b, REQUEST)
  }

  lemma {:induction false} WalkOn(raw: Tree, front: seq<string>, rest: seq<string>)
    ensures Walk(raw, front + rest)
            == match Walk(raw, front) case Some(node) => Walk(node, rest) case None => None
  {
    if front == [] {
      assert front + rest == rest;
    } else {
      assert (front + rest)[0] == front[0] && (front + rest)[1..] == front[1..] + rest;
      match Child(raw, front[0])
      case Some(child) => WalkOn(child, front[1..], rest);
      case None =>
    }
  }

  lemma {:induction false} ResolvesInside(raw: Tree, request: Tree, reference: string)
    requires Walk(raw, REQUEST) == Some(request) && StaysInside(reference)
    ensures ResolveReference(raw, reference) == ResolveInside(request, reference)
  {
    var tokens := ReferenceTokens(reference);
    if tokens.Some? {
      WalkOn(raw, REQUEST, tokens.value[2..]);
      assert REQUEST + tokens.value[2..] == tokens.value;
    }
  }

  lemma {:induction false} SameValidation(kw: Keywords, a: Tree, b: Tree, request: Tree, schema: Tree, value: Tree,
                                          path: string, depth: nat)
    requires Share(a, b, request) && Contained(request, schema, depth)
    ensures Validate(kw, a, schema, value, path, depth) == Validate(kw, b, schema, value, path, depth)
    decreases Fuel(depth), schema, 2, 1
  {
    if depth <= MAX_REFERENCE_DEPTH && schema.TObj? {
      if "$ref" in schema.members {
        SameReference(kw, a, b, request, schema, value, path, depth);
      } else {
        SameInside(kw, a, b, request, schema, value, path, depth);
        SameChoice(kw, a, b, request, schema, "anyOf", value, path, depth);
        SameChoice(kw, a, b, request, schema, "oneOf", value, path, depth);
      }
    }
  }

  lemma {:induction false} SameReference(kw: Keywords, a: Tree, b: Tree, request: Tree, schema: Tree, value: Tree,
                                         path: string, depth: nat)
    requires Share(a, b, request) && Contained(request, schema, depth)
    requires depth <= MAX_REFERENCE_DEPTH && schema.TObj? && "$ref" in schema.members
    ensures Validate(kw, a, schema, value, path, depth) == Validate(kw, b, schema, value, path, depth)
    decreases Fuel(depth), schema, 2, 0
  {
    match schema.members["$ref"]
    case TStr(reference) =>
      ResolvesInside(a, request, reference);
      ResolvesInside(b, request, reference);
      var target := ResolveInside(request, reference);
      if target.Some? {
        SameValidation(kw, a, b, request, target.value, value, path, depth + 1);
      }
    case _ =>
  }

  predicate ContainedHere(request: Tree, schema: Tree, depth: nat) {
    schema.TObj? && depth <= MAX_REFERENCE_DEPTH && "$ref" !in schema.members && Contained(request, schema, depth)
  }

  lemma {:induction false} SameInside(kw: Keywords, a: Tree, b: Tree, request: Tree, schema: Tree, value: Tree,
                                      path: string, depth: nat)
    requires Share(a, b, request) && ContainedHere(request, schema, depth)
    ensures ValidateInside(kw, a, schema, value, path, depth) == ValidateInside(kw, b, schema, value, path, depth)
    decreases Fuel(depth), schema, 1, 0
  {
    match value
    case TArr(items) =>
      if "items" in schema.members {
        SameItems(kw, a, b, request, schema, items, path, depth);
      }
    case TObj(members) =>
      SameNames(kw, a, b, request, schema, kw.order(members.Keys), path, depth);
      if "properties" in schema.members ==> schema.members["properties"].TObj? {
        SameProperties(kw, a, b, request, schema, kw.order(members.Keys), members, path, depth);
      }
    case _ =>
  }

  lemma {:induction false} SameItems(kw: Keywords, a: Tree, b: Tree, request: Tree, schema: Tree, items: seq<Tree>,
                                     path: string, depth: nat)
    requires Share(a, b, request) && ContainedHere(request, schema, depth) && "items" in schema.members
    ensures ValidateItems(kw, a, schema, items, path, depth) == ValidateItems(kw, b, schema, items, path, depth)
    decreases Fuel(depth), schema, 0, |items|
  {
    if items != [] {
      var n := |items| - 1;
      SameItems(kw, a, b, request, schema, items[..n], path, depth);
      assert Contained(request, schema.members["items"], depth);
      SameValidation(kw, a, b, request, schema.members["items"], items[n], ChildPath(path, Decimal(n)), depth);
    }
  }

  lemma {:induction false} SameNames(kw: Keywords, a: Tree, b: Tree, request: Tree, schema: Tree, names: seq<string>,
                                     path: string, depth: nat)
    requires Share(a, b, request) && ContainedHere(request, schema, depth)
    ensures ValidateNames(kw, a, schema, names, path, depth) == ValidateNames(kw, b, schema, names, path, depth)
    decreases Fuel(depth), schema, 0, |names|
  {
    if names != [] && "propertyNames" in schema.members {
      var n := |names| - 1;
      SameNames(kw, a, b, request, schema, names[..n], path, depth);
      assert Contained(request, schema.members["propertyNames"], depth);
      SameValidation(kw, a, b, request, schema.members["propertyNames"], TStr(names[n]), ChildPath(path, names[n]),
          depth);
    }
  }

  lemma {:induction false} SameProperties(kw: Keywords, a: Tree, b: Tree, request: Tree, schema: Tree,
      names: seq<string>, members: map<string, Tree>, path: string, depth: nat)
    requires Share(a, b, request) && ContainedHere(request, schema, depth)
    requires "properties" in schema.members ==> schema.members["properties"].TObj?
    ensures ValidateProperties(kw, a, schema, names, members, path, depth)
            == ValidateProperties(kw, b, schema, names, members, path, depth)
    decreases Fuel(depth), schema, 0, |names|
  {
    if names != [] {
      var n, own := |names| - 1, schema.members;
      var name := names[n];
      SameProperties(kw, a, b, request, schema, names[..n], members, path, depth);
      if name in members {
        if "properties" in own && name in own["properties"].members {
          var declared := own["properties"].members[name];
          SameValidation(kw, a, b, request, declared, members[name], ChildPath(path, name), depth);
        } else if "additionalProperties" in own {
          assert Contained(request, own["additionalProperties"], depth);
          SameValidation(kw, a, b, request, own["additionalProperties"], members[name], ChildPath(path, name), depth);
        }
      }
    }
  }

  lemma {:induction false} SameChoice(kw: Keywords, a: Tree, b: Tree, request: Tree, schema: Tree, keyword: string,
      value: Tree, path: string, depth: nat)
    requires Share(a, b, request) && ContainedHere(request, schema, depth) && keyword in {"anyOf", "oneOf"}
    ensures ValidateChoice(kw, a, schema, keyword, value, path, depth) == ValidateChoice(kw, b, schema, keyword,
        value, path, depth)
    decreases Fuel(depth), schema, 1, 0
  {
    if keyword in schema.members && schema.members[keyword].TArr? {
      SameMatching(kw, a, b, request, schema, keyword, |schema.members[keyword].items|, value, path, depth);
    }
  }

  lemma {:induction false} SameMatching(kw: Keywords, a: Tree, b: Tree, request: Tree, schema: Tree, keyword: string,
      n: nat, value: Tree, path: string, depth: nat)
    requires Share(a, b, request) && ContainedHere(request, schema, depth) && keyword in {"anyOf", "oneOf"}
    requires keyword in schema.members && schema.members[keyword].TArr? && n <= |schema.members[keyword].items|
    ensures Matching(kw, a, schema, keyword, n, value, path, depth) == Matching(kw, b, schema, keyword, n, value,
        path, depth)
    decreases Fuel(depth), schema, 0, n
  {
    if n > 0 {
      var alternative := schema.members[keyword].items[n - 1];
      SameMatching(kw, a, b, request, schema, keyword, n - 1, value, path, depth);
      assert Contained(request, alternative, depth);
      SameValidation(kw, a, b, request, alternative, value, path, depth);
      SameMatch(kw, a, b, request, alternative, value, depth);
    }
  }

  lemma {:induction false} SameMatch(kw: Keywords, a: Tree, b: Tree, request: Tree, schema: Tree, value: Tree,
      depth: nat)
    requires Share(a, b, request) && Contained(request, schema, depth)
    ensures CouldMatch(kw, a, schema, value, depth) == CouldMatch(kw, b, schema, value, depth)
    decreases Fuel(depth)
  {
    if depth <= MAX_REFERENCE_DEPTH && schema.TObj? && "$ref" in schema.members {
      match schema.members["$ref"]
      case TStr(reference) =>
        if StaysInside(reference) {
          ResolvesInside(a, request, reference);
          ResolvesInside(b, request, reference);
          var target := ResolveInside(request, reference);
          if target.Some? {
            SameMatch(kw, a, b, request, target.value, value, depth + 1);
          }
        }
      case _ =>
    }
  }

  lemma {:induction false} DeclaredContained(request: Tree, branches: seq<Tree>, call: string)
    requires forall branch <- branches :: MethodOf(branch).Some? ==> RootContained(request, MethodOf(branch).value.1)
    ensures forall params <- ParamsOf(branches, call) :: RootContained(request, params)
  {
    if branches != [] {
      assert branches[|branches| - 1] in branches;
      DeclaredContained(request, branches[..|branches| - 1], call);
    }
  }

  /** Documents with one request part, from which no reference leads out, find the same fault with every
      call. */
  lemma {:induction false} RequestPartDecides(kw: Keywords, a: Tree, b: Tree, request: Tree, call: string,
                                              params: map<string, Tree>)
    requires Share(a, b, request) && SelfContained(request)
    ensures ValidateMethod(kw, a, call, params) == ValidateMethod(kw, b, call, params)
  {
    var declared := ParamsOf(Branches(request), call);
    DeclaredContained(request, Branches(request), call);
    if |declared| == 1 {
      assert declared[0] in declared;
      match Child(declared[0], "$ref")
      case Some(TStr(reference)) =>
        ResolvesInside(a, request, reference);
        ResolvesInside(b, request, reference);
        var root := ResolveInside(request, reference);
        if root.Some? {
          SameValidation(kw, a, b, request, root.value, TObj(params), "#", 0);
        }
      case _ =>
        SameValidation(kw, a, b, request, declared[0], TObj(params), "#", 0);
    }
  }

  // ----- references that lead out -----

  /** One step from a node and a value to the node that the value, or a part of it, is held against. */
  datatype Hop = Follow | Named(name: string) | Indexed(at: nat)

  /** What a member of this name is held against. */
  function MemberSchema(own: map<string, Tree>, name: string): Option<Tree> {
    if "properties" in own && own["properties"].TObj? && name in own["properties"].members
    then Some(own["properties"].members[name])
    else if "additionalProperties" in own && !own["additionalProperties"].TBool?
    then Some(own["additionalProperties"])
    else None
  }

  /** Validation of the value comes, through references within the request part, members and items, to a
      reference to this place. */
  predicate Leads(request: Tree, schema: Tree, value: Tree, hops: seq<Hop>, tokens: seq<string>)
    decreases |hops|
  {
    if !schema.TObj? then false
    else if "$ref" in schema.members then
      match schema.members["$ref"]
      case TStr(reference) =>
        if hops == [] then ReferenceTokens(reference) == Some(tokens)
        else
          && hops[0].Follow? && StaysInside(reference)
          && ResolveInside(request, reference).Some?
          && Leads(request, ResolveInside(request, reference).value, value, hops[1..], tokens)
      case _ => false
    else if hops == [] then false
    else
      match hops[0]
      case Follow => false
      case Named(name) =>
        && value.TObj? && name in value.members
        && MemberSchema(schema.members, name).Some?
        && Leads(request, MemberSchema(schema.members, name).value, value.members[name], hops[1..], tokens)
      case Indexed(at) =>
        && value.TArr? && at < |value.items| && "items" in schema.members
        && Leads(request, schema.members["items"], value.items[at], hops[1..], tokens)
  }

  /** No key of an object is left out. */
  ghost predicate Complete(kw: Keywords) {
    forall names: set<string>, name | name in names :: name in kw.order(names)
  }

  lemma {:induction false} ItemRefused(kw: Keywords, raw: Tree, schema: Tree, items: seq<Tree>, at: nat, path: string,
      depth: nat)
    requires schema.TObj? && "items" in schema.members && at < |items|
    requires Validate(kw, raw, schema.members["items"], items[at], ChildPath(path, Decimal(at)), depth).Some?
    ensures ValidateItems(kw, raw, schema, items, path, depth).Some?
    decreases |items|
  {
    if at < |items| - 1 {
      ItemRefused(kw, raw, schema, items[..|items| - 1], at, path, depth);
    }
  }

  lemma {:induction false} MemberRefused(kw: Keywords, raw: Tree, schema: Tree, names: seq<string>,
      members: map<string, Tree>, name: string, path: string, depth: nat)
    requires schema.TObj? && ("properties" in schema.members ==> schema.members["properties"].TObj?)
    requires name in names && name in members && MemberSchema(schema.members, name).Some?
    requires Validate(kw, raw, MemberSchema(schema.members, name).value, members[name], ChildPath(path, name),
        depth).Some?
    ensures ValidateProperties(kw, raw, schema, names, members, path, depth).Some?
    decreases |names|
  {
    var n := |names| - 1;
    if names[n] != name {
      assert names == names[..n] + [names[n]];
      MemberRefused(kw, raw, schema, names[..n], members, name, path, depth);
    }
  }

  lemma {:induction false} MembersRefused(kw: Keywords, raw: Tree, schema: Tree, members: map<string, Tree>,
      name: string, path: string, depth: nat)
    requires schema.TObj? && name in members && MemberSchema(schema.members, name).Some?
    requires ("properties" in schema.members ==> schema.members["properties"].TObj?) ==>
               ValidateProperties(kw, raw, schema, kw.order(members.Keys), members, path, depth).Some?
    ensures ValidateMembers(kw, raw, schema, members, path, depth).Some?
  {
  }

  /** A fault inside a value is a fault of the value. */
  lemma {:induction false} InsideRefused(kw: Keywords, raw: Tree, schema: Tree, value: Tree, path: string, depth: nat)
    requires schema.TObj? && "$ref" !in schema.members
    requires ValidateInside(kw, raw, schema, value, path, depth).Some?
    ensures Validate(kw, raw, schema, value, path, depth).Some?
  {
  }

  lemma {:induction false} ObjectIsRefused(kw: Keywords, raw: Tree, schema: Tree, members: map<string, Tree>,
      path: string, depth: nat)
    requires schema.TObj? && ValidateMembers(kw, raw, schema, members, path, depth).Some?
    ensures ValidateInside(kw, raw, schema, TObj(members), path, depth).Some?
  {
  }

  lemma {:induction false} MemberIsRefused(kw: Keywords, raw: Tree, schema: Tree, members: map<string, Tree>,
      name: string, path: string, depth: nat)
    requires Complete(kw) && schema.TObj? && "$ref" !in schema.members
    requires name in members && MemberSchema(schema.members, name).Some?
    requires Validate(kw, raw, MemberSchema(schema.members, name).value, members[name], ChildPath(path, name),
                 depth).Some?
    ensures Validate(kw, raw, schema, TObj(members), path, depth).Some?
  {
    if "properties" in schema.members ==> schema.members["properties"].TObj? {
      assert name in members.Keys;
      MemberRefused(kw, raw, schema, kw.order(members.Keys), members, name, path, depth);
    }
    MembersRefused(kw, raw, schema, members, name, path, depth);
    ObjectIsRefused(kw, raw, schema, members, path, depth);
    InsideRefused(kw, raw, schema, TObj(members), path, depth);
  }

  lemma {:induction false} ItemIsRefused(kw: Keywords, raw: Tree, schema: Tree, value: Tree, at: nat, path: string,
      depth: nat)
    requires schema.TObj? && "$ref" !in schema.members && "items" in schema.members
    requires value.TArr? && at < |value.items|
    requires Validate(kw, raw, schema.members["items"], value.items[at], ChildPath(path, Decimal(at)), depth).Some?
    ensures Validate(kw, raw, schema, value, path, depth).Some?
  {
    ItemRefused(kw, raw, schema, value.items, at, path, depth);
    InsideRefused(kw, raw, schema, value, path, depth);
  }

  lemma {:induction false} ReferenceIsRefused(kw: Keywords, raw: Tree, schema: Tree, reference: string, value: Tree,
      path: string, depth: nat)
    requires schema.TObj? && "$ref" in schema.members && schema.members["$ref"] == TStr(reference)
    requires ResolveReference(raw, reference).Some?
    requires depth < MAX_REFERENCE_DEPTH + 1 ==>
               Validate(kw, raw, ResolveReference(raw, reference).value, value, path, depth + 1).Some?
    ensures Validate(kw, raw, schema, value, path, depth).Some?
  {
  }

  /** The node at the place refuses every value. */
  ghost predicate RefusesAt(kw: Keywords, raw: Tree, tokens: seq<string>) {
    && Walk(raw, tokens).Some?
    && forall value, path, depth: nat :: Validate(kw, raw, Walk(raw, tokens).value, value, path, depth).Some?
  }

  /** Where a reference on the way leads in the document. */
  lemma {:induction false} LedTo(raw: Tree, request: Tree, schema: Tree, reference: string, value: Tree, hops: seq<Hop>,
      tokens: seq<string>)
    requires Walk(raw, REQUEST) == Some(request) && Leads(request, schema, value, hops, tokens)
    requires "$ref" in schema.members && schema.members["$ref"] == TStr(reference)
    ensures hops == [] ==> ResolveReference(raw, reference) == Walk(raw, tokens)
    ensures hops != [] ==>
              && ResolveReference(raw, reference).Some?
              && Leads(request, ResolveReference(raw, reference).value, value, hops[1..], tokens)
  {
    if hops != [] {
      ResolvesInside(raw, request, reference);
    }
  }

  /** A value that validation leads to such a place is refused. */
  lemma {:induction false} LedIsRefused(kw: Keywords, raw: Tree, request: Tree, schema: Tree, value: Tree,
      hops: seq<Hop>, tokens: seq<string>, path: string, depth: nat)
    requires Complete(kw) && Walk(raw, REQUEST) == Some(request) && RefusesAt(kw, raw, tokens)
    requires Leads(request, schema, value, hops, tokens)
    ensures Validate(kw, raw, schema, value, path, depth).Some?
    decreases |hops|
  {
    if "$ref" in schema.members {
      match schema.members["$ref"]
      case TStr(reference) =>
        LedTo(raw, request, schema, reference, value, hops, tokens);
        if hops != [] {
          var target := ResolveReference(raw, reference).value;
          LedIsRefused(kw, raw, request, target, value, hops[1..], tokens, path, depth + 1);
        }
        ReferenceIsRefused(kw, raw, schema, reference, value, path, depth);
    } else {
      match hops[0]
      case Named(name) =>
        var child := MemberSchema(schema.members, name).value;
        LedIsRefused(kw, raw, request, child, value.members[name], hops[1..], tokens, ChildPath(path, name), depth);
        MemberIsRefused(kw, raw, schema, value.members, name, path, depth);
      case Indexed(at) =>
        var child, below := schema.members["items"], ChildPath(path, Decimal(at));
        LedIsRefused(kw, raw, request, child, value.items[at], hops[1..], tokens, below, depth);
        ItemIsRefused(kw, raw, schema, value, at, path, depth);
    }
  }

  /** The method is declared once, and validation of these parameters comes to a reference to this place. */
  predicate LeadsOut(request: Tree, call: string, params: map<string, Tree>, hops: seq<Hop>, tokens: seq<string>) {
    var declared := ParamsOf(Branches(request), call);
    |declared| == 1 && Leads(request, declared[0], TObj(params), hops, tokens)
  }

  lemma {:induction false} RootOfNode(raw: Tree, schema: Tree)
    requires schema.TObj?
    ensures RootOf(raw, schema)
            == if "$ref" in schema.members && schema.members["$ref"].TStr?
               then ResolveReference(raw, ReferenceText(schema.members["$ref"])) else Some(schema)
  {
  }

  function ReferenceText(node: Tree): string
    requires node.TStr?
  {
    match node case TStr(reference) => reference
  }

  lemma {:induction false} RootIsRefused(kw: Keywords, raw: Tree, request: Tree, schema: Tree, value: Tree,
      hops: seq<Hop>, tokens: seq<string>)
    requires Complete(kw) && Walk(raw, REQUEST) == Some(request) && RefusesAt(kw, raw, tokens)
    requires Leads(request, schema, value, hops, tokens)
    ensures RootOf(raw, schema).Some? && Validate(kw, raw, RootOf(raw, schema).value, value, "#", 0).Some?
  {
    RootOfNode(raw, schema);
    if "$ref" !in schema.members {
      LedIsRefused(kw, raw, request, schema, value, hops, tokens, "#", 0);
    } else {
      var reference := ReferenceText(schema.members["$ref"]);
      LedTo(raw, request, schema, reference, value, hops, tokens);
      var root := ResolveReference(raw, reference).value;
      if hops != [] {
        LedIsRefused(kw, raw, request, root, value, hops[1..], tokens, "#", 0);
      }
      assert Validate(kw, raw, root, value, "#", 0).Some?;
    }
  }

  lemma {:induction false} CallIsRefused(kw: Keywords, raw: Tree, request: Tree, call: string,
      params: map<string, Tree>, hops: seq<Hop>, tokens: seq<string>)
    requires Complete(kw) && Walk(raw, REQUEST) == Some(request) && RefusesAt(kw, raw, tokens)
    requires LeadsOut(request, call, params, hops, tokens)
    ensures ValidateMethod(kw, raw, call, params).Some?
  {
    RootIsRefused(kw, raw, request, ParamsOf(Branches(request), call)[0], TObj(params), hops, tokens);
  }
}
