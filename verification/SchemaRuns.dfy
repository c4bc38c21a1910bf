/** The outcome cache with the real schema documents behind it: it is sound for documents whose references stay
in the request part, and unsound where an accepted action comes to a reference that leads out of it. */
module SchemaRuns {
  import opened Wrappers
  import opened Json
  import opened WireFields
  import opened NativeValidation
  import opened SchemaCache
  import opened ComparisonCache
  import opened ComparisonRuns
  import opened SchemaDocument

  /** The place of the first fault a document finds with a call. */
  function Judge(kw: Keywords): (Json, string, map<string, Tree>) -> Option<string> {
    (document, call, params) =>
      var fault := ValidateMethod(kw, Meaning(document), call, params);
      if fault.Some? then Some(fault.value.path) else None
  }

  /** What a caller can check of a document before it relies on the cache: it parses, and no reference that
      validation can reach from its request part leads out of it. */
  predicate StaysInRequest(document: Json) {
    Parses(Meaning(document)) && SelfContained(Meaning(RequestOf(document)))
  }

  lemma {:induction false} ChildIsMember(document: Json, key: string)
    requires document.Obj?
    ensures Child(Meaning(document), key)
            == match Get(document, key) case Some(value) => Some(Meaning(value)) case None => None
  {
  }

  lemma {:induction false} RequestIsWalked(document: Json)
    requires Walk(Meaning(document), REQUEST).Some? && document.Obj?
    requires Get(document, "schemas").Some? ==> Get(document, "schemas").value.Obj?
    ensures Walk(Meaning(document), REQUEST) == Some(Meaning(RequestOf(document)))
  {
    ChildIsMember(document, "schemas");
    var schemas := Get(document, "schemas");
    assert REQUEST[1..] == ["request"] && ["request"][1..] == [];
    if schemas.Some? {
      ChildIsMember(schemas.value, "request");
      assert Walk(Meaning(schemas.value), ["request"]) == Child(Meaning(schemas.value), "request") by {
        match Child(Meaning(schemas.value), "request")
        case Some(node) => assert Walk(node, []) == Some(node);
        case None =>
      }
    }
  }

  /** A path of keys leads through objects only. */
  lemma {:induction false} ParsedRequest(document: Json)
    requires Walk(Meaning(document), REQUEST).Some?
    ensures Walk(Meaning(document), REQUEST) == Some(Meaning(RequestOf(document)))
  {
    NotAnIndex();
    assert REQUEST[0] == "schemas" && REQUEST[1..] == ["request"] && ["request"][0] == "request";
    assert document.Obj?;
    ChildIsMember(document, "schemas");
    assert Get(document, "schemas").value.Obj?;
    RequestIsWalked(document);
  }

  lemma {:induction false} NotAnIndex()
    ensures IndexOf("schemas").None? && IndexOf("request").None?
  {
    assert "schemas"[6] == 's' && "request"[6] == 't';
  }

  /** Over every run of batches and documents whose references stay in the request part, the cached verdict
      agrees with validation afresh. */
  lemma {:induction false} ContainedDocumentsAgree(kw: Keywords, rules: Rules, sha256: Tree -> string)
    requires IdealDigest(sha256) && rules.judge == Judge(kw)
    ensures AlwaysAgrees(rules, StaysInRequest, sha256)
  {
    forall d: Json, e: Json, c: Candidate |
      StaysInRequest(d) && StaysInRequest(e) && Meaning(RequestOf(d)) == Meaning(RequestOf(e))
          && c.typeName != CONFIGURED_COMMAND
      ensures DirectFault(rules, d, c).None? <==> DirectFault(rules, e, c).None?
    {
      SameFault(kw, rules, d, e, c);
    }
    AgreesExactly(rules, StaysInRequest, sha256);
  }

  lemma {:induction false} SameFault(kw: Keywords, rules: Rules, d: Json, e: Json, c: Candidate)
    requires rules.judge == Judge(kw)
    requires StaysInRequest(d) && StaysInRequest(e) && Meaning(RequestOf(d)) == Meaning(RequestOf(e))
    ensures DirectFault(rules, d, c) == DirectFault(rules, e, c)
  {
    ParsedRequest(d);
    ParsedRequest(e);
    var bundled := rules.native(c.typeName);
    if bundled.Some? && CheckedFields(c.fields).Ok? {
      RequestPartDecides(kw, Meaning(d), Meaning(e), Meaning(RequestOf(d)), bundled.value.name,
                         Params(CheckedFields(c.fields).value));
    }
  }

  // ----- a reference that leads out -----

  /** A place in a document that parsing puts nothing at. */
  predicate IsFree(tokens: seq<string>) {
    && tokens != [] && tokens[0] != "protocol" && tokens[0] != "schema_version"
    && (tokens[0] == "schemas" ==> |tokens| > 1 && tokens[1] != "request")
  }

  function Nested(tokens: seq<string>, target: Json): Json {
    if tokens == [] then target else Obj([Member(tokens[0], Nested(tokens[1..], target))])
  }

  /** A document with this request part, and the target at the place the tokens lead to. */
  function WithTarget(request: Json, tokens: seq<string>, target: Json): Json
    requires IsFree(tokens)
  {
    var schemas := if tokens[0] == "schemas"
                   then Obj([Member("request", request), Member(tokens[1], Nested(tokens[2..], target))])
                   else Obj([Member("request", request)]);
    Obj([Member("protocol", Num(Integer(1))), Member("schema_version", Num(Integer(1))), Member("schemas", schemas)]
        + if tokens[0] == "schemas" then [] else [Member(tokens[0], Nested(tokens[1..], target))])
  }

  lemma {:induction false} NestedLeads(tokens: seq<string>, target: Json)
    ensures Walk(Meaning(Nested(tokens, target)), tokens) == Some(Meaning(target))
  {
    if tokens != [] {
      var nested := Nested(tokens, target);
      FindAt(nested.members, 0);
      ChildIsMember(nested, tokens[0]);
      NestedLeads(tokens[1..], target);
    }
  }

  lemma {:induction false} TargetMembers(request: Json, tokens: seq<string>, target: Json)
    requires IsFree(tokens)
    ensures var document := WithTarget(request, tokens, target);
            && Get(document, "protocol") == Some(Num(Integer(1)))
                && Get(document, "schema_version") == Some(Num(Integer(1)))
            && Get(document, "schemas") == Some(document.members[2].value)
            && (tokens[0] != "schemas" ==> Get(document, tokens[0]) == Some(Nested(tokens[1..], target)))
  {
    var ms := WithTarget(request, tokens, target).members;
    FindAt(ms, 0);
    FindAt(ms, 1);
    FindAt(ms, 2);
    if tokens[0] != "schemas" {
      FindAt(ms, 3);
    }
  }

  lemma {:induction false} TargetSchemas(request: Json, tokens: seq<string>, target: Json)
    requires IsFree(tokens)
    ensures var schemas := WithTarget(request, tokens, target).members[2].value;
            && Get(schemas, "request") == Some(request)
            && (tokens[0] == "schemas" ==> Get(schemas, tokens[1]) == Some(Nested(tokens[2..], target)))
  {
    var ms := WithTarget(request, tokens, target).members[2].value.members;
    FindAt(ms, 0);
    if tokens[0] == "schemas" {
      FindAt(ms, 1);
    }
  }

  /** The document has the request part, parses if that has alternatives, and leads to the target. */
  lemma {:induction false} TargetIsThere(request: Json, tokens: seq<string>, target: Json)
    requires IsFree(tokens)
    ensures var document := WithTarget(request, tokens, target);
            && RequestOf(document) == request
            && Walk(Meaning(document), REQUEST) == Some(Meaning(request))
            && Walk(Meaning(document), tokens) == Some(Meaning(target))
  {
    var document := WithTarget(request, tokens, target);
    TargetMembers(request, tokens, target);
    TargetSchemas(request, tokens, target);
    RequestStands(document, request);
    TargetStands(document, request, tokens, target);
  }

  lemma {:induction false} RequestStands(document: Json, request: Json)
    requires document.Obj? && Get(document, "schemas").Some? && Get(document, "schemas").value.Obj?
    requires Get(Get(document, "schemas").value, "request") == Some(request)
    ensures RequestOf(document) == request && Walk(Meaning(document), REQUEST) == Some(Meaning(request))
  {
    var schemas := Get(document, "schemas").value;
    ChildIsMember(document, "schemas");
    ChildIsMember(schemas, "request");
    assert REQUEST[0] == "schemas" && REQUEST[1..] == ["request"] && ["request"][1..] == [];
    assert Walk(Meaning(schemas), ["request"]) == Walk(Meaning(request), []);
  }

  lemma {:induction false} TargetStands(document: Json, request: Json, tokens: seq<string>, target: Json)
    requires IsFree(tokens) && document == WithTarget(request, tokens, target)
    ensures Walk(Meaning(document), tokens) == Some(Meaning(target))
  {
    TargetMembers(request, tokens, target);
    TargetSchemas(request, tokens, target);
    ChildIsMember(document, tokens[0]);
    if tokens[0] == "schemas" {
      var schemas := document.members[2].value;
      ChildIsMember(schemas, tokens[1]);
      NestedLeads(tokens[2..], target);
      assert tokens[1..][0] == tokens[1] && tokens[1..][1..] == tokens[2..];
      assert Walk(Meaning(schemas), tokens[1..]) == Some(Meaning(target));
    } else {
      NestedLeads(tokens[1..], target);
    }
  }

  /** A node with an empty list of alternatives, none of which a value can match. */
  const REFUSING := Obj([Member("anyOf", Arr([]))])

  lemma {:induction false} RefusingRefuses(kw: Keywords, raw: Tree, value: Tree, path: string, depth: nat)
    ensures Validate(kw, raw, Meaning(REFUSING), value, path, depth).Some?
  {
    var ms := [Member("anyOf", Arr([]))];
    assert ms[..0] == [] && MembersMeaning([]) == map[];
    assert Meaning(ms[0].value) == TArr([]);
    assert MembersMeaning(ms) == map["anyOf" := TArr([])];
    var schema := TObj(map["anyOf" := TArr([])]);
    assert ValidateChoice(kw, raw, schema, "anyOf", value, path, depth).Some?;
  }

  /** The document with this request part that refuses whatever comes to the place. */
  function RefusingAt(request: Json, tokens: seq<string>): Json
    requires IsFree(tokens)
  {
    WithTarget(request, tokens, REFUSING)
  }

  /** Validation of the action comes to a reference to a free place. */
  predicate ActionLeadsOut(rules: Rules, request: Tree, c: Candidate, hops: seq<Hop>, tokens: seq<string>) {
    && c.typeName != CONFIGURED_COMMAND && rules.native(c.typeName).Some? && CheckedFields(c.fields).Ok?
    && IsFree(tokens)
    && LeadsOut(request, rules.native(c.typeName).value.name, Params(CheckedFields(c.fields).value), hops, tokens)
  }

  lemma {:induction false} RefusingIsThere(kw: Keywords, request: Json, tokens: seq<string>)
    requires IsFree(tokens)
    ensures RefusesAt(kw, Meaning(RefusingAt(request, tokens)), tokens)
    ensures Walk(Meaning(RefusingAt(request, tokens)), REQUEST) == Some(Meaning(request))
  {
    var raw := Meaning(RefusingAt(request, tokens));
    TargetIsThere(request, tokens, REFUSING);
    forall value, path, depth: nat
      ensures Validate(kw, raw, Walk(raw, tokens).value, value, path, depth).Some?
    {
      RefusingRefuses(kw, raw, value, path, depth);
    }
  }

  lemma {:induction false} RefusedOutside(kw: Keywords, rules: Rules, request: Json, c: Candidate, hops: seq<Hop>,
      tokens: seq<string>)
    requires Complete(kw) && rules.judge == Judge(kw) && ActionLeadsOut(rules, Meaning(request), c, hops, tokens)
    ensures FaultOf(rules, RefusingAt(request, tokens), c).Some?
  {
    var call, params := rules.native(c.typeName).value.name, Params(CheckedFields(c.fields).value);
    RefusingIsThere(kw, request, tokens);
    CallIsRefused(kw, Meaning(RefusingAt(request, tokens)), Meaning(request), call, params, hops, tokens);
    assert rules.judge(RefusingAt(request, tokens), call, params).Some?;
  }

  lemma {:induction false} TargetParses(request: Json, tokens: seq<string>, target: Json)
    requires IsFree(tokens)
    requires Child(Meaning(request), "oneOf").Some? && Child(Meaning(request), "oneOf").value.TArr?
    ensures Parses(Meaning(WithTarget(request, tokens, target)))
  {
    var document := WithTarget(request, tokens, target);
    TargetMembers(request, tokens, target);
    TargetIsThere(request, tokens, target);
    ChildIsMember(document, "protocol");
    ChildIsMember(document, "schema_version");
  }

  /** The digest of the request part does not see what such a reference finds. Take any parsing document and any
      action it accepts whose validation comes, through references, members and items, to a reference to a place
      outside the request part. Another parsing document with the same request part refuses the action, and the
      cache accepts it once the first document has been asked about it. */
  lemma {:induction false} OutsideReferenceGoesStale(kw: Keywords, rules: Rules, sha256: Tree -> string, d: Json,
      c: Candidate, hops: seq<Hop>, tokens: seq<string>)
    requires Complete(kw) && rules.judge == Judge(kw) && Parses(Meaning(d)) && FaultOf(rules, d, c).None?
    requires ActionLeadsOut(rules, Meaning(RequestOf(d)), c, hops, tokens)
    ensures var refusing := RefusingAt(RequestOf(d), tokens);
            && Parses(Meaning(refusing)) && RequestOf(refusing) == RequestOf(d)
            && Afresh(rules, refusing, [c]).Refused?
            && Cached(rules, sha256, refusing, [c], Synced,
                   EntriesAfter(rules, sha256, [Ask(d, [c], Synced)])).verdict.Accepted?
  {
    var refusing := RefusingAt(RequestOf(d), tokens);
    ParsedRequest(d);
    TargetParses(RequestOf(d), tokens, REFUSING);
    TargetIsThere(RequestOf(d), tokens, REFUSING);
    RefusedOutside(kw, rules, RequestOf(d), c, hops, tokens);
    StaleAnswer(rules, sha256, d, refusing, c);
  }

  // ----- the exact condition -----

  function HasRequest(request: Json): Json -> bool {
    document => Parses(Meaning(document)) && RequestOf(document) == request
  }

  /** Some document with the request part accepts an action whose validation leads out of it. */
  ghost predicate SomeActionLeadsOut(rules: Rules, request: Json) {
    exists d, c, hops, tokens ::
      && HasRequest(request)(d) && FaultOf(rules, d, c).None?
      && ActionLeadsOut(rules, Meaning(request), c, hops, tokens)
  }

  lemma {:induction false} OneDisagreement(rules: Rules, admits: Json -> bool, sha256: Tree -> string, d: Json, e: Json,
      c: Candidate)
    requires admits(d) && admits(e)
    requires Cached(rules, sha256, e, [c], Synced, EntriesAfter(rules, sha256, [Ask(d, [c], Synced)])).verdict.Accepted?
    requires Afresh(rules, e, [c]).Refused?
    ensures !AlwaysAgrees(rules, admits, sha256)
  {
    var asks := [Ask(d, [c], Synced)];
    assert AllAdmitted(admits, asks);
    assert !Agree(Cached(rules, sha256, e, [c], Synced, EntriesAfter(rules, sha256, asks)).verdict,
        Afresh(rules, e, [c]));
  }

  lemma {:induction false} BothHaveRequest(d: Json, e: Json)
    requires Parses(Meaning(d)) && Parses(Meaning(e)) && RequestOf(d) == RequestOf(e)
    ensures HasRequest(RequestOf(d))(d) && HasRequest(RequestOf(d))(e)
  {
  }

  lemma {:induction false} SelfContainedAgrees(kw: Keywords, rules: Rules, sha256: Tree -> string, request: Json)
    requires IdealDigest(sha256) && rules.judge == Judge(kw) && SelfContained(Meaning(request))
    ensures AlwaysAgrees(rules, HasRequest(request), sha256)
  {
    forall d: Json, e: Json, c: Candidate |
      HasRequest(request)(d) && HasRequest(request)(e)
      ensures DirectFault(rules, d, c).None? <==> DirectFault(rules, e, c).None?
    {
      SameFault(kw, rules, d, e, c);
    }
    AgreesExactly(rules, HasRequest(request), sha256);
  }

  lemma {:induction false} LeadingOutDisagrees(kw: Keywords, rules: Rules, sha256: Tree -> string, d: Json,
      c: Candidate, hops: seq<Hop>, tokens: seq<string>)
    requires Complete(kw) && rules.judge == Judge(kw) && Parses(Meaning(d)) && FaultOf(rules, d, c).None?
    requires ActionLeadsOut(rules, Meaning(RequestOf(d)), c, hops, tokens)
    ensures !AlwaysAgrees(rules, HasRequest(RequestOf(d)), sha256)
  {
    OutsideReferenceGoesStale(kw, rules, sha256, d, c, hops, tokens);
    BothHaveRequest(d, RefusingAt(RequestOf(d), tokens));
    OneDisagreement(rules, HasRequest(RequestOf(d)), sha256, d, RefusingAt(RequestOf(d), tokens), c);
  }

  /** Take any request part that is self-contained, or that the validation of some accepted action leaves. Over
      all runs of documents with this request part, whatever else they hold, the cache agrees with validation
      afresh if and only if the request part is self-contained. */
  lemma {:induction false} AgreesOnRequestExactly(kw: Keywords, rules: Rules, sha256: Tree -> string, request: Json)
    requires IdealDigest(sha256) && Complete(kw) && rules.judge == Judge(kw)
    requires SelfContained(Meaning(request)) || SomeActionLeadsOut(rules, request)
    ensures AlwaysAgrees(rules, HasRequest(request), sha256) <==> SelfContained(Meaning(request))
  {
    if SelfContained(Meaning(request)) {
      SelfContainedAgrees(kw, rules, sha256, request);
    } else {
      var d, c, hops, tokens :|
        && HasRequest(request)(d) && FaultOf(rules, d, c).None?
        && ActionLeadsOut(rules, Meaning(request), c, hops, tokens);
      LeadingOutDisagrees(kw, rules, sha256, d, c, hops, tokens);
    }
  }

  // ----- such request parts -----

  function Referring(reference: string): Json {
    Obj([Member("$ref", Str(reference))])
  }

  /** A node that declares one member and describes it elsewhere. */
  function OneMember(name: string, reference: string): Json {
    Obj([Member("properties", Obj([Member(name, Referring(reference))]))])
  }

  function MethodBranch(call: string, params: Json): Json {
    Obj([Member("properties",
                Obj([Member("method", Obj([Member("const", Str(call))])), Member("params", params)]))])
  }

  lemma {:induction false} BranchDeclares(call: string, params: Json)
    ensures MethodOf(Meaning(MethodBranch(call, params))) == Some((call, Meaning(params)))
  {
    var branch := MethodBranch(call, params);
    var properties := branch.members[0].value;
    var named := properties.members[0].value;
    FindAt(branch.members, 0);
    ChildIsMember(branch, "properties");
    FindAt(properties.members, 0);
    FindAt(properties.members, 1);
    ChildIsMember(properties, "method");
    ChildIsMember(properties, "params");
    FindAt(named.members, 0);
    ChildIsMember(named, "const");
  }

  lemma {:induction false} OneBranch(request: Json, branch: Json)
    requires request == Obj([Member("oneOf", Arr([branch]))])
    ensures Branches(Meaning(request)) == [Meaning(branch)]
  {
    FindAt(request.members, 0);
    ChildIsMember(request, "oneOf");
    assert [branch][..0] == [] && ItemsMeaning([branch]) == [Meaning(branch)];
  }

  lemma {:induction false} OneDeclared(branch: Tree, call: string, params: Tree)
    requires MethodOf(branch) == Some((call, params))
    ensures ParamsOf([branch], call) == [params]
  {
    assert [branch][..0] == [];
  }

  lemma {:induction false} OneMethod(request: Json, call: string, params: Json)
    requires request == Obj([Member("oneOf", Arr([MethodBranch(call, params)]))])
    ensures ParamsOf(Branches(Meaning(request)), call) == [Meaning(params)]
  {
    OneBranch(request, MethodBranch(call, params));
    BranchDeclares(call, params);
    OneDeclared(Meaning(MethodBranch(call, params)), call, Meaning(params));
  }

  lemma {:induction false} ReferringLeads(request: Tree, tokens: seq<string>, value: Tree)
    ensures Leads(request, Meaning(Referring("#" + PointerTo(tokens))), value, [], tokens)
  {
    var reference := "#" + PointerTo(tokens);
    var node := Referring(reference);
    FindAt(node.members, 0);
    ChildIsMember(node, "$ref");
    TokensBack(tokens);
    assert reference[1..] == PointerTo(tokens);
  }

  /** A request part with one method, whose parameters are described at a free place, such as
      `#/definitions/X`. */
  lemma {:induction false} DefinitionsLeadOut(request: Json, call: string, params: map<string, Tree>,
      tokens: seq<string>)
    requires request == Obj([Member("oneOf", Arr([MethodBranch(call, Referring("#" + PointerTo(tokens)))]))])
    ensures LeadsOut(Meaning(request), call, params, [], tokens)
  {
    OneMethod(request, call, Referring("#" + PointerTo(tokens)));
    ReferringLeads(Meaning(request), tokens, TObj(params));
  }

  /** One whose method declares a member that is described there: every call with that member leads out. */
  lemma {:induction false} MemberLeadsOut(request: Json, call: string, name: string, params: map<string, Tree>,
      tokens: seq<string>)
    requires request == Obj([Member("oneOf", Arr([MethodBranch(call, OneMember(name, "#" + PointerTo(tokens)))]))])
    requires name in params
    ensures LeadsOut(Meaning(request), call, params, [Named(name)], tokens)
  {
    var reference := "#" + PointerTo(tokens);
    var node := OneMember(name, reference);
    var properties := node.members[0].value;
    OneMethod(request, call, node);
    FindAt(node.members, 0);
    ChildIsMember(node, "properties");
    FindAt(properties.members, 0);
    ChildIsMember(properties, name);
    assert Find(node.members, "$ref") == None;
    ChildIsMember(node, "$ref");
    ReferringLeads(Meaning(request), tokens, params[name]);
    assert MemberSchema(Meaning(node).members, name) == Some(Meaning(Referring(reference)));
    assert [Named(name)][1..] == [];
  }

  /** A node without keywords constrains nothing. */
  ghost predicate Neutral(kw: Keywords) {
    && (forall value, path :: kw.check(map[], value, path).None?)
    && (forall members, path :: kw.sizes(map[], members, path).None?)
  }

  const LAX := Obj([])

  lemma {:induction false} NoMembersNoFault(kw: Keywords, raw: Tree, schema: Tree, names: seq<string>, path: string,
      depth: nat)
    requires schema.TObj? && ("properties" in schema.members ==> schema.members["properties"].TObj?)
    ensures ValidateProperties(kw, raw, schema, names, map[], path, depth) == None
  {
    if names != [] {
      NoMembersNoFault(kw, raw, schema, names[..|names| - 1], path, depth);
    }
  }

  lemma {:induction false} LaxAccepts(kw: Keywords, raw: Tree)
    requires Neutral(kw)
    ensures Validate(kw, raw, Meaning(LAX), TObj(map[]), "#", 0) == None
  {
    var none: map<string, Tree> := map[];
    var schema := Meaning(LAX);
    assert schema == TObj(none) && schema.members.Keys == {};
    NoMembersNoFault(kw, raw, schema, kw.order(none.Keys), "#", 0);
    assert ValidateNames(kw, raw, schema, kw.order(none.Keys), "#", 0) == None;
    assert ValidateMembers(kw, raw, schema, none, "#", 0) == None;
  }

  lemma {:induction false} EmptyCallAccepted(kw: Keywords, request: Json, call: string, tokens: seq<string>)
    requires Neutral(kw) && IsFree(tokens) && LeadsOut(Meaning(request), call, map[], [], tokens)
    ensures ValidateMethod(kw, Meaning(WithTarget(request, tokens, LAX)), call, map[]) == None
  {
    var raw := Meaning(WithTarget(request, tokens, LAX));
    TargetIsThere(request, tokens, LAX);
    RootOfNode(raw, ParamsOf(Branches(Meaning(request)), call)[0]);
    LaxAccepts(kw, raw);
  }

  lemma {:induction false} LeadingRequest(request: Json, call: string, params: map<string, Tree>, hops: seq<Hop>,
      tokens: seq<string>)
    requires LeadsOut(Meaning(request), call, params, hops, tokens)
    ensures Child(Meaning(request), "oneOf").Some? && Child(Meaning(request), "oneOf").value.TArr?
  {
  }

  /** Where the parameters themselves are described at a free place, the action without fields leads out and is
      accepted by the document that asks nothing there. */
  lemma {:induction false} EmptyActionLeadsOut(kw: Keywords, rules: Rules, request: Json, typeName: string,
      tokens: seq<string>)
    requires Neutral(kw) && rules.judge == Judge(kw) && typeName != CONFIGURED_COMMAND && IsFree(tokens)
    requires rules.native(typeName).Some? && rules.native(typeName).value.unary
    requires LeadsOut(Meaning(request), rules.native(typeName).value.name, map[], [], tokens)
    ensures SomeActionLeadsOut(rules, request)
  {
    var c, lax, call := Candidate(typeName, []), WithTarget(request, tokens, LAX), rules.native(typeName).value.name;
    LeadingRequest(request, call, map[], [], tokens);
    TargetIsThere(request, tokens, LAX);
    TargetParses(request, tokens, LAX);
    EmptyCallAccepted(kw, request, call, tokens);
    assert CheckedFields([]) == Ok([]) && Params([]) == map[];
    assert rules.judge(lax, call, map[]).None?;
    assert HasRequest(request)(lax) && FaultOf(rules, lax, c).None?;
    assert ActionLeadsOut(rules, Meaning(request), c, [], tokens);
  }
}
