/** Validating a batch of configured native actions through the cache of earlier outcomes, and when that is the
same as validating it afresh. */
module ComparisonCache {
  import opened Wrappers
  import opened Json
  import opened WireFields
  import opened NativeValidation
  import opened SchemaCache

  const CONTEXT_TYPE_REGISTRY_VERSION := 1

  // ----- the key of a batch -----

  datatype ComparisonKey = ComparisonKey(bundled: string, runtime: string, requests: string)

  function ContextTypeName(t: ContextType): string {
    match t
    case HostKind => "HostKind" case ServerId => "ServerId" case ClientId => "ClientId" case SessionId => "SessionId"
    case WorkspaceId => "WorkspaceId" case TabId => "TabId" case UnsignedInteger => "UnsignedInteger"
    case PaneId => "PaneId" case PaneType => "PaneType" case AbsolutePath => "AbsolutePath" case String => "String"
    case InvocationSource => "InvocationSource" case WorktreeId => "WorktreeId" case AgentId => "AgentId"
    case Url => "Url" case LinkHandlerId => "LinkHandlerId"
  }

  /** The source value, with the path of a context reference kept. */
  function CanonicalValue(value: ConfigValue): Tree
    decreases value
  {
    match value
    case NullValue => TNull
    case BooleanValue(b) => TBool(b)
    case IntegerValue(n) => TNum(Integer(n))
    case FloatValue(x) => if x.Finite? then TNum(Float(x.bits)) else TNull
    case StringValue(s) => TStr(s)
    case ContextValue(path, expected) => TObj(map["$context" := TStr(path), "type" := TStr(ContextTypeName(expected))])
    case SequenceValue(items) => TArr(CanonicalValues(items))
    case MappingValue(fields) => TObj(CanonicalMembers(fields))
  }

  function CanonicalValues(items: seq<ConfigValue>): seq<Tree>
    decreases items
  {
    if items == [] then [] else CanonicalValues(items[..|items| - 1]) + [CanonicalValue(items[|items| - 1])]
  }

  function CanonicalMembers(fields: seq<Field>): map<string, Tree>
    decreases fields
  {
    if fields == [] then map[]
    else
      var last := fields[|fields| - 1];
      CanonicalMembers(fields[..|fields| - 1])[WireName(last.name) := CanonicalValue(last.value)]
  }

  function CanonicalFields(fields: seq<Field>): seq<Tree> {
    seq(|fields|, i requires 0 <= i < |fields| =>
      TObj(map["name" := TStr(fields[i].name), "value" := CanonicalValue(fields[i].value)]))
  }

  function WireFieldTree(f: WireField): Tree {
    TObj(map["name" := TStr(f.name), "wire" := TStr(f.wire), "value" := f.value])
  }

  function WireFieldTrees(checked: seq<WireField>): (trees: seq<Tree>)
    ensures |trees| == |checked|
    ensures forall i | 0 <= i < |checked| :: trees[i] == WireFieldTree(checked[i])
  {
    seq(|checked|, i requires 0 <= i < |checked| => WireFieldTree(checked[i]))
  }

  function StructuralTree(typeName: string, checked: seq<WireField>): Tree {
    TObj(map["type" := TStr(typeName), "fields" := TArr(WireFieldTrees(checked))])
  }

  function RequestTree(c: Candidate): Tree
    requires CheckedFields(c.fields).Ok?
  {
    TObj(map["structural" := StructuralTree(c.typeName, CheckedFields(c.fields).value),
             "canonical_fields" := TArr(CanonicalFields(c.fields))])
  }

  predicate WellSpelt(batch: seq<Candidate>) {
    forall c <- batch :: CheckedFields(c.fields).Ok?
  }

  function RequestTrees(batch: seq<Candidate>): (trees: seq<Tree>)
    requires WellSpelt(batch)
    ensures |trees| == |batch|
    ensures forall i | 0 <= i < |batch| :: trees[i] == RequestTree(batch[i])
  {
    seq(|batch|, i requires 0 <= i < |batch| => RequestTree(batch[i]))
  }

  /** An ideal digest of canonical bytes, which stand one for one for meanings. */
  ghost predicate IdealDigest(sha256: Tree -> string) {
    forall a, b :: sha256(a) == sha256(b) ==> a == b
  }

  function KeyOf(rules: Rules, sha256: Tree -> string, document: Json, batch: seq<Candidate>): ComparisonKey
    requires WellSpelt(batch)
  {
    ComparisonKey(rules.bundledSha256, sha256(Meaning(RequestOf(document))), sha256(TArr(RequestTrees(batch))))
  }

  lemma {:induction false} SameWireFields(a: seq<WireField>, b: seq<WireField>)
    requires WireFieldTrees(a) == WireFieldTrees(b)
    ensures a == b
  {
    assert |a| == |WireFieldTrees(a)| == |WireFieldTrees(b)| == |b|;
    forall i | 0 <= i < |a|
      ensures a[i] == b[i]
    {
      var x, y := WireFieldTrees(a)[i].members, WireFieldTrees(b)[i].members;
      assert x["name"] == y["name"] && x["wire"] == y["wire"] && x["value"] == y["value"];
    }
  }

  lemma {:induction false} SameRequest(a: Candidate, b: Candidate)
    requires CheckedFields(a.fields).Ok? && CheckedFields(b.fields).Ok? && RequestTree(a) == RequestTree(b)
    ensures a.typeName == b.typeName && CheckedFields(a.fields) == CheckedFields(b.fields)
  {
    assert RequestTree(a).members["structural"] == RequestTree(b).members["structural"];
    var x := StructuralTree(a.typeName, CheckedFields(a.fields).value).members;
    var y := StructuralTree(b.typeName, CheckedFields(b.fields).value).members;
    assert x["type"] == y["type"] && x["fields"] == y["fields"];
    SameWireFields(CheckedFields(a.fields).value, CheckedFields(b.fields).value);
  }

  /** Batches share a key only if they are the same requests, as the validator sees them, for one request
      schema. */
  lemma {:induction false} SameKey(rules: Rules, sha256: Tree -> string, d: Json, a: seq<Candidate>, e: Json,
      b: seq<Candidate>)
    requires IdealDigest(sha256) && WellSpelt(a) && WellSpelt(b)
    requires KeyOf(rules, sha256, d, a) == KeyOf(rules, sha256, e, b)
    ensures Meaning(RequestOf(d)) == Meaning(RequestOf(e)) && |a| == |b|
    ensures forall i | 0 <= i < |a| ::
              a[i].typeName == b[i].typeName && CheckedFields(a[i].fields) == CheckedFields(b[i].fields)
  {
    assert RequestTrees(a) == RequestTrees(b) by {
      assert TArr(RequestTrees(a)) == TArr(RequestTrees(b));
    }
    assert |a| == |RequestTrees(a)| == |b|;
    forall i | 0 <= i < |a|
      ensures a[i].typeName == b[i].typeName && CheckedFields(a[i].fields) == CheckedFields(b[i].fields)
    {
      assert RequestTrees(a)[i] == RequestTrees(b)[i];
      SameRequest(a[i], b[i]);
    }
  }

  // ----- the entries -----

  predicate MatchesKey(entry: Json, key: ComparisonKey) {
    && Get(entry, "bundled_schema_hash") == Some(Str(key.bundled))
    && Get(entry, "runtime_schema_hash") == Some(Str(key.runtime))
    && Get(entry, "configured_requests_hash") == Some(Str(key.requests))
    && Get(entry, "context_type_registry_version") == Some(Num(Integer(CONTEXT_TYPE_REGISTRY_VERSION)))
    && Get(entry, "validator_format_version") == Some(Num(Integer(VALIDATOR_FORMAT_VERSION)))
  }

  function Bools(items: seq<Json>): Option<seq<bool>> {
    if items == [] then Some([])
    else
      var front := Bools(items[..|items| - 1]);
      match items[|items| - 1]
      case Bool(b) => if front.Some? then Some(front.value + [b]) else None
      case _ => None
  }

  function FromBools(outcomes: seq<bool>): seq<Json> {
    if outcomes == [] then [] else FromBools(outcomes[..|outcomes| - 1]) + [Bool(outcomes[|outcomes| - 1])]
  }

  function OutcomesIn(entry: Json, key: ComparisonKey): Option<seq<bool>> {
    if !MatchesKey(entry, key) then None
    else
      match Get(entry, "outcomes")
      case Some(Arr(items)) => Bools(items)
      case _ => None
  }

  function Entry(key: ComparisonKey, outcomes: seq<bool>): Json {
    Obj([ Member("bundled_schema_hash", Str(key.bundled)),
          Member("runtime_schema_hash", Str(key.runtime)),
          Member("configured_requests_hash", Str(key.requests)),
          Member("context_type_registry_version", Num(Integer(CONTEXT_TYPE_REGISTRY_VERSION))),
          Member("validator_format_version", Num(Integer(VALIDATOR_FORMAT_VERSION))),
          Member("outcomes", Arr(FromBools(outcomes))) ])
  }

  type Entries = map<ComparisonKey, Json>

  function Lookup(entries: Entries, key: ComparisonKey): Option<seq<bool>> {
    if key in entries then OutcomesIn(entries[key], key) else None
  }

  function AfterStore(entries: Entries, key: ComparisonKey, outcomes: seq<bool>, write: Write): Entries {
    if write.NotWritten? then entries else entries[key := Entry(key, outcomes)]
  }

  lemma {:induction false} BoolsBack(outcomes: seq<bool>)
    ensures Bools(FromBools(outcomes)) == Some(outcomes)
  {
    if outcomes != [] {
      var front, last := outcomes[..|outcomes| - 1], outcomes[|outcomes| - 1];
      BoolsBack(front);
      var items := FromBools(outcomes);
      assert items[..|items| - 1] == FromBools(front) && items[|items| - 1] == Bool(last);
      assert outcomes == front + [last];
    }
  }

  lemma {:induction false} StoredMatches(key: ComparisonKey, outcomes: seq<bool>)
    ensures MatchesKey(Entry(key, outcomes), key)
  {
    var ms := Entry(key, outcomes).members;
    FindAt(ms, 0);
    FindAt(ms, 1);
    FindAt(ms, 2);
    FindAt(ms, 3);
    FindAt(ms, 4);
  }

  /** What is stored for a key is what a lookup of it gives. */
  lemma {:induction false} StoredIsFound(key: ComparisonKey, outcomes: seq<bool>)
    ensures OutcomesIn(Entry(key, outcomes), key) == Some(outcomes)
  {
    StoredMatches(key, outcomes);
    FindAt(Entry(key, outcomes).members, 5);
    BoolsBack(outcomes);
  }

  // ----- validating a batch -----

  datatype Reason = Invalid(fault: Fault) | Misspelt(refusal: Refusal) | CacheDisagrees | StoreFailed

  datatype Diagnostic = Diagnostic(candidate: nat, reason: Reason)

  datatype Verdict = Accepted(count: nat) | Refused(diagnostics: seq<Diagnostic>)

  function Concluded(batch: seq<Candidate>, diagnostics: seq<Diagnostic>): Verdict {
    if diagnostics == [] then Accepted(|batch|) else Refused(diagnostics)
  }

  function Outcomes(rules: Rules, document: Json, batch: seq<Candidate>): (outcomes: seq<bool>)
    ensures |outcomes| == |batch|
    ensures forall i | 0 <= i < |batch| :: outcomes[i] == FaultOf(rules, document, batch[i]).None?
  {
    if batch == [] then []
    else Outcomes(rules, document, batch[..|batch| - 1]) + [FaultOf(rules, document, batch[|batch| - 1]).None?]
  }

  function FaultAt(rules: Rules, document: Json, c: Candidate, n: nat): seq<Diagnostic> {
    var fault := FaultOf(rules, document, c);
    if fault.Some? then [Diagnostic(n, Invalid(fault.value))] else []
  }

  /** The spelling first, else the fault. */
  function SpellingFaultAt(rules: Rules, document: Json, c: Candidate, n: nat): seq<Diagnostic> {
    var checked := CheckedFields(c.fields);
    if checked.Err? then [Diagnostic(n, Misspelt(checked.error))] else FaultAt(rules, document, c, n)
  }

  function StoredFaultAt(rules: Rules, document: Json, c: Candidate, n: nat, outcome: bool): seq<Diagnostic> {
    if outcome then []
    else
      var fault := FaultOf(rules, document, c);
      [Diagnostic(n, if fault.Some? then Invalid(fault.value) else CacheDisagrees)]
  }

  /** The faults of a batch in order. */
  function Faults(rules: Rules, document: Json, batch: seq<Candidate>): seq<Diagnostic> {
    if batch == [] then []
    else Faults(rules, document, batch[..|batch| - 1]) + FaultAt(rules, document, batch[|batch| - 1], |batch| - 1)
  }

  /** Validation without the cache. */
  function Afresh(rules: Rules, document: Json, batch: seq<Candidate>): Verdict {
    Concluded(batch, Faults(rules, document, batch))
  }

  /** What a batch with bad spellings is told. */
  function SpellingFaults(rules: Rules, document: Json, batch: seq<Candidate>): seq<Diagnostic> {
    if batch == [] then []
    else
      SpellingFaults(rules, document, batch[..|batch| - 1])
      + SpellingFaultAt(rules, document, batch[|batch| - 1], |batch| - 1)
  }

  /** What a batch is told on the strength of stored outcomes. */
  function StoredFaults(rules: Rules, document: Json, batch: seq<Candidate>, outcomes: seq<bool>): seq<Diagnostic>
    requires |outcomes| == |batch|
  {
    if batch == [] then []
    else
      StoredFaults(rules, document, batch[..|batch| - 1], outcomes[..|batch| - 1])
      + StoredFaultAt(rules, document, batch[|batch| - 1], |batch| - 1, outcomes[|batch| - 1])
  }

  predicate HasConfigured(batch: seq<Candidate>) {
    exists c <- batch :: c.typeName == CONFIGURED_COMMAND
  }

  /** The verdict through the cache, and the entries afterwards. */
  datatype Checked = Checked(verdict: Verdict, entries: Entries)

  /** The verdict on a batch that has a key. */
  function CachedUnder(key: ComparisonKey, rules: Rules, document: Json, batch: seq<Candidate>, write: Write,
      entries: Entries)
    : Checked
  {
    var stored := Lookup(entries, key);
    if stored.Some? && |stored.value| == |batch| then
      Checked(Concluded(batch, StoredFaults(rules, document, batch, stored.value)), entries)
    else
      var faults := Faults(rules, document, batch) + if write.Synced? then [] else [Diagnostic(0, StoreFailed)];
      Checked(Concluded(batch, faults), AfterStore(entries, key, Outcomes(rules, document, batch), write))
  }

  function Cached(rules: Rules, sha256: Tree -> string, document: Json, batch: seq<Candidate>, write: Write,
      entries: Entries)
    : Checked
  {
    if batch == [] then Checked(Accepted(0), entries)
    else if HasConfigured(batch) then Checked(Afresh(rules, document, batch), entries)
    else if !WellSpelt(batch) then Checked(Refused(SpellingFaults(rules, document, batch)), entries)
    else CachedUnder(KeyOf(rules, sha256, document, batch), rules, document, batch, write, entries)
  }

  /** Goes through the batch, noting every outcome and every fault. */
  method ValidateAll(rules: Rules, document: Json, batch: seq<Candidate>)
      returns (outcomes: seq<bool>, diagnostics: seq<Diagnostic>)
    ensures outcomes == Outcomes(rules, document, batch) && diagnostics == Faults(rules, document, batch)
  {
    outcomes, diagnostics := [], [];
    for i := 0 to |batch|
      invariant outcomes == Outcomes(rules, document, batch[..i])
      invariant diagnostics == Faults(rules, document, batch[..i])
    {
      assert batch[..i + 1][..i] == batch[..i];
      var fault := ValidateNativeCandidate(rules, document, batch[i]);
      outcomes := outcomes + [fault.None?];
      if fault.Some? {
        diagnostics := diagnostics + [Diagnostic(i, Invalid(fault.value))];
      }
    }
    assert batch[..|batch|] == batch;
  }

  method ValidateAfresh(rules: Rules, document: Json, batch: seq<Candidate>) returns (verdict: Verdict)
    ensures verdict == Afresh(rules, document, batch)
  {
    var _, diagnostics := ValidateAll(rules, document, batch);
    return if diagnostics == [] then Accepted(|batch|) else Refused(diagnostics);
  }

  method ReportSpellings(rules: Rules, document: Json, batch: seq<Candidate>) returns (diagnostics: seq<Diagnostic>)
    ensures diagnostics == SpellingFaults(rules, document, batch)
  {
    diagnostics := [];
    for i := 0 to |batch|
      invariant diagnostics == SpellingFaults(rules, document, batch[..i])
    {
      assert batch[..i + 1][..i] == batch[..i];
      var checked := CheckWireFields(batch[i].fields);
      if checked.Err? {
        diagnostics := diagnostics + [Diagnostic(i, Misspelt(checked.error))];
        continue;
      }
      var fault := ValidateNativeCandidate(rules, document, batch[i]);
      if fault.Some? {
        diagnostics := diagnostics + [Diagnostic(i, Invalid(fault.value))];
      }
    }
    assert batch[..|batch|] == batch;
  }

  method ReportStored(rules: Rules, document: Json, batch: seq<Candidate>, outcomes: seq<bool>)
      returns (diagnostics: seq<Diagnostic>)
    requires |outcomes| == |batch|
    ensures diagnostics == StoredFaults(rules, document, batch, outcomes)
  {
    diagnostics := [];
    for i := 0 to |batch|
      invariant diagnostics == StoredFaults(rules, document, batch[..i], outcomes[..i])
    {
      assert batch[..i + 1][..i] == batch[..i] && outcomes[..i + 1][..i] == outcomes[..i];
      if !outcomes[i] {
        var fault := ValidateNativeCandidate(rules, document, batch[i]);
        diagnostics := diagnostics + [Diagnostic(i, if fault.Some? then Invalid(fault.value) else CacheDisagrees)];
      }
    }
    assert batch[..|batch|] == batch && outcomes[..|batch|] == outcomes;
  }

  class OutcomeCache {
    var entries: Entries

    constructor ()
      ensures entries == map[]
    {
      entries := map[];
    }

    method ValidateUnder(key: ComparisonKey, rules: Rules, document: Json, batch: seq<Candidate>, write: Write)
      returns (verdict: Verdict)
      modifies this
      ensures Checked(verdict, entries) == CachedUnder(key, rules, document, batch, write, old(entries))
    {
      var stored := Lookup(entries, key);
      if stored.Some? && |stored.value| == |batch| {
        var diagnostics := ReportStored(rules, document, batch, stored.value);
        return Concluded(batch, diagnostics);
      }
      var outcomes, diagnostics := ValidateAll(rules, document, batch);
      assert diagnostics + [] == diagnostics;
      entries := AfterStore(entries, key, outcomes, write);
      if !write.Synced? {
        diagnostics := diagnostics + [Diagnostic(0, StoreFailed)];
      }
      return Concluded(batch, diagnostics);
    }

    method ValidateBatch(rules: Rules, sha256: Tree -> string, document: Json, batch: seq<Candidate>, write: Write)
      returns (verdict: Verdict)
      modifies this
      ensures Checked(verdict, entries) == Cached(rules, sha256, document, batch, write, old(entries))
    {
      if batch == [] {
        return Accepted(0);
      }
      if HasConfigured(batch) {
        verdict := ValidateAfresh(rules, document, batch);
        return;
      }
      if !WellSpelt(batch) {
        var diagnostics := ReportSpellings(rules, document, batch);
        return Refused(diagnostics);
      }
      verdict := ValidateUnder(KeyOf(rules, sha256, document, batch), rules, document, batch, write);
    }
  }

  // ----- the cache agrees with validation afresh -----

  /** The candidates a verdict refuses, in the order it names them. */
  function RefusedIn(diagnostics: seq<Diagnostic>): seq<nat> {
    if diagnostics == [] then []
    else RefusedIn(diagnostics[..|diagnostics| - 1]) + [diagnostics[|diagnostics| - 1].candidate]
  }

  /** Both accept, or both refuse the same candidates in the same order. */
  predicate Agree(a: Verdict, b: Verdict) {
    match a
    case Accepted(n) => b == Accepted(n)
    case Refused(x) => b.Refused? && RefusedIn(x) == RefusedIn(b.diagnostics)
  }

  /** Among the admitted documents, the verdict on an action is decided by the request part of the document,
      whose digest is in the key, and by nothing else in it. */
  ghost predicate RequestDecides(rules: Rules, admits: Json -> bool) {
    forall d: Json, e: Json, c: Candidate ::
      admits(d) && admits(e) && Meaning(RequestOf(d)) == Meaning(RequestOf(e)) && c.typeName != CONFIGURED_COMMAND
      ==> (DirectFault(rules, d, c).None? <==> DirectFault(rules, e, c).None?)
  }

  lemma {:induction false} SameVerdict(rules: Rules, admits: Json -> bool, d: Json, e: Json, a: Candidate, b: Candidate)
    requires RequestDecides(rules, admits) && admits(d) && admits(e) && Meaning(RequestOf(d)) == Meaning(RequestOf(e))
    requires a.typeName == b.typeName != CONFIGURED_COMMAND && CheckedFields(a.fields) == CheckedFields(b.fields)
    ensures FaultOf(rules, d, a).None? <==> FaultOf(rules, e, b).None?
  {
    assert DirectFault(rules, d, a).None? <==> DirectFault(rules, e, a).None?;
    assert DirectFault(rules, e, a) == DirectFault(rules, e, b);
  }

  /** An entry, if it answers for a batch and an admitted document at all, gives the outcomes validation has
      for it. */
  ghost predicate Truthful(rules: Rules, admits: Json -> bool, sha256: Tree -> string, entries: Entries) {
    forall d: Json, batch: seq<Candidate> ::
      admits(d) && WellSpelt(batch) && !HasConfigured(batch)
      && Lookup(entries, KeyOf(rules, sha256, d, batch)).Some?
      ==> Lookup(entries, KeyOf(rules, sha256, d, batch)).value == Outcomes(rules, d, batch)
  }

  lemma {:induction false} SameVerdicts(rules: Rules, admits: Json -> bool, d: Json, a: seq<Candidate>, e: Json,
      b: seq<Candidate>)
    requires RequestDecides(rules, admits) && admits(d) && admits(e)
    requires Meaning(RequestOf(d)) == Meaning(RequestOf(e)) && |a| == |b|
    requires forall c <- a :: c.typeName != CONFIGURED_COMMAND
    requires forall i | 0 <= i < |a| ::
              a[i].typeName == b[i].typeName && CheckedFields(a[i].fields) == CheckedFields(b[i].fields)
    ensures Outcomes(rules, d, a) == Outcomes(rules, e, b)
  {
    forall i | 0 <= i < |a|
      ensures Outcomes(rules, d, a)[i] == Outcomes(rules, e, b)[i]
    {
      assert a[i] in a;
      SameVerdict(rules, admits, d, e, a[i], b[i]);
    }
  }

  lemma {:induction false} SameOutcomes(rules: Rules, admits: Json -> bool, sha256: Tree -> string, d: Json,
      a: seq<Candidate>, e: Json, b: seq<Candidate>)
    requires IdealDigest(sha256) && RequestDecides(rules, admits) && admits(d) && admits(e)
    requires WellSpelt(a) && WellSpelt(b) && !HasConfigured(a)
    requires KeyOf(rules, sha256, d, a) == KeyOf(rules, sha256, e, b)
    ensures Outcomes(rules, d, a) == Outcomes(rules, e, b)
  {
    SameKey(rules, sha256, d, a, e, b);
    SameVerdicts(rules, admits, d, a, e, b);
  }

  lemma {:induction false} FoundAfterStore(entries: Entries, key: ComparisonKey, outcomes: seq<bool>, write: Write,
      asked: ComparisonKey)
    ensures Lookup(AfterStore(entries, key, outcomes, write), asked)
            == if asked == key && !write.NotWritten? then Some(outcomes) else Lookup(entries, asked)
  {
    StoredIsFound(key, outcomes);
  }

  lemma {:induction false} StoringKeepsTruth(rules: Rules, admits: Json -> bool, sha256: Tree -> string,
      entries: Entries, d: Json, batch: seq<Candidate>, key: ComparisonKey, write: Write)
    requires IdealDigest(sha256) && RequestDecides(rules, admits) && Truthful(rules, admits, sha256, entries)
    requires admits(d) && WellSpelt(batch) && !HasConfigured(batch) && key == KeyOf(rules, sha256, d, batch)
    ensures Truthful(rules, admits, sha256, AfterStore(entries, key, Outcomes(rules, d, batch), write))
  {
    var outcomes := Outcomes(rules, d, batch);
    var later := AfterStore(entries, key, outcomes, write);
    forall e: Json, other: seq<Candidate> |
      admits(e) && WellSpelt(other) && !HasConfigured(other) && Lookup(later, KeyOf(rules, sha256, e, other)).Some?
      ensures Lookup(later, KeyOf(rules, sha256, e, other)).value == Outcomes(rules, e, other)
    {
      FoundAfterStore(entries, key, outcomes, write, KeyOf(rules, sha256, e, other));
      if KeyOf(rules, sha256, e, other) == key {
        SameOutcomes(rules, admits, sha256, d, batch, e, other);
      }
    }
  }

  lemma {:induction false} TrueOutcomesTellTheSame(rules: Rules, d: Json, batch: seq<Candidate>)
    ensures StoredFaults(rules, d, batch, Outcomes(rules, d, batch)) == Faults(rules, d, batch)
  {
    if batch != [] {
      var n := |batch| - 1;
      assert Outcomes(rules, d, batch)[..n] == Outcomes(rules, d, batch[..n]);
      TrueOutcomesTellTheSame(rules, d, batch[..n]);
    }
  }

  lemma {:induction false} SpellingRefusesTheSame(rules: Rules, d: Json, c: Candidate, n: nat)
    requires c.typeName != CONFIGURED_COMMAND
    ensures |SpellingFaultAt(rules, d, c, n)| == |FaultAt(rules, d, c, n)| <= 1
    ensures FaultAt(rules, d, c, n) != []
            ==> SpellingFaultAt(rules, d, c, n)[0].candidate == FaultAt(rules, d, c, n)[0].candidate == n
    ensures CheckedFields(c.fields).Err? ==> FaultAt(rules, d, c, n) != []
  {
  }

  lemma {:induction false} RefusedInMore(front: seq<Diagnostic>, more: seq<Diagnostic>)
    requires |more| <= 1
    ensures RefusedIn(front + more) == RefusedIn(front) + if more == [] then [] else [more[0].candidate]
  {
    if more == [] {
      assert front + more == front;
    } else {
      assert (front + more)[..|front|] == front;
    }
  }

  lemma {:induction false} SpellingsRefuseTheSame(rules: Rules, d: Json, batch: seq<Candidate>)
    requires !HasConfigured(batch)
    ensures RefusedIn(SpellingFaults(rules, d, batch)) == RefusedIn(Faults(rules, d, batch))
    ensures |SpellingFaults(rules, d, batch)| == |Faults(rules, d, batch)|
    ensures !WellSpelt(batch) ==> Faults(rules, d, batch) != []
  {
    if batch != [] {
      var n := |batch| - 1;
      var front, c := batch[..n], batch[n];
      assert batch == front + [c] && c in batch;
      SpellingsRefuseTheSame(rules, d, front);
      SpellingRefusesTheSame(rules, d, c, n);
      RefusedInMore(SpellingFaults(rules, d, front), SpellingFaultAt(rules, d, c, n));
      RefusedInMore(Faults(rules, d, front), FaultAt(rules, d, c, n));
    }
  }

  lemma {:induction false} OneRefusalEach(diagnostics: seq<Diagnostic>)
    ensures |RefusedIn(diagnostics)| == |diagnostics|
  {
    if diagnostics != [] {
      OneRefusalEach(diagnostics[..|diagnostics| - 1]);
    }
  }

  /** The key has an answer for a batch of this size. */
  predicate Found(entries: Entries, key: ComparisonKey, size: nat) {
    Lookup(entries, key).Some? && |Lookup(entries, key).value| == size
  }

  lemma {:induction false} OneMoreDisagrees(batch: seq<Candidate>, faults: seq<Diagnostic>, more: Diagnostic)
    ensures Agree(Concluded(batch, faults), Concluded(batch, faults))
    ensures !Agree(Concluded(batch, faults + [more]), Concluded(batch, faults))
  {
    OneRefusalEach(faults);
    OneRefusalEach(faults + [more]);
  }

  lemma {:induction false} FoundVerdict(rules: Rules, entries: Entries, key: ComparisonKey, d: Json,
      batch: seq<Candidate>, write: Write)
    requires Found(entries, key, |batch|) && Lookup(entries, key).value == Outcomes(rules, d, batch)
    ensures CachedUnder(key, rules, d, batch, write, entries).verdict == Afresh(rules, d, batch)
  {
    TrueOutcomesTellTheSame(rules, d, batch);
  }

  lemma {:induction false} MissedVerdict(rules: Rules, entries: Entries, key: ComparisonKey, d: Json,
      batch: seq<Candidate>, write: Write)
    requires !Found(entries, key, |batch|)
    ensures CachedUnder(key, rules, d, batch, write, entries).verdict
            == if write.Synced? then Afresh(rules, d, batch)
               else Concluded(batch, Faults(rules, d, batch) + [Diagnostic(0, StoreFailed)])
  {
    assert Faults(rules, d, batch) + [] == Faults(rules, d, batch);
  }

  lemma {:induction false} OneKeyedBatch(rules: Rules, entries: Entries, key: ComparisonKey, d: Json,
      batch: seq<Candidate>, write: Write, verdict: Verdict)
    requires Lookup(entries, key).Some? ==> Lookup(entries, key).value == Outcomes(rules, d, batch)
    requires verdict == CachedUnder(key, rules, d, batch, write, entries).verdict
    ensures Agree(verdict, Afresh(rules, d, batch)) <==> write.Synced? || Found(entries, key, |batch|)
  {
    OneMoreDisagrees(batch, Faults(rules, d, batch), Diagnostic(0, StoreFailed));
    if Found(entries, key, |batch|) {
      FoundVerdict(rules, entries, key, d, batch, write);
    } else {
      MissedVerdict(rules, entries, key, d, batch, write);
    }
  }

  /** The batch is validated without a key: it is empty, holds a configured command, or is badly spelt. */
  predicate Bypasses(batch: seq<Candidate>) {
    batch == [] || HasConfigured(batch) || !WellSpelt(batch)
  }

  lemma {:induction false} BypassAgrees(rules: Rules, sha256: Tree -> string, entries: Entries, d: Json,
      batch: seq<Candidate>, write: Write)
    requires Bypasses(batch)
    ensures Agree(Cached(rules, sha256, d, batch, write, entries).verdict, Afresh(rules, d, batch))
  {
    if batch != [] && !HasConfigured(batch) {
      SpellingsRefuseTheSame(rules, d, batch);
    }
  }

  /** One batch, with truthful entries: the verdict through the cache is the verdict afresh exactly when no
      store is needed or the store succeeds; a failed store refuses the batch. */
  lemma {:induction false} OneBatch(rules: Rules, admits: Json -> bool, sha256: Tree -> string, entries: Entries,
      d: Json, batch: seq<Candidate>, write: Write)
    requires Truthful(rules, admits, sha256, entries) && admits(d)
    ensures Agree(Cached(rules, sha256, d, batch, write, entries).verdict, Afresh(rules, d, batch))
            <==> write.Synced? || Bypasses(batch) || Found(entries, KeyOf(rules, sha256, d, batch), |batch|)
  {
    if Bypasses(batch) {
      BypassAgrees(rules, sha256, entries, d, batch, write);
    } else {
      var key := KeyOf(rules, sha256, d, batch);
      OneKeyedBatch(rules, entries, key, d, batch, write, CachedUnder(key, rules, d, batch, write, entries).verdict);
    }
  }

  lemma {:induction false} EntriesUnder(key: ComparisonKey, rules: Rules, entries: Entries, d: Json,
      batch: seq<Candidate>, write: Write, outcomes: seq<bool>)
    requires outcomes == Outcomes(rules, d, batch)
    ensures CachedUnder(key, rules, d, batch, write, entries).entries
            == if Found(entries, key, |batch|) then entries else AfterStore(entries, key, outcomes, write)
  {
  }

  lemma {:induction false} EntriesThrough(rules: Rules, sha256: Tree -> string, entries: Entries, d: Json,
      batch: seq<Candidate>, write: Write, key: ComparisonKey)
    requires !Bypasses(batch) && key == KeyOf(rules, sha256, d, batch)
    ensures Cached(rules, sha256, d, batch, write, entries) == CachedUnder(key, rules, d, batch, write, entries)
  {
  }

  lemma {:induction false} OneBatchKeepsTruth(rules: Rules, admits: Json -> bool, sha256: Tree -> string,
      entries: Entries, d: Json, batch: seq<Candidate>, write: Write)
    requires IdealDigest(sha256) && RequestDecides(rules, admits) && Truthful(rules, admits, sha256, entries)
        && admits(d)
    ensures Truthful(rules, admits, sha256, Cached(rules, sha256, d, batch, write, entries).entries)
  {
    if !Bypasses(batch) {
      var key, outcomes := KeyOf(rules, sha256, d, batch), Outcomes(rules, d, batch);
      EntriesThrough(rules, sha256, entries, d, batch, write, key);
      EntriesUnder(key, rules, entries, d, batch, write, outcomes);
      StoringKeepsTruth(rules, admits, sha256, entries, d, batch, key, write);
    }
  }
}
