/** The key of a batch keeps the source apart: batches share one only if they hold the same actions with the same
configured values, the paths of context values included. And the files that hold the entries have the format that
other versions read. */
module ComparisonSources {
  import opened Wrappers
  import opened Json
  import opened WireFields
  import opened NativeValidation
  import opened SchemaCache
  import opened ComparisonCache

  // ----- the source behind a key -----

  lemma {:induction false} ContextTypeNames(a: ContextType, b: ContextType)
    requires ContextTypeName(a) == ContextTypeName(b)
    ensures a == b
  {
    NameLengths(a);
    NameLengths(b);
  }

  /** Names of one length differ in a letter. */
  lemma {:induction false} NameLengths(t: ContextType)
    ensures var n := ContextTypeName(t);
            match t
            case HostKind => |n| == 8 && n[0] == 'H'
            case ServerId => |n| == 8 && n[0] == 'S'
            case ClientId => |n| == 8 && n[0] == 'C'
            case SessionId => |n| == 9 && n[0] == 'S'
            case WorkspaceId => |n| == 11
            case TabId => |n| == 5
            case UnsignedInteger => |n| == 15
            case PaneId => |n| == 6 && n[0] == 'P'
            case PaneType => |n| == 8 && n[0] == 'P'
            case AbsolutePath => |n| == 12
            case String => |n| == 6 && n[0] == 'S'
            case InvocationSource => |n| == 16
            case WorktreeId => |n| == 10
            case AgentId => |n| == 7
            case Url => |n| == 3
            case LinkHandlerId => |n| == 13
  {
  }

  lemma {:induction false} MemberOf(fields: seq<Field>, i: nat)
    requires Acceptable(fields) && i < |fields|
    ensures WireName(fields[i].name) in ComparisonCache.CanonicalMembers(fields)
    ensures ComparisonCache.CanonicalMembers(fields)[WireName(fields[i].name)] == CanonicalValue(fields[i].value)
    decreases |fields|
  {
    var n := |fields| - 1;
    if i < n {
      MemberOf(fields[..n], i);
      WireNameInjective(fields[i].name, fields[n].name);
    }
  }

  lemma {:induction false} ItemOf(items: seq<ConfigValue>)
    ensures |CanonicalValues(items)| == |items|
    ensures forall i | 0 <= i < |items| :: CanonicalValues(items)[i] == CanonicalValue(items[i])
  {
    if items != [] {
      ItemOf(items[..|items| - 1]);
    }
  }

  lemma {:induction false} TreesOf(items: seq<ConfigValue>)
    requires ToTrees(items).Ok?
    ensures |ToTrees(items).value| == |items|
    ensures forall i | 0 <= i < |items| :: ToTree(items[i]) == Ok(ToTrees(items).value[i])
  {
    if items != [] {
      TreesOf(items[..|items| - 1]);
    }
  }

  /** Two values that are sent alike and written alike are alike in the source: a context value is told from a
      literal by what is sent, and from another context value by what is written. */
  lemma {:induction false} SourceIsKept(v: ConfigValue, w: ConfigValue)
    requires ToTree(v).Ok? && ToTree(v) == ToTree(w) && CanonicalValue(v) == CanonicalValue(w)
    ensures Alike(v, w)
    decreases v
  {
    match v
    case SequenceValue(items) => ItemsAreKept(items, w);
    case MappingValue(fields) => FieldsAreKept(fields, w);
    case ContextValue(path, expected) => ContextIsKept(path, expected, w);
    case _ =>
  }

  lemma {:induction false} ContextIsKept(path: string, expected: ContextType, w: ConfigValue)
    requires ToTree(ContextValue(path, expected)) == ToTree(w)
    requires CanonicalValue(ContextValue(path, expected)) == CanonicalValue(w)
    ensures w == ContextValue(path, expected)
  {
    if w.ContextValue? {
      var a, b := CanonicalValue(ContextValue(path, expected)).members, CanonicalValue(w).members;
      assert a["$context"] == b["$context"] && a["type"] == b["type"];
      ContextTypeNames(expected, w.expected);
    }
  }

  lemma {:induction false} ItemsAreKept(items: seq<ConfigValue>, w: ConfigValue)
    requires ToTree(SequenceValue(items)).Ok? && ToTree(SequenceValue(items)) == ToTree(w)
    requires CanonicalValue(SequenceValue(items)) == CanonicalValue(w)
    ensures Alike(SequenceValue(items), w)
    decreases items, 0
  {
    assert w.SequenceValue?;
    ItemOf(items);
    ItemOf(w.items);
    TreesOf(items);
    TreesOf(w.items);
    forall i | 0 <= i < |items|
      ensures Alike(items[i], w.items[i])
    {
      SourceIsKept(items[i], w.items[i]);
    }
  }

  lemma {:induction false} FieldsAreKept(fields: seq<Field>, w: ConfigValue)
    requires ToTree(MappingValue(fields)).Ok? && ToTree(MappingValue(fields)) == ToTree(w)
    requires CanonicalValue(MappingValue(fields)) == CanonicalValue(w)
    ensures Alike(MappingValue(fields), w)
    decreases fields, 0
  {
    assert w.MappingValue?;
    AcceptsExactly(fields);
    AcceptsExactly(w.fields);
    ParamsAreTheFields(fields);
    ParamsAreTheFields(w.fields);
    var sent := Params(CheckedFields(fields).value);
    SentFieldsStand(w.fields);
    forall i | 0 <= i < |fields|
      ensures IsAmong(fields[i], w.fields)
    {
      var j := FieldUnder(w.fields, sent, fields[i].name);
      MemberOf(fields, i);
      MemberOf(w.fields, j);
      SourceIsKept(fields[i].value, w.fields[j].value);
      assert w.fields[j].name == fields[i].name && Alike(fields[i].value, w.fields[j].value);
    }
  }

  lemma {:induction false} FieldTrees(a: Candidate, b: Candidate, i: nat)
    requires CheckedFields(a.fields).Ok? && CheckedFields(b.fields).Ok? && RequestTree(a) == RequestTree(b)
    requires i < |a.fields|
    ensures |a.fields| == |b.fields| && a.fields[i].name == b.fields[i].name
    ensures CanonicalValue(a.fields[i].value) == CanonicalValue(b.fields[i].value)
  {
    var x, y := RequestTree(a).members["canonical_fields"], RequestTree(b).members["canonical_fields"];
    assert CanonicalFields(a.fields) == x.items == y.items == CanonicalFields(b.fields);
    assert |a.fields| == |CanonicalFields(a.fields)| == |b.fields|;
    var f, g := CanonicalFields(a.fields)[i].members, CanonicalFields(b.fields)[i].members;
    assert f["name"] == g["name"] && f["value"] == g["value"];
  }

  /** Two actions have one request tree only if they are one action in the source: the same type, the same field
      names in the same order, and values that say the same. */
  lemma {:induction false} SameSource(a: Candidate, b: Candidate)
    requires CheckedFields(a.fields).Ok? && CheckedFields(b.fields).Ok? && RequestTree(a) == RequestTree(b)
    ensures a.typeName == b.typeName && |a.fields| == |b.fields|
    ensures forall i | 0 <= i < |a.fields| ::
              a.fields[i].name == b.fields[i].name && Alike(a.fields[i].value, b.fields[i].value)
  {
    SameRequest(a, b);
    AcceptsExactly(a.fields);
    AcceptsExactly(b.fields);
    forall i | 0 <= i < |a.fields|
      ensures a.fields[i].name == b.fields[i].name && Alike(a.fields[i].value, b.fields[i].value)
    {
      FieldTrees(a, b, i);
      SourceIsKept(a.fields[i].value, b.fields[i].value);
    }
    if a.fields == [] {
      assert |CheckedFields(b.fields).value| == 0;
    }
  }

  /** Batches share a key only if they are the same batch in the source, asked of one request schema by one build. */
  lemma {:induction false} SameBatch(rules: Rules, other: Rules, sha256: Tree -> string, d: Json, a: seq<Candidate>,
      e: Json, b: seq<Candidate>)
    requires IdealDigest(sha256) && WellSpelt(a) && WellSpelt(b)
    requires KeyOf(rules, sha256, d, a) == KeyOf(other, sha256, e, b)
    ensures rules.bundledSha256 == other.bundledSha256 && |a| == |b|
    ensures Meaning(RequestOf(d)) == Meaning(RequestOf(e))
    ensures forall i | 0 <= i < |a| ::
              && a[i].typeName == b[i].typeName && |a[i].fields| == |b[i].fields|
              && forall k | 0 <= k < |a[i].fields| ::
                   a[i].fields[k].name == b[i].fields[k].name && Alike(a[i].fields[k].value, b[i].fields[k].value)
  {
    assert RequestTrees(a) == RequestTrees(b) by {
      assert TArr(RequestTrees(a)) == TArr(RequestTrees(b));
    }
    assert |a| == |RequestTrees(a)| == |b|;
    forall i | 0 <= i < |a|
      ensures RequestTree(a[i]) == RequestTree(b[i])
    {
      assert RequestTrees(a)[i] == RequestTrees(b)[i];
    }
    forall i | 0 <= i < |a|
      ensures a[i].typeName == b[i].typeName && |a[i].fields| == |b[i].fields|
      ensures forall k | 0 <= k < |a[i].fields| ::
                a[i].fields[k].name == b[i].fields[k].name && Alike(a[i].fields[k].value, b[i].fields[k].value)
    {
      SameSource(a[i], b[i]);
    }
  }

  // ----- the format of the entries -----

  /** A stored outcome has the format of version 1. */
  lemma {:induction false} OutcomeFormat(key: ComparisonKey, outcomes: seq<bool>)
    ensures var entry := Entry(key, outcomes);
            && Get(entry, "bundled_schema_hash") == Some(Str(key.bundled))
            && Get(entry, "runtime_schema_hash") == Some(Str(key.runtime))
            && Get(entry, "configured_requests_hash") == Some(Str(key.requests))
            && Get(entry, "context_type_registry_version") == Some(Num(Integer(1)))
            && Get(entry, "validator_format_version") == Some(Num(Integer(1)))
            && Get(entry, "outcomes") == Some(Arr(FromBools(outcomes)))
    ensures |FromBools(outcomes)| == |outcomes|
    ensures forall i | 0 <= i < |outcomes| :: FromBools(outcomes)[i] == Bool(outcomes[i])
  {
    StoredMatches(key, outcomes);
    FindAt(Entry(key, outcomes).members, 5);
    ListedOutcomes(outcomes);
  }

  lemma {:induction false} ListedOutcomes(outcomes: seq<bool>)
    ensures |FromBools(outcomes)| == |outcomes|
    ensures forall i | 0 <= i < |outcomes| :: FromBools(outcomes)[i] == Bool(outcomes[i])
  {
    if outcomes != [] {
      ListedOutcomes(outcomes[..|outcomes| - 1]);
    }
  }

  /** An entry is read back exactly when it has this format, for the key it is looked up by; an entry of another
      version, another key or another shape is ignored. */
  lemma {:induction false} OutcomeReadExactly(entry: Json, key: ComparisonKey, outcomes: seq<bool>)
    ensures OutcomesIn(entry, key) == Some(outcomes) <==>
              && Get(entry, "bundled_schema_hash") == Some(Str(key.bundled))
              && Get(entry, "runtime_schema_hash") == Some(Str(key.runtime))
              && Get(entry, "configured_requests_hash") == Some(Str(key.requests))
              && Get(entry, "context_type_registry_version") == Some(Num(Integer(1)))
              && Get(entry, "validator_format_version") == Some(Num(Integer(1)))
              && Get(entry, "outcomes") == Some(Arr(FromBools(outcomes)))
  {
    BoolsBack(outcomes);
    match Get(entry, "outcomes")
    case Some(Arr(items)) =>
      if Bools(items).Some? {
        BoolsGiveBack(items);
      }
    case _ =>
  }

  lemma {:induction false} BoolsGiveBack(items: seq<Json>)
    requires Bools(items).Some?
    ensures FromBools(Bools(items).value) == items
  {
    if items != [] {
      var front := items[..|items| - 1];
      BoolsGiveBack(front);
      var outcomes := Bools(items).value;
      assert outcomes[..|outcomes| - 1] == Bools(front).value;
      assert items == front + [items[|items| - 1]];
    }
  }

  /** A stored schema, too, and its key holds the version. */
  lemma {:induction false} SchemaFormat(protocol: nat, schemaVersion: nat, raw: Json, sha256: Json -> string)
    ensures var key := KeyFor(protocol, schemaVersion, raw, sha256);
            var entry := FreshEntry(key, Canon(RequestOf(raw)));
            && key == SchemaKey(protocol, schemaVersion, sha256(Canon(RequestOf(raw))), 1)
            && Get(entry, "protocol") == Some(Num(Integer(protocol)))
            && Get(entry, "schema_version") == Some(Num(Integer(schemaVersion)))
            && Get(entry, "request_sha256") == Some(Str(sha256(Canon(RequestOf(raw)))))
            && Get(entry, "validator_format_version") == Some(Num(Integer(1)))
            && Get(entry, "normalized_request") == Some(Canon(RequestOf(raw)))
  {
    FreshMembers(KeyFor(protocol, schemaVersion, raw, sha256), Canon(RequestOf(raw)));
  }

  /** The request part is what stands under these two keys; null when one of them is missing. */
  lemma {:induction false} RequestPartIs(raw: Json)
    ensures RequestOf(raw)
            == if Get(raw, "schemas").Some? && Get(Get(raw, "schemas").value, "request").Some?
               then Get(Get(raw, "schemas").value, "request").value else Null
  {
  }
}
