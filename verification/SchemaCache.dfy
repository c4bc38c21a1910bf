/** The cache of normalized runtime schemas. Whatever is stored on disk, it answers with the canonical form of
the request part of the document it is asked about. */
module SchemaCache {
  import opened Wrappers
  import opened Json

  const VALIDATOR_FORMAT_VERSION := 1

  /** What an entry's file name is made from. */
  datatype SchemaKey = SchemaKey(protocol: nat, schemaVersion: nat, requestSha256: string, validatorFormat: nat)

  /** Whether the new file replaced the old one, and whether that was also synced. */
  datatype Write = NotWritten | WrittenUnsynced | Synced

  datatype IoError = RootRefused | WriteFailed

  /** An ideal hash of canonical values: no two have the same digest. */
  ghost predicate Ideal(sha256: Json -> string) {
    forall a, b :: sha256(a) == sha256(b) ==> a == b
  }

  /** The request part of a schema document, or null. */
  function RequestOf(raw: Json): Json {
    var schemas := Get(raw, "schemas");
    var request := if schemas.Some? then Get(schemas.value, "request") else None;
    if request.Some? then request.value else Null
  }

  function KeyFor(protocol: nat, schemaVersion: nat, raw: Json, sha256: Json -> string): SchemaKey {
    SchemaKey(protocol, schemaVersion, sha256(Canon(RequestOf(raw))), VALIDATOR_FORMAT_VERSION)
  }

  predicate Matches(entry: Json, key: SchemaKey) {
    && Get(entry, "protocol") == Some(Num(Integer(key.protocol)))
    && Get(entry, "schema_version") == Some(Num(Integer(key.schemaVersion)))
    && Get(entry, "request_sha256") == Some(Str(key.requestSha256))
    && Get(entry, "validator_format_version") == Some(Num(Integer(key.validatorFormat)))
  }

  /** The stored value, once its fields and its own digest have been checked. */
  function Verified(entry: Option<Json>, key: SchemaKey, sha256: Json -> string): Option<Json> {
    if entry.None? || !Matches(entry.value, key) then None
    else
      var stored := Get(entry.value, "normalized_request");
      if stored.Some? && sha256(Canon(stored.value)) == key.requestSha256 then Some(Canon(stored.value)) else None
  }

  function FreshEntry(key: SchemaKey, normalized: Json): Json {
    Obj([ Member("protocol", Num(Integer(key.protocol))),
          Member("schema_version", Num(Integer(key.schemaVersion))),
          Member("request_sha256", Str(key.requestSha256)),
          Member("validator_format_version", Num(Integer(key.validatorFormat))),
          Member("normalized_request", normalized) ])
  }

  function Stored(entries: map<SchemaKey, Json>, key: SchemaKey): Option<Json> {
    if key in entries then Some(entries[key]) else None
  }

  lemma {:induction false} FreshMembers(key: SchemaKey, normalized: Json)
    ensures var entry := FreshEntry(key, normalized);
            Matches(entry, key) && Get(entry, "normalized_request") == Some(normalized)
  {
    var ms := FreshEntry(key, normalized).members;
    FindAt(ms, 0);
    FindAt(ms, 1);
    FindAt(ms, 2);
    FindAt(ms, 3);
    FindAt(ms, 4);
  }

  /** What was just stored is accepted back. */
  lemma {:induction false} FreshIsVerified(protocol: nat, schemaVersion: nat, raw: Json, sha256: Json -> string)
    ensures var key, normalized := KeyFor(protocol, schemaVersion, raw, sha256), Canon(RequestOf(raw));
            Verified(Some(FreshEntry(key, normalized)), key, sha256) == Some(normalized)
  {
    FreshMembers(KeyFor(protocol, schemaVersion, raw, sha256), Canon(RequestOf(raw)));
    CanonFixed(RequestOf(raw));
  }

  class HerdrCache {
    /** The entries that can be read; a file that cannot be trusted or parsed is not there. */
    var entries: map<SchemaKey, Json>

    constructor (onDisk: map<SchemaKey, Json>)
      ensures entries == onDisk
    {
      entries := onDisk;
    }

    /** Returns the canonical request schema and whether it was read from the cache. */
    method NormalizedSchema(protocol: nat, schemaVersion: nat, raw: Json, sha256: Json -> string, rootUsable: bool,
        write: Write)
      returns (answer: Result<(Json, bool), IoError>)
      requires Ideal(sha256)
      modifies this
      ensures answer.Ok? ==> answer.value.0 == Canon(RequestOf(raw))
      ensures var key := KeyFor(protocol, schemaVersion, raw, sha256);
              var hit := Verified(Stored(old(entries), key), key, sha256).Some?;
              && (answer.Ok? ==> answer.value.1 == hit)
              && (answer.Ok? <==> rootUsable && (hit || write.Synced?))
              && (answer.Err? ==> answer.error == if rootUsable then WriteFailed else RootRefused)
              && entries == (if rootUsable && !hit && !write.NotWritten?
                             then old(entries)[key := FreshEntry(key, Canon(RequestOf(raw)))] else old(entries))
              && (answer.Ok? ==> Verified(Stored(entries, key), key, sha256).Some?)
    {
      var normalized := RequestOf(raw);
      var canonical := Canon(normalized);
      var requestHash := sha256(canonical);
      var key := SchemaKey(protocol, schemaVersion, requestHash, VALIDATOR_FORMAT_VERSION);
      if !rootUsable {
        return Err(RootRefused);
      }
      if key in entries {
        var hit := entries[key];
        if Matches(hit, key) {
          var stored := Get(hit, "normalized_request");
          if stored.Some? && sha256(Canon(stored.value)) == requestHash {
            return Ok((Canon(stored.value), true));
          }
        }
      }
      if write.NotWritten? {
        return Err(WriteFailed);
      }
      entries := entries[key := FreshEntry(key, canonical)];
      FreshIsVerified(protocol, schemaVersion, raw, sha256);
      if write.WrittenUnsynced? {
        return Err(WriteFailed);
      }
      return Ok((canonical, false));
    }

    /** Asking again at once, after an answer, is answered from the cache, with the same value. */
    method AskTwice(protocol: nat, schemaVersion: nat, raw: Json, sha256: Json -> string, first: Write, second: Write)
      returns (one: Result<(Json, bool), IoError>, two: Result<(Json, bool), IoError>)
      requires Ideal(sha256)
      modifies this
      ensures one.Ok? ==> two == Ok((one.value.0, true))
    {
      one := NormalizedSchema(protocol, schemaVersion, raw, sha256, true, first);
      two := NormalizedSchema(protocol, schemaVersion, raw, sha256, true, second);
    }
  }

  /** An entry stored under a key, however it came to be there, gives the value asked for or nothing. */
  lemma {:induction false} ForgedEntriesGiveNothingElse(entry: Option<Json>, protocol: nat, schemaVersion: nat,
      raw: Json, sha256: Json -> string)
    requires Ideal(sha256)
    ensures var key := KeyFor(protocol, schemaVersion, raw, sha256);
            Verified(entry, key, sha256).Some? ==> Verified(entry, key, sha256) == Some(Canon(RequestOf(raw)))
  {
  }

  /** Documents that differ only in the order of object members share one key and one answer. */
  lemma {:induction false} ReorderedDocumentsShareAnEntry(protocol: nat, schemaVersion: nat, a: Json, b: Json,
      sha256: Json -> string)
    requires Meaning(a) == Meaning(b)
    ensures KeyFor(protocol, schemaVersion, a, sha256) == KeyFor(protocol, schemaVersion, b, sha256)
    ensures Canon(RequestOf(a)) == Canon(RequestOf(b))
  {
    GetMeans(a, b, "schemas");
    if Get(a, "schemas").Some? {
      GetMeans(Get(a, "schemas").value, Get(b, "schemas").value, "request");
    }
    CanonDecidesMeaning(RequestOf(a), RequestOf(b));
  }

  lemma {:induction false} GetMeans(a: Json, b: Json, key: string)
    requires Meaning(a) == Meaning(b)
    ensures Get(a, key).Some? <==> Get(b, key).Some?
    ensures Get(a, key).Some? ==> Meaning(Get(a, key).value) == Meaning(Get(b, key).value)
  {
  }
}
