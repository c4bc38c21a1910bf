/** The outcome cache over whole runs: it agrees with validation afresh exactly when the request part of a
document decides its verdicts. */
module ComparisonRuns {
  import opened Wrappers
  import opened Json
  import opened WireFields
  import opened NativeValidation
  import opened SchemaCache
  import opened ComparisonCache

  datatype Ask = Ask(document: Json, batch: seq<Candidate>, write: Write)

  /** The entries after the batches asked about so far, from an empty cache. A store may have failed. */
  function EntriesAfter(rules: Rules, sha256: Tree -> string, asks: seq<Ask>): Entries {
    if asks == [] then map[]
    else
      var last := asks[|asks| - 1];
      Cached(rules, sha256, last.document, last.batch, last.write,
          EntriesAfter(rules, sha256, asks[..|asks| - 1])).entries
  }

  ghost predicate AllAdmitted(admits: Json -> bool, asks: seq<Ask>) {
    forall i | 0 <= i < |asks| :: admits(asks[i].document)
  }

  /** After any run over admitted documents, a batch whose outcomes can be stored gets the verdict it would
      get without the cache. */
  ghost predicate AlwaysAgrees(rules: Rules, admits: Json -> bool, sha256: Tree -> string) {
    forall asks: seq<Ask>, d: Json, batch: seq<Candidate> | AllAdmitted(admits, asks) && admits(d) ::
      Agree(Cached(rules, sha256, d, batch, Synced, EntriesAfter(rules, sha256, asks)).verdict, Afresh(rules, d, batch))
  }

  lemma {:induction false} RunsKeepTruth(rules: Rules, admits: Json -> bool, sha256: Tree -> string, asks: seq<Ask>)
    requires IdealDigest(sha256) && RequestDecides(rules, admits) && AllAdmitted(admits, asks)
    ensures Truthful(rules, admits, sha256, EntriesAfter(rules, sha256, asks))
  {
    if asks != [] {
      var front, last := asks[..|asks| - 1], asks[|asks| - 1];
      RunsKeepTruth(rules, admits, sha256, front);
      OneBatchKeepsTruth(rules, admits, sha256, EntriesAfter(rules, sha256, front), last.document, last.batch,
          last.write);
    }
  }

  /** A batch of one, as a verdict. */
  lemma {:induction false} OneAfresh(rules: Rules, d: Json, c: Candidate)
    ensures Outcomes(rules, d, [c]) == [FaultOf(rules, d, c).None?]
    ensures Faults(rules, d, [c]) == FaultAt(rules, d, c, 0)
  {
    assert [c][..0] == [] && [c][0] == c;
  }

  lemma {:induction false} OneStored(rules: Rules, d: Json, c: Candidate, outcome: bool)
    ensures StoredFaults(rules, d, [c], [outcome]) == StoredFaultAt(rules, d, c, 0, outcome)
  {
    assert [c][..0] == [] && [c][0] == c && [outcome][..0] == [];
  }

  lemma {:induction false} CachedOne(rules: Rules, sha256: Tree -> string, d: Json, c: Candidate, entries: Entries,
      key: ComparisonKey)
    requires c.typeName != CONFIGURED_COMMAND && CheckedFields(c.fields).Ok?
    requires key == KeyOf(rules, sha256, d, [c])
    ensures Cached(rules, sha256, d, [c], Synced, entries) == CachedUnder(key, rules, d, [c], Synced, entries)
  {
    assert !HasConfigured([c]) && WellSpelt([c]) && [c] != [];
  }

  /** The first answer for an action stores its outcome. */
  lemma {:induction false} StoredOnce(rules: Rules, sha256: Tree -> string, d: Json, c: Candidate, key: ComparisonKey)
    requires c.typeName != CONFIGURED_COMMAND && CheckedFields(c.fields).Ok?
    requires key == KeyOf(rules, sha256, d, [c])
    ensures Lookup(EntriesAfter(rules, sha256, [Ask(d, [c], Synced)]), key) == Some([FaultOf(rules, d, c).None?])
  {
    var asks := [Ask(d, [c], Synced)];
    assert asks[..0] == [];
    assert EntriesAfter(rules, sha256, asks) == Cached(rules, sha256, d, [c], Synced, map[]).entries;
    CachedOne(rules, sha256, d, c, map[], key);
    OneAfresh(rules, d, c);
    FoundAfterStore(map[], key, [FaultOf(rules, d, c).None?], Synced, key);
  }

  /** Later answers repeat it. */
  lemma {:induction false} AnsweredFromStore(rules: Rules, sha256: Tree -> string, e: Json, c: Candidate,
      entries: Entries, key: ComparisonKey, outcome: bool)
    requires c.typeName != CONFIGURED_COMMAND && CheckedFields(c.fields).Ok?
    requires key == KeyOf(rules, sha256, e, [c]) && Lookup(entries, key) == Some([outcome])
    ensures Cached(rules, sha256, e, [c], Synced, entries).verdict
            == if outcome then Accepted(1) else Refused(StoredFaultAt(rules, e, c, 0, false))
  {
    CachedOne(rules, sha256, e, c, entries, key);
    OneStored(rules, e, c, outcome);
  }

  /** An action two documents judge differently is cached from one of them and answered for the other. */
  lemma {:induction false} StaleAnswer(rules: Rules, sha256: Tree -> string, d: Json, e: Json, c: Candidate)
    requires Meaning(RequestOf(d)) == Meaning(RequestOf(e))
    requires c.typeName != CONFIGURED_COMMAND && CheckedFields(c.fields).Ok?
    requires FaultOf(rules, d, c).None? != FaultOf(rules, e, c).None?
    ensures Afresh(rules, e, [c]).Accepted? <==> FaultOf(rules, e, c).None?
    ensures Cached(rules, sha256, e, [c], Synced, EntriesAfter(rules, sha256, [Ask(d, [c], Synced)])).verdict.Accepted?
            <==> FaultOf(rules, d, c).None?
  {
    var key := KeyOf(rules, sha256, d, [c]);
    assert key == KeyOf(rules, sha256, e, [c]);
    StoredOnce(rules, sha256, d, c, key);
    OneAfresh(rules, e, c);
    AnsweredFromStore(rules, sha256, e, c, EntriesAfter(rules, sha256, [Ask(d, [c], Synced)]), key,
        FaultOf(rules, d, c).None?);
  }

  /** Starting from an empty cache, through any run of batches and admitted documents, the cached verdict
      accepts when the uncached one does and otherwise refuses the same candidates in the same order, if and
      only if admitted documents with the same request part never judge an action differently. */
  lemma {:induction false} AgreesExactly(rules: Rules, admits: Json -> bool, sha256: Tree -> string)
    requires IdealDigest(sha256)
    ensures AlwaysAgrees(rules, admits, sha256) <==> RequestDecides(rules, admits)
  {
    if RequestDecides(rules, admits) {
      forall asks: seq<Ask>, d: Json, batch: seq<Candidate> | AllAdmitted(admits, asks) && admits(d)
        ensures Agree(Cached(rules, sha256, d, batch, Synced, EntriesAfter(rules, sha256, asks)).verdict,
                      Afresh(rules, d, batch))
      {
        RunsKeepTruth(rules, admits, sha256, asks);
        OneBatch(rules, admits, sha256, EntriesAfter(rules, sha256, asks), d, batch, Synced);
      }
    } else {
      var d: Json, e: Json, c: Candidate :|
        admits(d) && admits(e) && Meaning(RequestOf(d)) == Meaning(RequestOf(e)) && c.typeName != CONFIGURED_COMMAND
        && DirectFault(rules, d, c).None? != DirectFault(rules, e, c).None?;
      assert CheckedFields(c.fields).Ok?;
      StaleAnswer(rules, sha256, d, e, c);
      assert AllAdmitted(admits, [Ask(d, [c], Synced)]);
    }
  }
}
