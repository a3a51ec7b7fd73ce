/** The hash-chained provenance writer, and what the verifier makes of its record sets. */
module ProvenanceWriter {
  import opened Prelude
  import opened ProvenanceSchema
  import opened ProvenanceVerifier

  datatype WriteError = UnknownType | CredentialedUrl | NotCanonical | SchemaMismatch | AppendFailed

  // The record before its digest; the given fields override.
  function Draft(runId: string, sessionId: string, number: nat, previous: Option<string>, t: EventType,
                 fields: Record, id: string, at: string): Record {
    map["schema_version" := Int(SCHEMA_VERSION), "event_id" := Str(id), "sequence" := Int(number),
        "event_type" := Str(TypeText(t)), "run_id" := Str(runId), "session_id" := Str(sessionId),
        "recorded_at" := Str(at), "previous_digest" := Text_(previous)] + fields
  }

  function Sealed(hash: Hash, draft: Record): Record {
    draft["event_digest" := Str(hash(draft))]
  }

  function Lines(records: seq<Record>): (lines: seq<Line>)
    ensures |lines| == |records|
  {
    seq(|records|, k requires 0 <= k < |records| => Some(Obj(records[k])))
  }

  function LastDigest(records: seq<Record>): Option<string> {
    if records == [] then None else DigestOf(Some(Obj(records[|records| - 1])))
  }

  // Fields that leave the chain alone and say nothing of an unavailable validator.
  predicate PlainFields(t: EventType, fields: Record) {
    fields.Keys !! CommonNames && (t.FinalizedEvent? ==> ValidatorsOk(fields))
  }

  // ------------------------------------------------------------ one written event

  lemma {:induction false} DraftFields(runId: string, sessionId: string, number: nat, previous: Option<string>, t: EventType,
                    fields: Record, id: string, at: string, name: string)
    requires fields.Keys !! CommonNames
    ensures Get(Draft(runId, sessionId, number, previous, t, fields, id, at), name)
            == if name == "schema_version" then Int(SCHEMA_VERSION) else if name == "event_id" then Str(id)
               else if name == "sequence" then Int(number) else if name == "event_type" then Str(TypeText(t))
               else if name == "run_id" then Str(runId) else if name == "session_id" then Str(sessionId)
               else if name == "recorded_at" then Str(at) else if name == "previous_digest" then Text_(previous)
               else Get(fields, name)
  {
    hide TypeText;
    assert name in fields ==> name !in CommonNames;
  }

  ghost predicate HexHash(hash: Hash) {
    forall e: Record :: FullHex(hash(e))
  }

  lemma {:induction false} SealedIsDraft(hash: Hash, draft: Record)
    requires "event_digest" !in draft
    ensures Sealed(hash, draft) - {"event_digest"} == draft
  {
  }

  lemma {:induction false} ValidatorsAreFields(hash: Hash, runId: string, sessionId: string, number: nat, previous: Option<string>,
                            t: EventType, fields: Record, id: string, at: string)
    requires fields.Keys !! CommonNames
    ensures ValidatorsOk(Sealed(hash, Draft(runId, sessionId, number, previous, t, fields, id, at))) <==> ValidatorsOk(fields)
  {
    hide ValidatorOk, Draft;
    var e := Sealed(hash, Draft(runId, sessionId, number, previous, t, fields, id, at));
    forall k | 0 <= k < |ValidatorNames| ensures Get(e, ValidatorNames[k]) == Get(fields, ValidatorNames[k]) {
      DraftFields(runId, sessionId, number, previous, t, fields, id, at, ValidatorNames[k]);
    }
  }

  // The verifier accepts what the writer wrote, in its place, except for a validator that is
  // unavailable and yet compared or given.
  lemma {:induction false} WrittenEventOkIff(hash: Hash, runId: string, sessionId: string, number: nat, previous: Option<string>,
                          t: EventType, fields: Record, id: string, at: string, seen: set<Json>)
    requires HexHash(hash) && fields.Keys !! CommonNames
    requires var draft := Draft(runId, sessionId, number, previous, t, fields, id, at);
             CanonicalRecord(draft) && Conforms(Obj(Sealed(hash, draft)), EventSchema(t))
    ensures EventOk(hash, Some(Obj(Sealed(hash, Draft(runId, sessionId, number, previous, t, fields, id, at)))),
                    Place(runId, sessionId, number, previous, seen))
            <==> Str(id) !in seen && (t.FinalizedEvent? ==> ValidatorsOk(fields))
  {
    hide Conforms, FieldNames, CanonicalRecord, Draft, FullHex, ValidatorsOk, TypeOf, TypeText;
    var draft := Draft(runId, sessionId, number, previous, t, fields, id, at);
    var e := Sealed(hash, draft);
    ConformingEventHasExactFields(e, t);
    DraftHasNoDigest(runId, sessionId, number, previous, t, fields, id, at);
    SealedIsDraft(hash, draft);
    TypeOfText(t);
    SealedFields(hash, runId, sessionId, number, previous, t, fields, id, at);
    ValidatorsAreFields(hash, runId, sessionId, number, previous, t, fields, id, at);
    assert FullHex(hash(draft));
  }

  lemma {:induction false} DraftHasNoDigest(runId: string, sessionId: string, number: nat, previous: Option<string>,
                         t: EventType, fields: Record, id: string, at: string)
    requires fields.Keys !! CommonNames
    ensures "event_digest" !in Draft(runId, sessionId, number, previous, t, fields, id, at)
  {
    assert "event_digest" in CommonNames;
  }

  lemma {:induction false} SealedFields(hash: Hash, runId: string, sessionId: string, number: nat, previous: Option<string>,
                     t: EventType, fields: Record, id: string, at: string)
    requires fields.Keys !! CommonNames
    ensures var draft := Draft(runId, sessionId, number, previous, t, fields, id, at);
            var e := Sealed(hash, draft);
            && Get(e, "schema_version") == Int(SCHEMA_VERSION) && Get(e, "event_id") == Str(id)
            && Get(e, "sequence") == Int(number) && Get(e, "event_type") == Str(TypeText(t))
            && Get(e, "run_id") == Str(runId) && Get(e, "session_id") == Str(sessionId)
            && Get(e, "previous_digest") == Text_(previous) && Get(e, "event_digest") == Str(hash(draft))
  {
    hide TypeText;
    assert forall n | n in CommonNames :: n !in fields;
  }

  lemma {:induction false} ConformingType(e: Record, t: EventType)
    requires Conforms(Obj(e), EventSchema(t))
    ensures TypeOf(Get(e, "event_type")) == Some(t) && (IsFinalized(Some(Obj(e))) <==> t.FinalizedEvent?)
  {
    hide TypeText, TypeOf, FieldRules, BaseRules, FieldNames, Found;
    TypeOfText(t);
    assert "event_type" in CommonNames;
    assert "event_type" in EventSchema(t).required;
    EventTypeRule(t);
    assert Conforms(e["event_type"], EventSchema(t).properties["event_type"]);
  }

  lemma {:induction false} EventTypeRule(t: EventType)
    ensures "event_type" in EventSchema(t).properties
    ensures EventSchema(t).properties["event_type"] == Anything.(const_ := Some(Str(TypeText(t))))
  {
    hide TypeText, Typed, OneOf, Patterned;
    assert "event_type" in BaseRules(t);
    match t
    case RunStarted => assert "event_type" !in FieldRules(RunStarted);
    case AttemptFinished => assert "event_type" !in FieldRules(AttemptFinished);
    case FinalizedEvent => assert "event_type" !in FieldRules(FinalizedEvent);
    case CandidateCreatedEvent => assert "event_type" !in FieldRules(CandidateCreatedEvent);
    case RunClosed => assert "event_type" !in FieldRules(RunClosed);
    case LocalFailure => assert "event_type" !in FieldRules(LocalFailure);
  }

  lemma {:induction false} AppendCounts(records: seq<Record>, record: Record)
    ensures FinalCount(Lines(records + [record])) == FinalCount(Lines(records)) + if IsFinalized(Some(Obj(record))) then 1 else 0
  {
    hide IsFinalized;
    var lines := Lines(records + [record]);
    assert lines[..|lines| - 1] == Lines(records);
  }

  lemma {:induction false} AppendChains(hash: Hash, runId: string, sessionId: string, records: seq<Record>, record: Record)
    requires ChainOk(hash, runId, sessionId, Lines(records), |records|)
    requires EventOk(hash, Some(Obj(record)), Place(runId, sessionId, |records| + 1, LastDigest(records), Ids(Lines(records))))
    ensures ChainOk(hash, runId, sessionId, Lines(records + [record]), |records| + 1)
  {
    hide EventOk, Ids;
    var before, after := Lines(records), Lines(records + [record]);
    forall k | 0 <= k < |after| ensures LineOk(hash, runId, sessionId, after, k) {
      assert after[..k] == before[..k];
      if k < |records| {
        assert LineOk(hash, runId, sessionId, before, k);
      } else {
        assert before[..k] == before;
      }
    }
  }

  // Every field value is canonical, so taking the digest never raises.
  lemma {:induction false} DraftIsCanonical(runId: string, sessionId: string, number: nat, previous: Option<string>, t: EventType,
                         fields: Record, id: string, at: string)
    requires CanonicalRecord(fields)
    ensures CanonicalRecord(Draft(runId, sessionId, number, previous, t, fields, id, at))
  {
    hide TypeText;
  }

  lemma {:induction false} DraftOrFieldsRefused(runId: string, sessionId: string, number: nat, previous: Option<string>, t: EventType,
                             fields: Record, id: string, at: string)
    ensures !CanonicalRecord(Draft(runId, sessionId, number, previous, t, fields, id, at)) ==> !CanonicalRecord(fields)
  {
    hide Draft, CanonicalRecord;
    if CanonicalRecord(fields) {
      DraftIsCanonical(runId, sessionId, number, previous, t, fields, id, at);
    }
  }

  // ------------------------------------------------------------ the writer

  class Writer {
    const hash: Hash
    const runId: string
    const sessionId: string
    const credentialed: Record -> bool
    var sequence: nat
    var previousDigest: Option<string>
    var finalizedCount: nat
    // events.jsonl
    var records: seq<Record>
    // calls that failed after they had taken a sequence number
    ghost var lost: nat

    ghost predicate Valid()
      reads this
    {
      sequence == |records| + lost && previousDigest == LastDigest(records) && finalizedCount == FinalCount(Lines(records))
    }

    // The record set so far passes every chain and field check.
    ghost predicate Chained()
      reads this
    {
      lost == 0 && ChainOk(hash, runId, sessionId, Lines(records), |records|)
    }

    constructor (hash: Hash, runId: string, sessionId: string, credentialed: Record -> bool)
      ensures Valid() && Chained() && records == [] && lost == 0
      ensures this.hash == hash && this.runId == runId && this.sessionId == sessionId && this.credentialed == credentialed
    {
      this.hash, this.runId, this.sessionId, this.credentialed := hash, runId, sessionId, credentialed;
      sequence, previousDigest, finalizedCount, records, lost := 0, None, 0, [], 0;
    }

    // `written` says whether the append succeeds.
    method Event(t: Option<EventType>, fields: Record, id: string, at: string, written: bool) returns (r: Result<Record, WriteError>)
      requires Valid()
      modifies this
      ensures Valid()
      ensures r.Ok? ==> t.Some? && records == old(records) + [r.value] && lost == old(lost)
                        && r.value == Sealed(hash, Draft(runId, sessionId, old(sequence) + 1, old(previousDigest), t.value,
                                                         fields, id, at))
                        && Conforms(Obj(r.value), EventSchema(t.value))
      ensures r.Ok? <==> t.Some? && !credentialed(fields) && written
                         && var draft := Draft(runId, sessionId, old(sequence) + 1, old(previousDigest), t.value, fields, id, at);
                            CanonicalRecord(draft) && Conforms(Obj(Sealed(hash, draft)), EventSchema(t.value))
      ensures finalizedCount == old(finalizedCount) + if r.Ok? && t.value.FinalizedEvent? then 1 else 0
      ensures r.Err? ==> records == old(records) && previousDigest == old(previousDigest)
                         && lost == old(lost) + (if r.error.NotCanonical? || r.error.AppendFailed? then 1 else 0)
      ensures r.Err? && r.error.NotCanonical? ==> !CanonicalRecord(fields)
      ensures r.Err? && r.error.AppendFailed? ==> !written
      ensures (HexHash(hash) && old(Chained()) && lost == 0 && Str(id) !in Ids(Lines(old(records)))
               && (t.Some? ==> PlainFields(t.value, fields))) ==> Chained()
    {
      hide Conforms, CanonicalRecord, Draft, Sealed, EventOk, ValidatorsOk, TypeOf, HexHash, Ids, FinalCount, IsFinalized,
        ChainOk, EventSchema, Lines, DigestOf;
      if t.None? {
        return Err(UnknownType);
      }
      if credentialed(fields) {
        return Err(CredentialedUrl);
      }
      sequence := sequence + 1;
      var draft := Draft(runId, sessionId, sequence, previousDigest, t.value, fields, id, at);
      if !CanonicalRecord(draft) {
        DraftOrFieldsRefused(runId, sessionId, sequence, previousDigest, t.value, fields, id, at);
        lost := lost + 1;
        return Err(NotCanonical);
      }
      var record := Sealed(hash, draft);
      if !Conforms(Obj(record), EventSchema(t.value)) {
        sequence := sequence - 1;
        return Err(SchemaMismatch);
      }
      if !written {
        lost := lost + 1;
        return Err(AppendFailed);
      }
      ConformingType(record, t.value);
      AppendCounts(records, record);
      if HexHash(hash) && Chained() && Str(id) !in Ids(Lines(records)) && PlainFields(t.value, fields) {
        WrittenEventOkIff(hash, runId, sessionId, sequence, previousDigest, t.value, fields, id, at, Ids(Lines(records)));
        AppendChains(hash, runId, sessionId, records, record);
      }
      records := records + [record];
      previousDigest := DigestOf(Some(Obj(record)));
      if t.value.FinalizedEvent? {
        finalizedCount := finalizedCount + 1;
      }
      r := Ok(record);
    }

    // The signature is computed over the summary without it.
    method Close(a: Closing, id: string, at: string, written: bool, sign: Record -> string) returns (summary: Option<Record>)
      requires Valid()
      modifies this
      ensures Valid()
      ensures finalizedCount == old(finalizedCount)
      // it succeeds exactly when its event is written and its summary is canonical
      ensures var draft := Draft(runId, sessionId, old(sequence) + 1, old(previousDigest), RunClosed, ClosingFields(a, at), id, at);
              summary.Some? <==>
                (&& written && !credentialed(ClosingFields(a, at))
                 && CanonicalRecord(draft) && Conforms(Obj(Sealed(hash, draft)), EventSchema(RunClosed))
                 && CanonicalRecord(SummaryRecord(a, runId, sessionId, sequence, previousDigest, finalizedCount)))
      // one lost number is enough for the verifier to refuse the set
      ensures summary.Some? && lost > 0 ==> !Accepts(hash, runId, sessionId, Lines(records), summary.value)
      ensures (HexHash(hash) && old(Chained()) && Str(id) !in Ids(Lines(old(records))) && summary.Some?
               && ClosingOk(a, runId, sessionId, old(finalizedCount)) && forall s :: FullSignature(sign(s)))
              ==> Accepts(hash, runId, sessionId, Lines(records), summary.value)
    {
      hide Conforms, CanonicalRecord, Draft, Sealed, EventOk, Ids, FinalCount, ChainOk, Lines, EventSchema, Accepts, FullSignature,
        HexHash, SummaryRecord, CommonNames, ClosingOk, FullHex;
      ghost var before := records;
      ghost var finals := finalizedCount;
      var fields := ClosingFields(a, at);
      ClosingFieldsPlain(a, at);
      ghost var number, previous := sequence + 1, previousDigest;
      var r := Event(Some(RunClosed), fields, id, at, written);
      if r.Err? {
        return None;
      }
      var unsigned := SummaryRecord(a, runId, sessionId, sequence, previousDigest, finalizedCount);
      if !CanonicalRecord(unsigned) {
        return None;
      }
      var signature := sign(unsigned);
      summary := Some(unsigned["signature" := Str(signature)]);
      SummaryCounts(a, runId, sessionId, sequence, previousDigest, finalizedCount, signature);
      if lost > 0 {
        WrongCountRefused(hash, runId, sessionId, Lines(records), summary.value, sequence);
      }
      if HexHash(hash) && Chained() && FullSignature(signature) && ClosingOk(a, runId, sessionId, finals) {
        ConformingType(r.value, RunClosed);
        AppendCounts(before, r.value);
        ClosingCounts(hash, runId, sessionId, number, previous, a, id, at);
        ClosingAccepted(hash, runId, sessionId, records, r.value, a, sequence, finalizedCount, signature);
      }
    }
  }

  lemma {:induction false} WrongCountRefused(hash: Hash, runId: string, sessionId: string, lines: seq<Line>, summary: Record, count: nat)
    requires Get(summary, "event_count") == Int(count) && count != |lines|
    ensures !Accepts(hash, runId, sessionId, lines, summary)
  {
    hide ChainOk, SummaryOk, FinalsOk;
  }

  // What the controller passes to close().
  datatype Closing = Closing(queueDigests: Json, settings: Json, selected: int, counts: Record, reason: string,
                             schemaDigest: string, fingerprint: string)

  function ClosingFields(a: Closing, at: string): Record {
    map["closed_at" := Str(at), "close_reason" := Str(a.reason), "durable_outcome_counts" := Obj(a.counts)]
  }

  function SummaryRecord(a: Closing, runId: string, sessionId: string, count: nat, last: Option<string>, finals: nat): Record {
    map["schema_version" := Int(SCHEMA_VERSION), "run_id" := Str(runId), "session_id" := Str(sessionId),
        "queue_input_digests" := a.queueDigests, "selection_settings" := a.settings, "event_count" := Int(count),
        "final_event_digest" := Text_(last), "selected_item_count" := Int(a.selected),
        "durable_outcome_counts" := Obj(a.counts), "session_finalized_count" := Int(finals),
        "schema_sha256" := Str(a.schemaDigest), "signing_key_fingerprint" := Str(a.fingerprint)]
  }

  function CompleteCount(counts: Record): Json {
    if "complete" in counts then counts["complete"] else Int(0)
  }

  // Arguments of the right types, and a run total that covers the finalized events.
  predicate ClosingOk(a: Closing, runId: string, sessionId: string, finals: nat) {
    ClosingTyped(a, runId, sessionId) && CompleteCount(a.counts).Int? && CompleteCount(a.counts).i >= finals
  }

  predicate ClosingTyped(a: Closing, runId: string, sessionId: string) {
    && |runId| >= 1 && FullUuid(sessionId) && a.queueDigests.Arr? && a.settings.Obj? && a.selected >= 0
    && (forall n | n in a.counts :: a.counts[n].Int? && a.counts[n].i >= 0)
    && FullHex(a.schemaDigest) && FullHex(a.fingerprint)
  }

  lemma {:induction false} ClosingFieldsPlain(a: Closing, at: string)
    ensures PlainFields(RunClosed, ClosingFields(a, at))
  {
    assert "closed_at" !in CommonNames && "close_reason" !in CommonNames && "durable_outcome_counts" !in CommonNames;
  }

  lemma {:induction false} ClosingCounts(hash: Hash, runId: string, sessionId: string, number: nat, previous: Option<string>, a: Closing,
                      id: string, at: string)
    ensures Get(Sealed(hash, Draft(runId, sessionId, number, previous, RunClosed, ClosingFields(a, at), id, at)),
                "durable_outcome_counts") == Obj(a.counts)
  {
    ClosingFieldsPlain(a, at);
    DraftFields(runId, sessionId, number, previous, RunClosed, ClosingFields(a, at), id, at, "durable_outcome_counts");
  }

  lemma {:induction false} SummaryCounts(a: Closing, runId: string, sessionId: string, count: nat, last: Option<string>, finals: nat, signature: string)
    ensures var summary := SummaryRecord(a, runId, sessionId, count, last, finals)["signature" := Str(signature)];
            && Get(summary, "event_count") == Int(count) && Get(summary, "final_event_digest") == Text_(last)
            && Get(summary, "durable_outcome_counts") == Obj(a.counts)
            && Get(summary, "session_finalized_count") == Int(finals)
            && Get(summary, "run_id") == Str(runId) && Get(summary, "session_id") == Str(sessionId)
            && summary.Keys == SummaryNames
  {
  }

  // The other fields are what the controller closes with.
  lemma {:induction false} SummaryCarries(a: Closing, runId: string, sessionId: string, count: nat, last: Option<string>, finals: nat, signature: string)
    ensures var summary := SummaryRecord(a, runId, sessionId, count, last, finals)["signature" := Str(signature)];
            && Get(summary, "schema_version") == Int(1) && Get(summary, "signature") == Str(signature)
            && Get(summary, "queue_input_digests") == a.queueDigests && Get(summary, "selection_settings") == a.settings
            && Get(summary, "selected_item_count") == Int(a.selected) && Get(summary, "schema_sha256") == Str(a.schemaDigest)
            && Get(summary, "signing_key_fingerprint") == Str(a.fingerprint)
  {
  }

  const SummaryTextNames := {"schema_version", "run_id", "session_id", "final_event_digest", "schema_sha256",
                             "signing_key_fingerprint", "signature"}
  const SummaryCountNames := {"queue_input_digests", "selection_settings", "event_count", "selected_item_count",
                              "durable_outcome_counts", "session_finalized_count"}

  predicate SummaryFieldOk(summary: Record, n: string) {
    n in summary && n in SummarySchema.properties && Conforms(summary[n], SummarySchema.properties[n])
  }

  const SummaryDigestNames := {"final_event_digest", "schema_sha256", "signing_key_fingerprint", "signature"}

  lemma {:induction false} SummaryDigestsConform(a: Closing, runId: string, sessionId: string, count: nat, last: Option<string>, finals: nat, signature: string)
    requires ClosingTyped(a, runId, sessionId) && FullSignature(signature) && (last.Some? ==> FullHex(last.value))
    ensures forall n | n in SummaryDigestNames ::
      SummaryFieldOk(SummaryRecord(a, runId, sessionId, count, last, finals)["signature" := Str(signature)], n)
  {
    hide FullHex, FullUuid, FullSignature;
  }

  const SummaryIdNames := {"schema_version", "run_id", "session_id"}

  lemma {:induction false} SummaryIdsConform(a: Closing, runId: string, sessionId: string, count: nat, last: Option<string>, finals: nat, signature: string)
    requires ClosingTyped(a, runId, sessionId)
    ensures forall n | n in SummaryIdNames ::
      SummaryFieldOk(SummaryRecord(a, runId, sessionId, count, last, finals)["signature" := Str(signature)], n)
  {
    hide FullHex, FullUuid, FullSignature;
  }

  lemma {:induction false} SummaryTextsConform(a: Closing, runId: string, sessionId: string, count: nat, last: Option<string>, finals: nat, signature: string)
    requires ClosingTyped(a, runId, sessionId) && FullSignature(signature) && (last.Some? ==> FullHex(last.value))
    ensures forall n | n in SummaryTextNames ::
      SummaryFieldOk(SummaryRecord(a, runId, sessionId, count, last, finals)["signature" := Str(signature)], n)
  {
    hide FullHex, FullUuid, FullSignature, SummaryFieldOk, SummaryRecord;
    SummaryIdsConform(a, runId, sessionId, count, last, finals, signature);
    SummaryDigestsConform(a, runId, sessionId, count, last, finals, signature);
    assert SummaryTextNames == SummaryIdNames + SummaryDigestNames;
  }

  lemma {:induction false} SummaryCountsConform(a: Closing, runId: string, sessionId: string, count: nat, last: Option<string>, finals: nat, signature: string)
    requires ClosingTyped(a, runId, sessionId)
    ensures forall n | n in SummaryCountNames ::
      SummaryFieldOk(SummaryRecord(a, runId, sessionId, count, last, finals)["signature" := Str(signature)], n)
  {
    hide FullHex, FullUuid, FullSignature;
    assert Conforms(Obj(a.counts), Counts);
  }

  lemma {:induction false} SummaryConforms(a: Closing, runId: string, sessionId: string, count: nat, last: Option<string>, finals: nat, signature: string)
    requires ClosingTyped(a, runId, sessionId) && FullSignature(signature) && (last.Some? ==> FullHex(last.value))
    ensures Conforms(Obj(SummaryRecord(a, runId, sessionId, count, last, finals)["signature" := Str(signature)]), SummarySchema)
  {
    hide FullHex, FullUuid, FullSignature, ScalarOk, SummaryRecord;
    var summary := SummaryRecord(a, runId, sessionId, count, last, finals)["signature" := Str(signature)];
    SummaryCounts(a, runId, sessionId, count, last, finals, signature);
    SummaryTextsConform(a, runId, sessionId, count, last, finals, signature);
    SummaryCountsConform(a, runId, sessionId, count, last, finals, signature);
    forall n | n in summary ensures SummaryFieldOk(summary, n) {
    }
    ObjectScalarOk(summary);
  }

  lemma {:induction false} ObjectScalarOk(summary: Record)
    ensures ScalarOk(Obj(summary), SummarySchema)
  {
    assert ObjectType in SummarySchema.types.value && HasType(Obj(summary), ObjectType);
  }

  lemma {:induction false} ClosingAccepted(hash: Hash, runId: string, sessionId: string, records: seq<Record>, record: Record, a: Closing,
                        count: nat, finals: nat, signature: string)
    requires records != [] && records[|records| - 1] == record && count == |records| && finals == FinalCount(Lines(records))
    requires ChainOk(hash, runId, sessionId, Lines(records), |records|)
    requires TypeOf(Get(record, "event_type")) == Some(RunClosed)
    requires Get(record, "durable_outcome_counts") == Obj(a.counts)
    requires ClosingOk(a, runId, sessionId, finals) && FullSignature(signature)
    ensures Accepts(hash, runId, sessionId, Lines(records),
                    SummaryRecord(a, runId, sessionId, count, LastDigest(records), finals)["signature" := Str(signature)])
  {
    hide ChainOk, TypeOf, Conforms, SummaryRecord, FinalCount, SummaryNames, FullHex, FullUuid, FullSignature;
    var last := LastDigest(records);
    LastIsHex(hash, runId, sessionId, records);
    SummaryConforms(a, runId, sessionId, count, last, finals, signature);
    SummaryCounts(a, runId, sessionId, count, last, finals, signature);
  }

  lemma {:induction false} LastIsHex(hash: Hash, runId: string, sessionId: string, records: seq<Record>)
    requires records != [] && ChainOk(hash, runId, sessionId, Lines(records), |records|)
    ensures LastDigest(records).Some? && FullHex(LastDigest(records).value)
  {
    hide FieldsOk, PlaceOk, CanonicalRecord, FullHex;
    assert LineOk(hash, runId, sessionId, Lines(records), |records| - 1);
  }
}
