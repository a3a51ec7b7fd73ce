/** The independent verifier of a provenance record set: what it accepts, the loop that decides
    it, and what acceptance rules out. */
module ProvenanceVerifier {
  import opened Prelude
  import opened ProvenanceSchema

  // SHA-256 over the canonical JSON of a record, in hexadecimal.
  type Hash = Record -> string

  // One line of the event file: None is invalid JSON.
  type Line = Option<Json>

  function Get(e: Record, name: string): Json {
    if name in e then e[name] else Null
  }

  function TypeOf(v: Json): Option<EventType> {
    if v == Str("run_started") then Some(RunStarted)
    else if v == Str("attempt_finished") then Some(AttemptFinished)
    else if v == Str("finalized") then Some(FinalizedEvent)
    else if v == Str("candidate_created") then Some(CandidateCreatedEvent)
    else if v == Str("run_closed") then Some(RunClosed)
    else if v == Str("local_failure") then Some(LocalFailure)
    else None
  }

  lemma {:induction false} TypeOfText(t: EventType)
    ensures TypeOf(Str(TypeText(t))) == Some(t)
  {
  }

  // canonical_json refuses floats.
  predicate Canonical(v: Json) {
    && !v.Float?
    && (v.Obj? ==> forall n | n in v.fields :: Canonical(v.fields[n]))
    && (v.Arr? ==> forall k | 0 <= k < |v.items| :: Canonical(v.items[k]))
  }

  predicate CanonicalRecord(e: Record) {
    forall n | n in e :: Canonical(e[n])
  }

  const ValidatorNames := ["expected_size", "expected_checksum", "etag", "last_modified"]

  // An unavailable validator was not compared and has no value.
  predicate ValidatorOk(v: Json) {
    v.Obj? && Get(v.fields, "available") == Bool(false) ==>
      Get(v.fields, "compared") == Bool(false) && Get(v.fields, "value") == Null
  }

  predicate ValidatorsOk(e: Record) {
    forall k | 0 <= k < |ValidatorNames| :: ValidatorOk(Get(e, ValidatorNames[k]))
  }

  predicate Finalized(e: Record) {
    TypeOf(Get(e, "event_type")) == Some(FinalizedEvent)
  }

  // Where an event must stand: its number, the digest before it, the event IDs before it.
  datatype Place = Place(runId: string, sessionId: string, number: nat, previous: Option<string>, seen: set<Json>)

  function Text_(digest: Option<string>): Json {
    if digest.Some? then Str(digest.value) else Null
  }

  predicate FieldsOk(e: Record) {
    var t := TypeOf(Get(e, "event_type"));
    && CommonNames <= e.Keys && Same(Get(e, "schema_version"), Int(SCHEMA_VERSION)) && t.Some?
    && e.Keys == CommonNames + FieldNames(t.value) && Conforms(Obj(e), EventSchema(t.value))
    && (t.value.FinalizedEvent? ==> ValidatorsOk(e))
  }

  predicate PlaceOk(e: Record, p: Place) {
    && Get(e, "run_id") == Str(p.runId) && Get(e, "session_id") == Str(p.sessionId)
    && Same(Get(e, "sequence"), Int(p.number)) && Get(e, "event_id") !in p.seen
    && Get(e, "previous_digest") == Text_(p.previous)
  }

  predicate DigestOk(hash: Hash, e: Record) {
    var without := e - {"event_digest"};
    && Get(e, "event_digest").Str? && FullHex(Get(e, "event_digest").s)
    && CanonicalRecord(without) && Get(e, "event_digest") == Str(hash(without))
  }

  predicate EventOk(hash: Hash, line: Line, p: Place) {
    line.Some? && line.value.Obj? && FieldsOk(line.value.fields) && PlaceOk(line.value.fields, p)
    && DigestOk(hash, line.value.fields)
  }

  // ------------------------------------------------------------ a whole file

  function Field(line: Line, name: string): Json {
    if line.Some? && line.value.Obj? then Get(line.value.fields, name) else Null
  }

  function DigestOf(line: Line): Option<string> {
    var v := Field(line, "event_digest");
    if v.Str? then Some(v.s) else None
  }

  function Ids(lines: seq<Line>): set<Json> {
    set k | 0 <= k < |lines| :: Field(lines[k], "event_id")
  }

  function PlaceOf(runId: string, sessionId: string, lines: seq<Line>, k: nat): Place
    requires k <= |lines|
  {
    Place(runId, sessionId, k + 1, if k == 0 then None else DigestOf(lines[k - 1]), Ids(lines[..k]))
  }

  predicate LineOk(hash: Hash, runId: string, sessionId: string, lines: seq<Line>, k: nat)
    requires k < |lines|
  {
    EventOk(hash, lines[k], PlaceOf(runId, sessionId, lines, k))
  }

  predicate ChainOk(hash: Hash, runId: string, sessionId: string, lines: seq<Line>, n: nat)
    requires n <= |lines|
  {
    forall k | 0 <= k < n :: LineOk(hash, runId, sessionId, lines, k)
  }

  predicate IsFinalized(line: Line) {
    line.Some? && line.value.Obj? && Finalized(line.value.fields)
  }

  function FinalCount(lines: seq<Line>): nat {
    if lines == [] then 0 else FinalCount(lines[..|lines| - 1]) + if IsFinalized(lines[|lines| - 1]) then 1 else 0
  }

  const SummaryNames := {"schema_version", "run_id", "session_id", "queue_input_digests", "selection_settings",
                         "event_count", "final_event_digest", "selected_item_count", "durable_outcome_counts",
                         "session_finalized_count", "schema_sha256", "signing_key_fingerprint", "signature"}

  const SummarySchema := Typed(ObjectType).(
    extra := Forbidden, required := SummaryNames,
    properties := map["schema_version" := Anything.(const_ := Some(Int(SCHEMA_VERSION))),
                      "run_id" := Text.(minLength := 1), "session_id" := Patterned(Uuid),
                      "queue_input_digests" := Typed(ArrayType), "selection_settings" := Typed(ObjectType),
                      "event_count" := Count, "final_event_digest" := NullableHex, "selected_item_count" := Count,
                      "durable_outcome_counts" := Counts, "session_finalized_count" := Count,
                      "schema_sha256" := HexText, "signing_key_fingerprint" := HexText,
                      "signature" := Patterned(Signature)])

  function Last(lines: seq<Line>): Line {
    if lines == [] then None else lines[|lines| - 1]
  }

  predicate CountsOk(lines: seq<Line>, summary: Record) {
    && Same(Get(summary, "event_count"), Int(|lines|))
    && Get(summary, "final_event_digest") == Text_(DigestOf(Last(lines)))
    && (lines != [] ==>
          TypeOf(Field(Last(lines), "event_type")) == Some(RunClosed)
          && Field(Last(lines), "durable_outcome_counts") == Get(summary, "durable_outcome_counts"))
    && FinalsOk(lines, summary)
  }

  // The run total covers all sessions, so it may exceed the finalized events of this one.
  predicate FinalsOk(lines: seq<Line>, summary: Record) {
    var counts, session := Get(summary, "durable_outcome_counts"), Get(summary, "session_finalized_count");
    counts.Obj? && session.Int? ==>
      session.i == FinalCount(lines)
      && var complete := if "complete" in counts.fields then counts.fields["complete"] else Int(0);
         Numeric(complete).Some? && Numeric(complete).value >= session.i as real
  }

  predicate SummaryOk(runId: string, sessionId: string, summary: Record) {
    && summary.Keys == SummaryNames && Get(summary, "run_id") == Str(runId) && Get(summary, "session_id") == Str(sessionId)
    && Conforms(Obj(summary), SummarySchema)
  }

  // What the verifier finds no error in.
  predicate Accepts(hash: Hash, runId: string, sessionId: string, lines: seq<Line>, summary: Record) {
    ChainOk(hash, runId, sessionId, lines, |lines|) && SummaryOk(runId, sessionId, summary) && CountsOk(lines, summary)
  }

  // ------------------------------------------------------------ the loop

  method CheckEvent(hash: Hash, event: Json, p: Place, errors: nat) returns (actual: Option<string>, errors': nat, seen: set<Json>)
    ensures errors' >= errors && (errors' == errors <==> EventOk(hash, Some(event), p))
    ensures actual == DigestOf(Some(event))
    ensures seen == if event.Obj? then p.seen + {Get(event.fields, "event_id")} else p.seen
  {
    hide Conforms, FieldNames, CommonNames, EventSchema, ValidatorsOk, CanonicalRecord, FullHex;
    errors', seen, actual := errors, p.seen, None;
    if !event.Obj? {
      errors' := errors' + 1;
      return;
    }
    var e := event.fields;
    if !(CommonNames <= e.Keys) { errors' := errors' + 1; }
    if !Same(Get(e, "schema_version"), Int(SCHEMA_VERSION)) { errors' := errors' + 1; }
    var t := TypeOf(Get(e, "event_type"));
    if t.None? {
      errors' := errors' + 1;
    } else {
      if e.Keys != CommonNames + FieldNames(t.value) { errors' := errors' + 1; }
      if !Conforms(event, EventSchema(t.value)) { errors' := errors' + 1; }
      if t.value.FinalizedEvent? && !ValidatorsOk(e) { errors' := errors' + 1; }
    }
    if Get(e, "run_id") != Str(p.runId) || Get(e, "session_id") != Str(p.sessionId) { errors' := errors' + 1; }
    if !Same(Get(e, "sequence"), Int(p.number)) { errors' := errors' + 1; }
    if Get(e, "event_id") in p.seen { errors' := errors' + 1; }
    seen := p.seen + {Get(e, "event_id")};
    if Get(e, "previous_digest") != Text_(p.previous) { errors' := errors' + 1; }
    var value := Get(e, "event_digest");
    var without := e - {"event_digest"};
    if !value.Str? || !FullHex(value.s) || !CanonicalRecord(without) || value != Str(hash(without)) { errors' := errors' + 1; }
    actual := if value.Str? then Some(value.s) else None;
  }

  method Verify(hash: Hash, runId: string, sessionId: string, lines: seq<Line>, summary: Record) returns (errors: nat)
    ensures errors == 0 <==> Accepts(hash, runId, sessionId, lines, summary)
  {
    hide EventOk, SummaryOk;
    errors := 0;
    if !SummaryOk(runId, sessionId, summary) { errors := 1; }
    ghost var before := errors;
    var previous: Option<string>, seen: set<Json>, finals, last: Line := None, {}, 0, None;
    var k := 0;
    while k < |lines|
      invariant 0 <= k <= |lines| && errors >= before
      invariant errors == before <==> ChainOk(hash, runId, sessionId, lines, k)
      invariant errors == before ==> Place(runId, sessionId, k + 1, previous, seen) == PlaceOf(runId, sessionId, lines, k)
      invariant errors == before ==> finals == FinalCount(lines[..k]) && last == Last(lines[..k])
    {
      assert lines[..k + 1][..k] == lines[..k];
      IdsGrow(lines, k);
      if lines[k].None? {
        errors := errors + 1;
        UnreadableLine(hash, runId, sessionId, lines, k);
      } else {
        ghost var was := errors;
        ghost var place := Place(runId, sessionId, k + 1, previous, seen);
        previous, errors, seen := CheckEvent(hash, lines[k].value, Place(runId, sessionId, k + 1, previous, seen), errors);
        last := lines[k];
        if IsFinalized(last) { finals := finals + 1; }
        if was == before {
          assert errors == was <==> LineOk(hash, runId, sessionId, lines, k);
          AcceptedLine(hash, lines[k], place);
        }
      }
      k := k + 1;
    }
    assert lines[..k] == lines;
    if !Same(Get(summary, "event_count"), Int(|lines|)) { errors := errors + 1; }
    if Get(summary, "final_event_digest") != Text_(previous) { errors := errors + 1; }
    if lines != [] && (TypeOf(Field(last, "event_type")) != Some(RunClosed)
                       || Field(last, "durable_outcome_counts") != Get(summary, "durable_outcome_counts")) {
      errors := errors + 1;
    }
    var counts, session := Get(summary, "durable_outcome_counts"), Get(summary, "session_finalized_count");
    if counts.Obj? && session.Int? {
      var complete := if "complete" in counts.fields then counts.fields["complete"] else Int(0);
      if session.i != finals || Numeric(complete).None? || Numeric(complete).value < session.i as real {
        errors := errors + 1;
      }
    }
  }

  lemma {:induction false} IdsGrow(lines: seq<Line>, k: nat)
    requires k < |lines|
    ensures Ids(lines[..k + 1]) == Ids(lines[..k]) + {Field(lines[k], "event_id")}
  {
    forall v | v in Ids(lines[..k + 1]) ensures v in Ids(lines[..k]) + {Field(lines[k], "event_id")} {
      var n :| 0 <= n < k + 1 && v == Field(lines[..k + 1][n], "event_id");
      if n < k {
        assert lines[..k][n] == lines[n];
      }
    }
    forall v | v in Ids(lines[..k]) ensures v in Ids(lines[..k + 1]) {
      var n :| 0 <= n < k && v == Field(lines[..k][n], "event_id");
      assert lines[..k + 1][n] == lines[n];
    }
    assert lines[..k + 1][k] == lines[k];
  }

  lemma {:induction false} UnreadableLine(hash: Hash, runId: string, sessionId: string, lines: seq<Line>, k: nat)
    requires k < |lines| && lines[k].None?
    ensures !LineOk(hash, runId, sessionId, lines, k)
  {
  }

  lemma {:induction false} AcceptedLine(hash: Hash, line: Line, p: Place)
    ensures EventOk(hash, line, p) ==> line.Some? && line.value.Obj?
  {
  }
}
