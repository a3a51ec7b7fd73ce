/** The provenance records as JSON values, and the part of JSON Schema that they are checked with. */
module ProvenanceSchema {
  import opened Prelude

  datatype Json =
    | Null | Bool(b: bool) | Int(i: int) | Float(r: real) | Str(s: string)
    | Arr(items: seq<Json>) | Obj(fields: map<string, Json>)

  type Record = map<string, Json>

  // Equality of the source language: true is 1, and so is 1.0.
  predicate Same(a: Json, b: Json) {
    || a == b
    || (Numeric(a).Some? && Numeric(a) == Numeric(b))
  }

  function Numeric(v: Json): Option<real> {
    match v
    case Bool(b) => Some(if b then 1.0 else 0.0)
    case Int(i) => Some(i as real)
    case Float(r) => Some(r)
    case _ => None
  }

  // ------------------------------------------------------------ patterns

  datatype Pattern = Hex64 | Timestamp | Uuid | Signature

  predicate LowerHex(c: char) {
    '0' <= c <= '9' || 'a' <= c <= 'f'
  }

  predicate Digit(c: char) {
    '0' <= c <= '9'
  }

  predicate FullHex(s: string) {
    |s| == 64 && forall k | 0 <= k < 64 :: LowerHex(s[k])
  }

  predicate FullUuid(s: string) {
    |s| == 36 && forall k | 0 <= k < 36 :: if k in [8, 13, 18, 23] then s[k] == '-' else LowerHex(s[k])
  }

  predicate FullTimestamp(s: string) {
    && |s| >= 20 && s[|s| - 1] == 'Z'
    && (forall k | 0 <= k < 19 ::
          if k in [4, 7] then s[k] == '-' else if k == 10 then s[k] == 'T' else if k in [13, 16] then s[k] == ':' else Digit(s[k]))
    && (|s| > 20 ==> s[19] == '.' && |s| > 21 && forall k | 20 <= k < |s| - 1 :: Digit(s[k]))
  }

  predicate FullSignature(s: string) {
    |s| == 86 && forall k | 0 <= k < 86 ::
      Digit(s[k]) || 'a' <= s[k] <= 'z' || 'A' <= s[k] <= 'Z' || s[k] == '_' || s[k] == '-'
  }

  predicate FullMatch(p: Pattern, s: string) {
    match p
    case Hex64 => FullHex(s)
    case Timestamp => FullTimestamp(s)
    case Uuid => FullUuid(s)
    case Signature => FullSignature(s)
  }

  // A search with `$` also accepts one newline at the end.
  predicate Found(p: Pattern, s: string) {
    FullMatch(p, s) || (|s| > 0 && s[|s| - 1] == '\n' && FullMatch(p, s[..|s| - 1]))
  }

  // ------------------------------------------------------------ schemas

  datatype TypeName = StringType | IntegerType | BooleanType | NullType | ObjectType | ArrayType

  datatype Extra = Allowed | Forbidden | Checked(schema: Schema)

  datatype Schema = Schema(
    const_: Option<Json>, enum: Option<seq<string>>, types: Option<set<TypeName>>, pattern: Option<Pattern>,
    minLength: nat, minimum: Option<int>, maximum: Option<int>, required: set<string>,
    properties: map<string, Schema>, extra: Extra, items: Option<Schema>)

  const Anything := Schema(None, None, None, None, 0, None, None, {}, map[], Allowed, None)

  predicate HasType(v: Json, t: TypeName) {
    match t
    case StringType => v.Str?
    case IntegerType => v.Int?
    case BooleanType => v.Bool?
    case NullType => v.Null?
    case ObjectType => v.Obj?
    case ArrayType => v.Arr?
  }

  predicate TypeOk(v: Json, s: Schema) {
    s.types.Some? ==> exists t :: t in s.types.value && HasType(v, t)
  }

  predicate ScalarOk(v: Json, s: Schema) {
    && (s.const_.Some? ==> Same(v, s.const_.value))
    && (s.enum.Some? ==> v.Str? && v.s in s.enum.value)
    && TypeOk(v, s)
    && (v.Str? && s.pattern.Some? ==> Found(s.pattern.value, v.s))
    && (v.Str? ==> |v.s| >= s.minLength)
    && (v.Int? ==> (s.minimum.Some? ==> v.i >= s.minimum.value) && (s.maximum.Some? ==> v.i <= s.maximum.value))
  }

  // The schema check finds no error.
  predicate Conforms(v: Json, s: Schema) {
    && ScalarOk(v, s)
    && (v.Obj? ==>
          && s.required <= v.fields.Keys
          && forall n | n in v.fields ::
               if n in s.properties then Conforms(v.fields[n], s.properties[n])
               else match s.extra
                    case Allowed => true
                    case Forbidden => false
                    case Checked(extra) => Conforms(v.fields[n], extra))
    && (v.Arr? && s.items.Some? ==> forall k | 0 <= k < |v.items| :: Conforms(v.items[k], s.items.value))
  }

  // ------------------------------------------------------------ the record schema

  const SCHEMA_VERSION := 1

  function Typed(t: TypeName): Schema {
    Anything.(types := Some({t}))
  }

  function Patterned(p: Pattern): Schema {
    Typed(StringType).(pattern := Some(p))
  }

  function OneOf(values: seq<string>): Schema {
    Anything.(enum := Some(values))
  }

  const Text := Typed(StringType)
  const HexText := Patterned(Hex64)
  const Time := Patterned(Timestamp)
  const Count := Typed(IntegerType).(minimum := Some(0))
  const Counts := Typed(ObjectType).(extra := Checked(Count))
  const NullableText := Anything.(types := Some({StringType, NullType}))
  const NullableHex := NullableText.(pattern := Some(Hex64))

  const Validation := Typed(ObjectType).(
    extra := Forbidden, required := {"available", "compared", "value"},
    properties := map["available" := Typed(BooleanType), "compared" := Typed(BooleanType), "value" := Anything])

  datatype EventType = RunStarted | AttemptFinished | FinalizedEvent | CandidateCreatedEvent | RunClosed | LocalFailure

  function TypeText(t: EventType): string {
    match t
    case RunStarted => "run_started"
    case AttemptFinished => "attempt_finished"
    case FinalizedEvent => "finalized"
    case CandidateCreatedEvent => "candidate_created"
    case RunClosed => "run_closed"
    case LocalFailure => "local_failure"
  }

  // EVENT_FIELD_RULES
  function FieldRules(t: EventType): map<string, Schema> {
    match t
    case RunStarted =>
      map["queue_input_digests" := Typed(ArrayType), "selection_settings" := Typed(ObjectType),
          "selected_item_count" := Count]
    case AttemptFinished =>
      map["item_id" := HexText, "source_url" := Text,
          "attempt_number" := Typed(IntegerType).(minimum := Some(1)),
          "request_started_at" := Time, "request_finished_at" := Time, "final_url" := NullableText,
          "redirect_chain" := Typed(ArrayType).(items := Some(Text)),
          "http_status" := Anything.(types := Some({IntegerType, NullType}), minimum := Some(100), maximum := Some(599)),
          "outcome" := OneOf(["success", "retryable_failure", "unavailable", "access_denied", "validation_failed", "stopped"]),
          "response_content_length" := NullableText, "response_content_range" := NullableText,
          "response_content_type" := NullableText, "response_etag" := NullableText,
          "response_last_modified" := NullableText]
    case FinalizedEvent =>
      map["item_id" := HexText, "source_url" := Text, "logical_relative_path" := Text, "final_relative_path" := Text,
          "byte_count" := Count, "sha256" := HexText, "validation_method_version" := Text, "finalized_at" := Time,
          "expected_size" := Validation, "expected_checksum" := Validation, "etag" := Validation,
          "last_modified" := Validation]
    case CandidateCreatedEvent =>
      map["item_id" := HexText, "staging_relative_path" := Text, "candidate_relative_path" := Text,
          "sha256" := NullableHex,
          "finalization_failure_reason" := OneOf(["validation_failed", "destination_collision", "unsafe_path",
                                                  "promotion_error", "recovery_review"])]
    case RunClosed =>
      map["closed_at" := Time,
          "close_reason" := OneOf(["finished", "stopped", "time_limit", "local_failure", "interrupted"]),
          "durable_outcome_counts" := Counts]
    case LocalFailure =>
      map["failure_code" := OneOf(["record_write", "database_write", "permission", "storage", "other_local_failure"]),
          "failure_detail" := Text]
  }

  // EVENT_FIELDS, which the verifier lists again by hand
  function FieldNames(t: EventType): set<string> {
    match t
    case RunStarted => {"queue_input_digests", "selection_settings", "selected_item_count"}
    case AttemptFinished =>
      {"item_id", "source_url", "attempt_number", "request_started_at", "request_finished_at", "final_url",
       "redirect_chain", "http_status", "outcome", "response_content_length", "response_content_range",
       "response_content_type", "response_etag", "response_last_modified"}
    case FinalizedEvent =>
      {"item_id", "source_url", "logical_relative_path", "final_relative_path", "byte_count", "sha256",
       "validation_method_version", "finalized_at", "expected_size", "expected_checksum", "etag", "last_modified"}
    case CandidateCreatedEvent =>
      {"item_id", "staging_relative_path", "candidate_relative_path", "sha256", "finalization_failure_reason"}
    case RunClosed => {"closed_at", "close_reason", "durable_outcome_counts"}
    case LocalFailure => {"failure_code", "failure_detail"}
  }

  const CommonNames := {"schema_version", "event_id", "sequence", "event_type", "run_id", "session_id", "recorded_at",
                        "previous_digest", "event_digest"}

  function BaseRules(t: EventType): map<string, Schema> {
    map["schema_version" := Anything.(const_ := Some(Int(SCHEMA_VERSION))), "event_id" := Patterned(Uuid),
        "sequence" := Typed(IntegerType).(minimum := Some(1)),
        "event_type" := Anything.(const_ := Some(Str(TypeText(t)))),
        "run_id" := Text.(minLength := 1), "session_id" := Patterned(Uuid), "recorded_at" := Time,
        "previous_digest" := NullableHex, "event_digest" := HexText]
  }

  function EventSchema(t: EventType): Schema {
    Typed(ObjectType).(extra := Forbidden, required := CommonNames + FieldRules(t).Keys,
                       properties := BaseRules(t) + FieldRules(t))
  }

  // The two lists of fields are one.
  lemma {:induction false} FieldListsAgree(t: EventType)
    ensures FieldRules(t).Keys == FieldNames(t)
    ensures BaseRules(t).Keys == CommonNames
  {
    match t
    case RunStarted => assert FieldRules(RunStarted).Keys == FieldNames(RunStarted);
    case AttemptFinished => assert FieldRules(AttemptFinished).Keys == FieldNames(AttemptFinished);
    case FinalizedEvent => assert FieldRules(FinalizedEvent).Keys == FieldNames(FinalizedEvent);
    case CandidateCreatedEvent => assert FieldRules(CandidateCreatedEvent).Keys == FieldNames(CandidateCreatedEvent);
    case RunClosed => assert FieldRules(RunClosed).Keys == FieldNames(RunClosed);
    case LocalFailure => assert FieldRules(LocalFailure).Keys == FieldNames(LocalFailure);
  }

  // An event without a schema error has exactly the fields that the verifier asks for.
  lemma {:induction false} ConformingEventHasExactFields(record: Record, t: EventType)
    requires Conforms(Obj(record), EventSchema(t))
    ensures record.Keys == CommonNames + FieldNames(t)
  {
    hide FieldRules, BaseRules, FieldNames, CommonNames, Same, Found;
    FieldListsAgree(t);
    assert EventSchema(t).properties.Keys == BaseRules(t).Keys + FieldRules(t).Keys;
    forall n | n in record ensures n in CommonNames + FieldNames(t) {
      assert n in EventSchema(t).properties;
    }
  }
}
