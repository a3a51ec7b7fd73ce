/** What the record schema and the verifier accept, field by field, without the schema's interpreter. */
module ProvenanceMeaning {
  import opened Prelude
  import opened ProvenanceSchema
  import opened ProvenanceVerifier

  // ------------------------------------------------------------ patterns

  predicate Decimals(s: string) {
    forall k | 0 <= k < |s| :: 48 <= s[k] as int <= 57
  }

  predicate Hexes(s: string, n: nat) {
    |s| == n && forall k | 0 <= k < n :: 48 <= s[k] as int <= 57 || 97 <= s[k] as int <= 102
  }

  // Letters, digits, underscore and hyphen.
  predicate Base64(s: string, n: nat) {
    |s| == n && forall k | 0 <= k < n ::
      var c := s[k] as int; 48 <= c <= 57 || 65 <= c <= 90 || 97 <= c <= 122 || c == 95 || c == 45
  }

  predicate Grouped(s: string) {
    |s| == 36 && s[8] == s[13] == s[18] == s[23] == '-'
    && Hexes(s[..8], 8) && Hexes(s[9..13], 4) && Hexes(s[14..18], 4) && Hexes(s[19..23], 4) && Hexes(s[24..], 12)
  }

  // Year, month, day, hour, minute, second, and then nothing or a point and digits, in universal time.
  predicate Dated(s: string) {
    && |s| >= 20 && s[|s| - 1] == 'Z' && s[4] == s[7] == '-' && s[10] == 'T' && s[13] == s[16] == ':'
    && Decimals(s[..4]) && Decimals(s[5..7]) && Decimals(s[8..10]) && Decimals(s[11..13]) && Decimals(s[14..16])
    && Decimals(s[17..19])
    && (|s| == 20 || (|s| > 21 && s[19] == '.' && Decimals(s[20..|s| - 1])))
  }

  predicate Form(p: Pattern, s: string) {
    match p
    case Hex64 => Hexes(s, 64)
    case Timestamp => Dated(s)
    case Uuid => Grouped(s)
    case Signature => Base64(s, 86)
  }

  // The form itself, or the form and one newline.
  ghost predicate Written(p: Pattern, s: string) {
    exists core: string :: Form(p, core) && (s == core || s == core + "\n")
  }

  lemma {:induction false} FormIs(p: Pattern, s: string)
    ensures FullMatch(p, s) <==> Form(p, s)
  {
    match p
    case Hex64 => HexIs(s, 64);
    case Signature =>
    case Uuid => GroupedIs(s);
    case Timestamp => DatedIs(s);
  }

  lemma {:induction false} HexIs(s: string, n: nat)
    ensures (|s| == n && forall k | 0 <= k < n :: LowerHex(s[k])) <==> Hexes(s, n)
  {
  }

  lemma {:induction false} GroupedIs(s: string)
    ensures FullUuid(s) <==> Grouped(s)
  {
    if FullUuid(s) {
      forall k | 0 <= k < 36 && k !in [8, 13, 18, 23] ensures LowerHex(s[k]) {
      }
      assert Grouped(s);
    }
    if Grouped(s) {
      assert forall k | 0 <= k < 8 :: s[..8][k] == s[k];
      assert forall k | 9 <= k < 13 :: s[9..13][k - 9] == s[k];
      assert forall k | 14 <= k < 18 :: s[14..18][k - 14] == s[k];
      assert forall k | 19 <= k < 23 :: s[19..23][k - 19] == s[k];
      assert forall k | 24 <= k < 36 :: s[24..][k - 24] == s[k];
    }
  }

  lemma {:induction false} TimestampIsDated(s: string)
    requires FullTimestamp(s)
    ensures Dated(s)
  {
    forall k | 0 <= k < 19 && k !in [4, 7, 10, 13, 16] ensures Digit(s[k]) {
    }
  }

  lemma {:induction false} DatedIs(s: string)
    ensures FullTimestamp(s) <==> Dated(s)
  {
    if FullTimestamp(s) {
      TimestampIsDated(s);
    }
    if Dated(s) {
      assert forall k | 0 <= k < 4 :: s[..4][k] == s[k];
      assert forall k | 5 <= k < 7 :: s[5..7][k - 5] == s[k];
      assert forall k | 8 <= k < 10 :: s[8..10][k - 8] == s[k];
      assert forall k | 11 <= k < 13 :: s[11..13][k - 11] == s[k];
      assert forall k | 14 <= k < 16 :: s[14..16][k - 14] == s[k];
      assert forall k | 17 <= k < 19 :: s[17..19][k - 17] == s[k];
      if |s| > 20 {
        assert forall k | 20 <= k < |s| - 1 :: s[20..|s| - 1][k - 20] == s[k];
      }
    }
  }

  lemma {:induction false} FoundIs(p: Pattern, s: string)
    ensures Found(p, s) <==> Written(p, s)
  {
    hide FullMatch, Form;
    FormIs(p, s);
    if |s| > 0 && s[|s| - 1] == '\n' {
      FormIs(p, s[..|s| - 1]);
      assert s == s[..|s| - 1] + "\n";
    }
    forall core: string | s == core + "\n" ensures |s| > 0 && s[|s| - 1] == '\n' && s[..|s| - 1] == core {
    }
  }

  // ------------------------------------------------------------ kinds of fields

  ghost predicate TextOf(p: Pattern, v: Json) {
    v.Str? && Written(p, v.s)
  }

  predicate Tallies(v: Json) {
    v.Obj? && forall n | n in v.fields :: v.fields[n].Int? && v.fields[n].i >= 0
  }

  predicate Validator(v: Json) {
    && v.Obj? && v.fields.Keys == {"available", "compared", "value"}
    && v.fields["available"].Bool? && v.fields["compared"].Bool?
  }

  predicate Nullable(v: Json) {
    v.Null? || v.Str?
  }

  // One, in the equality of the source language.
  predicate Unit(v: Json) {
    v == Int(1) || v == Bool(true) || v == Float(1.0)
  }

  lemma {:induction false} PlainKinds(v: Json)
    ensures Conforms(v, Count) <==> v.Int? && v.i >= 0
    ensures Conforms(v, Text) <==> v.Str?
    ensures Conforms(v, NullableText) <==> Nullable(v)
    ensures Conforms(v, Typed(ArrayType)) <==> v.Arr?
    ensures Conforms(v, Typed(ObjectType)) <==> v.Obj?
    ensures Conforms(v, Typed(IntegerType).(minimum := Some(1))) <==> v.Int? && v.i >= 1
    ensures Conforms(v, Text.(minLength := 1)) <==> v.Str? && v.s != ""
  {
    OneType(v, StringType);
    OneType(v, IntegerType);
    OneType(v, ArrayType);
    OneType(v, ObjectType);
    NullableType(v);
  }

  lemma {:induction false} OneType(v: Json, t: TypeName)
    ensures TypeOk(v, Typed(t)) <==> HasType(v, t)
  {
    assert t in Typed(t).types.value;
  }

  lemma {:induction false} NullableType(v: Json)
    ensures TypeOk(v, NullableText) <==> v.Str? || v.Null?
  {
    assert StringType in NullableText.types.value && NullType in NullableText.types.value;
  }

  lemma {:induction false} TextKinds(v: Json, p: Pattern)
    ensures Conforms(v, Patterned(p)) <==> TextOf(p, v)
    ensures Conforms(v, NullableHex) <==> v.Null? || TextOf(Hex64, v)
  {
    hide Found, Written;
    OneType(v, StringType);
    NullableType(v);
    assert TypeOk(v, Patterned(p)) <==> TypeOk(v, Typed(StringType));
    assert TypeOk(v, NullableHex) <==> TypeOk(v, NullableText);
    if v.Str? {
      FoundIs(p, v.s);
      FoundIs(Hex64, v.s);
    }
  }

  lemma {:induction false} ListKinds(v: Json, values: seq<string>, text: string)
    ensures Conforms(v, OneOf(values)) <==> v.Str? && v.s in values
    ensures Conforms(v, Anything.(const_ := Some(Int(1)))) <==> Unit(v)
    ensures Conforms(v, Anything.(const_ := Some(Str(text)))) <==> v == Str(text)
    ensures Conforms(v, Typed(ArrayType).(items := Some(Text))) <==> v.Arr? && forall k | 0 <= k < |v.items| :: v.items[k].Str?
    ensures Conforms(v, Anything.(types := Some({IntegerType, NullType}), minimum := Some(100), maximum := Some(599)))
            <==> v.Null? || (v.Int? && 100 <= v.i <= 599)
  {
    OneType(v, ArrayType);
    assert TypeOk(v, Typed(ArrayType).(items := Some(Text))) <==> TypeOk(v, Typed(ArrayType));
    if v.Arr? {
      forall k | 0 <= k < |v.items| ensures Conforms(v.items[k], Text) <==> v.items[k].Str? {
        PlainKinds(v.items[k]);
      }
    }
    var status := Anything.(types := Some({IntegerType, NullType}), minimum := Some(100), maximum := Some(599));
    assert IntegerType in status.types.value && NullType in status.types.value;
  }

  lemma {:induction false} EnumKind(v: Json, values: seq<string>)
    ensures Conforms(v, OneOf(values)) <==> v.Str? && v.s in values
  {
    ListKinds(v, values, "");
  }

  lemma {:induction false} TextsKind(v: Json)
    ensures Conforms(v, Typed(ArrayType).(items := Some(Text))) <==> v.Arr? && forall k | 0 <= k < |v.items| :: v.items[k].Str?
  {
    ListKinds(v, [], "");
  }

  lemma {:induction false} StatusKind(v: Json)
    ensures Conforms(v, Anything.(types := Some({IntegerType, NullType}), minimum := Some(100), maximum := Some(599)))
            <==> v.Null? || (v.Int? && 100 <= v.i <= 599)
  {
    ListKinds(v, [], "");
  }

  lemma {:induction false} TextKind(v: Json)
    ensures Conforms(v, Text) <==> v.Str?
  {
    PlainKinds(v);
  }

  lemma {:induction false} NullableKind(v: Json)
    ensures Conforms(v, NullableText) <==> Nullable(v)
  {
    PlainKinds(v);
  }

  lemma {:induction false} CountKind(v: Json)
    ensures Conforms(v, Count) <==> v.Int? && v.i >= 0
    ensures Conforms(v, Typed(IntegerType).(minimum := Some(1))) <==> v.Int? && v.i >= 1
  {
    PlainKinds(v);
  }

  lemma {:induction false} PatternKind(v: Json, p: Pattern)
    ensures Conforms(v, Patterned(p)) <==> TextOf(p, v)
  {
    TextKinds(v, p);
  }

  // An object with exactly the listed fields, each by its own schema.
  predicate Closed(s: Schema) {
    && s.const_.None? && s.enum.None? && s.types == Some({ObjectType}) && s.extra.Forbidden?
    && s.required == s.properties.Keys
  }

  lemma {:induction false} ClosedObject(v: Json, s: Schema)
    requires Closed(s)
    ensures Conforms(v, s) <==>
              v.Obj? && v.fields.Keys == s.properties.Keys && forall n | n in v.fields :: Conforms(v.fields[n], s.properties[n])
  {
    hide Same, Found;
    OneType(v, ObjectType);
    assert TypeOk(v, s) <==> TypeOk(v, Typed(ObjectType));
  }

  lemma {:induction false} ValidationIs(v: Json)
    ensures Conforms(v, Validation) <==> Validator(v)
  {
    hide Conforms;
    assert Validation.properties.Keys == {"available", "compared", "value"};
    ClosedObject(v, Validation);
    if v.Obj? && v.fields.Keys == {"available", "compared", "value"} {
      BooleanIs(v.fields["available"]);
      BooleanIs(v.fields["compared"]);
      assert Conforms(v.fields["value"], Anything) by {
        AnythingGoes(v.fields["value"]);
      }
    }
  }

  lemma {:induction false} BooleanIs(v: Json)
    ensures Conforms(v, Typed(BooleanType)) <==> v.Bool?
  {
    OneType(v, BooleanType);
  }

  lemma {:induction false} AnythingGoes(v: Json)
    ensures Conforms(v, Anything)
  {
  }

  lemma {:induction false} CountsAre(v: Json)
    ensures Conforms(v, Counts) <==> Tallies(v)
  {
    OneType(v, ObjectType);
    assert TypeOk(v, Counts) <==> TypeOk(v, Typed(ObjectType));
    if v.Obj? {
      forall n | n in v.fields ensures Conforms(v.fields[n], Count) <==> v.fields[n].Int? && v.fields[n].i >= 0 {
        PlainKinds(v.fields[n]);
      }
    }
  }

  // ------------------------------------------------------------ an event

  ghost predicate CommonRight(e: Record) {
    && Unit(Get(e, "schema_version")) && TextOf(Uuid, Get(e, "event_id")) && Get(e, "sequence").Int? && Get(e, "sequence").i >= 1
    && Get(e, "run_id").Str? && Get(e, "run_id").s != "" && TextOf(Uuid, Get(e, "session_id"))
    && TextOf(Timestamp, Get(e, "recorded_at")) && TextOf(Hex64, Get(e, "event_digest"))
    && (Get(e, "previous_digest").Null? || TextOf(Hex64, Get(e, "previous_digest")))
  }

  ghost predicate StartRight(e: Record) {
    && Get(e, "event_type") == Str("run_started") && Get(e, "queue_input_digests").Arr? && Get(e, "selection_settings").Obj?
    && Get(e, "selected_item_count").Int? && Get(e, "selected_item_count").i >= 0
  }

  ghost predicate RequestRight(e: Record) {
    && TextOf(Hex64, Get(e, "item_id")) && Get(e, "source_url").Str?
    && Get(e, "attempt_number").Int? && Get(e, "attempt_number").i >= 1
    && TextOf(Timestamp, Get(e, "request_started_at")) && TextOf(Timestamp, Get(e, "request_finished_at"))
  }

  ghost predicate OutcomeRight(e: Record) {
    && Get(e, "redirect_chain").Arr? && (forall k | 0 <= k < |Get(e, "redirect_chain").items| :: Get(e, "redirect_chain").items[k].Str?)
    && (Get(e, "http_status").Null? || (Get(e, "http_status").Int? && 100 <= Get(e, "http_status").i <= 599))
    && Get(e, "outcome").Str?
    && Get(e, "outcome").s in ["success", "retryable_failure", "unavailable", "access_denied", "validation_failed", "stopped"]
  }

  ghost predicate ResponseRight(e: Record) {
    && Nullable(Get(e, "final_url")) && Nullable(Get(e, "response_content_length")) && Nullable(Get(e, "response_content_range"))
    && Nullable(Get(e, "response_content_type")) && Nullable(Get(e, "response_etag")) && Nullable(Get(e, "response_last_modified"))
  }

  ghost predicate AttemptRight(e: Record) {
    Get(e, "event_type") == Str("attempt_finished") && RequestRight(e) && OutcomeRight(e) && ResponseRight(e)
  }

  ghost predicate FiledRight(e: Record) {
    && TextOf(Hex64, Get(e, "item_id")) && Get(e, "source_url").Str?
    && Get(e, "logical_relative_path").Str? && Get(e, "final_relative_path").Str?
    && Get(e, "byte_count").Int? && Get(e, "byte_count").i >= 0 && TextOf(Hex64, Get(e, "sha256"))
    && Get(e, "validation_method_version").Str? && TextOf(Timestamp, Get(e, "finalized_at"))
  }

  ghost predicate ValidatedRight(e: Record) {
    && Validator(Get(e, "expected_size")) && Validator(Get(e, "expected_checksum")) && Validator(Get(e, "etag"))
    && Validator(Get(e, "last_modified"))
  }

  ghost predicate FinalRight(e: Record) {
    Get(e, "event_type") == Str("finalized") && FiledRight(e) && ValidatedRight(e)
  }

  ghost predicate CandidateRight(e: Record) {
    && Get(e, "event_type") == Str("candidate_created") && TextOf(Hex64, Get(e, "item_id"))
    && Get(e, "staging_relative_path").Str? && Get(e, "candidate_relative_path").Str?
    && (Get(e, "sha256").Null? || TextOf(Hex64, Get(e, "sha256")))
    && Get(e, "finalization_failure_reason").Str?
    && Get(e, "finalization_failure_reason").s
       in ["validation_failed", "destination_collision", "unsafe_path", "promotion_error", "recovery_review"]
  }

  ghost predicate ClosedRight(e: Record) {
    && Get(e, "event_type") == Str("run_closed") && TextOf(Timestamp, Get(e, "closed_at")) && Tallies(Get(e, "durable_outcome_counts"))
    && Get(e, "close_reason").Str?
    && Get(e, "close_reason").s in ["finished", "stopped", "time_limit", "local_failure", "interrupted"]
  }

  ghost predicate FailureRight(e: Record) {
    && Get(e, "event_type") == Str("local_failure") && Get(e, "failure_detail").Str? && Get(e, "failure_code").Str?
    && Get(e, "failure_code").s in ["record_write", "database_write", "permission", "storage", "other_local_failure"]
  }

  ghost predicate Right(e: Record, t: EventType) {
    && e.Keys == CommonNames + FieldNames(t) && CommonRight(e)
    && match t
       case RunStarted => StartRight(e)
       case AttemptFinished => AttemptRight(e)
       case FinalizedEvent => FinalRight(e)
       case CandidateCreatedEvent => CandidateRight(e)
       case RunClosed => ClosedRight(e)
       case LocalFailure => FailureRight(e)
  }

  // The rules of `names` hold.
  ghost predicate Follow(e: Record, rules: map<string, Schema>, names: set<string>) {
    forall n | n in names && n in e && n in rules :: Conforms(e[n], rules[n])
  }

  lemma {:induction false} CommonIs(e: Record, t: EventType)
    requires CommonNames <= e.Keys
    ensures Follow(e, BaseRules(t), CommonNames) <==> CommonRight(e) && Get(e, "event_type") == Str(TypeText(t))
  {
    hide Conforms, Written, TypeText;
    PlainKinds(e["sequence"]);
    PlainKinds(e["run_id"]);
    ListKinds(e["schema_version"], [], "");
    ListKinds(e["event_type"], [], TypeText(t));
    TextKinds(e["event_id"], Uuid);
    TextKinds(e["session_id"], Uuid);
    TextKinds(e["recorded_at"], Timestamp);
    TextKinds(e["event_digest"], Hex64);
    TextKinds(e["previous_digest"], Hex64);
    var rules := BaseRules(t);
    assert rules["schema_version"] == Anything.(const_ := Some(Int(1)));
    assert forall n | n in CommonNames :: n in e && n in rules;
  }

  lemma {:induction false} StartIs(e: Record)
    requires FieldNames(RunStarted) <= e.Keys && Get(e, "event_type") == Str(TypeText(RunStarted))
    ensures Follow(e, FieldRules(RunStarted), FieldNames(RunStarted)) <==> StartRight(e)
  {
    hide Conforms, Written, Validator, Tallies;
    PlainKinds(e["queue_input_digests"]);
    PlainKinds(e["selection_settings"]);
    PlainKinds(e["selected_item_count"]);
    assert forall n | n in FieldNames(RunStarted) :: n in e && n in FieldRules(RunStarted);
  }

  lemma {:induction false} FollowJoins(e: Record, rules: map<string, Schema>, a: set<string>, b: set<string>)
    ensures Follow(e, rules, a + b) <==> Follow(e, rules, a) && Follow(e, rules, b)
  {
    hide Conforms;
  }

  const ResponseNames := {"final_url", "response_content_length", "response_content_range", "response_content_type", "response_etag",
                          "response_last_modified"}
  const RequestNames := {"item_id", "source_url", "attempt_number", "request_started_at", "request_finished_at"}
  const OutcomeNames := {"redirect_chain", "http_status", "outcome"}

  lemma {:induction false} RequestRules()
    ensures var rules := FieldRules(AttemptFinished);
            && RequestNames <= rules.Keys && rules["item_id"] == Patterned(Hex64) && rules["source_url"] == Text
            && rules["attempt_number"] == Typed(IntegerType).(minimum := Some(1))
            && rules["request_started_at"] == Patterned(Timestamp) && rules["request_finished_at"] == Patterned(Timestamp)
  {
    hide Patterned, Typed;
  }

  lemma {:induction false} RequestIs(e: Record)
    requires RequestNames <= e.Keys
    ensures Follow(e, FieldRules(AttemptFinished), RequestNames) <==> RequestRight(e)
  {
    hide Conforms, Written, FieldRules;
    RequestRules();
    PatternKind(e["item_id"], Hex64);
    TextKind(e["source_url"]);
    CountKind(e["attempt_number"]);
    PatternKind(e["request_started_at"], Timestamp);
    PatternKind(e["request_finished_at"], Timestamp);
    assert forall n | n in RequestNames :: n in e && n in FieldRules(AttemptFinished);
  }

  lemma {:induction false} OutcomeIs(e: Record)
    requires OutcomeNames <= e.Keys
    ensures Follow(e, FieldRules(AttemptFinished), OutcomeNames) <==> OutcomeRight(e)
  {
    hide Conforms;
    TextsKind(e["redirect_chain"]);
    StatusKind(e["http_status"]);
    EnumKind(e["outcome"], ["success", "retryable_failure", "unavailable", "access_denied", "validation_failed", "stopped"]);
    assert forall n | n in OutcomeNames :: n in e && n in FieldRules(AttemptFinished);
  }

  lemma {:induction false} ResponseIs(e: Record)
    requires ResponseNames <= e.Keys
    ensures Follow(e, FieldRules(AttemptFinished), ResponseNames) <==> ResponseRight(e)
  {
    hide Conforms;
    NullableKind(e["final_url"]);
    NullableKind(e["response_content_length"]);
    NullableKind(e["response_content_range"]);
    NullableKind(e["response_content_type"]);
    NullableKind(e["response_etag"]);
    NullableKind(e["response_last_modified"]);
    assert forall n | n in ResponseNames :: n in e && n in FieldRules(AttemptFinished);
  }

  lemma {:induction false} AttemptIs(e: Record)
    requires FieldNames(AttemptFinished) <= e.Keys && Get(e, "event_type") == Str(TypeText(AttemptFinished))
    ensures Follow(e, FieldRules(AttemptFinished), FieldNames(AttemptFinished)) <==> AttemptRight(e)
  {
    hide Follow, FieldRules, RequestRight, OutcomeRight, ResponseRight;
    assert FieldNames(AttemptFinished) == RequestNames + OutcomeNames + ResponseNames;
    FollowJoins(e, FieldRules(AttemptFinished), RequestNames + OutcomeNames, ResponseNames);
    FollowJoins(e, FieldRules(AttemptFinished), RequestNames, OutcomeNames);
    RequestIs(e);
    OutcomeIs(e);
    ResponseIs(e);
  }

  const ValidatedNames := {"expected_size", "expected_checksum", "etag", "last_modified"}
  const FiledNames := {"item_id", "source_url", "logical_relative_path", "final_relative_path", "byte_count", "sha256",
                       "validation_method_version", "finalized_at"}

  lemma {:induction false} FiledIs(e: Record)
    requires FiledNames <= e.Keys
    ensures Follow(e, FieldRules(FinalizedEvent), FiledNames) <==> FiledRight(e)
  {
    hide Conforms, Written;
    PatternKind(e["item_id"], Hex64);
    TextKind(e["source_url"]);
    TextKind(e["logical_relative_path"]);
    TextKind(e["final_relative_path"]);
    CountKind(e["byte_count"]);
    PatternKind(e["sha256"], Hex64);
    TextKind(e["validation_method_version"]);
    PatternKind(e["finalized_at"], Timestamp);
    assert forall n | n in FiledNames :: n in e && n in FieldRules(FinalizedEvent);
  }

  lemma {:induction false} ValidatedIs(e: Record)
    requires ValidatedNames <= e.Keys
    ensures Follow(e, FieldRules(FinalizedEvent), ValidatedNames) <==> ValidatedRight(e)
  {
    hide Conforms, Validator;
    ValidationIs(e["expected_size"]);
    ValidationIs(e["expected_checksum"]);
    ValidationIs(e["etag"]);
    ValidationIs(e["last_modified"]);
    assert forall n | n in ValidatedNames :: n in e && n in FieldRules(FinalizedEvent);
  }

  lemma {:induction false} FinalIs(e: Record)
    requires FieldNames(FinalizedEvent) <= e.Keys && Get(e, "event_type") == Str(TypeText(FinalizedEvent))
    ensures Follow(e, FieldRules(FinalizedEvent), FieldNames(FinalizedEvent)) <==> FinalRight(e)
  {
    hide Follow, FieldRules, FiledRight, ValidatedRight;
    assert FieldNames(FinalizedEvent) == FiledNames + ValidatedNames;
    FollowJoins(e, FieldRules(FinalizedEvent), FiledNames, ValidatedNames);
    FiledIs(e);
    ValidatedIs(e);
  }

  lemma {:induction false} CandidateIs(e: Record)
    requires FieldNames(CandidateCreatedEvent) <= e.Keys && Get(e, "event_type") == Str(TypeText(CandidateCreatedEvent))
    ensures Follow(e, FieldRules(CandidateCreatedEvent), FieldNames(CandidateCreatedEvent)) <==> CandidateRight(e)
  {
    hide Conforms, Written, Validator, Tallies;
    TextKinds(e["item_id"], Hex64);
    PlainKinds(e["staging_relative_path"]);
    PlainKinds(e["candidate_relative_path"]);
    TextKinds(e["sha256"], Hex64);
    EnumKind(e["finalization_failure_reason"], ["validation_failed", "destination_collision", "unsafe_path", "promotion_error", "recovery_review"]);
    assert forall n | n in FieldNames(CandidateCreatedEvent) :: n in e && n in FieldRules(CandidateCreatedEvent);
  }

  lemma {:induction false} CloseIs(e: Record)
    requires FieldNames(RunClosed) <= e.Keys && Get(e, "event_type") == Str(TypeText(RunClosed))
    ensures Follow(e, FieldRules(RunClosed), FieldNames(RunClosed)) <==> ClosedRight(e)
  {
    hide Conforms, Written, Validator, Tallies;
    TextKinds(e["closed_at"], Timestamp);
    CountsAre(e["durable_outcome_counts"]);
    EnumKind(e["close_reason"], ["finished", "stopped", "time_limit", "local_failure", "interrupted"]);
    assert forall n | n in FieldNames(RunClosed) :: n in e && n in FieldRules(RunClosed);
  }

  lemma {:induction false} FailureIs(e: Record)
    requires FieldNames(LocalFailure) <= e.Keys && Get(e, "event_type") == Str(TypeText(LocalFailure))
    ensures Follow(e, FieldRules(LocalFailure), FieldNames(LocalFailure)) <==> FailureRight(e)
  {
    hide Conforms, Written, Validator, Tallies;
    PlainKinds(e["failure_detail"]);
    EnumKind(e["failure_code"], ["record_write", "database_write", "permission", "storage", "other_local_failure"]);
    assert forall n | n in FieldNames(LocalFailure) :: n in e && n in FieldRules(LocalFailure);
  }

  lemma {:induction false} OwnIs(e: Record, t: EventType)
    requires e.Keys == CommonNames + FieldNames(t) && CommonRight(e) && Get(e, "event_type") == Str(TypeText(t))
    ensures Follow(e, FieldRules(t), FieldNames(t)) <==> Right(e, t)
  {
    hide Follow, CommonRight, StartRight, AttemptRight, FinalRight, CandidateRight, ClosedRight, FailureRight, FieldNames, CommonNames,
      FieldRules, TypeText;
    match t
    case RunStarted => StartIs(e);
    case AttemptFinished => AttemptIs(e);
    case FinalizedEvent => FinalIs(e);
    case CandidateCreatedEvent => CandidateIs(e);
    case RunClosed => CloseIs(e);
    case LocalFailure => FailureIs(e);
  }

  lemma {:induction false} RightType(e: Record, t: EventType)
    ensures Right(e, t) ==> Get(e, "event_type") == Str(TypeText(t))
  {
    hide FieldNames, CommonNames, CommonRight;
  }

  lemma {:induction false} AttemptNamesApart()
    ensures CommonNames !! FieldNames(AttemptFinished)
  {
  }

  lemma {:induction false} FinalNamesApart()
    ensures CommonNames !! FieldNames(FinalizedEvent)
  {
  }

  lemma {:induction false} NamesApart(t: EventType)
    ensures CommonNames !! FieldNames(t)
  {
    if t == AttemptFinished {
      AttemptNamesApart();
    } else if t == FinalizedEvent {
      FinalNamesApart();
    } else {
      OtherNamesApart(t);
    }
  }

  lemma {:induction false} OtherNamesApart(t: EventType)
    requires t != AttemptFinished && t != FinalizedEvent
    ensures CommonNames !! FieldNames(t)
  {
  }

  // An event has no schema error if and only if it has exactly its fields and each of them is right.
  lemma {:induction false} EventMeans(e: Record, t: EventType)
    ensures Conforms(Obj(e), EventSchema(t)) <==> Right(e, t)
  {
    hide Conforms, FieldNames, FieldRules, BaseRules, CommonRight, TypeText, EventSchema, CommonNames, Follow, StartRight,
      AttemptRight, FinalRight, CandidateRight, ClosedRight, FailureRight;
    SchemaIsClosed(t);
    ClosedObject(Obj(e), EventSchema(t));
    RightType(e, t);
    if e.Keys == CommonNames + FieldNames(t) {
      RulesMerge(e, t);
      CommonIs(e, t);
      if CommonRight(e) && Get(e, "event_type") == Str(TypeText(t)) {
        OwnIs(e, t);
      }
    }
  }

  lemma {:induction false} SchemaIsClosed(t: EventType)
    ensures Closed(EventSchema(t)) && EventSchema(t).properties.Keys == CommonNames + FieldNames(t)
    ensures EventSchema(t).properties == BaseRules(t) + FieldRules(t)
  {
    hide FieldNames, FieldRules, BaseRules;
    FieldListsAgree(t);
  }

  lemma {:induction false} RulesMerge(e: Record, t: EventType)
    requires e.Keys == CommonNames + FieldNames(t)
    ensures EventSchema(t).properties.Keys == CommonNames + FieldNames(t)
    ensures (forall n | n in e :: Conforms(e[n], EventSchema(t).properties[n]))
            <==> Follow(e, BaseRules(t), CommonNames) && Follow(e, FieldRules(t), FieldNames(t))
  {
    hide Conforms, FieldNames, FieldRules, BaseRules, CommonNames, EventSchema;
    FieldListsAgree(t);
    NamesApart(t);
    SchemaIsClosed(t);
  }

  // ------------------------------------------------------------ no floating-point number

  datatype Key = Member(name: string) | Item(index: nat)

  // The value at the end of a path.
  function At(v: Json, path: seq<Key>): Option<Json>
    decreases |path|
  {
    if path == [] then Some(v)
    else if path[0].Member? && v.Obj? && path[0].name in v.fields then At(v.fields[path[0].name], path[1..])
    else if path[0].Item? && v.Arr? && path[0].index < |v.items| then At(v.items[path[0].index], path[1..])
    else None
  }

  predicate FloatAt(v: Json, path: seq<Key>) {
    At(v, path).Some? && At(v, path).value.Float?
  }

  lemma {:induction false} CanonicalHasNone(v: Json, path: seq<Key>)
    requires Canonical(v)
    ensures !FloatAt(v, path)
    decreases |path|
  {
    if path != [] {
      if path[0].Member? && v.Obj? && path[0].name in v.fields {
        CanonicalHasNone(v.fields[path[0].name], path[1..]);
      } else if path[0].Item? && v.Arr? && path[0].index < |v.items| {
        CanonicalHasNone(v.items[path[0].index], path[1..]);
      }
    }
  }

  lemma {:induction false} FloatFound(v: Json) returns (path: seq<Key>)
    requires !Canonical(v)
    ensures FloatAt(v, path)
  {
    if v.Float? {
      path := [];
    } else if v.Obj? {
      var n :| n in v.fields && !Canonical(v.fields[n]);
      var rest := FloatFound(v.fields[n]);
      path := [Member(n)] + rest;
      assert path[1..] == rest;
    } else {
      var k :| 0 <= k < |v.items| && !Canonical(v.items[k]);
      var rest := FloatFound(v.items[k]);
      path := [Item(k)] + rest;
      assert path[1..] == rest;
    }
  }

  // A value has canonical text if and only if there is no floating-point number anywhere in it.
  lemma {:induction false} CanonicalMeans(v: Json)
    ensures Canonical(v) <==> forall path :: !FloatAt(v, path)
  {
    hide FloatAt;
    if Canonical(v) {
      forall path ensures !FloatAt(v, path) {
        CanonicalHasNone(v, path);
      }
    } else {
      var path := FloatFound(v);
    }
  }

  // ------------------------------------------------------------ an event in its place

  // Said to be unavailable, and yet compared or given.
  predicate Contradicts(v: Json) {
    && v.Obj? && Get(v.fields, "available") == Bool(false)
    && (Get(v.fields, "compared") != Bool(false) || Get(v.fields, "value") != Null)
  }

  predicate Plausible(e: Record) {
    && !Contradicts(Get(e, "expected_size")) && !Contradicts(Get(e, "expected_checksum")) && !Contradicts(Get(e, "etag"))
    && !Contradicts(Get(e, "last_modified"))
  }

  // The digest is that of the other fields, which hold no floating-point number.
  ghost predicate Sealed(hash: Hash, e: Record) {
    var rest := e - {"event_digest"};
    && (forall n, path | n in rest :: !FloatAt(rest[n], path))
    && Hexes(hash(rest), 64) && Get(e, "event_digest") == Str(hash(rest))
  }

  // An object with the fields of its type, the next number, the digest of the line before it, an ID that
  // no line before it has, and its own digest.
  ghost predicate InPlace(hash: Hash, runId: string, sessionId: string, lines: seq<Line>, k: nat)
    requires k < |lines|
  {
    && lines[k].Some? && lines[k].value.Obj?
    && var e := lines[k].value.fields;
    && (exists t :: Right(e, t)) && (Right(e, FinalizedEvent) ==> Plausible(e))
    && Get(e, "run_id") == Str(runId) && Get(e, "session_id") == Str(sessionId) && Get(e, "sequence") == Int(k + 1)
    && (forall j | 0 <= j < k :: Field(lines[j], "event_id") != Get(e, "event_id"))
    && Get(e, "previous_digest")
       == (if k > 0 && Field(lines[k - 1], "event_digest").Str? then Field(lines[k - 1], "event_digest") else Null)
    && Sealed(hash, e)
  }

  lemma {:induction false} TypeIs(v: Json, t: EventType)
    ensures TypeOf(v) == Some(t) <==> v == Str(TypeText(t))
  {
  }

  lemma {:induction false} FieldsAre(e: Record)
    ensures FieldsOk(e) <==> (exists t :: Right(e, t)) && (Right(e, FinalizedEvent) ==> Plausible(e))
  {
    hide Conforms, FieldNames, CommonRight, StartRight, AttemptRight, FinalRight, CandidateRight, ClosedRight, FailureRight, TypeText,
      TypeOf, EventSchema, Same, Validator, CommonNames;
    forall t
      ensures Conforms(Obj(e), EventSchema(t)) <==> Right(e, t)
      ensures Right(e, t) ==> Get(e, "event_type") == Str(TypeText(t)) && TypeOf(Get(e, "event_type")) == Some(t)
      ensures Right(e, t) ==> Same(Get(e, "schema_version"), Int(SCHEMA_VERSION))
    {
      EventMeans(e, t);
      RightType(e, t);
      TypeIs(Get(e, "event_type"), t);
      if Right(e, t) {
        RightVersion(e);
      }
    }
    ValidatorsAre(e);
  }

  lemma {:induction false} RightVersion(e: Record)
    requires CommonRight(e)
    ensures Same(Get(e, "schema_version"), Int(SCHEMA_VERSION))
  {
  }

  lemma {:induction false} ValidatorsAre(e: Record)
    ensures ValidatorsOk(e) <==> Plausible(e)
  {
    hide ValidatorOk, Contradicts;
    forall v ensures ValidatorOk(v) <==> !Contradicts(v) {
      ValidatorIs(v);
    }
    assert ValidatorNames[0] == "expected_size" && ValidatorNames[1] == "expected_checksum" && ValidatorNames[2] == "etag"
           && ValidatorNames[3] == "last_modified";
  }

  lemma {:induction false} ValidatorIs(v: Json)
    ensures ValidatorOk(v) <==> !Contradicts(v)
  {
  }

  lemma {:induction false} SealIs(hash: Hash, e: Record)
    ensures DigestOk(hash, e) <==> Sealed(hash, e)
  {
    hide Canonical, FloatAt;
    var rest := e - {"event_digest"};
    HexIs(hash(rest), 64);
    forall n | n in rest ensures Canonical(rest[n]) <==> forall path :: !FloatAt(rest[n], path) {
      CanonicalMeans(rest[n]);
    }
  }

  // The verifier finds no error in a line if and only if it is an event in its place.
  lemma {:induction false} LineMeans(hash: Hash, runId: string, sessionId: string, lines: seq<Line>, k: nat)
    requires k < |lines|
    ensures LineOk(hash, runId, sessionId, lines, k) <==> InPlace(hash, runId, sessionId, lines, k)
  {
    hide FieldsOk, DigestOk, Sealed, Right, Plausible, Ids;
    if lines[k].Some? && lines[k].value.Obj? {
      var e := lines[k].value.fields;
      FieldsAre(e);
      SealIs(hash, e);
      IdsAre(lines, k);
      NumberIs(e, k + 1);
    }
  }

  lemma {:induction false} IdsAre(lines: seq<Line>, k: nat)
    requires k <= |lines|
    ensures forall v :: v in Ids(lines[..k]) <==> exists j :: 0 <= j < k && Field(lines[j], "event_id") == v
  {
    forall v ensures v in Ids(lines[..k]) <==> exists j :: 0 <= j < k && Field(lines[j], "event_id") == v {
      if j :| 0 <= j < k && Field(lines[j], "event_id") == v {
        assert lines[..k][j] == lines[j];
      }
    }
  }

  lemma {:induction false} NumberIs(e: Record, n: nat)
    ensures (exists t :: Right(e, t)) ==> (Same(Get(e, "sequence"), Int(n)) <==> Get(e, "sequence") == Int(n))
  {
    hide FieldNames, StartRight, AttemptRight, FinalRight, CandidateRight, ClosedRight, FailureRight, CommonNames;
  }

  // ------------------------------------------------------------ the summary

  const SummaryTexts := {"schema_version", "run_id", "session_id", "final_event_digest", "schema_sha256", "signing_key_fingerprint",
                         "signature"}
  const SummaryCounts := {"queue_input_digests", "selection_settings", "event_count", "selected_item_count",
                          "durable_outcome_counts", "session_finalized_count"}

  ghost predicate TextsRight(e: Record) {
    && Unit(Get(e, "schema_version")) && Get(e, "run_id").Str? && Get(e, "run_id").s != "" && TextOf(Uuid, Get(e, "session_id"))
    && (Get(e, "final_event_digest").Null? || TextOf(Hex64, Get(e, "final_event_digest")))
    && TextOf(Hex64, Get(e, "schema_sha256")) && TextOf(Hex64, Get(e, "signing_key_fingerprint"))
    && TextOf(Signature, Get(e, "signature"))
  }

  predicate CountsRight(e: Record) {
    && Get(e, "queue_input_digests").Arr? && Get(e, "selection_settings").Obj? && Tallies(Get(e, "durable_outcome_counts"))
    && Get(e, "event_count").Int? && Get(e, "event_count").i >= 0
    && Get(e, "selected_item_count").Int? && Get(e, "selected_item_count").i >= 0
    && Get(e, "session_finalized_count").Int? && Get(e, "session_finalized_count").i >= 0
  }

  lemma {:induction false} TextsAre(e: Record)
    requires SummaryTexts <= e.Keys
    ensures Follow(e, SummarySchema.properties, SummaryTexts) <==> TextsRight(e)
  {
    hide Conforms, Written;
    ConstantKind(e["schema_version"]);
    PlainKinds(e["run_id"]);
    PatternKind(e["session_id"], Uuid);
    TextKinds(e["final_event_digest"], Hex64);
    PatternKind(e["schema_sha256"], Hex64);
    PatternKind(e["signing_key_fingerprint"], Hex64);
    PatternKind(e["signature"], Signature);
    assert SummarySchema.properties["schema_version"] == Anything.(const_ := Some(Int(1)));
    assert forall n | n in SummaryTexts :: n in e && n in SummarySchema.properties;
  }

  lemma {:induction false} ConstantKind(v: Json)
    ensures Conforms(v, Anything.(const_ := Some(Int(1)))) <==> Unit(v)
  {
    ListKinds(v, [], "");
  }

  lemma {:induction false} CountsHold(e: Record)
    requires SummaryCounts <= e.Keys
    ensures Follow(e, SummarySchema.properties, SummaryCounts) <==> CountsRight(e)
  {
    hide Conforms, Tallies;
    PlainKinds(e["queue_input_digests"]);
    PlainKinds(e["selection_settings"]);
    CountsAre(e["durable_outcome_counts"]);
    CountKind(e["event_count"]);
    CountKind(e["selected_item_count"]);
    CountKind(e["session_finalized_count"]);
    assert forall n | n in SummaryCounts :: n in e && n in SummarySchema.properties;
  }

  ghost predicate SummaryRight(e: Record) {
    e.Keys == SummaryTexts + SummaryCounts && TextsRight(e) && CountsRight(e)
  }

  lemma {:induction false} SummaryIsClosed()
    ensures Closed(SummarySchema) && SummarySchema.properties.Keys == SummaryTexts + SummaryCounts
    ensures SummaryNames == SummaryTexts + SummaryCounts
  {
  }

  lemma {:induction false} SummaryMeans(e: Record)
    ensures Conforms(Obj(e), SummarySchema) <==> SummaryRight(e)
  {
    hide Conforms, Follow, TextsRight, CountsRight, Closed, SummarySchema, SummaryTexts, SummaryCounts, SummaryNames;
    SummaryIsClosed();
    ClosedObject(Obj(e), SummarySchema);
    FollowsAll(e, SummarySchema.properties);
    FollowJoins(e, SummarySchema.properties, SummaryTexts, SummaryCounts);
    if e.Keys == SummaryTexts + SummaryCounts {
      TextsAre(e);
      CountsHold(e);
    }
  }

  lemma {:induction false} FollowsAll(e: Record, rules: map<string, Schema>)
    ensures e.Keys == rules.Keys ==> (Follow(e, rules, rules.Keys) <==> forall n | n in e :: Conforms(e[n], rules[n]))
  {
    hide Conforms;
  }

  // ------------------------------------------------------------ a record set

  function FinalLines(lines: seq<Line>): set<nat> {
    set k: nat | k < |lines| && Field(lines[k], "event_type") == Str("finalized")
  }

  lemma {:induction false} FinalsAre(lines: seq<Line>)
    ensures FinalCount(lines) == |FinalLines(lines)|
  {
    hide IsFinalized, Field;
    if lines == [] {
      assert FinalLines(lines) == {};
    } else {
      var n := |lines| - 1;
      FinalsAre(lines[..n]);
      FinalLineIs(lines[n]);
      FinalLinesGrow(lines, n);
    }
  }

  lemma {:induction false} FinalLinesGrow(lines: seq<Line>, n: nat)
    requires n + 1 == |lines|
    ensures n !in FinalLines(lines[..n])
    ensures FinalLines(lines) == FinalLines(lines[..n]) + if Field(lines[n], "event_type") == Str("finalized") then {n} else {}
  {
    hide Field;
    assert forall k: nat | k < n :: lines[..n][k] == lines[k];
  }

  lemma {:induction false} FinalLineIs(line: Line)
    ensures IsFinalized(line) <==> Field(line, "event_type") == Str("finalized")
  {
    TypeIs(Field(line, "event_type"), FinalizedEvent);
  }

  // The summary counts the lines and names the last digest, the last line closes the run with the counts of
  // the summary, the finalized lines are counted, and the run total covers them.
  ghost predicate Sums(lines: seq<Line>, summary: Record) {
    var n, counts := |lines|, Get(summary, "durable_outcome_counts");
    && Get(summary, "event_count") == Int(n)
    && Get(summary, "final_event_digest")
       == (if n > 0 && Field(lines[n - 1], "event_digest").Str? then Field(lines[n - 1], "event_digest") else Null)
    && (n > 0 ==> Field(lines[n - 1], "event_type") == Str("run_closed") && Field(lines[n - 1], "durable_outcome_counts") == counts)
    && Get(summary, "session_finalized_count") == Int(|FinalLines(lines)|)
    && counts.Obj?
    && (if "complete" in counts.fields then counts.fields["complete"].Int? && counts.fields["complete"].i >= |FinalLines(lines)|
        else FinalLines(lines) == {})
  }

  lemma {:induction false} SumsAre(lines: seq<Line>, summary: Record)
    requires CountsRight(summary)
    ensures CountsOk(lines, summary) <==> Sums(lines, summary)
  {
    hide FinalCount, FinalLines;
    FinalsAre(lines);
    if lines != [] {
      TypeIs(Field(lines[|lines| - 1], "event_type"), RunClosed);
    }
  }

  // The verifier accepts a record set if and only if every line is an event in its place and the summary
  // has its fields, names this run and session and sums the lines up.
  lemma {:induction false} AcceptsMeans(hash: Hash, runId: string, sessionId: string, lines: seq<Line>, summary: Record)
    ensures Accepts(hash, runId, sessionId, lines, summary) <==>
              && (forall k | 0 <= k < |lines| :: InPlace(hash, runId, sessionId, lines, k))
              && SummaryRight(summary) && Get(summary, "run_id") == Str(runId) && Get(summary, "session_id") == Str(sessionId)
              && Sums(lines, summary)
  {
    hide InPlace, LineOk, Sums, CountsOk, Conforms, SummaryTexts, SummaryCounts, SummaryNames, TextsRight, CountsRight, SummarySchema;
    forall k | 0 <= k < |lines| ensures LineOk(hash, runId, sessionId, lines, k) <==> InPlace(hash, runId, sessionId, lines, k) {
      LineMeans(hash, runId, sessionId, lines, k);
    }
    SummaryIsClosed();
    SummaryMeans(summary);
    if CountsRight(summary) {
      SumsAre(lines, summary);
    }
  }
}
