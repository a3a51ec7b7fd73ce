/** When the close of a session succeeds: the closing event conforms and the summary is canonical. */
module ProvenanceClosing {
  import opened Prelude
  import opened ProvenanceSchema
  import opened ProvenanceVerifier
  import opened ProvenanceWriter

  const Reasons := ["finished", "stopped", "time_limit", "local_failure", "interrupted"]

  // What the controller closes with: arguments of the right types, a reason of the list, a fresh
  // UUID, the time of the clock.
  predicate ClosingFits(a: Closing, runId: string, sessionId: string, id: string, at: string) {
    && ClosingTyped(a, runId, sessionId) && Canonical(a.queueDigests) && Canonical(a.settings)
    && a.reason in Reasons && FullUuid(id) && FullTimestamp(at)
  }

  function ClosingDraft(runId: string, sessionId: string, number: nat, previous: Option<string>, a: Closing, id: string,
                        at: string): Record {
    Draft(runId, sessionId, number, previous, RunClosed, ClosingFields(a, at), id, at)
  }

  predicate FieldOk(e: Record, s: Schema, n: string) {
    n in e && n in s.properties && Conforms(e[n], s.properties[n])
  }

  lemma {:induction false} PatternConforms(p: Pattern, s: string)
    requires FullMatch(p, s)
    ensures Conforms(Str(s), Patterned(p)) && (p.Hex64? ==> Conforms(Str(s), NullableHex))
  {
    hide FullMatch;
    assert StringType in Typed(StringType).types.value && HasType(Str(s), StringType);
    assert StringType in NullableHex.types.value;
  }

  lemma {:induction false} NullConforms()
    ensures Conforms(Null, NullableHex)
  {
    assert NullType in NullableHex.types.value && HasType(Null, NullType);
  }

  lemma {:induction false} ReasonConforms(reason: string)
    requires reason in Reasons
    ensures Conforms(Str(reason), OneOf(["finished", "stopped", "time_limit", "local_failure", "interrupted"]))
  {
  }

  lemma {:induction false} CountsConform(counts: Record)
    requires forall n | n in counts :: counts[n].Int? && counts[n].i >= 0
    ensures Conforms(Obj(counts), Counts)
  {
    assert ObjectType in Counts.types.value && HasType(Obj(counts), ObjectType);
    forall n | n in counts ensures Conforms(counts[n], Count) {
      assert IntegerType in Count.types.value && HasType(counts[n], IntegerType);
    }
  }

  lemma {:induction false} NumberConforms(number: nat)
    requires number >= 1
    ensures Conforms(Int(number), Typed(IntegerType).(minimum := Some(1)))
  {
    assert IntegerType in Typed(IntegerType).types.value && HasType(Int(number), IntegerType);
  }

  lemma {:induction false} RunIdConforms(runId: string)
    requires |runId| >= 1
    ensures Conforms(Str(runId), Text.(minLength := 1))
  {
    assert StringType in Text.types.value && HasType(Str(runId), StringType);
  }

  lemma {:induction false} ConstantConforms(v: Json)
    requires v.Int? || v.Str?
    ensures Conforms(v, Anything.(const_ := Some(v)))
  {
  }

  // ------------------------------------------------------------ the rules of the closing event

  const ClosingNames := {"closed_at", "close_reason", "durable_outcome_counts"}

  lemma {:induction false} ClosingNamesAreNew()
    ensures ClosingNames !! CommonNames
  {
  }

  lemma {:induction false} CommonRules(t: EventType)
    ensures var rules := BaseRules(t);
            && rules.Keys == CommonNames
            && rules["schema_version"] == Anything.(const_ := Some(Int(SCHEMA_VERSION)))
            && rules["event_id"] == Patterned(Uuid) && rules["session_id"] == Patterned(Uuid)
            && rules["sequence"] == Typed(IntegerType).(minimum := Some(1))
            && rules["event_type"] == Anything.(const_ := Some(Str(TypeText(t))))
            && rules["run_id"] == Text.(minLength := 1) && rules["recorded_at"] == Patterned(Timestamp)
            && rules["previous_digest"] == NullableHex && rules["event_digest"] == Patterned(Hex64)
  {
    hide Patterned, Typed, TypeText;
  }

  lemma {:induction false} OwnRules()
    ensures var rules := FieldRules(RunClosed);
            && rules.Keys == ClosingNames
            && rules["closed_at"] == Patterned(Timestamp) && rules["durable_outcome_counts"] == Counts
            && rules["close_reason"] == OneOf(["finished", "stopped", "time_limit", "local_failure", "interrupted"])
  {
    hide Patterned, Typed, OneOf;
  }

  lemma {:induction false} MergedRules()
    ensures var s := EventSchema(RunClosed);
            && s.properties.Keys == CommonNames + ClosingNames && s.required == CommonNames + ClosingNames
            && (forall n | n in CommonNames :: n in BaseRules(RunClosed) && s.properties[n] == BaseRules(RunClosed)[n])
            && forall n | n in ClosingNames :: n in FieldRules(RunClosed) && s.properties[n] == FieldRules(RunClosed)[n]
  {
    hide BaseRules, FieldRules, CommonNames, ClosingNames, Patterned, Typed, OneOf;
    CommonRules(RunClosed);
    OwnRules();
    ClosingNamesAreNew();
  }

  // ------------------------------------------------------------ its values

  lemma {:induction false} ClosingKeys(hash: Hash, runId: string, sessionId: string, number: nat, previous: Option<string>,
                                       a: Closing, id: string, at: string)
    ensures Sealed(hash, ClosingDraft(runId, sessionId, number, previous, a, id, at)).Keys == CommonNames + ClosingNames
  {
    hide TypeText, Text_;
    var draft := ClosingDraft(runId, sessionId, number, previous, a, id, at);
    assert ClosingFields(a, at).Keys == ClosingNames;
    assert draft.Keys == CommonNames - {"event_digest"} + ClosingNames;
  }

  lemma {:induction false} OwnValues(hash: Hash, runId: string, sessionId: string, number: nat, previous: Option<string>,
                                     a: Closing, id: string, at: string)
    ensures var e := Sealed(hash, ClosingDraft(runId, sessionId, number, previous, a, id, at));
            && Get(e, "closed_at") == Str(at) && Get(e, "durable_outcome_counts") == Obj(a.counts)
            && Get(e, "close_reason") == Str(a.reason) && Get(e, "recorded_at") == Str(at)
  {
    hide Draft;
    ClosingFieldsPlain(a, at);
    var fields := ClosingFields(a, at);
    DraftFields(runId, sessionId, number, previous, RunClosed, fields, id, at, "closed_at");
    DraftFields(runId, sessionId, number, previous, RunClosed, fields, id, at, "durable_outcome_counts");
    DraftFields(runId, sessionId, number, previous, RunClosed, fields, id, at, "close_reason");
    DraftFields(runId, sessionId, number, previous, RunClosed, fields, id, at, "recorded_at");
  }

  const PatternNames := {"event_id", "session_id", "recorded_at", "previous_digest", "event_digest"}
  const PlainNames := {"schema_version", "sequence", "event_type", "run_id"}

  lemma {:induction false} CommonRule(n: string)
    requires n in PatternNames || n in PlainNames
    ensures var s := EventSchema(RunClosed);
            n in s.properties && n in BaseRules(RunClosed) && s.properties[n] == BaseRules(RunClosed)[n]
  {
    hide EventSchema, BaseRules, FieldRules, ClosingNames;
    MergedRules();
  }

  lemma {:induction false} CommonValue(hash: Hash, runId: string, sessionId: string, number: nat, previous: Option<string>,
                                       a: Closing, id: string, at: string, n: string)
    requires n in PatternNames || n in PlainNames
    ensures var draft := ClosingDraft(runId, sessionId, number, previous, a, id, at);
            var e := Sealed(hash, draft);
            && n in e
            && (n == "schema_version" ==> e[n] == Int(SCHEMA_VERSION)) && (n == "event_id" ==> e[n] == Str(id))
            && (n == "sequence" ==> e[n] == Int(number)) && (n == "event_type" ==> e[n] == Str("run_closed"))
            && (n == "run_id" ==> e[n] == Str(runId)) && (n == "session_id" ==> e[n] == Str(sessionId))
            && (n == "recorded_at" ==> e[n] == Str(at)) && (n == "previous_digest" ==> e[n] == Text_(previous))
            && (n == "event_digest" ==> e[n] == Str(hash(draft)))
  {
    hide Draft, Sealed, ClosingFields, ClosingNames, Text_;
    ClosingKeys(hash, runId, sessionId, number, previous, a, id, at);
    ClosingFieldsPlain(a, at);
    SealedFields(hash, runId, sessionId, number, previous, RunClosed, ClosingFields(a, at), id, at);
    OwnValues(hash, runId, sessionId, number, previous, a, id, at);
  }

  lemma {:induction false} PatternFieldsOk(hash: Hash, runId: string, sessionId: string, number: nat, previous: Option<string>,
                                          a: Closing, id: string, at: string, n: string)
    requires HexHash(hash) && number >= 1 && (previous.Some? ==> FullHex(previous.value))
    requires ClosingFits(a, runId, sessionId, id, at) && n in PatternNames
    ensures FieldOk(Sealed(hash, ClosingDraft(runId, sessionId, number, previous, a, id, at)), EventSchema(RunClosed), n)
  {
    hide Conforms, EventSchema, ClosingDraft, Sealed, FullHex, FullUuid, FullTimestamp, Patterned, Typed, BaseRules, FieldRules,
      ClosingFields, ClosingNames, CommonNames, HexHash;
    CommonValue(hash, runId, sessionId, number, previous, a, id, at, n);
    CommonRule(n);
    CommonRules(RunClosed);
    var digest := hash(ClosingDraft(runId, sessionId, number, previous, a, id, at));
    HexOf(hash, ClosingDraft(runId, sessionId, number, previous, a, id, at));
    PatternConforms(Hex64, digest);
    PatternConforms(Uuid, id);
    PatternConforms(Uuid, sessionId);
    PatternConforms(Timestamp, at);
    NullConforms();
    if previous.Some? {
      PatternConforms(Hex64, previous.value);
    }
  }

  lemma {:induction false} HexOf(hash: Hash, e: Record)
    requires HexHash(hash)
    ensures FullHex(hash(e))
  {
    hide FullHex;
  }

  lemma {:induction false} PlainFieldsOk(hash: Hash, runId: string, sessionId: string, number: nat, previous: Option<string>,
                                          a: Closing, id: string, at: string, n: string)
    requires HexHash(hash) && number >= 1 && (previous.Some? ==> FullHex(previous.value))
    requires ClosingFits(a, runId, sessionId, id, at) && n in PlainNames
    ensures FieldOk(Sealed(hash, ClosingDraft(runId, sessionId, number, previous, a, id, at)), EventSchema(RunClosed), n)
  {
    hide Conforms, EventSchema, ClosingDraft, Sealed, FullHex, FullUuid, FullTimestamp, Patterned, Typed, BaseRules, FieldRules,
      ClosingFields, ClosingNames, CommonNames, HexHash;
    CommonValue(hash, runId, sessionId, number, previous, a, id, at, n);
    CommonRule(n);
    CommonRules(RunClosed);
    NumberConforms(number);
    RunIdConforms(runId);
    ConstantConforms(Int(SCHEMA_VERSION));
    ConstantConforms(Str("run_closed"));
  }

  lemma {:induction false} OwnFieldsOk(hash: Hash, runId: string, sessionId: string, number: nat, previous: Option<string>,
                                       a: Closing, id: string, at: string, n: string)
    requires ClosingFits(a, runId, sessionId, id, at) && n in ClosingNames
    ensures FieldOk(Sealed(hash, ClosingDraft(runId, sessionId, number, previous, a, id, at)), EventSchema(RunClosed), n)
  {
    hide Conforms, EventSchema, ClosingDraft, Sealed, FullHex, FullUuid, FullTimestamp, Patterned, Typed, BaseRules, FieldRules,
      CommonNames, OneOf;
    ClosingKeys(hash, runId, sessionId, number, previous, a, id, at);
    MergedRules();
    OwnRules();
    OwnValues(hash, runId, sessionId, number, previous, a, id, at);
    PatternConforms(Timestamp, at);
    ReasonConforms(a.reason);
    CountsConform(a.counts);
  }

  lemma {:induction false} ClosingConforms(hash: Hash, runId: string, sessionId: string, number: nat, previous: Option<string>,
                                           a: Closing, id: string, at: string)
    requires HexHash(hash) && number >= 1 && (previous.Some? ==> FullHex(previous.value))
    requires ClosingFits(a, runId, sessionId, id, at)
    ensures Conforms(Obj(Sealed(hash, ClosingDraft(runId, sessionId, number, previous, a, id, at))), EventSchema(RunClosed))
  {
    hide Conforms, EventSchema, ClosingDraft, Sealed, FieldOk, ClosingFits, ClosingNames, FullHex;
    var e := Sealed(hash, ClosingDraft(runId, sessionId, number, previous, a, id, at));
    MergedRules();
    ClosingKeys(hash, runId, sessionId, number, previous, a, id, at);
    forall n | n in e ensures FieldOk(e, EventSchema(RunClosed), n) {
      if n in PatternNames {
        PatternFieldsOk(hash, runId, sessionId, number, previous, a, id, at, n);
      } else if n in PlainNames {
        PlainFieldsOk(hash, runId, sessionId, number, previous, a, id, at, n);
      } else {
        OwnFieldsOk(hash, runId, sessionId, number, previous, a, id, at, n);
      }
    }
    FieldsConform(e, RunClosed);
  }

  lemma {:induction false} FieldsConform(e: Record, t: EventType)
    requires e.Keys == EventSchema(t).properties.Keys && EventSchema(t).required <= e.Keys
    requires forall n | n in e :: FieldOk(e, EventSchema(t), n)
    ensures Conforms(Obj(e), EventSchema(t))
  {
    hide FieldRules, BaseRules, CommonNames;
    var s := EventSchema(t);
    assert HasType(Obj(e), ObjectType) && ObjectType in s.types.value;
    forall n | n in e ensures n in s.properties && Conforms(e[n], s.properties[n]) {
      assert FieldOk(e, s, n);
    }
  }

  lemma {:induction false} ClosingIsCanonical(runId: string, sessionId: string, number: nat, previous: Option<string>, a: Closing,
                                              id: string, at: string)
    requires ClosingFits(a, runId, sessionId, id, at)
    ensures CanonicalRecord(ClosingDraft(runId, sessionId, number, previous, a, id, at))
  {
    hide FullHex, FullUuid, FullTimestamp, TypeText, Draft;
    assert Canonical(Obj(a.counts));
    assert CanonicalRecord(ClosingFields(a, at));
    DraftIsCanonical(runId, sessionId, number, previous, RunClosed, ClosingFields(a, at), id, at);
  }

  lemma {:induction false} SummaryIsCanonical(a: Closing, runId: string, sessionId: string, id: string, at: string, count: nat,
                                              last: Option<string>, finals: nat)
    requires ClosingFits(a, runId, sessionId, id, at)
    ensures CanonicalRecord(SummaryRecord(a, runId, sessionId, count, last, finals))
  {
    hide FullHex, FullUuid, FullTimestamp;
    assert Canonical(Obj(a.counts));
  }
}
