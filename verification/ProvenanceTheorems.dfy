/** Soundness of the provenance verifier against edits, and completeness for the writer. */
module ProvenanceTheorems {
  import opened Prelude
  import opened ProvenanceSchema
  import opened ProvenanceVerifier
  import opened ProvenanceWriter
  import opened ProvenanceClosing

  // ------------------------------------------------------------ tamper evidence

  // Two different records that canonical JSON accepts and that have one digest.
  predicate Collides(hash: Hash, x: Record, y: Record) {
    x != y && CanonicalRecord(x) && CanonicalRecord(y) && hash(x) == hash(y)
  }

  // What the digest of an event is taken over.
  function Unsealed(line: Line): Record {
    if line.Some? && line.value.Obj? then line.value.fields - {"event_digest"} else map[]
  }

  // Canonical JSON refuses floats, so a digest of unbounded length can keep all its records apart.
  ghost predicate Injective(hash: Hash) {
    forall x: Record, y: Record :: !Collides(hash, x, y)
  }

  lemma {:induction false} SameDigestSameEvent(hash: Hash, a: Record, b: Record)
    requires DigestOk(hash, a) && DigestOk(hash, b) && Get(a, "event_digest") == Get(b, "event_digest")
    ensures a == b || Collides(hash, a - {"event_digest"}, b - {"event_digest"})
  {
    hide FullHex, CanonicalRecord;
    if a - {"event_digest"} == b - {"event_digest"} {
      assert a.Keys == (a - {"event_digest"}).Keys + {"event_digest"};
      assert b.Keys == (b - {"event_digest"}).Keys + {"event_digest"};
      forall n | n in a ensures a[n] == b[n] {
        if n != "event_digest" {
          assert (a - {"event_digest"})[n] == (b - {"event_digest"})[n];
        }
      }
    }
  }

  lemma {:induction false} LineHas(hash: Hash, runId: string, sessionId: string, lines: seq<Line>, k: nat)
    requires k < |lines| && LineOk(hash, runId, sessionId, lines, k)
    ensures lines[k].Some? && lines[k].value.Obj? && DigestOk(hash, lines[k].value.fields)
    ensures Get(lines[k].value.fields, "previous_digest") == Text_(if k == 0 then None else DigestOf(lines[k - 1]))
    ensures DigestOf(lines[k]).Some?
  {
    hide FieldsOk, CanonicalRecord, FullHex;
  }

  ghost predicate CollidesAt(hash: Hash, a: seq<Line>, b: seq<Line>, k: nat) {
    k < |a| && k < |b| && Collides(hash, Unsealed(a[k]), Unsealed(b[k]))
  }

  // Two files whose last digests agree agree in every line before, up to a collision.
  lemma {:induction false} PrefixesAgree(hash: Hash, runId: string, sessionId: string, a: seq<Line>, b: seq<Line>, n: nat)
    requires 0 < n <= |a| && n <= |b|
    requires ChainOk(hash, runId, sessionId, a, |a|) && ChainOk(hash, runId, sessionId, b, |b|)
    requires DigestOf(a[n - 1]) == DigestOf(b[n - 1])
    ensures a[..n] == b[..n] || exists k :: CollidesAt(hash, a, b, k)
  {
    hide Collides, DigestOk, LineOk;
    LineHas(hash, runId, sessionId, a, n - 1);
    LineHas(hash, runId, sessionId, b, n - 1);
    SameDigestSameEvent(hash, a[n - 1].value.fields, b[n - 1].value.fields);
    if a[n - 1] != b[n - 1] {
      assert CollidesAt(hash, a, b, n - 1);
    } else if n > 1 {
      LineHas(hash, runId, sessionId, a, n - 2);
      LineHas(hash, runId, sessionId, b, n - 2);
      PrefixesAgree(hash, runId, sessionId, a, b, n - 1);
    }
    assert a[..n] == a[..n - 1] + [a[n - 1]] && b[..n] == b[..n - 1] + [b[n - 1]];
  }

  // Any two event files that the verifier accepts under one summary are equal record for
  // record, or two records at one line show a collision of the digest.
  lemma {:induction false} TamperShowsCollision(hash: Hash, runId: string, sessionId: string, a: seq<Line>, b: seq<Line>, summary: Record)
    requires Accepts(hash, runId, sessionId, a, summary) && Accepts(hash, runId, sessionId, b, summary)
    ensures a == b || exists k :: CollidesAt(hash, a, b, k)
  {
    hide ChainOk, SummaryOk, FinalsOk, CollidesAt;
    assert |a| == |b|;
    if a != [] {
      LastLineHas(hash, runId, sessionId, a);
      LastLineHas(hash, runId, sessionId, b);
      PrefixesAgree(hash, runId, sessionId, a, b, |a|);
      assert a[..|a|] == a && b[..|b|] == b;
    }
  }

  // With an injective digest no edit, removal, swap or truncation is accepted.
  lemma {:induction false} TamperEvidence(hash: Hash, runId: string, sessionId: string, a: seq<Line>, b: seq<Line>, summary: Record)
    requires Injective(hash)
    requires Accepts(hash, runId, sessionId, a, summary) && Accepts(hash, runId, sessionId, b, summary)
    ensures a == b
  {
    hide Accepts, Collides;
    TamperShowsCollision(hash, runId, sessionId, a, b, summary);
  }

  lemma {:induction false} LastLineHas(hash: Hash, runId: string, sessionId: string, lines: seq<Line>)
    requires lines != [] && ChainOk(hash, runId, sessionId, lines, |lines|)
    ensures DigestOf(lines[|lines| - 1]).Some?
  {
    hide LineOk;
    assert LineOk(hash, runId, sessionId, lines, |lines| - 1);
    LineHas(hash, runId, sessionId, lines, |lines| - 1);
  }

  // An accepted event has its number: no gap, no repeat, no event ID twice.
  lemma {:induction false} AcceptedEventsAreNumbered(hash: Hash, runId: string, sessionId: string, lines: seq<Line>, summary: Record, k: nat, n: nat)
    requires Accepts(hash, runId, sessionId, lines, summary) && k < n < |lines|
    ensures Same(Field(lines[n], "sequence"), Int(n + 1))
    ensures Field(lines[k], "event_id") != Field(lines[n], "event_id")
  {
    hide FieldsOk, CanonicalRecord, FullHex, SummaryOk, CountsOk;
    assert LineOk(hash, runId, sessionId, lines, n);
    assert lines[..n][k] == lines[k];
    assert Field(lines[..n][k], "event_id") in Ids(lines[..n]);
  }

  // ------------------------------------------------------------ completeness

  // One call of event(): its type, fields, event ID, time, and whether the append succeeds.
  datatype Call = Call(t: Option<EventType>, fields: Record, id: string, at: string)

  ghost predicate CallsOk(calls: seq<Call>, closingId: string) {
    && (forall k | 0 <= k < |calls| && calls[k].t.Some? :: PlainFields(calls[k].t.value, calls[k].fields))
    && (forall k | 0 <= k < |calls| :: CanonicalRecord(calls[k].fields) && calls[k].id != closingId)
    && (forall k, n | 0 <= k < n < |calls| :: calls[k].id != calls[n].id)
  }

  // How many of the calls announce a finalized file.
  function FinalCalls(calls: seq<Call>): nat {
    if calls == [] then 0
    else FinalCalls(calls[..|calls| - 1]) + if calls[|calls| - 1].t == Some(FinalizedEvent) then 1 else 0
  }

  // Any sequence of calls, some of them rejected, keeps the record set free of chain and field
  // errors.
  method RecordEvents(w: Writer, calls: seq<Call>, closingId: string)
    requires w.Valid() && w.Chained() && HexHash(w.hash) && CallsOk(calls, closingId) && w.records == []
    modifies w
    ensures w.Valid() && w.Chained() && Str(closingId) !in Ids(Lines(w.records))
    ensures w.finalizedCount <= FinalCalls(calls)
  {
    hide ChainOk, Ids, PlainFields, CanonicalRecord, HexHash, Draft, FinalCount, EventSchema;
    NoIds();
    NoFinals();
    var k := 0;
    while k < |calls|
      invariant 0 <= k <= |calls| && w.Valid() && w.Chained() && w.finalizedCount <= FinalCalls(calls[..k])
      invariant forall v | v in Ids(Lines(w.records)) :: exists n :: 0 <= n < k && v == Str(calls[n].id)
    {
      var c := calls[k];
      ghost var before, number, previous := w.records, w.sequence + 1, w.previousDigest;
      assert Str(c.id) !in Ids(Lines(w.records));
      var r := w.Event(c.t, c.fields, c.id, c.at, true);
      if r.Ok? {
        IdAppended(w.hash, w.runId, w.sessionId, number, previous, c.t.value, c.fields, c.id, c.at, before);
      }
      assert calls[..k + 1][..k] == calls[..k];
      k := k + 1;
    }
    assert calls[..k] == calls;
  }

  lemma {:induction false} NoFinals()
    ensures FinalCount(Lines([])) == 0
  {
  }

  lemma {:induction false} NoIds()
    ensures Ids(Lines([])) == {}
  {
  }

  lemma {:induction false} IdAppended(hash: Hash, runId: string, sessionId: string, number: nat, previous: Option<string>, t: EventType,
                   fields: Record, id: string, at: string, records: seq<Record>)
    requires PlainFields(t, fields)
    ensures var e := Sealed(hash, Draft(runId, sessionId, number, previous, t, fields, id, at));
            Ids(Lines(records + [e])) == Ids(Lines(records)) + {Str(id)}
  {
    hide Draft, ValidatorsOk;
    var e := Sealed(hash, Draft(runId, sessionId, number, previous, t, fields, id, at));
    SealedFields(hash, runId, sessionId, number, previous, t, fields, id, at);
    var lines := Lines(records + [e]);
    IdsGrow(lines, |records|);
    assert lines[..|records| + 1] == lines && lines[..|records|] == Lines(records);
  }

  // A whole session: any calls, some of them rejected, then the close. Fitting values close it, and
  // the verifier accepts what was recorded with the summary, provided that the run total covers
  // the finalized events.
  method RecordAndClose(hash: Hash, runId: string, sessionId: string, credentialed: Record -> bool, calls: seq<Call>,
                        a: Closing, id: string, at: string, written: bool, sign: Record -> string)
    returns (w: Writer, summary: Option<Record>)
    requires HexHash(hash) && CallsOk(calls, id) && forall s :: FullSignature(sign(s))
    ensures fresh(w) && w.Valid() && w.hash == hash && w.runId == runId && w.sessionId == sessionId
    ensures w.finalizedCount <= FinalCalls(calls)
    ensures written && !credentialed(ClosingFields(a, at)) && ClosingFits(a, runId, sessionId, id, at) ==> summary.Some?
    ensures summary.Some? && ClosingOk(a, runId, sessionId, w.finalizedCount) ==>
              Accepts(hash, runId, sessionId, Lines(w.records), summary.value)
  {
    hide Accepts, ClosingOk, CallsOk, HexHash, FullSignature, Ids, Lines, ClosingFits, Conforms, CanonicalRecord, EventSchema,
      Draft, Sealed, SummaryRecord, ClosingFields, FullHex, FinalCalls, FinalCount;
    w := new Writer(hash, runId, sessionId, credentialed);
    RecordEvents(w, calls, id);
    ghost var number, previous := w.sequence + 1, w.previousDigest;
    PreviousIsHex(w);
    summary := w.Close(a, id, at, written, sign);
    if written && !credentialed(ClosingFields(a, at)) && ClosingFits(a, runId, sessionId, id, at) {
      ClosingConforms(hash, runId, sessionId, number, previous, a, id, at);
      ClosingIsCanonical(runId, sessionId, number, previous, a, id, at);
      SummaryIsCanonical(a, runId, sessionId, id, at, w.sequence, w.previousDigest, w.finalizedCount);
    }
  }

  lemma {:induction false} PreviousIsHex(w: Writer)
    requires w.Valid() && w.Chained()
    ensures w.previousDigest.Some? ==> FullHex(w.previousDigest.value)
  {
    hide FullHex, ChainOk, FinalCount;
    if w.records != [] {
      LastIsHex(w.hash, w.runId, w.sessionId, w.records);
    }
  }

  const Compared := Obj(map["available" := Bool(false), "compared" := Bool(true), "value" := Null])

  lemma {:induction false} ComparedConforms()
    ensures Conforms(Compared, Validation) && !ValidatorOk(Compared) && Canonical(Compared)
  {
    assert BooleanType in Typed(BooleanType).types.value;
    assert HasType(Bool(false), BooleanType) && HasType(Bool(true), BooleanType) && HasType(Compared, ObjectType);
    assert Conforms(Null, Anything);
    assert Conforms(Bool(false), Typed(BooleanType)) && Conforms(Bool(true), Typed(BooleanType));
  }

  lemma {:induction false} FinalizedRules()
    ensures var rules := EventSchema(FinalizedEvent).properties;
            && "expected_size" in rules && rules["expected_size"] == Validation
            && "event_digest" in rules && rules["event_digest"] == HexText
  {
    hide Typed, Patterned, OneOf;
    assert "expected_size" in FieldRules(FinalizedEvent) && "event_digest" !in FieldRules(FinalizedEvent);
    assert "event_digest" in BaseRules(FinalizedEvent);
  }

  lemma {:induction false} HexConforms(s: string)
    requires FullHex(s)
    ensures Conforms(Str(s), HexText)
  {
    hide FullHex;
    assert StringType in Typed(StringType).types.value && HasType(Str(s), StringType);
  }

  // Two fields of a conforming event may take other conforming values.
  lemma {:induction false} Revalued(e: Record, e': Record, t: EventType, a: string, b: string)
    requires Conforms(Obj(e), EventSchema(t)) && e'.Keys == e.Keys && a in e && b in e
    requires forall n | n in e && n != a && n != b :: e'[n] == e[n]
    requires a in EventSchema(t).properties && Conforms(e'[a], EventSchema(t).properties[a])
    requires b in EventSchema(t).properties && Conforms(e'[b], EventSchema(t).properties[b])
    ensures Conforms(Obj(e'), EventSchema(t))
  {
    hide EventSchema, Same, Found;
    var s := EventSchema(t);
    PlainSchema(t);
    assert ScalarOk(Obj(e), s);
    assert HasType(Obj(e'), ObjectType) && ObjectType in s.types.value;
    forall n | n in e'
      ensures n in s.properties && Conforms(e'[n], s.properties[n])
    {
      if n != a && n != b {
        assert e'[n] == e[n];
      }
    }
  }

  lemma {:induction false} PlainSchema(t: EventType)
    ensures var s := EventSchema(t);
            && s.const_.None? && s.enum.None? && s.types == Some({ObjectType}) && s.pattern.None? && s.minLength == 0
            && s.minimum.None? && s.maximum.None? && s.items.None? && s.extra.Forbidden?
  {
  }

  // Every finalized event that the writer accepts has a twin that differs in one validator, which
  // says that it is unavailable and yet was compared: the writer accepts that event too, and the
  // verifier refuses it at every place.
  lemma {:induction false} ComparedUnavailableIsWritten(hash: Hash, runId: string, sessionId: string, number: nat,
      previous: Option<string>, fields: Record, id: string, at: string, p: Place)
    requires HexHash(hash) && fields.Keys !! CommonNames
    requires var draft := Draft(runId, sessionId, number, previous, FinalizedEvent, fields, id, at);
             CanonicalRecord(draft) && Conforms(Obj(Sealed(hash, draft)), EventSchema(FinalizedEvent))
    ensures var draft := Draft(runId, sessionId, number, previous, FinalizedEvent, fields["expected_size" := Compared], id, at);
            && CanonicalRecord(draft) && Conforms(Obj(Sealed(hash, draft)), EventSchema(FinalizedEvent))
            && !EventOk(hash, Some(Obj(Sealed(hash, draft))), p)
  {
    hide Conforms, EventSchema, FieldNames, TypeText, Canonical, FullHex, ValidatorOk, CanonicalRecord, TypeOf, FieldRules, BaseRules, EventOk;
    var bad := fields["expected_size" := Compared];
    var good_, bad_ := Draft(runId, sessionId, number, previous, FinalizedEvent, fields, id, at),
                       Draft(runId, sessionId, number, previous, FinalizedEvent, bad, id, at);
    ComparedConforms();
    FinalizedRules();
    SizeIsAField(Sealed(hash, good_));
    assert bad_ == good_["expected_size" := Compared];
    CanonicalUpdate(good_, "expected_size", Compared);
    assert FullHex(hash(bad_));
    HexConforms(hash(bad_));
    Revalued(Sealed(hash, good_), Sealed(hash, bad_), FinalizedEvent, "expected_size", "event_digest");
    ComparedIsRefused(hash, Sealed(hash, bad_), p);
  }

  lemma {:induction false} ComparedIsRefused(hash: Hash, e: Record, p: Place)
    requires Conforms(Obj(e), EventSchema(FinalizedEvent)) && "expected_size" in e && e["expected_size"] == Compared
    ensures !EventOk(hash, Some(Obj(e)), p)
  {
    hide Conforms, EventSchema, FieldNames, TypeText, Canonical, FullHex, ValidatorOk, CanonicalRecord, TypeOf, FieldRules, BaseRules;
    ComparedConforms();
    ConformingType(e, FinalizedEvent);
    assert ValidatorNames[0] == "expected_size" && Get(e, "expected_size") == Compared;
  }

  lemma {:induction false} SizeIsAField(e: Record)
    requires Conforms(Obj(e), EventSchema(FinalizedEvent))
    ensures "expected_size" in e && "event_digest" in e && "expected_size" !in CommonNames
  {
    hide Conforms, EventSchema;
    ConformingEventHasExactFields(e, FinalizedEvent);
  }

  lemma {:induction false} CanonicalUpdate(e: Record, n: string, v: Json)
    requires CanonicalRecord(e) && Canonical(v)
    ensures CanonicalRecord(e[n := v])
  {
    hide Canonical;
  }
}
