/** The promotion protocol and the provenance record set together: what a run closes with. */
module ProvenanceRun {
  import opened Prelude
  import opened PromotionTheorems
  import Promotion
  import Schema = ProvenanceSchema
  import Verifier = ProvenanceVerifier
  import Writer = ProvenanceWriter
  import Closing = ProvenanceClosing
  import Calls = ProvenanceTheorems

  // The items of the run that are complete in the database.
  function CompleteItems(s: Promotion.State): set<string> {
    set i | i in Promotion.Selected(s) && i in s.disk.rows && s.disk.rows[i].status.Complete?
  }

  // No work is left, and every item with a finalized record of the session is selected in the run.
  ghost predicate Ended(s: Promotion.State) {
    && s.phase.Serving? && s.tasks == map[]
    && FinalizedItems(s.disk.records, s.session) <= Promotion.Selected(s) * s.disk.rows.Keys
  }

  // The count of complete items that such a run closes with covers its finalized events.
  lemma {:induction false} EndedRunCloses(h: Promotion.Hash, trace: seq<Promotion.State>, steps: seq<Promotion.Step>, k: nat,
                                          a: Writer.Closing, runId: string, sessionId: string)
    requires RunFromFresh(h, trace, steps) && k < |trace| && Ended(trace[k])
    requires Writer.ClosingTyped(a, runId, sessionId)
    requires Writer.CompleteCount(a.counts) == Schema.Int(|CompleteItems(trace[k])|)
    ensures Writer.ClosingOk(a, runId, sessionId, FinalizedCount(trace[k].disk.records, trace[k].session))
  {
    FinalizedCountIsCovered(h, trace, steps, k);
  }

  // Whatever else such a run records, and whatever is rejected: if it announces no file as finalized
  // that the promotion protocol has not recorded, it closes to a record set that the verifier accepts.
  method CloseRun(ghost h: Promotion.Hash, ghost trace: seq<Promotion.State>, ghost steps: seq<Promotion.Step>, ghost k: nat,
                  hash: Verifier.Hash, runId: string, sessionId: string, credentialed: Schema.Record -> bool,
                  calls: seq<Calls.Call>, a: Writer.Closing, id: string, at: string, written: bool,
                  sign: Schema.Record -> string)
    returns (w: Writer.Writer, summary: Option<Schema.Record>)
    requires RunFromFresh(h, trace, steps) && k < |trace| && Ended(trace[k])
    requires Writer.HexHash(hash) && Calls.CallsOk(calls, id) && forall s :: Schema.FullSignature(sign(s))
    requires Calls.FinalCalls(calls) <= FinalizedCount(trace[k].disk.records, trace[k].session)
    requires Closing.ClosingFits(a, runId, sessionId, id, at) && !credentialed(Writer.ClosingFields(a, at))
    requires Writer.CompleteCount(a.counts) == Schema.Int(|CompleteItems(trace[k])|)
    ensures fresh(w) && w.Valid()
    ensures written ==> summary.Some? && Verifier.Accepts(hash, runId, sessionId, Writer.Lines(w.records), summary.value)
  {
    hide Verifier.Accepts, Calls.CallsOk, Writer.HexHash, Schema.FullSignature, Writer.ClosingTyped, Schema.FullUuid,
      Schema.FullTimestamp;
    EndedRunCloses(h, trace, steps, k, a, runId, sessionId);
    w, summary := Calls.RecordAndClose(hash, runId, sessionId, credentialed, calls, a, id, at, written, sign);
  }
}
