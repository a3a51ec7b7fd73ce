/** What a transfer decides about a staged file, column by column: whether a resume may start, what a
    failed engine run means, and what the digest of a finished one leads to. */
module Verdicts {
  import opened Prelude
  import opened Database
  import opened FileSystem
  import opened Promotion
  import opened PromotionSafety
  import opened PromotionSteps
  import opened PromotionTheorems
  import Scheduler

  // The bytes that item `i` has staged; none when there is no staged file.
  function StagedBytes(files: Files, i: Url): Bytes
    requires files.Valid()
  {
    if Staging(i) in files.names then files.data[files.names[Staging(i)]] else []
  }

  predicate Known(validator: Option<string>) {
    validator.Some? && |validator.value| > 0
  }

  // ------------------------------------------------------------ the admission

  // A chosen item is admitted; then an existing final ends the transfer, and without one it goes on.
  lemma {:induction false} AdmissionVerdict(h: Hash, s: State, i: Url, t: TaskStep)
    requires ItemInv(h, s, i) && s.phase.Serving? && i in s.tasks && (s.tasks[i].Chosen? || s.tasks[i].Waiting?)
    ensures Enabled(h, s, Task(i, t)) <==>
              var there := Final(s.disk.rows[i].stored) in s.disk.files.names;
              && t.Admission?
              && (t.admission.Admit? || t.admission.FindExisting? || t.admission.Reserve?)
              && (t.admission.Admit? <==> s.tasks[i].Chosen?)
              && (t.admission.FindExisting? <==> s.tasks[i].Waiting? && there)
    ensures Enabled(h, s, Task(i, t)) ==>
              var row, s', final := s.disk.rows[i], Apply(h, s, Task(i, t)), Final(s.disk.rows[i].stored);
              && s'.disk.files == s.disk.files && s'.disk.records == s.disk.records
              && (t.admission.Admit? ==>
                    && s'.disk.rows == s.disk.rows[i := row.(status := Admitted)]
                    && s'.tasks == s.tasks[i := Waiting(s.tasks[i].before)])
              && (t.admission.FindExisting? ==>
                    && s.disk.files.names[final] in s.disk.files.data && s'.tasks == s.tasks - {i}
                    && s'.disk.rows == s.disk.rows[i := row.(status := ExistingUnverified,
                                                            bytes := Some(|s.disk.files.data[s.disk.files.names[final]]|))])
              && (t.admission.Reserve? ==>
                    s'.disk.rows == s.disk.rows && s'.tasks == s.tasks[i := Ready(s.tasks[i].before)])
  {
    assert TaskOk(h, s, i);
  }

  // ------------------------------------------------------------ the resume

  // A resume of staged bytes that no checksum protects, with a validator to compare.
  predicate Unprotected(s: State, i: Url)
    requires s.disk.files.Valid() && i in s.disk.rows
  {
    var row := s.disk.rows[i];
    |StagedBytes(s.disk.files, i)| > 0 && row.expected.None? && (Known(row.etag) || Known(row.lastModified))
  }

  // Stored and observed entity tags are present and equal.
  predicate SameTag(row: Row, seen: Option<Observed>) {
    seen.Some? && Known(row.etag) && Known(seen.value.etag) && row.etag.value == seen.value.etag.value
  }

  // Both entity tags, or with no stored tag both dates, are present and differ.
  predicate OtherVersion(row: Row, seen: Option<Observed>) {
    seen.Some?
    && ((Known(row.etag) && Known(seen.value.etag) && row.etag.value != seen.value.etag.value)
        || (!Known(row.etag) && Known(row.lastModified) && Known(seen.value.lastModified)
            && row.lastModified.value != seen.value.lastModified.value))
  }

  // A reserved transfer starts its engine on unprotected bytes if and only if the entity tags agree.
  lemma {:induction false} ResumeVerdict(h: Hash, s: State, i: Url, seen: Option<Observed>)
    requires ItemInv(h, s, i) && s.phase.Serving? && i in s.tasks && s.tasks[i].Ready?
    ensures var start := Task(i, Admission(Activate(seen)));
            && (Enabled(h, s, start) <==> (Unprotected(s, i) ==> SameTag(s.disk.rows[i], seen)))
            && (Enabled(h, s, start) ==>
                  && i in Apply(h, s, start).tasks && Apply(h, s, start).tasks[i] == Downloading(s.tasks[i].before)
                  && i in Apply(h, s, start).disk.rows
                  && Started(s, i, seen, Apply(h, s, start).disk.rows[i]))
  {
  }

  // Otherwise it moves the bytes away, and says whether the version is known to have changed.
  lemma {:induction false} DoubtVerdict(h: Hash, s: State, i: Url, seen: Option<Observed>)
    requires ItemInv(h, s, i) && s.phase.Serving? && i in s.tasks && s.tasks[i].Ready?
    ensures var doubt := Task(i, Admission(Doubt(seen)));
            && (Enabled(h, s, doubt) <==> Unprotected(s, i) && !SameTag(s.disk.rows[i], seen))
            && (Enabled(h, s, doubt) ==>
                  && i in Apply(h, s, doubt).tasks
                  && Apply(h, s, doubt).tasks[i]
                     == Moving(Doubtful(if OtherVersion(s.disk.rows[i], seen) then ChangedRepresentation else NoVersionProtection,
                                        if seen.Some? then seen.value else Observed(None, None))))
  {
  }

  // The row of a started attempt: the attempt is counted, and with nothing staged and no checksum
  // the observed validators become the baseline.
  predicate Started(s: State, i: Url, seen: Option<Observed>, row': Row)
    requires s.disk.files.Valid() && i in s.disk.rows && i in s.tasks && s.tasks[i].Ready?
  {
    var row := s.disk.rows[i];
    && row'.status.Active? && row'.attempts == s.tasks[i].before + 1 && row'.generation.Some?
    && (row.generation.Some? ==> row'.generation == row.generation) && (row.generation.None? ==> row'.generation == Some(1))
    && (if |StagedBytes(s.disk.files, i)| == 0 && row.expected.None? && seen.Some?
        then row'.etag == seen.value.etag && row'.lastModified == seen.value.lastModified
        else row'.etag == row.etag && row'.lastModified == row.lastModified)
    && row' == row.(status := row'.status, attempts := row'.attempts, generation := row'.generation, etag := row'.etag,
                    lastModified := row'.lastModified)
  }

  // In every run an engine starts on unprotected bytes only when the entity tags agree.
  lemma {:induction false} GatedResume(h: Hash, trace: seq<State>, steps: seq<Step>, k: nat, i: Url, seen: Option<Observed>)
    requires RunFromFresh(h, trace, steps) && k < |steps| && steps[k] == Task(i, Admission(Activate(seen)))
    ensures trace[k].disk.files.Valid() && i in trace[k].disk.rows
    ensures Unprotected(trace[k], i) ==> SameTag(trace[k].disk.rows[i], seen)
  {
    hide Apply, Unprotected, SameTag, Inv;
    RunStep(h, trace, steps, k);
    ReadyHasTask(h, trace[k], i, seen);
    ResumeVerdict(h, trace[k], i, seen);
  }

  lemma {:induction false} ReadyHasTask(h: Hash, s: State, i: Url, seen: Option<Observed>)
    requires Inv(h, s) && Enabled(h, s, Task(i, Admission(Activate(seen))))
    ensures ItemInv(h, s, i) && s.phase.Serving? && i in s.tasks && s.tasks[i].Ready?
  {
  }

  // ------------------------------------------------------------ the end of an engine run

  predicate Whole(s: State, i: Url, ok: bool) {
    ok && Staging(i) in s.disk.files.names && Staging(i) !in s.disk.files.controls
  }

  // A second incomplete body, and no more bytes than after the first.
  predicate NoProgress(s: State, i: Url, failure: Failure)
    requires s.disk.files.Valid() && i in s.disk.rows
  {
    var row, size := s.disk.rows[i], |StagedBytes(s.disk.files, i)|;
    && size > 0 && failure.incompleteBody && row.lastError.Some? && row.lastError.value.incompleteBody
    && row.bytes.Some? && size <= row.bytes.value
  }

  // A finished engine run is hashed, or stalls for good, or fails: exactly one of the three.
  lemma {:induction false} EngineVerdict(h: Hash, s: State, i: Url, t: TaskStep)
    requires ItemInv(h, s, i) && s.phase.Serving? && i in s.tasks && s.tasks[i].Exited?
    ensures Enabled(h, s, Task(i, t)) <==>
              var ok, failure := s.tasks[i].ok, s.tasks[i].failure;
              && t.Judge?
              && (t.judge.HashStaging? || t.judge.Stall? || t.judge.Fail?)
              && (t.judge.HashStaging? <==> Whole(s, i, ok))
              && (t.judge.Stall? <==> !Whole(s, i, ok) && NoProgress(s, i, failure))
  {
    assert TaskOk(h, s, i);
  }

  // What each of the three leads to.
  lemma {:induction false} EngineOutcome(h: Hash, s: State, i: Url, t: TaskStep)
    requires ItemInv(h, s, i) && i in s.tasks && s.tasks[i].Exited?
    ensures Enabled(h, s, Task(i, t)) ==>
              var s', failure := Apply(h, s, Task(i, t)), s.tasks[i].failure;
              && (t.judge.HashStaging? ==> i in s'.tasks && s'.tasks[i] == Hashed(h(StagedBytes(s.disk.files, i))))
              && (t.judge.Stall? ==> i in s'.tasks && s'.tasks[i] == Moving(Stalled(failure)))
              && (t.judge.Fail? ==> i !in s'.tasks && i in s'.disk.rows
                                    && Failed(s, i, failure, t.judge.now, t.judge.stopped, s'.disk.rows[i]))
  {
  }

  // Seconds until the next attempt after `before` attempts.
  const Delays := [60.0, 120.0, 240.0, 300.0]

  // What each class of failure leaves in the row: a full disk gives the attempt back, a denial asks
  // the operator, a missing file comes back in a day, anything else is retried later.
  predicate Failed(s: State, i: Url, failure: Failure, now: real, stopped: bool, row': Row)
    requires s.disk.files.Valid() && i in s.disk.rows && i in s.tasks && s.tasks[i].Exited?
  {
    var row, before := s.disk.rows[i], s.tasks[i].before;
    && row'.bytes == Some(|StagedBytes(s.disk.files, i)|) && row'.lastError == Some(failure)
    && row'.attempts == (if failure.diskFull then before else row.attempts)
    && (if failure.diskFull then row'.status.Queued?
        else if failure.denied then row'.status.ReviewRequired?
        else if failure.gone then row'.status.Unavailable?
        else row'.status.RetryWait?)
    && row'.code == (if !failure.diskFull && failure.denied then AccessDenied else row.code)
    && (row'.status.Queued? ==> row'.nextRetryAt == 0.0)
    && (row'.status.RetryWait? ==>
          row'.nextRetryAt == if stopped then now else now + Delays[if before < 3 then before else 3])
    && (row'.status.ReviewRequired? || row'.status.Unavailable? ==> row'.nextRetryAt == row.nextRetryAt)
    && (if row'.status.Unavailable? then row'.recheckAt == Some(now + 86400.0) && row'.early == 0
        else row'.recheckAt == row.recheckAt && row'.early == row.early)
    && row' == row.(status := row'.status, attempts := row'.attempts, bytes := row'.bytes, lastError := row'.lastError,
                    code := row'.code, nextRetryAt := row'.nextRetryAt, recheckAt := row'.recheckAt, early := row'.early)
  }

  // ------------------------------------------------------------ the checksum and the size

  // The digest is against the expected checksum.
  predicate Refuted(row: Row, digest: Digest) {
    row.expected.Some? && row.expected.value != digest
  }

  // From a hashed file the checksum decides first: with another checksum the file goes to the
  // candidates and nowhere else; otherwise an announced size decides, and only a file that passes
  // both is promoted.
  lemma {:induction false} DigestVerdict(h: Hash, s: State, i: Url, t: TaskStep)
    requires ItemInv(h, s, i) && s.phase.Serving? && i in s.tasks && s.tasks[i].Hashed?
    ensures Enabled(h, s, Task(i, t)) <==>
              var refuted, size := Refuted(s.disk.rows[i], s.tasks[i].digest), |StagedBytes(s.disk.files, i)|;
              && t.Judge?
              && match t.judge
                 case ReviewChecksum => refuted
                 case ReviewSize(announced) => !refuted && announced != size
                 case Intend(announced) => !refuted && (announced.None? || announced.value == size)
                 case ParentError(_) => !refuted
                 case _ => false
  {
    assert TaskOk(h, s, i);
  }

  lemma {:induction false} DigestOutcome(h: Hash, s: State, i: Url, t: TaskStep)
    requires ItemInv(h, s, i) && i in s.tasks && s.tasks[i].Hashed?
    ensures Enabled(h, s, Task(i, t)) ==>
              var s', d := Apply(h, s, Task(i, t)), s.tasks[i].digest;
              && (Refuted(s.disk.rows[i], d) <==> i in s'.tasks && s'.tasks[i] == Moving(WrongChecksum(d)))
              && (t.judge.ReviewSize? <==> i in s'.tasks && s'.tasks[i] == Moving(WrongSize(d)))
              && (t.judge.Intend? <==> i in s'.tasks && s'.tasks[i] == Intended(d))
              && (t.judge.ParentError? ==> i !in s'.tasks && i in s'.disk.rows && s'.disk.rows[i].status.ReviewRequired?
                                           && s'.disk.rows[i].lastError == Some(t.judge.failure)
                                           && s'.disk.rows[i].sha256 == Some(d)
                                           && s'.disk.rows[i].code == if t.judge.failure.nameTooLong then NameTooLong else NoCode)
  {
    assert TaskOk(h, s, i);
  }

  // ------------------------------------------------------------ the promotion

  predicate Promoting(pc: Pc) {
    pc.Intended? || pc.Linked? || pc.Recorded? || pc.Completed? || pc.Unlinked?
  }

  // After the intent: the link, or a collision when the final exists; then the record, the completion,
  // the removal of the staging name and its commit, one after the other.
  lemma {:induction false} PromoteVerdict(h: Hash, s: State, i: Url, t: TaskStep)
    requires ItemInv(h, s, i) && s.phase.Serving? && i in s.tasks && Promoting(s.tasks[i])
    ensures Enabled(h, s, Task(i, t)) <==>
              && t.Promote?
              && match t.promote
                 case LinkFinal => s.tasks[i].Intended? && Final(s.disk.rows[i].stored) !in s.disk.files.names
                 case FindCollision => s.tasks[i].Intended? && Final(s.disk.rows[i].stored) in s.disk.files.names
                 case LinkError(_) => s.tasks[i].Intended?
                 case RecordFinal => s.tasks[i].Linked?
                 case CommitComplete => s.tasks[i].Recorded?
                 case UnlinkStaging => s.tasks[i].Completed?
                 case CommitCleanup => s.tasks[i].Unlinked?
  {
    assert TaskOk(h, s, i);
  }

  lemma {:induction false} PromoteOutcome(h: Hash, s: State, i: Url, t: PromoteStep)
    requires ItemInv(h, s, i) && Enabled(h, s, Task(i, Promote(t)))
    ensures var disk, disk', row, tasks' := s.disk, Apply(h, s, Task(i, Promote(t))).disk, s.disk.rows[i],
                                            Apply(h, s, Task(i, Promote(t))).tasks;
            var files, bytes := disk.files, StagedBytes(disk.files, i);
            && disk'.runs == disk.runs
            && disk'.files == (if t.LinkFinal? then files.(names := files.names[Final(row.stored) := files.names[Staging(i)]])
                               else if t.UnlinkStaging? then files.(names := files.names - {Staging(i)}) else files)
            && disk'.records == disk.records + (if t.RecordFinal?
                                                then [Finalized(s.session, i, row.stored, s.tasks[i].digest, |bytes|)] else [])
            && disk'.rows == (match t
                              case LinkError(failure) =>
                                disk.rows[i := row.(status := ReviewRequired, lastError := Some(failure), bytes := Some(|bytes|),
                                                    code := if failure.nameTooLong then NameTooLong else NoCode)]
                              case CommitComplete => disk.rows[i := row.(status := Complete, bytes := Some(|bytes|))]
                              case CommitCleanup => disk.rows[i := row.(cleaned := true)]
                              case _ => disk.rows)
            && tasks' == (match t
                          case LinkFinal => s.tasks[i := Linked(s.tasks[i].digest)]
                          case FindCollision => s.tasks[i := Moving(Collision(s.tasks[i].digest))]
                          case RecordFinal => s.tasks[i := Recorded(s.tasks[i].digest)]
                          case CommitComplete => s.tasks[i := Completed]
                          case UnlinkStaging => s.tasks[i := Unlinked]
                          case _ => s.tasks - {i})
  {
    assert TaskOk(h, s, i);
  }

  // ------------------------------------------------------------ the candidate

  // Why the staged file of a task is on its way to the candidates.
  function Cause(pc: Pc): Option<Why> {
    match pc
    case Moving(why) => Some(why)
    case MoveLinked(why, _) => Some(why)
    case MoveUnlinked(why, _) => Some(why)
    case MoveDone(why, _) => Some(why)
    case MoveRecorded(why, _) => Some(why)
    case _ => None
  }

  // The reviewed row of a candidate of `size` bytes, column by column.
  predicate Reviewed(row: Row, row': Row, why: Why, size: nat) {
    && row'.status.ReviewRequired?
    && row'.code == (match why case WrongChecksum(_) => ChecksumMismatch case WrongSize(_) => SizeMismatch
                     case Doubtful(code, _) => code case _ => row.code)
    && row'.sha256 == (match why case WrongChecksum(d) => Some(d) case WrongSize(d) => Some(d) case _ => row.sha256)
    && row'.bytes == (if why.Doubtful? then None else Some(size))
    && (why.Stalled? ==> row'.lastError == Some(why.failure)) && (why.Collision? ==> row'.lastError == row.lastError)
    && (why.WrongChecksum? || why.WrongSize? || why.Doubtful? ==>
          row'.lastError.Some? && row'.lastError.value == Failure(row'.lastError.value.text, false, false, false, false, false))
    && row'.target == (if why.Collision? then Some(row.stored) else row.target)
    && (if why.Doubtful? then row'.etag == why.observed.etag && row'.lastModified == why.observed.lastModified && row'.recheckAt.None?
        else row'.etag == row.etag && row'.lastModified == row.lastModified && row'.recheckAt == row.recheckAt)
    && row' == row.(status := row'.status, code := row'.code, sha256 := row'.sha256, bytes := row'.bytes,
                    lastError := row'.lastError, target := row'.target, etag := row'.etag,
                    lastModified := row'.lastModified, recheckAt := row'.recheckAt)
  }

  // The move keeps its cause.
  lemma {:induction false} MoveGoesOn(h: Hash, s: State, i: Url, t: TaskStep)
    requires ItemInv(h, s, i) && i in s.tasks && Cause(s.tasks[i]).Some? && Enabled(h, s, Task(i, t))
    ensures t.Move?
    ensures var s' := Apply(h, s, Task(i, t));
            !t.move.MoveCommit? ==> i in s'.tasks && Cause(s'.tasks[i]) == Cause(s.tasks[i]) && s'.disk.rows == s.disk.rows
  {
    assert TaskOk(h, s, i);
  }

  // The link to a free candidate name, the removal of the staging name, the move of the control file and
  // the record follow each other; the record has the digest when there is one, and the reason.
  lemma {:induction false} MoveOutcome(h: Hash, s: State, i: Url, t: MoveStep)
    requires ItemInv(h, s, i) && i in s.tasks && Cause(s.tasks[i]).Some? && Enabled(h, s, Task(i, TaskStep.Move(t)))
    ensures match t
            case MoveLink(serial) => s.tasks[i].Moving? && Candidate(i, serial) !in s.disk.files.names
            case MoveUnlink => s.tasks[i].MoveLinked?
            case MoveControlFile => s.tasks[i].MoveUnlinked?
            case MoveRecord => s.tasks[i].MoveDone?
            case MoveCommit => s.tasks[i].MoveRecorded?
    ensures var disk, disk', why := s.disk, Apply(h, s, Task(i, TaskStep.Move(t))).disk, Cause(s.tasks[i]).value;
            var files, staging := disk.files, Staging(i);
            && disk'.runs == disk.runs && (!t.MoveCommit? ==> disk'.rows == disk.rows)
            && disk'.files == (match t
                               case MoveLink(serial) => files.(names := files.names[Candidate(i, serial) := files.names[staging]])
                               case MoveUnlink => files.(names := files.names - {staging})
                               case MoveControlFile =>
                                 if staging in files.controls
                                 then files.(controls := files.controls - {staging} + {Candidate(i, s.tasks[i].serial)}) else files
                               case _ => files)
            && disk'.records == disk.records
                                + if t.MoveRecord?
                                  then [CandidateCreated(s.session, i, Candidate(i, s.tasks[i].serial), Measured(why), Because(why))] else []
  {
    assert TaskOk(h, s, i);
  }

  function Measured(why: Why): Option<Digest> {
    if why.WrongChecksum? || why.WrongSize? || why.Collision? then Some(why.digest) else None
  }

  function Because(why: Why): Reason {
    if why.Collision? then DestinationCollision else if why.Doubtful? then RecoveryReview else ValidationFailed
  }

  // It ends with a candidate and the review of that cause.
  lemma {:induction false} CandidateOutcome(h: Hash, s: State, i: Url)
    requires s.disk.files.Valid() && i in s.tasks && Enabled(h, s, Task(i, TaskStep.Move(MoveCommit)))
    ensures var s' := Apply(h, s, Task(i, TaskStep.Move(MoveCommit)));
            && i in s.disk.rows && s.tasks[i].MoveRecorded? && Candidate(i, s.tasks[i].serial) in s.disk.files.names
            && i !in s'.tasks && i in s'.disk.rows
            && Reviewed(s.disk.rows[i], s'.disk.rows[i], s.tasks[i].why,
                        |s.disk.files.Content(Candidate(i, s.tasks[i].serial))|)
  {
  }

  // ------------------------------------------------------------ the recheck of an unavailable item

  // A recheck of a selected, unavailable item may start once it is due or pulled forward, and is spent
  // for a day when it starts.
  lemma {:induction false} ClaimVerdict(h: Hash, s: State, i: Url, now: real)
    requires Inv(h, s)
    ensures var claim := Task(i, Recheck(ClaimRecheck(now)));
            && (Enabled(h, s, claim) <==>
                  && s.phase.Serving? && i in s.disk.rows && i !in s.tasks && i in Selected(s)
                  && s.disk.rows[i].status.Unavailable?
                  && (s.disk.rows[i].early == 1 || s.disk.rows[i].recheckAt.None? || s.disk.rows[i].recheckAt.value <= now))
            && (Enabled(h, s, claim) ==>
                  var row, s' := s.disk.rows[i], Apply(h, s, claim);
                  var due := if row.recheckAt.Some? then row.recheckAt.value else 0.0;
                  && s'.tasks == s.tasks[i := Rechecking]
                  && s'.disk.rows == s.disk.rows[i := row.(early := if row.early == 1 && due > now then 2 else 0,
                                                          recheckAt := Some(now + 86400.0))])
  {
  }

  // The answer to a recheck: bytes that nothing protects go to review unless the entity tags agree,
  // everything else goes back to the queue, and without an answer the item waits for its next day.
  lemma {:induction false} AnswerVerdict(h: Hash, s: State, i: Url, answer: Observed)
    requires ItemInv(h, s, i) && s.phase.Serving? && i in s.tasks && s.tasks[i].Rechecking?
    ensures var row, doubt, back := s.disk.rows[i], Task(i, Recheck(RecheckDoubt(answer))), Task(i, Recheck(RecheckReturn(answer)));
            && (Enabled(h, s, doubt) <==>
                  && row.generation.Some? && |StagedBytes(s.disk.files, i)| > 0 && row.expected.None?
                  && !SameTag(row, Some(answer)))
            && (Enabled(h, s, back) <==> !Enabled(h, s, doubt))
            && (Enabled(h, s, doubt) ==>
                  Apply(h, s, doubt).tasks
                  == s.tasks[i := Moving(Doubtful(if OtherVersion(row, Some(answer)) then ChangedRepresentation
                                                  else NoVersionProtection, answer))])
            && (Enabled(h, s, back) ==>
                  && Apply(h, s, back).tasks == s.tasks - {i}
                  && Apply(h, s, back).disk.rows
                     == s.disk.rows[i := row.(status := Queued, nextRetryAt := 0.0, recheckAt := None)])
    ensures Enabled(h, s, Task(i, Recheck(RecheckFail)))
    ensures Apply(h, s, Task(i, Recheck(RecheckFail))) == s.(tasks := s.tasks - {i})
  {
  }

  // ------------------------------------------------------------ over a run

  // A file that the checksum refutes, until its review.
  ghost predicate UnderReview(s: State, i: Url, d: Digest) {
    && i in s.disk.rows && i in s.tasks && Refuted(s.disk.rows[i], d)
    && (s.tasks[i] == Hashed(d) || Cause(s.tasks[i]) == Some(WrongChecksum(d)))
  }

  ghost predicate Ended(s: State, step: Step, s': State, i: Url, d: Digest) {
    || step.Crash?
    || (&& step == Task(i, TaskStep.Move(MoveCommit)) && i in s'.disk.rows
        && s'.disk.rows[i].status.ReviewRequired? && s'.disk.rows[i].code.ChecksumMismatch?
        && s'.disk.rows[i].sha256 == Some(d))
  }

  lemma {:induction false} OwnReview(h: Hash, s: State, i: Url, t: TaskStep, d: Digest)
    requires ItemInv(h, s, i) && Enabled(h, s, Task(i, t)) && UnderReview(s, i, d)
    ensures var s' := Apply(h, s, Task(i, t)); UnderReview(s', i, d) || (i !in s'.tasks && Ended(s, Task(i, t), s', i, d))
  {
    hide AdmissionEnabled, EngineEnabled, PromoteEnabled, MoveEnabled, RecheckEnabled, AdmissionApply, EngineApply, PromoteApply,
      MoveApply, RecheckApply, CodeOk, IntentOk, EvidenceOk, ServingOk, TaskOk;
    if s.tasks[i].Hashed? {
      DigestVerdict(h, s, i, t);
      DigestOutcome(h, s, i, t);
    } else {
      MoveGoesOn(h, s, i, t);
      if t.move.MoveCommit? {
        CandidateOutcome(h, s, i);
      }
    }
  }

  lemma {:induction false} StepReviews(h: Hash, s: State, step: Step, i: Url, d: Digest)
    requires Inv(h, s) && Enabled(h, s, step) && UnderReview(s, i, d)
    ensures var s' := Apply(h, s, step); UnderReview(s', i, d) || (i !in s'.tasks && Ended(s, step, s', i, d))
  {
    hide TaskApply, RecoveryApply, RecoveryEnabled, AdmissionEnabled, EngineEnabled, JudgeEnabled, PromoteEnabled, MoveEnabled,
      RecheckEnabled;
    if step.Task? {
      if step.item == i {
        OwnReview(h, s, i, step.task, d);
      } else {
        Scheduler.OtherTaskStays(h, s, step.item, step.task, i);
        var row := TaskRow(h, s, step.item, step.task);
      }
    }
  }

  lemma {:induction false} StaysUnderReview(h: Hash, trace: seq<State>, steps: seq<Step>, a: nat, b: nat, i: Url, d: Digest)
    requires RunFromFresh(h, trace, steps) && a <= b < |trace| && UnderReview(trace[a], i, d)
    requires forall j | a <= j <= b :: i in trace[j].tasks
    ensures UnderReview(trace[b], i, d)
  {
    hide Inv, Enabled, Apply, UnderReview, Ended;
    if a < b {
      StaysUnderReview(h, trace, steps, a, b - 1, i, d);
      RunStep(h, trace, steps, b - 1);
      StepReviews(h, trace[b - 1], steps[b - 1], i, d);
    }
  }

  // In every run a staged file whose digest the expected checksum refutes ends, unless the controller
  // dies first, as a candidate under the review of a checksum mismatch.
  lemma {:induction false} RefutedIsReviewed(h: Hash, trace: seq<State>, steps: seq<Step>, a: nat, b: nat, i: Url, d: Digest)
    requires RunFromFresh(h, trace, steps) && a <= b < |steps|
    requires i in trace[a].disk.rows && i in trace[a].tasks && trace[a].tasks[i] == Hashed(d) && Refuted(trace[a].disk.rows[i], d)
    requires (forall j | a <= j <= b :: i in trace[j].tasks) && i !in trace[b + 1].tasks
    ensures Ended(trace[b], steps[b], trace[b + 1], i, d)
  {
    hide Inv, Enabled, Apply, Ended;
    StaysUnderReview(h, trace, steps, a, b, i, d);
    RunStep(h, trace, steps, b);
    StepReviews(h, trace[b], steps[b], i, d);
  }
}
