/** The expected checksum of an item: nothing is promoted against it, and in a run whose imports
    respect what was verified, nothing is complete against it. */
module Checksums {
  import opened Prelude
  import opened Database
  import opened FileSystem
  import opened Promotion
  import opened PromotionSafety
  import opened PromotionSteps
  import opened PromotionTheorems
  import Scheduler
  import MovedStorage
  import RunMetrics

  // ------------------------------------------------------------ the promotion intent

  // The step that makes a row promoting takes a whole staged file: its bytes have the recorded
  // digest, and the expected one when there is one.
  ghost predicate Intends(h: Hash, s: State, s': State, i: Url)
    requires s.disk.files.Valid()
  {
    && i in s.disk.rows && i in s'.disk.rows && Staging(i) in s.disk.files.names
    && var row, row', digest := s.disk.rows[i], s'.disk.rows[i], h(s.disk.files.Content(Staging(i)));
       && row'.sha256 == Some(digest) && row'.bytes == Some(|s.disk.files.Content(Staging(i))|)
       && row'.target == Some(row.stored) && row'.stored == row.stored && row'.expected == row.expected
       && (row.expected.Some? ==> row.expected.value == digest)
  }

  lemma {:induction false} JudgeIntends(h: Hash, s: State, i: Url, t: JudgeStep)
    requires ItemInv(h, s, i) && JudgeEnabled(s, i, t) && !s.disk.rows[i].status.Promoting?
    requires JudgeApply(h, s, i, t).disk.rows[i].status.Promoting?
    ensures Intends(h, s, JudgeApply(h, s, i, t), i)
  {
    assert TaskOk(h, s, i);
  }

  lemma {:induction false} OthersIntendNothing(h: Hash, s: State, i: Url, t: TaskStep)
    requires s.disk.files.Valid() && Enabled(h, s, Task(i, t)) && !t.Judge? && !s.disk.rows[i].status.Promoting?
    ensures i in TaskApply(h, s, i, t).disk.rows && !TaskApply(h, s, i, t).disk.rows[i].status.Promoting?
  {
    match t
    case Admission(a) =>
    case Engine(e) =>
    case Promote(p) =>
    case Move(m) =>
    case Recheck(r) =>
  }

  lemma {:induction false} PromotingIsExpected(h: Hash, trace: seq<State>, steps: seq<Step>, k: nat, i: Url)
    requires RunFromFresh(h, trace, steps) && k < |steps| && steps[k].Task?
    requires i in trace[k].disk.rows && !trace[k].disk.rows[i].status.Promoting?
    requires i in trace[k + 1].disk.rows && trace[k + 1].disk.rows[i].status.Promoting?
    ensures trace[k].disk.files.Valid() && Intends(h, trace[k], trace[k + 1], i)
  {
    hide Intends, JudgeEnabled, JudgeApply, AdmissionApply, EngineApply, PromoteApply, MoveApply, RecheckApply;
    RunStep(h, trace, steps, k);
    var row := TaskRow(h, trace[k], steps[k].item, steps[k].task);
    assert steps[k].item == i;
    if steps[k].task.Judge? {
      JudgeIntends(h, trace[k], i, steps[k].task.judge);
    } else {
      OthersIntendNothing(h, trace[k], i, steps[k].task);
    }
  }

  // ------------------------------------------------------------ from the intent to the completion

  // The digest that the checks of a transfer have passed.
  function Passed(pc: Pc): Option<Digest> {
    match pc
    case Intended(d) => Some(d)
    case Linked(d) => Some(d)
    case Recorded(d) => Some(d)
    case Moving(why) => PassedBefore(why)
    case MoveLinked(why, _) => PassedBefore(why)
    case MoveUnlinked(why, _) => PassedBefore(why)
    case MoveDone(why, _) => PassedBefore(why)
    case MoveRecorded(why, _) => PassedBefore(why)
    case _ => None
  }

  // A size is compared, and a collision met, only after the checksum.
  function PassedBefore(why: Why): Option<Digest> {
    match why
    case WrongSize(d) => Some(d)
    case Collision(d) => Some(d)
    case _ => None
  }

  predicate Agrees(row: Row, digest: Option<Digest>) {
    digest.Some? && row.expected.Some? ==> row.expected == digest
  }

  predicate TaskAgrees(s: State, i: Url) {
    i in s.disk.rows && i in s.tasks ==> Agrees(s.disk.rows[i], Passed(s.tasks[i]))
  }

  lemma {:induction false} AdmissionAgrees(s: State, i: Url, t: AdmissionStep)
    requires s.disk.files.Valid() && i in s.disk.rows && AdmissionEnabled(s, i, t) && TaskAgrees(s, i)
    ensures TaskAgrees(AdmissionApply(s, i, t), i) && i in AdmissionApply(s, i, t).disk.rows
    ensures AdmissionApply(s, i, t).disk.rows[i].expected == s.disk.rows[i].expected
  {
  }

  lemma {:induction false} JudgeAgrees(h: Hash, s: State, i: Url, t: JudgeStep)
    requires s.disk.files.Valid() && i in s.disk.rows && JudgeEnabled(s, i, t) && TaskAgrees(s, i)
    ensures TaskAgrees(JudgeApply(h, s, i, t), i) && i in JudgeApply(h, s, i, t).disk.rows
    ensures JudgeApply(h, s, i, t).disk.rows[i].expected == s.disk.rows[i].expected
  {
  }

  lemma {:induction false} PromoteAgrees(s: State, i: Url, t: PromoteStep)
    requires s.disk.files.Valid() && i in s.disk.rows && PromoteEnabled(s, i, t) && Placed(s.disk, i, s.tasks[i]) && TaskAgrees(s, i)
    ensures TaskAgrees(PromoteApply(s, i, t), i) && i in PromoteApply(s, i, t).disk.rows
    ensures PromoteApply(s, i, t).disk.rows[i].expected == s.disk.rows[i].expected
  {
  }

  lemma {:induction false} MoveAgrees(s: State, i: Url, t: MoveStep)
    requires s.disk.files.Valid() && i in s.disk.rows && MoveEnabled(s, i, t) && Placed(s.disk, i, s.tasks[i]) && TaskAgrees(s, i)
    ensures TaskAgrees(MoveApply(s, i, t), i) && i in MoveApply(s, i, t).disk.rows
    ensures MoveApply(s, i, t).disk.rows[i].expected == s.disk.rows[i].expected
  {
  }

  lemma {:induction false} RestAgrees(h: Hash, s: State, i: Url, t: TaskStep)
    requires s.disk.files.Valid() && Enabled(h, s, Task(i, t)) && (t.Engine? || t.Recheck?) && TaskAgrees(s, i)
    ensures TaskAgrees(TaskApply(h, s, i, t), i) && i in TaskApply(h, s, i, t).disk.rows
    ensures TaskApply(h, s, i, t).disk.rows[i].expected == s.disk.rows[i].expected
  {
  }

  lemma {:induction false} OwnTaskAgrees(h: Hash, s: State, i: Url, t: TaskStep)
    requires s.disk.files.Valid() && Enabled(h, s, Task(i, t)) && TaskAgrees(s, i)
    ensures TaskAgrees(TaskApply(h, s, i, t), i)
    ensures i in TaskApply(h, s, i, t).disk.rows && TaskApply(h, s, i, t).disk.rows[i].expected == s.disk.rows[i].expected
  {
    hide AdmissionEnabled, AdmissionApply, JudgeEnabled, JudgeApply, PromoteApply, MoveApply, TaskAgrees, EngineApply,
      RecheckApply, EngineEnabled, RecheckEnabled, Placed;
    match t
    case Admission(a) => AdmissionAgrees(s, i, a);
    case Judge(j) => JudgeAgrees(h, s, i, j);
    case Promote(p) => PromoteAgrees(s, i, p);
    case Move(m) => MoveAgrees(s, i, m);
    case Engine(e) => RestAgrees(h, s, i, t);
    case Recheck(r) => RestAgrees(h, s, i, t);
  }

  // A transfer goes on with the expected checksum that it has compared: an import runs only while
  // no transfer does.
  lemma {:induction false} StepAgrees(h: Hash, s: State, step: Step, i: Url)
    requires Inv(h, s) && Enabled(h, s, step) && TaskAgrees(s, i)
    ensures TaskAgrees(Apply(h, s, step), i)
  {
    hide TaskApply, RecoveryApply, RecoveryEnabled, AdmissionEnabled, EngineEnabled, JudgeEnabled, PromoteEnabled, MoveEnabled,
      RecheckEnabled;
    if step.Task? {
      if step.item == i {
        OwnTaskAgrees(h, s, i, step.task);
      } else {
        Scheduler.OtherTaskStays(h, s, step.item, step.task, i);
        var row := TaskRow(h, s, step.item, step.task);
      }
    } else {
      OtherStepAgrees(h, s, step, i);
    }
  }

  lemma {:induction false} OtherStepAgrees(h: Hash, s: State, step: Step, i: Url)
    requires Grounded(s) && Enabled(h, s, step) && !step.Task? && TaskAgrees(s, i)
    ensures TaskAgrees(Apply(h, s, step), i)
  {
    hide RecoveryApply, RecoveryEnabled, Settled;
  }

  lemma {:induction false} TasksAgree(h: Hash, trace: seq<State>, steps: seq<Step>, k: nat, i: Url)
    requires RunFromFresh(h, trace, steps) && k < |trace|
    ensures TaskAgrees(trace[k], i)
  {
    hide Enabled, Apply, Inv, TaskAgrees;
    if k == 0 {
      FreshAgrees(i);
    } else {
      TasksAgree(h, trace, steps, k - 1, i);
      RunStep(h, trace, steps, k - 1);
      StepAgrees(h, trace[k - 1], steps[k - 1], i);
    }
  }

  lemma {:induction false} FreshAgrees(i: Url)
    ensures TaskAgrees(Fresh, i)
  {
  }

  // The commit that completes a transfer: the recorded digest is the expected one, and a final holds
  // bytes of that digest.
  lemma {:induction false} CompletedIsExpected(h: Hash, trace: seq<State>, steps: seq<Step>, k: nat, i: Url)
    returns (p: Path)
    requires RunFromFresh(h, trace, steps) && k < |steps| && steps[k].Task?
    requires i in trace[k].disk.rows && !trace[k].disk.rows[i].status.Complete?
    requires i in trace[k + 1].disk.rows && trace[k + 1].disk.rows[i].status.Complete?
    ensures var files, row := trace[k].disk.files, trace[k + 1].disk.rows[i];
            && files.Valid() && Final(p) in files.names && row.sha256 == Some(h(files.Content(Final(p))))
            && row.expected == trace[k].disk.rows[i].expected
            && (row.expected.Some? ==> row.expected.value == h(files.Content(Final(p))))
  {
    hide JudgeEnabled, JudgeApply, AdmissionApply, EngineApply, MoveApply, RecheckApply, TaskAgrees;
    RunStep(h, trace, steps, k);
    TasksAgree(h, trace, steps, k, i);
    var at;
    at, p := RecordPrecedesCompletion(h, trace, steps, k, i);
    var row := TaskRow(h, trace[k], steps[k].item, steps[k].task);
    assert steps[k].item == i;
    TaskCompletes(h, trace[k], i, steps[k].task);
  }

  lemma {:induction false} TaskCompletes(h: Hash, s: State, i: Url, t: TaskStep)
    requires ItemInv(h, s, i) && Enabled(h, s, Task(i, t)) && TaskAgrees(s, i) && !s.disk.rows[i].status.Complete?
    requires i in TaskApply(h, s, i, t).disk.rows && TaskApply(h, s, i, t).disk.rows[i].status.Complete?
    ensures var row, row' := s.disk.rows[i], TaskApply(h, s, i, t).disk.rows[i];
            row'.expected == row.expected && (row.expected.Some? ==> row'.sha256 == row.expected)
  {
    hide JudgeEnabled, JudgeApply, AdmissionApply, EngineApply, PromoteApply, MoveApply, RecheckApply;
    if t.Promote? {
      PromoteCompletes(h, s, i, t.promote);
    } else {
      OthersCompleteNothing(h, s, i, t);
    }
  }

  lemma {:induction false} PromoteCompletes(h: Hash, s: State, i: Url, t: PromoteStep)
    requires ItemInv(h, s, i) && PromoteEnabled(s, i, t) && TaskAgrees(s, i) && !s.disk.rows[i].status.Complete?
    requires i in s.tasks && Placed(s.disk, i, s.tasks[i]) && PromoteApply(s, i, t).disk.rows[i].status.Complete?
    ensures var row, row' := s.disk.rows[i], PromoteApply(s, i, t).disk.rows[i];
            row'.expected == row.expected && (row.expected.Some? ==> row'.sha256 == row.expected)
  {
    assert TaskOk(h, s, i);
  }

  lemma {:induction false} OthersCompleteNothing(h: Hash, s: State, i: Url, t: TaskStep)
    requires s.disk.files.Valid() && Enabled(h, s, Task(i, t)) && !t.Promote? && !s.disk.rows[i].status.Complete?
    ensures i in TaskApply(h, s, i, t).disk.rows && !TaskApply(h, s, i, t).disk.rows[i].status.Complete?
  {
    match t
    case Admission(a) =>
    case Engine(e) =>
    case Judge(j) =>
    case Move(m) =>
    case Recheck(r) =>
  }

  // ------------------------------------------------------------ complete rows

  // A digest is recorded, and it is not the expected one.
  predicate Mismatched(row: Row) {
    row.expected.Some? && row.sha256.Some? && row.expected != row.sha256
  }

  // Reviewed as a checksum mismatch, and nothing will remediate it.
  predicate Rejected(row: Row) {
    && (row.status.ReviewRequired? || row.status.Excluded?) && row.code.ChecksumMismatch?
    && (row.remediated || !(row.lastError.Some? && row.lastError.value.nameTooLong))
  }

  predicate Checked(s: State, i: Url) {
    i in s.disk.rows ==>
      && (Mismatched(s.disk.rows[i]) ==> Rejected(s.disk.rows[i]))
      && (i in s.tasks ==> !Mismatched(s.disk.rows[i]))
  }

  // An import that gives the item another checksum than the one that its bytes have.
  predicate Overrides(s: State, step: Step, i: Url) {
    && step.Import? && step.url == i && i in s.disk.rows && step.row.expected.Some?
    && s.disk.rows[i].sha256.Some? && step.row.expected != s.disk.rows[i].sha256 && !Rejected(s.disk.rows[i])
  }

  lemma {:induction false} AdmissionChecks(s: State, i: Url, t: AdmissionStep)
    requires s.disk.files.Valid() && i in s.disk.rows && AdmissionEnabled(s, i, t) && Checked(s, i)
    ensures Checked(AdmissionApply(s, i, t), i)
  {
  }

  lemma {:induction false} JudgeChecks(h: Hash, s: State, i: Url, t: JudgeStep)
    requires s.disk.files.Valid() && i in s.disk.rows && JudgeEnabled(s, i, t) && Checked(s, i)
    ensures Checked(JudgeApply(h, s, i, t), i)
  {
  }

  lemma {:induction false} PromoteChecks(s: State, i: Url, t: PromoteStep)
    requires s.disk.files.Valid() && i in s.disk.rows && PromoteEnabled(s, i, t) && Placed(s.disk, i, s.tasks[i])
    requires TaskAgrees(s, i) && Checked(s, i)
    ensures Checked(PromoteApply(s, i, t), i)
  {
  }

  lemma {:induction false} MoveChecks(s: State, i: Url, t: MoveStep)
    requires s.disk.files.Valid() && i in s.disk.rows && MoveEnabled(s, i, t) && Placed(s.disk, i, s.tasks[i])
    requires TaskAgrees(s, i) && Checked(s, i)
    ensures Checked(MoveApply(s, i, t), i)
  {
  }

  lemma {:induction false} RestChecks(h: Hash, s: State, i: Url, t: TaskStep)
    requires s.disk.files.Valid() && Enabled(h, s, Task(i, t)) && (t.Engine? || t.Recheck?) && Checked(s, i)
    ensures Checked(TaskApply(h, s, i, t), i)
  {
  }

  lemma {:induction false} OwnTaskChecks(h: Hash, s: State, i: Url, t: TaskStep)
    requires s.disk.files.Valid() && Enabled(h, s, Task(i, t)) && TaskAgrees(s, i) && Checked(s, i)
    ensures Checked(TaskApply(h, s, i, t), i)
  {
    hide AdmissionEnabled, AdmissionApply, JudgeEnabled, JudgeApply, PromoteApply, MoveApply, TaskAgrees, Checked, EngineApply,
      RecheckApply, EngineEnabled, RecheckEnabled, Placed;
    match t
    case Admission(a) => AdmissionChecks(s, i, a);
    case Judge(j) => JudgeChecks(h, s, i, j);
    case Promote(p) => PromoteChecks(s, i, p);
    case Move(m) => MoveChecks(s, i, m);
    case Engine(e) => RestChecks(h, s, i, t);
    case Recheck(r) => RestChecks(h, s, i, t);
  }

  lemma {:induction false} RecoveryChecks(h: Hash, disk: Disk, session: nat, i: Url, r: RecoveryStep)
    requires disk.files.Valid() && RecoveryEnabled(h, disk, session, i, r)
    requires i in disk.rows && Mismatched(disk.rows[i]) ==> Rejected(disk.rows[i])
    ensures i in RecoveryApply(h, disk, session, i, r).rows
    ensures var row := RecoveryApply(h, disk, session, i, r).rows[i]; Mismatched(row) ==> Rejected(row)
    ensures RecoveryApply(h, disk, session, i, r).rows
            == disk.rows[i := RecoveryApply(h, disk, session, i, r).rows[i]]
  {
    hide Settled;
    assert disk.rows == disk.rows[i := disk.rows[i]];
  }

  lemma {:induction false} OperateChecks(action: ItemAction, row: Row)
    requires Mismatched(row) ==> Rejected(row)
    ensures Eligible(action, row) && Mismatched(Revise(action, row)) ==> Rejected(Revise(action, row))
    ensures Mismatched(Revise(action, row)) == Mismatched(row)
  {
  }

  // Nothing but such an import sets a recorded digest against the expected one, outside of a review.
  lemma {:induction false} StepKeepsChecksumIff(h: Hash, s: State, step: Step, i: Url)
    requires Inv(h, s) && Enabled(h, s, step) && TaskAgrees(s, i) && Checked(s, i)
    ensures Checked(Apply(h, s, step), i) <==> !Overrides(s, step, i)
  {
    hide TaskApply, RecoveryApply, RecoveryEnabled, AdmissionEnabled, EngineEnabled, JudgeEnabled, PromoteEnabled, MoveEnabled,
      RecheckEnabled;
    if step.Task? {
      if step.item == i {
        OwnTaskChecks(h, s, i, step.task);
      } else {
        Scheduler.OtherTaskStays(h, s, step.item, step.task, i);
        var row := TaskRow(h, s, step.item, step.task);
      }
    } else {
      OtherStepChecks(h, s, step, i);
    }
  }

  lemma {:induction false} OtherStepChecks(h: Hash, s: State, step: Step, i: Url)
    requires Grounded(s) && Enabled(h, s, step) && !step.Task? && Checked(s, i)
    ensures Checked(Apply(h, s, step), i) <==> !Overrides(s, step, i)
  {
    hide RecoveryApply, RecoveryEnabled, Settled, Revise, Eligible;
    match step
    case Recover(j, r) =>
      if i == j {
        RecoveryChecks(h, s.disk, s.session, i, r);
      } else {
        RecoveryRow(h, s.disk, s.session, j, r);
      }
    case Operate(action, items) =>
      if i in s.disk.rows {
        OperateChecks(action, s.disk.rows[i]);
      }
    case _ =>
  }

  lemma {:induction false} RecoveryRow(h: Hash, disk: Disk, session: nat, i: Url, r: RecoveryStep)
    requires disk.files.Valid() && RecoveryEnabled(h, disk, session, i, r)
    ensures i in RecoveryApply(h, disk, session, i, r).rows
    ensures RecoveryApply(h, disk, session, i, r).rows
            == disk.rows[i := RecoveryApply(h, disk, session, i, r).rows[i]]
  {
    hide Settled;
    assert disk.rows == disk.rows[i := disk.rows[i]];
  }

  lemma {:induction false} ChecksumsAreKept(h: Hash, trace: seq<State>, steps: seq<Step>, k: nat, i: Url)
    requires RunFromFresh(h, trace, steps) && k < |trace|
    requires forall j | 0 <= j < k :: !Overrides(trace[j], steps[j], i)
    ensures Checked(trace[k], i)
  {
    hide Enabled, Apply, Inv, TaskAgrees, Checked, Overrides;
    if k == 0 {
      FreshChecks(i);
    } else {
      ChecksumsAreKept(h, trace, steps, k - 1, i);
      RunStep(h, trace, steps, k - 1);
      TasksAgree(h, trace, steps, k - 1, i);
      StepKeepsChecksumIff(h, trace[k - 1], steps[k - 1], i);
    }
  }

  lemma {:induction false} FreshChecks(i: Url)
    ensures Checked(Fresh, i)
  {
  }

  // In every run, through crashes, recoveries and operator actions: a complete item whose checksum no
  // import has overridden has a final whose bytes have the expected checksum.
  lemma {:induction false} CompleteIsExpected(h: Hash, trace: seq<State>, steps: seq<Step>, k: nat, i: Url)
    returns (p: Path)
    requires RunFromFresh(h, trace, steps) && k < |trace|
    requires i in trace[k].disk.rows && trace[k].disk.rows[i].status.Complete? && trace[k].disk.rows[i].expected.Some?
    requires forall j | 0 <= j < k :: !Overrides(trace[j], steps[j], i)
    ensures var files, row := trace[k].disk.files, trace[k].disk.rows[i];
            && files.Valid() && Final(p) in files.names && h(files.Content(Final(p))) == row.expected.value
            && row.sha256 == row.expected
  {
    hide Overrides, Run;
    var at;
    at, p := CompleteHasEvidence(h, trace, steps, k, i);
    ChecksumsAreKept(h, trace, steps, k, i);
  }

  // ------------------------------------------------------------ a checksum that comes too late

  function Other(h: Hash): Digest {
    h(MovedStorage.Mine) + "0"
  }

  function Late(h: Hash): Row {
    MovedStorage.Intent(h).(expected := Some(Other(h)))
  }

  function Restarted(h: Hash, row: Row, names: map<Name, nat>, records: seq<Record>): State {
    State(Disk(Files(names, map[0 := MovedStorage.Mine], {}), map["u" := row], MovedStorage.Runs, records), 2, Starting("run"),
          map[], {h(MovedStorage.Mine)})
  }

  lemma {:induction false} Restarts(h: Hash, trace: seq<State>, steps: seq<Step>)
    returns (trace': seq<State>, steps': seq<Step>)
    requires MovedStorage.Ends(h, trace, steps, MovedStorage.Intending(h))
    ensures MovedStorage.Ends(h, trace', steps', Restarted(h, MovedStorage.Intent(h), map[Staging("u") := 0], []))
  {
    hide MovedStorage.Ends, Run;
    var s := MovedStorage.Intending(h);
    var s1 := s.(phase := Down, tasks := map[]);
    trace', steps' := MovedStorage.Go(h, trace, steps, s, Crash, s1);
    trace', steps' := MovedStorage.Go(h, trace', steps', s1, Step.Start("run"),
                                      Restarted(h, MovedStorage.Intent(h), map[Staging("u") := 0], []));
  }

  // A crash after the intent, an import with another checksum, and the recovery, which compares the
  // staged bytes with the recorded digest only.
  lemma {:induction false} LateChecksumExample(h: Hash) returns (trace: seq<State>, steps: seq<Step>)
    ensures RunFromFresh(h, trace, steps) && |trace| >= 1
    ensures var disk := trace[|trace| - 1].disk;
            && "u" in disk.rows && disk.rows["u"].status.Complete? && disk.rows["u"].expected.Some?
            && disk.rows["u"].sha256 == Some(h(MovedStorage.Mine)) && disk.rows["u"].expected.value != h(MovedStorage.Mine)
  {
    hide Run, Enabled, Apply;
    trace, steps := RunMetrics.ToIntent(h);
    trace, steps := Restarts(h, trace, steps);
    var d, one, two := h(MovedStorage.Mine), map[Staging("u") := 0], map[Staging("u") := 0, Final("a b") := 0];
    var record := Finalized(2, "u", "a b", d, 1);
    RecoversLate(h);
    trace, steps := MovedStorage.Go(h, trace, steps, Restarted(h, MovedStorage.Intent(h), one, []), Step.Import("u", Late(h)),
                                    Restarted(h, Late(h), one, []));
    trace, steps := MovedStorage.Go(h, trace, steps, Restarted(h, Late(h), one, []), Recover("u", Relink),
                                    Restarted(h, Late(h), two, []));
    trace, steps := MovedStorage.Go(h, trace, steps, Restarted(h, Late(h), two, []), Recover("u", RecordPromotion),
                                    Restarted(h, Late(h), two, [record]));
    CompletesLate(h);
    trace, steps := MovedStorage.Go(h, trace, steps, Restarted(h, Late(h), two, [record]), Recover("u", CompletePromotion(false)),
                                    Restarted(h, Late(h).(status := Complete), two, [record]));
  }

  lemma {:induction false} RecoversLate(h: Hash)
    ensures var d, one, two := h(MovedStorage.Mine), map[Staging("u") := 0], map[Staging("u") := 0, Final("a b") := 0];
            var record := Finalized(2, "u", "a b", d, 1);
            var s, s1 := Restarted(h, MovedStorage.Intent(h), one, []), Restarted(h, Late(h), one, []);
            var s2 := Restarted(h, Late(h), two, []);
            && s.disk.files.Valid() && Enabled(h, s, Step.Import("u", Late(h))) && Apply(h, s, Step.Import("u", Late(h))) == s1
            && s1.disk.files.Valid() && Enabled(h, s1, Recover("u", Relink)) && Apply(h, s1, Recover("u", Relink)) == s2
            && s2.disk.files.Valid() && Enabled(h, s2, Recover("u", RecordPromotion))
            && Apply(h, s2, Recover("u", RecordPromotion)) == Restarted(h, Late(h), two, [record])
  {
  }

  lemma {:induction false} CompletesLate(h: Hash)
    ensures var two := map[Staging("u") := 0, Final("a b") := 0];
            var records := [Finalized(2, "u", "a b", h(MovedStorage.Mine), 1)];
            var s := Restarted(h, Late(h), two, records);
            && s.disk.files.Valid() && Enabled(h, s, Recover("u", CompletePromotion(false)))
            && Apply(h, s, Recover("u", CompletePromotion(false))) == Restarted(h, Late(h).(status := Complete), two, records)
  {
    var records := [Finalized(2, "u", "a b", h(MovedStorage.Mine), 1)];
    assert Announces(records[0], 2, "u", "a b", h(MovedStorage.Mine));
  }
}
