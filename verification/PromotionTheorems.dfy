/** What holds in every run of the promotion protocol, with crashes at any step. */
module PromotionTheorems {
  import opened Prelude
  import opened Database
  import opened FileSystem
  import opened Promotion
  import opened PromotionSafety
  import opened PromotionSteps

  // ------------------------------------------------------------ runs

  ghost predicate RunFromFresh(h: Hash, trace: seq<State>, steps: seq<Step>) {
    Run(h, trace, steps) && trace[0] == Fresh
  }

  lemma {:induction false} FreshInv(h: Hash)
    ensures Inv(h, Fresh)
  {
  }

  lemma {:induction false} ReachableInv(h: Hash, trace: seq<State>, steps: seq<Step>, k: nat)
    requires RunFromFresh(h, trace, steps) && k < |trace|
    ensures Inv(h, trace[k])
  {
    hide Enabled, Apply, Inv;
    if k == 0 {
      FreshInv(h);
    } else {
      ReachableInv(h, trace, steps, k - 1);
      StepKeeps(h, trace[k - 1], steps[k - 1]);
    }
  }

  lemma {:induction false} RunStep(h: Hash, trace: seq<State>, steps: seq<Step>, k: nat)
    requires RunFromFresh(h, trace, steps) && k < |steps|
    ensures Inv(h, trace[k]) && Enabled(h, trace[k], steps[k]) && trace[k + 1] == Apply(h, trace[k], steps[k])
    ensures Inv(h, trace[k + 1])
  {
    hide Enabled, Apply, Inv;
    ReachableInv(h, trace, steps, k);
    StepKeeps(h, trace[k], steps[k]);
  }

  // ------------------------------------------------------------ finals

  // Every name but the staging of `i` keeps its inode.
  ghost predicate Spares(files: Files, files': Files, i: Url) {
    forall n | n in files.names && n != Staging(i) :: n in files'.names && files'.names[n] == files.names[n]
  }

  lemma {:induction false} PromoteSpares(s: State, i: Url, t: PromoteStep)
    requires s.disk.files.Valid() && i in s.disk.rows && PromoteEnabled(s, i, t) && Placed(s.disk, i, s.tasks[i])
    ensures Spares(s.disk.files, PromoteApply(s, i, t).disk.files, i)
    ensures PromoteApply(s, i, t).disk.files.data == s.disk.files.data
  {
  }

  lemma {:induction false} MoveSpares(s: State, i: Url, t: MoveStep)
    requires s.disk.files.Valid() && i in s.disk.rows && MoveEnabled(s, i, t) && Placed(s.disk, i, s.tasks[i])
    ensures Spares(s.disk.files, MoveApply(s, i, t).disk.files, i)
    ensures MoveApply(s, i, t).disk.files.data == s.disk.files.data
  {
  }

  lemma {:induction false} OthersSpare(h: Hash, s: State, i: Url, t: TaskStep)
    requires s.disk.files.Valid() && Enabled(h, s, Task(i, t)) && !t.Promote? && !t.Move? && !t.Engine?
    ensures TaskApply(h, s, i, t).disk.files == s.disk.files
  {
  }

  lemma {:induction false} EngineSpares(s: State, i: Url, t: EngineStep, n: Name)
    requires s.disk.files.Valid() && EngineEnabled(s, i, t) && n in s.disk.files.names && n != Staging(i)
    ensures var files, files' := s.disk.files, EngineApply(s, i, t).disk.files;
            && n in files'.names && files'.names[n] == files.names[n] && files.names[n] in files'.data
            && files'.data[files.names[n]]
               == if t.EngineWrite? && files.names[Staging(i)] == files.names[n] then t.bytes
                  else files.data[files.names[n]]
  {
  }

  // The bytes under a name.
  function BytesOf(files: Files, n: Name): Option<Bytes> {
    if n in files.names && files.names[n] in files.data then Some(files.data[files.names[n]]) else None
  }

  // The final at `p`, once it exists, keeps its inode and its bytes.
  ghost predicate SameFinal(files: Files, files': Files, p: Path) {
    Final(p) in files.names ==>
      && Final(p) in files'.names && files'.names[Final(p)] == files.names[Final(p)]
      && BytesOf(files', Final(p)) == BytesOf(files, Final(p)) && BytesOf(files, Final(p)).Some?
  }

  // An engine writes no inode that has a name in the destination.
  lemma {:induction false} EngineSparesFinals(h: Hash, s: State, i: Url, bytes: Bytes, p: Path)
    requires Inv(h, s) && Enabled(h, s, Task(i, Engine(EngineWrite(bytes)))) && Final(p) in s.disk.files.names
    ensures s.disk.files.names[Final(p)] != s.disk.files.names[Staging(i)]
  {
    assert ItemInv(h, s, i) && Exposed(s, i);
  }

  lemma {:induction false} TaskSparesFinals(h: Hash, s: State, i: Url, t: TaskStep, p: Path)
    requires Inv(h, s) && Enabled(h, s, Task(i, t)) && Final(p) in s.disk.files.names
    ensures SameFinal(s.disk.files, TaskApply(h, s, i, t).disk.files, p)
  {
    match t
    case Promote(u) => PromoteSpares(s, i, u);
    case Move(u) => MoveSpares(s, i, u);
    case Engine(u) =>
      EngineSpares(s, i, u, Final(p));
      if u.EngineWrite? {
        EngineSparesFinals(h, s, i, u.bytes, p);
      }
    case _ => OthersSpare(h, s, i, t);
  }

  lemma {:induction false} StepSparesFinals(h: Hash, s: State, step: Step, p: Path)
    requires Inv(h, s) && Enabled(h, s, step)
    ensures SameFinal(s.disk.files, Apply(h, s, step).disk.files, p)
  {
    if step.Task? && Final(p) in s.disk.files.names {
      TaskSparesFinals(h, s, step.item, step.task, p);
    }
  }

  lemma {:induction false} RunSparesFinals(h: Hash, trace: seq<State>, steps: seq<Step>, k: nat, p: Path)
    requires RunFromFresh(h, trace, steps) && k < |steps|
    ensures SameFinal(trace[k].disk.files, trace[k + 1].disk.files, p)
  {
    hide Enabled, Apply, Inv;
    RunStep(h, trace, steps, k);
    StepSparesFinals(h, trace[k], steps[k], p);
  }

  lemma {:induction false} FinalsChain(files: seq<Files>, a: nat, b: nat, p: Path)
    requires a <= b < |files| && files[a].Valid()
    requires forall k {:trigger files[k]} | 0 <= k < |files| - 1 :: SameFinal(files[k], files[k + 1], p)
    ensures SameFinal(files[a], files[b], p)
  {
    if a < b {
      FinalsChain(files, a, b - 1, p);
      assert SameFinal(files[b - 1], files[b], p);
    }
  }

  // Hard-link aliasing safety: once a final exists, no run changes, replaces or removes it.
  lemma {:induction false} FinalsNeverChange(h: Hash, trace: seq<State>, steps: seq<Step>, a: nat, b: nat, p: Path)
    requires RunFromFresh(h, trace, steps) && a <= b < |trace|
    ensures SameFinal(trace[a].disk.files, trace[b].disk.files, p)
  {
    hide Enabled, Apply;
    var files := seq(|trace|, k requires 0 <= k < |trace| => trace[k].disk.files);
    forall k | 0 <= k < |files| - 1 ensures SameFinal(files[k], files[k + 1], p) {
      RunSparesFinals(h, trace, steps, k, p);
    }
    ReachableInv(h, trace, steps, a);
    FinalsChain(files, a, b, p);
  }

  // ------------------------------------------------------------ evidence

  // A completed row has its digest, a finalized record that names the item and the digest, and the
  // final that this record names, or the promotion target of the row, holds that digest.
  lemma {:induction false} CompleteHasEvidence(h: Hash, trace: seq<State>, steps: seq<Step>, k: nat, i: Url) returns (at: nat, p: Path)
    requires RunFromFresh(h, trace, steps) && k < |trace|
    requires i in trace[k].disk.rows && trace[k].disk.rows[i].status.Complete?
    ensures trace[k].disk.files.Valid() && trace[k].disk.rows[i].sha256.Some?
    ensures at < |trace[k].disk.records|
    ensures Certifies(trace[k].disk.records[at], i, trace[k].disk.rows[i].sha256.value)
    ensures FinalMatches(h, trace[k].disk, p, trace[k].disk.rows[i].sha256.value)
    ensures p == trace[k].disk.records[at].path || trace[k].disk.rows[i].target == Some(p)
  {
    ReachableInv(h, trace, steps, k);
    var disk := trace[k].disk;
    assert EvidenceOk(h, disk, i);
    var digest := disk.rows[i].sha256.value;
    at :| EvidenceAt(h, disk, i, digest, at);
    p := if FinalMatches(h, disk, disk.records[at].path, digest) then disk.records[at].path else disk.rows[i].target.value;
  }

  lemma {:induction false} TaskCompletesAfterRecord(h: Hash, s: State, i: Url, t: TaskStep, j: Url)
    requires s.disk.files.Valid() && Enabled(h, s, Task(i, t)) && j in s.disk.rows && !s.disk.rows[j].status.Complete?
    requires j in TaskApply(h, s, i, t).disk.rows && TaskApply(h, s, i, t).disk.rows[j].status.Complete?
    ensures TaskApply(h, s, i, t).disk.records == s.disk.records
    ensures TaskApply(h, s, i, t).disk.files == s.disk.files
  {
  }

  lemma {:induction false} RecoveryCompletesAfterRecord(h: Hash, disk: Disk, session: nat, i: Url, r: RecoveryStep, j: Url)
    requires disk.files.Valid() && RecoveryEnabled(h, disk, session, i, r)
    requires j in disk.rows && !disk.rows[j].status.Complete?
    requires j in RecoveryApply(h, disk, session, i, r).rows
             && RecoveryApply(h, disk, session, i, r).rows[j].status.Complete?
    ensures RecoveryApply(h, disk, session, i, r).records == disk.records
    ensures RecoveryApply(h, disk, session, i, r).files == disk.files
  {
  }

  // Evidence before state: the record and the final are there before the row becomes complete.
  lemma {:induction false} RecordPrecedesCompletion(h: Hash, trace: seq<State>, steps: seq<Step>, k: nat, i: Url)
    returns (at: nat, p: Path)
    requires RunFromFresh(h, trace, steps) && k + 1 < |trace|
    requires i in trace[k].disk.rows && !trace[k].disk.rows[i].status.Complete?
    requires i in trace[k + 1].disk.rows && trace[k + 1].disk.rows[i].status.Complete?
    ensures trace[k].disk.files.Valid() && trace[k + 1].disk.rows[i].sha256.Some?
    ensures at < |trace[k].disk.records|
    ensures Certifies(trace[k].disk.records[at], i, trace[k + 1].disk.rows[i].sha256.value)
    ensures FinalMatches(h, trace[k].disk, p, trace[k + 1].disk.rows[i].sha256.value)
    ensures p == trace[k].disk.records[at].path || trace[k + 1].disk.rows[i].target == Some(p)
  {
    at, p := CompleteHasEvidence(h, trace, steps, k + 1, i);
    RunStep(h, trace, steps, k);
    match steps[k] {
      case Task(j, t) => TaskCompletesAfterRecord(h, trace[k], j, t, i);
      case Recover(j, r) => RecoveryCompletesAfterRecord(h, trace[k].disk, trace[k].session, j, r, i);
      case _ =>
    }
  }

  // No row but that of `i` changes, and a new intent promotes towards the stored path.
  predicate OwnRow(s: State, s': State, i: Url) {
    && i in s.disk.rows && i in s'.disk.rows && s'.disk.rows == s.disk.rows[i := s'.disk.rows[i]]
    && (s'.disk.rows[i].status.Promoting? ==>
          s'.disk.rows[i] == s.disk.rows[i] || s'.disk.rows[i].target == Some(s'.disk.rows[i].stored))
  }

  lemma {:induction false} RowsStay(s: State, s': State, i: Url)
    requires i in s.disk.rows && s'.disk.rows == s.disk.rows
    ensures OwnRow(s, s', i)
  {
  }

  lemma {:induction false} AdmissionRow(s: State, i: Url, t: AdmissionStep)
    requires s.disk.files.Valid() && i in s.disk.rows && AdmissionEnabled(s, i, t)
    ensures OwnRow(s, AdmissionApply(s, i, t), i)
  {
    assert s.disk.rows == s.disk.rows[i := s.disk.rows[i]];
  }

  lemma {:induction false} JudgeRow(h: Hash, s: State, i: Url, t: JudgeStep)
    requires s.disk.files.Valid() && i in s.disk.rows && JudgeEnabled(s, i, t)
    ensures OwnRow(s, JudgeApply(h, s, i, t), i)
  {
    assert s.disk.rows == s.disk.rows[i := s.disk.rows[i]];
  }

  lemma {:induction false} PromoteRow(s: State, i: Url, t: PromoteStep)
    requires s.disk.files.Valid() && i in s.disk.rows && PromoteEnabled(s, i, t) && Placed(s.disk, i, s.tasks[i])
    ensures OwnRow(s, PromoteApply(s, i, t), i)
  {
    assert s.disk.rows == s.disk.rows[i := s.disk.rows[i]];
  }

  lemma {:induction false} MoveRow(s: State, i: Url, t: MoveStep)
    requires s.disk.files.Valid() && i in s.disk.rows && MoveEnabled(s, i, t) && Placed(s.disk, i, s.tasks[i])
    ensures OwnRow(s, MoveApply(s, i, t), i)
  {
    assert s.disk.rows == s.disk.rows[i := s.disk.rows[i]];
  }

  lemma {:induction false} RecheckRow(s: State, i: Url, t: RecheckStep)
    requires s.disk.files.Valid() && i in s.disk.rows && RecheckEnabled(s, i, t)
    ensures OwnRow(s, RecheckApply(s, i, t), i)
  {
    assert s.disk.rows == s.disk.rows[i := s.disk.rows[i]];
  }

  // A task step changes no row but its own, and promotes towards the stored path.
  lemma {:induction false} TaskRow(h: Hash, s: State, i: Url, t: TaskStep) returns (row: Row)
    requires ItemInv(h, s, i) && TaskEnabled(s, i, t)
    ensures TaskApply(h, s, i, t).disk.rows == s.disk.rows[i := row]
    ensures row.status.Promoting? ==> (row == s.disk.rows[i] || row.target == Some(row.stored))
  {
    hide AdmissionEnabled, AdmissionApply, JudgeEnabled, JudgeApply, PromoteApply, MoveApply, RecheckEnabled, RecheckApply, Placed,
      CodeOk, IntentOk, EvidenceOk, ServingOk;
    match t {
      case Admission(a) => AdmissionRow(s, i, a);
      case Engine(e) => RowsStay(s, EngineApply(s, i, e), i);
      case Judge(j) => JudgeRow(h, s, i, j);
      case Promote(p) => PromoteRow(s, i, p);
      case Move(m) => MoveRow(s, i, m);
      case Recheck(r) => RecheckRow(s, i, r);
    }
    row := TaskApply(h, s, i, t).disk.rows[i];
  }

  // ------------------------------------------------------------ nothing validated is lost

  lemma {:induction false} StepKeepsValidated(h: Hash, s: State, step: Step)
    requires s.disk.files.Valid() && Enabled(h, s, step)
    ensures s.validated <= Apply(h, s, step).validated
  {
  }

  lemma {:induction false} RunKeepsValidated(h: Hash, trace: seq<State>, steps: seq<Step>, k: nat)
    requires RunFromFresh(h, trace, steps) && k < |steps|
    ensures trace[k].validated <= trace[k + 1].validated
  {
    hide Enabled, Apply, Inv;
    RunStep(h, trace, steps, k);
    StepKeepsValidated(h, trace[k], steps[k]);
  }

  lemma {:induction false} Growing(sets: seq<set<Digest>>, a: nat, b: nat)
    requires a <= b < |sets|
    requires forall k {:trigger sets[k]} | 0 <= k < |sets| - 1 :: sets[k] <= sets[k + 1]
    ensures sets[a] <= sets[b]
  {
    if a < b {
      Growing(sets, a, b - 1);
      assert sets[b - 1] <= sets[b];
    }
  }

  lemma {:induction false} ValidatedGrows(h: Hash, trace: seq<State>, steps: seq<Step>, a: nat, b: nat)
    requires RunFromFresh(h, trace, steps) && a <= b < |trace|
    ensures trace[a].validated <= trace[b].validated
  {
    hide Enabled, Apply;
    var sets := seq(|trace|, k requires 0 <= k < |trace| => trace[k].validated);
    forall k | 0 <= k < |sets| - 1 ensures sets[k] <= sets[k + 1] {
      RunKeepsValidated(h, trace, steps, k);
    }
    Growing(sets, a, b);
  }

  // Bytes whose digest a validation committed keep a name, through every crash.
  lemma {:induction false} ValidatedBytesKeepAName(h: Hash, trace: seq<State>, steps: seq<Step>, a: nat, b: nat, d: Digest)
    returns (n: Name)
    requires RunFromFresh(h, trace, steps) && a <= b < |trace| && d in trace[a].validated
    ensures trace[b].disk.files.Valid() && n in trace[b].disk.files.names
    ensures h(trace[b].disk.files.Content(n)) == d
  {
    ReachableInv(h, trace, steps, b);
    ValidatedGrows(h, trace, steps, a, b);
    n :| Witness(h, trace[b], n, d);
  }

  // ------------------------------------------------------------ records and workers

  lemma {:induction false} OneFinalizedRecordPerSession(h: Hash, trace: seq<State>, steps: seq<Step>, n: nat, k: nat, l: nat)
    requires RunFromFresh(h, trace, steps) && n < |trace|
    requires k < l < |trace[n].disk.records|
    requires trace[n].disk.records[k].Finalized? && trace[n].disk.records[l].Finalized?
    requires trace[n].disk.records[k].session == trace[n].disk.records[l].session
    ensures trace[n].disk.records[k].item != trace[n].disk.records[l].item
  {
    ReachableInv(h, trace, steps, n);
  }

  // An item in work is pending only between its selection and its admission.
  lemma {:induction false} WorkIsNotPending(h: Hash, s: State)
    requires Inv(h, s)
    ensures forall i | i in s.tasks && !s.tasks[i].Chosen? :: !Pending(s.disk.rows[i].status)
  {
    forall i | i in s.tasks && !s.tasks[i].Chosen? ensures !Pending(s.disk.rows[i].status) {
      assert TaskOk(h, s, i);
    }
  }

  // The status check of the scheduler alone keeps a second worker away from an item.
  lemma {:induction false} NoSecondWorker(h: Hash, trace: seq<State>, steps: seq<Step>, k: nat, i: Url)
    requires RunFromFresh(h, trace, steps) && k < |trace| && trace[k].disk.files.Valid()
    requires Enabled(h, trace[k], Task(i, Admission(Choose)))
    ensures i !in trace[k].tasks
  {
    ReachableInv(h, trace, steps, k);
    WorkIsNotPending(h, trace[k]);
  }

  // Program counters that hold a telemetry slot: it is cleared before the completing commit.
  predicate HoldsSlot(pc: Pc) {
    match pc
    case Chosen(_) => false
    case Waiting(_) => false
    case Completed => false
    case Unlinked => false
    case Rechecking => false
    case _ => true
  }

  // The active samples that the metrics reduce belong to items that are not complete.
  lemma {:induction false} SlotsAreIncomplete(h: Hash, trace: seq<State>, steps: seq<Step>, k: nat, i: Url)
    requires RunFromFresh(h, trace, steps) && k < |trace|
    requires i in trace[k].tasks && HoldsSlot(trace[k].tasks[i])
    ensures i in trace[k].disk.rows && !trace[k].disk.rows[i].status.Complete?
  {
    ReachableInv(h, trace, steps, k);
    assert ItemInv(h, trace[k], i);
  }

  // A task step adds no task but one of a selected item.
  lemma {:induction false} TaskKeepsSelection(h: Hash, s: State, i: Url, t: TaskStep)
    requires s.disk.files.Valid() && Enabled(h, s, Task(i, t)) && s.tasks.Keys <= Selected(s)
    ensures TaskApply(h, s, i, t).tasks.Keys <= Selected(s)
    ensures Selected(TaskApply(h, s, i, t)) == Selected(s)
  {
    match t
    case Admission(a) => assert i in Selected(s);
    case Engine(e) => assert i in Selected(s);
    case Judge(j) => assert i in Selected(s);
    case Promote(p) => assert i in Selected(s);
    case Move(m) => assert i in Selected(s);
    case Recheck(r) => assert i in Selected(s);
  }

  lemma {:induction false} StepKeepsSelection(h: Hash, s: State, step: Step)
    requires Grounded(s) && Enabled(h, s, step) && s.tasks.Keys <= Selected(s)
    ensures Apply(h, s, step).tasks.Keys <= Selected(Apply(h, s, step))
  {
    if step.Task? {
      TaskKeepsSelection(h, s, step.item, step.task);
    }
  }

  lemma {:induction false} RunKeepsSelection(h: Hash, trace: seq<State>, steps: seq<Step>, k: nat)
    requires RunFromFresh(h, trace, steps) && k < |steps| && trace[k].tasks.Keys <= Selected(trace[k])
    ensures trace[k + 1].tasks.Keys <= Selected(trace[k + 1])
  {
    hide Enabled, Apply;
    RunStep(h, trace, steps, k);
    StepKeepsSelection(h, trace[k], steps[k]);
  }

  // Every transfer and every recheck works on an item of the immutable selection.
  lemma {:induction false} TasksAreSelected(h: Hash, trace: seq<State>, steps: seq<Step>, k: nat)
    requires RunFromFresh(h, trace, steps) && k < |trace|
    ensures trace[k].tasks.Keys <= Selected(trace[k])
  {
    hide Enabled, Apply;
    if k > 0 {
      TasksAreSelected(h, trace, steps, k - 1);
      RunKeepsSelection(h, trace, steps, k - 1);
    }
  }

  // ------------------------------------------------------------ the finalized count

  function FinalizedItems(records: seq<Record>, session: nat): (items: set<Url>) {
    if records == [] then {}
    else
      var last := records[|records| - 1];
      FinalizedItems(records[..|records| - 1], session)
      + if last.Finalized? && last.session == session then {last.item} else {}
  }

  function FinalizedCount(records: seq<Record>, session: nat): (count: nat) {
    if records == [] then 0
    else
      var last := records[|records| - 1];
      FinalizedCount(records[..|records| - 1], session) + if last.Finalized? && last.session == session then 1 else 0
  }

  ghost predicate OncePerSession(records: seq<Record>) {
    forall k, l | 0 <= k < l < |records| && records[k].Finalized? && records[l].Finalized?
      && records[k].session == records[l].session :: records[k].item != records[l].item
  }

  lemma {:induction false} FinalizedItemHasRecord(records: seq<Record>, session: nat, i: Url)
    ensures i in FinalizedItems(records, session) <==>
            exists k :: 0 <= k < |records| && Names(records[k], session, i)
  {
    if records != [] {
      var front := records[..|records| - 1];
      FinalizedItemHasRecord(front, session, i);
      if k :| 0 <= k < |records| && Names(records[k], session, i) {
        assert k < |front| ==> Names(front[k], session, i);
      }
      if k :| 0 <= k < |front| && Names(front[k], session, i) {
        assert Names(records[k], session, i);
      }
    }
  }

  lemma {:induction false} CountIsCardinality(records: seq<Record>, session: nat)
    requires OncePerSession(records)
    ensures FinalizedCount(records, session) == |FinalizedItems(records, session)|
  {
    if records != [] {
      var front, last := records[..|records| - 1], records[|records| - 1];
      CountIsCardinality(front, session);
      if last.Finalized? && last.session == session {
        FinalizedItemHasRecord(front, session, last.item);
        forall k | 0 <= k < |front| ensures !Names(front[k], session, last.item) {
          assert front[k] == records[k];
        }
      }
    }
  }

  // When no worker is left and every finalized item is selected, the completed rows of the run
  // cover the finalized records of the session.
  lemma {:induction false} FinalizedCountIsCovered(h: Hash, trace: seq<State>, steps: seq<Step>, k: nat)
    requires RunFromFresh(h, trace, steps) && k < |trace|
    requires trace[k].phase.Serving? && trace[k].tasks == map[]
    requires FinalizedItems(trace[k].disk.records, trace[k].session) <= Selected(trace[k]) * trace[k].disk.rows.Keys
    ensures FinalizedCount(trace[k].disk.records, trace[k].session)
            <= |set i | i in Selected(trace[k]) && i in trace[k].disk.rows && trace[k].disk.rows[i].status.Complete?|
  {
    var s := trace[k];
    ReachableInv(h, trace, steps, k);
    CountIsCardinality(s.disk.records, s.session);
    var complete := set i | i in Selected(s) && i in s.disk.rows && s.disk.rows[i].status.Complete?;
    forall i | i in FinalizedItems(s.disk.records, s.session) ensures i in complete {
      FinalizedItemHasRecord(s.disk.records, s.session, i);
      assert ServingOk(s, i) && HasRecord(s.disk, s.session, i);
    }
    SubsetSize(FinalizedItems(s.disk.records, s.session), complete);
  }

  lemma {:induction false} SubsetSize(a: set<Url>, b: set<Url>)
    requires a <= b
    ensures |a| <= |b|
  {
    if a != {} {
      var x :| x in a;
      SubsetSize(a - {x}, b - {x});
    }
  }

  // ------------------------------------------------------------ candidates

  // A candidate is not immutable: one step changes its bytes exactly when an engine writes a
  // staging file that still shares its inode.
  lemma {:induction false} CandidateChangesOnlyByAlias(h: Hash, s: State, step: Step, i: Url, serial: nat)
    requires Inv(h, s) && Enabled(h, s, step) && Candidate(i, serial) in s.disk.files.names
    ensures var n := Candidate(i, serial);
            BytesOf(Apply(h, s, step).disk.files, n) != BytesOf(s.disk.files, n)
            <==> && step.Task? && step.item == i && step.task.Engine? && step.task.engine.EngineWrite?
                 && s.disk.files.names[Staging(i)] == s.disk.files.names[n]
                 && Some(step.task.engine.bytes) != BytesOf(s.disk.files, n)
  {
    if step.Task? {
      TaskCandidates(h, s, step.item, step.task, Candidate(i, serial));
    }
  }

  lemma {:induction false} TaskCandidates(h: Hash, s: State, i: Url, t: TaskStep, n: Name)
    requires Inv(h, s) && Enabled(h, s, Task(i, t)) && n.Candidate? && n in s.disk.files.names
    ensures BytesOf(TaskApply(h, s, i, t).disk.files, n) != BytesOf(s.disk.files, n)
      <==> && n.item == i && t.Engine? && t.engine.EngineWrite?
           && s.disk.files.names[Staging(i)] == s.disk.files.names[n]
           && Some(t.engine.bytes) != BytesOf(s.disk.files, n)
  {
    match t
    case Promote(u) => PromoteSpares(s, i, u);
    case Move(u) => MoveSpares(s, i, u);
    case Engine(u) => EngineSpares(s, i, u, n);
    case _ => OthersSpare(h, s, i, t);
  }
}
