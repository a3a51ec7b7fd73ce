/** When a finalized record is true of the destination: the record names the stored path of the row,
    and an import may move that path while a promotion intent is open. */
module PromotionRecords {
  import opened Prelude
  import opened Database
  import opened FileSystem
  import opened Promotion
  import opened PromotionSafety
  import opened PromotionSteps
  import opened PromotionTheorems

  // The record names a final that holds its digest.
  ghost predicate RecordOk(h: Hash, disk: Disk, record: Record)
    requires disk.files.Valid()
  {
    record.Finalized? ==> FinalMatches(h, disk, record.path, record.digest)
  }

  ghost predicate RecordsOk(h: Hash, disk: Disk) {
    disk.files.Valid() && forall k | 0 <= k < |disk.records| :: RecordOk(h, disk, disk.records[k])
  }

  // The recovery checks the promotion target and records the stored path.
  ghost predicate Misrecords(h: Hash, s: State, step: Step) {
    && s.disk.files.Valid() && step.Recover? && step.recovery.RecordPromotion? && step.item in s.disk.rows
    && var row := s.disk.rows[step.item];
    row.sha256.Some? && !FinalMatches(h, s.disk, row.stored, row.sha256.value)
  }

  // What a step appends to the records.
  ghost predicate Appended(h: Hash, disk: Disk, disk': Disk)
    requires disk'.files.Valid()
  {
    || disk'.records == disk.records
    || (|disk'.records| == |disk.records| + 1 && disk.records <= disk'.records
        && RecordOk(h, disk', disk'.records[|disk.records|]))
  }

  lemma {:induction false} TaskAppends(h: Hash, s: State, i: Url, t: TaskStep)
    requires s.disk.files.Valid() && ItemInv(h, s, i) && TaskEnabled(s, i, t)
    requires TaskApply(h, s, i, t).disk.files.Valid()
    ensures Appended(h, s.disk, TaskApply(h, s, i, t).disk)
  {
    if t == Promote(RecordFinal) {
      assert FinalMatches(h, s.disk, s.disk.rows[i].stored, s.tasks[i].digest);
    }
  }

  lemma {:induction false} RecoveryAppends(h: Hash, s: State, i: Url, r: RecoveryStep)
    requires s.disk.files.Valid() && RecoveryEnabled(h, s.disk, s.session, i, r) && !Misrecords(h, s, Recover(i, r))
    requires RecoveryApply(h, s.disk, s.session, i, r).files.Valid()
    ensures Appended(h, s.disk, RecoveryApply(h, s.disk, s.session, i, r))
  {
  }

  lemma {:induction false} StepAppends(h: Hash, s: State, step: Step)
    requires Inv(h, s) && Enabled(h, s, step) && !Misrecords(h, s, step) && Apply(h, s, step).disk.files.Valid()
    ensures Appended(h, s.disk, Apply(h, s, step).disk)
  {
    hide Misrecords;
    match step
    case Task(i, t) =>
      assert ItemInv(h, s, i);
      TaskAppends(h, s, i, t);
    case Recover(i, r) => RecoveryAppends(h, s, i, r);
    case _ =>
  }

  lemma {:induction false} MisrecordIsFalse(h: Hash, s: State, step: Step)
    requires s.disk.files.Valid() && Enabled(h, s, step) && Misrecords(h, s, step)
    ensures !RecordsOk(h, Apply(h, s, step).disk)
  {
    var disk' := Apply(h, s, step).disk;
    assert !RecordOk(h, disk', disk'.records[|s.disk.records|]);
  }

  // From true records, a step leaves a false one if and only if it is the record of a recovered
  // promotion whose stored path does not hold the digest.
  lemma {:induction false} StepKeepsRecordsIff(h: Hash, s: State, step: Step)
    requires Inv(h, s) && RecordsOk(h, s.disk) && Enabled(h, s, step)
    ensures RecordsOk(h, Apply(h, s, step).disk) <==> !Misrecords(h, s, step)
  {
    hide Misrecords, Enabled, Apply, Separate, Sealed, Kept, OnceEach;
    if Misrecords(h, s, step) {
      MisrecordIsFalse(h, s, step);
    } else {
      StepKeeps(h, s, step);
      StepAppends(h, s, step);
      var disk' := Apply(h, s, step).disk;
      forall k | 0 <= k < |disk'.records| ensures RecordOk(h, disk', disk'.records[k]) {
        if k < |s.disk.records| {
          assert disk'.records[k] == s.disk.records[k] && RecordOk(h, s.disk, s.disk.records[k]);
          if s.disk.records[k].Finalized? {
            StepSparesFinals(h, s, step, s.disk.records[k].path);
          }
        }
      }
    }
  }

  lemma {:induction false} RunKeepsRecords(h: Hash, trace: seq<State>, steps: seq<Step>, k: nat)
    requires RunFromFresh(h, trace, steps) && k < |steps|
    requires RecordsOk(h, trace[k].disk) && !Misrecords(h, trace[k], steps[k])
    ensures RecordsOk(h, trace[k + 1].disk)
  {
    hide Enabled, Apply, Inv, RecordsOk, Misrecords;
    RunStep(h, trace, steps, k);
    StepKeepsRecordsIff(h, trace[k], steps[k]);
  }

  // Along a run without such a step every finalized record is true of the destination.
  lemma {:induction false} RecordsNameTheirFinals(h: Hash, trace: seq<State>, steps: seq<Step>, k: nat)
    requires RunFromFresh(h, trace, steps) && k < |trace|
    requires forall l | 0 <= l < k :: !Misrecords(h, trace[l], steps[l])
    ensures RecordsOk(h, trace[k].disk)
  {
    hide Enabled, Apply, Inv, Misrecords;
    if k > 0 {
      RecordsNameTheirFinals(h, trace, steps, k - 1);
      RunKeepsRecords(h, trace, steps, k - 1);
    }
  }

  // ------------------------------------------------------------ who moves the stored path

  // A promoting row promotes to its stored path.
  predicate TargetsOk(s: State) {
    forall i | i in s.disk.rows && s.disk.rows[i].status.Promoting? :: s.disk.rows[i].target == Some(s.disk.rows[i].stored)
  }

  predicate MovesStorage(s: State, step: Step) {
    step.Import? && step.url in s.disk.rows && s.disk.rows[step.url].status.Promoting?
    && step.row.stored != s.disk.rows[step.url].stored
  }

  lemma {:induction false} TaskKeepsTargets(h: Hash, s: State, i: Url, t: TaskStep, j: Url)
    requires ItemInv(h, s, i) && TaskEnabled(s, i, t) && j in s.disk.rows
    requires s.disk.rows[j].status.Promoting? ==> s.disk.rows[j].target == Some(s.disk.rows[j].stored)
    ensures var rows' := TaskApply(h, s, i, t).disk.rows;
            j in rows' && (rows'[j].status.Promoting? ==> rows'[j].target == Some(rows'[j].stored))
    ensures TaskApply(h, s, i, t).disk.rows.Keys == s.disk.rows.Keys
  {
    var row := TaskRow(h, s, i, t);
  }

  lemma {:induction false} RecoveryKeepsTargets(h: Hash, disk: Disk, session: nat, i: Url, r: RecoveryStep, j: Url)
    requires disk.files.Valid() && RecoveryEnabled(h, disk, session, i, r) && j in disk.rows
    requires disk.rows[j].status.Promoting? ==> disk.rows[j].target == Some(disk.rows[j].stored)
    ensures var rows' := RecoveryApply(h, disk, session, i, r).rows;
            j in rows' && (rows'[j].status.Promoting? ==> rows'[j].target == Some(rows'[j].stored))
    ensures RecoveryApply(h, disk, session, i, r).rows.Keys == disk.rows.Keys
  {
  }

  lemma {:induction false} StepKeepsTargets(h: Hash, s: State, step: Step, j: Url)
    requires s.disk.files.Valid() && TargetsOk(s) && Enabled(h, s, step) && !MovesStorage(s, step)
    requires step.Task? ==> ItemInv(h, s, step.item)
    requires j in Apply(h, s, step).disk.rows && Apply(h, s, step).disk.rows[j].status.Promoting?
    ensures Apply(h, s, step).disk.rows[j].target == Some(Apply(h, s, step).disk.rows[j].stored)
  {
    match step
    case Task(i, t) =>
      TaskKeepsTargets(h, s, i, t, if j in s.disk.rows then j else i);
    case Recover(i, r) =>
      RecoveryKeepsTargets(h, s.disk, s.session, i, r, if j in s.disk.rows then j else i);
    case Operate(action, items) => RevisionKeepsTargets(action, s.disk.rows[j]);
    case _ =>
  }

  lemma {:induction false} RevisionKeepsTargets(action: ItemAction, row: Row)
    ensures Eligible(action, row) ==> !Revise(action, row).status.Promoting?
  {
  }

  lemma {:induction false} StepKeepsTargetsOk(h: Hash, s: State, step: Step)
    requires Inv(h, s) && TargetsOk(s) && Enabled(h, s, step) && !MovesStorage(s, step)
    ensures TargetsOk(Apply(h, s, step))
  {
    hide Apply, Separate, Sealed, Kept, OnceEach, MovesStorage;
    assert step.Task? ==> ItemInv(h, s, step.item);
    var s' := Apply(h, s, step);
    forall j | j in s'.disk.rows && s'.disk.rows[j].status.Promoting?
      ensures s'.disk.rows[j].target == Some(s'.disk.rows[j].stored)
    {
      StepKeepsTargets(h, s, step, j);
    }
  }

  // A recovery records the path that it has checked, as long as they are one.
  lemma {:induction false} IntendedPathIsRecorded(h: Hash, s: State, step: Step)
    requires s.disk.files.Valid() && Enabled(h, s, step) && TargetsOk(s)
    ensures !Misrecords(h, s, step)
  {
  }

  lemma {:induction false} RunKeepsTargetsOk(h: Hash, trace: seq<State>, steps: seq<Step>, k: nat)
    requires RunFromFresh(h, trace, steps) && k < |steps| && TargetsOk(trace[k]) && !MovesStorage(trace[k], steps[k])
    ensures TargetsOk(trace[k + 1]) && !Misrecords(h, trace[k], steps[k])
  {
    hide Enabled, Apply, TargetsOk, MovesStorage, Misrecords, Separate, Sealed, Kept, OnceEach;
    RunStep(h, trace, steps, k);
    StepKeepsTargetsOk(h, trace[k], steps[k]);
    IntendedPathIsRecorded(h, trace[k], steps[k]);
  }

  lemma {:induction false} TargetsStay(h: Hash, trace: seq<State>, steps: seq<Step>, k: nat)
    requires RunFromFresh(h, trace, steps) && k < |trace|
    requires forall l | 0 <= l < k :: !MovesStorage(trace[l], steps[l])
    ensures TargetsOk(trace[k]) && forall l | 0 <= l < k :: !Misrecords(h, trace[l], steps[l])
  {
    hide MovesStorage, Misrecords;
    if k > 0 {
      TargetsStay(h, trace, steps, k - 1);
      RunKeepsTargetsOk(h, trace, steps, k - 1);
    }
  }

  // So only an import that moves the storage path under an intent can lead to a false record.
  lemma {:induction false} UnmovedPathsAreRecorded(h: Hash, trace: seq<State>, steps: seq<Step>, k: nat)
    requires RunFromFresh(h, trace, steps) && k < |trace|
    requires forall l | 0 <= l < k :: !MovesStorage(trace[l], steps[l])
    ensures RecordsOk(h, trace[k].disk)
  {
    hide MovesStorage, Misrecords, RecordsOk, Run;
    TargetsStay(h, trace, steps, k);
    RecordsNameTheirFinals(h, trace, steps, k);
  }

  // resolved_storage_target: the decoded path, unless nothing is there and something is at the
  // path that older controllers used.
  function ResolvedStorage(files: Files, decoded: Path, legacy: Option<Path>): Path {
    if Final(decoded) !in files.names && legacy.Some? && legacy.value != decoded && Final(legacy.value) in files.names
    then legacy.value else decoded
  }

  // An import at `a` resolves the storage path of a promoting row, and the recovery records the row
  // at `b`. Whatever happens in between, the record is false if and only if, when the import ran,
  // the target was still free and a file with another digest was at the legacy path.
  lemma {:induction false} MisrecordedIff(h: Hash, trace: seq<State>, steps: seq<Step>, a: nat, b: nat, i: Url, decoded: Path,
                                          legacy: Option<Path>, digest: Digest)
    requires RunFromFresh(h, trace, steps) && a < b < |steps| && trace[a].disk.files.Valid() && trace[b].disk.files.Valid()
    requires steps[a].Import? && steps[a].url == i && steps[b] == Recover(i, RecordPromotion)
    requires steps[a].row.stored == ResolvedStorage(trace[a].disk.files, decoded, legacy)
    requires i in trace[b].disk.rows && trace[b].disk.rows[i].stored == steps[a].row.stored
    requires trace[b].disk.rows[i].target == Some(decoded) && trace[b].disk.rows[i].sha256 == Some(digest)
    ensures Misrecords(h, trace[b], steps[b])
            <==> var files := trace[a].disk.files;
                 && Final(decoded) !in files.names && legacy.Some? && legacy.value != decoded
                 && Final(legacy.value) in files.names && h(files.Content(Final(legacy.value))) != digest
  {
    hide Apply, Inv, TaskEnabled;
    RunStep(h, trace, steps, b);
    if legacy.Some? {
      FinalsNeverChange(h, trace, steps, a, b, legacy.value);
    }
  }
}
