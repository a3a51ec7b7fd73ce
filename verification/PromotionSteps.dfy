/** Every step of the promotion protocol keeps the invariant. */
module PromotionSteps {
  import opened Prelude
  import opened Database
  import opened FileSystem
  import opened Promotion
  import opened PromotionSafety

  lemma {:induction false} CommitKeeps(h: Hash, s: State, s': State, i: Url)
    requires Inv(h, s) && s.phase.Serving? && i in s.disk.rows && i in s'.disk.rows
    requires s' == Commit(s, i, s'.disk.rows[i], s'.tasks)
    requires s'.tasks == s.tasks - {i} || (i in s'.tasks && s'.tasks == s.tasks[i := s'.tasks[i]])
    requires ChangeOk(h, s, s', i)
    ensures Inv(h, s')
  {
    RowsKeep(h, s, s');
  }

  lemma {:induction false} ValidateKeeps(h: Hash, s: State, n: Name, d: Digest)
    requires Inv(h, s) && Witness(h, s, n, d)
    ensures Inv(h, s.(validated := s.validated + {d}))
  {
    var s' := s.(validated := s.validated + {d});
    forall e | e in s'.validated ensures exists m :: Witness(h, s', m, e) {
      if e == d {
        assert Witness(h, s', n, d);
      } else {
        var m :| Witness(h, s, m, e);
        assert Witness(h, s', m, e);
      }
    }
    assert forall j | j in s.tasks :: TaskOk(h, s, j) ==> TaskOk(h, s', j);
  }

  // What the invariant says about one item alone.
  ghost predicate ItemInv(h: Hash, s: State, i: Url) {
    && s.disk.files.Valid() && i in s.disk.rows
    && CodeOk(s, i) && IntentOk(h, s.disk, i) && EvidenceOk(h, s.disk, i) && ServingOk(s, i)
    && (i in s.tasks ==> TaskOk(h, s, i))
  }

  predicate OneTask(s: State, s': State, i: Url) {
    s'.tasks == s.tasks - {i} || (i in s'.tasks && s'.tasks == s.tasks[i := s'.tasks[i]])
  }

  // A step of item `i` that changes its row and its program counter only.
  ghost predicate Commits(h: Hash, s: State, s': State, i: Url)
    requires s.disk.files.Valid() && i in s.disk.rows
  {
    i in s'.disk.rows && s' == Commit(s, i, s'.disk.rows[i], s'.tasks) && OneTask(s, s', i) && ChangeOk(h, s, s', i)
  }

  lemma {:induction false} AdmissionCommits(h: Hash, s: State, i: Url, t: AdmissionStep)
    requires ItemInv(h, s, i) && AdmissionEnabled(s, i, t)
    ensures Commits(h, s, AdmissionApply(s, i, t), i)
  {
    assert s.disk.rows == s.disk.rows[i := s.disk.rows[i]];
  }

  lemma {:induction false} RecheckCommits(h: Hash, s: State, i: Url, t: RecheckStep)
    requires ItemInv(h, s, i) && RecheckEnabled(s, i, t)
    ensures Commits(h, s, RecheckApply(s, i, t), i)
  {
    assert s.disk.rows == s.disk.rows[i := s.disk.rows[i]];
  }

  predicate Validates(t: JudgeStep) {
    t.Intend? || t.ParentError?
  }

  // Whatever the failure, the row goes back to the queue or to a review, and its staged file stays.
  lemma {:induction false} FailCommits(h: Hash, s: State, i: Url, now: real, stopped: bool)
    requires ItemInv(h, s, i) && s.phase.Serving? && JudgeEnabled(s, i, Fail(now, stopped))
    ensures Commits(h, s, JudgeApply(h, s, i, Fail(now, stopped)), i)
  {
    hide MakesNoProgress, Broken, RetryDelay;
    assert Exposed(s, i);
  }

  lemma {:induction false} JudgeCommits(h: Hash, s: State, i: Url, t: JudgeStep)
    requires ItemInv(h, s, i) && s.phase.Serving? && JudgeEnabled(s, i, t) && !Validates(t)
    ensures Commits(h, s, JudgeApply(h, s, i, t), i)
  {
    if t.Fail? {
      FailCommits(h, s, i, t.now, t.stopped);
    } else {
      assert s.disk.rows == s.disk.rows[i := s.disk.rows[i]];
    }
  }

  lemma {:induction false} ValidationCommits(h: Hash, s: State, i: Url, t: JudgeStep)
    requires ItemInv(h, s, i) && s.phase.Serving? && JudgeEnabled(s, i, t) && Validates(t)
    ensures Commits(h, s, JudgeApply(h, s, i, t).(validated := s.validated), i)
  {
  }

  // The staged bytes become a witness for their digest.
  lemma {:induction false} ValidationWitness(h: Hash, s: State, i: Url, t: JudgeStep)
    requires ItemInv(h, s, i) && s.phase.Serving? && JudgeEnabled(s, i, t) && Validates(t)
    ensures Witness(h, JudgeApply(h, s, i, t).(validated := s.validated), Staging(i), s.tasks[i].digest)
    ensures JudgeApply(h, s, i, t).validated == s.validated + {s.tasks[i].digest}
  {
  }

  lemma {:induction false} JudgeKeeps(h: Hash, s: State, i: Url, t: JudgeStep)
    requires Inv(h, s) && ItemInv(h, s, i) && s.phase.Serving? && JudgeEnabled(s, i, t)
    ensures Inv(h, JudgeApply(h, s, i, t))
  {
    var s' := JudgeApply(h, s, i, t);
    if Validates(t) {
      var mid := s'.(validated := s.validated);
      ValidationCommits(h, s, i, t);
      CommitKeeps(h, s, mid, i);
      ValidationWitness(h, s, i, t);
      ValidateKeeps(h, mid, Staging(i), s.tasks[i].digest);
    } else {
      JudgeCommits(h, s, i, t);
      CommitKeeps(h, s, s', i);
    }
  }

  // A step of item `i` that changes its files and its program counter only.
  ghost predicate FileLocal(h: Hash, s: State, s': State, i: Url) {
    Local(s, s', i) && s'.disk.files.Valid() && i in s.disk.rows && i in s'.tasks && ServingOk(s', i) && TaskOk(h, s', i)
  }

  lemma {:induction false} EngineLocal(h: Hash, s: State, i: Url, t: EngineStep)
    requires ItemInv(h, s, i) && EngineEnabled(s, i, t)
    ensures FileLocal(h, s, EngineApply(s, i, t), i)
  {
  }

  lemma {:induction false} EngineSound(h: Hash, s: State, i: Url, t: EngineStep)
    requires Grounded(s) && Separate(s) && Sealed(s) && ItemInv(h, s, i) && EngineEnabled(s, i, t)
    ensures Sound(h, s, EngineApply(s, i, t), i)
  {
    var s' := EngineApply(s, i, t);
    EngineLocal(h, s, i, t);
    match t {
      case EngineCreate(inode, bytes) => CreateSound(h, s, s', i, Staging(i), inode, bytes);
      case EngineWrite(bytes) => WriteSound(h, s, s', i, bytes);
      case _ => ControlsSound(h, s, s', i);
    }
  }

  predicate PromoteCommit(t: PromoteStep) {
    t.FindCollision? || t.LinkError? || t.CommitComplete? || t.CommitCleanup?
  }

  lemma {:induction false} PromoteCommits(h: Hash, s: State, i: Url, t: PromoteStep)
    requires ItemInv(h, s, i) && PromoteEnabled(s, i, t) && Placed(s.disk, i, s.tasks[i])
    requires t.FindCollision? || t.LinkError?
    ensures Commits(h, s, PromoteApply(s, i, t), i)
  {
    assert s.disk.rows == s.disk.rows[i := s.disk.rows[i]];
  }

  lemma {:induction false} CompleteCommits(h: Hash, s: State, i: Url)
    requires ItemInv(h, s, i) && PromoteEnabled(s, i, CommitComplete) && Placed(s.disk, i, s.tasks[i])
    ensures Commits(h, s, PromoteApply(s, i, CommitComplete), i)
  {
    var s', d := PromoteApply(s, i, CommitComplete), s.tasks[i].digest;
    var k :| 0 <= k < |s.disk.records| && Announces(s.disk.records[k], s.session, i, s.disk.rows[i].stored, d);
    assert EvidenceAt(h, s'.disk, i, d, k);
  }

  lemma {:induction false} CleanupCommits(h: Hash, s: State, i: Url)
    requires ItemInv(h, s, i) && PromoteEnabled(s, i, CommitCleanup) && Placed(s.disk, i, s.tasks[i])
    ensures Commits(h, s, PromoteApply(s, i, CommitCleanup), i)
  {
    EvidenceHolds(h, s.disk, PromoteApply(s, i, CommitCleanup).disk, i, s.disk.rows[i].sha256.value);
  }

  lemma {:induction false} PromoteLocal(h: Hash, s: State, i: Url, t: PromoteStep)
    requires ItemInv(h, s, i) && PromoteEnabled(s, i, t) && Placed(s.disk, i, s.tasks[i])
    requires t.LinkFinal? || t.UnlinkStaging?
    ensures FileLocal(h, s, PromoteApply(s, i, t), i)
  {
  }

  lemma {:induction false} PromoteSound(h: Hash, s: State, i: Url, t: PromoteStep)
    requires Grounded(s) && Separate(s) && Sealed(s) && ItemInv(h, s, i)
    requires PromoteEnabled(s, i, t) && Placed(s.disk, i, s.tasks[i])
    requires t.LinkFinal? || t.UnlinkStaging?
    ensures Sound(h, s, PromoteApply(s, i, t), i)
  {
    var s' := PromoteApply(s, i, t);
    PromoteLocal(h, s, i, t);
    if t.LinkFinal? {
      LinkSound(h, s, s', i, Final(s.disk.rows[i].stored));
    } else {
      UnlinkSound(h, s, s', i);
    }
  }

  // A step that appends one record; a finalized record is the first of its item in this session.
  ghost predicate Records(h: Hash, s: State, s': State, i: Url) {
    && |s'.disk.records| == |s.disk.records| + 1 && s.disk.files.Valid() && i in s.disk.rows
    && var record := s'.disk.records[|s.disk.records|];
    && s' == Append(s, record, s'.tasks) && Local(s, s', i) && record.session == s.session
    && (record.Finalized? ==> record.item == i && !HasRecord(s.disk, s.session, i))
    && ServingOk(s', i) && (i in s'.tasks ==> TaskOk(h, s', i))
  }

  lemma {:induction false} RecordFinalRecords(h: Hash, s: State, i: Url)
    requires ItemInv(h, s, i) && s.phase.Serving?
    requires PromoteEnabled(s, i, RecordFinal) && Placed(s.disk, i, s.tasks[i])
    ensures Records(h, s, PromoteApply(s, i, RecordFinal), i)
  {
    var s' := PromoteApply(s, i, RecordFinal);
    var record := s'.disk.records[|s.disk.records|];
    assert Announces(record, s.session, i, s.disk.rows[i].stored, s.tasks[i].digest);
  }

  lemma {:induction false} CandidateNamesNothing(disk: Disk, disk': Disk, session: nat, i: Url)
    requires |disk'.records| == |disk.records| + 1 && disk.records <= disk'.records
    requires disk'.records[|disk.records|].CandidateCreated?
    ensures HasRecord(disk', session, i) <==> HasRecord(disk, session, i)
  {
    if k :| 0 <= k < |disk.records| && Names(disk.records[k], session, i) {
      assert Names(disk'.records[k], session, i);
    }
  }

  lemma {:induction false} MoveRecordRecords(h: Hash, s: State, i: Url)
    requires ItemInv(h, s, i) && s.phase.Serving?
    requires MoveEnabled(s, i, MoveRecord) && Placed(s.disk, i, s.tasks[i])
    ensures Records(h, s, MoveApply(s, i, MoveRecord), i)
  {
    CandidateNamesNothing(s.disk, MoveApply(s, i, MoveRecord).disk, s.session, i);
  }

  lemma {:induction false} MoveCommits(h: Hash, s: State, i: Url)
    requires ItemInv(h, s, i) && s.phase.Serving? && MoveEnabled(s, i, MoveCommit) && Placed(s.disk, i, s.tasks[i])
    ensures Commits(h, s, MoveApply(s, i, MoveCommit), i)
  {
  }

  lemma {:induction false} MoveLinkLocal(h: Hash, s: State, i: Url, serial: nat)
    requires ItemInv(h, s, i) && MoveEnabled(s, i, MoveLink(serial)) && Placed(s.disk, i, s.tasks[i])
    ensures FileLocal(h, s, MoveApply(s, i, MoveLink(serial)), i)
  {
  }

  lemma {:induction false} MoveUnlinkLocal(h: Hash, s: State, i: Url)
    requires ItemInv(h, s, i) && MoveEnabled(s, i, MoveUnlink) && Placed(s.disk, i, s.tasks[i])
    ensures FileLocal(h, s, MoveApply(s, i, MoveUnlink), i)
  {
  }

  lemma {:induction false} MoveControlLocal(h: Hash, s: State, i: Url)
    requires ItemInv(h, s, i) && MoveEnabled(s, i, MoveControlFile) && Placed(s.disk, i, s.tasks[i])
    ensures FileLocal(h, s, MoveApply(s, i, MoveControlFile), i)
  {
  }

  lemma {:induction false} MoveLocal(h: Hash, s: State, i: Url, t: MoveStep)
    requires ItemInv(h, s, i) && MoveEnabled(s, i, t) && Placed(s.disk, i, s.tasks[i])
    requires t.MoveLink? || t.MoveUnlink? || t.MoveControlFile?
    ensures FileLocal(h, s, MoveApply(s, i, t), i)
  {
    match t
    case MoveLink(serial) => MoveLinkLocal(h, s, i, serial);
    case MoveUnlink => MoveUnlinkLocal(h, s, i);
    case MoveControlFile => MoveControlLocal(h, s, i);
  }

  lemma {:induction false} MoveSound(h: Hash, s: State, i: Url, t: MoveStep)
    requires Grounded(s) && Separate(s) && Sealed(s) && ItemInv(h, s, i)
    requires MoveEnabled(s, i, t) && Placed(s.disk, i, s.tasks[i])
    requires t.MoveLink? || t.MoveUnlink? || t.MoveControlFile?
    ensures Sound(h, s, MoveApply(s, i, t), i)
  {
    var s' := MoveApply(s, i, t);
    MoveLocal(h, s, i, t);
    match t {
      case MoveLink(serial) => LinkSound(h, s, s', i, Candidate(i, serial));
      case MoveUnlink =>
        forall d | d in s.validated && Witness(h, s, Staging(i), d) ensures exists m :: Witness(h, s', m, d) {
          assert Witness(h, s', Candidate(i, s.tasks[i].serial), d);
        }
        UnlinkSound(h, s, s', i);
      case MoveControlFile => ControlsSound(h, s, s', i);
    }
  }

  lemma {:induction false} PromoteKeeps(h: Hash, s: State, i: Url, t: PromoteStep)
    requires Inv(h, s) && ItemInv(h, s, i) && s.phase.Serving?
    requires PromoteEnabled(s, i, t) && Placed(s.disk, i, s.tasks[i])
    ensures Inv(h, PromoteApply(s, i, t))
  {
    var s' := PromoteApply(s, i, t);
    if PromoteCommit(t) {
      if t.CommitComplete? {
        CompleteCommits(h, s, i);
      } else if t.CommitCleanup? {
        CleanupCommits(h, s, i);
      } else {
        PromoteCommits(h, s, i, t);
      }
      CommitKeeps(h, s, s', i);
    } else if t.RecordFinal? {
      RecordFinalRecords(h, s, i);
      AppendKeeps(h, s, s', i, s'.disk.records[|s.disk.records|]);
    } else {
      PromoteLocal(h, s, i, t);
      PromoteSound(h, s, i, t);
      SoundKeeps(h, s, s', i);
    }
  }

  lemma {:induction false} MoveKeeps(h: Hash, s: State, i: Url, t: MoveStep)
    requires Inv(h, s) && ItemInv(h, s, i) && s.phase.Serving?
    requires MoveEnabled(s, i, t) && Placed(s.disk, i, s.tasks[i])
    ensures Inv(h, MoveApply(s, i, t))
  {
    var s' := MoveApply(s, i, t);
    if t.MoveCommit? {
      MoveCommits(h, s, i);
      CommitKeeps(h, s, s', i);
    } else if t.MoveRecord? {
      MoveRecordRecords(h, s, i);
      AppendKeeps(h, s, s', i, s'.disk.records[|s.disk.records|]);
    } else {
      MoveLocal(h, s, i, t);
      MoveSound(h, s, i, t);
      SoundKeeps(h, s, s', i);
    }
  }

  lemma {:induction false} TaskKeeps(h: Hash, s: State, i: Url, t: TaskStep)
    requires Inv(h, s) && ItemInv(h, s, i) && TaskEnabled(s, i, t)
    ensures Inv(h, TaskApply(h, s, i, t))
  {
    match t
    case Admission(a) =>
      AdmissionCommits(h, s, i, a);
      CommitKeeps(h, s, AdmissionApply(s, i, a), i);
    case Engine(e) =>
      EngineLocal(h, s, i, e);
      EngineSound(h, s, i, e);
      SoundKeeps(h, s, EngineApply(s, i, e), i);
    case Judge(j) => JudgeKeeps(h, s, i, j);
    case Promote(p) => PromoteKeeps(h, s, i, p);
    case Move(m) => MoveKeeps(h, s, i, m);
    case Recheck(r) =>
      RecheckCommits(h, s, i, r);
      CommitKeeps(h, s, RecheckApply(s, i, r), i);
  }

  // ------------------------------------------------------------ recovery steps

  predicate RecoveryCommit(r: RecoveryStep) {
    !r.Relink? && !r.RemoveStaging? && !r.RecordPromotion? && !r.RecordExisting?
  }

  predicate RecoveryCompletion(r: RecoveryStep) {
    r.CompletePromotion? || r.CompleteExisting? || r.RecordCleanup?
  }

  // A recovery step of item `i` that changes its row only.
  ghost predicate Revises(h: Hash, s: State, disk': Disk, i: Url)
    requires s.disk.files.Valid() && i in s.disk.rows
  {
    && i in disk'.rows && disk' == s.disk.(rows := s.disk.rows[i := disk'.rows[i]])
    && ChangeOk(h, s, s.(disk := disk'), i)
  }

  lemma {:induction false} RecoveryRevises(h: Hash, s: State, i: Url, r: RecoveryStep)
    requires ItemInv(h, s, i) && s.phase.Starting? && s.tasks == map[]
    requires RecoveryEnabled(h, s.disk, s.session, i, r) && RecoveryCommit(r) && !RecoveryCompletion(r)
    ensures Revises(h, s, RecoveryApply(h, s.disk, s.session, i, r), i)
  {
  }

  lemma {:induction false} CompletionRevises(h: Hash, s: State, i: Url, r: RecoveryStep)
    requires ItemInv(h, s, i) && s.phase.Starting? && s.tasks == map[]
    requires RecoveryEnabled(h, s.disk, s.session, i, r) && RecoveryCompletion(r)
    ensures Revises(h, s, RecoveryApply(h, s.disk, s.session, i, r), i)
  {
    var disk' := RecoveryApply(h, s.disk, s.session, i, r);
    var row, records := s.disk.rows[i], s.disk.records;
    match r {
      case CompletePromotion(_) =>
        var k :| 0 <= k < |records| && Announces(records[k], s.session, i, row.stored, row.sha256.value);
        assert EvidenceAt(h, disk', i, row.sha256.value, k);
      case CompleteExisting =>
        var k :| 0 <= k < |records| && Announces(records[k], s.session, i, row.stored, row.expected.value);
        assert EvidenceAt(h, disk', i, row.expected.value, k);
      case RecordCleanup => EvidenceHolds(h, s.disk, disk', i, row.sha256.value);
    }
  }

  lemma {:induction false} RecoveryCommitKeeps(h: Hash, s: State, i: Url, r: RecoveryStep)
    requires Inv(h, s) && ItemInv(h, s, i) && s.phase.Starting?
    requires RecoveryEnabled(h, s.disk, s.session, i, r) && RecoveryCommit(r)
    ensures Inv(h, s.(disk := RecoveryApply(h, s.disk, s.session, i, r)))
  {
    if RecoveryCompletion(r) {
      CompletionRevises(h, s, i, r);
    } else {
      RecoveryRevises(h, s, i, r);
    }
    RowsKeep(h, s, s.(disk := RecoveryApply(h, s.disk, s.session, i, r)));
  }

  lemma {:induction false} RecoveryFileKeeps(h: Hash, s: State, i: Url, r: RecoveryStep)
    requires Inv(h, s) && ItemInv(h, s, i) && s.phase.Starting?
    requires RecoveryEnabled(h, s.disk, s.session, i, r) && (r.Relink? || r.RemoveStaging?)
    ensures Inv(h, s.(disk := RecoveryApply(h, s.disk, s.session, i, r)))
  {
    var s' := s.(disk := RecoveryApply(h, s.disk, s.session, i, r));
    if r.Relink? {
      LinkSound(h, s, s', i, Final(s.disk.rows[i].target.value));
    } else {
      UnlinkSound(h, s, s', i);
    }
    SoundKeeps(h, s, s', i);
  }

  lemma {:induction false} RecoveryRecordKeeps(h: Hash, s: State, i: Url, r: RecoveryStep)
    requires Inv(h, s) && ItemInv(h, s, i) && s.phase.Starting?
    requires RecoveryEnabled(h, s.disk, s.session, i, r) && (r.RecordPromotion? || r.RecordExisting?)
    ensures Inv(h, s.(disk := RecoveryApply(h, s.disk, s.session, i, r)))
  {
    var s' := s.(disk := RecoveryApply(h, s.disk, s.session, i, r));
    assert Settled(s.disk, s.session, i);
    AppendKeeps(h, s, s', i, s'.disk.records[|s.disk.records|]);
  }

  lemma {:induction false} RecoveryKeeps(h: Hash, s: State, i: Url, r: RecoveryStep)
    requires Inv(h, s) && s.phase.Starting? && RecoveryEnabled(h, s.disk, s.session, i, r)
    ensures Inv(h, s.(disk := RecoveryApply(h, s.disk, s.session, i, r)))
  {
    assert ItemInv(h, s, i);
    if RecoveryCommit(r) {
      RecoveryCommitKeeps(h, s, i, r);
    } else if r.Relink? || r.RemoveStaging? {
      RecoveryFileKeeps(h, s, i, r);
    } else {
      RecoveryRecordKeeps(h, s, i, r);
    }
  }

  // ------------------------------------------------------------ operator, crash and start

  lemma {:induction false} ReviseChange(h: Hash, s: State, s': State, action: ItemAction, i: Url)
    requires ItemInv(h, s, i) && s.phase.Serving? && Eligible(action, s.disk.rows[i])
    requires s' == s.(disk := s.disk.(rows := s'.disk.rows)) && i in s'.disk.rows
    requires s'.disk.rows[i] == Revise(action, s.disk.rows[i])
    ensures ChangeOk(h, s, s', i)
  {
  }

  lemma {:induction false} OperateKeeps(h: Hash, s: State, action: ItemAction, items: set<Url>)
    requires Inv(h, s) && s.phase.Serving?
    ensures Inv(h, s.(disk := s.disk.(rows := ReviseAll(action, s.disk.rows, items))))
  {
    var s' := s.(disk := s.disk.(rows := ReviseAll(action, s.disk.rows, items)));
    forall i | i in s'.disk.rows ensures ChangeOk(h, s, s', i) {
      assert ItemInv(h, s, i);
      if i in items && Eligible(action, s.disk.rows[i]) {
        ReviseChange(h, s, s', action, i);
      }
    }
    RowsKeep(h, s, s');
  }

  lemma {:induction false} RequeueKeeps(h: Hash, s: State, selected: set<Url>)
    requires Inv(h, s) && s.phase.Starting?
    ensures Inv(h, s.(disk := s.disk.(rows := RequeueRows(s.disk.rows, selected))))
  {
    var s' := s.(disk := s.disk.(rows := RequeueRows(s.disk.rows, selected)));
    forall i | i in s'.disk.rows ensures ChangeOk(h, s, s', i) {
      assert ItemInv(h, s, i);
      assert s'.disk.rows[i] == s.disk.rows[i]
             || s'.disk.rows[i] == s.disk.rows[i].(status := Queued, nextRetryAt := 0.0);
    }
    RowsKeep(h, s, s');
  }

  lemma {:induction false} ImportKeeps(h: Hash, s: State, url: Url, row: Row)
    requires Inv(h, s) && Enabled(h, s, Import(url, row))
    ensures Inv(h, Apply(h, s, Import(url, row)))
  {
    var s' := Apply(h, s, Import(url, row));
    assert url in s.disk.rows ==> ItemInv(h, s, url);
    assert ChangeOk(h, s, s', url) by {
      if url in s.disk.rows && s.disk.rows[url].status.Complete? {
        EvidenceHolds(h, s.disk, s'.disk, url, s.disk.rows[url].sha256.value);
      }
    }
    RowsKeep(h, s, s');
  }

  // Crash, start, scope and open leave files, rows and records alone.
  lemma {:induction false} SessionKeeps(h: Hash, s: State, s': State)
    requires Inv(h, s)
    requires s' == s.(disk := s.disk.(runs := s'.disk.runs), session := s'.session, phase := s'.phase, tasks := map[])
    requires s.session <= s'.session
    requires s'.phase.Serving? ==> forall i | i in s.disk.rows :: ServingOk(s', i)
    ensures Inv(h, s')
  {
    forall d | d in s'.validated ensures exists m :: Witness(h, s', m, d) {
      var m :| Witness(h, s, m, d);
      assert Witness(h, s', m, d);
    }
    assert forall i :: Exposed(s', i) ==> Exposed(s, i);
    forall i | i in s'.disk.rows ensures EvidenceOk(h, s'.disk, i) {
      assert EvidenceOk(h, s.disk, i);
      if s.disk.rows[i].status.Complete? {
        EvidenceHolds(h, s.disk, s'.disk, i, s.disk.rows[i].sha256.value);
      }
    }
    assert forall i | i in s.disk.rows :: CodeOk(s, i) && IntentOk(h, s.disk, i);
  }

  lemma {:induction false} ForeignKeeps(h: Hash, s: State, path: Path, inode: nat, bytes: Bytes)
    requires Inv(h, s) && Final(path) !in s.disk.files.names && inode !in s.disk.files.data
    ensures Inv(h, WithFiles(s, s.disk.files.Create(Final(path), inode, bytes), s.tasks))
  {
    var s' := WithFiles(s, s.disk.files.Create(Final(path), inode, bytes), s.tasks);
    // no item is concerned, so any URL may stand for the one that changes
    var i: Url := "";
    assert i in s.disk.rows ==> ItemInv(h, s, i);
    assert i in s.tasks ==> Placed(s'.disk, i, s.tasks[i]) && TaskOk(h, s', i);
    CreateSound(h, s, s', i, Final(path), inode, bytes);
    SoundKeeps(h, s, s', i);
  }

  // ------------------------------------------------------------ every step

  lemma {:induction false} StepKeeps(h: Hash, s: State, step: Step)
    requires Inv(h, s) && Enabled(h, s, step)
    ensures Inv(h, Apply(h, s, step))
  {
    match step
    case Task(i, t) =>
      assert ItemInv(h, s, i);
      TaskKeeps(h, s, i, t);
    case Operate(action, items) => OperateKeeps(h, s, action, items);
    case Foreign(path, inode, bytes) => ForeignKeeps(h, s, path, inode, bytes);
    case Import(url, row) => ImportKeeps(h, s, url, row);
    case Recover(i, r) => RecoveryKeeps(h, s, i, r);
    case Requeue => RequeueKeeps(h, s, Selected(s));
    case _ => SessionKeeps(h, s, Apply(h, s, step));
  }
}
