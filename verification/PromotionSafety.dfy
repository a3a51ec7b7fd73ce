/** What every step of the promotion protocol keeps. */
module PromotionSafety {
  import opened Prelude
  import opened Database
  import opened FileSystem
  import opened Promotion

  // ------------------------------------------------------------ who may still write

  predicate ResumableCode(code: ReviewCode) {
    code.AccessDenied? || RepresentationCode(code)
  }

  // Rows whose staged file the engine may open again.
  predicate Resumable(row: Row) {
    || Pending(row.status) || row.status.Admitted? || row.status.Active? || row.status.Running?
    || row.status.Unavailable? || (row.status.ReviewRequired? && ResumableCode(row.code))
  }

  // Program counters before the promotion intent, or on a way back to the queue.
  predicate Preparing(pc: Pc) {
    match pc
    case Intended(_) => false
    case Linked(_) => false
    case Recorded(_) => false
    case Completed => false
    case Unlinked => false
    case Moving(why) => !why.Collision?
    case MoveLinked(why, _) => !why.Collision?
    case MoveUnlinked(why, _) => !why.Collision?
    case MoveDone(why, _) => !why.Collision?
    case MoveRecorded(why, _) => !why.Collision?
    case _ => true
  }

  predicate Exposed(s: State, i: Url) {
    i in s.disk.rows && (Resumable(s.disk.rows[i]) || (i in s.tasks && Preparing(s.tasks[i])))
  }

  // ------------------------------------------------------------ the invariant

  ghost predicate Grounded(s: State) {
    && s.disk.files.Valid()
    && (forall i | Staging(i) in s.disk.files.names :: i in s.disk.rows)
    && s.tasks.Keys <= s.disk.rows.Keys
    && (s.tasks != map[] ==> s.phase.Serving?)
  }

  // An inode belongs to the staging of at most one item.
  ghost predicate Separate(s: State) {
    var names := s.disk.files.names;
    && (forall i, j | Staging(i) in names && Staging(j) in names && names[Staging(i)] == names[Staging(j)] :: i == j)
    && (forall i, j, k | Staging(i) in names && Candidate(j, k) in names && names[Staging(i)] == names[Candidate(j, k)]
         :: i == j)
  }

  // An inode that an engine may write has no name in the destination.
  ghost predicate Sealed(s: State) {
    var names := s.disk.files.names;
    forall i, p | Exposed(s, i) && Staging(i) in names && Final(p) in names :: names[Staging(i)] != names[Final(p)]
  }

  predicate CodeOk(s: State, i: Url)
    requires i in s.disk.rows
  {
    ResumableCode(s.disk.rows[i].code) ==>
      (s.disk.rows[i].status.ReviewRequired? || s.disk.rows[i].status.Excluded?) && i !in s.tasks
  }

  predicate IntentOk(h: Hash, disk: Disk, i: Url)
    requires disk.files.Valid() && i in disk.rows
  {
    var row := disk.rows[i];
    row.status.Promoting? ==>
      && row.sha256.Some? && row.target.Some?
      && (Staging(i) in disk.files.names ==> h(disk.files.Content(Staging(i))) == row.sha256.value)
  }

  // A promoting row that still holds its staged file, with digest `d`.
  predicate Promotes(disk: Disk, i: Url, d: Digest)
    requires i in disk.rows
  {
    disk.rows[i].status.Promoting? && disk.rows[i].sha256 == Some(d) && disk.rows[i].target == Some(disk.rows[i].stored)
  }

  predicate MoveOk(h: Hash, disk: Disk, i: Url, why: Why)
    requires i in disk.rows
  {
    var row := disk.rows[i];
    match why
    case Collision(d) => Promotes(disk, i, d)
    case Doubtful(code, _) =>
      RepresentationCode(code) && (row.status.Admitted? || row.status.Unavailable? || row.status.Excluded?)
    case _ => row.status.Active? || row.status.Excluded?
  }

  predicate TaskOk(h: Hash, s: State, i: Url)
    requires s.disk.files.Valid() && i in s.tasks && i in s.disk.rows
  {
    var disk, names, row, pc := s.disk, s.disk.files.names, s.disk.rows[i], s.tasks[i];
    && Placed(disk, i, pc)
    && match pc
       case Chosen(_) => Pending(row.status) || row.status.Excluded?
       case Waiting(_) => row.status.Admitted? || row.status.Excluded?
       case Ready(_) => row.status.Admitted? || row.status.Excluded?
       case Downloading(_) => row.status.Active? || row.status.Excluded?
       case Exited(_, _, _) => row.status.Active? || row.status.Excluded?
       case Hashed(d) => (row.status.Active? || row.status.Excluded?) && h(disk.files.Content(Staging(i))) == d
       case Intended(d) => Promotes(disk, i, d)
       case Linked(d) => Promotes(disk, i, d) && names[Final(row.stored)] == names[Staging(i)]
       case Recorded(d) =>
         Promotes(disk, i, d) && names[Final(row.stored)] == names[Staging(i)]
         && Announced(disk, s.session, i, row.stored, d)
       case Completed => row.status.Complete?
       case Unlinked => row.status.Complete? && Staging(i) !in names
       case Moving(why) => MoveOk(h, disk, i, why)
       case MoveLinked(why, serial) =>
         MoveOk(h, disk, i, why) && names[Candidate(i, serial)] == names[Staging(i)]
       case MoveUnlinked(why, _) => MoveOk(h, disk, i, why) && Staging(i) !in names
       case MoveDone(why, _) => MoveOk(h, disk, i, why) && Staging(i) !in names
       case MoveRecorded(why, _) => MoveOk(h, disk, i, why) && Staging(i) !in names
       case Rechecking => row.status.Unavailable? || row.status.Excluded?
  }

  // A finalized record names the item and its digest, and the final that it names, or the promotion
  // target of the row, holds that digest.
  ghost predicate Evidence(h: Hash, disk: Disk, i: Url, digest: Digest)
    requires disk.files.Valid() && i in disk.rows
  {
    exists k :: EvidenceAt(h, disk, i, digest, k)
  }

  predicate EvidenceAt(h: Hash, disk: Disk, i: Url, digest: Digest, k: nat)
    requires disk.files.Valid() && i in disk.rows
  {
    && k < |disk.records| && Certifies(disk.records[k], i, digest)
    && (|| FinalMatches(h, disk, disk.records[k].path, digest)
        || (disk.rows[i].target.Some? && FinalMatches(h, disk, disk.rows[i].target.value, digest)))
  }

  predicate Certifies(record: Record, i: Url, digest: Digest) {
    record.Finalized? && record.item == i && record.digest == digest
  }

  ghost predicate EvidenceOk(h: Hash, disk: Disk, i: Url)
    requires disk.files.Valid() && i in disk.rows
  {
    disk.rows[i].status.Complete? ==> disk.rows[i].sha256.Some? && Evidence(h, disk, i, disk.rows[i].sha256.value)
  }

  // A name that holds bytes of digest `d` which nobody will write.
  ghost predicate Witness(h: Hash, s: State, n: Name, d: Digest)
    requires s.disk.files.Valid()
  {
    && n in s.disk.files.names && h(s.disk.files.Content(n)) == d
    && match n
       case Final(_) => true
       case Candidate(i, _) =>
         !(Exposed(s, i) && Staging(i) in s.disk.files.names
           && s.disk.files.names[Staging(i)] == s.disk.files.names[n])
       case Staging(i) => i in s.disk.rows && !Exposed(s, i) && !s.disk.rows[i].status.Complete?
  }

  ghost predicate Kept(h: Hash, s: State)
    requires s.disk.files.Valid()
  {
    forall d | d in s.validated :: exists n :: Witness(h, s, n, d)
  }

  ghost predicate OnceEach(s: State) {
    var records := s.disk.records;
    && (forall k | 0 <= k < |records| :: records[k].session <= s.session)
    && (forall k, l | 0 <= k < l < |records| && records[k].Finalized? && records[l].Finalized?
          && records[k].session == records[l].session :: records[k].item != records[l].item)
  }

  // While serving, a record of this session is followed by its completion.
  predicate ServingOk(s: State, i: Url)
    requires i in s.disk.rows
  {
    s.phase.Serving? && HasRecord(s.disk, s.session, i) ==>
      s.disk.rows[i].status.Complete? || (i in s.tasks && s.tasks[i].Recorded?)
  }

  ghost predicate Inv(h: Hash, s: State) {
    && Grounded(s) && Separate(s) && Sealed(s)
    && (forall i | i in s.disk.rows :: CodeOk(s, i) && IntentOk(h, s.disk, i))
    && (forall i | i in s.disk.rows :: EvidenceOk(h, s.disk, i))
    && (forall i | i in s.tasks :: TaskOk(h, s, i))
    && Kept(h, s) && OnceEach(s)
    && (forall i | i in s.disk.rows :: ServingOk(s, i))
  }

  // ------------------------------------------------------------ row changes

  // What a changed row and task of one item must satisfy.
  ghost predicate ChangeOk(h: Hash, s: State, s': State, i: Url)
    requires s.disk.files.Valid() && s'.disk.files == s.disk.files && i in s'.disk.rows
  {
    || (i in s.disk.rows && s'.disk.rows[i] == s.disk.rows[i]
        && (i in s.tasks <==> i in s'.tasks) && (i in s.tasks ==> s'.tasks[i] == s.tasks[i]))
    || (&& (Exposed(s', i) ==> Exposed(s, i) || Staging(i) !in s.disk.files.names)
        && CodeOk(s', i) && IntentOk(h, s'.disk, i) && EvidenceOk(h, s'.disk, i)
        && (i in s'.tasks ==> TaskOk(h, s', i))
        && (forall d | d in s.validated && Witness(h, s, Staging(i), d) ::
              Witness(h, s', Staging(i), d) || (s'.disk.rows[i].status.Complete? && s'.disk.rows[i].sha256 == Some(d)))
        && ServingOk(s', i))
  }

  lemma {:induction false} RowsKeep(h: Hash, s: State, s': State)
    requires Inv(h, s)
    requires s' == s.(disk := s.disk.(rows := s'.disk.rows), tasks := s'.tasks)
    requires s.disk.rows.Keys <= s'.disk.rows.Keys && s'.tasks.Keys <= s'.disk.rows.Keys
    requires s'.tasks != map[] ==> s.phase.Serving?
    requires forall i | i in s'.disk.rows :: ChangeOk(h, s, s', i)
    ensures Inv(h, s')
  {
    forall i, p | Exposed(s', i) && Staging(i) in s.disk.files.names && Final(p) in s.disk.files.names
      ensures s.disk.files.names[Staging(i)] != s.disk.files.names[Final(p)]
    {
      assert ChangeOk(h, s, s', i);
      assert Exposed(s, i);
    }
    forall i | i in s'.disk.rows ensures CodeOk(s', i) && IntentOk(h, s'.disk, i) && ServingOk(s', i) {
      assert ChangeOk(h, s, s', i);
    }
    forall i | i in s'.disk.rows ensures EvidenceOk(h, s'.disk, i) {
      RowKeepsEvidence(h, s, s', i);
    }
    forall i | i in s'.tasks ensures TaskOk(h, s', i) {
      assert ChangeOk(h, s, s', i);
    }
    forall d | d in s'.validated ensures exists n :: Witness(h, s', n, d) {
      var n :| Witness(h, s, n, d);
      WitnessMoves(h, s, s', n, d);
    }
  }

  lemma {:induction false} RowKeepsEvidence(h: Hash, s: State, s': State, i: Url)
    requires s.disk.files.Valid() && s'.disk.files == s.disk.files && s'.disk.records == s.disk.records
    requires i in s'.disk.rows && ChangeOk(h, s, s', i)
    requires i in s.disk.rows ==> EvidenceOk(h, s.disk, i)
    ensures EvidenceOk(h, s'.disk, i)
  {
    if i in s.disk.rows && s'.disk.rows[i] == s.disk.rows[i] && s.disk.rows[i].status.Complete? {
      EvidenceHolds(h, s.disk, s'.disk, i, s.disk.rows[i].sha256.value);
    }
  }

  lemma {:induction false} WitnessMoves(h: Hash, s: State, s': State, n: Name, d: Digest)
    requires Inv(h, s) && s'.disk.files == s.disk.files && s'.disk.records == s.disk.records
    requires s.disk.rows.Keys <= s'.disk.rows.Keys
    requires forall i | i in s'.disk.rows :: ChangeOk(h, s, s', i)
    requires d in s.validated && Witness(h, s, n, d)
    ensures exists m :: Witness(h, s', m, d)
  {
    match n
    case Final(_) => assert Witness(h, s', n, d);
    case Candidate(i, _) =>
      assert i in s'.disk.rows ==> ChangeOk(h, s, s', i);
      assert Witness(h, s', n, d);
    case Staging(i) =>
      assert ChangeOk(h, s, s', i);
      if !Witness(h, s', n, d) {
        StagingWitnessEnds(h, s, s', i, d);
        EvidenceIsWitness(h, s', i, d);
      }
  }

  // Staged bytes that are a witness no more belong to a completed row.
  lemma {:induction false} StagingWitnessEnds(h: Hash, s: State, s': State, i: Url, d: Digest)
    requires s.disk.files.Valid() && s'.disk.files == s.disk.files && i in s'.disk.rows && ChangeOk(h, s, s', i)
    requires d in s.validated && Witness(h, s, Staging(i), d) && !Witness(h, s', Staging(i), d)
    ensures s'.disk.rows[i].status.Complete? && s'.disk.rows[i].sha256 == Some(d) && EvidenceOk(h, s'.disk, i)
  {
    hide EvidenceOk, CodeOk, IntentOk, TaskOk, ServingOk;
  }

  lemma {:induction false} EvidenceIsWitness(h: Hash, s: State, i: Url, d: Digest)
    requires s.disk.files.Valid() && i in s.disk.rows && EvidenceOk(h, s.disk, i)
    requires s.disk.rows[i].status.Complete? && s.disk.rows[i].sha256 == Some(d)
    ensures exists m :: Witness(h, s, m, d)
  {
    var k: nat :| EvidenceAt(h, s.disk, i, d, k);
    var record, target := s.disk.records[k], s.disk.rows[i].target;
    assert Witness(h, s, Final(record.path), d) || Witness(h, s, Final(target.value), d);
  }

  // ------------------------------------------------------------ file changes

  predicate Owns(i: Url, n: Name) {
    !n.Final? && n.item == i
  }

  // Every name that does not belong to item `i` keeps its inode and bytes; only finals may be new.
  ghost predicate Steady(files: Files, files': Files, i: Url) {
    && files.Valid() && files'.Valid()
    && (forall n | n in files.names && !Owns(i, n) ::
          n in files'.names && files'.names[n] == files.names[n] && files'.Content(n) == files.Content(n))
    && (forall n | n in files'.names && !Owns(i, n) && !n.Final? :: n in files.names)
  }

  // Only the files, the records and the work of item `i` change.
  ghost predicate Local(s: State, s': State, i: Url) {
    && s' == s.(disk := s.disk.(files := s'.disk.files, records := s'.disk.records), tasks := s'.tasks)
    && s.disk.records <= s'.disk.records
    && s'.tasks.Keys <= s.tasks.Keys && s.tasks.Keys - {i} <= s'.tasks.Keys
    && (forall j | j in s'.tasks && j != i :: s'.tasks[j] == s.tasks[j])
    && (Exposed(s', i) ==> Exposed(s, i))
    && (i in s'.tasks ==> i in s.disk.rows && !ResumableCode(s.disk.rows[i].code))
  }

  lemma {:induction false} OtherTasksKeep(h: Hash, s: State, s': State, i: Url)
    requires Grounded(s) && Local(s, s', i) && Steady(s.disk.files, s'.disk.files, i)
    requires forall j | j in s.tasks :: TaskOk(h, s, j)
    ensures forall j | j in s'.tasks && j != i :: TaskOk(h, s', j)
  {
    forall j | j in s'.tasks && j != i ensures TaskOk(h, s', j) {
      assert TaskOk(h, s, j);
      assert Placed(s'.disk, j, s.tasks[j]);
      if s.tasks[j].Recorded? {
        AnnouncedStays(s.disk, s'.disk, s.session, j, s.disk.rows[j].stored, s.tasks[j].digest);
      }
    }
  }

  lemma {:induction false} AnnouncedStays(disk: Disk, disk': Disk, session: nat, i: Url, path: Path, digest: Digest)
    requires disk.records <= disk'.records && Announced(disk, session, i, path, digest)
    ensures Announced(disk', session, i, path, digest)
  {
    var k :| 0 <= k < |disk.records| && Announces(disk.records[k], session, i, path, digest);
    assert disk'.records[k] == disk.records[k];
  }

  lemma {:induction false} OtherIntentsKeep(h: Hash, s: State, s': State, i: Url)
    requires Grounded(s) && Local(s, s', i) && Steady(s.disk.files, s'.disk.files, i)
    requires forall j | j in s.disk.rows :: CodeOk(s, j) && IntentOk(h, s.disk, j)
    ensures forall j | j in s.disk.rows :: CodeOk(s', j)
    ensures forall j | j in s.disk.rows && j != i :: IntentOk(h, s'.disk, j)
  {
    forall j | j in s.disk.rows && j != i ensures IntentOk(h, s'.disk, j) {
      assert IntentOk(h, s.disk, j);
    }
    forall j | j in s.disk.rows ensures CodeOk(s', j) {
      assert CodeOk(s, j);
    }
  }

  // Evidence rests on files, records and the target.
  lemma {:induction false} EvidenceHolds(h: Hash, disk: Disk, disk': Disk, i: Url, digest: Digest)
    requires disk.files.Valid() && disk'.files == disk.files && disk'.records == disk.records
    requires i in disk.rows && i in disk'.rows && disk'.rows[i].target == disk.rows[i].target
    requires Evidence(h, disk, i, digest)
    ensures Evidence(h, disk', i, digest)
  {
    var k: nat :| EvidenceAt(h, disk, i, digest, k);
    assert EvidenceAt(h, disk', i, digest, k);
  }

  // Records and finals stay, so evidence stays.
  lemma {:induction false} EvidenceStays(h: Hash, disk: Disk, disk': Disk, i: Url)
    requires Steady(disk.files, disk'.files, i) && disk'.rows == disk.rows && disk.records <= disk'.records
    requires forall j | j in disk.rows :: EvidenceOk(h, disk, j)
    ensures forall j | j in disk.rows :: EvidenceOk(h, disk', j)
  {
    forall j | j in disk.rows && disk.rows[j].status.Complete? ensures EvidenceOk(h, disk', j) {
      assert EvidenceOk(h, disk, j);
      var digest := disk.rows[j].sha256.value;
      var k: nat :| EvidenceAt(h, disk, j, digest, k);
      assert disk'.records[k] == disk.records[k];
      assert EvidenceAt(h, disk', j, digest, k);
    }
  }

  lemma {:induction false} OtherWitnessStays(h: Hash, s: State, s': State, i: Url, n: Name, d: Digest)
    requires Grounded(s) && Separate(s) && Local(s, s', i) && Steady(s.disk.files, s'.disk.files, i)
    requires Witness(h, s, n, d) && !Owns(i, n)
    ensures Witness(h, s', n, d)
  {
    assert n.Candidate? ==> !Owns(i, Staging(n.item));
  }

  lemma {:induction false} KeptStays(h: Hash, s: State, s': State, i: Url)
    requires Grounded(s) && Separate(s) && Local(s, s', i) && Steady(s.disk.files, s'.disk.files, i)
    requires Kept(h, s)
    requires forall n, d | d in s.validated && Owns(i, n) && Witness(h, s, n, d) :: exists m :: Witness(h, s', m, d)
    ensures Kept(h, s')
  {
    forall d | d in s'.validated ensures exists m :: Witness(h, s', m, d) {
      var n :| Witness(h, s, n, d);
      if !Owns(i, n) {
        OtherWitnessStays(h, s, s', i, n, d);
      }
    }
  }

  lemma {:induction false} GroundedStays(s: State, s': State, i: Url)
    requires Grounded(s) && Local(s, s', i) && Steady(s.disk.files, s'.disk.files, i)
    requires Staging(i) in s'.disk.files.names ==> i in s.disk.rows
    ensures Grounded(s')
  {
    forall j | Staging(j) in s'.disk.files.names ensures j in s.disk.rows {
      assert j != i ==> !Owns(i, Staging(j));
    }
  }

  lemma {:induction false} OtherServingStays(s: State, s': State, i: Url)
    requires Local(s, s', i) && s'.disk.records == s.disk.records
    requires forall j | j in s.disk.rows :: ServingOk(s, j)
    ensures forall j | j in s.disk.rows && j != i :: ServingOk(s', j)
  {
    forall j | j in s.disk.rows && j != i ensures ServingOk(s', j) {
      assert ServingOk(s, j);
    }
  }

  lemma {:induction false} FilesKeep(h: Hash, s: State, s': State, i: Url)
    requires Inv(h, s) && Local(s, s', i) && s'.disk.records == s.disk.records
    requires Steady(s.disk.files, s'.disk.files, i) && Separate(s') && Sealed(s')
    requires i in s.disk.rows ==> IntentOk(h, s'.disk, i) && ServingOk(s', i)
    requires Staging(i) in s'.disk.files.names ==> i in s.disk.rows
    requires i in s'.tasks ==> TaskOk(h, s', i)
    requires forall n, d | d in s.validated && Owns(i, n) && Witness(h, s, n, d) :: exists m :: Witness(h, s', m, d)
    ensures Inv(h, s')
  {
    OtherTasksKeep(h, s, s', i);
    OtherIntentsKeep(h, s, s', i);
    EvidenceStays(h, s.disk, s'.disk, i);
    KeptStays(h, s, s', i);
    GroundedStays(s, s', i);
    OtherServingStays(s, s', i);
    assert OnceEach(s');
  }

  // Witnesses under the names of item `i` survive, by moving to another name if need be.
  ghost predicate OwnKept(h: Hash, s: State, s': State, i: Url)
    requires s.disk.files.Valid() && s'.disk.files.Valid()
  {
    forall n, d | d in s.validated && Owns(i, n) && Witness(h, s, n, d) :: exists m :: Witness(h, s', m, d)
  }

  // What the files of item `i` must keep, apart from its task.
  ghost predicate Sound(h: Hash, s: State, s': State, i: Url) {
    && s.disk.files.Valid() && Local(s, s', i) && s'.disk.records == s.disk.records
    && Steady(s.disk.files, s'.disk.files, i) && Separate(s') && Sealed(s')
    && (Staging(i) in s'.disk.files.names ==> i in s.disk.rows)
    && (i in s.disk.rows ==> IntentOk(h, s'.disk, i))
    && OwnKept(h, s, s', i)
  }

  lemma {:induction false} SoundKeeps(h: Hash, s: State, s': State, i: Url)
    requires Inv(h, s) && Sound(h, s, s', i)
    requires i in s'.tasks ==> TaskOk(h, s', i)
    requires i in s.disk.rows ==> ServingOk(s', i)
    ensures Inv(h, s')
  {
    FilesKeep(h, s, s', i);
  }

  lemma {:induction false} LinkSound(h: Hash, s: State, s': State, i: Url, n: Name)
    requires Grounded(s) && Separate(s) && Sealed(s) && i in s.disk.rows && IntentOk(h, s.disk, i)
    requires Staging(i) in s.disk.files.names && n !in s.disk.files.names
    requires s' == WithFiles(s, s.disk.files.Link(Staging(i), n), s'.tasks) && Local(s, s', i)
    requires n.Final? || (n.Candidate? && n.item == i)
    requires n.Final? ==> !Exposed(s, i)
    ensures Sound(h, s, s', i)
  {
    assert s.disk.files.names[Staging(i)] in s.disk.files.data;
    forall m, d | d in s.validated && Owns(i, m) && Witness(h, s, m, d) ensures exists k :: Witness(h, s', k, d) {
      assert Witness(h, s', m, d);
    }
  }

  lemma {:induction false} UnlinkSound(h: Hash, s: State, s': State, i: Url)
    requires Grounded(s) && Separate(s) && Sealed(s) && i in s.disk.rows && IntentOk(h, s.disk, i)
    requires Staging(i) in s.disk.files.names
    requires s' == WithFiles(s, s.disk.files.Unlink(Staging(i)), s'.tasks) && Local(s, s', i)
    requires forall d | d in s.validated && Witness(h, s, Staging(i), d) :: exists m :: Witness(h, s', m, d)
    ensures Sound(h, s, s', i)
  {
    forall m, d | d in s.validated && Owns(i, m) && Witness(h, s, m, d) ensures exists k :: Witness(h, s', k, d) {
      if m != Staging(i) {
        assert Witness(h, s', m, d);
      }
    }
  }

  lemma {:induction false} ControlsSound(h: Hash, s: State, s': State, i: Url)
    requires Grounded(s) && Separate(s) && Sealed(s) && i in s.disk.rows && IntentOk(h, s.disk, i)
    requires Local(s, s', i) && s'.disk.records == s.disk.records
    requires s'.disk.files == s.disk.files.(controls := s'.disk.files.controls)
    ensures Sound(h, s, s', i)
  {
    forall n, d | d in s.validated && Owns(i, n) && Witness(h, s, n, d) ensures exists m :: Witness(h, s', m, d) {
      assert Witness(h, s', n, d);
    }
  }

  lemma {:induction false} WriteSound(h: Hash, s: State, s': State, i: Url, bytes: Bytes)
    requires Grounded(s) && Separate(s) && Sealed(s) && i in s.disk.rows && Exposed(s, i)
    requires Staging(i) in s.disk.files.names && !s.disk.rows[i].status.Promoting?
    requires s' == WithFiles(s, s.disk.files.Write(Staging(i), bytes), s.tasks) && Local(s, s', i)
    ensures Sound(h, s, s', i)
  {
    assert Steady(s.disk.files, s'.disk.files, i) by {
      forall n | n in s.disk.files.names && !Owns(i, n) ensures s.disk.files.names[n] != s.disk.files.names[Staging(i)] {
        match n
        case Staging(_) =>
        case Candidate(_, _) =>
        case Final(_) =>
      }
    }
    forall n, d | d in s.validated && Owns(i, n) && Witness(h, s, n, d) ensures exists m :: Witness(h, s', m, d) {
      assert n.Candidate?;
      assert Witness(h, s', n, d);
    }
  }

  // A new inode, under the staging name of `i` or under a final name.
  lemma {:induction false} CreateSound(h: Hash, s: State, s': State, i: Url, n: Name, inode: nat, bytes: Bytes)
    requires Grounded(s) && Separate(s) && Sealed(s)
    requires i in s.disk.rows ==> IntentOk(h, s.disk, i)
    requires n !in s.disk.files.names && inode !in s.disk.files.data
    requires n.Final? || (n == Staging(i) && i in s.disk.rows && !s.disk.rows[i].status.Promoting?)
    requires s' == WithFiles(s, s.disk.files.Create(n, inode, bytes), s.tasks) && Local(s, s', i)
    ensures Sound(h, s, s', i)
  {
    assert forall m | m in s.disk.files.names :: s.disk.files.names[m] in s.disk.files.data;
    forall m, d | d in s.validated && Owns(i, m) && Witness(h, s, m, d) ensures exists k :: Witness(h, s', k, d) {
      assert Witness(h, s', m, d);
    }
  }

  lemma {:induction false} AppendKeeps(h: Hash, s: State, s': State, i: Url, record: Record)
    requires Inv(h, s) && i in s.disk.rows
    requires s' == Append(s, record, s'.tasks) && Local(s, s', i)
    requires record.session == s.session && (record.Finalized? ==> record.item == i && !HasRecord(s.disk, s.session, i))
    requires i in s'.tasks ==> TaskOk(h, s', i)
    requires ServingOk(s', i)
    ensures Inv(h, s')
  {
    hide Kept, TaskOk, EvidenceOk, CodeOk;
    OtherTasksKeep(h, s, s', i);
    OtherIntentsKeep(h, s, s', i);
    EvidenceStays(h, s.disk, s'.disk, i);
    AppendKeptStays(h, s, s', i);
    OtherServingKeeps(s, s', i, record);
    OnceKeeps(s, s', i, record);
    GroundedStays(s, s', i);
  }

  lemma {:induction false} AppendKeptStays(h: Hash, s: State, s': State, i: Url)
    requires Grounded(s) && Separate(s) && Local(s, s', i) && s'.disk.files == s.disk.files && Kept(h, s)
    ensures Kept(h, s') && Separate(s')
  {
    forall n, d | d in s.validated && Owns(i, n) && Witness(h, s, n, d) ensures exists m :: Witness(h, s', m, d) {
      assert Witness(h, s', n, d);
    }
    KeptStays(h, s, s', i);
  }

  lemma {:induction false} OtherServingKeeps(s: State, s': State, i: Url, record: Record)
    requires Local(s, s', i) && s'.disk.records == s.disk.records + [record]
    requires record.Finalized? ==> record.item == i
    requires forall j | j in s.disk.rows :: ServingOk(s, j)
    ensures forall j | j in s.disk.rows && j != i :: ServingOk(s', j)
  {
    forall j | j in s.disk.rows && j != i && HasRecord(s'.disk, s.session, j) ensures HasRecord(s.disk, s.session, j) {
      var k :| 0 <= k < |s'.disk.records| && Names(s'.disk.records[k], s.session, j);
      assert s.disk.records[k] == s'.disk.records[k];
    }
    assert forall j | j in s.disk.rows && j != i :: ServingOk(s, j) ==> ServingOk(s', j);
  }

  lemma {:induction false} OnceKeeps(s: State, s': State, i: Url, record: Record)
    requires OnceEach(s) && s'.session == s.session && s'.disk.records == s.disk.records + [record]
    requires record.session == s.session && (record.Finalized? ==> record.item == i && !HasRecord(s.disk, s.session, i))
    ensures OnceEach(s')
  {
    forall k, l | 0 <= k < l < |s'.disk.records| && s'.disk.records[k].Finalized? && s'.disk.records[l].Finalized?
                  && s'.disk.records[k].session == s'.disk.records[l].session
      ensures s'.disk.records[k].item != s'.disk.records[l].item
    {
      assert s'.disk.records[k] == s.disk.records[k];
      if l == |s.disk.records| && s'.disk.records[k].item == i {
        assert Names(s.disk.records[k], s.session, i);
      }
    }
  }
}
