/** The promotion protocol as a transition system. Every step is one SQL commit, one
    file-system call, one appended record, one engine action or one crash. */
module Promotion {
  import opened Prelude
  import opened Database
  import opened FileSystem

  type Hash = Bytes -> Digest

  const DAY := 86400.0

  // ------------------------------------------------------------ durable state

  datatype Reason = ValidationFailed | DestinationCollision | RecoveryReview

  datatype Record =
    | Finalized(session: nat, item: Url, path: Path, digest: Digest, size: nat)
    | CandidateCreated(session: nat, item: Url, candidate: Name, measured: Option<Digest>, reason: Reason)

  // `runs` maps a run ID to its selected set, which is fixed once the run serves.
  datatype Disk = Disk(files: Files, rows: map<Url, Row>, runs: map<string, set<Url>>, records: seq<Record>)

  // ------------------------------------------------------------ volatile state

  datatype Observed = Observed(etag: Option<string>, lastModified: Option<string>)

  // Why a staged file moves to the review candidates.
  datatype Why =
    | Stalled(failure: Failure)
    | WrongChecksum(digest: Digest)
    | WrongSize(digest: Digest)
    | Collision(digest: Digest)
    | Doubtful(code: ReviewCode, observed: Observed)

  // The program counter of one `transfer` or `recheck_unavailable` call; `before` is the
  // attempt count that was read at selection.
  datatype Pc =
    | Chosen(before: nat) | Waiting(before: nat) | Ready(before: nat)
    | Downloading(before: nat) | Exited(before: nat, ok: bool, failure: Failure)
    | Hashed(digest: Digest) | Intended(digest: Digest) | Linked(digest: Digest)
    | Recorded(digest: Digest) | Completed | Unlinked
    | Moving(why: Why) | MoveLinked(why: Why, serial: nat) | MoveUnlinked(why: Why, serial: nat)
    | MoveDone(why: Why, serial: nat) | MoveRecorded(why: Why, serial: nat)
    | Rechecking

  datatype Phase = Down | Starting(run: string) | Serving(run: string)

  // `validated` is a history variable: every digest that a validation committed.
  datatype State = State(disk: Disk, session: nat, phase: Phase, tasks: map<Url, Pc>, validated: set<Digest>)

  // ------------------------------------------------------------ steps

  datatype AdmissionStep =
    | Choose | Admit | FindExisting | Reserve | Doubt(seen: Option<Observed>) | Activate(seen: Option<Observed>)

  datatype EngineStep =
    | EngineCreate(inode: nat, bytes: Bytes) | EngineWrite(bytes: Bytes) | EngineControl(present: bool)
    | EngineExit(ok: bool, failure: Failure)

  datatype JudgeStep =
    | Stall | Fail(now: real, stopped: bool) | HashStaging | ReviewChecksum | ReviewSize(size: nat)
    | Intend(announced: Option<nat>) | ParentError(failure: Failure)

  datatype PromoteStep =
    | LinkFinal | FindCollision | LinkError(failure: Failure)
    | RecordFinal | CommitComplete | UnlinkStaging | CommitCleanup

  datatype MoveStep =
    | MoveLink(serial: nat) | MoveUnlink | MoveControlFile | MoveRecord | MoveCommit

  datatype RecheckStep =
    | ClaimRecheck(now: real) | RecheckFail | RecheckDoubt(answer: Observed) | RecheckReturn(answer: Observed)

  datatype TaskStep =
    | Admission(admission: AdmissionStep) | Engine(engine: EngineStep) | Judge(judge: JudgeStep)
    | Promote(promote: PromoteStep) | Move(move: MoveStep) | Recheck(recheck: RecheckStep)

  datatype RecoveryStep =
    | Relink | RecordPromotion | CompletePromotion(remediated: bool) | RemoveStaging | RecordCleanup
    | ReviewPromotion(code: Option<ReviewCode>, failure: Failure, remediated: bool)
    | IntendRemediation(mapped: Path) | GiveUpRemediation(failure: Failure)
    | AcceptUnverified | ReviewUnreadable(failure: Failure) | ReviewMismatch | RecordExisting | CompleteExisting

  datatype Step =
    | Task(item: Url, task: TaskStep)
    | Operate(action: ItemAction, items: set<Url>)
    | Foreign(path: Path, inode: nat, bytes: Bytes)
    | Crash
    | Start(run: string)
    | Import(url: Url, row: Row)
    | Recover(item: Url, recovery: RecoveryStep)
    | Requeue
    | Scope(selection: set<Url>)
    | Open

  // ------------------------------------------------------------ decisions in the source

  predicate Present(o: Option<string>) {
    o.Some? && o.value != ""
  }

  datatype Decision = ConfirmedUnchanged | Changed | Unconfirmed

  function ClassifyRepresentation(etag: Option<string>, lastModified: Option<string>, seen: Observed): Decision {
    if Present(etag) && Present(seen.etag) then
      if etag == seen.etag then ConfirmedUnchanged else Changed
    else if !Present(etag) && Present(lastModified) && Present(seen.lastModified)
            && lastModified != seen.lastModified then Changed
    else Unconfirmed
  }

  function CheckRepresentation(row: Row, seen: Option<Observed>): Decision {
    if seen.None? then Unconfirmed else ClassifyRepresentation(row.etag, row.lastModified, seen.value)
  }

  function DoubtCode(decision: Decision): ReviewCode {
    if decision.Changed? then ChangedRepresentation else NoVersionProtection
  }

  function StagedSize(files: Files, i: Url): nat
    requires files.Valid()
  {
    if Staging(i) in files.names then |files.Content(Staging(i))| else 0
  }

  // A resume is gated only when a baseline validator exists and no checksum protects it.
  predicate Gated(files: Files, i: Url, row: Row)
    requires files.Valid()
  {
    StagedSize(files, i) > 0 && row.expected.None? && (Present(row.etag) || Present(row.lastModified))
  }

  // The engine failed, left no file, or left its control file.
  predicate Broken(files: Files, i: Url, ok: bool) {
    !ok || Staging(i) !in files.names || Staging(i) in files.controls
  }

  predicate MakesNoProgress(files: Files, i: Url, row: Row, failure: Failure)
    requires files.Valid()
  {
    && StagedSize(files, i) > 0 && failure.incompleteBody
    && row.lastError.Some? && row.lastError.value.incompleteBody
    && row.bytes.Some? && StagedSize(files, i) <= row.bytes.value
  }

  function RetryDelay(attempts: nat): real {
    if attempts == 0 then 60.0 else if attempts == 1 then 120.0 else if attempts == 2 then 240.0 else 300.0
  }

  predicate ExpectedMatches(row: Row, digest: Digest) {
    row.expected.None? || row.expected == Some(digest)
  }

  // ------------------------------------------------------------ row changes

  function ActiveRow(files: Files, i: Url, row: Row, before: nat, seen: Option<Observed>): Row
    requires files.Valid()
  {
    var baseline := StagedSize(files, i) == 0 && row.expected.None? && seen.Some?;
    row.(status := Active, attempts := before + 1,
         generation := if row.generation.None? then Some(1) else row.generation,
         etag := if baseline then seen.value.etag else row.etag,
         lastModified := if baseline then seen.value.lastModified else row.lastModified)
  }

  function FailedRow(row: Row, before: nat, size: nat, failure: Failure, now: real, stopped: bool): Row {
    if failure.diskFull then
      row.(status := Queued, attempts := before, bytes := Some(size), lastError := Some(failure), nextRetryAt := 0.0)
    else if failure.denied then
      row.(status := ReviewRequired, bytes := Some(size), lastError := Some(failure), code := AccessDenied)
    else if failure.gone then
      row.(status := Unavailable, bytes := Some(size), lastError := Some(failure),
           recheckAt := Some(now + DAY), early := 0)
    else
      row.(status := RetryWait, bytes := Some(size), lastError := Some(failure),
           nextRetryAt := now + if stopped then 0.0 else RetryDelay(before))
  }

  function Note(text: string): Failure {
    Failure(text, false, false, false, false, false)
  }

  function ErrorCode(failure: Failure): ReviewCode {
    if failure.nameTooLong then NameTooLong else NoCode
  }

  function CandidateRow(row: Row, why: Why, size: nat): Row {
    match why
    case Stalled(failure) => row.(status := ReviewRequired, bytes := Some(size), lastError := Some(failure))
    case WrongChecksum(d) =>
      row.(status := ReviewRequired, sha256 := Some(d), bytes := Some(size),
           lastError := Some(Note("checksum mismatch")), code := ChecksumMismatch)
    case WrongSize(d) =>
      row.(status := ReviewRequired, sha256 := Some(d), bytes := Some(size),
           lastError := Some(Note("size mismatch")), code := SizeMismatch)
    case Collision(d) => row.(status := ReviewRequired, bytes := Some(size), target := Some(row.stored))
    case Doubtful(code, observed) =>
      row.(status := ReviewRequired, bytes := None, lastError := Some(Note("representation in doubt")),
           code := code, etag := observed.etag, lastModified := observed.lastModified, recheckAt := None)
  }

  function CandidateRecord(session: nat, i: Url, why: Why, serial: nat): Record {
    var digest :=
      match why
      case WrongChecksum(d) => Some(d)
      case WrongSize(d) => Some(d)
      case Collision(d) => Some(d)
      case _ => None;
    var reason :=
      match why
      case Collision(_) => DestinationCollision
      case Doubtful(_, _) => RecoveryReview
      case _ => ValidationFailed;
    CandidateCreated(session, i, Candidate(i, serial), digest, reason)
  }

  // A claim of a pending early recheck marks it spent (2); any other claim clears the mark.
  function ClaimedRow(row: Row, now: real): Row {
    var due := if row.recheckAt.Some? then row.recheckAt.value else 0.0;
    row.(early := if row.early == 1 && due > now then 2 else 0, recheckAt := Some(now + DAY))
  }

  function RequeueRows(rows: map<Url, Row>, selected: set<Url>): map<Url, Row> {
    map i | i in rows ::
      if i in selected && (rows[i].status.Active? || rows[i].status.Running? || rows[i].status.Admitted?)
      then rows[i].(status := Queued, nextRetryAt := 0.0) else rows[i]
  }

  // ------------------------------------------------------------ state helpers

  predicate HasRecord(disk: Disk, session: nat, i: Url) {
    exists k :: 0 <= k < |disk.records| && Names(disk.records[k], session, i)
  }

  predicate Names(record: Record, session: nat, i: Url) {
    record.Finalized? && record.session == session && record.item == i
  }

  predicate Announced(disk: Disk, session: nat, i: Url, path: Path, digest: Digest) {
    exists k :: 0 <= k < |disk.records| && Announces(disk.records[k], session, i, path, digest)
  }

  predicate Announces(record: Record, session: nat, i: Url, path: Path, digest: Digest) {
    record.Finalized? && record.session == session && record.item == i && record.path == path && record.digest == digest
  }

  // The final at `path` has the given digest.
  predicate FinalMatches(h: Hash, disk: Disk, path: Path, digest: Digest)
    requires disk.files.Valid()
  {
    Final(path) in disk.files.names && h(disk.files.Content(Final(path))) == digest
  }

  predicate Tracked(status: Status) {
    status.Complete? || status.ExistingUnverified? || status.ReviewRequired?
    || status.Excluded? || status.Unavailable?
  }

  function Commit(s: State, i: Url, row: Row, tasks: map<Url, Pc>): State {
    s.(disk := s.disk.(rows := s.disk.rows[i := row]), tasks := tasks)
  }

  function WithFiles(s: State, files: Files, tasks: map<Url, Pc>): State {
    s.(disk := s.disk.(files := files), tasks := tasks)
  }

  function Append(s: State, record: Record, tasks: map<Url, Pc>): State {
    s.(disk := s.disk.(records := s.disk.records + [record]), tasks := tasks)
  }

  function Selected(s: State): set<Url> {
    if !s.phase.Down? && s.phase.run in s.disk.runs then s.disk.runs[s.phase.run] else {}
  }

  // ------------------------------------------------------------ transfer and recheck steps

  predicate AdmissionEnabled(s: State, i: Url, t: AdmissionStep)
    requires s.disk.files.Valid() && i in s.disk.rows
  {
    var files, row := s.disk.files, s.disk.rows[i];
    && (t.Choose? || i in s.tasks)
    && match t
       case Choose =>
         i in Selected(s) && Pending(row.status) && forall j | j in s.tasks :: !s.tasks[j].Chosen?
       case Admit => s.tasks[i].Chosen?
       case FindExisting => s.tasks[i].Waiting? && Final(row.stored) in files.names
       case Reserve => s.tasks[i].Waiting? && Final(row.stored) !in files.names
       case Doubt(seen) =>
         s.tasks[i].Ready? && Gated(files, i, row) && !CheckRepresentation(row, seen).ConfirmedUnchanged?
       case Activate(seen) =>
         s.tasks[i].Ready? && (Gated(files, i, row) ==> CheckRepresentation(row, seen).ConfirmedUnchanged?)
  }

  function AdmissionApply(s: State, i: Url, t: AdmissionStep): State
    requires s.disk.files.Valid() && i in s.disk.rows && AdmissionEnabled(s, i, t)
  {
    var files, row := s.disk.files, s.disk.rows[i];
    match t
    case Choose => s.(tasks := s.tasks[i := Chosen(row.attempts)])
    case Admit => Commit(s, i, row.(status := Admitted), s.tasks[i := Waiting(s.tasks[i].before)])
    case FindExisting =>
      Commit(s, i, row.(status := ExistingUnverified, bytes := Some(|files.Content(Final(row.stored))|)), s.tasks - {i})
    case Reserve => s.(tasks := s.tasks[i := Ready(s.tasks[i].before)])
    case Doubt(seen) =>
      s.(tasks := s.tasks[i := Moving(Doubtful(DoubtCode(CheckRepresentation(row, seen)),
                                              if seen.Some? then seen.value else Observed(None, None)))])
    case Activate(seen) =>
      Commit(s, i, ActiveRow(files, i, row, s.tasks[i].before, seen), s.tasks[i := Downloading(s.tasks[i].before)])
  }

  predicate EngineEnabled(s: State, i: Url, t: EngineStep) {
    && i in s.tasks && s.tasks[i].Downloading?
    && match t
       case EngineCreate(inode, _) => Staging(i) !in s.disk.files.names && inode !in s.disk.files.data
       case EngineWrite(_) => Staging(i) in s.disk.files.names
       case EngineControl(_) => true
       case EngineExit(_, _) => true
  }

  // The engine may write any bytes to its staging file, not only append.
  function EngineApply(s: State, i: Url, t: EngineStep): State
    requires EngineEnabled(s, i, t)
  {
    var files := s.disk.files;
    match t
    case EngineCreate(inode, bytes) => WithFiles(s, files.Create(Staging(i), inode, bytes), s.tasks)
    case EngineWrite(bytes) => WithFiles(s, files.Write(Staging(i), bytes), s.tasks)
    case EngineControl(present) =>
      WithFiles(s, files.(controls := if present then files.controls + {Staging(i)} else files.controls - {Staging(i)}),
                s.tasks)
    case EngineExit(ok, failure) => s.(tasks := s.tasks[i := Exited(s.tasks[i].before, ok, failure)])
  }

  predicate JudgeEnabled(s: State, i: Url, t: JudgeStep)
    requires s.disk.files.Valid() && i in s.disk.rows
  {
    && i in s.tasks
    && var files, row, pc := s.disk.files, s.disk.rows[i], s.tasks[i];
    match t
    case Stall => pc.Exited? && Broken(files, i, pc.ok) && MakesNoProgress(files, i, row, pc.failure)
    case Fail(_, _) => pc.Exited? && Broken(files, i, pc.ok) && !MakesNoProgress(files, i, row, pc.failure)
    case HashStaging => pc.Exited? && !Broken(files, i, pc.ok)
    case ReviewChecksum => pc.Hashed? && !ExpectedMatches(row, pc.digest)
    case ReviewSize(size) => pc.Hashed? && ExpectedMatches(row, pc.digest) && size != StagedSize(files, i)
    case Intend(announced) =>
      pc.Hashed? && ExpectedMatches(row, pc.digest) && (announced.Some? ==> announced.value == StagedSize(files, i))
    case ParentError(_) => pc.Hashed? && ExpectedMatches(row, pc.digest)
  }

  function JudgeApply(h: Hash, s: State, i: Url, t: JudgeStep): State
    requires s.disk.files.Valid() && i in s.disk.rows && JudgeEnabled(s, i, t)
  {
    var files, row, pc := s.disk.files, s.disk.rows[i], s.tasks[i];
    match t
    case Stall => s.(tasks := s.tasks[i := Moving(Stalled(pc.failure))])
    case Fail(now, stopped) =>
      Commit(s, i, FailedRow(row, pc.before, StagedSize(files, i), pc.failure, now, stopped), s.tasks - {i})
    case HashStaging => s.(tasks := s.tasks[i := Hashed(h(files.Content(Staging(i))))])
    case ReviewChecksum => s.(tasks := s.tasks[i := Moving(WrongChecksum(pc.digest))])
    case ReviewSize(_) => s.(tasks := s.tasks[i := Moving(WrongSize(pc.digest))])
    case Intend(_) =>
      Commit(s, i, row.(status := Promoting, sha256 := Some(pc.digest), bytes := Some(StagedSize(files, i)),
                        target := Some(row.stored)), s.tasks[i := Intended(pc.digest)])
      .(validated := s.validated + {pc.digest})
    case ParentError(failure) =>
      Commit(s, i, row.(status := ReviewRequired, sha256 := Some(pc.digest), bytes := Some(StagedSize(files, i)),
                        lastError := Some(failure), code := ErrorCode(failure)), s.tasks - {i})
      .(validated := s.validated + {pc.digest})
  }

  predicate PromoteEnabled(s: State, i: Url, t: PromoteStep)
    requires i in s.disk.rows
  {
    && i in s.tasks
    && var names, row, pc := s.disk.files.names, s.disk.rows[i], s.tasks[i];
    match t
    case LinkFinal => pc.Intended? && Final(row.stored) !in names
    case FindCollision => pc.Intended? && Final(row.stored) in names
    case LinkError(_) => pc.Intended?
    case RecordFinal => pc.Linked?
    case CommitComplete => pc.Recorded?
    case UnlinkStaging => pc.Completed?
    case CommitCleanup => pc.Unlinked?
  }

  function PromoteApply(s: State, i: Url, t: PromoteStep): State
    requires s.disk.files.Valid() && i in s.disk.rows && PromoteEnabled(s, i, t) && Placed(s.disk, i, s.tasks[i])
  {
    var files, row, pc := s.disk.files, s.disk.rows[i], s.tasks[i];
    match t
    case LinkFinal => WithFiles(s, files.Link(Staging(i), Final(row.stored)), s.tasks[i := Linked(pc.digest)])
    case FindCollision => s.(tasks := s.tasks[i := Moving(Collision(pc.digest))])
    case LinkError(failure) =>
      Commit(s, i, row.(status := ReviewRequired, sha256 := Some(pc.digest), bytes := Some(StagedSize(files, i)),
                        lastError := Some(failure), target := Some(row.stored), code := ErrorCode(failure)), s.tasks - {i})
    case RecordFinal =>
      Append(s, Finalized(s.session, i, row.stored, pc.digest, |files.Content(Final(row.stored))|),
             s.tasks[i := Recorded(pc.digest)])
    case CommitComplete =>
      Commit(s, i, row.(status := Complete, sha256 := Some(pc.digest),
                        bytes := Some(|files.Content(Final(row.stored))|)), s.tasks[i := Completed])
    case UnlinkStaging => WithFiles(s, files.Unlink(Staging(i)), s.tasks[i := Unlinked])
    case CommitCleanup => Commit(s, i, row.(status := Complete, cleaned := true), s.tasks - {i})
  }

  predicate MoveEnabled(s: State, i: Url, t: MoveStep)
    requires i in s.disk.rows
  {
    && i in s.tasks
    && match t
       case MoveLink(serial) => s.tasks[i].Moving? && Candidate(i, serial) !in s.disk.files.names
       case MoveUnlink => s.tasks[i].MoveLinked?
       case MoveControlFile => s.tasks[i].MoveUnlinked?
       case MoveRecord => s.tasks[i].MoveDone?
       case MoveCommit => s.tasks[i].MoveRecorded?
  }

  function MoveApply(s: State, i: Url, t: MoveStep): State
    requires s.disk.files.Valid() && i in s.disk.rows && MoveEnabled(s, i, t) && Placed(s.disk, i, s.tasks[i])
  {
    var files, row, pc := s.disk.files, s.disk.rows[i], s.tasks[i];
    match t
    case MoveLink(serial) =>
      WithFiles(s, files.Link(Staging(i), Candidate(i, serial)), s.tasks[i := MoveLinked(pc.why, serial)])
    case MoveUnlink => WithFiles(s, files.Unlink(Staging(i)), s.tasks[i := MoveUnlinked(pc.why, pc.serial)])
    case MoveControlFile =>
      WithFiles(s, files.MoveControl(Staging(i), Candidate(i, pc.serial)), s.tasks[i := MoveDone(pc.why, pc.serial)])
    case MoveRecord =>
      Append(s, CandidateRecord(s.session, i, pc.why, pc.serial), s.tasks[i := MoveRecorded(pc.why, pc.serial)])
    case MoveCommit =>
      Commit(s, i, CandidateRow(row, pc.why, |files.Content(Candidate(i, pc.serial))|), s.tasks - {i})
  }

  // A returning item whose staged bytes nothing protects, with another or an unknown version.
  predicate Doubted(files: Files, i: Url, row: Row, answer: Observed)
    requires files.Valid()
  {
    row.generation.Some? && StagedSize(files, i) > 0 && row.expected.None?
    && !ClassifyRepresentation(row.etag, row.lastModified, answer).ConfirmedUnchanged?
  }

  predicate RecheckEnabled(s: State, i: Url, t: RecheckStep)
    requires s.disk.files.Valid() && i in s.disk.rows
  {
    var files, row := s.disk.files, s.disk.rows[i];
    && (if t.ClaimRecheck? then i !in s.tasks else i in s.tasks && s.tasks[i].Rechecking?)
    && match t
       // one recheck of an item ends before the next daily claim is due
       case ClaimRecheck(now) =>
         i in Selected(s) && row.status.Unavailable?
         && (row.early == 1 || row.recheckAt.None? || row.recheckAt.value <= now)
       case RecheckFail => true
       case RecheckDoubt(answer) => Doubted(files, i, row, answer)
       case RecheckReturn(answer) => !Doubted(files, i, row, answer)
  }

  function RecheckApply(s: State, i: Url, t: RecheckStep): State
    requires s.disk.files.Valid() && i in s.disk.rows && RecheckEnabled(s, i, t)
  {
    var row := s.disk.rows[i];
    match t
    case ClaimRecheck(now) => Commit(s, i, ClaimedRow(row, now), s.tasks[i := Rechecking])
    case RecheckFail => s.(tasks := s.tasks - {i})
    case RecheckDoubt(answer) =>
      s.(tasks := s.tasks[i := Moving(Doubtful(DoubtCode(ClassifyRepresentation(row.etag, row.lastModified, answer)),
                                              answer))])
    case RecheckReturn(_) => Commit(s, i, row.(status := Queued, nextRetryAt := 0.0, recheckAt := None), s.tasks - {i})
  }

  predicate TaskEnabled(s: State, i: Url, t: TaskStep)
    requires s.disk.files.Valid()
  {
    && s.phase.Serving? && i in s.disk.rows
    && match t
       case Admission(a) => AdmissionEnabled(s, i, a)
       case Engine(e) => EngineEnabled(s, i, e)
       case Judge(j) => JudgeEnabled(s, i, j)
       case Promote(p) => PromoteEnabled(s, i, p)
       case Move(m) => MoveEnabled(s, i, m)
       case Recheck(r) => RecheckEnabled(s, i, r)
  }

  function TaskApply(h: Hash, s: State, i: Url, t: TaskStep): State
    requires s.disk.files.Valid() && TaskEnabled(s, i, t)
    // the files are where the program counter says they are
    requires i in s.tasks ==> Placed(s.disk, i, s.tasks[i])
  {
    match t
    case Admission(a) => AdmissionApply(s, i, a)
    case Engine(e) => EngineApply(s, i, e)
    case Judge(j) => JudgeApply(h, s, i, j)
    case Promote(p) => PromoteApply(s, i, p)
    case Move(m) => MoveApply(s, i, m)
    case Recheck(r) => RecheckApply(s, i, r)
  }

  // The names that a task relies on at its program counter.
  predicate Placed(disk: Disk, i: Url, pc: Pc) {
    && i in disk.rows
    && var names, row := disk.files.names, disk.rows[i];
    match pc
    case Hashed(_) => Staging(i) in names
    case Intended(d) => Staging(i) in names
    case Linked(d) => Staging(i) in names && Final(row.stored) in names
    case Recorded(d) => Staging(i) in names && Final(row.stored) in names
    case Completed => Staging(i) in names
    case Moving(_) => Staging(i) in names
    case MoveLinked(_, serial) => Staging(i) in names && Candidate(i, serial) in names
    case MoveUnlinked(_, serial) => Candidate(i, serial) in names
    case MoveDone(_, serial) => Candidate(i, serial) in names
    case MoveRecorded(_, serial) => Candidate(i, serial) in names
    case _ => true
  }

  // ------------------------------------------------------------ recovery steps

  predicate RecoveryEnabled(h: Hash, disk: Disk, session: nat, i: Url, r: RecoveryStep)
    requires disk.files.Valid()
  {
    && i in disk.rows
    && var files, row := disk.files, disk.rows[i];
    // the main thread finishes a record with its completion before anything else
    && (r.CompletePromotion? || r.CompleteExisting? || forall j | j in disk.rows :: Settled(disk, session, j))
    && match r
       case Relink =>
         row.status.Promoting? && row.target.Some? && Final(row.target.value) !in files.names
         && Staging(i) in files.names
       case RecordPromotion =>
         row.status.Promoting? && row.target.Some? && row.sha256.Some?
         && FinalMatches(h, disk, row.target.value, row.sha256.value)
       case CompletePromotion(_) =>
         row.status.Promoting? && row.target.Some? && row.sha256.Some?
         && Announced(disk, session, i, row.stored, row.sha256.value)
         && FinalMatches(h, disk, row.target.value, row.sha256.value)
       case RemoveStaging => row.status.Complete? && Staging(i) in files.names
       case RecordCleanup => row.status.Complete? && Staging(i) !in files.names
       case ReviewPromotion(code, _, _) =>
         row.status.Promoting? && (code.Some? ==> code.value.NoCode? || code.value.NameTooLong?)
       case IntendRemediation(_) =>
         row.status.ReviewRequired? && !row.remediated
         && (row.code.NameTooLong? || (row.lastError.Some? && row.lastError.value.nameTooLong))
         && row.sha256.Some? && Staging(i) in files.names && h(files.Content(Staging(i))) == row.sha256.value
       case GiveUpRemediation(_) => row.status.ReviewRequired? && !row.remediated
       case AcceptUnverified =>
         !Tracked(row.status) && !row.status.Promoting? && row.expected.None? && Final(row.stored) in files.names
       case ReviewUnreadable(_) =>
         !Tracked(row.status) && !row.status.Promoting? && row.expected.Some? && Final(row.stored) in files.names
       case ReviewMismatch =>
         !Tracked(row.status) && !row.status.Promoting? && row.expected.Some? && Final(row.stored) in files.names
         && !FinalMatches(h, disk, row.stored, row.expected.value)
       case RecordExisting =>
         !Tracked(row.status) && !row.status.Promoting? && row.expected.Some?
         && FinalMatches(h, disk, row.stored, row.expected.value)
       case CompleteExisting =>
         !Tracked(row.status) && !row.status.Promoting? && row.expected.Some?
         && Announced(disk, session, i, row.stored, row.expected.value)
         && FinalMatches(h, disk, row.stored, row.expected.value)
  }

  // A finalized record of this session belongs to a completed row.
  predicate Settled(disk: Disk, session: nat, i: Url)
    requires i in disk.rows
  {
    HasRecord(disk, session, i) ==> disk.rows[i].status.Complete?
  }

  function RecoveryApply(h: Hash, disk: Disk, session: nat, i: Url, r: RecoveryStep): Disk
    requires disk.files.Valid() && RecoveryEnabled(h, disk, session, i, r)
  {
    var files, row := disk.files, disk.rows[i];
    match r
    case Relink => disk.(files := files.Link(Staging(i), Final(row.target.value)))
    case RecordPromotion =>
      disk.(records := disk.records + [Finalized(session, i, row.stored, row.sha256.value,
                                                 |files.Content(Final(row.target.value))|)])
    case CompletePromotion(remediated) =>
      disk.(rows := disk.rows[i := row.(status := Complete, remediated := row.remediated || remediated,
                                        bytes := Some(|files.Content(Final(row.target.value))|))])
    case RemoveStaging => disk.(files := files.Unlink(Staging(i)))
    case RecordCleanup => disk.(rows := disk.rows[i := row.(cleaned := true)])
    case ReviewPromotion(code, failure, remediated) =>
      disk.(rows := disk.rows[i := row.(status := ReviewRequired, lastError := Some(failure),
                                        code := if code.Some? then code.value else row.code,
                                        remediated := row.remediated || remediated)])
    case IntendRemediation(mapped) =>
      disk.(rows := disk.rows[i := row.(status := Promoting, stored := mapped, target := Some(mapped),
                                        code := NameTooLong)])
    case GiveUpRemediation(failure) =>
      disk.(rows := disk.rows[i := row.(lastError := Some(failure), remediated := true)])
    case AcceptUnverified =>
      disk.(rows := disk.rows[i := row.(status := ExistingUnverified,
                                        bytes := Some(|files.Content(Final(row.stored))|))])
    case ReviewUnreadable(failure) =>
      disk.(rows := disk.rows[i := row.(status := ReviewRequired, lastError := Some(failure),
                                        code := ErrorCode(failure))])
    case ReviewMismatch =>
      var actual := files.Content(Final(row.stored));
      disk.(rows := disk.rows[i := row.(status := ReviewRequired, sha256 := Some(h(actual)), bytes := Some(|actual|),
                                        lastError := Some(Note("checksum mismatch")), code := ChecksumMismatch)])
    case RecordExisting =>
      disk.(records := disk.records + [Finalized(session, i, row.stored, row.expected.value,
                                                 |files.Content(Final(row.stored))|)])
    case CompleteExisting =>
      disk.(rows := disk.rows[i := row.(status := Complete, sha256 := row.expected,
                                        bytes := Some(|files.Content(Final(row.stored))|))])
  }

  // ------------------------------------------------------------ all steps

  predicate Enabled(h: Hash, s: State, step: Step)
    requires s.disk.files.Valid()
  {
    match step
    case Task(i, t) => TaskEnabled(s, i, t) && (i in s.tasks ==> Placed(s.disk, i, s.tasks[i]))
    case Operate(_, items) => s.phase.Serving? && items <= Selected(s)
    case Foreign(path, inode, _) => Final(path) !in s.disk.files.names && inode !in s.disk.files.data
    case Crash => true
    case Start(_) => s.phase.Down?
    // a new row, or new queue columns of an existing one
    case Import(url, row) =>
      s.phase.Starting? && (forall j | j in s.disk.rows :: Settled(s.disk, s.session, j))
      && if url !in s.disk.rows then row == NewRow(row.logical, row.stored, row.expected, row.sourceGeneration)
         else row == s.disk.rows[url].(stored := row.stored, expected := row.expected, early := row.early,
                                       sourceGeneration := row.sourceGeneration)
    case Recover(i, r) => s.phase.Starting? && RecoveryEnabled(h, s.disk, s.session, i, r)
    case Requeue => s.phase.Starting? && (forall j | j in s.disk.rows :: Settled(s.disk, s.session, j))
    case Scope(selection) =>
      s.phase.Starting? && Selected(s) <= selection <= s.disk.rows.Keys
    case Open => s.phase.Starting? && (forall j | j in s.disk.rows :: Settled(s.disk, s.session, j))
  }

  function Apply(h: Hash, s: State, step: Step): State
    requires s.disk.files.Valid() && Enabled(h, s, step)
  {
    match step
    case Task(i, t) => TaskApply(h, s, i, t)
    case Operate(action, items) => s.(disk := s.disk.(rows := ReviseAll(action, s.disk.rows, items)))
    case Foreign(path, inode, bytes) =>
      s.(disk := s.disk.(files := s.disk.files.Create(Final(path), inode, bytes)))
    case Crash => s.(phase := Down, tasks := map[])
    case Start(run) => s.(phase := Starting(run), session := s.session + 1)
    case Import(url, row) => s.(disk := s.disk.(rows := s.disk.rows[url := row]))
    case Recover(i, r) => s.(disk := RecoveryApply(h, s.disk, s.session, i, r))
    case Requeue => s.(disk := s.disk.(rows := RequeueRows(s.disk.rows, Selected(s))))
    case Scope(selection) => s.(disk := s.disk.(runs := s.disk.runs[s.phase.run := selection]))
    case Open => s.(phase := Serving(s.phase.run))
  }

  const EmptyDisk := Disk(Files(map[], map[], {}), map[], map[], [])

  const Fresh := State(EmptyDisk, 0, Down, map[], {})

  // The states that some run of the system reaches, with crashes at any step.
  ghost predicate Run(h: Hash, trace: seq<State>, steps: seq<Step>) {
    && |trace| == |steps| + 1
    && forall k | 0 <= k < |steps| ::
         trace[k].disk.files.Valid() && Enabled(h, trace[k], steps[k]) && trace[k + 1] == Apply(h, trace[k], steps[k])
  }
}
