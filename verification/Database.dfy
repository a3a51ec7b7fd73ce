/** The durable manifest: one row of the `downloads` table per URL, and the row
    changes that the confirmed operator actions make. */
module Database {
  import opened Prelude

  type Url = string
  type Path = string
  type Digest = string

  // `Running` is a status that only older controllers wrote.
  datatype Status =
    | Queued | Admitted | Active | Running | Promoting | Complete | RetryWait | Failed
    | ReviewRequired | ExistingUnverified | Unavailable | Excluded

  datatype ReviewCode =
    | NoCode | NameTooLong | ChecksumMismatch | SizeMismatch | AccessDenied
    | ChangedRepresentation | NoVersionProtection

  // An engine or file-system error line, with the classes the controller reads out of its text.
  datatype Failure = Failure(text: string, incompleteBody: bool, diskFull: bool, denied: bool,
                             gone: bool, nameTooLong: bool)

  datatype Row = Row(
    status: Status, attempts: nat, bytes: Option<nat>, sha256: Option<Digest>,
    expected: Option<Digest>, logical: Path, stored: Path, target: Option<Path>, cleaned: bool,
    code: ReviewCode, lastError: Option<Failure>, remediated: bool,
    etag: Option<string>, lastModified: Option<string>, generation: Option<nat>,
    nextRetryAt: real, recheckAt: Option<real>, early: nat, sourceGeneration: Option<string>,
    priority: int)

  // The row that an import creates for a new URL.
  function NewRow(logical: Path, stored: Path, expected: Option<Digest>,
                  sourceGeneration: Option<string>): Row {
    Row(Queued, 0, None, None, expected, logical, stored, None, false, NoCode, None, false,
        None, None, None, 0.0, None, 0, sourceGeneration, 0)
  }

  predicate Pending(status: Status) {
    status.Queued? || status.RetryWait? || status.Failed?
  }

  predicate Excludable(status: Status) {
    Pending(status) || status.Active? || status.Admitted? || status.ReviewRequired? || status.Unavailable?
  }

  predicate RepresentationCode(code: ReviewCode) {
    code.ChangedRepresentation? || code.NoVersionProtection?
  }

  // ------------------------------------------------------------ operator actions on items

  datatype ItemAction =
    | RetryNow
    | ExcludeItem
    | ResumeNewGeneration
    | RetryAccessDenied
    | SetItemPriority(priority: int)
    | SetRetryCooldown(deadline: real)

  predicate Eligible(action: ItemAction, row: Row) {
    match action
    case RetryNow => Pending(row.status)
    case ExcludeItem => Excludable(row.status)
    case ResumeNewGeneration => row.status.ReviewRequired? && RepresentationCode(row.code)
    case RetryAccessDenied => row.status.ReviewRequired? && row.code.AccessDenied?
    case SetItemPriority(_) => Excludable(row.status)
    case SetRetryCooldown(_) => row.status.RetryWait? || row.status.Failed?
  }

  function Revise(action: ItemAction, row: Row): Row {
    match action
    case RetryNow => row.(nextRetryAt := 0.0)
    case ExcludeItem => row.(status := Excluded)
    case ResumeNewGeneration =>
      row.(status := Queued, code := NoCode, lastError := None, etag := None, lastModified := None,
           nextRetryAt := 0.0,
           generation := if row.generation.Some? then Some(row.generation.value + 1) else None)
    case RetryAccessDenied =>
      row.(status := Queued, code := NoCode, lastError := None, nextRetryAt := 0.0)
    case SetItemPriority(priority) => row.(priority := priority)
    case SetRetryCooldown(deadline) => row.(nextRetryAt := deadline)
  }

  // One committed UPDATE: every listed and eligible row changes, every other row stays.
  function ReviseAll(action: ItemAction, rows: map<Url, Row>, items: set<Url>): map<Url, Row> {
    map i | i in rows :: if i in items && Eligible(action, rows[i]) then Revise(action, rows[i]) else rows[i]
  }
}
