/** The commits of one serving controller on its selected rows: the revision that they raise and
    the changes that they hand to the telemetry projection. */
module RunLedger {
  import opened Prelude
  import opened Database

  datatype Bucket =
    | QueuedItems | BusyItems | RetryItems | ExhaustedItems | CompleteItems | UnverifiedItems
    | ReviewItems | UnavailableItems | ExcludedItems | UnknownItems

  function DisplayBucket(status: Status, attempts: nat, maxAttempts: nat): Bucket {
    match status
    case Complete => CompleteItems
    case Active => BusyItems
    case Admitted => BusyItems
    case Promoting => BusyItems
    case RetryWait => if maxAttempts > 0 && attempts >= maxAttempts then ExhaustedItems else RetryItems
    case Failed => if maxAttempts > 0 && attempts >= maxAttempts then ExhaustedItems else RetryItems
    case ExistingUnverified => UnverifiedItems
    case ReviewRequired => ReviewItems
    case Unavailable => UnavailableItems
    case Excluded => ExcludedItems
    case Queued => QueuedItems
    case Running => UnknownItems
  }

  // The columns that the projection reads.
  datatype Facts = Facts(status: Status, attempts: nat, bytes: Option<nat>, nextRetryAt: real, lastError: Option<Failure>)

  function FactsOf(row: Row): Facts {
    Facts(row.status, row.attempts, row.bytes, row.nextRetryAt, row.lastError)
  }

  function BucketOf(facts: Facts, maxAttempts: nat): Bucket {
    DisplayBucket(facts.status, facts.attempts, maxAttempts)
  }

  // ------------------------------------------------------------ the database of a run

  datatype Reply = Reply(changed: nat, revision: nat)

  // `selected` lists the run items by queue rank.
  datatype Ledger = Ledger(rows: map<Url, Row>, selected: seq<Url>, revision: nat, requests: map<string, Reply>)

  predicate WellFormed(l: Ledger) {
    Distinct(l.selected) && forall k | 0 <= k < |l.selected| :: l.selected[k] in l.rows
  }

  datatype Commit =
    // transition: any new values of one selected row
    | Transition(item: Url, row: Row)
    // claim_recheck: no revision, no audit row
    | Claim(item: Url, recheckAt: Option<real>, early: nat)
    // a confirmed action on the listed items, or on every selected item
    | Control(id: string, action: ItemAction, items: Option<seq<Url>>)
    // a confirmed action on the controller itself
    | Audit(id: string)

  predicate Allowed(l: Ledger, c: Commit) {
    match c
    case Transition(i, _) => i in l.selected
    case Claim(i, _, _) => i in l.selected
    case Control(_, action, items) => if items.None? then action.RetryNow? else |items.value| > 0
    case Audit(_) => true
  }

  predicate Replayed(l: Ledger, c: Commit) {
    (c.Control? || c.Audit?) && c.id in l.requests
  }

  predicate Touches(l: Ledger, action: ItemAction, i: Url) {
    i in l.selected && i in l.rows && Eligible(action, l.rows[i])
  }

  // The rows that a control action changes, in the order of its request.
  function ChangedItems(l: Ledger, action: ItemAction, items: seq<Url>): (changed: seq<Url>)
    ensures forall k | 0 <= k < |changed| :: changed[k] in items && Touches(l, action, changed[k])
  {
    if items == [] then []
    else
      var front, last := ChangedItems(l, action, items[..|items| - 1]), items[|items| - 1];
      if Touches(l, action, last) then front + [last] else front
  }

  function Among(items: seq<Url>, wanted: seq<Url>): (found: seq<Url>)
    ensures forall k | 0 <= k < |found| :: found[k] in items && found[k] in wanted
    ensures Distinct(items) ==> Distinct(found)
  {
    if items == [] then []
    else
      var front, last := Among(items[..|items| - 1], wanted), items[|items| - 1];
      if last in wanted then front + [last] else front
  }

  // Retry now walks the selected rows, the other actions walk their request.
  function Requested(l: Ledger, c: Commit): seq<Url>
    requires c.Control?
  {
    if c.items.None? then l.selected
    else if c.action.RetryNow? then Among(l.selected, c.items.value)
    else c.items.value
  }

  function Committed(l: Ledger, c: Commit): Ledger
    requires WellFormed(l) && Allowed(l, c)
  {
    if Replayed(l, c) then l
    else
      match c
      case Transition(i, row) => l.(rows := l.rows[i := row], revision := l.revision + 1)
      case Claim(i, recheckAt, early) => l.(rows := l.rows[i := l.rows[i].(recheckAt := recheckAt, early := early)])
      case Control(id, action, _) =>
        var changed := ChangedItems(l, action, Requested(l, c));
        l.(rows := ReviseAll(action, l.rows, set i | i in changed), revision := l.revision + 1,
           requests := l.requests[id := Reply(|changed|, l.revision + 1)])
      case Audit(id) => l.(revision := l.revision + 1, requests := l.requests[id := Reply(0, l.revision + 1)])
  }

  // ------------------------------------------------------------ what the projection is told

  datatype Change =
    | Applied(item: Url, before: Facts, after: Facts, revision: nat)
    | Revised(revision: nat)

  // The postimage is computed from the preimage; the row is not read again.
  function Postimage(action: ItemAction, facts: Facts): Facts {
    match action
    case RetryNow => facts.(nextRetryAt := 0.0)
    case ExcludeItem => facts.(status := Excluded)
    case ResumeNewGeneration => facts.(status := Queued, nextRetryAt := 0.0, lastError := None)
    case RetryAccessDenied => facts.(status := Queued, nextRetryAt := 0.0, lastError := None)
    case SetItemPriority(_) => facts
    case SetRetryCooldown(deadline) => facts.(nextRetryAt := deadline)
  }

  function ItemChanges(l: Ledger, action: ItemAction, changed: seq<Url>): (changes: seq<Change>)
    requires forall k | 0 <= k < |changed| :: changed[k] in l.rows
    ensures |changes| == |changed|
  {
    seq(|changed|, k requires 0 <= k < |changed| =>
      var facts := FactsOf(l.rows[changed[k]]);
      Applied(changed[k], facts, Postimage(action, facts), l.revision + 1))
  }

  function Changes(l: Ledger, c: Commit): seq<Change>
    requires WellFormed(l) && Allowed(l, c)
  {
    if Replayed(l, c) then []
    else
      match c
      case Transition(i, row) => [Applied(i, FactsOf(l.rows[i]), FactsOf(row), l.revision + 1)]
      case Claim(_, _, _) => []
      case Control(_, action, _) =>
        var changed := ChangedItems(l, action, Requested(l, c));
        if action.SetItemPriority? || changed == [] then [Revised(l.revision + 1)]
        else ItemChanges(l, action, changed)
      case Audit(_) => [Revised(l.revision + 1)]
  }

  // ------------------------------------------------------------ runs of commits

  ghost predicate History(ledgers: seq<Ledger>, commits: seq<Commit>) {
    && |ledgers| == |commits| + 1
    && forall k | 0 <= k < |commits| :: Commits(ledgers[k], commits[k], ledgers[k + 1])
  }

  ghost predicate Commits(l: Ledger, c: Commit, l': Ledger) {
    WellFormed(l) && Allowed(l, c) && l' == Committed(l, c)
  }

  lemma {:induction false} ChangedAreListed(l: Ledger, action: ItemAction, items: seq<Url>, i: Url)
    ensures i in ChangedItems(l, action, items) <==> i in items && Touches(l, action, i)
  {
    if items != [] {
      var front := items[..|items| - 1];
      ChangedAreListed(l, action, front, i);
      assert items == front + [items[|items| - 1]];
    }
  }

  lemma {:induction false} CommitKeepsValid(l: Ledger, c: Commit)
    requires WellFormed(l) && Allowed(l, c)
    ensures WellFormed(Committed(l, c)) && Committed(l, c).selected == l.selected
  {
  }

  lemma {:induction false} HistoryStep(ledgers: seq<Ledger>, commits: seq<Commit>, k: nat)
    requires History(ledgers, commits) && k < |commits|
    ensures Commits(ledgers[k], commits[k], ledgers[k + 1])
  {
  }

  // ------------------------------------------------------------ the revision guards the listing

  // Everything that a queue page shows or filters by.
  function Listed(row: Row): Row {
    row.(recheckAt := None, early := 0)
  }

  predicate SameListing(l: Ledger, l': Ledger) {
    l'.selected == l.selected && forall i | i in l.selected && i in l.rows :: i in l'.rows && Listed(l'.rows[i]) == Listed(l.rows[i])
  }

  lemma {:induction false} CommitGuards(l: Ledger, c: Commit)
    requires WellFormed(l) && Allowed(l, c)
    ensures l.revision <= Committed(l, c).revision
    ensures Committed(l, c).revision == l.revision ==> SameListing(l, Committed(l, c))
    ensures Committed(l, c).selected == l.selected && l.rows.Keys == Committed(l, c).rows.Keys
  {
  }

  // Two states of one session with equal revisions list the same rows.
  lemma {:induction false} RevisionGuardsListing(ledgers: seq<Ledger>, commits: seq<Commit>, a: nat, b: nat)
    requires History(ledgers, commits) && a <= b < |ledgers|
    ensures ledgers[a].revision <= ledgers[b].revision
    ensures ledgers[b].selected == ledgers[a].selected && ledgers[b].rows.Keys == ledgers[a].rows.Keys
    ensures ledgers[a].revision == ledgers[b].revision ==> SameListing(ledgers[a], ledgers[b])
  {
    hide Committed, Listed;
    if a < b {
      RevisionGuardsListing(ledgers, commits, a, b - 1);
      HistoryStep(ledgers, commits, b - 1);
      CommitGuards(ledgers[b - 1], commits[b - 1]);
    }
  }

  // ------------------------------------------------------------ at most one change for a request

  lemma {:induction false} RequestIsRemembered(l: Ledger, c: Commit, id: string)
    requires WellFormed(l) && Allowed(l, c) && (id in l.requests || ((c.Control? || c.Audit?) && c.id == id))
    ensures id in Committed(l, c).requests
    ensures id in l.requests ==> Committed(l, c).requests[id] == l.requests[id]
  {
  }

  lemma {:induction false} RequestStays(ledgers: seq<Ledger>, commits: seq<Commit>, a: nat, b: nat, id: string)
    requires History(ledgers, commits) && a <= b < |ledgers| && id in ledgers[a].requests
    ensures id in ledgers[b].requests && ledgers[b].requests[id] == ledgers[a].requests[id]
  {
    hide Committed;
    if a < b {
      RequestStays(ledgers, commits, a, b - 1, id);
      HistoryStep(ledgers, commits, b - 1);
      RequestIsRemembered(ledgers[b - 1], commits[b - 1], id);
    }
  }

  // Whatever a client repeats, a request ID changes the database once, and every repetition is
  // answered with the first reply.
  lemma {:induction false} RequestChangesOnce(ledgers: seq<Ledger>, commits: seq<Commit>, a: nat, b: nat)
    requires History(ledgers, commits) && a < b < |commits|
    requires (commits[a].Control? || commits[a].Audit?) && (commits[b].Control? || commits[b].Audit?)
    requires commits[a].id == commits[b].id
    ensures ledgers[b + 1] == ledgers[b]
    ensures var id := commits[a].id;
            id in ledgers[a + 1].requests && id in ledgers[b].requests
            && ledgers[b].requests[id] == ledgers[a + 1].requests[id]
  {
    HistoryStep(ledgers, commits, a);
    RequestIsRemembered(ledgers[a], commits[a], commits[a].id);
    RequestStays(ledgers, commits, a + 1, b, commits[a].id);
    HistoryStep(ledgers, commits, b);
  }
}
