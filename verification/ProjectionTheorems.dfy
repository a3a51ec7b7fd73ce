/** The telemetry projection agrees with the database, in any order of application. */
module ProjectionTheorems {
  import opened Prelude
  import opened Database
  import opened RunLedger
  import opened Projection

  // ------------------------------------------------------------ one row changes

  lemma {:induction false} CountChange(rows: map<Url, Row>, items: seq<Url>, m: nat, b: Bucket, i: Url, row: Row)
    requires Distinct(items) && i in rows
    ensures Count(rows[i := row], items, m, b)
            == Count(rows, items, m, b)
               + if i in items then One(BucketOf(FactsOf(row), m) == b) - One(BucketOf(FactsOf(rows[i]), m) == b) else 0
  {
    if items != [] {
      var front, last := items[..|items| - 1], items[|items| - 1];
      assert items == front + [last];
      CountChange(rows, front, m, b, i, row);
    }
  }

  lemma {:induction false} BytesChange(rows: map<Url, Row>, items: seq<Url>, m: nat, i: Url, row: Row)
    requires Distinct(items) && i in rows
    ensures CompleteBytes(rows[i := row], items, m)
            == CompleteBytes(rows, items, m)
               + if i in items then Completed(FactsOf(row), m) - Completed(FactsOf(rows[i]), m) else 0
  {
    if items != [] {
      var front, last := items[..|items| - 1], items[|items| - 1];
      assert items == front + [last];
      BytesChange(rows, front, m, i, row);
    }
  }

  lemma {:induction false} RetriesChange(rows: map<Url, Row>, items: seq<Url>, m: nat, i: Url, row: Row)
    requires i in rows && i in items
    ensures Retries(rows[i := row], items, m) == Recorded(Retries(rows, items, m), i, Entry(FactsOf(row), m))
  {
  }

  // One row of the database and one change of the summary.
  lemma {:induction false} RowChange(l: Ledger, m: nat, i: Url, row: Row, revision: nat)
    requires WellFormed(l) && i in l.selected
    ensures Apply(Scan(l, m), Applied(i, FactsOf(l.rows[i]), FactsOf(row), revision), m)
            == Scan(l.(rows := l.rows[i := row], revision := revision), m)
  {
    var e := Applied(i, FactsOf(l.rows[i]), FactsOf(row), revision);
    var l' := l.(rows := l.rows[i := row], revision := revision);
    forall b: Bucket ensures Apply(Scan(l, m), e, m).counts[b] == Scan(l', m).counts[b] {
      CountChange(l.rows, l.selected, m, b, i, row);
    }
    assert Apply(Scan(l, m), e, m).counts == Scan(l', m).counts;
    BytesChange(l.rows, l.selected, m, i, row);
    RetriesChange(l.rows, l.selected, m, i, row);
  }

  // ------------------------------------------------------------ one commit

  lemma {:induction false} PostimageIsRevision(action: ItemAction, row: Row)
    ensures Postimage(action, FactsOf(row)) == FactsOf(Revise(action, row))
  {
  }

  // The rows after the first `k` changed items.
  function RevisedRows(action: ItemAction, rows: map<Url, Row>, changed: seq<Url>): (rows': map<Url, Row>)
    requires forall k | 0 <= k < |changed| :: changed[k] in rows
    ensures rows'.Keys == rows.Keys
  {
    if changed == [] then rows
    else
      var last := changed[|changed| - 1];
      RevisedRows(action, rows, changed[..|changed| - 1])[last := Revise(action, rows[last])]
  }

  lemma {:induction false} RevisedRowsAre(action: ItemAction, rows: map<Url, Row>, changed: seq<Url>, i: Url)
    requires (forall k | 0 <= k < |changed| :: changed[k] in rows) && i in rows
    ensures RevisedRows(action, rows, changed)[i] == if i in changed then Revise(action, rows[i]) else rows[i]
  {
    if changed != [] {
      var front := changed[..|changed| - 1];
      assert changed == front + [changed[|changed| - 1]];
      RevisedRowsAre(action, rows, front, i);
    }
  }

  lemma {:induction false} RevisedRowsAreAll(l: Ledger, action: ItemAction, changed: seq<Url>)
    requires forall k | 0 <= k < |changed| :: changed[k] in l.rows && Touches(l, action, changed[k])
    ensures RevisedRows(action, l.rows, changed) == ReviseAll(action, l.rows, set i | i in changed)
  {
    forall i | i in l.rows
      ensures RevisedRows(action, l.rows, changed)[i] == ReviseAll(action, l.rows, set i | i in changed)[i]
    {
      RevisedRowsAre(action, l.rows, changed, i);
    }
  }

  // Actions that move an item to another bucket.
  predicate Moves(action: ItemAction) {
    action.ExcludeItem? || action.ResumeNewGeneration? || action.RetryAccessDenied?
  }

  // The summary reads the bucket and the bytes of the old row, nothing else.
  lemma {:induction false} SameApply(s: Summary, i: Url, before: Facts, before': Facts, after: Facts, revision: nat, m: nat)
    requires Full(s) && before'.status == before.status && before'.attempts == before.attempts && before'.bytes == before.bytes
    ensures Apply(s, Applied(i, before, after, revision), m) == Apply(s, Applied(i, before', after, revision), m)
  {
    hide DisplayBucket;
    var e, e' := Applied(i, before, after, revision), Applied(i, before', after, revision);
    assert forall b: Bucket :: Delta(e, m, b) == Delta(e', m, b);
    assert Apply(s, e, m).counts == Apply(s, e', m).counts;
  }

  lemma {:induction false} ReplayRevision(l: Ledger, action: ItemAction, changed: seq<Url>, m: nat)
    requires WellFormed(l) && (Moves(action) ==> Distinct(changed)) && changed != []
    requires forall k | 0 <= k < |changed| :: changed[k] in l.rows && Touches(l, action, changed[k])
    ensures Replay(Scan(l, m), ItemChanges(l, action, changed), m)
            == Scan(l.(rows := RevisedRows(action, l.rows, changed), revision := l.revision + 1), m)
    decreases |changed|
  {
    hide Scan, ScanOf, Apply, DisplayBucket, Eligible, Revise, Postimage;
    var n := |changed|;
    var front, last := changed[..n - 1], changed[n - 1];
    var changes, before := ItemChanges(l, action, changed), ItemChanges(l, action, front);
    assert changes[..n - 1] == before;
    var mid := l.(rows := RevisedRows(action, l.rows, front), revision := if front == [] then l.revision else l.revision + 1);
    if front != [] {
      ReplayRevision(l, action, front, m);
    }
    assert Replay(Scan(l, m), before, m) == Scan(mid, m);
    RevisedRowsAre(action, l.rows, front, last);
    PostimageIsRevision(action, l.rows[last]);
    RowChange(mid, m, last, Revise(action, l.rows[last]), l.revision + 1);
    if last in front {
      StaysInBucket(action, l.rows[last]);
    }
    SameApply(Scan(mid, m), last, FactsOf(l.rows[last]), FactsOf(mid.rows[last]), FactsOf(Revise(action, l.rows[last])),
              l.revision + 1, m);
  }

  lemma {:induction false} StaysInBucket(action: ItemAction, row: Row)
    requires !Moves(action)
    ensures var row' := Revise(action, row);
            row'.status == row.status && row'.attempts == row.attempts && row'.bytes == row.bytes
  {
  }

  lemma {:induction false} PriorityIsNotSummarized(l: Ledger, priority: int, changed: seq<Url>, m: nat)
    requires WellFormed(l)
    ensures Scan(l.(rows := ReviseAll(SetItemPriority(priority), l.rows, set i | i in changed)), m) == Scan(l, m)
  {
    var rows := ReviseAll(SetItemPriority(priority), l.rows, set i | i in changed);
    assert forall i | i in l.rows :: FactsOf(rows[i]) == FactsOf(l.rows[i]);
    SameFactsSameScan(l, rows, m);
  }

  lemma {:induction false} SameFactsSameScan(l: Ledger, rows: map<Url, Row>, m: nat)
    requires WellFormed(l) && rows.Keys == l.rows.Keys && forall i | i in rows :: FactsOf(rows[i]) == FactsOf(l.rows[i])
    ensures Scan(l.(rows := rows), m) == Scan(l, m)
  {
    forall b: Bucket ensures Count(rows, l.selected, m, b) == Count(l.rows, l.selected, m, b) {
      SameFactsSameCount(l.rows, rows, l.selected, m, b);
    }
    assert Scan(l.(rows := rows), m).counts == Scan(l, m).counts;
    SameFactsSameBytes(l.rows, rows, l.selected, m);
    assert forall i | i in rows :: rows[i].nextRetryAt == FactsOf(rows[i]).nextRetryAt && rows[i].lastError == FactsOf(rows[i]).lastError;
    assert Retries(rows, l.selected, m) == Retries(l.rows, l.selected, m);
  }

  lemma {:induction false} SameFactsSameCount(rows: map<Url, Row>, rows': map<Url, Row>, items: seq<Url>, m: nat, b: Bucket)
    requires rows.Keys == rows'.Keys && forall i | i in rows :: FactsOf(rows'[i]) == FactsOf(rows[i])
    ensures Count(rows', items, m, b) == Count(rows, items, m, b)
  {
    if items != [] {
      SameFactsSameCount(rows, rows', items[..|items| - 1], m, b);
    }
  }

  lemma {:induction false} SameFactsSameBytes(rows: map<Url, Row>, rows': map<Url, Row>, items: seq<Url>, m: nat)
    requires rows.Keys == rows'.Keys && forall i | i in rows :: FactsOf(rows'[i]) == FactsOf(rows[i])
    ensures CompleteBytes(rows', items, m) == CompleteBytes(rows, items, m)
  {
    if items != [] {
      SameFactsSameBytes(rows, rows', items[..|items| - 1], m);
    }
  }

  lemma {:induction false} ChangedDistinct(l: Ledger, action: ItemAction, items: seq<Url>)
    requires Distinct(items)
    ensures Distinct(ChangedItems(l, action, items))
  {
    if items != [] {
      var front := items[..|items| - 1];
      ChangedDistinct(l, action, front);
      assert forall k | 0 <= k < |ChangedItems(l, action, front)| :: ChangedItems(l, action, front)[k] in front;
    }
  }

  // No action that moves items changes one of them twice.
  predicate Clean(l: Ledger, c: Commit) {
    c.Control? && !Replayed(l, c) && Moves(c.action) ==> Distinct(ChangedItems(l, c.action, Requested(l, c)))
  }

  // A request that names no item twice moves none twice.
  lemma {:induction false} DistinctRequestIsClean(l: Ledger, c: Commit)
    requires c.Control? && Distinct(Requested(l, c))
    ensures Clean(l, c)
  {
    ChangedDistinct(l, c.action, Requested(l, c));
  }

  // The changes that a commit hands over turn the summary of the old state into that of the new,
  // for exactly the commits that move no item twice.
  lemma {:induction false} CommitAgreesIff(l: Ledger, c: Commit, m: nat)
    requires WellFormed(l) && Allowed(l, c)
    ensures Replay(Scan(l, m), Changes(l, c), m) == Scan(Committed(l, c), m) <==> Clean(l, c)
  {
    if !Replayed(l, c) {
      match c
      case Transition(i, row) => TransitionAgrees(l, c, m);
      case Claim(i, recheckAt, early) =>
        SameFactsSameScan(l, l.rows[i := l.rows[i].(recheckAt := recheckAt, early := early)], m);
      case Control(id, action, items) =>
        if Moves(action) {
          RequestAgreesIff(l, c, m);
        } else {
          ControlAgrees(l, c, m);
        }
      case Audit(id) => AuditAgrees(l, c, m);
    }
  }

  lemma {:induction false} TransitionAgrees(l: Ledger, c: Commit, m: nat)
    requires WellFormed(l) && Allowed(l, c) && c.Transition?
    ensures Replay(Scan(l, m), Changes(l, c), m) == Scan(Committed(l, c), m)
  {
    var changes := Changes(l, c);
    RowChange(l, m, c.item, c.row, l.revision + 1);
    assert changes[..0] == [];
    assert Replay(Scan(l, m), changes[..0], m) == Scan(l, m);
  }

  lemma {:induction false} AuditAgrees(l: Ledger, c: Commit, m: nat)
    requires WellFormed(l) && c.Audit? && !Replayed(l, c)
    ensures Replay(Scan(l, m), Changes(l, c), m) == Scan(Committed(l, c), m)
  {
    assert Replay(Scan(l, m), Changes(l, c)[..0], m) == Scan(l, m);
  }

  lemma {:induction false} ControlAgrees(l: Ledger, c: Commit, m: nat)
    requires WellFormed(l) && Allowed(l, c) && c.Control? && !Replayed(l, c) && Clean(l, c)
    ensures Replay(Scan(l, m), Changes(l, c), m) == Scan(Committed(l, c), m)
  {
    var changed := ChangedItems(l, c.action, Requested(l, c));
    RevisedRowsAreAll(l, c.action, changed);
    if c.action.SetItemPriority? {
      PriorityIsNotSummarized(l, c.action.priority, changed, m);
      assert Replay(Scan(l, m), Changes(l, c)[..0], m) == Scan(l, m);
    } else if changed == [] {
      assert ReviseAll(c.action, l.rows, set i | i in changed) == l.rows;
      assert Replay(Scan(l, m), Changes(l, c)[..0], m) == Scan(l, m);
    } else {
      ReplayRevision(l, c.action, changed, m);
    }
  }

  // ------------------------------------------------------------ repeated IDs in one request

  function Destination(action: ItemAction): Bucket {
    if action.ExcludeItem? then ExcludedItems else QueuedItems
  }

  lemma {:induction false} MoveLeaves(action: ItemAction, row: Row, m: nat)
    requires Moves(action) && Eligible(action, row) && (action.ExcludeItem? || !row.status.Queued?)
    ensures BucketOf(FactsOf(row), m) != Destination(action)
    ensures BucketOf(FactsOf(Revise(action, row)), m) == Destination(action)
  {
  }

  lemma {:induction false} DistinctGrows(front: seq<Url>, last: Url)
    ensures Distinct(front) && last !in front ==> Distinct(front + [last])
  {
  }

  lemma {:induction false} RevisedCount(l: Ledger, action: ItemAction, changed: seq<Url>, m: nat)
    requires WellFormed(l) && Moves(action)
    requires forall k | 0 <= k < |changed| :: changed[k] in l.rows && Touches(l, action, changed[k])
    ensures var before, after := Count(l.rows, l.selected, m, Destination(action)),
                                 Count(RevisedRows(action, l.rows, changed), l.selected, m, Destination(action));
            after <= before + |changed| && (!Distinct(changed) ==> after < before + |changed|)
  {
    hide DisplayBucket, Revise;
    if changed != [] {
      var front, last := changed[..|changed| - 1], changed[|changed| - 1];
      RevisedCount(l, action, front, m);
      RevisedRowsAre(action, l.rows, front, last);
      MoveLeaves(action, l.rows[last], m);
      CountChange(RevisedRows(action, l.rows, front), l.selected, m, Destination(action), last,
                  Revise(action, l.rows[last]));
      DistinctGrows(front, last);
      assert changed == front + [last];
    }
  }

  lemma {:induction false} ReplayCount(l: Ledger, action: ItemAction, changed: seq<Url>, m: nat)
    requires WellFormed(l) && Moves(action)
    requires forall k | 0 <= k < |changed| :: changed[k] in l.rows && Touches(l, action, changed[k])
    ensures Replay(Scan(l, m), ItemChanges(l, action, changed), m).counts[Destination(action)]
            == Count(l.rows, l.selected, m, Destination(action)) + |changed|
  {
    hide DisplayBucket, Revise, Postimage, Eligible, Replay, Apply, Delta, ItemChanges, Moves, Destination;
    if changed != [] {
      var n := |changed|;
      var front, last := changed[..n - 1], changed[n - 1];
      ReplayCount(l, action, front, m);
      ItemChangesGrow(l, action, changed);
      ReplayedLast(Scan(l, m), ItemChanges(l, action, changed), m, Destination(action));
      assert Touches(l, action, last);
      MovesOne(action, last, l.rows[last], m, l.revision + 1);
    } else {
      NothingReplayed(Scan(l, m), ItemChanges(l, action, changed), m);
    }
  }

  lemma {:induction false} ItemChangesGrow(l: Ledger, action: ItemAction, changed: seq<Url>)
    requires changed != [] && forall k | 0 <= k < |changed| :: changed[k] in l.rows
    ensures var n := |changed| - 1;
            && ItemChanges(l, action, changed)[..n] == ItemChanges(l, action, changed[..n])
            && ItemChanges(l, action, changed)[n] == ItemChange(action, changed[n], l.rows[changed[n]], l.revision + 1)
  {
    hide Postimage;
  }

  function ItemChange(action: ItemAction, i: Url, row: Row, revision: nat): Change {
    Applied(i, FactsOf(row), Postimage(action, FactsOf(row)), revision)
  }

  lemma {:induction false} NothingReplayed(s: Summary, changes: seq<Change>, m: nat)
    requires Full(s) && changes == []
    ensures Replay(s, changes, m) == s
  {
  }

  lemma {:induction false} ReplayedLast(s: Summary, changes: seq<Change>, m: nat, b: Bucket)
    requires Full(s) && changes != []
    ensures Replay(s, changes, m).counts[b]
            == Replay(s, changes[..|changes| - 1], m).counts[b] + Delta(changes[|changes| - 1], m, b)
  {
  }

  // A change of such an action adds one to the destination.
  lemma {:induction false} MovesOne(action: ItemAction, i: Url, row: Row, m: nat, revision: nat)
    requires Moves(action) && Eligible(action, row)
    ensures Delta(ItemChange(action, i, row, revision), m, Destination(action)) == 1
  {
    hide Revise, Postimage, DisplayBucket;
    MoveLeaves(action, row, m);
    PostimageIsRevision(action, row);
  }

  // An item that one request names twice is counted twice: the summary agrees after the commit
  // if and only if no changed item is repeated.
  lemma {:induction false} RequestAgreesIff(l: Ledger, c: Commit, m: nat)
    requires WellFormed(l) && Allowed(l, c) && c.Control? && !Replayed(l, c) && Moves(c.action)
    ensures Replay(Scan(l, m), Changes(l, c), m) == Scan(Committed(l, c), m)
            <==> Distinct(ChangedItems(l, c.action, Requested(l, c)))
  {
    var changed := ChangedItems(l, c.action, Requested(l, c));
    if Distinct(changed) {
      ControlAgrees(l, c, m);
    } else {
      RevisedCount(l, c.action, changed, m);
      ReplayCount(l, c.action, changed, m);
      RevisedRowsAreAll(l, c.action, changed);
      assert Replay(Scan(l, m), Changes(l, c), m).counts[Destination(c.action)]
             != Scan(Committed(l, c), m).counts[Destination(c.action)];
    }
  }

  // ------------------------------------------------------------ whole histories

  function AllChanges(ledgers: seq<Ledger>, commits: seq<Commit>, n: nat): seq<Change>
    requires n <= |commits| && n <= |ledgers|
    requires forall k | 0 <= k < n :: WellFormed(ledgers[k]) && Allowed(ledgers[k], commits[k])
  {
    if n == 0 then [] else AllChanges(ledgers, commits, n - 1) + Changes(ledgers[n - 1], commits[n - 1])
  }

  ghost predicate Committing(ledgers: seq<Ledger>, commits: seq<Commit>) {
    History(ledgers, commits) && forall k | 0 <= k < |commits| :: WellFormed(ledgers[k]) && Allowed(ledgers[k], commits[k])
  }

  // No request moves an item twice.
  ghost predicate CleanHistory(ledgers: seq<Ledger>, commits: seq<Commit>) {
    Committing(ledgers, commits) && forall k | 0 <= k < |commits| :: Clean(ledgers[k], commits[k])
  }

  // Applied in commit order, the changes keep the whole summary equal to the scan.
  lemma {:induction false} HistoryAgrees(ledgers: seq<Ledger>, commits: seq<Commit>, n: nat, m: nat)
    requires CleanHistory(ledgers, commits) && n <= |commits|
    ensures Replay(Scan(ledgers[0], m), AllChanges(ledgers, commits, n), m) == Scan(ledgers[n], m)
  {
    hide Scan, Changes, Committed, Apply, Clean;
    if n > 0 {
      HistoryAgrees(ledgers, commits, n - 1, m);
      HistoryStep(ledgers, commits, n - 1);
      CommitAgreesIff(ledgers[n - 1], commits[n - 1], m);
      ReplayJoins(Scan(ledgers[0], m), AllChanges(ledgers, commits, n - 1), Changes(ledgers[n - 1], commits[n - 1]), m);
    }
  }

  // So the replayed summary counts the rows of the ledger that the commits lead to, column by column.
  lemma {:induction false} HistoryMeans(ledgers: seq<Ledger>, commits: seq<Commit>, n: nat, m: nat)
    requires CleanHistory(ledgers, commits) && n <= |commits| && WellFormed(ledgers[0])
    ensures var s := Replay(Scan(ledgers[0], m), AllChanges(ledgers, commits, n), m);
            Summarizes(s, ledgers[n].rows, ledgers[n].selected, m) && s.revision == ledgers[n].revision
  {
    hide ScanOf, Summarizes, AllChanges, Replay, Clean;
    HistoryAgrees(ledgers, commits, n, m);
    LedgersStayValid(ledgers, commits, n);
    ScanMeans(ledgers[n].rows, ledgers[n].selected, m, ledgers[n].revision);
  }

  lemma {:induction false} LedgersStayValid(ledgers: seq<Ledger>, commits: seq<Commit>, n: nat)
    requires Committing(ledgers, commits) && n <= |commits| && WellFormed(ledgers[0])
    ensures WellFormed(ledgers[n])
  {
    hide Committed, WellFormed, Allowed;
    if n > 0 {
      HistoryStep(ledgers, commits, n - 1);
      CommitKeepsValid(ledgers[n - 1], commits[n - 1]);
    }
  }

  ghost predicate AgreesAt(ledgers: seq<Ledger>, commits: seq<Commit>, n: nat, m: nat)
    requires Committing(ledgers, commits) && n <= |commits|
  {
    Replay(Scan(ledgers[0], m), AllChanges(ledgers, commits, n), m) == Scan(ledgers[n], m)
  }

  // The summary agrees after every commit if and only if no request moves an item twice.
  lemma {:induction false} HistoryAgreesIff(ledgers: seq<Ledger>, commits: seq<Commit>, m: nat)
    requires Committing(ledgers, commits)
    ensures (forall n | 0 <= n <= |commits| :: AgreesAt(ledgers, commits, n, m)) <==> CleanHistory(ledgers, commits)
  {
    hide Scan, Changes, Committed, Apply, Clean;
    if CleanHistory(ledgers, commits) {
      forall n | 0 <= n <= |commits| ensures AgreesAt(ledgers, commits, n, m) {
        HistoryAgrees(ledgers, commits, n, m);
      }
    }
    if forall n | 0 <= n <= |commits| :: AgreesAt(ledgers, commits, n, m) {
      forall k | 0 <= k < |commits| ensures Clean(ledgers[k], commits[k]) {
        assert AgreesAt(ledgers, commits, k, m) && AgreesAt(ledgers, commits, k + 1, m);
        HistoryStep(ledgers, commits, k);
        CommitAgreesIff(ledgers[k], commits[k], m);
        ReplayJoins(Scan(ledgers[0], m), AllChanges(ledgers, commits, k), Changes(ledgers[k], commits[k]), m);
      }
    }
  }

  // ------------------------------------------------------------ any order

  function DeltaOf(m: nat, b: Bucket): Change -> int {
    e => Delta(e, m, b)
  }

  function ByteDeltaOf(m: nat): Change -> int {
    e => ByteDelta(e, m)
  }

  function Total(changes: seq<Change>, f: Change -> int): int {
    if changes == [] then 0 else Total(changes[..|changes| - 1], f) + f(changes[|changes| - 1])
  }

  lemma {:induction false} TotalJoins(a: seq<Change>, b: seq<Change>, f: Change -> int)
    ensures Total(a + b, f) == Total(a, f) + Total(b, f)
  {
    if b == [] {
      assert a + b == a;
    } else {
      TotalJoins(a, b[..|b| - 1], f);
      assert (a + b)[..|a + b| - 1] == a + b[..|b| - 1];
    }
  }

  // The element at `j` may be counted last.
  lemma {:induction false} TotalMoves(b: seq<Change>, j: nat, f: Change -> int)
    requires j < |b|
    ensures Total(b, f) == Total(b[..j] + b[j + 1..], f) + f(b[j])
  {
    var head, tail := b[..j], b[j + 1..];
    assert b == (head + [b[j]]) + tail;
    TotalJoins(head + [b[j]], tail, f);
    TotalJoins(head, tail, f);
    assert (head + [b[j]])[..j] == head;
  }

  lemma {:induction false} LastCounts<T>(a: seq<T>)
    requires a != []
    ensures multiset(a) == multiset(a[..|a| - 1]) + multiset{a[|a| - 1]}
  {
    assert a == a[..|a| - 1] + [a[|a| - 1]];
  }

  lemma {:induction false} ElementCounts<T>(b: seq<T>, j: nat)
    requires j < |b|
    ensures multiset(b) == multiset(b[..j] + b[j + 1..]) + multiset{b[j]}
  {
    var head, tail := b[..j], b[j + 1..];
    assert b == (head + [b[j]]) + tail;
    assert multiset(head + [b[j]]) == multiset(head) + multiset{b[j]};
    assert multiset(head + tail) == multiset(head) + multiset(tail);
  }

  lemma {:induction false} RestsAgree<T>(m: multiset<T>, n: multiset<T>, x: T)
    requires m + multiset{x} == n + multiset{x}
    ensures m == n
  {
    forall y ensures m[y] == n[y] {
      assert (m + multiset{x})[y] == (n + multiset{x})[y];
    }
  }

  lemma {:induction false} RemovalPermutes(a: seq<Change>, b: seq<Change>, j: nat)
    requires multiset(a) == multiset(b) && a != [] && j < |b| && b[j] == a[|a| - 1]
    ensures multiset(a[..|a| - 1]) == multiset(b[..j] + b[j + 1..])
  {
    LastCounts(a);
    ElementCounts(b, j);
    RestsAgree(multiset(a[..|a| - 1]), multiset(b[..j] + b[j + 1..]), b[j]);
  }

  lemma {:induction false} TotalPermutes(a: seq<Change>, b: seq<Change>, f: Change -> int)
    requires multiset(a) == multiset(b)
    ensures Total(a, f) == Total(b, f)
    decreases |a|
  {
    if a == [] {
      assert multiset(b) == multiset{} && |multiset(b)| == |b|;
    } else {
      var last := a[|a| - 1];
      assert last in multiset(a);
      assert last in b;
      var j :| 0 <= j < |b| && b[j] == last;
      RemovalPermutes(a, b, j);
      TotalPermutes(a[..|a| - 1], b[..j] + b[j + 1..], f);
      TotalMoves(b, j, f);
      assert Total(a, f) == Total(a[..|a| - 1], f) + f(last);
    }
  }

  lemma {:induction false} ReplayTotals(s: Summary, changes: seq<Change>, m: nat, b: Bucket)
    requires Full(s)
    ensures Replay(s, changes, m).counts[b] == s.counts[b] + Total(changes, DeltaOf(m, b))
    ensures Replay(s, changes, m).completeBytes == s.completeBytes + Total(changes, ByteDeltaOf(m))
  {
    hide DisplayBucket, SizeOf;
    if changes != [] {
      ReplayTotals(s, changes[..|changes| - 1], m, b);
    }
  }

  // Whatever the threads do to the order of application, the counts and the bytes agree.
  lemma {:induction false} AnyOrderAgrees(ledgers: seq<Ledger>, commits: seq<Commit>, n: nat, m: nat, order: seq<Change>)
    requires CleanHistory(ledgers, commits) && n <= |commits|
    requires multiset(order) == multiset(AllChanges(ledgers, commits, n))
    ensures Replay(Scan(ledgers[0], m), order, m).counts == Scan(ledgers[n], m).counts
    ensures Replay(Scan(ledgers[0], m), order, m).completeBytes == CompleteBytes(ledgers[n].rows, ledgers[n].selected, m)
  {
    hide Delta, ByteDelta, AllChanges;
    var changes := AllChanges(ledgers, commits, n);
    HistoryAgrees(ledgers, commits, n, m);
    var s := Scan(ledgers[0], m);
    forall b: Bucket ensures Replay(s, order, m).counts[b] == Scan(ledgers[n], m).counts[b] {
      ReplayTotals(s, order, m, b);
      ReplayTotals(s, changes, m, b);
      TotalPermutes(order, changes, DeltaOf(m, b));
    }
    ReplayTotals(s, order, m, QueuedItems);
    ReplayTotals(s, changes, m, QueuedItems);
    TotalPermutes(order, changes, ByteDeltaOf(m));
    assert Replay(s, order, m).counts == Scan(ledgers[n], m).counts;
  }

  // ------------------------------------------------------------ retries and revision need the order

  // What the last applied change says about an item.
  function LastFor(changes: seq<Change>, i: Url): Option<Facts> {
    if changes == [] then None
    else
      var last := changes[|changes| - 1];
      if last.Applied? && last.item == i then Some(last.after) else LastFor(changes[..|changes| - 1], i)
  }

  function Lookup(retries: map<Url, Retry>, i: Url): Option<Retry> {
    if i in retries then Some(retries[i]) else None
  }

  lemma {:induction false} RetryIsLast(s: Summary, changes: seq<Change>, m: nat, i: Url)
    requires Full(s)
    ensures Lookup(Replay(s, changes, m).retries, i)
            == if LastFor(changes, i).Some? then Entry(LastFor(changes, i).value, m) else Lookup(s.retries, i)
  {
    if changes != [] {
      RetryIsLast(s, changes[..|changes| - 1], m, i);
    }
  }

  lemma {:induction false} SameLookups(a: map<Url, Retry>, b: map<Url, Retry>)
    requires forall i :: Lookup(a, i) == Lookup(b, i)
    ensures a == b
  {
    forall i ensures i in a <==> i in b {
      assert Lookup(a, i) == Lookup(b, i);
    }
    forall i | i in a ensures a[i] == b[i] {
      assert Lookup(a, i) == Lookup(b, i);
    }
  }

  // The retry that the last of the changes of an item leaves.
  function LastRetry(s: Summary, changes: seq<Change>, m: nat, i: Url): Option<Retry> {
    var last := LastFor(changes, i);
    if last.Some? then Entry(last.value, m) else Lookup(s.retries, i)
  }

  // The retry map agrees if and only if for every item the change that is applied last leaves the
  // retry that the change committed last leaves.
  lemma {:induction false} RetriesAgreeIff(ledgers: seq<Ledger>, commits: seq<Commit>, n: nat, m: nat, order: seq<Change>)
    requires CleanHistory(ledgers, commits) && n <= |commits|
    ensures Replay(Scan(ledgers[0], m), order, m).retries == Retries(ledgers[n].rows, ledgers[n].selected, m)
            <==> forall i :: LastRetry(Scan(ledgers[0], m), order, m, i)
                             == LastRetry(Scan(ledgers[0], m), AllChanges(ledgers, commits, n), m, i)
  {
    hide AllChanges, Entry, LastFor;
    var changes, s := AllChanges(ledgers, commits, n), Scan(ledgers[0], m);
    HistoryAgrees(ledgers, commits, n, m);
    var a, b := Replay(s, order, m).retries, Replay(s, changes, m).retries;
    forall i ensures Lookup(a, i) == LastRetry(s, order, m, i) && Lookup(b, i) == LastRetry(s, changes, m, i) {
      RetryIsLast(s, order, m, i);
      RetryIsLast(s, changes, m, i);
    }
    if forall i :: LastRetry(s, order, m, i) == LastRetry(s, changes, m, i) {
      forall i ensures Lookup(a, i) == Lookup(b, i) {
        assert LastRetry(s, order, m, i) == LastRetry(s, changes, m, i);
      }
      SameLookups(a, b);
    }
  }

  // The revision agrees if and only if the change that is applied last is one of the newest.
  lemma {:induction false} RevisionAgreesIff(ledgers: seq<Ledger>, commits: seq<Commit>, n: nat, m: nat, order: seq<Change>)
    requires CleanHistory(ledgers, commits) && n <= |commits|
    requires multiset(order) == multiset(AllChanges(ledgers, commits, n))
    ensures Replay(Scan(ledgers[0], m), order, m).revision == ledgers[n].revision
            <==> order == [] || order[|order| - 1].revision == ledgers[n].revision
  {
    hide AllChanges;
    if order == [] {
      var changes := AllChanges(ledgers, commits, n);
      assert |multiset(changes)| == |changes| && |multiset(order)| == 0;
      HistoryAgrees(ledgers, commits, n, m);
    }
  }

  // Two changes of one item that are applied in the wrong order leave a retry that is over, and
  // an old revision.
  lemma {:induction false} SwappedChangesExample()
    ensures var waiting := Facts(RetryWait, 1, None, 60.0, None);
            var first := Applied("u", Facts(Active, 1, None, 0.0, None), waiting, 1);
            var second := Applied("u", waiting, waiting.(status := Excluded), 2);
            var s := Summary(ZeroCounts(), 0, map[], 0);
            && Replay(s, [first, second], 0).retries == map[] && Replay(s, [first, second], 0).revision == 2
            && Replay(s, [second, first], 0).retries == map["u" := Retry(60.0, None)]
            && Replay(s, [second, first], 0).revision == 1
  {
    var waiting := Facts(RetryWait, 1, None, 60.0, None);
    var first := Applied("u", Facts(Active, 1, None, 0.0, None), waiting, 1);
    var second := Applied("u", waiting, waiting.(status := Excluded), 2);
    var s := Summary(ZeroCounts(), 0, map[], 0);
    assert [first, second][..1] == [first] && [second, first][..1] == [second];
    assert [first][..0] == [] && [second][..0] == [];
    assert Replay(s, [first], 0) == Apply(s, first, 0) && Replay(s, [second], 0) == Apply(s, second, 0);
  }

  // ------------------------------------------------------------ the counts cover the selection

  function Sum(counts: map<Bucket, int>): int
    requires forall b: Bucket :: b in counts
  {
    counts[QueuedItems] + counts[BusyItems] + counts[RetryItems] + counts[ExhaustedItems] + counts[CompleteItems]
    + counts[UnverifiedItems] + counts[ReviewItems] + counts[UnavailableItems] + counts[ExcludedItems]
    + counts[UnknownItems]
  }

  lemma {:induction false} CountsCover(rows: map<Url, Row>, items: seq<Url>, m: nat, revision: nat)
    requires forall k | 0 <= k < |items| :: items[k] in rows
    ensures Sum(ScanOf(rows, items, m, revision).counts) == |items|
  {
    if items != [] {
      CountsCover(rows, items[..|items| - 1], m, revision);
    }
  }

  // In any order of application the counts sum to the number of selected items.
  lemma {:induction false} CountsSumToSelected(ledgers: seq<Ledger>, commits: seq<Commit>, n: nat, m: nat, order: seq<Change>)
    requires CleanHistory(ledgers, commits) && n <= |commits| && WellFormed(ledgers[n])
    requires multiset(order) == multiset(AllChanges(ledgers, commits, n))
    ensures Sum(Replay(Scan(ledgers[0], m), order, m).counts) == |ledgers[n].selected|
  {
    hide AllChanges;
    AnyOrderAgrees(ledgers, commits, n, m, order);
    CountsCover(ledgers[n].rows, ledgers[n].selected, m, ledgers[n].revision);
  }
}
