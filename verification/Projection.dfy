/** The in-memory telemetry summary: kept up to date change by change, it must agree with a scan
    of the selected rows. */
module Projection {
  import opened Prelude
  import opened Database
  import opened RunLedger

  datatype Retry = Retry(deadline: real, error: Option<Failure>)

  datatype Summary = Summary(counts: map<Bucket, int>, completeBytes: int, retries: map<Url, Retry>, revision: nat)

  function One(b: bool): int {
    if b then 1 else 0
  }

  function NoItems(b: Bucket): int {
    0
  }

  function ZeroCounts(): map<Bucket, int> {
    map b: Bucket | true :: NoItems(b)
  }

  function SizeOf(facts: Facts): int {
    if facts.bytes.Some? then facts.bytes.value else 0
  }

  // ------------------------------------------------------------ the scan of all rows

  function Count(rows: map<Url, Row>, items: seq<Url>, m: nat, b: Bucket): int {
    if items == [] then 0
    else
      var last := items[|items| - 1];
      Count(rows, items[..|items| - 1], m, b) + One(last in rows && BucketOf(FactsOf(rows[last]), m) == b)
  }

  function CompleteBytes(rows: map<Url, Row>, items: seq<Url>, m: nat): int {
    if items == [] then 0
    else
      var last := items[|items| - 1];
      CompleteBytes(rows, items[..|items| - 1], m) + if last in rows then Completed(FactsOf(rows[last]), m) else 0
  }

  function Completed(facts: Facts, m: nat): int {
    if BucketOf(facts, m).CompleteItems? then SizeOf(facts) else 0
  }

  predicate Retrying(rows: map<Url, Row>, i: Url, m: nat) {
    i in rows && BucketOf(FactsOf(rows[i]), m).RetryItems?
  }

  function Retries(rows: map<Url, Row>, items: seq<Url>, m: nat): map<Url, Retry> {
    map i | i in items && Retrying(rows, i, m) :: Retry(rows[i].nextRetryAt, rows[i].lastError)
  }

  predicate Full(s: Summary) {
    forall b: Bucket :: b in s.counts
  }

  function ScanOf(rows: map<Url, Row>, items: seq<Url>, m: nat, revision: nat): (s: Summary)
    ensures Full(s)
  {
    Summary(map b: Bucket | true :: Count(rows, items, m, b), CompleteBytes(rows, items, m), Retries(rows, items, m), revision)
  }

  // What the summary must say about a database state.
  function Scan(l: Ledger, m: nat): (s: Summary)
    ensures Full(s)
  {
    ScanOf(l.rows, l.selected, m, l.revision)
  }

  // ------------------------------------------------------------ what a summary says about rows

  // The bytes of the complete rows.
  function BytesOfComplete(rows: map<Url, Row>, items: seq<Url>): nat {
    if items == [] then 0
    else
      var last := items[|items| - 1];
      BytesOfComplete(rows, items[..|items| - 1])
      + if last in rows && rows[last].status.Complete? && rows[last].bytes.Some? then rows[last].bytes.value else 0
  }

  // A row that waits for a retry and has an attempt left.
  predicate Waiting(row: Row, m: nat) {
    (row.status.RetryWait? || row.status.Failed?) && (m == 0 || row.attempts < m)
  }

  predicate Shows(rows: map<Url, Row>, i: Url, m: nat, b: Bucket) {
    i in rows && DisplayBucket(rows[i].status, rows[i].attempts, m) == b
  }

  function Showing(rows: map<Url, Row>, items: seq<Url>, m: nat, b: Bucket): set<Url> {
    set i | i in items && Shows(rows, i, m, b)
  }

  // The counts, the retries and the bytes are those of the listed rows.
  ghost predicate Summarizes(s: Summary, rows: map<Url, Row>, items: seq<Url>, m: nat) {
    && (forall b: Bucket :: b in s.counts && s.counts[b] == |Showing(rows, items, m, b)|)
    && s.completeBytes == BytesOfComplete(rows, items)
    && (forall i :: i in s.retries <==> i in items && i in rows && Waiting(rows[i], m))
    && (forall i | i in s.retries :: s.retries[i] == Retry(rows[i].nextRetryAt, rows[i].lastError))
  }

  // The bucket that a row is displayed in.
  lemma {:induction false} DisplayBucketIs(status: Status, attempts: nat, m: nat)
    ensures var b, again := DisplayBucket(status, attempts, m), status.RetryWait? || status.Failed?;
            && (b.CompleteItems? <==> status.Complete?)
            && (b.BusyItems? <==> status.Active? || status.Admitted? || status.Promoting?)
            && (b.ExhaustedItems? <==> again && m > 0 && attempts >= m)
            && (b.RetryItems? <==> again && (m == 0 || attempts < m))
            && (b.QueuedItems? <==> status.Queued?) && (b.UnverifiedItems? <==> status.ExistingUnverified?)
            && (b.ReviewItems? <==> status.ReviewRequired?) && (b.UnavailableItems? <==> status.Unavailable?)
            && (b.ExcludedItems? <==> status.Excluded?) && (b.UnknownItems? <==> status.Running?)
  {
  }

  lemma {:induction false} CountMeans(rows: map<Url, Row>, items: seq<Url>, m: nat, b: Bucket)
    requires Distinct(items)
    ensures Count(rows, items, m, b) == |Showing(rows, items, m, b)|
  {
    hide DisplayBucket, Showing;
    if items == [] {
      NoneShown(rows, m, b);
    } else {
      var front, last := items[..|items| - 1], items[|items| - 1];
      assert items == front + [last];
      CountMeans(rows, front, m, b);
      assert last !in front by {
        assert forall k | 0 <= k < |front| :: front[k] == items[k];
      }
      ShowingGrows(rows, front, last, m, b);
    }
  }

  lemma {:induction false} NoneShown(rows: map<Url, Row>, m: nat, b: Bucket)
    ensures Showing(rows, [], m, b) == {}
  {
  }

  lemma {:induction false} ShowingGrows(rows: map<Url, Row>, front: seq<Url>, last: Url, m: nat, b: Bucket)
    requires last !in front
    ensures |Showing(rows, front + [last], m, b)| == |Showing(rows, front, m, b)| + One(Shows(rows, last, m, b))
  {
    hide Shows;
    var few, all := Showing(rows, front, m, b), Showing(rows, front + [last], m, b);
    assert all == if Shows(rows, last, m, b) then few + {last} else few;
  }

  lemma {:induction false} BytesMean(rows: map<Url, Row>, items: seq<Url>, m: nat)
    ensures CompleteBytes(rows, items, m) == BytesOfComplete(rows, items)
  {
    if items != [] {
      BytesMean(rows, items[..|items| - 1], m);
    }
  }

  lemma {:induction false} ScanMeans(rows: map<Url, Row>, items: seq<Url>, m: nat, revision: nat)
    requires Distinct(items)
    ensures Summarizes(ScanOf(rows, items, m, revision), rows, items, m) && ScanOf(rows, items, m, revision).revision == revision
  {
    hide Count, CompleteBytes, Showing;
    forall b: Bucket ensures Count(rows, items, m, b) == |Showing(rows, items, m, b)| {
      CountMeans(rows, items, m, b);
    }
    BytesMean(rows, items, m);
  }

  // ------------------------------------------------------------ one change

  function Delta(e: Change, m: nat, b: Bucket): int {
    if e.Revised? then 0 else One(BucketOf(e.after, m) == b) - One(BucketOf(e.before, m) == b)
  }

  function ByteDelta(e: Change, m: nat): int {
    if e.Revised? then 0 else Completed(e.after, m) - Completed(e.before, m)
  }

  function Entry(facts: Facts, m: nat): Option<Retry> {
    if BucketOf(facts, m).RetryItems? then Some(Retry(facts.nextRetryAt, facts.lastError)) else None
  }

  function Recorded(retries: map<Url, Retry>, i: Url, entry: Option<Retry>): map<Url, Retry> {
    if entry.Some? then retries[i := entry.value] else retries - {i}
  }

  function Apply(s: Summary, e: Change, m: nat): (s': Summary)
    requires Full(s)
    ensures Full(s')
  {
    if e.Revised? then s.(revision := e.revision)
    else
      Summary(map b: Bucket | true :: s.counts[b] + Delta(e, m, b), s.completeBytes + ByteDelta(e, m),
              Recorded(s.retries, e.item, Entry(e.after, m)), e.revision)
  }

  function Replay(s: Summary, changes: seq<Change>, m: nat): (s': Summary)
    requires Full(s)
    ensures Full(s')
  {
    if changes == [] then s
    else Apply(Replay(s, changes[..|changes| - 1], m), changes[|changes| - 1], m)
  }

  lemma {:induction false} ReplayJoins(s: Summary, a: seq<Change>, b: seq<Change>, m: nat)
    requires Full(s)
    ensures Replay(s, a + b, m) == Replay(Replay(s, a, m), b, m)
  {
    if b == [] {
      assert a + b == a;
    } else {
      ReplayJoins(s, a, b[..|b| - 1], m);
      assert (a + b)[..|a + b| - 1] == a + b[..|b| - 1];
    }
  }

  // ------------------------------------------------------------ the class

  class TelemetryStateProjection {
    const maxAttempts: nat
    const selectedCount: nat
    var counts: map<Bucket, int>
    var completeBytes: int
    var retries: map<Url, Retry>
    var revision: nat

    ghost predicate Valid()
      reads this
    {
      forall b: Bucket :: b in counts
    }

    ghost function State(): (s: Summary)
      requires Valid()
      reads this
      ensures Full(s)
    {
      Summary(counts, completeBytes, retries, revision)
    }

    constructor (selectedCount: nat, revision: nat, maxAttempts: nat)
      ensures Valid() && this.maxAttempts == maxAttempts && this.selectedCount == selectedCount
      ensures State() == Summary(ZeroCounts(), 0, map[], revision)
    {
      this.maxAttempts, this.selectedCount, this.revision := maxAttempts, selectedCount, revision;
      counts := ZeroCounts();
      completeBytes, retries := 0, map[];
    }

    // _add_row
    method AddRow(item: Url, facts: Facts)
      requires Valid()
      modifies this
      ensures Valid() && AddsRow(old(State()), State(), item, facts, maxAttempts)
    {
      var bucket := BucketOf(facts, maxAttempts);
      counts := counts[bucket := counts[bucket] + 1];
      if bucket.CompleteItems? {
        completeBytes := completeBytes + SizeOf(facts);
      }
      if bucket.RetryItems? {
        retries := retries[item := Retry(facts.nextRetryAt, facts.lastError)];
      }
    }

    method ApplyChange(item: Url, before: Facts, after: Facts, revision: nat)
      requires Valid()
      modifies this
      ensures Valid() && State() == Apply(old(State()), Applied(item, before, after, revision), maxAttempts)
    {
      var oldBucket, newBucket := BucketOf(before, maxAttempts), BucketOf(after, maxAttempts);
      MovesOne(State(), Applied(item, before, after, revision), maxAttempts);
      counts := counts[oldBucket := counts[oldBucket] - 1];
      counts := counts[newBucket := counts[newBucket] + 1];
      if oldBucket.CompleteItems? {
        completeBytes := completeBytes - SizeOf(before);
      }
      if newBucket.CompleteItems? {
        completeBytes := completeBytes + SizeOf(after);
      }
      retries := retries - {item};
      if newBucket.RetryItems? {
        retries := retries[item := Retry(after.nextRetryAt, after.lastError)];
      }
      this.revision := revision;
    }

    method SetRevision(revision: nat)
      requires Valid()
      modifies this
      ensures Valid() && State() == Apply(old(State()), Revised(revision), maxAttempts)
    {
      this.revision := revision;
    }
  
    // hydrate: the selected rows in queue order, in bounded batches.
    static method Hydrate(l: Ledger, maxAttempts: nat, batch: nat) returns (projection: TelemetryStateProjection)
      requires WellFormed(l) && batch > 0
      ensures fresh(projection) && projection.Valid() && projection.maxAttempts == maxAttempts
      ensures projection.selectedCount == |l.selected|
      ensures projection.State() == Scan(l, maxAttempts)
      ensures Summarizes(projection.State(), l.rows, l.selected, maxAttempts) && projection.State().revision == l.revision
    {
      hide ScanOf, AddsRow, Summarizes;
      EmptyScan(l.rows, maxAttempts, l.revision);
      projection := new TelemetryStateProjection(|l.selected|, l.revision, maxAttempts);
      var rank := 0;
      assert l.selected[..0] == [];
      while rank < |l.selected|
        invariant rank <= |l.selected| && projection.Valid() && fresh(projection)
        invariant projection.State() == ScanOf(l.rows, l.selected[..rank], maxAttempts, l.revision)
      {
        var rows := l.selected[rank..if rank + batch < |l.selected| then rank + batch else |l.selected|];
        var k := 0;
        assert l.selected[..rank] + rows[..0] == l.selected[..rank];
        while k < |rows|
          invariant k <= |rows| && projection.Valid() && fresh(projection)
          invariant projection.State() == ScanOf(l.rows, l.selected[..rank] + rows[..k], maxAttempts, l.revision)
        {
          var i := rows[k];
          assert rows[k] == l.selected[rank + k];
          projection.AddRow(i, FactsOf(l.rows[i]));
          ScanGrows(l.rows, l.selected[..rank] + rows[..k], maxAttempts, l.revision, i, projection.State());
          assert l.selected[..rank] + rows[..k] + [i] == l.selected[..rank] + rows[..k + 1];
          k := k + 1;
        }
        assert l.selected[..rank] + rows[..k] == l.selected[..rank + |rows|];
        rank := rank + |rows|;
      }
      assert l.selected[..rank] == l.selected;
      ScanMeans(l.rows, l.selected, maxAttempts, l.revision);
    }
  }

  lemma {:induction false} EmptyScan(rows: map<Url, Row>, m: nat, revision: nat)
    ensures ScanOf(rows, [], m, revision) == Summary(ZeroCounts(), 0, map[], revision)
  {
    assert ScanOf(rows, [], m, revision).counts == ZeroCounts();
  }

  // One item leaves its old bucket and joins its new one.
  lemma {:induction false} MovesOne(s: Summary, e: Change, m: nat)
    requires Full(s) && e.Applied?
    ensures var left := s.counts[BucketOf(e.before, m) := s.counts[BucketOf(e.before, m)] - 1];
            left[BucketOf(e.after, m) := left[BucketOf(e.after, m)] + 1] == Apply(s, e, m).counts
  {
    hide DisplayBucket;
    var left := s.counts[BucketOf(e.before, m) := s.counts[BucketOf(e.before, m)] - 1];
    var joined := left[BucketOf(e.after, m) := left[BucketOf(e.after, m)] + 1];
    assert forall b: Bucket :: joined[b] == Apply(s, e, m).counts[b];
  }

  // What _add_row makes of the scan of the rows before.
  predicate AddsRow(s: Summary, s': Summary, i: Url, facts: Facts, m: nat)
    requires Full(s) && Full(s')
  {
    && (forall b: Bucket :: s'.counts[b] == s.counts[b] + One(BucketOf(facts, m) == b))
    && s'.completeBytes == s.completeBytes + Completed(facts, m) && s'.revision == s.revision
    && s'.retries == if Entry(facts, m).Some? then s.retries[i := Entry(facts, m).value] else s.retries
  }

  lemma {:induction false} ScanGrows(rows: map<Url, Row>, items: seq<Url>, m: nat, revision: nat, i: Url, s: Summary)
    requires i in rows && Full(s) && AddsRow(ScanOf(rows, items, m, revision), s, i, FactsOf(rows[i]), m)
    ensures s == ScanOf(rows, items + [i], m, revision)
  {
    hide DisplayBucket, Count, CompleteBytes, Retries;
    var s' := ScanOf(rows, items + [i], m, revision);
    RetriesGrow(rows, items, m, i);
    forall b: Bucket ensures s.counts[b] == s'.counts[b] {
      CountGrows(rows, items, m, i, b);
    }
    CountGrows(rows, items, m, i, QueuedItems);
    assert s.counts == s'.counts;
  }

  lemma {:induction false} CountGrows(rows: map<Url, Row>, items: seq<Url>, m: nat, i: Url, b: Bucket)
    requires i in rows
    ensures Count(rows, items + [i], m, b) == Count(rows, items, m, b) + One(BucketOf(FactsOf(rows[i]), m) == b)
    ensures CompleteBytes(rows, items + [i], m) == CompleteBytes(rows, items, m) + Completed(FactsOf(rows[i]), m)
  {
    hide DisplayBucket;
    assert (items + [i])[..|items + [i]| - 1] == items;
  }

  lemma {:induction false} RetriesGrow(rows: map<Url, Row>, items: seq<Url>, m: nat, i: Url)
    requires i in rows
    ensures Retries(rows, items + [i], m)
            == if Entry(FactsOf(rows[i]), m).Some? then Retries(rows, items, m)[i := Entry(FactsOf(rows[i]), m).value]
               else Retries(rows, items, m)
  {
    hide DisplayBucket;
  }
}
