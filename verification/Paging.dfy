/** Queue pages: bounded batch scans behind a keyset cursor, while the controller goes on
    committing between the pages. */
module Paging {
  import opened Prelude
  import opened Database
  import opened RunLedger

  const QUEUE_SCAN_BATCH := 500
  const MAX_PAGE_SIZE := 200

  // Item IDs are fixed-length hexadecimal strings; they are compared like the numbers they write.
  datatype Entry = Entry(rank: int, id: int, url: Url, row: Row)

  // ------------------------------------------------------------ the filter

  // The bucket names that the inspection service knows; it has none for excluded items.
  function InspectionBucket(status: Status, attempts: nat, m: nat): Bucket {
    match status
    case Complete => CompleteItems
    case Active => BusyItems
    case Admitted => BusyItems
    case Promoting => BusyItems
    case RetryWait => if m > 0 && attempts >= m then ExhaustedItems else RetryItems
    case Failed => if m > 0 && attempts >= m then ExhaustedItems else RetryItems
    case ExistingUnverified => UnverifiedItems
    case ReviewRequired => ReviewItems
    case Unavailable => UnavailableItems
    case Queued => QueuedItems
    case _ => UnknownItems
  }

  // The two summaries of one row differ for excluded items, and for no others.
  lemma {:induction false} BucketsAgreeIff(status: Status, attempts: nat, m: nat)
    ensures InspectionBucket(status, attempts, m) == DisplayBucket(status, attempts, m) <==> !status.Excluded?
  {
  }

  predicate Contains(text: string, query: string) {
    exists k :: 0 <= k <= |text| - |query| && OccursAt(text, query, k)
  }

  predicate OccursAt(text: string, query: string, k: nat) {
    k + |query| <= |text| && text[k..k + |query|] == query
  }

  datatype Filter = Filter(bucket: Option<Bucket>, query: string, maxAttempts: nat, hex: int -> string)

  predicate Matches(filter: Filter, e: Entry) {
    && (filter.bucket.Some? ==> filter.bucket.value == InspectionBucket(e.row.status, e.row.attempts, filter.maxAttempts))
    && (filter.query != "" ==>
          Contains(e.row.logical, filter.query) || Contains(e.row.stored, filter.query)
          || Contains(filter.hex(e.id), filter.query))
  }

  // The text contains the query: something stands before it and something behind it, maybe nothing.
  ghost predicate Occurs(query: string, text: string) {
    exists a: string, c: string :: text == a + query + c
  }

  // What a client asks for: any bucket or the one of the row, and a text in one of its names.
  ghost predicate Wanted(filter: Filter, e: Entry) {
    && (filter.bucket.None? || filter.bucket.value == InspectionBucket(e.row.status, e.row.attempts, filter.maxAttempts))
    && (|filter.query| == 0 || Occurs(filter.query, e.row.logical) || Occurs(filter.query, e.row.stored)
        || Occurs(filter.query, filter.hex(e.id)))
  }

  lemma {:induction false} ContainsIs(text: string, query: string)
    ensures Contains(text, query) <==> Occurs(query, text)
  {
    if Contains(text, query) {
      var k :| 0 <= k <= |text| - |query| && OccursAt(text, query, k);
      assert text == text[..k] + query + text[k + |query|..];
    }
    if Occurs(query, text) {
      var a, c :| text == a + query + c;
      assert text[|a|..|a| + |query|] == query;
      assert OccursAt(text, query, |a|);
    }
  }

  lemma {:induction false} MatchesIs(filter: Filter, e: Entry)
    ensures Matches(filter, e) <==> Wanted(filter, e)
  {
    hide Contains, Occurs, InspectionBucket;
    ContainsIs(e.row.logical, filter.query);
    ContainsIs(e.row.stored, filter.query);
    ContainsIs(filter.hex(e.id), filter.query);
  }

  // The bucket of the inspection service.
  lemma {:induction false} InspectionBucketIs(status: Status, attempts: nat, m: nat)
    ensures var b, again := InspectionBucket(status, attempts, m), status.RetryWait? || status.Failed?;
            && (b.CompleteItems? <==> status.Complete?)
            && (b.BusyItems? <==> status.Active? || status.Admitted? || status.Promoting?)
            && (b.ExhaustedItems? <==> again && m > 0 && attempts >= m)
            && (b.RetryItems? <==> again && (m == 0 || attempts < m))
            && (b.QueuedItems? <==> status.Queued?) && (b.UnverifiedItems? <==> status.ExistingUnverified?)
            && (b.ReviewItems? <==> status.ReviewRequired?) && (b.UnavailableItems? <==> status.Unavailable?)
            && (b.UnknownItems? <==> status.Running? || status.Excluded?) && !b.ExcludedItems?
  {
  }

  function Filtered(filter: Filter, entries: seq<Entry>): (found: seq<Entry>)
    ensures |found| <= |entries|
  {
    if entries == [] then []
    else (if Matches(filter, entries[0]) then [entries[0]] else []) + Filtered(filter, entries[1..])
  }

  // ------------------------------------------------------------ the table in rank order

  // `ids` gives the item ID of a URL. Rechecks write columns that no page shows.
  function Table(l: Ledger, ids: Url -> nat): (table: seq<Entry>)
    requires WellFormed(l)
    ensures Ranked(table)
  {
    seq(|l.selected|, k requires 0 <= k < |l.selected| =>
      Entry(k, ids(l.selected[k]), l.selected[k], Listed(l.rows[l.selected[k]])))
  }

  predicate Ranked(table: seq<Entry>) {
    forall k :: 0 <= k < |table| ==> table[k].rank == k
  }

  // A client cursor: the key of the last row that a page showed.
  datatype Key = Key(rank: int, id: int)

  const Start := Key(-1, -1)

  predicate After(e: Entry, key: Key) {
    e.rank > key.rank || (e.rank == key.rank && e.id > key.id)
  }

  function KeyOf(e: Entry): Key {
    Key(e.rank, e.id)
  }

  // The query with its keyset condition, its order and its limit.
  function Select(table: seq<Entry>, key: Key, limit: nat): (rows: seq<Entry>) {
    var rest := Rest(table, key);
    if |rest| <= limit then rest else rest[..limit]
  }

  function Rest(table: seq<Entry>, key: Key): (rest: seq<Entry>) {
    if table == [] then []
    else (if After(table[0], key) then [table[0]] else []) + Rest(table[1..], key)
  }

  // A table slice keeps its ranks.
  predicate RankedFrom(table: seq<Entry>, base: nat) {
    forall k :: 0 <= k < |table| ==> table[k].rank == base + k
  }

  lemma {:induction false} RestOfSlice(table: seq<Entry>, base: nat, key: Key)
    requires RankedFrom(table, base) && key.rank < base
    ensures Rest(table, key) == table
  {
    if table != [] {
      RestOfSlice(table[1..], base + 1, key);
    }
  }

  lemma {:induction false} RestAfterRow(table: seq<Entry>, base: nat, m: nat)
    requires RankedFrom(table, base) && m < |table|
    ensures Rest(table, KeyOf(table[m])) == table[m + 1..]
  {
    if m == 0 {
      RestOfSlice(table[1..], base + 1, KeyOf(table[0]));
    } else {
      RestAfterRow(table[1..], base + 1, m - 1);
      assert table[1..][m..] == table[m + 1..];
    }
  }

  // The rows after the key of row `pos - 1` are those from `pos` on.
  lemma {:induction false} RestFrom(table: seq<Entry>, pos: nat)
    requires Ranked(table) && pos <= |table|
    ensures Rest(table, if pos == 0 then Start else KeyOf(table[pos - 1])) == table[pos..]
  {
    if pos == 0 {
      RestOfSlice(table, 0, Start);
    } else {
      RestAfterRow(table, 0, pos - 1);
    }
  }

  // ------------------------------------------------------------ one page

  datatype Page = Page(rows: seq<Entry>, next: Option<Key>)

  function First<T>(n: nat, items: seq<T>): seq<T> {
    if |items| <= n then items else items[..n]
  }

  // What a page must be: the first matching rows after the key, and a cursor exactly when it is full.
  function PageAfter(table: seq<Entry>, filter: Filter, size: nat, key: Key): Page
    requires size > 0
  {
    var rows := First(size, Filtered(filter, Rest(table, key)));
    Page(rows, if |rows| == size then Some(KeyOf(rows[size - 1])) else None)
  }

  // The keys that the service hands out.
  ghost predicate Honest(table: seq<Entry>, key: Key) {
    key == Start || exists e :: e in table && key == KeyOf(e)
  }

  // Where an honest key stands in the table.
  function Position(key: Key): nat
    requires key.rank >= -1
  {
    key.rank + 1
  }

  lemma {:induction false} HonestPosition(table: seq<Entry>, key: Key)
    requires Ranked(table) && Honest(table, key)
    ensures key.rank >= -1 && Position(key) <= |table|
    ensures key == if Position(key) == 0 then Start else KeyOf(table[Position(key) - 1])
    ensures Rest(table, key) == table[Position(key)..]
  {
    if key != Start {
      var e :| e in table && key == KeyOf(e);
      var k :| 0 <= k < |table| && table[k] == e;
      assert key.rank == k;
    }
    RestFrom(table, Position(key));
  }

  lemma {:induction false} FilteredStep(filter: Filter, entries: seq<Entry>)
    requires entries != []
    ensures Filtered(filter, entries)
            == (if Matches(filter, entries[0]) then [entries[0]] else []) + Filtered(filter, entries[1..])
  {
  }

  // The rows of one batch, up to the one that fills the page.
  method ScanBatch(rows: seq<Entry>, filter: Filter, size: nat, shown: seq<Entry>, key: Key)
    returns (output: seq<Entry>, after: Key, filled: bool, ghost n: nat)
    requires |shown| < size
    ensures n <= |rows| && output + Filtered(filter, rows[n..]) == shown + Filtered(filter, rows)
    ensures |output| <= size && (filled <==> |output| == size) && (!filled ==> n == |rows|)
    ensures filled ==> n > 0 && after == KeyOf(output[size - 1])
    ensures after == if n == 0 then key else KeyOf(rows[n - 1])
  {
    hide Matches, Filtered;
    output, after, filled := shown, key, false;
    n := 0;
    var k := 0;
    while k < |rows|
      invariant 0 <= k <= |rows| && n == k && |output| < size && !filled
      invariant after == if k == 0 then key else KeyOf(rows[k - 1])
      invariant output + Filtered(filter, rows[k..]) == shown + Filtered(filter, rows)
    {
      var e := rows[k];
      FilteredStep(filter, rows[k..]);
      assert rows[k..][1..] == rows[k + 1..];
      after := KeyOf(e);
      k := k + 1;
      n := k;
      if !Matches(filter, e) {
        continue;
      }
      output := output + [e];
      if |output| == size {
        filled := true;
        break;
      }
    }
  }

  lemma {:induction false} FilteredJoins(filter: Filter, a: seq<Entry>, b: seq<Entry>)
    ensures Filtered(filter, a + b) == Filtered(filter, a) + Filtered(filter, b)
  {
    hide Matches, Filtered;
    if a == [] {
      assert a + b == b;
    } else {
      FilteredJoins(filter, a[1..], b);
      assert (a + b)[1..] == a[1..] + b;
      FilteredStep(filter, a);
      FilteredStep(filter, a + b);
    }
  }

  // One batch moves the scan from row `pos` to row `pos + n`.
  lemma {:induction false} BatchMoves(table: seq<Entry>, filter: Filter, pos: nat, rows: seq<Entry>, n: nat, shown: seq<Entry>, output: seq<Entry>)
    requires pos + |rows| <= |table| && rows == table[pos..pos + |rows|] && n <= |rows|
    requires output + Filtered(filter, rows[n..]) == shown + Filtered(filter, rows)
    ensures output + Filtered(filter, table[pos + n..]) == shown + Filtered(filter, table[pos..])
  {
    hide Matches, Filtered;
    var tail := table[pos + |rows|..];
    assert table[pos..] == rows + tail;
    assert table[pos + n..] == rows[n..] + tail;
    FilteredJoins(filter, rows, tail);
    FilteredJoins(filter, rows[n..], tail);
    Regroup(output, Filtered(filter, rows[n..]), shown, Filtered(filter, rows), Filtered(filter, tail));
  }

  lemma {:induction false} Regroup(a: seq<Entry>, b: seq<Entry>, c: seq<Entry>, d: seq<Entry>, tail: seq<Entry>)
    requires a + b == c + d
    ensures a + (b + tail) == c + (d + tail)
  {
    assert a + (b + tail) == a + b + tail;
    assert c + (d + tail) == c + d + tail;
  }

  lemma {:induction false} SelectIs(table: seq<Entry>, key: Key, pos: nat)
    requires pos <= |table| && Rest(table, key) == table[pos..]
    ensures var rows := Select(table, key, QUEUE_SCAN_BATCH);
            && pos + |rows| <= |table| && rows == table[pos..pos + |rows|]
            && (|rows| < QUEUE_SCAN_BATCH ==> pos + |rows| == |table|)
  {
    hide Rest;
  }

  // A page lists wanted rows behind the key, in rank order, and leaves out none before its last row;
  // it has a cursor, the key of that row, exactly when it is full.
  ghost predicate Lists(table: seq<Entry>, filter: Filter, size: nat, key: Key, page: Page) {
    && |page.rows| <= size && (page.next.Some? <==> |page.rows| == size)
    && (page.next.Some? ==> page.rows != [] && var last := page.rows[|page.rows| - 1]; page.next.value == Key(last.rank, last.id))
    && (forall k, n | 0 <= k < n < |page.rows| :: page.rows[k].rank < page.rows[n].rank)
    && (forall e | e in page.rows :: e in table && Behind(e, key) && Wanted(filter, e))
    && forall e | e in table && Behind(e, key) && Wanted(filter, e) ::
         e in page.rows || (page.rows != [] && page.next.Some? && e.rank > page.rows[|page.rows| - 1].rank)
  }

  predicate Behind(e: Entry, key: Key) {
    e.rank > key.rank || (e.rank == key.rank && e.id > key.id)
  }

  lemma {:induction false} InRest(table: seq<Entry>, key: Key, e: Entry)
    ensures e in Rest(table, key) <==> e in table && Behind(e, key)
  {
    if table != [] {
      InRest(table[1..], key, e);
      assert table == [table[0]] + table[1..];
    }
  }

  // The first rows of a list in rank order leave out later rows only.
  lemma {:induction false} FirstLeavesLater(all: seq<Entry>, size: nat, e: Entry)
    requires size > 0 && e in all && forall k, n | 0 <= k < n < |all| :: all[k].rank < all[n].rank
    ensures var rows := First(size, all); e in rows || (|rows| == size && e.rank > rows[size - 1].rank)
  {
    var k :| 0 <= k < |all| && all[k] == e;
    if k < size {
      assert First(size, all)[k] == e;
    }
  }

  lemma {:induction false} FirstIsListed(all: seq<Entry>, size: nat)
    requires forall k, n | 0 <= k < n < |all| :: all[k].rank < all[n].rank
    ensures var rows := First(size, all);
            && |rows| <= size && (forall k, n | 0 <= k < n < |rows| :: rows[k].rank < rows[n].rank)
            && forall e | e in rows :: e in all
  {
  }

  lemma {:induction false} PageMeans(table: seq<Entry>, filter: Filter, size: nat, key: Key)
    requires size > 0 && Ranked(table) && Honest(table, key)
    ensures Lists(table, filter, size, key, PageAfter(table, filter, size, key))
  {
    hide Matches, Wanted, Filtered, Rest, Honest, Behind, First;
    HonestPosition(table, key);
    var rest, all := Rest(table, key), Filtered(filter, Rest(table, key));
    var page := PageAfter(table, filter, size, key);
    FilteredIsRanked(filter, rest, Position(key));
    forall e: Entry ensures e in all <==> e in table && Behind(e, key) && Wanted(filter, e) {
      InRest(table, key, e);
      MatchesIs(filter, e);
    }
    FirstIsListed(all, size);
    forall e | e in all ensures e in page.rows || (page.next.Some? && e.rank > page.rows[|page.rows| - 1].rank) {
      FirstLeavesLater(all, size, e);
    }
  }

  method ListQueue(table: seq<Entry>, filter: Filter, size: nat, key: Key) returns (output: seq<Entry>, next: Option<Key>)
    requires 1 <= size <= MAX_PAGE_SIZE && Ranked(table) && Honest(table, key)
    ensures Page(output, next) == PageAfter(table, filter, size, key)
    ensures Lists(table, filter, size, key, Page(output, next))
  {
    hide Matches, Rest, Filtered, Honest, Select, Lists, PageAfter, First, Ranked;
    output := [];
    var after := key;
    var filled := false;
    HonestPosition(table, key);
    ghost var start := Position(key);
    ghost var pos := start;
    while |output| < size
      invariant start <= pos <= |table| && |output| <= size && (filled <==> |output| == size)
      invariant filled ==> after == KeyOf(output[size - 1])
      invariant Rest(table, after) == table[pos..]
      invariant output + Filtered(filter, table[pos..]) == Filtered(filter, table[start..])
      decreases |table| - pos
    {
      var rows := Select(table, after, QUEUE_SCAN_BATCH);
      SelectIs(table, after, pos);
      if rows == [] {
        break;
      }
      ghost var n;
      ghost var shown := output;
      output, after, filled, n := ScanBatch(rows, filter, size, output, after);
      BatchMoves(table, filter, pos, rows, n, shown, output);
      pos := pos + n;
      RestFrom(table, pos);
      if filled || |rows| < QUEUE_SCAN_BATCH {
        break;
      }
    }
    next := None;
    if filled {
      next := Some(after);
    }
    PageIs(table, filter, size, key, output, next, pos);
    PageMeans(table, filter, size, key);
  }

  lemma {:induction false} PageIs(table: seq<Entry>, filter: Filter, size: nat, key: Key, output: seq<Entry>, next: Option<Key>, pos: nat)
    requires size > 0 && pos <= |table| && Ranked(table) && Honest(table, key)
    requires output + Filtered(filter, table[pos..]) == Filtered(filter, Rest(table, key))
    requires |output| <= size && (|output| < size ==> pos == |table|)
    requires next == if |output| == size then Some(KeyOf(output[size - 1])) else None
    ensures Page(output, next) == PageAfter(table, filter, size, key)
  {
    hide Ranked, Honest, Matches, Rest;
  }

  // ------------------------------------------------------------ a walk

  // Where the last shown row stands, and what is left behind it.
  lemma {:induction false} ShownRow(filter: Filter, entries: seq<Entry>, n: nat) returns (at: nat)
    requires 0 < n <= |Filtered(filter, entries)|
    ensures at < |entries| && Filtered(filter, entries)[n - 1] == entries[at]
    ensures Filtered(filter, entries[at + 1..]) == Filtered(filter, entries)[n..]
  {
    hide Matches, Filtered;
    FilteredStep(filter, entries);
    var head := if Matches(filter, entries[0]) then 1 else 0;
    if n <= head {
      at := 0;
    } else {
      at := ShownRow(filter, entries[1..], n - head);
      assert entries[1..][at + 1..] == entries[at + 2..];
      at := at + 1;
    }
  }

  // The cursor of a full page leaves exactly the rest of the matching rows.
  lemma {:induction false} PageLeavesRest(table: seq<Entry>, filter: Filter, size: nat, key: Key)
    requires size > 0 && Ranked(table) && Honest(table, key)
    ensures var page, all := PageAfter(table, filter, size, key), Filtered(filter, Rest(table, key));
            if page.next.None? then page.rows == all
            else Honest(table, page.next.value) && all == page.rows + Filtered(filter, Rest(table, page.next.value))
  {
    hide Matches, Filtered, Rest, After;
    var page, all := PageAfter(table, filter, size, key), Filtered(filter, Rest(table, key));
    if page.next.Some? {
      HonestPosition(table, key);
      var pos := Position(key);
      var at := ShownRow(filter, table[pos..], size);
      assert table[pos..][at] == table[pos + at];
      assert table[pos..][at + 1..] == table[pos + at + 1..];
      assert page.next.value == KeyOf(table[pos + at]);
      RestFrom(table, pos + at + 1);
      assert table[pos + at] in table;
    }
  }

  function Shown(pages: seq<Page>): seq<Entry> {
    if pages == [] then [] else Shown(pages[..|pages| - 1]) + pages[|pages| - 1].rows
  }

  // One client request: the revision that its cursor carries, the answer of the database at that time.
  datatype Visit = Visit(ledger: Ledger, size: nat, page: Page)

  // Every page but the last hands out a cursor; a cursor of another revision has expired.
  ghost predicate Walk(visits: seq<Visit>, filter: Filter, ids: Url -> nat) {
    && |visits| > 0
    && (forall k | 0 <= k < |visits| :: WellFormed(visits[k].ledger) && 1 <= visits[k].size <= MAX_PAGE_SIZE)
    && (forall k | 0 <= k < |visits| :: visits[k].ledger.revision == visits[0].ledger.revision)
    && (forall k | 0 <= k < |visits| - 1 :: visits[k].page.next.Some?)
    && forall k | 0 <= k < |visits| :: visits[k].page
         == PageAfter(Table(visits[k].ledger, ids), filter, visits[k].size,
                      if k == 0 then Start else visits[k - 1].page.next.value)
  }

  // The visits see the session at later and later times.
  ghost predicate Observes(visits: seq<Visit>, ledgers: seq<Ledger>, commits: seq<Commit>, times: seq<nat>) {
    && History(ledgers, commits) && |times| == |visits|
    && (forall k | 0 <= k < |times| :: times[k] < |ledgers| && visits[k].ledger == ledgers[times[k]])
    && forall k, n | 0 <= k <= n < |times| :: times[k] <= times[n]
  }

  lemma {:induction false} SameListingSameTable(l: Ledger, l': Ledger, ids: Url -> nat)
    requires WellFormed(l) && WellFormed(l') && SameListing(l, l')
    ensures Table(l', ids) == Table(l, ids)
  {
    forall k | 0 <= k < |l.selected| ensures Table(l', ids)[k] == Table(l, ids)[k] {
      assert l.selected[k] in l.selected;
    }
  }

  lemma {:induction false} VisitsSeeOneTable(visits: seq<Visit>, ledgers: seq<Ledger>, commits: seq<Commit>, times: seq<nat>, filter: Filter,
                          ids: Url -> nat, k: nat)
    requires Walk(visits, filter, ids) && Observes(visits, ledgers, commits, times) && k < |visits|
    ensures k > 0 ==> visits[k - 1].page.next.Some?
    ensures visits[k].size > 0 && visits[0].ledger == ledgers[times[0]] && WellFormed(visits[0].ledger)
    ensures visits[k].page == PageAfter(Table(visits[0].ledger, ids), filter, visits[k].size,
                                        if k == 0 then Start else visits[k - 1].page.next.value)
  {
    hide Table, PageAfter, Listed;
    RevisionGuardsListing(ledgers, commits, times[0], times[k]);
    SameListingSameTable(visits[0].ledger, visits[k].ledger, ids);
  }

  function Pages(visits: seq<Visit>): seq<Page> {
    seq(|visits|, k requires 0 <= k < |visits| => visits[k].page)
  }

  // Page `k` answers the cursor of the page before it.
  ghost predicate Follows(table: seq<Entry>, filter: Filter, sizes: seq<nat>, pages: seq<Page>, k: nat) {
    && k < |sizes| && k < |pages| && sizes[k] > 0 && (k > 0 ==> pages[k - 1].next.Some?)
    && pages[k] == PageAfter(table, filter, sizes[k], if k == 0 then Start else pages[k - 1].next.value)
  }

  lemma {:induction false} ShownSoFar(table: seq<Entry>, filter: Filter, sizes: seq<nat>, pages: seq<Page>, n: nat)
    requires Ranked(table) && |sizes| == |pages| && 0 < n <= |pages|
    requires forall k | 0 <= k < n :: Follows(table, filter, sizes, pages, k)
    ensures pages[n - 1].next.Some? ==> Honest(table, pages[n - 1].next.value)
    ensures Shown(pages[..n])
            + (if pages[n - 1].next.Some? then Filtered(filter, Rest(table, pages[n - 1].next.value)) else [])
            == Filtered(filter, table)
  {
    hide Filtered, PageAfter, Rest;
    assert Follows(table, filter, sizes, pages, n - 1);
    var key := if n == 1 then Start else pages[n - 2].next.value;
    if n == 1 {
      RestFrom(table, 0);
      assert Shown(pages[..0]) == [];
    } else {
      ShownSoFar(table, filter, sizes, pages, n - 1);
    }
    PageLeavesRest(table, filter, sizes[n - 1], key);
    assert pages[..n][..n - 1] == pages[..n - 1];
    var before, page := Shown(pages[..n - 1]), pages[n - 1];
    assert before + Filtered(filter, Rest(table, key)) == Filtered(filter, table);
    if page.next.Some? {
      var tail := Filtered(filter, Rest(table, page.next.value));
      assert before + page.rows + tail == before + (page.rows + tail);
    } else {
      assert before + page.rows + [] == before + page.rows;
    }
  }

  // Consistent paging: a walk that reaches its end without an expired cursor has shown exactly
  // the matching rows of the state in which it began, in rank order, none twice, whatever the
  // page sizes and whatever the controller committed between the pages.
  lemma {:induction false} WalkShowsOneState(visits: seq<Visit>, ledgers: seq<Ledger>, commits: seq<Commit>, times: seq<nat>, filter: Filter,
                          ids: Url -> nat)
    requires Walk(visits, filter, ids) && Observes(visits, ledgers, commits, times)
    requires visits[|visits| - 1].page.next.None?
    ensures Shown(Pages(visits)) == Filtered(filter, Table(visits[0].ledger, ids))
  {
    hide Filtered, PageAfter, Rest;
    var table := Table(visits[0].ledger, ids);
    var sizes := seq(|visits|, k requires 0 <= k < |visits| => visits[k].size);
    var pages := Pages(visits);
    forall k | 0 <= k < |visits| ensures Follows(table, filter, sizes, pages, k) {
      VisitsSeeOneTable(visits, ledgers, commits, times, filter, ids, k);
    }
    ShownSoFar(table, filter, sizes, pages, |pages|);
    assert pages[..|pages|] == pages;
  }

  // A row of the walk: the selected item of that rank, with the columns that rechecks leave alone.
  predicate RowOf(l: Ledger, ids: Url -> nat, e: Entry)
    requires WellFormed(l)
  {
    && 0 <= e.rank < |l.selected| && e.url == l.selected[e.rank] && e.id == ids(e.url)
    && e.row == l.rows[e.url].(recheckAt := None, early := 0)
  }

  // So the walk shows a row if and only if it is a wanted row of that state, each once.
  lemma {:induction false} WalkShowsWanted(visits: seq<Visit>, ledgers: seq<Ledger>, commits: seq<Commit>, times: seq<nat>, filter: Filter,
                          ids: Url -> nat)
    requires Walk(visits, filter, ids) && Observes(visits, ledgers, commits, times)
    requires visits[|visits| - 1].page.next.None?
    ensures WellFormed(visits[0].ledger)
    ensures var shown := Shown(Pages(visits));
            && (forall e :: e in shown <==> RowOf(visits[0].ledger, ids, e) && Wanted(filter, e))
            && forall k, n | 0 <= k < n < |shown| :: shown[k].rank < shown[n].rank
  {
    hide Walk, Observes, Filtered, Matches, Wanted, WellFormed, Table, RowOf;
    WalkBegins(visits, filter, ids);
    WalkShowsOneState(visits, ledgers, commits, times, filter, ids);
    var table := Table(visits[0].ledger, ids);
    FilteredIsRanked(filter, table, 0);
    forall e: Entry ensures e in table && Matches(filter, e) <==> RowOf(visits[0].ledger, ids, e) && Wanted(filter, e) {
      TableRows(visits[0].ledger, ids, e);
      MatchesIs(filter, e);
    }
  }

  lemma {:induction false} WalkBegins(visits: seq<Visit>, filter: Filter, ids: Url -> nat)
    requires Walk(visits, filter, ids)
    ensures |visits| > 0 && WellFormed(visits[0].ledger)
  {
    hide WellFormed, PageAfter;
  }

  lemma {:induction false} TableRows(l: Ledger, ids: Url -> nat, e: Entry)
    requires WellFormed(l)
    ensures e in Table(l, ids) <==> RowOf(l, ids, e)
  {
    var table := Table(l, ids);
    if e in table {
      var k :| 0 <= k < |table| && table[k] == e;
    }
    if RowOf(l, ids, e) {
      assert table[e.rank] == e;
    }
  }

  // The matching rows are in rank order and distinct.
  lemma {:induction false} FilteredIsRanked(filter: Filter, table: seq<Entry>, base: nat)
    requires RankedFrom(table, base)
    ensures forall k | 0 <= k < |Filtered(filter, table)| :: base <= Filtered(filter, table)[k].rank
    ensures forall k, n | 0 <= k < n < |Filtered(filter, table)| ::
              Filtered(filter, table)[k].rank < Filtered(filter, table)[n].rank
    ensures forall e :: e in Filtered(filter, table) <==> e in table && Matches(filter, e)
  {
    hide Matches;
    if table != [] {
      FilteredIsRanked(filter, table[1..], base + 1);
      assert table == [table[0]] + table[1..];
    }
  }
}
