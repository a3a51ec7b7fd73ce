/** The attempt history of one item, listed newest first by keyset paging while the controller
    records further attempts. */
module Attempts {
  import opened Prelude

  datatype Attempt = Attempt(number: nat, id: int, outcome: Option<string>)

  // ------------------------------------------------------------ the listing order

  predicate Before(a: Attempt, b: Attempt) {
    a.number > b.number || (a.number == b.number && a.id < b.id)
  }

  predicate Sorted(table: seq<Attempt>) {
    forall k, n | 0 <= k < n < |table| :: Before(table[k], table[n])
  }

  datatype Key = Key(number: nat, id: int)

  function Identity(a: Attempt): Key {
    Key(a.number, a.id)
  }

  function Keys(table: seq<Attempt>): seq<Key> {
    seq(|table|, k requires 0 <= k < |table| => Identity(table[k]))
  }

  // The keyset condition of the query.
  predicate Behind(a: Attempt, cursor: Option<Key>) {
    cursor.Some? ==> a.number < cursor.value.number || (a.number == cursor.value.number && a.id > cursor.value.id)
  }

  function Older(table: seq<Attempt>, cursor: Option<Key>): seq<Attempt> {
    if table == [] then []
    else (if Behind(table[0], cursor) then [table[0]] else []) + Older(table[1..], cursor)
  }

  // ------------------------------------------------------------ one page

  datatype Page = Page(attempts: seq<Attempt>, next: Option<Key>)

  // One row more than the page is fetched, to see whether a further page follows.
  function ListAttempts(table: seq<Attempt>, size: nat, cursor: Option<Key>): Page
    requires size > 0
  {
    var rest := Older(table, cursor);
    var rows := if |rest| <= size + 1 then rest else rest[..size + 1];
    if |rows| <= size then Page(rows, None) else Page(rows[..size], Some(Identity(rows[size - 1])))
  }

  lemma {:induction false} OlderIsWhole(table: seq<Attempt>)
    ensures Older(table, None) == table
  {
    if table != [] {
      OlderIsWhole(table[1..]);
    }
  }

  lemma {:induction false} NothingBehind(table: seq<Attempt>, key: Key)
    requires forall k | 0 <= k < |table| :: !Behind(table[k], Some(key))
    ensures Older(table, Some(key)) == []
  {
    if table != [] {
      NothingBehind(table[1..], key);
    }
  }

  lemma {:induction false} AllBehind(table: seq<Attempt>, key: Key)
    requires forall k | 0 <= k < |table| :: Behind(table[k], Some(key))
    ensures Older(table, Some(key)) == table
  {
    if table != [] {
      AllBehind(table[1..], key);
    }
  }

  lemma {:induction false} OlderJoins(a: seq<Attempt>, b: seq<Attempt>, cursor: Option<Key>)
    ensures Older(a + b, cursor) == Older(a, cursor) + Older(b, cursor)
  {
    hide Behind, Older;
    OlderStep(a, cursor);
    OlderStep(a + b, cursor);
    if a == [] {
      assert a + b == b;
    } else {
      OlderJoins(a[1..], b, cursor);
      assert (a + b)[1..] == a[1..] + b;
    }
  }

  lemma {:induction false} OlderStep(table: seq<Attempt>, cursor: Option<Key>)
    ensures table == [] ==> Older(table, cursor) == []
    ensures table != [] ==>
              Older(table, cursor) == (if Behind(table[0], cursor) then [table[0]] else []) + Older(table[1..], cursor)
  {
  }

  // The rows behind the key of row `n` are the rows after it.
  lemma {:induction false} OlderAfter(table: seq<Attempt>, n: nat)
    requires Sorted(table) && n < |table|
    ensures Older(table, Some(Identity(table[n]))) == table[n + 1..]
  {
    var key := Identity(table[n]);
    NothingBehind(table[..n + 1], key);
    AllBehind(table[n + 1..], key);
    OlderJoins(table[..n + 1], table[n + 1..], Some(key));
    assert table[..n + 1] + table[n + 1..] == table;
  }

  // ------------------------------------------------------------ what the controller commits

  // `working` is set between the commit that makes the item active and the one that ends it.
  datatype Journal = Journal(attempts: nat, working: bool, table: seq<Attempt>, revision: nat)

  datatype Step = Activate | Record | Finish(outcome: string) | Restore | Leave | Crash

  predicate Enabled(j: Journal, step: Step) {
    match step
    case Activate => !j.working
    case Crash => true
    case _ => j.working && j.attempts > 0
  }

  // The ordered table with one more row.
  function Insert(table: seq<Attempt>, a: Attempt): seq<Attempt> {
    if table == [] || Before(a, table[0]) then [a] + table else [table[0]] + Insert(table[1..], a)
  }

  function Finished(table: seq<Attempt>, id: int, outcome: string): (table': seq<Attempt>)
    ensures |table'| == |table|
  {
    seq(|table|, k requires 0 <= k < |table| => if table[k].id == id then table[k].(outcome := Some(outcome)) else table[k])
  }

  predicate Exists(table: seq<Attempt>, id: int) {
    exists k :: 0 <= k < |table| && table[k].id == id
  }

  // `ids` is the identity that the digest of run, URL and number gives. Recording an attempt and
  // its outcome does not raise the revision.
  function Apply(ids: nat -> int, j: Journal, step: Step): Journal
    requires Enabled(j, step)
  {
    match step
    case Activate => j.(attempts := j.attempts + 1, working := true, revision := j.revision + 1)
    case Record =>
      if Exists(j.table, ids(j.attempts)) then j
      else j.(table := Insert(j.table, Attempt(j.attempts, ids(j.attempts), None)))
    case Finish(outcome) => j.(table := Finished(j.table, ids(j.attempts), outcome))
    case Restore => j.(attempts := j.attempts - 1, working := false, revision := j.revision + 1)
    case Leave => j.(working := false, revision := j.revision + 1)
    case Crash => j.(working := false)
  }

  // What each commit changes: an attempt is counted when it starts and given back when it is restored; its
  // row appears when it is recorded, once for an ID; its outcome is set on the rows of that ID; and every
  // commit but the two that write the listing raises the revision.
  lemma {:induction false} StepMeans(ids: nat -> int, j: Journal, step: Step)
    requires Enabled(j, step)
    ensures var j', id := Apply(ids, j, step), ids(j.attempts);
            && j'.attempts == (if step.Activate? then j.attempts + 1 else if step.Restore? then j.attempts - 1 else j.attempts)
            && j'.revision == (if step.Activate? || step.Restore? || step.Leave? then j.revision + 1 else j.revision)
            && (j'.working <==> step.Activate? || (j.working && (step.Record? || step.Finish?)))
            && (step.Record? ==>
                  if exists k :: 0 <= k < |j.table| && j.table[k].id == id then j'.table == j.table
                  else multiset(j'.table) == multiset(j.table) + multiset{Attempt(j.attempts, id, None)})
            && (step.Finish? ==>
                  && |j'.table| == |j.table|
                  && forall k | 0 <= k < |j.table| ::
                       j'.table[k] == if j.table[k].id == id then Attempt(j.table[k].number, id, Some(step.outcome)) else j.table[k])
            && (!step.Record? && !step.Finish? ==> j'.table == j.table)
  {
    InsertAdds(j.table, Attempt(j.attempts, ids(j.attempts), None));
  }

  lemma {:induction false} InsertAdds(table: seq<Attempt>, a: Attempt)
    ensures multiset(Insert(table, a)) == multiset(table) + multiset{a}
  {
    if table != [] && !Before(a, table[0]) {
      InsertAdds(table[1..], a);
      assert table == [table[0]] + table[1..];
    }
  }

  ghost predicate Run(ids: nat -> int, trace: seq<Journal>, steps: seq<Step>) {
    && |trace| == |steps| + 1 && trace[0].table == [] && !trace[0].working
    && forall k | 0 <= k < |steps| :: Enabled(trace[k], steps[k]) && trace[k + 1] == Apply(ids, trace[k], steps[k])
  }

  // A restored attempt has the highest number: no number below it is ever recorded again.
  ghost predicate Inv(ids: nat -> int, j: Journal) {
    && Sorted(j.table)
    && forall k | 0 <= k < |j.table| ::
         j.table[k].id == ids(j.table[k].number) && j.table[k].number <= j.attempts + if j.working then 0 else 1
  }

  // The rows of `old_` are the last rows of `new_`, and every row above them has a higher number.
  ghost predicate Extends(old_: seq<Attempt>, new_: seq<Attempt>) {
    && |old_| <= |new_| && Keys(new_[|new_| - |old_|..]) == Keys(old_)
    && forall k, n | 0 <= k < |new_| - |old_| && 0 <= n < |old_| :: new_[k].number > old_[n].number
  }

  lemma {:induction false} StepExtends(ids: nat -> int, j: Journal, step: Step)
    requires Inv(ids, j) && Enabled(j, step)
    ensures Inv(ids, Apply(ids, j, step)) && Extends(j.table, Apply(ids, j, step).table)
  {
    var table := j.table;
    if step.Record? && !Exists(table, ids(j.attempts)) {
      assert table != [] ==> table[0].number != j.attempts by {
        assert table != [] && table[0].number == j.attempts ==> Exists(table, ids(j.attempts));
      }
      var a := Attempt(j.attempts, ids(j.attempts), None);
      assert Apply(ids, j, step).table == [a] + table;
      forall n | 0 <= n < |table| ensures a.number > table[n].number {
        assert table[n].number == j.attempts ==> Exists(table, ids(j.attempts));
      }
      assert ([a] + table)[1..] == table;
    }
  }

  lemma {:induction false} ExtendsOn(a: seq<Attempt>, b: seq<Attempt>, c: seq<Attempt>)
    requires Extends(a, b) && Extends(b, c)
    ensures Extends(a, c)
  {
    var low, high := |c| - |b|, |c| - |a|;
    forall k | 0 <= k < |b| ensures Identity(c[low + k]) == Identity(b[k]) {
      assert Keys(c[low..])[k] == Keys(b)[k];
    }
    forall k | 0 <= k < |a| ensures Identity(c[high + k]) == Identity(a[k]) {
      assert Keys(b[|b| - |a|..])[k] == Keys(a)[k];
      assert Identity(c[low + (|b| - |a| + k)]) == Identity(b[|b| - |a| + k]);
    }
    assert Keys(c[high..]) == Keys(a);
    forall k, n | 0 <= k < high && 0 <= n < |a| ensures c[k].number > a[n].number {
      assert Identity(c[high + n]) == Identity(a[n]) && Identity(c[low + (|b| - |a| + n)]) == Identity(b[|b| - |a| + n]);
      if k >= low {
        assert Identity(c[low + (k - low)]) == Identity(b[k - low]);
      }
    }
  }

  lemma {:induction false} RunExtends(ids: nat -> int, trace: seq<Journal>, steps: seq<Step>, a: nat, b: nat)
    requires Run(ids, trace, steps) && a <= b < |trace|
    ensures Inv(ids, trace[a]) && Inv(ids, trace[b]) && Extends(trace[a].table, trace[b].table)
    decreases b
  {
    hide Inv, Extends, Apply, Enabled;
    if a == b {
      if b == 0 {
        EmptyInv(ids, trace[0]);
      } else {
        RunExtends(ids, trace, steps, b - 1, b - 1);
        StepExtends(ids, trace[b - 1], steps[b - 1]);
      }
      SelfExtends(trace[a].table);
    } else {
      RunExtends(ids, trace, steps, a, b - 1);
      StepExtends(ids, trace[b - 1], steps[b - 1]);
      ExtendsOn(trace[a].table, trace[b - 1].table, trace[b].table);
    }
  }

  lemma {:induction false} EmptyInv(ids: nat -> int, j: Journal)
    requires j.table == []
    ensures Inv(ids, j)
  {
  }

  lemma {:induction false} SelfExtends(table: seq<Attempt>)
    ensures Extends(table, table)
  {
  }

  // ------------------------------------------------------------ a walk

  // Behind a shown key, a later table holds the same attempts as the earlier one.
  lemma {:induction false} SameOlder(old_: seq<Attempt>, new_: seq<Attempt>, n: nat)
    requires Sorted(old_) && Sorted(new_) && Extends(old_, new_) && n < |old_|
    ensures Keys(Older(new_, Some(Identity(old_[n])))) == Keys(old_[n + 1..])
  {
    hide Older, Behind, Sorted;
    var m := |new_| - |old_|;
    forall k | 0 <= k < |old_| ensures Identity(new_[m + k]) == Identity(old_[k]) {
      assert Keys(new_[m..])[k] == Keys(old_)[k];
    }
    OlderAfter(new_, m + n);
    var a, b := Keys(new_[m + n + 1..]), Keys(old_[n + 1..]);
    forall k | 0 <= k < |b| ensures a[k] == b[k] {
      assert Identity(new_[m + (n + 1 + k)]) == Identity(old_[n + 1 + k]);
    }
  }

  datatype Visit = Visit(time: nat, size: nat, page: Page)

  // Each visit follows the cursor of the one before it; the journal moves on in between.
  ghost predicate Walk(trace: seq<Journal>, visits: seq<Visit>) {
    && |visits| > 0 && (forall k | 0 <= k < |visits| :: visits[k].time < |trace|)
    && (forall k | 0 <= k < |visits| :: Answers(trace, visits, k))
    && forall k, n | 0 <= k <= n < |visits| :: visits[k].time <= visits[n].time
  }

  ghost predicate Answers(trace: seq<Journal>, visits: seq<Visit>, k: nat) {
    && k < |visits| && visits[k].time < |trace| && visits[k].size > 0
    && (k > 0 ==> visits[k - 1].page.next.Some?)
    && visits[k].page == ListAttempts(trace[visits[k].time].table, visits[k].size,
                                      if k == 0 then None else visits[k - 1].page.next)
  }

  function Shown(visits: seq<Visit>): seq<Attempt> {
    if visits == [] then [] else Shown(visits[..|visits| - 1]) + visits[|visits| - 1].page.attempts
  }

  lemma {:induction false} KeysJoin(a: seq<Attempt>, b: seq<Attempt>)
    ensures Keys(a + b) == Keys(a) + Keys(b)
  {
  }

  // A page shows the next keys, and hands out the last one exactly when more follow.
  lemma {:induction false} PageShows(table: seq<Attempt>, size: nat, cursor: Option<Key>, want: seq<Key>)
    requires size > 0 && Keys(Older(table, cursor)) == want
    ensures var page := ListAttempts(table, size, cursor);
            && |page.attempts| <= |want| && Keys(page.attempts) == want[..|page.attempts|]
            && (page.next.None? <==> |page.attempts| == |want|)
            && (page.next.Some? ==> |page.attempts| > 0 && page.next.value == want[|page.attempts| - 1])
  {
    hide Older;
    var rest, page := Older(table, cursor), ListAttempts(table, size, cursor);
    var n := |page.attempts|;
    assert page.attempts == rest[..n];
    assert forall k | 0 <= k < n :: Keys(page.attempts)[k] == Keys(rest)[k];
  }

  // After the first `n` visits the walk has shown the first attempts of the table it started on.
  lemma {:induction false} ShownSoFar(ids: nat -> int, trace: seq<Journal>, steps: seq<Step>, visits: seq<Visit>, n: nat)
    returns (shown: nat)
    requires Run(ids, trace, steps) && Walk(trace, visits) && 0 < n <= |visits|
    ensures var first := trace[visits[0].time].table;
            && shown <= |first| && Keys(Shown(visits[..n])) == Keys(first)[..shown]
            && (visits[n - 1].page.next.None? <==> shown == |first|)
            && (visits[n - 1].page.next.Some? ==> shown > 0 && visits[n - 1].page.next.value == Identity(first[shown - 1]))
  {
    hide Run, Inv, Extends, ListAttempts, Older;
    var first := trace[visits[0].time].table;
    assert Answers(trace, visits, 0) && Answers(trace, visits, n - 1);
    var page := visits[n - 1].page;
    assert visits[..n][..n - 1] == visits[..n - 1];
    KeysJoin(Shown(visits[..n - 1]), page.attempts);
    if n == 1 {
      OlderIsWhole(first);
      PageShows(first, visits[0].size, None, Keys(first));
      shown := |page.attempts|;
    } else {
      var before := ShownSoFar(ids, trace, steps, visits, n - 1);
      WalkOlder(ids, trace, steps, visits, n - 1, before);
      PageShows(trace[visits[n - 1].time].table, visits[n - 1].size, visits[n - 2].page.next, Keys(first[before..]));
      shown := before + |page.attempts|;
      assert Keys(first[before..])[..|page.attempts|] == Keys(first)[before..shown];
      assert Keys(first)[..before] + Keys(first)[before..shown] == Keys(first)[..shown];
    }
  }

  lemma {:induction false} WalkOlder(ids: nat -> int, trace: seq<Journal>, steps: seq<Step>, visits: seq<Visit>, n: nat, before: nat)
    requires Run(ids, trace, steps) && Walk(trace, visits) && 0 < n < |visits|
    requires var first := trace[visits[0].time].table;
             0 < before <= |first| && visits[n - 1].page.next == Some(Identity(first[before - 1]))
    ensures Keys(Older(trace[visits[n].time].table, visits[n - 1].page.next)) == Keys(trace[visits[0].time].table[before..])
  {
    hide Run, Extends, ListAttempts, Older, Sorted;
    assert Answers(trace, visits, 0) && Answers(trace, visits, n);
    RunExtends(ids, trace, steps, visits[0].time, visits[n].time);
    SameOlder(trace[visits[0].time].table, trace[visits[n].time].table, before - 1);
  }

  // A walk that reaches its end shows exactly the attempts that were recorded when it began,
  // newest first, none twice, although attempts are recorded between its pages.
  lemma {:induction false} WalkShowsFirstState(ids: nat -> int, trace: seq<Journal>, steps: seq<Step>, visits: seq<Visit>)
    requires Run(ids, trace, steps) && Walk(trace, visits) && visits[|visits| - 1].page.next.None?
    ensures Answers(trace, visits, 0) && Keys(Shown(visits)) == Keys(trace[visits[0].time].table)
    ensures Sorted(trace[visits[0].time].table)
  {
    hide Run, Extends;
    assert Answers(trace, visits, 0);
    var shown := ShownSoFar(ids, trace, steps, visits, |visits|);
    assert visits[..|visits|] == visits;
    RunExtends(ids, trace, steps, visits[0].time, visits[0].time);
    assert Keys(trace[visits[0].time].table)[..shown] == Keys(trace[visits[0].time].table);
  }

  // ------------------------------------------------------------ what a page may show of later states

  predicate Alters(ids: nat -> int, j: Journal, step: Step, a: Attempt) {
    step.Finish? && a.id == ids(j.attempts) && a.outcome != Some(step.outcome)
  }

  predicate Adds(ids: nat -> int, j: Journal, step: Step) {
    step.Record? && !Exists(j.table, ids(j.attempts))
  }

  // A listed row changes exactly when an outcome for its ID comes that differs from its own.
  lemma {:induction false} RowChangesIff(ids: nat -> int, j: Journal, step: Step, k: nat)
    requires Inv(ids, j) && Enabled(j, step) && k < |j.table|
    ensures |Apply(ids, j, step).table| == |j.table| + if Adds(ids, j, step) then 1 else 0
    ensures var table' := Apply(ids, j, step).table;
            && table'[|table'| - |j.table| + k]
               == (if step.Finish? && j.table[k].id == ids(j.attempts) then j.table[k].(outcome := Some(step.outcome)) else j.table[k])
            && (table'[|table'| - |j.table| + k] != j.table[k] <==> Alters(ids, j, step, j.table[k]))
  {
    if Adds(ids, j, step) {
      RecordedInFront(ids, j);
    }
  }

  lemma {:induction false} RecordedInFront(ids: nat -> int, j: Journal)
    requires Inv(ids, j) && j.working && j.attempts > 0 && !Exists(j.table, ids(j.attempts))
    ensures Apply(ids, j, Record).table == [Attempt(j.attempts, ids(j.attempts), None)] + j.table
  {
    if j.table != [] {
      assert j.table[0].number == j.attempts ==> Exists(j.table, ids(j.attempts));
    }
  }

  // The listing changes exactly when a new attempt is recorded or an outcome changes, and never
  // with a new revision: no such change makes a cursor expire.
  lemma {:induction false} ListingIsUnguarded(ids: nat -> int, j: Journal, step: Step)
    requires Inv(ids, j) && Enabled(j, step)
    ensures Apply(ids, j, step).table != j.table
            <==> Adds(ids, j, step) || exists k :: 0 <= k < |j.table| && Alters(ids, j, step, j.table[k])
    ensures Apply(ids, j, step).table != j.table ==> Apply(ids, j, step).revision == j.revision
  {
    var table' := Apply(ids, j, step).table;
    if Adds(ids, j, step) {
      RecordedInFront(ids, j);
    } else {
      assert |table'| == |j.table|;
      forall k | 0 <= k < |j.table| ensures table'[k] != j.table[k] <==> Alters(ids, j, step, j.table[k]) {
        RowChangesIff(ids, j, step, k);
      }
      if table' != j.table {
        var k :| 0 <= k < |j.table| && table'[k] != j.table[k];
        assert Alters(ids, j, step, j.table[k]);
      }
    }
  }

  // The outcome that the last Finish for an ID between two times leaves.
  function LastOutcome(ids: nat -> int, trace: seq<Journal>, steps: seq<Step>, a: nat, b: nat, row: Attempt): Option<string>
    requires b <= |steps| < |trace|
  {
    if b <= a then row.outcome
    else if steps[b - 1].Finish? && row.id == ids(trace[b - 1].attempts) then Some(steps[b - 1].outcome)
    else LastOutcome(ids, trace, steps, a, b - 1, row)
  }

  lemma {:induction false} LaterRow(ids: nat -> int, trace: seq<Journal>, steps: seq<Step>, a: nat, b: nat, r: nat)
    requires Run(ids, trace, steps) && a <= b < |trace| && r < |trace[a].table|
    ensures var first, later := trace[a].table, trace[b].table;
            && |first| <= |later|
            && later[|later| - |first| + r] == first[r].(outcome := LastOutcome(ids, trace, steps, a, b, first[r]))
    decreases b
  {
    hide Inv, Extends, Apply, Enabled, Adds, Alters;
    if a < b {
      LaterRow(ids, trace, steps, a, b - 1, r);
      RunExtends(ids, trace, steps, a, b - 1);
      var before := trace[b - 1].table;
      RowChangesIff(ids, trace[b - 1], steps[b - 1], |before| - |trace[a].table| + r);
    }
  }

  // The visit that shows row `r` of a walk.
  function VisitOf(visits: seq<Visit>, r: nat): (v: nat)
    requires r < |Shown(visits)|
    ensures v < |visits|
  {
    var front := visits[..|visits| - 1];
    if r < |Shown(front)| then VisitOf(front, r) else |visits| - 1
  }

  // Row `r` of a walk is the row of the visited state that stands at its place.
  lemma {:induction false} ShownRow(ids: nat -> int, trace: seq<Journal>, steps: seq<Step>, visits: seq<Visit>, n: nat, r: nat)
    requires Run(ids, trace, steps) && Walk(trace, visits) && 0 < n <= |visits| && r < |Shown(visits[..n])|
    ensures var first, later := trace[visits[0].time].table, trace[visits[VisitOf(visits[..n], r)].time].table;
            r < |first| <= |later| && Shown(visits[..n])[r] == later[|later| - |first| + r]
  {
    hide Run, Inv, Extends, ListAttempts, Older, Walk;
    assert visits[..n][..n - 1] == visits[..n - 1];
    var shown := ShownSoFar(ids, trace, steps, visits, n);
    var before := |Shown(visits[..n - 1])|;
    if r < before {
      ShownRow(ids, trace, steps, visits, n - 1, r);
    } else {
      PageRows(ids, trace, steps, visits, n, before);
    }
  }

  lemma {:induction false} PageRows(ids: nat -> int, trace: seq<Journal>, steps: seq<Step>, visits: seq<Visit>, n: nat, before: nat)
    requires Run(ids, trace, steps) && Walk(trace, visits) && 0 < n <= |visits| && before == |Shown(visits[..n - 1])|
    ensures var first, later := trace[visits[0].time].table, trace[visits[n - 1].time].table;
            && before + |visits[n - 1].page.attempts| <= |first| <= |later|
            && visits[n - 1].page.attempts
               == later[|later| - |first| + before..|later| - |first| + before + |visits[n - 1].page.attempts|]
  {
    hide Run, Inv, Older, Sorted, ListAttempts, Keys, Shown;
    var first, later := trace[visits[0].time].table, trace[visits[n - 1].time].table;
    assert Answers(trace, visits, n - 1);
    PageIsSlice(later, visits[n - 1].size, if n == 1 then None else visits[n - 2].page.next);
    RunExtends(ids, trace, steps, visits[0].time, visits[n - 1].time);
    var shown := ShownSoFar(ids, trace, steps, visits, n);
    KeysOfPrefix(first, shown);
    ShownLength(visits, n);
    SameLength(Shown(visits[..n]), first[..shown]);
    if n == 1 {
      OlderIsWhole(later);
      NothingShown(visits);
    } else {
      var shown' := ShownSoFar(ids, trace, steps, visits, n - 1);
      KeysOfPrefix(first, shown');
      SameLength(Shown(visits[..n - 1]), first[..shown']);
      OlderRows(ids, trace, steps, visits, n, before);
      SliceOfTail(later, |later| - |first| + before, |visits[n - 1].page.attempts|);
    }
  }

  lemma {:induction false} PageIsSlice(table: seq<Attempt>, size: nat, cursor: Option<Key>)
    requires size > 0
    ensures var page := ListAttempts(table, size, cursor);
            |page.attempts| <= |Older(table, cursor)| && page.attempts == Older(table, cursor)[..|page.attempts|]
  {
    hide Older;
  }

  lemma {:induction false} SliceOfTail(table: seq<Attempt>, from: nat, n: nat)
    requires from <= |table| && n <= |table[from..]|
    ensures table[from..][..n] == table[from..from + n]
  {
  }

  lemma {:induction false} ShownLength(visits: seq<Visit>, n: nat)
    requires 0 < n <= |visits|
    ensures |Shown(visits[..n])| == |Shown(visits[..n - 1])| + |visits[n - 1].page.attempts|
  {
    assert visits[..n][..n - 1] == visits[..n - 1];
  }

  lemma {:induction false} NothingShown(visits: seq<Visit>)
    ensures |Shown(visits[..0])| == 0
  {
  }

  lemma {:induction false} KeysOfPrefix(table: seq<Attempt>, n: nat)
    requires n <= |table|
    ensures Keys(table[..n]) == Keys(table)[..n]
  {
  }

  lemma {:induction false} OlderRows(ids: nat -> int, trace: seq<Journal>, steps: seq<Step>, visits: seq<Visit>, n: nat, before: nat)
    requires Run(ids, trace, steps) && Walk(trace, visits) && 1 < n <= |visits|
    requires var first := trace[visits[0].time].table;
             0 < before <= |first| && visits[n - 2].page.next == Some(Identity(first[before - 1]))
    ensures var first, later := trace[visits[0].time].table, trace[visits[n - 1].time].table;
            |first| <= |later| && Older(later, visits[n - 2].page.next) == later[|later| - |first| + before..]
  {
    hide Run, Older;
    var first, later := trace[visits[0].time].table, trace[visits[n - 1].time].table;
    RunExtends(ids, trace, steps, visits[0].time, visits[n - 1].time);
    var m := |later| - |first|;
    assert Keys(later[m..])[before - 1] == Keys(first)[before - 1];
    OlderAfter(later, m + before - 1);
  }

  // A walk shows the rows of its first state, outcomes included, if and only if every row still
  // had its first outcome when its page was read.
  lemma {:induction false} WalkShowsOutcomesIff(ids: nat -> int, trace: seq<Journal>, steps: seq<Step>, visits: seq<Visit>)
    requires Run(ids, trace, steps) && Walk(trace, visits) && visits[|visits| - 1].page.next.None?
    ensures |Shown(visits)| == |trace[visits[0].time].table|
    ensures var first := trace[visits[0].time].table;
            Shown(visits) == first
            <==> forall r | 0 <= r < |first| ::
                   LastOutcome(ids, trace, steps, visits[0].time, visits[VisitOf(visits, r)].time, first[r]) == first[r].outcome
  {
    hide Inv, Extends, Answers, VisitOf, Apply, Enabled, Keys;
    WalkShowsFirstState(ids, trace, steps, visits);
    var first, shown, a := trace[visits[0].time].table, Shown(visits), visits[0].time;
    assert visits[..|visits|] == visits;
    SameLength(shown, first);
    forall r | 0 <= r < |first|
      ensures shown[r] == first[r].(outcome := LastOutcome(ids, trace, steps, a, visits[VisitOf(visits, r)].time, first[r]))
    {
      ShownRow(ids, trace, steps, visits, |visits|, r);
      LaterRow(ids, trace, steps, a, visits[VisitOf(visits, r)].time, r);
    }
    if shown == first {
      forall r | 0 <= r < |first|
        ensures LastOutcome(ids, trace, steps, a, visits[VisitOf(visits, r)].time, first[r]) == first[r].outcome
      {
        assert shown[r] == first[r];
      }
    }
  }

  lemma {:induction false} SameLength(a: seq<Attempt>, b: seq<Attempt>)
    requires Keys(a) == Keys(b)
    ensures |a| == |b|
  {
    assert |Keys(a)| == |a| && |Keys(b)| == |b|;
  }

  // The outcome of an attempt is not guarded: it changes under one revision.
  lemma {:induction false} UnguardedOutcomeExample(ids: nat -> int)
    ensures var begun := Apply(ids, Apply(ids, Journal(0, false, [], 7), Activate), Record);
            var ended := Apply(ids, begun, Finish("success"));
            && ended.revision == begun.revision
            && ListAttempts(begun.table, 1, None).attempts == [Attempt(1, ids(1), None)]
            && ListAttempts(ended.table, 1, None).attempts == [Attempt(1, ids(1), Some("success"))]
  {
    var begun := Apply(ids, Apply(ids, Journal(0, false, [], 7), Activate), Record);
    var ended := Apply(ids, begun, Finish("success"));
    OlderIsWhole(begun.table);
    OlderIsWhole(ended.table);
    assert begun.table == [Attempt(1, ids(1), None)];
    assert ended.table == [Attempt(1, ids(1), Some("success"))];
  }
}
