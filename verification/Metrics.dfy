/** Two reductions of one snapshot: a scan of all rows, and the fast form that reads the telemetry
    projection and the active samples only. */
module Metrics {
  import opened Prelude
  import opened Database
  import opened RunLedger
  import opened Projection
  import opened ProjectionTheorems

  // One engine sample of the active map, keyed by URL.
  datatype Sample = Sample(url: Url, total: Option<nat>, received: Option<nat>, speed: Option<nat>)

  datatype Report = Report(
    retained: int, complete: int, knownTotal: int, knownRemaining: int, unknown: int,
    speed: Option<int>, speedExact: bool, active: bool, eta: Option<real>, elapsed: real)

  function Or0(value: Option<int>): int {
    if value.Some? then value.value else 0
  }

  function Max0(x: int): int {
    if x > 0 then x else 0
  }

  // What one sample adds to each sum of a report; `Silent` counts samples without a speed.
  datatype Part = Known | Total | Remaining | Received | Speed | Silent

  function Measure(part: Part, sample: Option<Sample>): int {
    if sample.None? then 0
    else
      var s := sample.value;
      match part
      case Known => One(s.total.Some?)
      case Total => Or0(s.total)
      case Remaining => if s.total.Some? then Max0(s.total.value - Or0(s.received)) else 0
      case Received => Or0(s.received)
      case Speed => Or0(s.speed)
      case Silent => One(s.speed.None?)
  }

  function Eta(remaining: int, speed: int, active: bool, unknown: int, exact: bool): Option<real> {
    if active && unknown == 0 && speed > 0 && exact then Some(remaining as real / speed as real) else None
  }

  function Elapsed(started: real, sampled: real): real {
    if sampled - started > 0.0 then sampled - started else 0.0
  }

  function Build(completeBytes: int, unknown: int, sums: Part -> int, active: bool, elapsed: real): Report {
    var exact := sums(Silent) == 0;
    Report(completeBytes + sums(Received), completeBytes, completeBytes + sums(Total), sums(Remaining), unknown,
           if active then Some(sums(Speed)) else None, exact, active,
           Eta(sums(Remaining), sums(Speed), active, unknown, exact), elapsed)
  }

  // ------------------------------------------------------------ the scan of the rows

  // The mapping from URL to sample keeps the last one.
  function SampleFor(active: seq<Sample>, i: Url): Option<Sample> {
    if active == [] then None
    else
      var last := active[|active| - 1];
      if last.url == i then Some(last) else SampleFor(active[..|active| - 1], i)
  }

  predicate Open(rows: map<Url, Row>, i: Url) {
    i in rows && !rows[i].status.Complete?
  }

  function ItemSum(rows: map<Url, Row>, items: seq<Url>, active: seq<Sample>, part: Part): int {
    if items == [] then 0
    else
      var last := items[|items| - 1];
      ItemSum(rows, items[..|items| - 1], active, part)
      + if Open(rows, last) then Measure(part, SampleFor(active, last)) else 0
  }

  function OpenItems(rows: map<Url, Row>, items: seq<Url>): nat {
    if items == [] then 0
    else OpenItems(rows, items[..|items| - 1]) + if Open(rows, items[|items| - 1]) then 1 else 0
  }

  function RowBytes(rows: map<Url, Row>, items: seq<Url>): int {
    if items == [] then 0
    else
      var last := items[|items| - 1];
      RowBytes(rows, items[..|items| - 1])
      + if last in rows && rows[last].status.Complete? then SizeOf(FactsOf(rows[last])) else 0
  }

  function RowSums(rows: map<Url, Row>, items: seq<Url>, active: seq<Sample>): Part -> int {
    part => ItemSum(rows, items, active, part)
  }

  function FromRows(rows: map<Url, Row>, items: seq<Url>, active: seq<Sample>, elapsed: real): Report {
    Build(RowBytes(rows, items), OpenItems(rows, items) - ItemSum(rows, items, active, Known),
          RowSums(rows, items, active), active != [], elapsed)
  }

  method ReduceMetrics(rows: map<Url, Row>, items: seq<Url>, active: seq<Sample>, started: real, sampled: real)
    returns (report: Report)
    requires forall k | 0 <= k < |items| :: items[k] in rows
    ensures report == FromRows(rows, items, active, Elapsed(started, sampled))
    ensures report.elapsed == if sampled > started then sampled - started else 0.0
  {
    var complete := 0;
    var k := 0;
    assert items[..0] == [];
    while k < |items|
      invariant 0 <= k <= |items| && complete == RowBytes(rows, items[..k])
    {
      assert items[..k + 1][..k] == items[..k];
      if rows[items[k]].status.Complete? {
        complete := complete + SizeOf(FactsOf(rows[items[k]]));
      }
      k := k + 1;
    }
    assert items[..k] == items;
    var retained, knownTotal, knownRemaining, unknown, speed := complete, complete, 0, 0, 0;
    var exact := true;
    k := 0;
    while k < |items|
      invariant 0 <= k <= |items|
      invariant retained == complete + ItemSum(rows, items[..k], active, Received)
      invariant knownTotal == complete + ItemSum(rows, items[..k], active, Total)
      invariant knownRemaining == ItemSum(rows, items[..k], active, Remaining)
      invariant unknown == OpenItems(rows, items[..k]) - ItemSum(rows, items[..k], active, Known)
      invariant speed == ItemSum(rows, items[..k], active, Speed)
      invariant exact <==> ItemSum(rows, items[..k], active, Silent) == 0
      invariant ItemSum(rows, items[..k], active, Silent) >= 0
    {
      assert items[..k + 1][..k] == items[..k];
      if !rows[items[k]].status.Complete? {
        var sample := SampleFor(active, items[k]);
        var total := if sample.Some? then sample.value.total else None;
        var received := if sample.Some? then sample.value.received else None;
        if total.None? {
          unknown := unknown + 1;
        } else {
          knownTotal := knownTotal + total.value;
          knownRemaining := knownRemaining + Max0(total.value - Or0(received));
        }
        if received.Some? {
          retained := retained + received.value;
        }
        if sample.Some? && sample.value.speed.Some? {
          speed := speed + sample.value.speed.value;
        } else if sample.Some? {
          exact := false;
        }
      }
      k := k + 1;
    }
    assert items[..k] == items;
    report := Report(retained, complete, knownTotal, knownRemaining, unknown,
                     if active != [] then Some(speed) else None, exact, active != [],
                     Eta(knownRemaining, speed, active != [], unknown, exact), Elapsed(started, sampled));
  }

  // ------------------------------------------------------------ the fast form

  function SampleSum(active: seq<Sample>, part: Part): int {
    if active == [] then 0
    else SampleSum(active[..|active| - 1], part) + Measure(part, Some(active[|active| - 1]))
  }

  function SampleSums(active: seq<Sample>): Part -> int {
    part => SampleSum(active, part)
  }

  function FromProjection(selectedCount: int, summary: Summary, active: seq<Sample>, elapsed: real): Report
    requires Full(summary)
  {
    Build(summary.completeBytes, Max0(selectedCount - summary.counts[CompleteItems] - SampleSum(active, Known)),
          SampleSums(active), active != [], elapsed)
  }

  method ReduceProjectedMetrics(selectedCount: int, counts: map<Bucket, int>, completeBytes: int, active: seq<Sample>,
                                started: real, sampled: real)
    returns (report: Report)
    requires forall b: Bucket :: b in counts
    ensures report == FromProjection(selectedCount, Summary(counts, completeBytes, map[], 0), active,
                                     Elapsed(started, sampled))
    ensures report.elapsed == if sampled > started then sampled - started else 0.0
  {
    var retained, knownTotal, knownRemaining, speed, knownActive := completeBytes, completeBytes, 0, 0, 0;
    var exact := true;
    var k := 0;
    assert active[..0] == [];
    while k < |active|
      invariant 0 <= k <= |active|
      invariant retained == completeBytes + SampleSum(active[..k], Received)
      invariant knownTotal == completeBytes + SampleSum(active[..k], Total)
      invariant knownRemaining == SampleSum(active[..k], Remaining)
      invariant knownActive == SampleSum(active[..k], Known)
      invariant speed == SampleSum(active[..k], Speed)
      invariant SampleSum(active[..k], Silent) >= 0 && (exact <==> SampleSum(active[..k], Silent) == 0)
    {
      assert active[..k + 1][..k] == active[..k];
      var sample := active[k];
      if sample.total.Some? {
        knownActive := knownActive + 1;
        knownTotal := knownTotal + sample.total.value;
        knownRemaining := knownRemaining + Max0(sample.total.value - Or0(sample.received));
      }
      if sample.received.Some? {
        retained := retained + sample.received.value;
      }
      if sample.speed.Some? {
        speed := speed + sample.speed.value;
      } else {
        exact := false;
      }
      k := k + 1;
    }
    assert active[..k] == active;
    var unknown := Max0(selectedCount - counts[CompleteItems] - knownActive);
    report := Report(retained, completeBytes, knownTotal, knownRemaining, unknown,
                     if active != [] then Some(speed) else None, exact, active != [],
                     Eta(knownRemaining, speed, active != [], unknown, exact), Elapsed(started, sampled));
  }

  // ------------------------------------------------------------ the fast form refines the scan

  // Active samples of selected, unfinished items, one for an item.
  ghost predicate Slots(rows: map<Url, Row>, items: seq<Url>, active: seq<Sample>) {
    && (forall k, n | 0 <= k < n < |active| :: active[k].url != active[n].url)
    && forall k | 0 <= k < |active| :: active[k].url in items && Open(rows, active[k].url)
  }

  lemma {:induction false} SampleAbsent(active: seq<Sample>, i: Url)
    requires forall k | 0 <= k < |active| :: active[k].url != i
    ensures SampleFor(active, i) == None
  {
    if active != [] {
      SampleAbsent(active[..|active| - 1], i);
    }
  }

  lemma {:induction false} OneMoreSample(rows: map<Url, Row>, items: seq<Url>, active: seq<Sample>, x: Sample, part: Part)
    requires Distinct(items) && (forall k | 0 <= k < |active| :: active[k].url != x.url)
    ensures ItemSum(rows, items, active + [x], part)
            == ItemSum(rows, items, active, part)
               + if x.url in items && Open(rows, x.url) then Measure(part, Some(x)) else 0
  {
    hide Measure;
    if items != [] {
      var front, last := items[..|items| - 1], items[|items| - 1];
      assert items == front + [last];
      OneMoreSample(rows, front, active, x, part);
      assert (active + [x])[..|active|] == active;
      if last == x.url {
        SampleAbsent(active, last);
        NoMeasure(part);
      }
    }
  }

  lemma {:induction false} NoMeasure(part: Part)
    ensures Measure(part, None) == 0
  {
  }

  lemma {:induction false} NoSamples(rows: map<Url, Row>, items: seq<Url>, part: Part)
    ensures ItemSum(rows, items, [], part) == 0
  {
    if items != [] {
      NoSamples(rows, items[..|items| - 1], part);
    }
  }

  lemma {:induction false} SumsAgree(rows: map<Url, Row>, items: seq<Url>, active: seq<Sample>, part: Part)
    requires Distinct(items) && Slots(rows, items, active)
    ensures ItemSum(rows, items, active, part) == SampleSum(active, part)
  {
    hide Measure, ItemSum;
    if active == [] {
      NoSamples(rows, items, part);
    } else {
      var front, last := active[..|active| - 1], active[|active| - 1];
      SumsAgree(rows, items, front, part);
      OneMoreSample(rows, items, front, last, part);
      assert active == front + [last];
    }
  }

  lemma {:induction false} OpenAndComplete(rows: map<Url, Row>, items: seq<Url>, m: nat)
    requires forall k | 0 <= k < |items| :: items[k] in rows
    ensures OpenItems(rows, items) == |items| - Count(rows, items, m, CompleteItems)
    ensures RowBytes(rows, items) == CompleteBytes(rows, items, m)
  {
    if items != [] {
      OpenAndComplete(rows, items[..|items| - 1], m);
    }
  }

  lemma {:induction false} KnownIsOpen(rows: map<Url, Row>, items: seq<Url>, active: seq<Sample>)
    ensures ItemSum(rows, items, active, Known) <= OpenItems(rows, items)
  {
    if items != [] {
      KnownIsOpen(rows, items[..|items| - 1], active);
    }
  }

  lemma {:induction false} SameSums(completeBytes: int, unknown: int, f: Part -> int, g: Part -> int, active: bool, elapsed: real)
    requires forall part :: f(part) == g(part)
    ensures Build(completeBytes, unknown, f, active, elapsed) == Build(completeBytes, unknown, g, active, elapsed)
  {
  }

  // Whenever every active sample belongs to one selected and unfinished item, both reports agree
  // in every field.
  lemma {:induction false} FastFormRefinesScan(l: Ledger, m: nat, active: seq<Sample>, elapsed: real)
    requires WellFormed(l) && Slots(l.rows, l.selected, active)
    ensures FromProjection(|l.selected|, Scan(l, m), active, elapsed) == FromRows(l.rows, l.selected, active, elapsed)
  {
    hide ItemSum, SampleSum, Build, Count;
    forall part ensures RowSums(l.rows, l.selected, active)(part) == SampleSums(active)(part) {
      SumsAgree(l.rows, l.selected, active, part);
    }
    OpenAndComplete(l.rows, l.selected, m);
    SumsAgree(l.rows, l.selected, active, Known);
    KnownIsOpen(l.rows, l.selected, active);
    SameSums(RowBytes(l.rows, l.selected), OpenItems(l.rows, l.selected) - ItemSum(l.rows, l.selected, active, Known),
             RowSums(l.rows, l.selected, active), SampleSums(active), active != [], elapsed);
  }

  // After any committed changes, applied in any order, the projection still yields the report
  // that a scan of the rows yields.
  lemma {:induction false} ProjectedReportAgrees(ledgers: seq<Ledger>, commits: seq<Commit>, n: nat, m: nat, order: seq<Change>,
                              active: seq<Sample>, elapsed: real)
    requires CleanHistory(ledgers, commits) && n <= |commits| && WellFormed(ledgers[n])
    requires multiset(order) == multiset(AllChanges(ledgers, commits, n))
    requires Slots(ledgers[n].rows, ledgers[n].selected, active)
    ensures FromProjection(|ledgers[n].selected|, Replay(Scan(ledgers[0], m), order, m), active, elapsed)
            == FromRows(ledgers[n].rows, ledgers[n].selected, active, elapsed)
  {
    hide Build, SampleSum, ItemSum, AllChanges, Replay;
    AnyOrderAgrees(ledgers, commits, n, m, order);
    FastFormRefinesScan(ledgers[n], m, active, elapsed);
  }

  // ------------------------------------------------------------ samples of items that are complete by now

  // Active samples of selected items, one for an item.
  ghost predicate OneEach(items: seq<Url>, active: seq<Sample>) {
    && (forall k, n | 0 <= k < n < |active| :: active[k].url != active[n].url)
    && forall k | 0 <= k < |active| :: active[k].url in items && active[k].total != Some(0)
  }

  // The sum over the samples of open items, or over the other samples.
  function PartSum(rows: map<Url, Row>, active: seq<Sample>, part: Part, open: bool): nat {
    if active == [] then 0
    else
      var last := active[|active| - 1];
      PartSum(rows, active[..|active| - 1], part, open) + if Open(rows, last.url) == open then Measure(part, Some(last)) else 0
  }

  lemma {:induction false} PartsJoin(rows: map<Url, Row>, items: seq<Url>, active: seq<Sample>, part: Part)
    requires Distinct(items) && OneEach(items, active)
    ensures ItemSum(rows, items, active, part) == PartSum(rows, active, part, true)
    ensures SampleSum(active, part) == PartSum(rows, active, part, true) + PartSum(rows, active, part, false)
  {
    hide Measure, ItemSum;
    if active == [] {
      NoSamples(rows, items, part);
    } else {
      var front, last := active[..|active| - 1], active[|active| - 1];
      PartsJoin(rows, items, front, part);
      OneMoreSample(rows, items, front, last, part);
      assert active == front + [last];
    }
  }

  // The parts of the sum are not negative, so they cancel nothing.
  lemma {:induction false} PartIsZeroIff(rows: map<Url, Row>, active: seq<Sample>, part: Part, open: bool)
    ensures PartSum(rows, active, part, open) == 0
            <==> forall k | 0 <= k < |active| && Open(rows, active[k].url) == open :: Measure(part, Some(active[k])) == 0
  {
    hide Measure, Open;
    if active != [] {
      var front, last := active[..|active| - 1], active[|active| - 1];
      PartIsZeroIff(rows, front, part, open);
      assert forall k | 0 <= k < |front| :: front[k] == active[k];
      MeasureIsNatural(part, last);
    }
  }

  lemma {:induction false} MeasureIsNatural(part: Part, sample: Sample)
    ensures Measure(part, Some(sample)) >= 0
  {
  }

  // Counters that add nothing to a report.
  predicate Mute(sample: Sample) {
    sample.total.None? && Or0(sample.received) == 0 && Or0(sample.speed) == 0
  }

  // A sample of an item that is not open adds nothing, and hides no exact speed.
  ghost predicate Harmless(rows: map<Url, Row>, active: seq<Sample>) {
    forall k | 0 <= k < |active| && !Open(rows, active[k].url) ::
      Mute(active[k]) && (active[k].speed.None? ==> exists n :: 0 <= n < |active| && OpenSilent(rows, active[n]))
  }

  predicate OpenSilent(rows: map<Url, Row>, sample: Sample) {
    Open(rows, sample.url) && sample.speed.None?
  }

  lemma {:induction false} HarmlessSums(rows: map<Url, Row>, active: seq<Sample>)
    requires forall k | 0 <= k < |active| :: active[k].total != Some(0)
    ensures var stale := part => PartSum(rows, active, part, false);
            Harmless(rows, active)
            <==> && stale(Received) == 0 && stale(Total) == 0 && stale(Speed) == 0
                 && (stale(Silent) == 0 || PartSum(rows, active, Silent, true) != 0)
    ensures Harmless(rows, active)
            ==> PartSum(rows, active, Remaining, false) == 0 && PartSum(rows, active, Known, false) == 0
  {
    hide PartSum, Open;
    forall part, open
      ensures PartSum(rows, active, part, open) == 0
              <==> forall k | 0 <= k < |active| && Open(rows, active[k].url) == open :: Measure(part, Some(active[k])) == 0
    {
      PartIsZeroIff(rows, active, part, open);
    }
  }

  // With samples of any selected items, some of which may be complete by now, both reports agree in
  // every field if and only if the samples of complete items are harmless.
  lemma {:induction false} ReportsAgreeIff(l: Ledger, m: nat, active: seq<Sample>, elapsed: real)
    requires WellFormed(l) && OneEach(l.selected, active)
    ensures FromProjection(|l.selected|, Scan(l, m), active, elapsed) == FromRows(l.rows, l.selected, active, elapsed)
            <==> Harmless(l.rows, active)
  {
    hide ItemSum, SampleSum, PartSum, Count, Harmless, Open;
    forall part
      ensures RowSums(l.rows, l.selected, active)(part) == PartSum(l.rows, active, part, true)
      ensures SampleSums(active)(part) == PartSum(l.rows, active, part, true) + PartSum(l.rows, active, part, false)
    {
      PartsJoin(l.rows, l.selected, active, part);
    }
    OpenAndComplete(l.rows, l.selected, m);
    KnownIsOpen(l.rows, l.selected, active);
    HarmlessSums(l.rows, active);
    NoSamplesNoStale(l.rows, active);
  }

  lemma {:induction false} NoSamplesNoStale(rows: map<Url, Row>, active: seq<Sample>)
    ensures active == [] ==> forall part :: PartSum(rows, active, part, false) == 0
  {
  }

  // ------------------------------------------------------------ what the reports say

  // The sum over all samples.
  function Over(active: seq<Sample>, f: Sample -> int): int {
    if active == [] then 0 else Over(active[..|active| - 1], f) + f(active[|active| - 1])
  }

  // The sum over the samples of the listed items that are not complete.
  function OverItems(rows: map<Url, Row>, items: seq<Url>, active: seq<Sample>, f: Sample -> int): int {
    if items == [] then 0
    else
      var last, sample := items[|items| - 1], SampleFor(active, items[|items| - 1]);
      OverItems(rows, items[..|items| - 1], active, f)
      + if last in rows && !rows[last].status.Complete? && sample.Some? then f(sample.value) else 0
  }

  // The listed items that are not complete and whose length no sample gives.
  function Lengthless(rows: map<Url, Row>, items: seq<Url>, active: seq<Sample>): set<Url> {
    set i | i in items && i in rows && !rows[i].status.Complete?
            && !(SampleFor(active, i).Some? && SampleFor(active, i).value.total.Some?)
  }

  function Bytes(counter: Option<nat>): nat {
    if counter.Some? then counter.value else 0
  }

  // What one sample says: received bytes, length, missing bytes, speed, and whether it lacks a speed
  // or has a length.
  function Got(s: Sample): int {
    Bytes(s.received)
  }

  function Length(s: Sample): int {
    Bytes(s.total)
  }

  function Rate(s: Sample): int {
    Bytes(s.speed)
  }

  function NoRate(s: Sample): int {
    if s.speed.Some? then 0 else 1
  }

  function HasLength(s: Sample): int {
    if s.total.Some? then 1 else 0
  }

  function Missing(s: Sample): int {
    if s.total.Some? && s.total.value > Bytes(s.received) then s.total.value - Bytes(s.received) else 0
  }

  // The estimate, when there is one, is the time that the missing bytes take at the measured speed.
  predicate EtaMeans(r: Report) {
    && (r.eta.Some? <==> r.active && r.unknown == 0 && r.speed.Some? && r.speed.value > 0 && r.speedExact)
    && (r.eta.Some? ==> r.eta.value * r.speed.value as real == r.knownRemaining as real)
  }

  lemma {:induction false} SampleForIs(active: seq<Sample>, i: Url)
    ensures var sample := SampleFor(active, i);
            && (sample.None? <==> forall k | 0 <= k < |active| :: active[k].url != i)
            && (sample.Some? ==> exists k :: 0 <= k < |active| && active[k] == sample.value && active[k].url == i
                                             && forall n | k < n < |active| :: active[n].url != i)
  {
    if active != [] {
      var front, last := active[..|active| - 1], active[|active| - 1];
      SampleForIs(front, i);
      if last.url != i && SampleFor(front, i).Some? {
        var k :| 0 <= k < |front| && front[k] == SampleFor(front, i).value && front[k].url == i
                 && forall n | k < n < |front| :: front[n].url != i;
        assert active[k] == front[k] && forall n | k < n < |active| :: active[n].url != i;
      }
    }
  }

  lemma {:induction false} OverItemsIs(rows: map<Url, Row>, items: seq<Url>, active: seq<Sample>, part: Part, f: Sample -> int)
    requires forall s: Sample :: f(s) == Measure(part, Some(s))
    ensures ItemSum(rows, items, active, part) == OverItems(rows, items, active, f)
  {
    hide Measure;
    if items != [] {
      OverItemsIs(rows, items[..|items| - 1], active, part, f);
      NoMeasure(part);
    }
  }

  lemma {:induction false} OverIs(active: seq<Sample>, part: Part, f: Sample -> int)
    requires forall s: Sample :: f(s) == Measure(part, Some(s))
    ensures SampleSum(active, part) == Over(active, f)
  {
    hide Measure;
    if active != [] {
      OverIs(active[..|active| - 1], part, f);
    }
  }

  lemma {:induction false} LengthlessIs(rows: map<Url, Row>, items: seq<Url>, active: seq<Sample>)
    requires Distinct(items)
    ensures OpenItems(rows, items) - ItemSum(rows, items, active, Known) == |Lengthless(rows, items, active)|
  {
    if items != [] {
      var front, last := items[..|items| - 1], items[|items| - 1];
      LengthlessIs(rows, front, active);
      LengthlessGrows(rows, front, last, active);
      assert items == front + [last];
    }
  }

  lemma {:induction false} LengthlessGrows(rows: map<Url, Row>, front: seq<Url>, last: Url, active: seq<Sample>)
    requires Distinct(front + [last])
    ensures |Lengthless(rows, front + [last], active)|
            == |Lengthless(rows, front, active)|
               + if Open(rows, last) && !(SampleFor(active, last).Some? && SampleFor(active, last).value.total.Some?) then 1 else 0
  {
    hide SampleFor;
    var items := front + [last];
    assert last !in front by {
      assert forall k | 0 <= k < |front| :: items[k] == front[k];
      assert items[|front|] == last;
    }
    var few, all := Lengthless(rows, front, active), Lengthless(rows, items, active);
    assert all == if last in all then few + {last} else few;
  }

  lemma {:induction false} EtaIs(remaining: int, speed: int, active: bool, unknown: int, exact: bool)
    ensures var eta := Eta(remaining, speed, active, unknown, exact);
            && (eta.Some? <==> active && unknown == 0 && speed > 0 && exact)
            && (eta.Some? ==> eta.value * speed as real == remaining as real)
  {
  }

  // The report of a row scan, field by field.
  lemma {:induction false} RowReportMeans(rows: map<Url, Row>, items: seq<Url>, active: seq<Sample>, elapsed: real)
    requires Distinct(items)
    ensures var r := FromRows(rows, items, active, elapsed);
            && r.complete == BytesOfComplete(rows, items)
            && r.retained == r.complete + OverItems(rows, items, active, Got)
            && r.knownTotal == r.complete + OverItems(rows, items, active, Length)
            && r.knownRemaining == OverItems(rows, items, active, Missing)
            && r.unknown == |Lengthless(rows, items, active)|
            && r.active == (|active| > 0) && (r.speed.Some? <==> r.active)
            && (r.speed.Some? ==> r.speed.value == OverItems(rows, items, active, Rate))
            && (r.speedExact <==> OverItems(rows, items, active, NoRate) == 0)
            && EtaMeans(r) && r.elapsed == elapsed
  {
    hide ItemSum, OverItems, Lengthless, RowBytes, BytesOfComplete, SampleFor;
    OverItemsIs(rows, items, active, Received, Got);
    OverItemsIs(rows, items, active, Total, Length);
    OverItemsIs(rows, items, active, Remaining, Missing);
    OverItemsIs(rows, items, active, Speed, Rate);
    OverItemsIs(rows, items, active, Silent, NoRate);
    LengthlessIs(rows, items, active);
    RowBytesAre(rows, items);
  }

  lemma {:induction false} RowBytesAre(rows: map<Url, Row>, items: seq<Url>)
    ensures RowBytes(rows, items) == BytesOfComplete(rows, items)
  {
    if items != [] {
      RowBytesAre(rows, items[..|items| - 1]);
    }
  }

  // The report of the counts and the samples, field by field.
  lemma {:induction false} ProjectedReportMeans(selectedCount: int, summary: Summary, active: seq<Sample>, elapsed: real)
    requires Full(summary)
    ensures var r := FromProjection(selectedCount, summary, active, elapsed);
            var unknown := selectedCount - summary.counts[CompleteItems] - Over(active, HasLength);
            && r.complete == summary.completeBytes
            && r.retained == r.complete + Over(active, Got)
            && r.knownTotal == r.complete + Over(active, Length)
            && r.knownRemaining == Over(active, Missing)
            && r.unknown == (if unknown > 0 then unknown else 0)
            && r.active == (|active| > 0) && (r.speed.Some? <==> r.active)
            && (r.speed.Some? ==> r.speed.value == Over(active, Rate))
            && (r.speedExact <==> Over(active, NoRate) == 0)
            && EtaMeans(r) && r.elapsed == elapsed
  {
    hide SampleSum, Over;
    OverIs(active, Known, HasLength);
    OverIs(active, Received, Got);
    OverIs(active, Total, Length);
    OverIs(active, Remaining, Missing);
    OverIs(active, Speed, Rate);
    OverIs(active, Silent, NoRate);
  }

  // A slot that outlives its completion would be counted twice.
  lemma {:induction false} StaleSlotExample()
    ensures var row := NewRow("a", "a", None, None).(status := Complete, bytes := Some(5));
            var l := Ledger(map["a" := row], ["a"], 0, map[]);
            var active := [Sample("a", Some(5), Some(5), None)];
            FromProjection(1, Scan(l, 0), active, 0.0).retained == 10
            && FromRows(l.rows, l.selected, active, 0.0).retained == 5
  {
    var row := NewRow("a", "a", None, None).(status := Complete, bytes := Some(5));
    var rows := map["a" := row];
    var active := [Sample("a", Some(5), Some(5), None)];
    assert active[..0] == [] && ["a"][..0] == [];
    assert CompleteBytes(rows, ["a"], 0) == CompleteBytes(rows, [], 0) + 5;
    assert RowBytes(rows, ["a"]) == RowBytes(rows, []) + 5;
    assert SampleSum(active, Received) == SampleSum([], Received) + 5;
    assert ItemSum(rows, ["a"], active, Received) == ItemSum(rows, [], active, Received);
  }

  // ------------------------------------------------------------ the active map

  class TelemetryPublisher {
    var active: map<Url, Sample>

    ghost predicate Valid()
      reads this
    {
      forall i | i in active :: active[i].url == i && active[i].total != Some(0)
    }

    constructor ()
      ensures Valid() && active == map[]
    {
      active := map[];
    }

    method SetActive(i: Url)
      requires Valid()
      modifies this
      ensures Valid() && active == old(active)[i := Sample(i, None, None, None)]
    {
      active := active[i := Sample(i, None, None, None)];
    }

    // A total of zero means that the engine does not know the length yet.
    method UpdateSample(i: Url, received: Option<nat>, total: Option<nat>, speed: Option<nat>)
      requires Valid()
      modifies this
      ensures Valid() && active.Keys == old(active.Keys)
      ensures active == if i in old(active) then old(active)[i := Sample(i, if total == Some(0) then None else total, received, speed)]
                        else old(active)
    {
      if i !in active {
        return;
      }
      var known := if total.Some? && total.value != 0 then total else None;
      active := active[i := active[i].(received := received, total := known, speed := speed)];
    }

    method ClearActive(i: Url)
      requires Valid()
      modifies this
      ensures Valid() && active == old(active) - {i}
    {
      active := active - {i};
    }

    // One sample for every active item, in any order.
    method RuntimeCopy() returns (copy: seq<Sample>)
      requires Valid()
      ensures forall k, n | 0 <= k < n < |copy| :: copy[k].url != copy[n].url
      ensures forall k | 0 <= k < |copy| :: copy[k].url in active && active[copy[k].url] == copy[k]
      ensures forall i | i in active :: active[i] in copy
    {
      copy := [];
      var left := active.Keys;
      while left != {}
        invariant left <= active.Keys
        invariant forall k, n | 0 <= k < n < |copy| :: copy[k].url != copy[n].url
        invariant forall k | 0 <= k < |copy| :: copy[k].url in active.Keys - left && active[copy[k].url] == copy[k]
        invariant forall i | i in active.Keys - left :: active[i] in copy
        decreases left
      {
        var i :| i in left;
        left := left - {i};
        copy := copy + [active[i]];
      }
    }
  }
}
