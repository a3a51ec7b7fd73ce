/** The published metrics of a serving run: the publisher copies its active samples first and the
    projection later, so an item may complete between the two copies. */
module RunMetrics {
  import opened Prelude
  import opened Database
  import opened FileSystem
  import opened Promotion
  import opened PromotionSafety
  import opened PromotionSteps
  import opened PromotionTheorems
  import L = RunLedger
  import M = Metrics
  import P = Projection
  import Scheduler
  import MovedStorage

  // ------------------------------------------------------------ the selection stays within the rows

  lemma {:induction false} TaskKeepsRuns(h: Hash, s: State, i: Url, t: TaskStep)
    requires s.disk.files.Valid() && Enabled(h, s, Task(i, t))
    ensures TaskApply(h, s, i, t).disk.runs == s.disk.runs && TaskApply(h, s, i, t).phase == s.phase
  {
    match t
    case Admission(a) =>
    case Engine(e) =>
    case Judge(j) =>
    case Promote(p) =>
    case Move(m) =>
    case Recheck(r) =>
  }

  lemma {:induction false} RecoveryKeepsRuns(h: Hash, disk: Disk, session: nat, i: Url, r: RecoveryStep)
    requires disk.files.Valid() && RecoveryEnabled(h, disk, session, i, r)
    ensures RecoveryApply(h, disk, session, i, r).runs == disk.runs
  {
  }

  // Only the scoping of a starting run changes a selection, and it selects rows of the database.
  lemma {:induction false} StepRuns(h: Hash, s: State, step: Step, run: string)
    requires s.disk.files.Valid() && Enabled(h, s, step)
    requires run in Apply(h, s, step).disk.runs
    ensures var runs := Apply(h, s, step).disk.runs;
            (run in s.disk.runs && runs[run] == s.disk.runs[run])
            || (s.phase.Starting? && runs[run] <= s.disk.rows.Keys)
  {
    hide TaskApply, RecoveryApply, RecoveryEnabled;
    match step
    case Task(i, t) => TaskKeepsRuns(h, s, i, t);
    case Recover(i, r) => RecoveryKeepsRuns(h, s.disk, s.session, i, r);
    case _ =>
  }

  lemma {:induction false} SelectionHasRows(h: Hash, trace: seq<State>, steps: seq<Step>, k: nat, run: string)
    requires RunFromFresh(h, trace, steps) && k < |trace| && run in trace[k].disk.runs
    ensures trace[k].disk.runs[run] <= trace[k].disk.rows.Keys
  {
    hide Inv, Enabled, Apply;
    if k > 0 {
      RunStep(h, trace, steps, k - 1);
      StepRuns(h, trace[k - 1], steps[k - 1], run);
      if run in trace[k - 1].disk.runs {
        SelectionHasRows(h, trace, steps, k - 1, run);
      }
      forall i | i in trace[k].disk.runs[run] ensures i in trace[k].disk.rows {
        Scheduler.RowsStay(h, trace, steps, k - 1, i);
      }
    }
  }

  // ------------------------------------------------------------ slots

  // No crash and no start between the two states.
  predicate Serves(trace: seq<State>, a: nat, b: nat)
    requires b < |trace|
  {
    forall j | a <= j <= b :: trace[j].phase.Serving?
  }

  predicate Completes(step: Step, i: Url) {
    step == Task(i, TaskStep.Promote(CommitComplete))
  }

  // The publisher may hold a slot of the item: its task held one, and has not committed a completion
  // since. The slot of a task that ends in a review or a retry is cleared only after its commit.
  ghost predicate SlotSince(trace: seq<State>, steps: seq<Step>, c: nat, a: nat, i: Url)
    requires |trace| == |steps| + 1 && a < |trace|
  {
    && c <= a && Serves(trace, c, a) && i in trace[c].tasks && HoldsSlot(trace[c].tasks[i])
    && forall j | c <= j < a :: !Completes(steps[j], i)
  }

  // A copy of the active map: samples of distinct items, each with a slot.
  ghost predicate Copied(trace: seq<State>, steps: seq<Step>, a: nat, active: seq<M.Sample>)
    requires |trace| == |steps| + 1 && a < |trace|
  {
    && (forall k, n | 0 <= k < n < |active| :: active[k].url != active[n].url)
    && forall k | 0 <= k < |active| ::
         active[k].total != Some(0) && exists c :: SlotSince(trace, steps, c, a, active[k].url)
  }

  // The selected items of a serving run, in any order.
  ghost predicate Lists(items: seq<Url>, selected: set<Url>) {
    Distinct(items) && forall i :: i in items <==> i in selected
  }

  function LedgerOf(s: State, items: seq<Url>): L.Ledger {
    L.Ledger(s.disk.rows, items, 0, map[])
  }

  predicate Unfinished(s: State, i: Url) {
    i in s.disk.rows && !s.disk.rows[i].status.Complete?
  }

  lemma {:induction false} TaskCompletes(h: Hash, s: State, i: Url, t: TaskStep, j: Url)
    requires ItemInv(h, s, i) && Enabled(h, s, Task(i, t)) && Unfinished(s, j) && !Completes(Task(i, t), j)
    ensures Unfinished(TaskApply(h, s, i, t), j)
  {
    if i == j {
      match t
      case Admission(a) =>
      case Engine(e) =>
      case Judge(u) =>
      case Promote(p) => assert i in s.tasks && TaskOk(h, s, i);
      case Move(m) =>
      case Recheck(r) =>
    } else {
      var row := TaskRow(h, s, i, t);
    }
  }

  // While a run serves, only the completing commit of a transfer completes a row.
  lemma {:induction false} StepCompletes(h: Hash, s: State, step: Step, j: Url)
    requires Inv(h, s) && Enabled(h, s, step) && s.phase.Serving? && Unfinished(s, j) && !Completes(step, j)
    ensures Unfinished(Apply(h, s, step), j)
  {
    hide TaskApply, RecoveryApply, RecoveryEnabled;
    if step.Task? {
      TaskCompletes(h, s, step.item, step.task, j);
    }
  }

  lemma {:induction false} StaysUnfinished(h: Hash, trace: seq<State>, steps: seq<Step>, a: nat, b: nat, i: Url)
    requires RunFromFresh(h, trace, steps) && a <= b < |trace| && Serves(trace, a, b) && Unfinished(trace[a], i)
    requires forall j | a <= j < b :: !Completes(steps[j], i)
    ensures Unfinished(trace[b], i)
  {
    hide Inv, Enabled, Apply, Completes, Unfinished;
    if a < b {
      StaysUnfinished(h, trace, steps, a, b - 1, i);
      RunStep(h, trace, steps, b - 1);
      StepCompletes(h, trace[b - 1], steps[b - 1], i);
    }
  }

  // While a run serves, its selection stays the same.
  lemma {:induction false} SelectionStays(h: Hash, trace: seq<State>, steps: seq<Step>, a: nat, b: nat)
    requires RunFromFresh(h, trace, steps) && a <= b < |trace| && Serves(trace, a, b)
    ensures Selected(trace[b]) == Selected(trace[a])
  {
    hide Inv, Enabled, Apply, Selected;
    if a < b {
      SelectionStays(h, trace, steps, a, b - 1);
      RunStep(h, trace, steps, b - 1);
      ServingStep(h, trace[b - 1], steps[b - 1]);
    }
  }

  lemma {:induction false} ServingStep(h: Hash, s: State, step: Step)
    requires s.disk.files.Valid() && Enabled(h, s, step) && s.phase.Serving? && Apply(h, s, step).phase.Serving?
    ensures Selected(Apply(h, s, step)) == Selected(s)
  {
    hide TaskApply, RecoveryApply, RecoveryEnabled;
    match step
    case Task(i, t) => TaskKeepsRuns(h, s, i, t);
    case _ =>
  }

  // A slot belongs to a selected item that is not complete.
  lemma {:induction false} SlotIsUnfinished(h: Hash, trace: seq<State>, steps: seq<Step>, c: nat, a: nat, i: Url)
    requires RunFromFresh(h, trace, steps) && a < |trace| && SlotSince(trace, steps, c, a, i)
    ensures Unfinished(trace[a], i) && i in Selected(trace[a])
  {
    hide Completes, Selected;
    SlotsAreIncomplete(h, trace, steps, c, i);
    StaysUnfinished(h, trace, steps, c, a, i);
    TasksAreSelected(h, trace, steps, c);
    SelectionStays(h, trace, steps, c, a);
  }

  // ------------------------------------------------------------ published reports

  lemma {:induction false} RunLedgerIsWellFormed(h: Hash, trace: seq<State>, steps: seq<Step>, b: nat, items: seq<Url>)
    requires RunFromFresh(h, trace, steps) && b < |trace| && trace[b].phase.Serving? && Lists(items, Selected(trace[b]))
    ensures L.WellFormed(LedgerOf(trace[b], items))
  {
    var run := trace[b].phase.run;
    if run in trace[b].disk.runs {
      SelectionHasRows(h, trace, steps, b, run);
    }
    forall k | 0 <= k < |items| ensures items[k] in trace[b].disk.rows {
      assert items[k] in items;
    }
  }

  lemma {:induction false} CopyIsSelected(h: Hash, trace: seq<State>, steps: seq<Step>, a: nat, b: nat, items: seq<Url>,
                                          active: seq<M.Sample>)
    requires RunFromFresh(h, trace, steps) && a <= b < |trace| && Serves(trace, a, b)
    requires Copied(trace, steps, a, active) && Lists(items, Selected(trace[b]))
    ensures M.OneEach(items, active)
    ensures forall k | 0 <= k < |active| :: Unfinished(trace[a], active[k].url)
  {
    hide SlotSince, Selected, Unfinished, Serves;
    SelectionStays(h, trace, steps, a, b);
    forall k | 0 <= k < |active| ensures active[k].url in items && Unfinished(trace[a], active[k].url) {
      var c :| SlotSince(trace, steps, c, a, active[k].url);
      SlotIsUnfinished(h, trace, steps, c, a, active[k].url);
    }
  }

  // In every reachable state of a serving run: the published report, made of the active samples of
  // one state and the projection of a later one, is the report of a row scan if and only if the
  // samples of the items that are complete by then are harmless.
  lemma {:induction false} PublishedReportAgreesIff(h: Hash, trace: seq<State>, steps: seq<Step>, a: nat, b: nat,
                                                    items: seq<Url>, m: nat, active: seq<M.Sample>, elapsed: real)
    requires RunFromFresh(h, trace, steps) && a <= b < |trace| && Serves(trace, a, b)
    requires Copied(trace, steps, a, active) && Lists(items, Selected(trace[b]))
    ensures M.FromProjection(|items|, P.Scan(LedgerOf(trace[b], items), m), active, elapsed)
            == M.FromRows(trace[b].disk.rows, items, active, elapsed)
            <==> M.Harmless(trace[b].disk.rows, active)
  {
    hide Copied, Serves, Selected, M.Harmless;
    CopyIsSelected(h, trace, steps, a, b, items, active);
    assert trace[b].phase.Serving? by {
      ServesAt(trace, a, b);
    }
    RunLedgerIsWellFormed(h, trace, steps, b, items);
    M.ReportsAgreeIff(LedgerOf(trace[b], items), m, active, elapsed);
  }

  lemma {:induction false} ServesAt(trace: seq<State>, a: nat, b: nat)
    requires a <= b < |trace| && Serves(trace, a, b)
    ensures trace[b].phase.Serving?
  {
  }

  // So the report is right whenever no sampled item commits its completion between the two copies,
  // and always when both copies show one state.
  lemma {:induction false} PublishedReportAgrees(h: Hash, trace: seq<State>, steps: seq<Step>, a: nat, b: nat,
                                                 items: seq<Url>, m: nat, active: seq<M.Sample>, elapsed: real)
    requires RunFromFresh(h, trace, steps) && a <= b < |trace| && Serves(trace, a, b)
    requires Copied(trace, steps, a, active) && Lists(items, Selected(trace[b]))
    requires forall j, k | a <= j < b && 0 <= k < |active| :: !Completes(steps[j], active[k].url)
    ensures M.FromProjection(|items|, P.Scan(LedgerOf(trace[b], items), m), active, elapsed)
            == M.FromRows(trace[b].disk.rows, items, active, elapsed)
  {
    hide Copied, Serves, Lists, Selected, Completes, M.FromProjection, M.FromRows, P.Scan;
    CopyIsSelected(h, trace, steps, a, b, items, active);
    PublishedReportAgreesIff(h, trace, steps, a, b, items, m, active, elapsed);
    forall k | 0 <= k < |active| ensures M.Open(trace[b].disk.rows, active[k].url) {
      StaysUnfinished(h, trace, steps, a, b, active[k].url);
    }
  }

  // The metrics read the counts and the bytes of the projection only.
  lemma {:induction false} CountsSuffice(selectedCount: int, counts: map<L.Bucket, int>, completeBytes: int,
                                         summary: P.Summary, active: seq<M.Sample>, elapsed: real)
    requires P.Full(summary) && counts == summary.counts && completeBytes == summary.completeBytes
    ensures M.FromProjection(selectedCount, P.Summary(counts, completeBytes, map[], 0), active, elapsed)
            == M.FromProjection(selectedCount, summary, active, elapsed)
  {
    hide M.SampleSum, M.Build;
  }

  // publish(): the runtime copy first, the projection as it is later. The projection reflects the
  // rows of the state `b`.
  method Publish(t: M.TelemetryPublisher, selectedCount: nat, counts: map<L.Bucket, int>, completeBytes: int,
                 started: real, sampled: real, ghost h: Hash, ghost trace: seq<State>, ghost steps: seq<Step>,
                 ghost a: nat, ghost b: nat, ghost items: seq<Url>, ghost m: nat)
    returns (active: seq<M.Sample>, report: M.Report)
    requires RunFromFresh(h, trace, steps) && a <= b < |trace| && Serves(trace, a, b) && Lists(items, Selected(trace[b]))
    requires t.Valid() && forall i | i in t.active :: exists c :: SlotSince(trace, steps, c, a, i)
    requires selectedCount == |items| && counts == P.Scan(LedgerOf(trace[b], items), m).counts
             && completeBytes == P.Scan(LedgerOf(trace[b], items), m).completeBytes
    ensures Copied(trace, steps, a, active) && forall i | i in t.active :: t.active[i] in active
    ensures report == M.FromRows(trace[b].disk.rows, items, active, M.Elapsed(started, sampled))
            <==> M.Harmless(trace[b].disk.rows, active)
  {
    hide Run, Fresh, Serves, Lists, Selected, P.Scan, M.Harmless, M.FromRows, M.FromProjection, SlotSince;
    active := t.RuntimeCopy();
    report := M.ReduceProjectedMetrics(selectedCount, counts, completeBytes, active, started, sampled);
    CountsSuffice(selectedCount, counts, completeBytes, P.Scan(LedgerOf(trace[b], items), m), active,
                  M.Elapsed(started, sampled));
    PublishedReportAgreesIff(h, trace, steps, a, b, items, m, active, M.Elapsed(started, sampled));
  }

  // ------------------------------------------------------------ one item counted twice

  function Done(h: Hash): Row {
    MovedStorage.Intent(h).(status := Complete)
  }

  function FinalLinked(h: Hash, row: Row, records: seq<Record>, pc: Pc): State {
    State(Disk(Files(map[Staging("u") := 0, Final("a b") := 0], map[0 := [1]], {}), map["u" := row], MovedStorage.Runs, records),
          1, Serving("run"), map["u" := pc], {h([1])})
  }

  lemma {:induction false} Promotes(h: Hash, trace: seq<State>, steps: seq<Step>)
    returns (trace': seq<State>, steps': seq<Step>)
    requires MovedStorage.Ends(h, trace, steps, MovedStorage.Intending(h))
    ensures MovedStorage.Ends(h, trace', steps', FinalLinked(h, MovedStorage.Intent(h), [Finalized(1, "u", "a b", h([1]), 1)],
                                                           Recorded(h([1]))))
  {
    hide MovedStorage.Ends, Run;
    var d, row := h([1]), MovedStorage.Intent(h);
    var s1, s2 := FinalLinked(h, row, [], Linked(d)), FinalLinked(h, row, [Finalized(1, "u", "a b", d, 1)], Recorded(d));
    trace', steps' := MovedStorage.Go(h, trace, steps, MovedStorage.Intending(h), Task("u", Promote(LinkFinal)), s1);
    trace', steps' := MovedStorage.Go(h, trace', steps', s1, Task("u", Promote(RecordFinal)), s2);
  }

  lemma {:induction false} ToIntent(h: Hash) returns (trace: seq<State>, steps: seq<Step>)
    ensures MovedStorage.Ends(h, trace, steps, MovedStorage.Intending(h))
  {
    hide MovedStorage.Ends, MovedStorage.Intending;
    trace, steps := MovedStorage.Selects(h);
    var s;
    trace, steps, s := MovedStorage.Admits(h, trace, steps);
    trace, steps := MovedStorage.Downloads(h, trace, steps, s);
    trace, steps := MovedStorage.Intends(h, trace, steps);
  }

  // A run whose publisher copies the slot of a transfer just before it commits its completion, and the
  // projection just after: the one retained byte is reported twice.
  lemma {:induction false} DoubleCountExample(h: Hash) returns (trace: seq<State>, steps: seq<Step>, a: nat)
    ensures RunFromFresh(h, trace, steps) && a + 1 < |trace| && Serves(trace, a, a + 1)
    ensures var active := [M.Sample("u", Some(1), Some(1), Some(1))];
            && Copied(trace, steps, a, active) && Lists(["u"], Selected(trace[a + 1]))
            && M.FromProjection(1, P.Scan(LedgerOf(trace[a + 1], ["u"]), 0), active, 0.0).retained == 2
            && M.FromRows(trace[a + 1].disk.rows, ["u"], active, 0.0).retained == 1
  {
    hide Run, Fresh, P.Scan, M.FromRows, M.FromProjection;
    trace, steps := ToIntent(h);
    trace, steps := Promotes(h, trace, steps);
    a := |steps|;
    var d, records := h([1]), [Finalized(1, "u", "a b", h([1]), 1)];
    var s, s' := FinalLinked(h, MovedStorage.Intent(h), records, Recorded(d)), FinalLinked(h, Done(h), records, Completed);
    CommitsCompletion(h);
    trace, steps := MovedStorage.Go(h, trace, steps, s, Task("u", Promote(CommitComplete)), s');
    assert SlotSince(trace, steps, a, a, "u");
    CountedTwice(h);
  }

  lemma {:induction false} CommitsCompletion(h: Hash)
    ensures var records := [Finalized(1, "u", "a b", h([1]), 1)];
            var s := FinalLinked(h, MovedStorage.Intent(h), records, Recorded(h([1])));
            && s.disk.files.Valid() && Enabled(h, s, Task("u", Promote(CommitComplete)))
            && Apply(h, s, Task("u", Promote(CommitComplete))) == FinalLinked(h, Done(h), records, Completed)
  {
  }

  lemma {:induction false} CountedTwice(h: Hash)
    ensures var active := [M.Sample("u", Some(1), Some(1), Some(1))];
            var l := L.Ledger(map["u" := Done(h)], ["u"], 0, map[]);
            && M.FromProjection(1, P.Scan(l, 0), active, 0.0).retained == 2
            && M.FromRows(l.rows, ["u"], active, 0.0).retained == 1
  {
    var active := [M.Sample("u", Some(1), Some(1), Some(1))];
    var rows := map["u" := Done(h)];
    assert active[..0] == [] && ["u"][..0] == [];
    assert P.CompleteBytes(rows, ["u"], 0) == P.CompleteBytes(rows, [], 0) + 1;
    assert M.RowBytes(rows, ["u"]) == M.RowBytes(rows, []) + 1;
    assert M.SampleSum(active, M.Received) == M.SampleSum([], M.Received) + 1;
    assert M.ItemSum(rows, ["u"], active, M.Received) == M.ItemSum(rows, [], active, M.Received);
  }
}
