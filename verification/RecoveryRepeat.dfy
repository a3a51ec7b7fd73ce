/** A start that follows a full start of the same run changes nothing. */
module RecoveryRepeat {
  import opened Prelude
  import opened Database
  import opened FileSystem
  import opened Promotion
  import opened RecoverySpec
  import opened RecoveryTheorems

  // ------------------------------------------------------------ nothing to do

  predicate NeedsCleaning(row: Row) {
    row.status.Complete? && !row.cleaned
  }

  predicate NeedsRemedy(row: Row) {
    row.status.ReviewRequired? && !row.remediated && NameTooLongReview(row)
  }

  // An existing final of a queue entry whose state is already known.
  predicate Known(d: Disk, i: Url) {
    i in d.rows ==> Final(d.rows[i].stored) in d.files.names && Tracked(d.rows[i].status)
  }

  ghost predicate Quiet(cfg: Config, d: Disk) {
    && d.files.Valid() && cfg.run in d.runs && NothingPromoting(d)
    && (forall i | i in d.rows && i in Scoped(cfg, d) ::
          !NeedsCleaning(d.rows[i]) && !NeedsRemedy(d.rows[i]) && !Busy(d.rows[i].status))
    && (Scoped(cfg, d) == {} ==> forall i | i in cfg.queue :: Known(d, i))
  }

  lemma {:induction false} QuietSweep(h: Hash, cfg: Config, d: Disk, pass: Pass, items: seq<Url>)
    requires Quiet(cfg, d)
    ensures Sweep(h, cfg, d, pass, items) == []
  {
    hide ReconcileItem, CleanItem, RemediateItem;
    if items != [] {
      QuietSweep(h, cfg, d, pass, items[..|items| - 1]);
      var i := items[|items| - 1];
      assert i in d.rows ==> !Wanted(cfg, d, pass, i, d.rows[i]);
    }
  }

  lemma {:induction false} QuietEntry(h: Hash, cfg: Config, d: Disk, i: Url)
    requires d.files.Valid() && Known(d, i)
    ensures NewDisks(h, cfg, d, [], i) == [] && NewItems(cfg, d, [], i) == []
  {
  }

  lemma {:induction false} ChooseUnfolds(h: Hash, cfg: Config, d: Disk, n: nat, before: Selection, e: Disk, disks: seq<Disk>, items: seq<Url>)
    requires d.files.Valid() && 0 < n <= |cfg.queue| && before == ChooseItems(h, cfg, d, n - 1)
    requires e == End(d, before.disks)
    requires disks == NewDisks(h, cfg, e, before.chosen, cfg.queue[n - 1])
    requires items == NewItems(cfg, e, before.chosen, cfg.queue[n - 1])
    ensures ChooseItems(h, cfg, d, n) == Selection(before.disks + disks, before.chosen + items)
    ensures End(d, before.disks + disks) == End(e, disks)
  {
  }

  predicate ChoosesNothing(selection: Selection) {
    |selection.disks| == 0 && |selection.chosen| == 0
  }

  lemma {:induction false} QuietExtends(h: Hash, cfg: Config, d: Disk, n: nat)
    requires d.files.Valid() && 0 < n <= |cfg.queue| && Known(d, cfg.queue[n - 1])
    requires ChoosesNothing(ChooseItems(h, cfg, d, n - 1))
    ensures ChoosesNothing(ChooseItems(h, cfg, d, n))
  {
    QuietEntry(h, cfg, d, cfg.queue[n - 1]);
    ChooseUnfolds(h, cfg, d, n, Selection([], []), d, [], []);
  }

  lemma {:induction false} QuietChoice(h: Hash, cfg: Config, d: Disk, n: nat)
    requires d.files.Valid() && n <= |cfg.queue| && forall m | 0 <= m < n :: Known(d, cfg.queue[m])
    ensures ChoosesNothing(ChooseItems(h, cfg, d, n))
  {
    hide NewDisks, NewItems;
    if n > 0 {
      QuietChoice(h, cfg, d, n - 1);
      QuietExtends(h, cfg, d, n);
    }
  }

  lemma {:induction false} QuietScope(h: Hash, cfg: Config, d: Disk)
    requires Quiet(cfg, d)
    ensures ScopeDisks(h, cfg, d) == [] || ScopeDisks(h, cfg, d) == [d]
  {
    if Scoped(cfg, d) == {} {
      QuietChoice(h, cfg, d, |cfg.queue|);
      assert d.(runs := d.runs[cfg.run := {}]) == d;
      assert Members([]) == {};
      assert ScopeDisks(h, cfg, d) == [] + [d];
    }
  }

  lemma {:induction false} QuietRequeue(cfg: Config, d: Disk)
    requires Quiet(cfg, d)
    ensures Requeued(cfg, d) == d
  {
    var rows := RequeueRows(d.rows, Scoped(cfg, d));
    assert rows.Keys == d.rows.Keys;
    assert forall i | i in d.rows :: rows[i] == d.rows[i];
    assert rows == d.rows;
  }

  lemma {:induction false} QuietStart(h: Hash, cfg: Config, d: Disk)
    requires Quiet(cfg, d)
    ensures forall e | e in StartDisks(h, cfg, d) :: e == d
  {
    QuietSweep(h, cfg, d, Reconciling, cfg.order);
    QuietScope(h, cfg, d);
    assert AfterScope(h, cfg, d) == d;
    QuietSweep(h, cfg, d, Cleaning, cfg.order);
    QuietSweep(h, cfg, d, Remediating, cfg.order);
    QuietRequeue(cfg, d);
  }

  // ------------------------------------------------------------ a full start leaves nothing to do

  // What a pass has settled for item `i`.
  predicate Calm(cfg: Config, d: Disk, i: Url) {
    i in d.rows && i in Scoped(cfg, d) ==> !NeedsCleaning(d.rows[i])
  }

  predicate Remedied(cfg: Config, d: Disk, i: Url) {
    i in d.rows && i in Scoped(cfg, d) ==> !NeedsRemedy(d.rows[i])
  }

  lemma {:induction false} CleanCalms(cfg: Config, d: Disk, j: Url)
    requires d.files.Valid() && j in d.rows && d.rows[j].status.Complete? && j !in cfg.faults.stuck
    ensures End(d, CleanItem(cfg, d, j)).rows[j].cleaned
  {
  }

  lemma {:induction false} FinishCalms(cfg: Config, d: Disk, j: Url, target: Path, remediated: bool)
    requires d.files.Valid() && j in d.rows && Staging(j) in d.files.names
    requires Final(target) in d.files.names && d.rows[j].sha256.Some?
    ensures End(d, Finish(cfg, d, j, target, remediated)).rows[j].status.Complete?
    ensures End(d, Finish(cfg, d, j, target, remediated)).rows[j].cleaned
  {
  }

  lemma {:induction false} RemedyCalms(h: Hash, cfg: Config, d: Disk, j: Url)
    requires d.files.Valid() && j in d.rows && d.rows[j].status.ReviewRequired?
    ensures var row := End(d, RemediateItem(h, cfg, d, j)).rows[j]; !NeedsCleaning(row) && !NeedsRemedy(row)
  {
    var row := d.rows[j];
    if Remediable(h, cfg, d, j, row) && Final(cfg.mapping(row.logical).value) !in d.files.names
       && j !in cfg.faults.unlinkable {
      var mapped := cfg.mapping(row.logical).value;
      var intended := WithRow(d, j, row.(status := Promoting, stored := mapped, target := Some(mapped),
                                         code := NameTooLong));
      var linked := intended.(files := intended.files.Link(Staging(j), Final(mapped)));
      FinishCalms(cfg, linked, j, mapped, true);
    }
  }

  // One item of the cleaning or remediating pass.
  lemma {:induction false} ItemCalms(h: Hash, cfg: Config, d: Disk, pass: Pass, j: Url)
    requires d.files.Valid() && !pass.Reconciling? && cfg.faults.stuck == {}
    ensures var e := End(d, ItemDisks(h, cfg, d, pass, j));
            && Continues(d, e)
            && (forall i | i in d.rows && i != j :: e.rows[i] == d.rows[i])
            && ((pass.Cleaning? || Calm(cfg, d, j)) ==> Calm(cfg, e, j))
            && (pass.Remediating? ==> Remedied(cfg, e, j))
  {
    ItemSettles(h, cfg, d, pass, j);
    if j in d.rows && Wanted(cfg, d, pass, j, d.rows[j]) {
      if pass.Cleaning? {
        CleanCalms(cfg, d, j);
      } else {
        RemedyCalms(h, cfg, d, j);
      }
    }
  }

  lemma {:induction false} SweepCalms(h: Hash, cfg: Config, d: Disk, pass: Pass, items: seq<Url>)
    requires d.files.Valid() && !pass.Reconciling? && cfg.faults.stuck == {}
    ensures var e := End(d, Sweep(h, cfg, d, pass, items));
            && Continues(d, e)
            && (forall i | (pass.Cleaning? && i in items) || Calm(cfg, d, i) :: Calm(cfg, e, i))
            && (forall i | pass.Remediating? && i in items :: Remedied(cfg, e, i))
  {
    hide ItemDisks, Sweep;
    if items == [] {
      EmptySweep(h, cfg, d, pass);
    } else {
      var front, last := items[..|items| - 1], items[|items| - 1];
      assert items == front + [last];
      SweepCalms(h, cfg, d, pass, front);
      var a, e, b := SweepGrows(h, cfg, d, pass, items);
      ItemCalms(h, cfg, e, pass, last);
    }
  }

  lemma {:induction false} RepairCalms(h: Hash, cfg: Config, d: Disk)
    requires d.files.Valid() && cfg.faults.stuck == {} && Members(cfg.order) == d.rows.Keys
    ensures var e := End(d, RepairDisks(h, cfg, d));
            Continues(d, e) && forall i | i in d.rows :: Calm(cfg, e, i) && Remedied(cfg, e, i)
  {
    var a := Sweep(h, cfg, d, Cleaning, cfg.order);
    var e := End(d, a);
    SweepCalms(h, cfg, d, Cleaning, cfg.order);
    SweepCalms(h, cfg, e, Remediating, cfg.order);
    RepairIs(h, cfg, d, a, e, Sweep(h, cfg, e, Remediating, cfg.order));
  }

  // ------------------------------------------------------------ an empty selection

  lemma {:induction false} EntryTracks(h: Hash, cfg: Config, e: Disk, i: Url)
    requires e.files.Valid() && NewItems(cfg, e, [], i) == []
    ensures var e' := End(e, NewDisks(h, cfg, e, [], i));
            Known(e', i) && forall j | j in cfg.queue && Known(e, j) :: Known(e', j)
  {
  }

  lemma {:induction false} EntryExtendsTracks(h: Hash, cfg: Config, d: Disk, n: nat)
    requires d.files.Valid() && 0 < n <= |cfg.queue| && ChooseItems(h, cfg, d, n).chosen == []
    ensures ChooseItems(h, cfg, d, n - 1).chosen == []
    ensures var e, e' := End(d, ChooseItems(h, cfg, d, n - 1).disks), End(d, ChooseItems(h, cfg, d, n).disks);
            Known(e', cfg.queue[n - 1]) && forall j | j in cfg.queue && Known(e, j) :: Known(e', j)
  {
    var before := ChooseItems(h, cfg, d, n - 1);
    var e, i := End(d, before.disks), cfg.queue[n - 1];
    ChooseUnfolds(h, cfg, d, n, before, e, NewDisks(h, cfg, e, before.chosen, i), NewItems(cfg, e, before.chosen, i));
    EntryTracks(h, cfg, e, i);
  }

  lemma {:induction false} ChoiceTracks(h: Hash, cfg: Config, d: Disk, n: nat)
    requires d.files.Valid() && n <= |cfg.queue| && ChooseItems(h, cfg, d, n).chosen == []
    ensures forall m | 0 <= m < n :: Known(End(d, ChooseItems(h, cfg, d, n).disks), cfg.queue[m])
  {
    hide ChooseItems, NewDisks, NewItems;
    if n > 0 {
      EntryExtendsTracks(h, cfg, d, n);
      ChoiceTracks(h, cfg, d, n - 1);
    }
  }

  lemma {:induction false} UnscopedSweep(h: Hash, cfg: Config, d: Disk, pass: Pass, items: seq<Url>)
    requires d.files.Valid() && Scoped(cfg, d) == {} && !pass.Reconciling?
    ensures Sweep(h, cfg, d, pass, items) == []
  {
    if items != [] {
      UnscopedSweep(h, cfg, d, pass, items[..|items| - 1]);
    }
  }

  lemma {:induction false} EmptySelection(items: seq<Url>)
    ensures Members(items) == {} <==> items == []
  {
    if items != [] {
      assert items[0] in Members(items);
    }
  }

  lemma {:induction false} ScopeTracks(h: Hash, cfg: Config, d: Disk)
    requires d.files.Valid()
    ensures var e := End(d, ScopeDisks(h, cfg, d));
            cfg.run in e.runs && (Scoped(cfg, e) == {} ==> forall i | i in cfg.queue :: Known(e, i))
  {
    if Scoped(cfg, d) == {} {
      var chosen := ChooseItems(h, cfg, d, |cfg.queue|).chosen;
      if Members(chosen) == {} {
        EmptySelection(chosen);
        ChoiceTracks(h, cfg, d, |cfg.queue|);
      }
    }
  }

  // ------------------------------------------------------------ repetition

  lemma {:induction false} StartQuiets(h: Hash, cfg: Config, d: Disk)
    requires d.files.Valid() && cfg.faults.stuck == {} && Members(cfg.order) == d.rows.Keys
    ensures Quiet(cfg, AfterStart(h, cfg, d))
  {
    hide Sweep, ChooseItems;
    StartSettles(h, cfg, d);
    var e := AfterReconcile(h, cfg, d);
    var f := AfterScope(h, cfg, d);
    ScopeTracks(h, cfg, e);
    RepairCalms(h, cfg, f);
    AfterStartIs(h, cfg, d);
    if Scoped(cfg, f) == {} {
      UnscopedSweep(h, cfg, f, Cleaning, cfg.order);
      UnscopedSweep(h, cfg, f, Remediating, cfg.order);
      assert RequeueRows(f.rows, {}) == f.rows;
    }
    CalmIsQuiet(cfg, End(f, RepairDisks(h, cfg, f)), AfterStart(h, cfg, d));
  }

  lemma {:induction false} CalmIsQuiet(cfg: Config, d: Disk, e: Disk)
    requires d.files.Valid() && e == Requeued(cfg, d) && cfg.run in d.runs && NothingPromoting(e)
    requires forall i | i in d.rows :: Calm(cfg, d, i) && Remedied(cfg, d, i)
    requires Scoped(cfg, d) == {} ==> forall i | i in cfg.queue :: Known(e, i)
    ensures Quiet(cfg, e)
  {
    forall i | i in e.rows && i in Scoped(cfg, e)
      ensures !NeedsCleaning(e.rows[i]) && !NeedsRemedy(e.rows[i]) && !Busy(e.rows[i].status)
    {
      assert Calm(cfg, d, i) && Remedied(cfg, d, i);
    }
  }

  // Running the start again, in a new session and with any I/O errors, changes nothing.
  lemma {:induction false} SecondStartChangesNothing(h: Hash, cfg: Config, again: Config, d: Disk)
    requires d.files.Valid() && cfg.faults.stuck == {} && Members(cfg.order) == d.rows.Keys
    requires again.run == cfg.run && again.queue == cfg.queue
    ensures AfterStart(h, cfg, d).files.Valid()
    ensures forall e | e in StartDisks(h, again, AfterStart(h, cfg, d)) :: e == AfterStart(h, cfg, d)
  {
    hide StartDisks;
    StartQuiets(h, cfg, d);
    QuietStart(h, again, AfterStart(h, cfg, d));
  }
}
