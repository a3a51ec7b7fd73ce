/** Crash convergence: any number of crashes, inside recovery too, and then one full start. */
module RecoveryTheorems {
  import opened Prelude
  import opened Database
  import opened FileSystem
  import opened Promotion
  import opened RecoverySpec

  // ------------------------------------------------------------ an item that can still be promoted

  // Promoting with an intact staged file and a free target, promoting with its final in place,
  // or complete with its final in place.
  ghost predicate Promotable(h: Hash, d: Disk, i: Url, p: Path, digest: Digest) {
    && d.files.Valid() && i in d.rows
    && var row, names := d.rows[i], d.files.names;
    && row.sha256 == Some(digest) && row.target == Some(p)
    && (|| (row.status.Promoting? && !row.cleaned && Final(p) !in names
            && Staging(i) in names && h(d.files.Content(Staging(i))) == digest)
        || (row.status.Promoting? && !row.cleaned && FinalMatches(h, d, p, digest))
        || (row.status.Complete? && FinalMatches(h, d, p, digest) && (row.cleaned ==> Staging(i) !in names)))
  }

  // No other item is about to take the target.
  ghost predicate Alone(cfg: Config, d: Disk, i: Url, p: Path) {
    forall j | j in d.rows && j != i ::
      (d.rows[j].status.Promoting? ==> d.rows[j].target != Some(p)) && cfg.mapping(d.rows[j].logical) != Some(p)
  }

  predicate Spares(cfg: Config, i: Url) {
    i !in cfg.faults.unreadable && i !in cfg.faults.unlinkable
  }

  ghost predicate Good(h: Hash, cfg: Config, d: Disk, i: Url, p: Path, digest: Digest) {
    Promotable(h, d, i, p, digest) && Alone(cfg, d, i, p)
  }

  ghost predicate AllGood(h: Hash, cfg: Config, disks: seq<Disk>, i: Url, p: Path, digest: Digest) {
    forall k | 0 <= k < |disks| :: Good(h, cfg, disks[k], i, p, digest)
  }

  // ------------------------------------------------------------ one item

  predicate SameName(d: Files, e: Files, n: Name)
    requires d.Valid() && e.Valid()
  {
    (n in d.names <==> n in e.names) && (n in d.names ==> d.Content(n) == e.Content(n))
  }

  // A change for item `j` that leaves item `i` and its final alone.
  ghost predicate Elsewhere(cfg: Config, d: Disk, e: Disk, j: Url, i: Url, p: Path) {
    && d.files.Valid() && e.files.Valid() && j in d.rows && j in e.rows && j != i
    && e.rows == d.rows[j := e.rows[j]] && e.rows[j].logical == d.rows[j].logical
    && (e.rows[j].status.Promoting? ==> e.rows[j].target != Some(p))
    && SameName(d.files, e.files, Staging(i)) && SameName(d.files, e.files, Final(p))
  }

  lemma {:induction false} ElsewhereKeeps(h: Hash, cfg: Config, d: Disk, e: Disk, j: Url, i: Url, p: Path, digest: Digest)
    requires Good(h, cfg, d, i, p, digest) && Elsewhere(cfg, d, e, j, i, p)
    ensures Good(h, cfg, e, i, p, digest)
  {
  }

  ghost predicate AllElsewhere(cfg: Config, d: Disk, disks: seq<Disk>, j: Url, i: Url, p: Path) {
    forall k | 0 <= k < |disks| :: Elsewhere(cfg, d, disks[k], j, i, p)
  }

  lemma {:induction false} FinishElsewhere(cfg: Config, d: Disk, e: Disk, j: Url, target: Path, remediated: bool, i: Url, p: Path)
    requires Elsewhere(cfg, d, e, j, i, p) && Final(target) in e.files.names && e.rows[j].sha256.Some?
    ensures AllElsewhere(cfg, d, Finish(cfg, e, j, target, remediated), j, i, p)
  {
    hide Elsewhere, SameName;
    ElsewhereHas(cfg, d, e, j, i, p);
    var row, size := e.rows[j], |e.files.Content(Final(target))|;
    var recorded := e.(records := e.records + [Finalized(cfg.session, j, row.stored, row.sha256.value, size)]);
    var done := row.(status := Complete, bytes := Some(size), remediated := row.remediated || remediated);
    var completed := WithRow(recorded, j, done);
    AlikeElsewhere(cfg, d, e, recorded, j, i, p);
    AlikeElsewhere(cfg, d, recorded, completed, j, i, p);
    if Staging(j) in e.files.names {
      var unlinked := completed.(files := completed.files.Unlink(Staging(j)));
      UnlinkElsewhere(cfg, d, completed, j, i, p);
      AlikeElsewhere(cfg, d, unlinked, WithRow(unlinked, j, done.(cleaned := true)), j, i, p);
    }
  }

  lemma {:induction false} ElsewhereHas(cfg: Config, d: Disk, e: Disk, j: Url, i: Url, p: Path)
    requires Elsewhere(cfg, d, e, j, i, p)
    ensures d.files.Valid() && e.files.Valid() && j in e.rows && e.rows == e.rows[j := e.rows[j]]
  {
  }

  // The row of `j` may change again, and it may leave its staging file.
  lemma {:induction false} AlikeElsewhere(cfg: Config, d: Disk, e: Disk, f: Disk, j: Url, i: Url, p: Path)
    requires Elsewhere(cfg, d, e, j, i, p) && f.files == e.files && j in f.rows && f.rows == e.rows[j := f.rows[j]]
    requires f.rows[j].logical == e.rows[j].logical && (f.rows[j].status.Promoting? ==> f.rows[j] == e.rows[j])
    ensures Elsewhere(cfg, d, f, j, i, p)
  {
  }

  lemma {:induction false} UnlinkElsewhere(cfg: Config, d: Disk, e: Disk, j: Url, i: Url, p: Path)
    requires Elsewhere(cfg, d, e, j, i, p) && Staging(j) in e.files.names
    ensures Elsewhere(cfg, d, e.(files := e.files.Unlink(Staging(j))), j, i, p)
  {
  }

  lemma {:induction false} ReconcileElsewhere(h: Hash, cfg: Config, d: Disk, j: Url, i: Url, p: Path)
    requires d.files.Valid() && Elsewhere(cfg, d, d, j, i, p) && d.rows[j].status.Promoting?
    ensures AllElsewhere(cfg, d, ReconcileItem(h, cfg, d, j), j, i, p)
  {
    var row := d.rows[j];
    if HasTarget(d, row) {
      FinishElsewhere(cfg, d, d, j, row.target.value, false, i, p);
    } else if CanRelink(d, j, row) && j !in cfg.faults.unlinkable {
      var linked := d.(files := d.files.Link(Staging(j), Final(row.target.value)));
      FinishElsewhere(cfg, d, linked, j, row.target.value, false, i, p);
    }
  }

  lemma {:induction false} CleanElsewhere(cfg: Config, d: Disk, j: Url, i: Url, p: Path)
    requires d.files.Valid() && Elsewhere(cfg, d, d, j, i, p) && d.rows[j].status.Complete?
    ensures AllElsewhere(cfg, d, CleanItem(cfg, d, j), j, i, p)
  {
  }

  lemma {:induction false} RemediateElsewhere(h: Hash, cfg: Config, d: Disk, j: Url, i: Url, p: Path)
    requires d.files.Valid() && Elsewhere(cfg, d, d, j, i, p) && d.rows[j].status.ReviewRequired?
    requires cfg.mapping(d.rows[j].logical) != Some(p)
    ensures AllElsewhere(cfg, d, RemediateItem(h, cfg, d, j), j, i, p)
  {
    var row := d.rows[j];
    if Remediable(h, cfg, d, j, row) && Final(cfg.mapping(row.logical).value) !in d.files.names
       && j !in cfg.faults.unlinkable {
      var mapped := cfg.mapping(row.logical).value;
      var intended := WithRow(d, j, row.(status := Promoting, stored := mapped, target := Some(mapped),
                                         code := NameTooLong));
      var linked := intended.(files := intended.files.Link(Staging(j), Final(mapped)));
      FinishElsewhere(cfg, d, linked, j, mapped, true, i, p);
    }
  }

  lemma {:induction false} ItemElsewhere(h: Hash, cfg: Config, d: Disk, pass: Pass, j: Url, i: Url, p: Path)
    requires d.files.Valid() && j in d.rows && Wanted(cfg, d, pass, j, d.rows[j])
    requires Elsewhere(cfg, d, d, j, i, p) && cfg.mapping(d.rows[j].logical) != Some(p)
    ensures AllElsewhere(cfg, d, ItemDisks(h, cfg, d, pass, j), j, i, p)
  {
    match pass
    case Reconciling => ReconcileElsewhere(h, cfg, d, j, i, p);
    case Cleaning => CleanElsewhere(cfg, d, j, i, p);
    case Remediating => RemediateElsewhere(h, cfg, d, j, i, p);
  }

  lemma {:induction false} OtherItemKeepsGood(h: Hash, cfg: Config, d: Disk, pass: Pass, j: Url, i: Url, p: Path, digest: Digest)
    requires Good(h, cfg, d, i, p, digest) && j != i
    ensures AllGood(h, cfg, ItemDisks(h, cfg, d, pass, j), i, p, digest)
    ensures End(d, ItemDisks(h, cfg, d, pass, j)).rows[i] == d.rows[i]
  {
    var disks := ItemDisks(h, cfg, d, pass, j);
    if disks != [] {
      assert d.rows == d.rows[j := d.rows[j]];
      ItemElsewhere(h, cfg, d, pass, j, i, p);
      forall k | 0 <= k < |disks| ensures Good(h, cfg, disks[k], i, p, digest) {
        ElsewhereKeeps(h, cfg, d, disks[k], j, i, p, digest);
      }
    }
  }

  lemma {:induction false} FinishOwn(h: Hash, cfg: Config, d: Disk, i: Url, p: Path, digest: Digest)
    requires Good(h, cfg, d, i, p, digest) && FinalMatches(h, d, p, digest)
    ensures AllGood(h, cfg, Finish(cfg, d, i, p, false), i, p, digest)
    ensures End(d, Finish(cfg, d, i, p, false)).rows[i].status.Complete?
  {
  }

  lemma {:induction false} ReconcileOwn(h: Hash, cfg: Config, d: Disk, i: Url, p: Path, digest: Digest)
    requires Good(h, cfg, d, i, p, digest) && d.rows[i].status.Promoting? && Spares(cfg, i)
    ensures AllGood(h, cfg, ReconcileItem(h, cfg, d, i), i, p, digest)
    ensures End(d, ReconcileItem(h, cfg, d, i)).rows[i].status.Complete?
  {
    if HasTarget(d, d.rows[i]) {
      FinishOwn(h, cfg, d, i, p, digest);
    } else {
      var linked := d.(files := d.files.Link(Staging(i), Final(p)));
      assert Good(h, cfg, linked, i, p, digest);
      FinishOwn(h, cfg, linked, i, p, digest);
    }
  }

  lemma {:induction false} CleanOwn(h: Hash, cfg: Config, d: Disk, i: Url, p: Path, digest: Digest)
    requires Good(h, cfg, d, i, p, digest) && d.rows[i].status.Complete?
    ensures AllGood(h, cfg, CleanItem(cfg, d, i), i, p, digest)
    ensures var row := End(d, CleanItem(cfg, d, i)).rows[i]; row.status.Complete? && (i !in cfg.faults.stuck ==> row.cleaned)
  {
  }

  // How far item `i` has come: promoting, complete, cleaned.
  function Progress(row: Row): nat {
    if row.status.Complete? && row.cleaned then 2 else if row.status.Complete? then 1 else 0
  }

  // What a pass makes of an item that it visits.
  function Goal(cfg: Config, d: Disk, pass: Pass, i: Url): nat
    requires i in d.rows
  {
    if pass.Reconciling? then 1
    else if pass.Cleaning? && i in Scoped(cfg, d) && d.rows[i].status.Complete? && i !in cfg.faults.stuck then 2
    else 0
  }

  lemma {:induction false} OwnItemKeepsGood(h: Hash, cfg: Config, d: Disk, pass: Pass, i: Url, p: Path, digest: Digest)
    requires Good(h, cfg, d, i, p, digest) && Spares(cfg, i)
    ensures AllGood(h, cfg, ItemDisks(h, cfg, d, pass, i), i, p, digest)
    ensures var row := End(d, ItemDisks(h, cfg, d, pass, i)).rows[i];
            Progress(row) >= Progress(d.rows[i]) && Progress(row) >= Goal(cfg, d, pass, i)
  {
    if Wanted(cfg, d, pass, i, d.rows[i]) {
      if pass.Reconciling? {
        ReconcileOwn(h, cfg, d, i, p, digest);
      } else {
        CleanOwn(h, cfg, d, i, p, digest);
      }
    }
  }

  lemma {:induction false} ItemKeepsGood(h: Hash, cfg: Config, d: Disk, pass: Pass, j: Url, i: Url, p: Path, digest: Digest)
    requires Good(h, cfg, d, i, p, digest) && Spares(cfg, i)
    ensures AllGood(h, cfg, ItemDisks(h, cfg, d, pass, j), i, p, digest)
    ensures var e := End(d, ItemDisks(h, cfg, d, pass, j));
            && Good(h, cfg, e, i, p, digest) && e.runs == d.runs
            && Progress(e.rows[i]) >= Progress(d.rows[i])
            && (j == i ==> Progress(e.rows[i]) >= Goal(cfg, d, pass, i))
  {
    if j == i {
      OwnItemKeepsGood(h, cfg, d, pass, i, p, digest);
    } else {
      OtherItemKeepsGood(h, cfg, d, pass, j, i, p, digest);
    }
  }

  lemma {:induction false} EmptySweep(h: Hash, cfg: Config, d: Disk, pass: Pass)
    requires d.files.Valid()
    ensures Sweep(h, cfg, d, pass, []) == []
  {
  }

  lemma {:induction false} GoodJoins(h: Hash, cfg: Config, a: seq<Disk>, b: seq<Disk>, i: Url, p: Path, digest: Digest)
    requires AllGood(h, cfg, a, i, p, digest) && AllGood(h, cfg, b, i, p, digest)
    ensures AllGood(h, cfg, a + b, i, p, digest)
  {
  }

  lemma {:induction false} SweepKeepsGood(h: Hash, cfg: Config, d: Disk, pass: Pass, items: seq<Url>, i: Url, p: Path,
                                          digest: Digest)
    requires Good(h, cfg, d, i, p, digest) && Spares(cfg, i)
    ensures AllGood(h, cfg, Sweep(h, cfg, d, pass, items), i, p, digest)
    ensures var e := End(d, Sweep(h, cfg, d, pass, items));
            && Good(h, cfg, e, i, p, digest) && e.runs == d.runs
            && Progress(e.rows[i]) >= Progress(d.rows[i])
            && (i in items ==> Progress(e.rows[i]) >= Goal(cfg, d, pass, i))
  {
    hide ItemDisks, Sweep;
    if items == [] {
      EmptySweep(h, cfg, d, pass);
    } else {
      var front, last := items[..|items| - 1], items[|items| - 1];
      assert items == front + [last];
      SweepKeepsGood(h, cfg, d, pass, front, i, p, digest);
      var a, e, b := SweepGrows(h, cfg, d, pass, items);
      ItemKeepsGood(h, cfg, e, pass, last, i, p, digest);
      GoodJoins(h, cfg, a, b, i, p, digest);
    }
  }

  // ------------------------------------------------------------ the selection and the whole start

  lemma {:induction false} ExistingElsewhere(h: Hash, cfg: Config, d: Disk, j: Url, chosen: seq<Url>, i: Url, p: Path)
    requires Elsewhere(cfg, d, d, j, i, p) && Final(d.rows[j].stored) in d.files.names
    requires !d.rows[j].status.Promoting?
    ensures AllElsewhere(cfg, d, ExistingItem(h, cfg, d, j, chosen), j, i, p)
  {
  }

  ghost predicate Ready(h: Hash, cfg: Config, d: Disk, i: Url, p: Path, digest: Digest) {
    Good(h, cfg, d, i, p, digest) && d.rows[i].status.Complete? && NothingPromoting(d)
  }

  ghost predicate NothingPromoting(d: Disk) {
    forall j | j in d.rows :: !d.rows[j].status.Promoting?
  }

  lemma {:induction false} ExistingKeepsGood(h: Hash, cfg: Config, d: Disk, j: Url, chosen: seq<Url>, i: Url, p: Path, digest: Digest)
    requires Ready(h, cfg, d, i, p, digest) && j in d.rows && Final(d.rows[j].stored) in d.files.names
    requires !Tracked(d.rows[j].status)
    ensures var disks := ExistingItem(h, cfg, d, j, chosen);
            && AllGood(h, cfg, disks, i, p, digest) && Ready(h, cfg, End(d, disks), i, p, digest)
            && End(d, disks).rows[i] == d.rows[i]
  {
    var disks := ExistingItem(h, cfg, d, j, chosen);
    assert d.rows == d.rows[j := d.rows[j]];
    ExistingElsewhere(h, cfg, d, j, chosen, i, p);
    forall k | 0 <= k < |disks| ensures Good(h, cfg, disks[k], i, p, digest) {
      ElsewhereKeeps(h, cfg, d, disks[k], j, i, p, digest);
    }
    assert Elsewhere(cfg, d, End(d, disks), j, i, p);
  }

  lemma {:induction false} EntryKeepsGood(h: Hash, cfg: Config, e: Disk, chosen: seq<Url>, j: Url, i: Url, p: Path, digest: Digest)
    requires Ready(h, cfg, e, i, p, digest)
    ensures KeepsReady(h, cfg, e, NewDisks(h, cfg, e, chosen, j), i, p, digest)
  {
    if NewDisks(h, cfg, e, chosen, j) != [] {
      ExistingKeepsGood(h, cfg, e, j, chosen, i, p, digest);
    }
  }

  ghost predicate KeepsReady(h: Hash, cfg: Config, d: Disk, disks: seq<Disk>, i: Url, p: Path, digest: Digest) {
    && AllGood(h, cfg, disks, i, p, digest) && Ready(h, cfg, d, i, p, digest)
    && Ready(h, cfg, End(d, disks), i, p, digest) && End(d, disks).rows[i] == d.rows[i]
  }

  lemma {:induction false} ReadyJoins(h: Hash, cfg: Config, d: Disk, a: seq<Disk>, b: seq<Disk>, i: Url, p: Path, digest: Digest)
    requires KeepsReady(h, cfg, d, a, i, p, digest) && KeepsReady(h, cfg, End(d, a), b, i, p, digest)
    ensures KeepsReady(h, cfg, d, a + b, i, p, digest)
  {
  }

  lemma {:induction false} EntryExtends(h: Hash, cfg: Config, d: Disk, n: nat, i: Url, p: Path, digest: Digest) returns (a: seq<Disk>, b: seq<Disk>)
    requires d.files.Valid() && 0 < n <= |cfg.queue|
    requires Ready(h, cfg, End(d, ChooseItems(h, cfg, d, n - 1).disks), i, p, digest)
    ensures a == ChooseItems(h, cfg, d, n - 1).disks && ChooseItems(h, cfg, d, n).disks == a + b
    ensures KeepsReady(h, cfg, End(d, a), b, i, p, digest)
  {
    var before := ChooseItems(h, cfg, d, n - 1);
    a := before.disks;
    b := NewDisks(h, cfg, End(d, a), before.chosen, cfg.queue[n - 1]);
    EntryKeepsGood(h, cfg, End(d, a), before.chosen, cfg.queue[n - 1], i, p, digest);
  }

  lemma {:induction false} ChooseKeepsGood(h: Hash, cfg: Config, d: Disk, n: nat, i: Url, p: Path, digest: Digest)
    requires Ready(h, cfg, d, i, p, digest) && n <= |cfg.queue|
    ensures KeepsReady(h, cfg, d, ChooseItems(h, cfg, d, n).disks, i, p, digest)
  {
    if n > 0 {
      ChooseKeepsGood(h, cfg, d, n - 1, i, p, digest);
      var a, b := EntryExtends(h, cfg, d, n, i, p, digest);
      ReadyJoins(h, cfg, d, a, b, i, p, digest);
    }
  }

  lemma {:induction false} ScopeKeepsGood(h: Hash, cfg: Config, d: Disk, i: Url, p: Path, digest: Digest)
    requires Ready(h, cfg, d, i, p, digest)
    ensures var disks := ScopeDisks(h, cfg, d);
            && AllGood(h, cfg, disks, i, p, digest) && Good(h, cfg, End(d, disks), i, p, digest)
            && End(d, disks).rows[i] == d.rows[i]
  {
    if Scoped(cfg, d) == {} {
      ChooseKeepsGood(h, cfg, d, |cfg.queue|, i, p, digest);
    }
  }

  // ------------------------------------------------------------ no promotion is left

  predicate Busy(status: Status) {
    status.Active? || status.Running? || status.Admitted?
  }

  // Only row `j` differs, and it is promoting no more.
  ghost predicate Settles(d: Disk, e: Disk, j: Url) {
    j in d.rows && j in e.rows && e.rows == d.rows[j := e.rows[j]] && !e.rows[j].status.Promoting?
  }

  lemma {:induction false} FinishSettles(cfg: Config, d: Disk, e: Disk, j: Url, target: Path, remediated: bool)
    requires d.files.Valid() && e.files.Valid() && j in e.rows && j in d.rows && e.rows == d.rows[j := e.rows[j]]
    requires Final(target) in e.files.names && e.rows[j].sha256.Some?
    ensures Settles(d, End(e, Finish(cfg, e, j, target, remediated)), j)
  {
  }

  lemma {:induction false} ReconcileSettles(h: Hash, cfg: Config, d: Disk, j: Url)
    requires d.files.Valid() && j in d.rows
    ensures Settles(d, End(d, ReconcileItem(h, cfg, d, j)), j)
  {
    var row := d.rows[j];
    assert d.rows == d.rows[j := row];
    if HasTarget(d, row) {
      FinishSettles(cfg, d, d, j, row.target.value, false);
    } else if CanRelink(d, j, row) && j !in cfg.faults.unlinkable {
      var linked := d.(files := d.files.Link(Staging(j), Final(row.target.value)));
      FinishSettles(cfg, d, linked, j, row.target.value, false);
    }
  }

  lemma {:induction false} RemediateSettles(h: Hash, cfg: Config, d: Disk, j: Url)
    requires d.files.Valid() && j in d.rows && d.rows[j].status.ReviewRequired?
    ensures Settles(d, End(d, RemediateItem(h, cfg, d, j)), j)
  {
    var row := d.rows[j];
    if Remediable(h, cfg, d, j, row) && Final(cfg.mapping(row.logical).value) !in d.files.names
       && j !in cfg.faults.unlinkable {
      var mapped := cfg.mapping(row.logical).value;
      var intended := WithRow(d, j, row.(status := Promoting, stored := mapped, target := Some(mapped),
                                         code := NameTooLong));
      var linked := intended.(files := intended.files.Link(Staging(j), Final(mapped)));
      FinishSettles(cfg, d, linked, j, mapped, true);
    }
  }

  lemma {:induction false} CleanSettles(cfg: Config, d: Disk, j: Url)
    requires d.files.Valid() && j in d.rows && d.rows[j].status.Complete?
    ensures Settles(d, End(d, CleanItem(cfg, d, j)), j)
  {
    assert d.rows == d.rows[j := d.rows[j]];
  }

  lemma {:induction false} ItemSettles(h: Hash, cfg: Config, d: Disk, pass: Pass, j: Url)
    requires d.files.Valid()
    ensures var e := End(d, ItemDisks(h, cfg, d, pass, j));
            && (e.rows == d.rows || Settles(d, e, j))
            && (pass.Reconciling? && j in d.rows ==> !e.rows[j].status.Promoting?)
  {
    if j in d.rows && Wanted(cfg, d, pass, j, d.rows[j]) {
      match pass
      case Reconciling => ReconcileSettles(h, cfg, d, j);
      case Cleaning => CleanSettles(cfg, d, j);
      case Remediating => RemediateSettles(h, cfg, d, j);
    }
  }

  lemma {:induction false} SweepSettles(h: Hash, cfg: Config, d: Disk, pass: Pass, items: seq<Url>)
    requires d.files.Valid()
    ensures var e := End(d, Sweep(h, cfg, d, pass, items));
            && e.rows.Keys == d.rows.Keys
            && forall i | i in d.rows && ((pass.Reconciling? && i in items) || !d.rows[i].status.Promoting?) ::
                 !e.rows[i].status.Promoting?
  {
    hide ItemDisks, Sweep;
    if items == [] {
      EmptySweep(h, cfg, d, pass);
    } else {
      var front, last := items[..|items| - 1], items[|items| - 1];
      assert items == front + [last];
      SweepSettles(h, cfg, d, pass, front);
      var a, e, b := SweepGrows(h, cfg, d, pass, items);
      ItemSettles(h, cfg, e, pass, last);
    }
  }

  lemma {:induction false} EntrySettles(h: Hash, cfg: Config, e: Disk, chosen: seq<Url>, i: Url)
    requires e.files.Valid() && NothingPromoting(e)
    ensures NothingPromoting(End(e, NewDisks(h, cfg, e, chosen, i)))
  {
  }

  lemma {:induction false} ChooseSettles(h: Hash, cfg: Config, d: Disk, n: nat)
    requires d.files.Valid() && NothingPromoting(d) && n <= |cfg.queue|
    ensures NothingPromoting(End(d, ChooseItems(h, cfg, d, n).disks))
  {
    hide NewDisks, NewItems;
    if n > 0 {
      ChooseSettles(h, cfg, d, n - 1);
      var before := ChooseItems(h, cfg, d, n - 1);
      EntrySettles(h, cfg, End(d, before.disks), before.chosen, cfg.queue[n - 1]);
    }
  }

  lemma {:induction false} RepairSettles(h: Hash, cfg: Config, d: Disk)
    requires d.files.Valid() && NothingPromoting(d)
    ensures NothingPromoting(End(d, RepairDisks(h, cfg, d)))
  {
    hide Sweep;
    var cleaned := Sweep(h, cfg, d, Cleaning, cfg.order);
    SweepSettles(h, cfg, d, Cleaning, cfg.order);
    SweepSettles(h, cfg, End(d, cleaned), Remediating, cfg.order);
  }

  // The disks between the parts of a start.
  function AfterReconcile(h: Hash, cfg: Config, d: Disk): Disk
    requires d.files.Valid()
  {
    End(d, ReconcileDisks(h, cfg, d))
  }

  function AfterScope(h: Hash, cfg: Config, d: Disk): (e: Disk)
    requires d.files.Valid()
    ensures e.files.Valid()
  {
    End(AfterReconcile(h, cfg, d), ScopeDisks(h, cfg, AfterReconcile(h, cfg, d)))
  }

  function AfterStart(h: Hash, cfg: Config, d: Disk): Disk
    requires d.files.Valid()
  {
    End(d, StartDisks(h, cfg, d))
  }

  lemma {:induction false} AfterStartIs(h: Hash, cfg: Config, d: Disk)
    requires d.files.Valid()
    ensures var e := AfterScope(h, cfg, d); AfterStart(h, cfg, d) == Requeued(cfg, End(e, RepairDisks(h, cfg, e)))
  {
  }

  // Whatever fails on the way, a start that ends leaves no promoting row and no selected row
  // that a worker of an earlier controller held.
  lemma {:induction false} StartSettles(h: Hash, cfg: Config, d: Disk)
    requires d.files.Valid() && Members(cfg.order) == d.rows.Keys
    ensures NothingPromoting(AfterStart(h, cfg, d))
    ensures forall i | i in AfterStart(h, cfg, d).rows && i in Scoped(cfg, AfterStart(h, cfg, d)) ::
              !Busy(AfterStart(h, cfg, d).rows[i].status)
  {
    hide Sweep, ChooseItems;
    SweepSettles(h, cfg, d, Reconciling, cfg.order);
    var e := AfterReconcile(h, cfg, d);
    assert NothingPromoting(e);
    if Scoped(cfg, e) == {} {
      ChooseSettles(h, cfg, e, |cfg.queue|);
    }
    RepairSettles(h, cfg, AfterScope(h, cfg, d));
    AfterStartIs(h, cfg, d);
  }

  // ------------------------------------------------------------ convergence

  // What a sweep of a whole table makes of the item.
  lemma {:induction false} PassKeepsGood(h: Hash, cfg: Config, d: Disk, pass: Pass, i: Url, p: Path, digest: Digest)
    returns (disks: seq<Disk>, e: Disk)
    requires Good(h, cfg, d, i, p, digest) && Spares(cfg, i)
    ensures disks == Sweep(h, cfg, d, pass, cfg.order) && e == End(d, disks)
    ensures AllGood(h, cfg, disks, i, p, digest) && Good(h, cfg, e, i, p, digest)
    ensures Progress(e.rows[i]) >= Progress(d.rows[i])
    ensures i in cfg.order ==> Progress(e.rows[i]) >= Goal(cfg, d, pass, i)
  {
    disks := Sweep(h, cfg, d, pass, cfg.order);
    e := End(d, disks);
    SweepKeepsGood(h, cfg, d, pass, cfg.order, i, p, digest);
  }

  lemma {:induction false} RepairIs(h: Hash, cfg: Config, d: Disk, a: seq<Disk>, e: Disk, b: seq<Disk>)
    requires d.files.Valid() && a == Sweep(h, cfg, d, Cleaning, cfg.order) && e == End(d, a) && e.files.Valid()
    requires b == Sweep(h, cfg, e, Remediating, cfg.order)
    ensures RepairDisks(h, cfg, d) == a + b && End(d, a + b) == End(e, b)
  {
  }

  lemma {:induction false} RequeueKeepsGood(h: Hash, cfg: Config, d: Disk, i: Url, p: Path, digest: Digest)
    requires Good(h, cfg, d, i, p, digest)
    ensures Good(h, cfg, Requeued(cfg, d), i, p, digest) && Requeued(cfg, d).rows[i] == d.rows[i]
  {
  }

  lemma {:induction false} RepairKeepsGood(h: Hash, cfg: Config, d: Disk, i: Url, p: Path, digest: Digest)
    requires Good(h, cfg, d, i, p, digest) && Spares(cfg, i)
    ensures AllGood(h, cfg, RepairDisks(h, cfg, d), i, p, digest)
    ensures var e := End(d, RepairDisks(h, cfg, d));
            Good(h, cfg, e, i, p, digest) && (i in cfg.order ==> Progress(e.rows[i]) >= Goal(cfg, d, Cleaning, i))
  {
    hide Sweep;
    var a, e := PassKeepsGood(h, cfg, d, Cleaning, i, p, digest);
    var b, f := PassKeepsGood(h, cfg, e, Remediating, i, p, digest);
    RepairIs(h, cfg, d, a, e, b);
    GoodJoins(h, cfg, a, b, i, p, digest);
  }

  // Done: complete, the final in place, the staged file gone, the cleanup recorded.
  ghost predicate Done(h: Hash, d: Disk, i: Url, p: Path, digest: Digest) {
    && d.files.Valid() && i in d.rows && d.rows[i].status.Complete? && d.rows[i].cleaned
    && d.rows[i].sha256 == Some(digest) && FinalMatches(h, d, p, digest) && Staging(i) !in d.files.names
  }

  lemma {:induction false} ReconcileReadies(h: Hash, cfg: Config, d: Disk, i: Url, p: Path, digest: Digest)
    requires Good(h, cfg, d, i, p, digest) && Spares(cfg, i) && Members(cfg.order) == d.rows.Keys
    ensures AllGood(h, cfg, ReconcileDisks(h, cfg, d), i, p, digest)
    ensures Ready(h, cfg, AfterReconcile(h, cfg, d), i, p, digest)
    ensures AfterReconcile(h, cfg, d).runs == d.runs
  {
    hide Sweep;
    SweepKeepsGood(h, cfg, d, Reconciling, cfg.order, i, p, digest);
    SweepSettles(h, cfg, d, Reconciling, cfg.order);
  }

  // A crash at any effect of a start leaves the item promotable.
  lemma {:induction false} StartKeepsPromotable(h: Hash, cfg: Config, d: Disk, i: Url, p: Path, digest: Digest)
    requires Good(h, cfg, d, i, p, digest) && Spares(cfg, i) && Members(cfg.order) == d.rows.Keys
    ensures AllGood(h, cfg, StartDisks(h, cfg, d), i, p, digest)
    ensures i in Scoped(cfg, d) && i !in cfg.faults.stuck ==> Done(h, AfterStart(h, cfg, d), i, p, digest)
  {
    hide Sweep, ChooseItems;
    ReconcileReadies(h, cfg, d, i, p, digest);
    var e := AfterReconcile(h, cfg, d);
    ScopeKeepsGood(h, cfg, e, i, p, digest);
    var f := AfterScope(h, cfg, d);
    RepairKeepsGood(h, cfg, f, i, p, digest);
    RequeueKeepsGood(h, cfg, End(f, RepairDisks(h, cfg, f)), i, p, digest);
    AfterStartIs(h, cfg, d);
    GoodJoins(h, cfg, ReconcileDisks(h, cfg, d), ScopeDisks(h, cfg, e), i, p, digest);
    GoodJoins(h, cfg, ReconcileDisks(h, cfg, d) + ScopeDisks(h, cfg, e), RepairDisks(h, cfg, f), i, p, digest);
  }

  // What may happen between a crash and the repairs of the next start: an import, and new
  // foreign finals away from the target.
  ghost predicate Between(d: Disk, e: Disk, p: Path) {
    && d.files.Valid() && e.files.Valid() && e.runs == d.runs && d.rows.Keys <= e.rows.Keys
    && (forall j | j in d.rows :: SameIntent(d.rows[j], e.rows[j]))
    && (forall n | n in d.files.names || n == Final(p) || !n.Final? :: SameName(d.files, e.files, n))
  }

  // An import never looks at these columns of a known row.
  predicate SameIntent(row: Row, row': Row) {
    row'.status == row.status && row'.sha256 == row.sha256 && row'.target == row.target && row'.cleaned == row.cleaned
  }

  // Starts that are killed after some effect, one after the other.
  ghost predicate Crashes(h: Hash, cfgs: seq<Config>, disks: seq<Disk>, i: Url, p: Path) {
    && |disks| == |cfgs| + 1
    && forall k | 0 <= k < |cfgs| :: CrashedStart(h, cfgs[k], disks[k], disks[k + 1], i, p)
  }

  ghost predicate CrashedStart(h: Hash, cfg: Config, d: Disk, d': Disk, i: Url, p: Path) {
    exists e :: Between(d, e, p) && Startable(cfg, e, i, p) && (d' == e || d' in StartDisks(h, cfg, e))
  }

  // No I/O error hits the item, and no other item is about to take its target.
  ghost predicate Startable(cfg: Config, d: Disk, i: Url, p: Path) {
    d.files.Valid() && Spares(cfg, i) && Alone(cfg, d, i, p) && Members(cfg.order) == d.rows.Keys
  }

  lemma {:induction false} CrashesKeepPromotable(h: Hash, cfgs: seq<Config>, disks: seq<Disk>, k: nat, i: Url, p: Path,
                                                 digest: Digest)
    requires Crashes(h, cfgs, disks, i, p) && k < |disks| && Promotable(h, disks[0], i, p, digest)
    ensures Promotable(h, disks[k], i, p, digest)
  {
    if k > 0 {
      CrashesKeepPromotable(h, cfgs, disks, k - 1, i, p, digest);
      CrashKeepsPromotable(h, cfgs[k - 1], disks[k - 1], disks[k], i, p, digest);
    }
  }

  lemma {:induction false} BetweenKeepsPromotable(h: Hash, d: Disk, e: Disk, i: Url, p: Path, digest: Digest)
    requires Promotable(h, d, i, p, digest) && Between(d, e, p)
    ensures Promotable(h, e, i, p, digest)
  {
    assert SameIntent(d.rows[i], e.rows[i]);
    assert SameName(d.files, e.files, Staging(i)) && SameName(d.files, e.files, Final(p));
  }

  lemma {:induction false} CrashKeepsPromotable(h: Hash, cfg: Config, d: Disk, d': Disk, i: Url, p: Path, digest: Digest)
    requires Promotable(h, d, i, p, digest) && CrashedStart(h, cfg, d, d', i, p)
    ensures Promotable(h, d', i, p, digest)
  {
    var e :| Between(d, e, p) && Startable(cfg, e, i, p) && (d' == e || d' in StartDisks(h, cfg, e));
    BetweenKeepsPromotable(h, d, e, i, p, digest);
    StartKeepsPromotable(h, cfg, e, i, p, digest);
    if d' in StartDisks(h, cfg, e) {
      var k :| 0 <= k < |StartDisks(h, cfg, e)| && StartDisks(h, cfg, e)[k] == d';
      assert Good(h, cfg, StartDisks(h, cfg, e)[k], i, p, digest);
    }
  }

  // Crash convergence: after any number of killed starts, one full start of the run that
  // selected the item completes it, whatever was interrupted.
  lemma {:induction false} Convergence(h: Hash, cfgs: seq<Config>, disks: seq<Disk>, cfg: Config, d: Disk, i: Url, p: Path, digest: Digest)
    requires Crashes(h, cfgs, disks, i, p) && Promotable(h, disks[0], i, p, digest)
    requires Between(disks[|disks| - 1], d, p) && Startable(cfg, d, i, p)
    requires i in Scoped(cfg, d) && i !in cfg.faults.stuck
    ensures Done(h, AfterStart(h, cfg, d), i, p, digest)
  {
    CrashesKeepPromotable(h, cfgs, disks, |disks| - 1, i, p, digest);
    BetweenKeepsPromotable(h, disks[|disks| - 1], d, i, p, digest);
    StartKeepsPromotable(h, cfg, d, i, p, digest);
  }
}
