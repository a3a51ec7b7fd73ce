/** What one start decides, column by column: about an intent, a long name, an existing final, a
    completed row, the selection and the rows that a crash left held. */
module RecoveryVerdicts {
  import opened Prelude
  import opened Database
  import opened FileSystem
  import opened Promotion
  import opened RecoverySpec

  // The row of `i` becomes `row`, and nothing else changes.
  predicate RowOnly(d: Disk, e: Disk, i: Url, row: Row) {
    e.files == d.files && e.runs == d.runs && e.records == d.records && e.rows == d.rows[i := row]
  }

  // The promotion of `i` is done: the final is the given inode, one record was appended, the row is
  // complete, and no staging name is left. `row` is the row of the intent.
  ghost predicate Promoted(d: Disk, e: Disk, session: nat, i: Url, row: Row, remediated: bool, inode: nat)
    requires d.files.Valid() && inode in d.files.data && row.target.Some? && row.sha256.Some?
  {
    var size := |d.files.data[inode]|;
    && e.files == Files(d.files.names[Final(row.target.value) := inode] - {Staging(i)}, d.files.data, d.files.controls)
    && e.records == d.records + [Finalized(session, i, row.stored, row.sha256.value, size)]
    && e.runs == d.runs
    && e.rows == d.rows[i := row.(status := Complete, bytes := Some(size), remediated := row.remediated || remediated,
                                  cleaned := row.cleaned || Staging(i) in d.files.names)]
  }

  // ------------------------------------------------------------ the end of Finish

  lemma {:induction false} FinishEnds(cfg: Config, d: Disk, i: Url, target: Path, remediated: bool)
    requires d.files.Valid() && i in d.rows && Final(target) in d.files.names && d.rows[i].sha256.Some?
    requires d.rows[i].target == Some(target)
    ensures Promoted(d, End(d, Finish(cfg, d, i, target, remediated)), cfg.session, i, d.rows[i], remediated,
                     d.files.names[Final(target)])
  {
    var e := End(d, Finish(cfg, d, i, target, remediated));
    var inode := d.files.names[Final(target)];
    assert e.files.names == d.files.names[Final(target) := inode] - {Staging(i)};
    var row := d.rows[i].(status := Complete, bytes := Some(|d.files.data[inode]|), remediated := d.rows[i].remediated || remediated,
                          cleaned := d.rows[i].cleaned || Staging(i) in d.files.names);
    assert e.rows == d.rows[i := row];
  }

  // The same after the link from staging.
  lemma {:induction false} LinkedFinish(cfg: Config, d: Disk, i: Url, target: Path, remediated: bool)
    requires d.files.Valid() && i in d.rows && Final(target) !in d.files.names && d.rows[i].sha256.Some?
    requires d.rows[i].target == Some(target) && Staging(i) in d.files.names
    ensures var linked := d.(files := d.files.Link(Staging(i), Final(target)));
            && linked.files.Valid() && Final(target) in linked.files.names
            && Promoted(d, End(linked, Finish(cfg, linked, i, target, remediated)), cfg.session, i, d.rows[i], remediated,
                        d.files.names[Staging(i)])
  {
    hide Finish, End;
    var linked := d.(files := d.files.Link(Staging(i), Final(target)));
    var inode := d.files.names[Staging(i)];
    FinishEnds(cfg, linked, i, target, remediated);
    assert linked.files.names[Final(target) := inode] == d.files.names[Final(target) := inode];
  }

  // ------------------------------------------------------------ an intent

  // The bytes under the target have the recorded digest.
  ghost predicate Landed(h: Hash, d: Disk, row: Row)
    requires d.files.Valid()
  {
    && row.target.Some? && row.sha256.Some? && Final(row.target.value) in d.files.names
    && h(d.files.data[d.files.names[Final(row.target.value)]]) == row.sha256.value
  }

  // There is nothing under the target yet, and the staged file is there.
  ghost predicate Waiting(d: Disk, i: Url, row: Row) {
    row.target.Some? && row.sha256.Some? && Final(row.target.value) !in d.files.names && Staging(i) in d.files.names
  }

  // The error that sends an intent to review, when one call of the file system fails.
  ghost predicate Hindered(cfg: Config, d: Disk, i: Url, row: Row, failure: Failure) {
    && row.target.Some? && row.sha256.Some?
    && (if Final(row.target.value) in d.files.names
        then i in cfg.faults.unreadable && failure == cfg.faults.unreadable[i]
        else Staging(i) in d.files.names && i in cfg.faults.unlinkable && failure == cfg.faults.unlinkable[i])
  }

  // An intent is completed exactly when its final has landed and can be read, or when its staged
  // file waits and can be linked; every other intent goes to review.
  lemma {:induction false} IntentVerdict(h: Hash, cfg: Config, d: Disk, i: Url)
    requires d.files.Valid() && i in d.rows
    ensures var row, e := d.rows[i], End(d, ReconcileItem(h, cfg, d, i));
            && (forall failure | Hindered(cfg, d, i, row, failure) ::
                  RowOnly(d, e, i, row.(status := ReviewRequired, lastError := Some(failure),
                                        code := if failure.nameTooLong then NameTooLong else NoCode)))
            && (Landed(h, d, row) && i !in cfg.faults.unreadable ==>
                  Promoted(d, e, cfg.session, i, row, false, d.files.names[Final(row.target.value)]))
            && (Waiting(d, i, row) && i !in cfg.faults.unlinkable ==>
                  Promoted(d, e, cfg.session, i, row, false, d.files.names[Staging(i)]))
            && (!Waiting(d, i, row) && !Landed(h, d, row) && (forall failure :: !Hindered(cfg, d, i, row, failure)) ==>
                  && i in e.rows && e.rows[i].lastError.Some? && !e.rows[i].lastError.value.nameTooLong
                  && RowOnly(d, e, i, row.(status := ReviewRequired, lastError := e.rows[i].lastError)))
  {
    hide Finish;
    var row := d.rows[i];
    if Landed(h, d, row) && i !in cfg.faults.unreadable {
      FinishEnds(cfg, d, i, row.target.value, false);
    } else if Waiting(d, i, row) && i !in cfg.faults.unlinkable {
      LinkedFinish(cfg, d, i, row.target.value, false);
    } else if row.target.Some? && row.sha256.Some? {
      if Final(row.target.value) in d.files.names {
        if i in cfg.faults.unreadable {
          assert Hindered(cfg, d, i, row, cfg.faults.unreadable[i]);
        }
      } else if Staging(i) in d.files.names {
        assert Hindered(cfg, d, i, row, cfg.faults.unlinkable[i]);
      }
    }
  }

  // ------------------------------------------------------------ a completed row

  // The staging name of a completed row goes away and its removal is recorded, unless the removal fails.
  lemma {:induction false} CleanVerdict(cfg: Config, d: Disk, i: Url)
    requires d.files.Valid() && i in d.rows
    ensures var e := End(d, CleanItem(cfg, d, i));
            if Staging(i) in d.files.names && i in cfg.faults.stuck then e == d
            else
              && e.files == Files(d.files.names - {Staging(i)}, d.files.data, d.files.controls)
              && e.runs == d.runs && e.records == d.records && e.rows == d.rows[i := d.rows[i].(cleaned := true)]
  {
  }

  // ------------------------------------------------------------ a name that is too long

  // The staged file may go to a shorter name: nothing refuses the item, its bytes have the recorded
  // digest, and its logical path has a safe form.
  ghost predicate Renamable(h: Hash, cfg: Config, d: Disk, i: Url, row: Row)
    requires d.files.Valid()
  {
    && i !in cfg.faults.refused && Staging(i) in d.files.names && row.sha256.Some?
    && h(d.files.data[d.files.names[Staging(i)]]) == row.sha256.value && cfg.mapping(row.logical).Some?
  }

  // The item gets the shorter name and is promoted there exactly when it may be renamed, nothing has
  // that name and the link succeeds; in any case it is never tried again.
  lemma {:induction false} RemediationVerdict(h: Hash, cfg: Config, d: Disk, i: Url)
    requires d.files.Valid() && i in d.rows
    ensures var row, e := d.rows[i], End(d, RemediateItem(h, cfg, d, i));
            && i in e.rows && e.rows[i].remediated
            && (if !Renamable(h, cfg, d, i, row) then
                  && e.rows[i].lastError.Some? && (i in cfg.faults.refused ==> e.rows[i].lastError.value == cfg.faults.refused[i])
                  && RowOnly(d, e, i, row.(lastError := e.rows[i].lastError, remediated := true))
                else
                  var mapped := cfg.mapping(row.logical).value;
                  var intent := row.(status := Promoting, stored := mapped, target := Some(mapped), code := NameTooLong);
                  if Final(mapped) in d.files.names || i in cfg.faults.unlinkable then
                    && e.rows[i].lastError.Some?
                    && (Final(mapped) !in d.files.names ==> e.rows[i].lastError.value == cfg.faults.unlinkable[i])
                    && RowOnly(d, e, i, intent.(status := ReviewRequired, lastError := e.rows[i].lastError, remediated := true))
                  else
                    Promoted(d, e, cfg.session, i, intent, true, d.files.names[Staging(i)]))
  {
    hide Finish;
    var row := d.rows[i];
    if Renamable(h, cfg, d, i, row) {
      var mapped := cfg.mapping(row.logical).value;
      var intent := row.(status := Promoting, stored := mapped, target := Some(mapped), code := NameTooLong);
      var intended := d.(rows := d.rows[i := intent]);
      if Final(mapped) !in d.files.names && i !in cfg.faults.unlinkable {
        LinkedFinish(cfg, intended, i, mapped, true);
      }
    }
  }

  // ------------------------------------------------------------ the passes

  // The rows that a pass takes: every intent, and of this run's items the completed rows without a
  // recorded cleanup and the reviews of a long name that were not remediated.
  predicate Takes(cfg: Config, d: Disk, pass: Pass, i: Url) {
    && i in d.rows
    && var row := d.rows[i];
    match pass
    case Reconciling => row.status.Promoting?
    case Cleaning => cfg.run in d.runs && i in d.runs[cfg.run] && row.status.Complete? && !row.cleaned
    case Remediating =>
      && cfg.run in d.runs && i in d.runs[cfg.run] && row.status.ReviewRequired? && !row.remediated
      && (row.code.NameTooLong? || (row.lastError.Some? && row.lastError.value.nameTooLong))
  }

  lemma {:induction false} PassTakes(h: Hash, cfg: Config, d: Disk, pass: Pass, i: Url)
    requires d.files.Valid()
    ensures ItemDisks(h, cfg, d, pass, i)
            == if !Takes(cfg, d, pass, i) then []
               else match pass
                    case Reconciling => ReconcileItem(h, cfg, d, i)
                    case Cleaning => CleanItem(cfg, d, i)
                    case Remediating => RemediateItem(h, cfg, d, i)
  {
  }

  // ------------------------------------------------------------ an existing final

  // The queue entry has a final that no row accounts for yet, and the selection still takes items.
  predicate Found(cfg: Config, d: Disk, chosen: seq<Url>, i: Url) {
    && i in d.rows && Final(d.rows[i].stored) in d.files.names && (cfg.maxFiles == 0 || |chosen| < cfg.maxFiles)
    && match d.rows[i].status
       case Complete => false
       case ExistingUnverified => false
       case ReviewRequired => false
       case Excluded => false
       case Unavailable => false
       case _ => true
  }

  // With no checksum the final is taken as it is; with a checksum it must be readable and have that
  // digest, and then it is recorded and complete; otherwise it goes to review. Each of these commits
  // saves the items chosen so far.
  lemma {:induction false} ExistingVerdict(h: Hash, cfg: Config, d: Disk, chosen: seq<Url>, i: Url)
    requires d.files.Valid()
    ensures !Found(cfg, d, chosen, i) ==> NewDisks(h, cfg, d, chosen, i) == []
    ensures Found(cfg, d, chosen, i) ==>
              var row, e := d.rows[i], End(d, NewDisks(h, cfg, d, chosen, i));
              var bytes, x := d.files.data[d.files.names[Final(row.stored)]], row.expected;
              && e.files == d.files && e.runs == d.runs[cfg.run := set j | j in chosen] && i in e.rows
              && e.rows == d.rows[i := e.rows[i]]
              && e.records == d.records + (if x.Some? && i !in cfg.faults.unreadable && x.value == h(bytes)
                                           then [Finalized(cfg.session, i, row.stored, x.value, |bytes|)] else [])
              && (x.None? ==> e.rows[i] == row.(status := ExistingUnverified, bytes := Some(|bytes|)))
              && (x.Some? && i in cfg.faults.unreadable ==>
                    var failure := cfg.faults.unreadable[i];
                    e.rows[i] == row.(status := ReviewRequired, lastError := Some(failure),
                                      code := if failure.nameTooLong then NameTooLong else NoCode))
              && (x.Some? && i !in cfg.faults.unreadable && x.value == h(bytes) ==>
                    e.rows[i] == row.(status := Complete, sha256 := x, bytes := Some(|bytes|)))
              && (x.Some? && i !in cfg.faults.unreadable && x.value != h(bytes) ==>
                    && e.rows[i].lastError.Some? && !e.rows[i].lastError.value.nameTooLong
                    && e.rows[i] == row.(status := ReviewRequired, sha256 := Some(h(bytes)), bytes := Some(|bytes|),
                                         code := ChecksumMismatch, lastError := e.rows[i].lastError))
  {
  }

  // ------------------------------------------------------------ the selection

  // The queue entries whose item has no final, in queue order.
  function Missing(d: Disk, queue: seq<Url>): seq<Url> {
    if queue == [] then []
    else
      var last := queue[|queue| - 1];
      Missing(d, queue[..|queue| - 1])
      + if last in d.rows && Final(d.rows[last].stored) !in d.files.names then [last] else []
  }

  // The names, and where each item is stored, stay as they are while a run selects.
  ghost predicate SamePlaces(d: Disk, e: Disk) {
    e.files == d.files && e.rows.Keys == d.rows.Keys && forall i | i in d.rows :: e.rows[i].stored == d.rows[i].stored
  }

  // The first items, as many as a run may take.
  function Limited(cfg: Config, items: seq<Url>): seq<Url> {
    if cfg.maxFiles == 0 || |items| <= cfg.maxFiles then items else items[..cfg.maxFiles]
  }

  lemma {:induction false} MissingStep(d: Disk, queue: seq<Url>, n: nat)
    requires 0 < n <= |queue|
    ensures var last := queue[n - 1];
            Missing(d, queue[..n]) == Missing(d, queue[..n - 1])
                                      + if last in d.rows && Final(d.rows[last].stored) !in d.files.names then [last] else []
  {
    assert queue[..n][..n - 1] == queue[..n - 1];
  }

  // One more entry is taken when it is missing and the limit is not reached.
  lemma {:induction false} NewItemsAre(cfg: Config, d: Disk, e: Disk, missing: seq<Url>, i: Url)
    requires SamePlaces(d, e)
    ensures Limited(cfg, missing) + NewItems(cfg, e, Limited(cfg, missing), i)
            == Limited(cfg, missing + if i in d.rows && Final(d.rows[i].stored) !in d.files.names then [i] else [])
  {
  }

  // A new run selects the first missing items of the queue, as many as it may take.
  lemma {:induction false} SelectionIs(h: Hash, cfg: Config, d: Disk, n: nat)
    requires d.files.Valid() && n <= |cfg.queue|
    ensures var selection, missing := ChooseItems(h, cfg, d, n), Missing(d, cfg.queue[..n]);
            && selection.chosen == (if cfg.maxFiles == 0 || |missing| <= cfg.maxFiles then missing else missing[..cfg.maxFiles])
            && SamePlaces(d, End(d, selection.disks))
  {
    hide NewDisks, End, NewItems, Missing, SamePlaces;
    if n > 0 {
      SelectionIs(h, cfg, d, n - 1);
      var i, before := cfg.queue[n - 1], ChooseItems(h, cfg, d, n - 1);
      var e := End(d, before.disks);
      MissingStep(d, cfg.queue, n);
      NewItemsAre(cfg, d, e, Missing(d, cfg.queue[..n - 1]), i);
      PlacesStay(h, cfg, e, before.chosen, i);
      EndJoins(d, before.disks, NewDisks(h, cfg, e, before.chosen, i));
      PlacesGoOn(d, e, End(e, NewDisks(h, cfg, e, before.chosen, i)));
    } else {
      EmptyEnd(d);
      NothingMissing(d);
    }
  }

  lemma {:induction false} PlacesGoOn(d: Disk, e: Disk, f: Disk)
    requires SamePlaces(d, e) && SamePlaces(e, f)
    ensures SamePlaces(d, f)
  {
  }

  lemma {:induction false} NothingMissing(d: Disk)
    ensures Missing(d, []) == [] && SamePlaces(d, d)
  {
  }

  lemma {:induction false} EmptyEnd(d: Disk)
    ensures End(d, []) == d
  {
  }

  lemma {:induction false} EndJoins(d: Disk, a: seq<Disk>, b: seq<Disk>)
    ensures End(d, a + b) == End(End(d, a), b)
  {
  }

  lemma {:induction false} PlacesStay(h: Hash, cfg: Config, d: Disk, chosen: seq<Url>, i: Url)
    requires d.files.Valid()
    ensures SamePlaces(d, End(d, NewDisks(h, cfg, d, chosen, i)))
  {
    hide NewDisks;
    ExistingVerdict(h, cfg, d, chosen, i);
    EmptyEnd(d);
  }

  // What the run holds after it: the items it had, or the new selection.
  lemma {:induction false} ScopeVerdict(h: Hash, cfg: Config, d: Disk)
    requires d.files.Valid()
    ensures var e, missing := End(d, ScopeDisks(h, cfg, d)), Missing(d, cfg.queue);
            if cfg.run in d.runs && d.runs[cfg.run] != {} then e == d
            else
              && cfg.run in e.runs
              && var selected := if cfg.maxFiles == 0 || |missing| <= cfg.maxFiles then missing else missing[..cfg.maxFiles];
                 e.runs[cfg.run] == set i | i in selected
  {
    hide ChooseItems, Missing;
    SelectionIs(h, cfg, d, |cfg.queue|);
    assert cfg.queue[..|cfg.queue|] == cfg.queue;
  }

  // ------------------------------------------------------------ held rows

  // Rows of this run that a crash left active, running or admitted return to the queue at once.
  lemma {:induction false} RequeueVerdict(cfg: Config, d: Disk)
    ensures var e := Requeued(cfg, d);
            && e.files == d.files && e.runs == d.runs && e.records == d.records && e.rows.Keys == d.rows.Keys
            && forall i | i in d.rows ::
                 e.rows[i] == if cfg.run in d.runs && i in d.runs[cfg.run]
                                 && (d.rows[i].status.Active? || d.rows[i].status.Running? || d.rows[i].status.Admitted?)
                              then d.rows[i].(status := Queued, nextRetryAt := 0.0) else d.rows[i]
  {
  }
}
