/** The repairs of a controller start, step by step as the controller takes them, against the
    function that lists the disks of a start. */
module Recovery {
  import opened Prelude
  import opened Database
  import opened FileSystem
  import opened Promotion
  import opened RecoverySpec
  import opened RecoveryTheorems

  class Controller {
    const h: Hash
    const cfg: Config
    var disk: Disk
    // every disk that an effect has left behind
    ghost var log: seq<Disk>

    constructor (h: Hash, cfg: Config, disk: Disk)
      ensures this.h == h && this.cfg == cfg && this.disk == disk && log == []
    {
      this.h, this.cfg, this.disk, log := h, cfg, disk, [];
    }

    ghost predicate Valid()
      reads this
    {
      disk.files.Valid() && Distinct(cfg.order)
    }

    // ---------------------------------------------------------- single effects

    method Transition(i: Url, row: Row)
      requires Valid() && i in disk.rows
      modifies this
      ensures Valid() && disk == WithRow(old(disk), i, row) && log == old(log) + [disk]
    {
      disk := disk.(rows := disk.rows[i := row]);
      log := log + [disk];
    }

    method LinkFinal(i: Url, target: Path)
      requires Valid() && Staging(i) in disk.files.names && Final(target) !in disk.files.names
      modifies this
      ensures Valid() && disk == old(disk).(files := old(disk).files.Link(Staging(i), Final(target)))
      ensures log == old(log) + [disk]
    {
      disk := disk.(files := disk.files.Link(Staging(i), Final(target)));
      log := log + [disk];
    }

    method UnlinkStaging(i: Url)
      requires Valid() && Staging(i) in disk.files.names
      modifies this
      ensures Valid() && disk == old(disk).(files := old(disk).files.Unlink(Staging(i)))
      ensures log == old(log) + [disk]
    {
      disk := disk.(files := disk.files.Unlink(Staging(i)));
      log := log + [disk];
    }

    method FinalizedEvent(i: Url, stored: Path, size: nat, digest: Digest)
      requires Valid()
      modifies this
      ensures Valid()
      ensures disk == old(disk).(records := old(disk).records + [Finalized(cfg.session, i, stored, digest, size)])
      ensures log == old(log) + [disk]
    {
      disk := disk.(records := disk.records + [Finalized(cfg.session, i, stored, digest, size)]);
      log := log + [disk];
    }

    // ---------------------------------------------------------- one item

    method FinishPromotion(i: Url, target: Path, remediated: bool)
      requires Valid() && i in disk.rows && Final(target) in disk.files.names && disk.rows[i].sha256.Some?
      modifies this
      ensures Valid() && log == old(log) + Finish(cfg, old(disk), i, target, remediated)
      ensures disk == End(old(disk), Finish(cfg, old(disk), i, target, remediated))
    {
      var row, size := disk.rows[i], |disk.files.Content(Final(target))|;
      FinalizedEvent(i, row.stored, size, row.sha256.value);
      var done := row.(status := Complete, bytes := Some(size), remediated := row.remediated || remediated);
      Transition(i, done);
      if Staging(i) in disk.files.names {
        UnlinkStaging(i);
        Transition(i, done.(cleaned := true));
      }
    }

    method Review(i: Url, code: Option<ReviewCode>, failure: Failure, remediated: bool)
      requires Valid() && i in disk.rows
      modifies this
      ensures Valid() && disk == Reviewed(old(disk), i, code, failure, remediated) && log == old(log) + [disk]
    {
      var row := disk.rows[i];
      Transition(i, row.(status := ReviewRequired, lastError := Some(failure),
                         code := if code.Some? then code.value else row.code,
                         remediated := row.remediated || remediated));
    }

    method ReconcilePromotion(i: Url, row: Row)
      requires Valid() && i in disk.rows && row == disk.rows[i]
      modifies this
      ensures Valid() && log == old(log) + RecoverySpec.ReconcileItem(h, cfg, old(disk), i)
      ensures disk == End(old(disk), RecoverySpec.ReconcileItem(h, cfg, old(disk), i))
    {
      var faults := cfg.faults;
      var present := HasTarget(disk, row);
      if present && i in faults.unreadable {
        Review(i, Some(ErrorCode(faults.unreadable[i])), faults.unreadable[i], false);
        return;
      }
      if present && h(disk.files.Content(Final(row.target.value))) == row.sha256.value {
        FinishPromotion(i, row.target.value, false);
        return;
      }
      if CanRelink(disk, i, row) {
        if i in faults.unlinkable {
          Review(i, Some(ErrorCode(faults.unlinkable[i])), faults.unlinkable[i], false);
          return;
        }
        LinkFinal(i, row.target.value);
        FinishPromotion(i, row.target.value, false);
        return;
      }
      Review(i, None, Note("promotion reconciliation requires review"), false);
    }

    method CleanUp(i: Url, row: Row)
      requires Valid() && i in disk.rows && row == disk.rows[i]
      modifies this
      ensures Valid() && log == old(log) + CleanItem(cfg, old(disk), i)
      ensures disk == End(old(disk), CleanItem(cfg, old(disk), i))
    {
      if Staging(i) in disk.files.names {
        if i in cfg.faults.stuck {
          return;
        }
        UnlinkStaging(i);
      }
      Transition(i, row.(cleaned := true));
    }

    method Remediate(i: Url, row: Row)
      requires Valid() && i in disk.rows && row == disk.rows[i]
      modifies this
      ensures Valid() && log == old(log) + RemediateItem(h, cfg, old(disk), i)
      ensures disk == End(old(disk), RemediateItem(h, cfg, old(disk), i))
    {
      var faults := cfg.faults;
      var safe := cfg.mapping(row.logical);
      if i in faults.refused || Staging(i) !in disk.files.names || row.sha256.None?
         || h(disk.files.Content(Staging(i))) != row.sha256.value || safe.None? {
        var failure := if i in faults.refused then faults.refused[i] else Note("staging cannot be promoted");
        Transition(i, row.(lastError := Some(failure), remediated := true));
        return;
      }
      var mapped := safe.value;
      Transition(i, row.(status := Promoting, stored := mapped, target := Some(mapped), code := NameTooLong));
      if Final(mapped) in disk.files.names {
        Review(i, None, Note("mapped destination already exists"), true);
        return;
      }
      if i in faults.unlinkable {
        Review(i, None, faults.unlinkable[i], true);
        return;
      }
      LinkFinal(i, mapped);
      FinishPromotion(i, mapped, true);
    }

    // One fetched row: the query has checked it, and nothing has changed it since.
    method Visit(pass: Pass, i: Url, row: Row, selected: set<Url>)
      requires Valid() && i in disk.rows && row == disk.rows[i] && selected == Scoped(cfg, disk)
      modifies this
      ensures Valid() && log == old(log) + ItemDisks(h, cfg, old(disk), pass, i)
      ensures disk == End(old(disk), ItemDisks(h, cfg, old(disk), pass, i))
    {
      match pass
      case Reconciling =>
        if row.status.Promoting? { ReconcilePromotion(i, row); }
      case Cleaning =>
        if i in selected && row.status.Complete? && !row.cleaned { CleanUp(i, row); }
      case Remediating =>
        if i in selected && row.status.ReviewRequired? && !row.remediated && NameTooLongReview(row) {
          Remediate(i, row);
        }
    }

    // ---------------------------------------------------------- one pass

    // The rows are fetched once, before the first of them is repaired.
    method RunPass(pass: Pass)
      requires Valid()
      modifies this
      ensures Valid() && log == old(log) + Sweep(h, cfg, old(disk), pass, cfg.order)
      ensures disk == End(old(disk), Sweep(h, cfg, old(disk), pass, cfg.order))
    {
      hide ItemDisks, Sweep;
      var rows, selected := disk.rows, Scoped(cfg, disk);
      var k := 0;
      EmptySweep(h, cfg, disk, pass);
      assert cfg.order[..0] == [];
      ghost var disks: seq<Disk> := [];
      while k < |cfg.order|
        invariant k <= |cfg.order| && Valid() && Continues(old(disk), disk)
        invariant disks == Sweep(h, cfg, old(disk), pass, cfg.order[..k])
        invariant log == old(log) + disks && disk == End(old(disk), disks)
        invariant Unvisited(disk, rows, cfg.order, k)
      {
        var i := cfg.order[k];
        ghost var before := disk;
        ghost var added := ItemDisks(h, cfg, before, pass, i);
        if i in rows {
          Visit(pass, i, rows[i], selected);
        }
        SweepExtends(h, cfg, old(disk), before, pass, cfg.order, k, disks, added);
        VisitKeeps(h, cfg, before, pass, rows, k);
        disks := disks + added;
        k := k + 1;
      }
      assert cfg.order[..k] == cfg.order;
    }

    // ---------------------------------------------------------- the selection

    // A commit of the connection takes the pending run items with it.
    method TransitionWithItems(i: Url, row: Row, chosen: seq<Url>)
      requires Valid() && i in disk.rows
      modifies this
      ensures Valid() && disk == WithItems(cfg, old(disk), i, row, chosen) && log == old(log) + [disk]
    {
      disk := disk.(rows := disk.rows[i := row], runs := disk.runs[cfg.run := Members(chosen)]);
      log := log + [disk];
    }

    method ReconcileExistingFile(i: Url, row: Row, chosen: seq<Url>)
      requires Valid() && i in disk.rows && row == disk.rows[i] && Final(row.stored) in disk.files.names
      modifies this
      ensures Valid() && log == old(log) + ExistingItem(h, cfg, old(disk), i, chosen)
      ensures disk == End(old(disk), ExistingItem(h, cfg, old(disk), i, chosen))
    {
      var size := |disk.files.Content(Final(row.stored))|;
      if row.expected.None? {
        TransitionWithItems(i, row.(status := ExistingUnverified, bytes := Some(size)), chosen);
        return;
      }
      if i in cfg.faults.unreadable {
        var failure := cfg.faults.unreadable[i];
        TransitionWithItems(i, row.(status := ReviewRequired, lastError := Some(failure), code := ErrorCode(failure)),
                            chosen);
        return;
      }
      var digest := h(disk.files.Content(Final(row.stored)));
      if digest != row.expected.value {
        TransitionWithItems(i, row.(status := ReviewRequired, sha256 := Some(digest), bytes := Some(size),
                                    lastError := Some(Note("checksum mismatch")), code := ChecksumMismatch), chosen);
        return;
      }
      FinalizedEvent(i, row.stored, size, digest);
      TransitionWithItems(i, row.(status := Complete, sha256 := Some(digest), bytes := Some(size)), chosen);
    }

    method ScopeRun()
      requires Valid()
      modifies this
      ensures Valid() && log == old(log) + ScopeDisks(h, cfg, old(disk))
      ensures disk == End(old(disk), ScopeDisks(h, cfg, old(disk)))
    {
      hide ChooseItems, NewDisks, NewItems;
      if Scoped(cfg, disk) != {} {
        return;
      }
      var chosen: seq<Url> := [];
      var n := 0;
      ghost var disks: seq<Disk> := [];
      NothingChosen(h, cfg, disk);
      while n < |cfg.queue| && !Full(cfg, chosen)
        invariant n <= |cfg.queue| && Valid()
        invariant ChooseItems(h, cfg, old(disk), n) == Selection(disks, chosen)
        invariant log == old(log) + disks && disk == End(old(disk), disks)
      {
        ghost var before := disk;
        ghost var added := NewDisks(h, cfg, before, chosen, cfg.queue[n]);
        ghost var items := NewItems(cfg, before, chosen, cfg.queue[n]);
        ChooseGrows(h, cfg, old(disk), n, disks, chosen, before, added, items);
        chosen := Consider(cfg.queue[n], chosen);
        disks := disks + added;
        n := n + 1;
      }
      FullChoosesNoMore(h, cfg, old(disk), n, |cfg.queue|);
      disk := disk.(runs := disk.runs[cfg.run := Members(chosen)]);
      log := log + [disk];
    }

    // One queue entry.
    method Consider(i: Url, chosen: seq<Url>) returns (chosen': seq<Url>)
      requires Valid() && !Full(cfg, chosen)
      modifies this
      ensures Valid() && log == old(log) + NewDisks(h, cfg, old(disk), chosen, i)
      ensures disk == End(old(disk), NewDisks(h, cfg, old(disk), chosen, i))
      ensures chosen' == chosen + NewItems(cfg, old(disk), chosen, i)
    {
      chosen' := chosen;
      if i in disk.rows {
        var row := disk.rows[i];
        if Final(row.stored) in disk.files.names {
          if !Tracked(row.status) {
            ReconcileExistingFile(i, row, chosen);
          }
        } else {
          chosen' := chosen + [i];
        }
      }
    }

    // ---------------------------------------------------------- the start

    method RequeueInterruptedTransfers()
      requires Valid()
      modifies this
      ensures Valid() && disk == Requeued(cfg, old(disk)) && log == old(log) + [disk]
    {
      disk := disk.(rows := RequeueRows(disk.rows, Scoped(cfg, disk)));
      log := log + [disk];
    }

    method Start()
      requires Valid()
      modifies this
      ensures Valid() && log == old(log) + StartDisks(h, cfg, old(disk)) && disk == AfterStart(h, cfg, old(disk))
    {
      hide Sweep, ScopeDisks;
      RunPass(Reconciling);
      ScopeRun();
      RunPass(Cleaning);
      RunPass(Remediating);
      RequeueInterruptedTransfers();
    }
  }

  lemma {:induction false} NothingChosen(h: Hash, cfg: Config, d: Disk)
    requires d.files.Valid()
    ensures ChooseItems(h, cfg, d, 0) == Selection([], [])
  {
  }

  lemma {:induction false} ChooseGrows(h: Hash, cfg: Config, d: Disk, n: nat, disks: seq<Disk>, chosen: seq<Url>, e: Disk,
                    added: seq<Disk>, items: seq<Url>)
    requires d.files.Valid() && n < |cfg.queue| && ChooseItems(h, cfg, d, n) == Selection(disks, chosen)
    requires e == End(d, disks) && e.files.Valid()
    requires added == NewDisks(h, cfg, e, chosen, cfg.queue[n]) && items == NewItems(cfg, e, chosen, cfg.queue[n])
    ensures ChooseItems(h, cfg, d, n + 1) == Selection(disks + added, chosen + items)
    ensures End(d, disks + added) == End(e, added)
  {
    hide NewDisks, NewItems;
  }

  // Once the selection is full, the rest of the queue adds nothing.
  lemma {:induction false} FullChoosesNoMore(h: Hash, cfg: Config, d: Disk, n: nat, m: nat)
    requires d.files.Valid() && n <= m <= |cfg.queue|
    requires n < m ==> Full(cfg, ChooseItems(h, cfg, d, n).chosen)
    ensures ChooseItems(h, cfg, d, m) == ChooseItems(h, cfg, d, n)
  {
    hide ChooseItems;
    if n < m {
      FullChoosesNoMore(h, cfg, d, n, m - 1);
      FullChoosesNothing(h, cfg, d, m);
    }
  }

  lemma {:induction false} FullChoosesNothing(h: Hash, cfg: Config, d: Disk, m: nat)
    requires d.files.Valid() && 0 < m <= |cfg.queue| && Full(cfg, ChooseItems(h, cfg, d, m - 1).chosen)
    ensures ChooseItems(h, cfg, d, m) == ChooseItems(h, cfg, d, m - 1)
  {
    var before := ChooseItems(h, cfg, d, m - 1);
    ChooseGrows(h, cfg, d, m - 1, before.disks, before.chosen, End(d, before.disks), [], []);
  }

  // The rows that a pass has still to visit are as they were fetched.
  ghost predicate Unvisited(disk: Disk, rows: map<Url, Row>, order: seq<Url>, k: nat) {
    disk.rows.Keys == rows.Keys
    && forall m | k <= m < |order| && order[m] in rows :: disk.rows[order[m]] == rows[order[m]]
  }

  lemma {:induction false} VisitKeeps(h: Hash, cfg: Config, d: Disk, pass: Pass, rows: map<Url, Row>, k: nat)
    requires d.files.Valid() && k < |cfg.order| && Distinct(cfg.order) && Unvisited(d, rows, cfg.order, k)
    ensures var e := End(d, ItemDisks(h, cfg, d, pass, cfg.order[k]));
            Continues(d, e) && Unvisited(e, rows, cfg.order, k + 1)
  {
    ItemSettles(h, cfg, d, pass, cfg.order[k]);
  }

  lemma {:induction false} SweepExtends(h: Hash, cfg: Config, d: Disk, e: Disk, pass: Pass, order: seq<Url>, k: nat, disks: seq<Disk>,
                     added: seq<Disk>)
    requires d.files.Valid() && k < |order| && disks == Sweep(h, cfg, d, pass, order[..k])
    requires e == End(d, disks) && e.files.Valid() && added == ItemDisks(h, cfg, e, pass, order[k])
    ensures disks + added == Sweep(h, cfg, d, pass, order[..k + 1])
    ensures End(d, disks + added) == End(e, added)
  {
    hide ItemDisks, Sweep;
    assert order[..k + 1][..k] == order[..k];
    var a, f, b := SweepGrows(h, cfg, d, pass, order[..k + 1]);
  }
}
