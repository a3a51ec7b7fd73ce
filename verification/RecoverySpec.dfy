/** One controller start as a function: every disk that the start leaves behind, effect by
    effect, up to the moment when the workers may run. A crash during the start is a prefix. */
module RecoverySpec {
  import opened Prelude
  import opened Database
  import opened FileSystem
  import opened Promotion

  // I/O errors of one start, by item: the target cannot be read, the link fails, the staging
  // file cannot be removed, or the safe-path checks refuse the item.
  datatype Faults = Faults(unreadable: map<Url, Failure>, unlinkable: map<Url, Failure>, stuck: set<Url>,
                           refused: map<Url, Failure>)

  // `order` is the table order of the rows, `mapping` the safe storage path of a logical path.
  datatype Config = Config(run: string, session: nat, queue: seq<Url>, maxFiles: nat, order: seq<Url>,
                           mapping: Path -> Option<Path>, faults: Faults)

  datatype Pass = Reconciling | Cleaning | Remediating

  function End(d: Disk, disks: seq<Disk>): (e: Disk)
    ensures e == d || e in disks
  {
    if disks == [] then d else disks[|disks| - 1]
  }

  function Members(items: seq<Url>): set<Url> {
    set i | i in items
  }

  function Scoped(cfg: Config, d: Disk): set<Url> {
    if cfg.run in d.runs then d.runs[cfg.run] else {}
  }

  function WithRow(d: Disk, i: Url, row: Row): Disk {
    d.(rows := d.rows[i := row])
  }

  // The same table, the same runs, every name on an inode.
  ghost predicate Continues(d: Disk, e: Disk) {
    e.files.Valid() && e.rows.Keys == d.rows.Keys && e.runs == d.runs
  }

  // ------------------------------------------------------------ one item

  // The record, the completion, the removal of the staging file and its commit.
  function Finish(cfg: Config, d: Disk, i: Url, target: Path, remediated: bool): (disks: seq<Disk>)
    requires d.files.Valid() && i in d.rows && Final(target) in d.files.names && d.rows[i].sha256.Some?
    ensures |disks| >= 2 && forall e | e in disks :: Continues(d, e)
  {
    var row, size := d.rows[i], |d.files.Content(Final(target))|;
    var recorded := d.(records := d.records + [Finalized(cfg.session, i, row.stored, row.sha256.value, size)]);
    var done := row.(status := Complete, bytes := Some(size), remediated := row.remediated || remediated);
    var completed := WithRow(recorded, i, done);
    if Staging(i) in d.files.names then
      var unlinked := completed.(files := completed.files.Unlink(Staging(i)));
      [recorded, completed, unlinked, WithRow(unlinked, i, done.(cleaned := true))]
    else
      [recorded, completed]
  }

  function Reviewed(d: Disk, i: Url, code: Option<ReviewCode>, failure: Failure, remediated: bool): Disk
    requires i in d.rows
  {
    var row := d.rows[i];
    WithRow(d, i, row.(status := ReviewRequired, lastError := Some(failure),
                       code := if code.Some? then code.value else row.code,
                       remediated := row.remediated || remediated))
  }

  predicate HasTarget(d: Disk, row: Row) {
    row.target.Some? && row.sha256.Some? && Final(row.target.value) in d.files.names
  }

  predicate CanRelink(d: Disk, i: Url, row: Row) {
    row.target.Some? && row.sha256.Some? && Final(row.target.value) !in d.files.names && Staging(i) in d.files.names
  }

  // One promoting row of reconcile_promotions.
  function ReconcileItem(h: Hash, cfg: Config, d: Disk, i: Url): (disks: seq<Disk>)
    requires d.files.Valid() && i in d.rows
    ensures |disks| >= 1 && forall e | e in disks :: Continues(d, e)
  {
    var row, faults := d.rows[i], cfg.faults;
    if HasTarget(d, row) && i in faults.unreadable then
      [Reviewed(d, i, Some(ErrorCode(faults.unreadable[i])), faults.unreadable[i], false)]
    else if HasTarget(d, row) && h(d.files.Content(Final(row.target.value))) == row.sha256.value then
      Finish(cfg, d, i, row.target.value, false)
    else if CanRelink(d, i, row) then
      if i in faults.unlinkable then
        [Reviewed(d, i, Some(ErrorCode(faults.unlinkable[i])), faults.unlinkable[i], false)]
      else
        var linked := d.(files := d.files.Link(Staging(i), Final(row.target.value)));
        [linked] + Finish(cfg, linked, i, row.target.value, false)
    else
      [Reviewed(d, i, None, Note("promotion reconciliation requires review"), false)]
  }

  // One completed row of cleanup_completed_staging. A failed removal is only logged.
  function CleanItem(cfg: Config, d: Disk, i: Url): (disks: seq<Disk>)
    requires d.files.Valid() && i in d.rows
    ensures forall e | e in disks :: Continues(d, e)
  {
    var cleaned := d.rows[i].(cleaned := true);
    if Staging(i) !in d.files.names then
      [WithRow(d, i, cleaned)]
    else if i in cfg.faults.stuck then
      []
    else
      var unlinked := d.(files := d.files.Unlink(Staging(i)));
      [unlinked, WithRow(unlinked, i, cleaned)]
  }

  predicate NameTooLongReview(row: Row) {
    row.code.NameTooLong? || (row.lastError.Some? && row.lastError.value.nameTooLong)
  }

  // The staged file is there, matches the recorded digest and has a safe path to go to.
  predicate Remediable(h: Hash, cfg: Config, d: Disk, i: Url, row: Row)
    requires d.files.Valid()
  {
    && i !in cfg.faults.refused && Staging(i) in d.files.names && row.sha256.Some?
    && h(d.files.Content(Staging(i))) == row.sha256.value && cfg.mapping(row.logical).Some?
  }

  // One name-too-long review of remediate_safe_paths.
  function RemediateItem(h: Hash, cfg: Config, d: Disk, i: Url): (disks: seq<Disk>)
    requires d.files.Valid() && i in d.rows
    ensures |disks| >= 1 && forall e | e in disks :: Continues(d, e)
  {
    var row, faults := d.rows[i], cfg.faults;
    if !Remediable(h, cfg, d, i, row) then
      var failure := if i in faults.refused then faults.refused[i] else Note("staging cannot be promoted");
      [WithRow(d, i, row.(lastError := Some(failure), remediated := true))]
    else
      var mapped := cfg.mapping(row.logical).value;
      var intended := WithRow(d, i, row.(status := Promoting, stored := mapped, target := Some(mapped),
                                         code := NameTooLong));
      if Final(mapped) in d.files.names then
        [intended, Reviewed(intended, i, None, Note("mapped destination already exists"), true)]
      else if i in faults.unlinkable then
        [intended, Reviewed(intended, i, None, faults.unlinkable[i], true)]
      else
        var linked := intended.(files := intended.files.Link(Staging(i), Final(mapped)));
        [intended, linked] + Finish(cfg, linked, i, mapped, true)
  }

  // The rows that the query of a pass selects.
  predicate Wanted(cfg: Config, d: Disk, pass: Pass, i: Url, row: Row) {
    match pass
    case Reconciling => row.status.Promoting?
    case Cleaning => i in Scoped(cfg, d) && row.status.Complete? && !row.cleaned
    case Remediating => i in Scoped(cfg, d) && row.status.ReviewRequired? && !row.remediated && NameTooLongReview(row)
  }

  function ItemDisks(h: Hash, cfg: Config, d: Disk, pass: Pass, i: Url): (disks: seq<Disk>)
    requires d.files.Valid()
    ensures i !in d.rows ==> disks == []
    ensures forall e | e in disks :: Continues(d, e)
  {
    if i !in d.rows || !Wanted(cfg, d, pass, i, d.rows[i]) then []
    else
      match pass
      case Reconciling => ReconcileItem(h, cfg, d, i)
      case Cleaning => CleanItem(cfg, d, i)
      case Remediating => RemediateItem(h, cfg, d, i)
  }

  // One pass, over the first items of the table.
  function Sweep(h: Hash, cfg: Config, d: Disk, pass: Pass, items: seq<Url>): (disks: seq<Disk>)
    requires d.files.Valid()
    ensures forall e | e in disks :: Continues(d, e)
  {
    if items == [] then []
    else
      var front := Sweep(h, cfg, d, pass, items[..|items| - 1]);
      front + ItemDisks(h, cfg, End(d, front), pass, items[|items| - 1])
  }

  // The last item of a pass.
  lemma {:induction false} SweepGrows(h: Hash, cfg: Config, d: Disk, pass: Pass, items: seq<Url>)
    returns (a: seq<Disk>, e: Disk, b: seq<Disk>)
    requires d.files.Valid() && items != []
    ensures a == Sweep(h, cfg, d, pass, items[..|items| - 1]) && e == End(d, a) && e.files.Valid()
    ensures b == ItemDisks(h, cfg, e, pass, items[|items| - 1])
    ensures Sweep(h, cfg, d, pass, items) == a + b && End(d, a + b) == End(e, b)
  {
    hide ItemDisks;
    a := Sweep(h, cfg, d, pass, items[..|items| - 1]);
    e := End(d, a);
    b := ItemDisks(h, cfg, e, pass, items[|items| - 1]);
  }

  // ------------------------------------------------------------ the selection

  datatype Selection = Selection(disks: seq<Disk>, chosen: seq<Url>)

  // A commit inside the selection also commits the run items that are inserted so far.
  function WithItems(cfg: Config, d: Disk, i: Url, row: Row, chosen: seq<Url>): Disk {
    WithRow(d, i, row).(runs := d.runs[cfg.run := Members(chosen)])
  }

  // One path-matched existing final of reconcile_existing_file.
  function ExistingItem(h: Hash, cfg: Config, d: Disk, i: Url, chosen: seq<Url>): (disks: seq<Disk>)
    requires d.files.Valid() && i in d.rows && Final(d.rows[i].stored) in d.files.names
    ensures |disks| >= 1 && forall e | e in disks :: e.files.Valid() && e.rows.Keys == d.rows.Keys
  {
    var row, faults := d.rows[i], cfg.faults;
    var bytes := d.files.Content(Final(row.stored));
    if row.expected.None? then
      [WithItems(cfg, d, i, row.(status := ExistingUnverified, bytes := Some(|bytes|)), chosen)]
    else if i in faults.unreadable then
      [WithItems(cfg, d, i, row.(status := ReviewRequired, lastError := Some(faults.unreadable[i]),
                               code := ErrorCode(faults.unreadable[i])), chosen)]
    else if h(bytes) != row.expected.value then
      [WithItems(cfg, d, i, row.(status := ReviewRequired, sha256 := Some(h(bytes)), bytes := Some(|bytes|),
                               lastError := Some(Note("checksum mismatch")), code := ChecksumMismatch), chosen)]
    else
      var recorded := d.(records := d.records
                                    + [Finalized(cfg.session, i, row.stored, row.expected.value, |bytes|)]);
      [recorded, WithItems(cfg, recorded, i, row.(status := Complete, sha256 := row.expected, bytes := Some(|bytes|)),
                         chosen)]
  }

  // What one queue entry adds: an item, the repair of an existing final, or nothing.
  function NewDisks(h: Hash, cfg: Config, e: Disk, chosen: seq<Url>, i: Url): (disks: seq<Disk>)
    requires e.files.Valid()
    ensures forall x | x in disks :: x.files.Valid() && x.rows.Keys == e.rows.Keys
  {
    if i !in e.rows || Full(cfg, chosen) || Final(e.rows[i].stored) !in e.files.names || Tracked(e.rows[i].status) then []
    else ExistingItem(h, cfg, e, i, chosen)
  }

  predicate Full(cfg: Config, chosen: seq<Url>) {
    cfg.maxFiles > 0 && |chosen| >= cfg.maxFiles
  }

  function NewItems(cfg: Config, e: Disk, chosen: seq<Url>, i: Url): seq<Url> {
    if i !in e.rows || Full(cfg, chosen) || Final(e.rows[i].stored) in e.files.names then [] else [i]
  }

  // The first `n` queue entries of scope_run.
  function ChooseItems(h: Hash, cfg: Config, d: Disk, n: nat): (selection: Selection)
    requires d.files.Valid() && n <= |cfg.queue|
    ensures forall e | e in selection.disks :: e.files.Valid() && e.rows.Keys == d.rows.Keys
  {
    if n == 0 then Selection([], [])
    else
      var before, i := ChooseItems(h, cfg, d, n - 1), cfg.queue[n - 1];
      var e := End(d, before.disks);
      Selection(before.disks + NewDisks(h, cfg, e, before.chosen, i), before.chosen + NewItems(cfg, e, before.chosen, i))
  }

  // A run that has items keeps them; any other run selects over the whole queue.
  function ScopeDisks(h: Hash, cfg: Config, d: Disk): (disks: seq<Disk>)
    requires d.files.Valid()
    ensures forall e | e in disks :: e.files.Valid() && e.rows.Keys == d.rows.Keys
  {
    if Scoped(cfg, d) != {} then []
    else
      var selection := ChooseItems(h, cfg, d, |cfg.queue|);
      var e := End(d, selection.disks);
      selection.disks + [e.(runs := e.runs[cfg.run := Members(selection.chosen)])]
  }

  // ------------------------------------------------------------ the whole start

  function Requeued(cfg: Config, d: Disk): Disk {
    d.(rows := RequeueRows(d.rows, Scoped(cfg, d)))
  }

  function ReconcileDisks(h: Hash, cfg: Config, d: Disk): (disks: seq<Disk>)
    requires d.files.Valid()
    ensures End(d, disks).files.Valid()
  {
    Sweep(h, cfg, d, Reconciling, cfg.order)
  }

  function RepairDisks(h: Hash, cfg: Config, d: Disk): (disks: seq<Disk>)
    requires d.files.Valid()
    ensures End(d, disks).files.Valid()
  {
    var cleaned := Sweep(h, cfg, d, Cleaning, cfg.order);
    var e := End(d, cleaned);
    cleaned + Sweep(h, cfg, e, Remediating, cfg.order)
  }

  function StartDisks(h: Hash, cfg: Config, d: Disk): (disks: seq<Disk>)
    requires d.files.Valid()
    ensures |disks| >= 1
  {
    var reconciled := ReconcileDisks(h, cfg, d);
    var e := End(d, reconciled);
    var scoped := ScopeDisks(h, cfg, e);
    var f := End(e, scoped);
    var repaired := RepairDisks(h, cfg, f);
    reconciled + scoped + repaired + [Requeued(cfg, End(f, repaired))]
  }
}
