/** The import that precedes the recovery of every start: when a start that imports the same queue
    again changes nothing. */
module RecoveryImport {
  import opened Prelude
  import opened Database
  import opened FileSystem
  import opened Promotion
  import opened PromotionRecords
  import opened RecoverySpec
  import opened RecoveryTheorems
  import opened RecoveryRepeat
  import MovedStorage
  import Recheck

  // ------------------------------------------------------------ the import

  // One entry that read_queues yields: its logical path, the path that this path is stored under, and
  // the path that older controllers used.
  datatype Entry = Entry(url: Url, logical: Path, decoded: Path, legacy: Option<Path>, expected: Option<Digest>,
                         generation: Option<string>)

  function StoredPath(files: Files, e: Entry): Path {
    ResolvedStorage(files, e.decoded, e.legacy)
  }

  // The statements of import_queues for one entry, with record_source_generation at `now`.
  function ImportedRow(d: Disk, e: Entry, now: real): Row {
    var stored := StoredPath(d.files, e);
    if e.url !in d.rows then NewRow(e.logical, stored, e.expected, e.generation)
    else
      var row := d.rows[e.url].(stored := stored, expected := e.expected);
      Recheck.Next(row, Recheck.ImportRow(e.generation, now))
  }

  // The whole import is one commit; `now` is the time at which each entry is compared.
  function Imported(d: Disk, entries: seq<Entry>, now: Url -> real): (d': Disk)
    ensures d'.files == d.files && d'.runs == d.runs && d'.records == d.records
  {
    if entries == [] then d
    else
      var front, e := Imported(d, entries[..|entries| - 1], now), entries[|entries| - 1];
      front.(rows := front.rows[e.url := ImportedRow(front, e, now(e.url))])
  }

  ghost predicate OnePerUrl(entries: seq<Entry>) {
    forall k, l | 0 <= k < l < |entries| :: entries[k].url != entries[l].url
  }

  // Every entry is a step of the machine.
  lemma {:induction false} ImportIsAStep(h: Hash, s: State, e: Entry, now: real)
    requires s.disk.files.Valid() && s.phase.Starting? && forall j | j in s.disk.rows :: Settled(s.disk, s.session, j)
    ensures var step := Step.Import(e.url, ImportedRow(s.disk, e, now));
            && Enabled(h, s, step)
            && Apply(h, s, step) == s.(disk := Imported(s.disk, [e], _ => now))
  {
    assert [e][..0] == [];
    assert Imported(s.disk, [], _ => now) == s.disk;
  }

  // ------------------------------------------------------------ what an import says

  predicate Given(generation: Option<string>) {
    generation.Some? && |generation.value| > 0
  }

  // The path of an entry: the older one only when there is a file at it and none at the other.
  predicate StoredAt(files: Files, e: Entry, p: Path) {
    if Final(e.decoded) !in files.names && e.legacy.Some? && Final(e.legacy.value) in files.names
    then p == e.legacy.value else p == e.decoded
  }

  // A new URL gives a queued row with the columns of the queue and nothing else; an existing row takes the
  // storage path, the checksum and the generation, and an unavailable item that is not due takes another
  // known generation as a reason to look again.
  predicate Imports(d: Disk, e: Entry, now: real, row': Row) {
    && StoredAt(d.files, e, row'.stored) && row'.expected == e.expected && row'.sourceGeneration == e.generation
    && if e.url in d.rows then
         var row := d.rows[e.url];
         && row' == row.(stored := row'.stored, expected := row'.expected, sourceGeneration := row'.sourceGeneration,
                         early := row'.early)
         && row'.early == (if row.status.Unavailable? && row.early != 1 && row.recheckAt.Some? && row.recheckAt.value > now
                              && Given(row.sourceGeneration) && Given(e.generation)
                              && row.sourceGeneration.value != e.generation.value then 1 else row.early)
       else
         && row'.status.Queued? && row'.attempts == 0 && row'.logical == e.logical && row'.priority == 0
         && row'.bytes.None? && row'.sha256.None? && row'.target.None? && row'.lastError.None? && row'.code.NoCode?
         && row'.etag.None? && row'.lastModified.None? && row'.generation.None? && row'.recheckAt.None?
         && row'.nextRetryAt == 0.0 && row'.early == 0 && !row'.cleaned && !row'.remediated
  }

  // An import changes the rows of its entries in this way, and no other row.
  lemma {:induction false} ImportMeans(d: Disk, entries: seq<Entry>, now: Url -> real)
    requires OnePerUrl(entries)
    ensures var d' := Imported(d, entries, now);
            && (forall k | 0 <= k < |entries| ::
                  entries[k].url in d'.rows && Imports(d, entries[k], now(entries[k].url), d'.rows[entries[k].url]))
            && (forall i | forall k | 0 <= k < |entries| :: entries[k].url != i ::
                  (i in d'.rows <==> i in d.rows) && (i in d.rows ==> d'.rows[i] == d.rows[i]))
  {
    hide Imported, ImportedRow, Imports;
    forall k | 0 <= k < |entries|
      ensures var d' := Imported(d, entries, now);
              entries[k].url in d'.rows && Imports(d, entries[k], now(entries[k].url), d'.rows[entries[k].url])
    {
      ImportedAt(d, entries, now, k);
      RowImports(d, entries[k], now(entries[k].url));
    }
    forall i | forall k | 0 <= k < |entries| :: entries[k].url != i
      ensures var d' := Imported(d, entries, now);
              (i in d'.rows <==> i in d.rows) && (i in d.rows ==> d'.rows[i] == d.rows[i])
    {
      ImportedElsewhere(d, entries, now, i);
    }
  }

  lemma {:induction false} RowImports(d: Disk, e: Entry, now: real)
    ensures Imports(d, e, now, ImportedRow(d, e, now))
  {
  }

  // ------------------------------------------------------------ what an import leaves alone

  // What the queue says of an entry that is in the table already.
  predicate Agrees(row: Row, files: Files, e: Entry) {
    row.stored == StoredPath(files, e) && row.expected == e.expected && row.sourceGeneration == e.generation
  }

  lemma {:induction false} ImportedElsewhere(d: Disk, entries: seq<Entry>, now: Url -> real, i: Url)
    requires forall k | 0 <= k < |entries| :: entries[k].url != i
    ensures var d' := Imported(d, entries, now);
            (i in d'.rows <==> i in d.rows) && (i in d.rows ==> d'.rows[i] == d.rows[i])
  {
    hide ImportedRow;
    if entries != [] {
      ImportedElsewhere(d, entries[..|entries| - 1], now, i);
    }
  }

  lemma {:induction false} ImportedAt(d: Disk, entries: seq<Entry>, now: Url -> real, k: nat)
    requires OnePerUrl(entries) && k < |entries|
    ensures var e, d' := entries[k], Imported(d, entries, now);
            e.url in d'.rows && d'.rows[e.url] == ImportedRow(d, e, now(e.url))
  {
    hide ImportedRow;
    var front, last := entries[..|entries| - 1], entries[|entries| - 1];
    if k < |front| {
      ImportedAt(d, front, now, k);
    } else {
      ImportedElsewhere(d, front, now, last.url);
      SameRowSameImport(d, Imported(d, front, now), last, now(last.url));
    }
  }

  lemma {:induction false} SameRowSameImport(d: Disk, d': Disk, e: Entry, now: real)
    requires d'.files == d.files && (e.url in d'.rows <==> e.url in d.rows)
    requires e.url in d.rows ==> d'.rows[e.url] == d.rows[e.url]
    ensures ImportedRow(d', e, now) == ImportedRow(d, e, now)
  {
  }

  lemma {:induction false} RowStaysIff(d: Disk, e: Entry, now: real)
    requires e.url in d.rows
    ensures ImportedRow(d, e, now) == d.rows[e.url] <==> Agrees(d.rows[e.url], d.files, e)
    ensures Agrees(ImportedRow(d, e, now), d.files, e)
  {
  }

  lemma {:induction false} NewRowAgrees(d: Disk, e: Entry, now: real)
    requires e.url !in d.rows
    ensures Agrees(ImportedRow(d, e, now), d.files, e) && ImportedRow(d, e, now).logical == e.logical
  {
  }

  // An import changes nothing if and only if every entry is in the table, with the checksum and the
  // generation of the queue and the storage path that resolves now.
  lemma {:induction false} ImportKeepsIff(d: Disk, entries: seq<Entry>, now: Url -> real)
    requires OnePerUrl(entries)
    ensures Imported(d, entries, now) == d
            <==> forall k | 0 <= k < |entries| :: entries[k].url in d.rows && Agrees(d.rows[entries[k].url], d.files, entries[k])
  {
    hide ImportedRow, Agrees, Imported;
    var d' := Imported(d, entries, now);
    forall k | 0 <= k < |entries|
      ensures entries[k].url in d'.rows && (entries[k].url in d.rows ==>
                (d'.rows[entries[k].url] == d.rows[entries[k].url] <==> Agrees(d.rows[entries[k].url], d.files, entries[k])))
    {
      ImportedAt(d, entries, now, k);
      if entries[k].url in d.rows {
        RowStaysIff(d, entries[k], now(entries[k].url));
      }
    }
    if forall k | 0 <= k < |entries| :: entries[k].url in d.rows && Agrees(d.rows[entries[k].url], d.files, entries[k]) {
      forall i ensures (i in d'.rows <==> i in d.rows) && (i in d.rows ==> d'.rows[i] == d.rows[i]) {
        if forall k | 0 <= k < |entries| :: entries[k].url != i {
          ImportedElsewhere(d, entries, now, i);
        }
      }
      assert d'.rows.Keys == d.rows.Keys;
      assert d'.rows == d.rows;
    }
  }

  // ------------------------------------------------------------ what a start leaves alone

  // The columns that the queue gives stay, but a remediation maps the storage path.
  predicate Kept(cfg: Config, row: Row, row': Row) {
    && row'.expected == row.expected && row'.logical == row.logical && row'.sourceGeneration == row.sourceGeneration
    && (row'.stored == row.stored || Some(row'.stored) == cfg.mapping(row.logical))
  }

  predicate AllKept(cfg: Config, d: Disk, e: Disk) {
    e.rows.Keys == d.rows.Keys && forall i | i in d.rows :: Kept(cfg, d.rows[i], e.rows[i])
  }

  lemma {:induction false} KeptChains(cfg: Config, d: Disk, e: Disk, f: Disk)
    requires AllKept(cfg, d, e) && AllKept(cfg, e, f)
    ensures AllKept(cfg, d, f)
  {
    forall i | i in d.rows ensures Kept(cfg, d.rows[i], f.rows[i]) {
      assert Kept(cfg, d.rows[i], e.rows[i]) && Kept(cfg, e.rows[i], f.rows[i]);
    }
  }

  lemma {:induction false} FinishKeeps(cfg: Config, d: Disk, e: Disk, i: Url, target: Path, remediated: bool)
    requires e.files.Valid() && i in e.rows && Final(target) in e.files.names && e.rows[i].sha256.Some? && AllKept(cfg, d, e)
    ensures AllKept(cfg, d, End(e, Finish(cfg, e, i, target, remediated)))
  {
  }

  lemma {:induction false} ReviewKeeps(cfg: Config, d: Disk, i: Url, code: Option<ReviewCode>, failure: Failure)
    requires i in d.rows
    ensures AllKept(cfg, d, Reviewed(d, i, code, failure, false))
  {
  }

  lemma {:induction false} ReconcileKeeps(h: Hash, cfg: Config, d: Disk, i: Url)
    requires d.files.Valid() && i in d.rows
    ensures AllKept(cfg, d, End(d, ReconcileItem(h, cfg, d, i)))
  {
    hide Finish, Kept, Reviewed;
    var row, faults := d.rows[i], cfg.faults;
    KeptItself(cfg, d);
    ReviewKeeps(cfg, d, i, None, Note("promotion reconciliation requires review"));
    if HasTarget(d, row) {
      if i in faults.unreadable {
        ReviewKeeps(cfg, d, i, Some(ErrorCode(faults.unreadable[i])), faults.unreadable[i]);
      } else {
        FinishKeeps(cfg, d, d, i, row.target.value, false);
      }
    } else if CanRelink(d, i, row) {
      if i in faults.unlinkable {
        ReviewKeeps(cfg, d, i, Some(ErrorCode(faults.unlinkable[i])), faults.unlinkable[i]);
      } else {
        var linked := d.(files := d.files.Link(Staging(i), Final(row.target.value)));
        FinishKeeps(cfg, d, linked, i, row.target.value, false);
      }
    }
  }

  lemma {:induction false} CleanKeeps(cfg: Config, d: Disk, i: Url)
    requires d.files.Valid() && i in d.rows
    ensures AllKept(cfg, d, End(d, CleanItem(cfg, d, i)))
  {
  }

  lemma {:induction false} RemediateKeeps(h: Hash, cfg: Config, d: Disk, i: Url)
    requires d.files.Valid() && i in d.rows
    ensures AllKept(cfg, d, End(d, RemediateItem(h, cfg, d, i)))
  {
    hide Finish;
    var row := d.rows[i];
    if Remediable(h, cfg, d, i, row) && Final(cfg.mapping(row.logical).value) !in d.files.names && i !in cfg.faults.unlinkable {
      var mapped := cfg.mapping(row.logical).value;
      var intended := WithRow(d, i, row.(status := Promoting, stored := mapped, target := Some(mapped), code := NameTooLong));
      var linked := intended.(files := intended.files.Link(Staging(i), Final(mapped)));
      FinishKeeps(cfg, d, linked, i, mapped, true);
    }
  }

  lemma {:induction false} ItemKeeps(h: Hash, cfg: Config, d: Disk, pass: Pass, i: Url)
    requires d.files.Valid()
    ensures AllKept(cfg, d, End(d, ItemDisks(h, cfg, d, pass, i)))
  {
    hide ReconcileItem, CleanItem, RemediateItem;
    if i in d.rows && Wanted(cfg, d, pass, i, d.rows[i]) {
      match pass
      case Reconciling => ReconcileKeeps(h, cfg, d, i);
      case Cleaning => CleanKeeps(cfg, d, i);
      case Remediating => RemediateKeeps(h, cfg, d, i);
    }
  }

  lemma {:induction false} SweepKeeps(h: Hash, cfg: Config, d: Disk, pass: Pass, items: seq<Url>)
    requires d.files.Valid()
    ensures AllKept(cfg, d, End(d, Sweep(h, cfg, d, pass, items)))
  {
    hide ItemDisks, Sweep, AllKept;
    if items == [] {
      EmptySweep(h, cfg, d, pass);
      KeptItself(cfg, d);
    } else {
      var front, last := items[..|items| - 1], items[|items| - 1];
      assert items == front + [last];
      SweepKeeps(h, cfg, d, pass, front);
      var a, e, b := SweepGrows(h, cfg, d, pass, items);
      ItemKeeps(h, cfg, e, pass, last);
      KeptChains(cfg, d, e, End(e, b));
    }
  }

  lemma {:induction false} KeptItself(cfg: Config, d: Disk)
    ensures AllKept(cfg, d, d)
  {
  }

  lemma {:induction false} EntryKeeps(h: Hash, cfg: Config, e: Disk, chosen: seq<Url>, i: Url)
    requires e.files.Valid()
    ensures AllKept(cfg, e, End(e, NewDisks(h, cfg, e, chosen, i)))
  {
  }

  lemma {:induction false} ChoiceKeeps(h: Hash, cfg: Config, d: Disk, n: nat)
    requires d.files.Valid() && n <= |cfg.queue|
    ensures AllKept(cfg, d, End(d, ChooseItems(h, cfg, d, n).disks))
  {
    hide NewDisks, NewItems, AllKept;
    if n == 0 {
      KeptItself(cfg, d);
    } else {
      ChoiceKeeps(h, cfg, d, n - 1);
      var before := ChooseItems(h, cfg, d, n - 1);
      var e, i := End(d, before.disks), cfg.queue[n - 1];
      ChooseUnfolds(h, cfg, d, n, before, e, NewDisks(h, cfg, e, before.chosen, i), NewItems(cfg, e, before.chosen, i));
      EntryKeeps(h, cfg, e, before.chosen, i);
      KeptChains(cfg, d, e, End(e, NewDisks(h, cfg, e, before.chosen, i)));
    }
  }

  lemma {:induction false} ScopeKeeps(h: Hash, cfg: Config, d: Disk)
    requires d.files.Valid()
    ensures AllKept(cfg, d, End(d, ScopeDisks(h, cfg, d)))
  {
    hide ChooseItems;
    ChoiceKeeps(h, cfg, d, |cfg.queue|);
  }

  // A whole start keeps the checksum and the generation of every row, and its storage path unless it
  // maps the path.
  lemma {:induction false} StartKeeps(h: Hash, cfg: Config, d: Disk)
    requires d.files.Valid()
    ensures AllKept(cfg, d, AfterStart(h, cfg, d))
  {
    hide Sweep, ScopeDisks, AllKept;
    var e := AfterReconcile(h, cfg, d);
    var f := AfterScope(h, cfg, d);
    SweepKeeps(h, cfg, d, Reconciling, cfg.order);
    ScopeKeeps(h, cfg, e);
    KeptChains(cfg, d, e, f);
    var a := Sweep(h, cfg, f, Cleaning, cfg.order);
    var g := End(f, a);
    SweepKeeps(h, cfg, f, Cleaning, cfg.order);
    SweepKeeps(h, cfg, g, Remediating, cfg.order);
    RepairIs(h, cfg, f, a, g, Sweep(h, cfg, g, Remediating, cfg.order));
    var r := End(f, RepairDisks(h, cfg, f));
    KeptChains(cfg, f, g, r);
    KeptChains(cfg, d, f, r);
    RequeueKeeps(cfg, r);
    AfterStartIs(h, cfg, d);
    KeptChains(cfg, d, r, Requeued(cfg, r));
  }

  lemma {:induction false} RequeueKeeps(cfg: Config, d: Disk)
    ensures AllKept(cfg, d, Requeued(cfg, d))
  {
  }

  // ------------------------------------------------------------ the same queue again

  // The disk after an import and a whole start.
  function AfterRestart(h: Hash, cfg: Config, d: Disk, entries: seq<Entry>, now: Url -> real): Disk
    requires d.files.Valid()
  {
    AfterStart(h, cfg, Imported(d, entries, now))
  }

  lemma {:induction false} QueueColumnsStay(h: Hash, cfg: Config, d: Disk, entries: seq<Entry>, now: Url -> real, k: nat)
    requires d.files.Valid() && OnePerUrl(entries) && k < |entries|
    ensures var e, d' := entries[k], AfterRestart(h, cfg, d, entries, now);
            && e.url in d'.rows && d'.rows[e.url].expected == e.expected && d'.rows[e.url].sourceGeneration == e.generation
            && Kept(cfg, ImportedRow(d, e, now(e.url)), d'.rows[e.url])
  {
    hide AfterStart, Imported, ImportedRow;
    var e := entries[k];
    ImportedAt(d, entries, now, k);
    StartKeeps(h, cfg, Imported(d, entries, now));
    if e.url in d.rows {
      RowStaysIff(d, e, now(e.url));
    } else {
      NewRowAgrees(d, e, now(e.url));
    }
  }

  // Importing the same queue after a whole start changes nothing if and only if every storage path
  // still resolves to itself.
  lemma {:induction false} ReimportKeepsIff(h: Hash, cfg: Config, d: Disk, entries: seq<Entry>, now: Url -> real, later: Url -> real)
    requires d.files.Valid() && OnePerUrl(entries)
    ensures var d' := AfterRestart(h, cfg, d, entries, now);
            Imported(d', entries, later) == d'
            <==> forall k | 0 <= k < |entries| ::
                   entries[k].url in d'.rows && d'.rows[entries[k].url].stored == StoredPath(d'.files, entries[k])
  {
    hide AfterRestart, Imported, ImportedRow, StoredPath, OnePerUrl;
    var d' := AfterRestart(h, cfg, d, entries, now);
    forall k | 0 <= k < |entries|
      ensures var e := entries[k];
              e.url in d'.rows && d'.rows[e.url].expected == e.expected && d'.rows[e.url].sourceGeneration == e.generation
    {
      QueueColumnsStay(h, cfg, d, entries, now, k);
    }
    ImportKeepsIff(d', entries, later);
  }

  // Then the second start, with its import, changes nothing.
  lemma {:induction false} RepeatedStartChangesNothing(h: Hash, cfg: Config, again: Config, d: Disk, entries: seq<Entry>,
                                                       now: Url -> real, later: Url -> real)
    requires d.files.Valid() && OnePerUrl(entries) && cfg.faults.stuck == {}
    requires Members(cfg.order) == Imported(d, entries, now).rows.Keys && again.run == cfg.run && again.queue == cfg.queue
    requires var d' := AfterRestart(h, cfg, d, entries, now);
             forall k | 0 <= k < |entries| ::
               entries[k].url in d'.rows && d'.rows[entries[k].url].stored == StoredPath(d'.files, entries[k])
    ensures var d' := AfterRestart(h, cfg, d, entries, now);
            && d'.files.Valid() && Imported(d', entries, later) == d'
            && forall e | e in StartDisks(h, again, Imported(d', entries, later)) :: e == d'
  {
    hide StartDisks, Imported, AfterStart, StoredPath;
    ReimportKeepsIff(h, cfg, d, entries, now, later);
    SecondStartChangesNothing(h, cfg, again, Imported(d, entries, now));
  }

  // No older path, and a remediation that maps to the path that the import resolves.
  ghost predicate PlainPaths(cfg: Config, d: Disk, entries: seq<Entry>) {
    forall k | 0 <= k < |entries| ::
      && (entries[k].legacy.None? || entries[k].legacy.value == entries[k].decoded)
      && (cfg.mapping(entries[k].logical).None? || cfg.mapping(entries[k].logical).value == entries[k].decoded)
      && (entries[k].url in d.rows ==> d.rows[entries[k].url].logical == entries[k].logical)
  }

  // A queue without older paths can be imported and started again and again.
  lemma {:induction false} PlainQueueSettles(h: Hash, cfg: Config, d: Disk, entries: seq<Entry>, now: Url -> real, later: Url -> real)
    requires d.files.Valid() && OnePerUrl(entries) && PlainPaths(cfg, d, entries)
    ensures var d' := AfterRestart(h, cfg, d, entries, now); Imported(d', entries, later) == d'
  {
    hide AfterRestart, Imported, OnePerUrl;
    var d' := AfterRestart(h, cfg, d, entries, now);
    forall k | 0 <= k < |entries|
      ensures entries[k].url in d'.rows && d'.rows[entries[k].url].stored == StoredPath(d'.files, entries[k])
    {
      QueueColumnsStay(h, cfg, d, entries, now, k);
    }
    ReimportKeepsIff(h, cfg, d, entries, now, later);
  }

  // ------------------------------------------------------------ a path that moves twice

  const Again: seq<Entry> := [Entry("u", "a b", "a b", Some("a%20b"), None, None)]

  const Plain := Config("run", 2, ["u"], 0, ["u"], _ => None, Faults(map[], map[], {}, map[]))

  // The interrupted promotion of MovedStorage: the first import takes the older path, the start links
  // the decoded path, and the next import takes that one.
  lemma {:induction false} MovedReimportExample(h: Hash, now: Url -> real, later: Url -> real)
    ensures var d := MovedStorage.Restarting(h).disk;
            && d.files.Valid()
            && var d' := AfterRestart(h, Plain, d, Again, now);
            && "u" in d'.rows && d'.rows["u"].stored == "a%20b" && StoredPath(d'.files, Again[0]) == "a b"
            && Imported(d', Again, later) != d'
  {
    hide AfterStart, ImportedRow;
    var d := MovedStorage.Restarting(h).disk;
    var d1 := MovedImport(h, now);
    StartKeepsPromotable(h, Plain, d1, "u", "a b", h([1]));
    QueueColumnsStay(h, Plain, d, Again, now, 0);
    ReimportKeepsIff(h, Plain, d, Again, now, later);
  }

  lemma {:induction false} MovedImport(h: Hash, now: Url -> real) returns (d1: Disk)
    ensures d1 == Imported(MovedStorage.Restarting(h).disk, Again, now)
    ensures Good(h, Plain, d1, "u", "a b", h([1])) && d1.rows["u"].stored == "a%20b"
    ensures Members(Plain.order) == d1.rows.Keys && "u" in Scoped(Plain, d1) && Spares(Plain, "u")
  {
    var d := MovedStorage.Restarting(h).disk;
    d1 := d.(rows := map["u" := MovedStorage.Intent(h).(stored := "a%20b")]);
    assert Again[..0] == [];
    assert Imported(d, [], now) == d;
    assert Imported(d, Again, now) == d.(rows := d.rows["u" := ImportedRow(d, Again[0], now("u"))]);
  }
}
