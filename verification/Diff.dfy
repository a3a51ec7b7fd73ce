/** The difference of two inventory snapshots. */
module Diff {
  import opened Prelude
  import opened Listing
  import opened ManifestWriter
  import UrlRoundTrip

  // ------------------------------------------------------------ one snapshot

  datatype Side = Side(sizes: map<string, string>, dups: set<string>, unsafe: set<string>, files: nat, listing: nat, dupLines: nat)

  function Added(side: Side, e: Entry): Side {
    var path := PathOf(e);
    var s := side.(files := side.files + 1);
    if path == "ALL_FILES" then s.(listing := s.listing + 1)
    else if path in s.sizes then s.(dups := s.dups + {path}, dupLines := s.dupLines + 1)
    else
      s.(sizes := s.sizes[path := e.sizeToken],
         unsafe := if UrlRoundTrip.SafePath(path, e.name) then s.unsafe else s.unsafe + {path})
  }

  function Loaded(entries: seq<Entry>): Side {
    if entries == [] then Side(map[], {}, {}, 0, 0, 0)
    else Added(Loaded(entries[..|entries| - 1]), entries[|entries| - 1])
  }

  // The listing, the first entry of every other path, and the repetitions.
  predicate Reconciles(side: Side) {
    side.files == |side.sizes| + side.dupLines + side.listing && side.dups <= side.sizes.Keys && side.unsafe <= side.sizes.Keys
  }

  lemma {:induction false} AddedReconciles(side: Side, e: Entry)
    requires Reconciles(side)
    ensures Reconciles(Added(side, e))
  {
    hide UrlRoundTrip.SafePath, PathOf;
  }

  method LoadSizes(entries: seq<Entry>) returns (side: Side)
    ensures side == Loaded(entries) && Reconciles(side)
  {
    hide UrlRoundTrip.SafePath, PathOf, Reconciles;
    side := Side(map[], {}, {}, 0, 0, 0);
    var k := 0;
    assert entries[..0] == [];
    while k < |entries|
      invariant 0 <= k <= |entries| && side == Loaded(entries[..k])
    {
      assert entries[..k + 1][..k] == entries[..k];
      var e := entries[k];
      var path := PathOf(e);
      side := side.(files := side.files + 1);
      if path == "ALL_FILES" {
        side := side.(listing := side.listing + 1);
      } else if path in side.sizes {
        side := side.(dups := side.dups + {path}, dupLines := side.dupLines + 1);
      } else {
        side := side.(sizes := side.sizes[path := e.sizeToken]);
        if !UrlRoundTrip.SafePath(path, e.name) {
          side := side.(unsafe := side.unsafe + {path});
        }
      }
      k := k + 1;
    }
    assert entries[..k] == entries;
    LoadedReconciles(entries);
  }

  // The totals of a loaded snapshot always add up.
  lemma {:induction false} LoadedReconciles(entries: seq<Entry>)
    ensures Reconciles(Loaded(entries))
  {
    hide Added;
    if entries != [] {
      LoadedReconciles(entries[..|entries| - 1]);
      AddedReconciles(Loaded(entries[..|entries| - 1]), entries[|entries| - 1]);
    }
  }

  function Occurrences(entries: seq<Entry>, path: string): nat {
    if entries == [] then 0
    else Occurrences(entries[..|entries| - 1], path) + if PathOf(entries[|entries| - 1]) == path then 1 else 0
  }

  function FirstSize(entries: seq<Entry>, path: string): Option<string> {
    if entries == [] then None
    else
      var before, last := FirstSize(entries[..|entries| - 1], path), entries[|entries| - 1];
      if before.Some? then before else if PathOf(last) == path then Some(last.sizeToken) else None
  }

  // The recorded size of a path is that of its first line, and a duplicate has a second one.
  lemma {:induction false} LoadedIs(entries: seq<Entry>, path: string)
    requires path != "ALL_FILES"
    ensures Size(Loaded(entries), path) == FirstSize(entries, path)
    ensures FirstSize(entries, path).Some? <==> Occurrences(entries, path) >= 1
    ensures path in Loaded(entries).dups <==> Occurrences(entries, path) >= 2
  {
    hide UrlRoundTrip.SafePath, PathOf;
    if entries != [] {
      LoadedIs(entries[..|entries| - 1], path);
    }
  }

  // ------------------------------------------------------------ the category of a path

  datatype Category = AddedPath | RemovedPath | MetadataChanged | Ambiguous | Unchanged

  function Size(side: Side, path: string): Option<string> {
    if path in side.sizes then Some(side.sizes[path]) else None
  }

  predicate Doubtful(old_: Side, new_: Side, path: string) {
    path in old_.dups || path in new_.dups || path in old_.unsafe || path in new_.unsafe
  }

  function BaseCategory(old_: Side, new_: Side, path: string): Category {
    if Doubtful(old_, new_, path) then Ambiguous
    else if Size(old_, path).None? then AddedPath
    else if Size(new_, path).None? then RemovedPath
    else if Size(old_, path) != Size(new_, path) then MetadataChanged
    else Unchanged
  }

  function Opposite(c: Category): Category {
    match c
    case AddedPath => RemovedPath
    case RemovedPath => AddedPath
    case other => other
  }

  // Another path with the same normal form has gone the other way.
  predicate HasTwin(old_: Side, new_: Side, nfc: string -> string, paths: seq<string>, path: string) {
    var c := BaseCategory(old_, new_, path);
    (c.AddedPath? || c.RemovedPath?)
    && exists q :: q in paths && nfc(q) == nfc(path) && BaseCategory(old_, new_, q) == Opposite(c)
  }

  function FinalCategory(old_: Side, new_: Side, nfc: string -> string, paths: seq<string>, path: string): Category {
    if HasTwin(old_, new_, nfc, paths, path) then Ambiguous else BaseCategory(old_, new_, path)
  }

  // ------------------------------------------------------------ records

  datatype Record = Record(path: string, category: Category, before: Option<string>, after: Option<string>)

  function RecordOf(old_: Side, new_: Side, path: string): Record {
    Record(path, BaseCategory(old_, new_, path), Size(old_, path), Size(new_, path))
  }

  // The paths that differ, in order.
  function Changed(old_: Side, new_: Side, paths: seq<string>): seq<string> {
    if paths == [] then []
    else
      var last := paths[|paths| - 1];
      Changed(old_, new_, paths[..|paths| - 1]) + if BaseCategory(old_, new_, last).Unchanged? then [] else [last]
  }

  function Drafts(old_: Side, new_: Side, changed: seq<string>): (records: seq<Record>)
    ensures |records| == |changed|
  {
    seq(|changed|, k requires 0 <= k < |changed| => RecordOf(old_, new_, changed[k]))
  }

  function Finals(old_: Side, new_: Side, nfc: string -> string, changed: seq<string>): (records: seq<Record>)
    ensures |records| == |changed|
  {
    seq(|changed|, k requires 0 <= k < |changed| =>
      RecordOf(old_, new_, changed[k]).(category := FinalCategory(old_, new_, nfc, changed, changed[k])))
  }

  function CategoryCount(records: seq<Record>, c: Category): nat {
    if records == [] then 0
    else CategoryCount(records[..|records| - 1], c) + if records[|records| - 1].category == c then 1 else 0
  }

  // What is marked once the first `n` records have looked for their twins.
  predicate Marked(drafts: seq<Record>, nfc: string -> string, n: nat, j: nat)
    requires j < |drafts|
  {
    || (drafts[j].category.AddedPath? && j < n
        && exists i :: 0 <= i < |drafts| && drafts[i].category.RemovedPath? && nfc(drafts[i].path) == nfc(drafts[j].path))
    || (drafts[j].category.RemovedPath?
        && exists i :: 0 <= i < n && i < |drafts| && drafts[i].category.AddedPath? && nfc(drafts[i].path) == nfc(drafts[j].path))
  }

  function MarkedRecord(drafts: seq<Record>, nfc: string -> string, n: nat, j: nat): Record
    requires j < |drafts|
  {
    if Marked(drafts, nfc, n, j) then drafts[j].(category := Ambiguous) else drafts[j]
  }

  // Mark one added record and its removed twins.
  method MarkTwins(drafts: seq<Record>, nfc: string -> string, records: seq<Record>, n: nat) returns (records': seq<Record>)
    requires n < |drafts| == |records| && forall j | 0 <= j < |drafts| :: records[j] == MarkedRecord(drafts, nfc, n, j)
    ensures |records'| == |drafts| && forall j | 0 <= j < |drafts| :: records'[j] == MarkedRecord(drafts, nfc, n + 1, j)
  {
    records' := records;
    if !records[n].category.AddedPath? {
      return;
    }
    var found := false;
    var i := 0;
    while i < |drafts|
      invariant 0 <= i <= |drafts| == |records'|
      invariant found <==> exists m :: 0 <= m < i && drafts[m].category.RemovedPath? && nfc(drafts[m].path) == nfc(drafts[n].path)
      invariant forall j | 0 <= j < |drafts| ::
                  records'[j] == if j < i && drafts[j].category.RemovedPath? && nfc(drafts[j].path) == nfc(drafts[n].path)
                                 then drafts[j].(category := Ambiguous) else records[j]
    {
      if drafts[i].category.RemovedPath? && nfc(drafts[i].path) == nfc(drafts[n].path) {
        records' := records'[i := records'[i].(category := Ambiguous)];
        found := true;
      }
      i := i + 1;
    }
    if found {
      records' := records'[n := records'[n].(category := Ambiguous)];
    }
  }

  datatype DiffTotals = DiffTotals(oldFiles: nat, newFiles: nat, counts: map<Category, nat>)

  datatype DiffError = OldFilesDiffer | NewFilesDiffer | PathsNotCovered

  function NoRecords(c: Category): nat {
    0
  }

  method CollectDrafts(old_: Side, new_: Side, paths: seq<string>) returns (drafts: seq<Record>, same: nat)
    ensures drafts == Drafts(old_, new_, Changed(old_, new_, paths)) && same + |drafts| == |paths|
  {
    hide BaseCategory, Drafts;
    drafts, same := [], 0;
    NoDrafts(old_, new_);
    var k := 0;
    assert paths[..0] == [];
    while k < |paths|
      invariant 0 <= k <= |paths| && drafts == Drafts(old_, new_, Changed(old_, new_, paths[..k]))
      invariant same + |drafts| == k
    {
      assert paths[..k + 1][..k] == paths[..k];
      var record := RecordOf(old_, new_, paths[k]);
      DraftsGrow(old_, new_, Changed(old_, new_, paths[..k]), paths[k]);
      if record.category.Unchanged? {
        same := same + 1;
      } else {
        drafts := drafts + [record];
      }
      k := k + 1;
    }
    assert paths[..k] == paths;
  }

  lemma {:induction false} NoDrafts(old_: Side, new_: Side)
    ensures Drafts(old_, new_, []) == []
  {
  }

  method CountCategories(records: seq<Record>, same: nat) returns (counts: map<Category, nat>)
    requires forall k | 0 <= k < |records| :: !records[k].category.Unchanged?
    ensures forall c: Category :: c in counts && counts[c] == if c.Unchanged? then same else CategoryCount(records, c)
  {
    counts := map c: Category | true :: NoRecords(c);
    counts := counts[Unchanged := same];
    var n := 0;
    assert records[..0] == [];
    while n < |records|
      invariant 0 <= n <= |records|
      invariant forall c: Category :: c in counts && counts[c] == if c.Unchanged? then same else CategoryCount(records[..n], c)
    {
      assert records[..n + 1][..n] == records[..n];
      counts := counts[records[n].category := counts[records[n].category] + 1];
      n := n + 1;
    }
    assert records[..n] == records;
  }

  // `paths` is the sorted union of both path sets.
  method DiffSnapshots(old_: Side, new_: Side, nfc: string -> string, paths: seq<string>)
    returns (r: Result<(seq<Record>, DiffTotals), DiffError>)
    requires Distinct(paths) && forall p :: p in paths <==> p in old_.sizes || p in new_.sizes
    ensures Reconciles(old_) && Reconciles(new_) ==> r.Ok?
    ensures r.Ok? ==> r.value.0 == Finals(old_, new_, nfc, Changed(old_, new_, paths)) && |r.value.0| <= |paths|
    ensures r.Ok? ==> forall c: Category :: c in r.value.1.counts
                        && r.value.1.counts[c] == if c.Unchanged? then |paths| - |r.value.0| else CategoryCount(r.value.0, c)
  {
    hide BaseCategory, Changed, Drafts, Finals, MarkedRecord, CategoryCount, Distinct;
    var drafts, same := CollectDrafts(old_, new_, paths);
    var records := drafts;
    var n := 0;
    NothingMarked(drafts, nfc);
    while n < |drafts|
      invariant 0 <= n <= |drafts| == |records|
      invariant forall j | 0 <= j < |drafts| :: records[j] == MarkedRecord(drafts, nfc, n, j)
    {
      records := MarkTwins(drafts, nfc, records, n);
      n := n + 1;
    }
    MarkedIsFinal(old_, new_, nfc, Changed(old_, new_, paths), records);
    NeverUnchanged(old_, new_, nfc, paths);
    var counts := CountCategories(records, same);
    if old_.files != |old_.sizes| + old_.dupLines + old_.listing {
      return Err(OldFilesDiffer);
    }
    if new_.files != |new_.sizes| + new_.dupLines + new_.listing {
      return Err(NewFilesDiffer);
    }
    CountsCover(records);
    UnionSize(old_, new_, paths);
    var total := counts[AddedPath] + counts[RemovedPath] + counts[MetadataChanged] + counts[Ambiguous] + counts[Unchanged];
    if total != |old_.sizes.Keys + new_.sizes.Keys| {
      return Err(PathsNotCovered);
    }
    r := Ok((records, DiffTotals(old_.files, new_.files, counts)));
  }

  lemma {:induction false} NothingMarked(drafts: seq<Record>, nfc: string -> string)
    ensures forall j | 0 <= j < |drafts| :: drafts[j] == MarkedRecord(drafts, nfc, 0, j)
  {
  }

  lemma {:induction false} DraftsGrow(old_: Side, new_: Side, changed: seq<string>, path: string)
    ensures Drafts(old_, new_, changed + [path]) == Drafts(old_, new_, changed) + [RecordOf(old_, new_, path)]
    ensures changed + [] == changed
  {
  }

  lemma {:induction false} ChangedAre(old_: Side, new_: Side, paths: seq<string>, p: string)
    ensures p in Changed(old_, new_, paths) <==> p in paths && !BaseCategory(old_, new_, p).Unchanged?
  {
    hide BaseCategory;
    if paths != [] {
      ChangedAre(old_, new_, paths[..|paths| - 1], p);
      assert paths == paths[..|paths| - 1] + [paths[|paths| - 1]];
    }
  }

  lemma {:induction false} ChangedDistinct(old_: Side, new_: Side, paths: seq<string>)
    requires Distinct(paths)
    ensures Distinct(Changed(old_, new_, paths)) && |Changed(old_, new_, paths)| <= |paths|
  {
    hide BaseCategory;
    if paths != [] {
      var front, last := paths[..|paths| - 1], paths[|paths| - 1];
      ChangedDistinct(old_, new_, front);
      ChangedAre(old_, new_, front, last);
    }
  }

  lemma {:induction false} NeverUnchanged(old_: Side, new_: Side, nfc: string -> string, paths: seq<string>)
    ensures var records := Finals(old_, new_, nfc, Changed(old_, new_, paths));
            forall k | 0 <= k < |records| :: !records[k].category.Unchanged?
  {
    hide BaseCategory, HasTwin;
    var changed := Changed(old_, new_, paths);
    forall k | 0 <= k < |changed| ensures !Finals(old_, new_, nfc, changed)[k].category.Unchanged? {
      ChangedAre(old_, new_, paths, changed[k]);
    }
  }

  lemma {:induction false} MarkedIsFinal(old_: Side, new_: Side, nfc: string -> string, changed: seq<string>, records: seq<Record>)
    requires var drafts := Drafts(old_, new_, changed);
             |records| == |drafts| && forall j | 0 <= j < |drafts| :: records[j] == MarkedRecord(drafts, nfc, |drafts|, j)
    ensures records == Finals(old_, new_, nfc, changed)
  {
    hide BaseCategory;
    var drafts := Drafts(old_, new_, changed);
    forall j | 0 <= j < |changed| ensures Marked(drafts, nfc, |drafts|, j) <==> HasTwin(old_, new_, nfc, changed, changed[j]) {
      if HasTwin(old_, new_, nfc, changed, changed[j]) {
        var q :| q in changed && nfc(q) == nfc(changed[j])
                 && BaseCategory(old_, new_, q) == Opposite(BaseCategory(old_, new_, changed[j]));
        var i :| 0 <= i < |changed| && changed[i] == q;
        assert drafts[i].path == q && drafts[i].category == BaseCategory(old_, new_, q);
      }
      if Marked(drafts, nfc, |drafts|, j) {
        var i :| 0 <= i < |drafts| && nfc(drafts[i].path) == nfc(drafts[j].path)
                 && drafts[i].category == Opposite(drafts[j].category);
        assert changed[i] in changed && drafts[i].path == changed[i];
      }
    }
  }

  lemma {:induction false} CountsCover(records: seq<Record>)
    ensures CategoryCount(records, AddedPath) + CategoryCount(records, RemovedPath) + CategoryCount(records, MetadataChanged)
            + CategoryCount(records, Ambiguous) + CategoryCount(records, Unchanged) == |records|
    ensures (forall k | 0 <= k < |records| :: !records[k].category.Unchanged?) ==> CategoryCount(records, Unchanged) == 0
  {
    if records != [] {
      CountsCover(records[..|records| - 1]);
    }
  }

  lemma {:induction false} UnionSize(old_: Side, new_: Side, paths: seq<string>)
    requires Distinct(paths) && forall p :: p in paths <==> p in old_.sizes || p in new_.sizes
    ensures |old_.sizes.Keys + new_.sizes.Keys| == |paths|
  {
    DistinctSize(paths);
    assert (set p | p in paths) == old_.sizes.Keys + new_.sizes.Keys;
  }

  lemma {:induction false} DistinctSize(paths: seq<string>)
    requires Distinct(paths)
    ensures |set p | p in paths| == |paths|
  {
    if paths != [] {
      var front, last := paths[..|paths| - 1], paths[|paths| - 1];
      DistinctSize(front);
      assert paths == front + [last];
      assert (set p | p in paths) == (set p | p in front) + {last};
    }
  }

  // ------------------------------------------------------------ the diff is a patch

  function Patched(sizes: map<string, string>, records: seq<Record>): map<string, string> {
    if records == [] then sizes
    else
      var before, last := Patched(sizes, records[..|records| - 1]), records[|records| - 1];
      if last.after.Some? then before[last.path := last.after.value] else before - {last.path}
  }

  function SizeIn(sizes: map<string, string>, p: string): Option<string> {
    if p in sizes then Some(sizes[p]) else None
  }

  lemma {:induction false} PatchedAt(old_: Side, new_: Side, nfc: string -> string, all: seq<string>, n: nat, p: string)
    requires n <= |all|
    ensures SizeIn(Patched(old_.sizes, Finals(old_, new_, nfc, all)[..n]), p)
            == if p in all[..n] then Size(new_, p) else Size(old_, p)
  {
    hide FinalCategory, BaseCategory;
    if n > 0 {
      PatchedAt(old_, new_, nfc, all, n - 1, p);
      var records := Finals(old_, new_, nfc, all);
      assert records[..n][..n - 1] == records[..n - 1];
      assert all[..n] == all[..n - 1] + [all[n - 1]];
    }
  }

  // Applying the records to the old sizes rebuilds the new ones.
  lemma {:induction false} DiffIsPatch(old_: Side, new_: Side, nfc: string -> string, paths: seq<string>)
    requires forall p :: p in paths <==> p in old_.sizes || p in new_.sizes
    ensures Patched(old_.sizes, Finals(old_, new_, nfc, Changed(old_, new_, paths))) == new_.sizes
  {
    hide Patched, Finals, Changed;
    var all := Changed(old_, new_, paths);
    var records := Finals(old_, new_, nfc, all);
    assert records[..|all|] == records && all[..|all|] == all;
    forall p ensures SizeIn(Patched(old_.sizes, records), p) == SizeIn(new_.sizes, p) {
      PatchedAt(old_, new_, nfc, all, |all|, p);
      ChangedAre(old_, new_, paths, p);
    }
    SameSizes(Patched(old_.sizes, records), new_.sizes);
  }

  lemma {:induction false} SameSizes(a: map<string, string>, b: map<string, string>)
    requires forall p :: SizeIn(a, p) == SizeIn(b, p)
    ensures a == b
  {
    forall p ensures p in a <==> p in b {
      assert SizeIn(a, p) == SizeIn(b, p);
    }
    forall p | p in a ensures a[p] == b[p] {
      assert SizeIn(a, p) == SizeIn(b, p);
    }
  }

  // ------------------------------------------------------------ the diff is symmetric

  lemma {:induction false} BaseIsSymmetric(old_: Side, new_: Side, p: string)
    requires p in old_.sizes || p in new_.sizes
    ensures BaseCategory(new_, old_, p) == Opposite(BaseCategory(old_, new_, p))
  {
  }

  lemma {:induction false} ChangedIsSymmetric(old_: Side, new_: Side, paths: seq<string>)
    requires forall p | p in paths :: p in old_.sizes || p in new_.sizes
    ensures Changed(new_, old_, paths) == Changed(old_, new_, paths)
  {
    hide BaseCategory;
    if paths != [] {
      ChangedIsSymmetric(old_, new_, paths[..|paths| - 1]);
      BaseIsSymmetric(old_, new_, paths[|paths| - 1]);
    }
  }

  // Swapping the snapshots swaps added and removed paths and leaves every other category alone.
  lemma {:induction false} DiffIsSymmetric(old_: Side, new_: Side, nfc: string -> string, paths: seq<string>)
    requires forall p | p in paths :: p in old_.sizes || p in new_.sizes
    ensures var there := Finals(old_, new_, nfc, Changed(old_, new_, paths));
            var back := Finals(new_, old_, nfc, Changed(new_, old_, paths));
            && |there| == |back|
            && forall k | 0 <= k < |there| ::
                 back[k] == Record(there[k].path, Opposite(there[k].category), there[k].after, there[k].before)
  {
    hide BaseCategory, Changed;
    ChangedIsSymmetric(old_, new_, paths);
    var all := Changed(old_, new_, paths);
    forall p | p in all ensures p in old_.sizes || p in new_.sizes {
      ChangedAre(old_, new_, paths, p);
    }
    forall k | 0 <= k < |all| ensures FinalCategory(new_, old_, nfc, all, all[k]) == Opposite(FinalCategory(old_, new_, nfc, all, all[k])) {
      TwinsAreSymmetric(old_, new_, nfc, all, all[k]);
      BaseIsSymmetric(old_, new_, all[k]);
    }
  }

  lemma {:induction false} TwinsAreSymmetric(old_: Side, new_: Side, nfc: string -> string, all: seq<string>, p: string)
    requires (forall q | q in all :: q in old_.sizes || q in new_.sizes) && p in all
    ensures HasTwin(new_, old_, nfc, all, p) <==> HasTwin(old_, new_, nfc, all, p)
  {
    hide BaseCategory;
    forall q | q in all ensures BaseCategory(new_, old_, q) == Opposite(BaseCategory(old_, new_, q)) {
      BaseIsSymmetric(old_, new_, q);
    }
    assert BaseCategory(new_, old_, p) == Opposite(BaseCategory(old_, new_, p));
    var c, c' := BaseCategory(old_, new_, p), BaseCategory(new_, old_, p);
    if q :| q in all && nfc(q) == nfc(p) && BaseCategory(old_, new_, q) == Opposite(c) {
      assert BaseCategory(new_, old_, q) == Opposite(c');
    }
    if q :| q in all && nfc(q) == nfc(p) && BaseCategory(new_, old_, q) == Opposite(c') {
      assert BaseCategory(old_, new_, q) == Opposite(c);
    }
  }

  // No pair of an added and a removed path that survives has one normal form.
  lemma {:induction false} NoSurvivingTwins(old_: Side, new_: Side, nfc: string -> string, paths: seq<string>, k: nat, n: nat)
    requires var records := Finals(old_, new_, nfc, Changed(old_, new_, paths));
             k < |records| && n < |records| && records[k].category.AddedPath? && records[n].category.RemovedPath?
    ensures var records := Finals(old_, new_, nfc, Changed(old_, new_, paths));
            nfc(records[k].path) != nfc(records[n].path)
  {
    hide BaseCategory, Changed;
    var all := Changed(old_, new_, paths);
    assert all[n] in all && all[k] in all;
    assert !HasTwin(old_, new_, nfc, all, all[k]);
  }
}
