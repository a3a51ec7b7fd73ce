/** What a difference of two snapshots says of a path, in terms of the two listings. */
module DiffMeaning {
  import opened Prelude
  import opened Listing
  import opened ManifestMeaning
  import opened Diff
  import ManifestWriter
  import UrlRoundTrip

  // ------------------------------------------------------------ one listing

  // The first file with the path.
  function FirstOf(entries: seq<Entry>, path: string): Option<Entry> {
    if entries == [] then None
    else
      var before, last := FirstOf(entries[..|entries| - 1], path), entries[|entries| - 1];
      if before.Some? then before else if Path(last) == path then Some(last) else None
  }

  ghost predicate Repeats(entries: seq<Entry>, path: string) {
    exists j, k :: 0 <= j < k < |entries| && Path(entries[j]) == path && Path(entries[k]) == path
  }

  // A path that a listing has twice, or first with an unsafe name.
  ghost predicate Questionable(entries: seq<Entry>, path: string) {
    Repeats(entries, path) || (FirstOf(entries, path).Some? && Unsafe(FirstOf(entries, path).value))
  }

  lemma {:induction false} FirstOfIs(entries: seq<Entry>, path: string)
    ensures var first := FirstOf(entries, path);
            && (first.None? <==> forall k | 0 <= k < |entries| :: Path(entries[k]) != path)
            && (first.Some? ==> exists k :: 0 <= k < |entries| && entries[k] == first.value && Path(entries[k]) == path
                                            && forall j | 0 <= j < k :: Path(entries[j]) != path)
  {
    if entries != [] {
      var front, n := entries[..|entries| - 1], |entries| - 1;
      FirstOfIs(front, path);
      assert forall k | 0 <= k < n :: front[k] == entries[k];
      if FirstOf(front, path).Some? {
        var k :| 0 <= k < |front| && front[k] == FirstOf(front, path).value && Path(front[k]) == path
                 && forall j | 0 <= j < k :: Path(front[j]) != path;
        assert entries[k] == front[k] && forall j | 0 <= j < k :: Path(entries[j]) != path;
      }
    }
  }

  // The loaded side: every path with the size of its first line, the repeated and the unsafe ones.
  lemma {:induction false} LoadedMeans(entries: seq<Entry>, path: string)
    requires path != "ALL_FILES"
    ensures var side, first := Loaded(entries), FirstOf(entries, path);
            && (path in side.sizes <==> first.Some?) && (first.Some? ==> side.sizes[path] == first.value.sizeToken)
            && (path in side.dups <==> Repeats(entries, path))
            && (path in side.unsafe <==> first.Some? && Unsafe(first.value))
  {
    hide Added, Unsafe, Repeats;
    if entries == [] {
      NothingRepeats(path);
    } else {
      var front, last := entries[..|entries| - 1], entries[|entries| - 1];
      LoadedMeans(front, path);
      AddedAt(Loaded(front), last, path);
      assert entries == front + [last];
      RepeatsGrows(front, last, path);
    }
  }

  // What one line does to a path.
  lemma {:induction false} AddedAt(side: Side, e: Entry, path: string)
    requires path != "ALL_FILES"
    ensures var side', here, known := Added(side, e), Path(e) == path, path in side.sizes;
            && (path in side'.sizes <==> known || here)
            && (path in side'.sizes ==> side'.sizes[path] == if known then side.sizes[path] else e.sizeToken)
            && (path in side'.dups <==> path in side.dups || (known && here))
            && (path in side'.unsafe <==> path in side.unsafe || (!known && here && Unsafe(e)))
  {
    hide UrlRoundTrip.SafePath, Unsafe;
    UnsafeIs(e);
  }

  lemma {:induction false} NothingRepeats(path: string)
    ensures !Repeats([], path)
  {
  }

  lemma {:induction false} RepeatsGrows(front: seq<Entry>, last: Entry, path: string)
    ensures Repeats(front + [last], path) <==> Repeats(front, path) || (FirstOf(front, path).Some? && Path(last) == path)
  {
    hide FirstOf;
    var entries := front + [last];
    assert forall k | 0 <= k < |front| :: entries[k] == front[k];
    assert entries[|front|] == last;
    FirstOfIs(front, path);
  }

  // The lines of the listing itself.
  function ListingLines(entries: seq<Entry>): set<int> {
    set k | 0 <= k < |entries| && Path(entries[k]) == "ALL_FILES"
  }

  lemma {:induction false} ListingLinesGrow(front: seq<Entry>, last: Entry)
    ensures |ListingLines(front + [last])| == |ListingLines(front)| + if Path(last) == "ALL_FILES" then 1 else 0
  {
    hide Path;
    var few, all := ListingLines(front), ListingLines(front + [last]);
    assert forall k | 0 <= k < |front| :: (front + [last])[k] == front[k];
    assert all == if Path(last) == "ALL_FILES" then few + {|front|} else few;
  }

  // The totals of a side: all files, and the lines of the listing itself.
  lemma {:induction false} TotalsMean(entries: seq<Entry>)
    ensures Loaded(entries).files == |entries| && Loaded(entries).listing == |ListingLines(entries)|
  {
    hide UrlRoundTrip.SafePath, ListingLines;
    if entries == [] {
      NoListingLines();
    } else {
      var front, last := entries[..|entries| - 1], entries[|entries| - 1];
      TotalsMean(front);
      ListingLinesGrow(front, last);
      assert entries == front + [last];
    }
  }

  lemma {:induction false} NoListingLines()
    ensures ListingLines([]) == {}
  {
  }

  // ------------------------------------------------------------ the category of a path

  ghost predicate Sure(olds: seq<Entry>, news: seq<Entry>, path: string) {
    !Questionable(olds, path) && !Questionable(news, path)
  }

  ghost predicate Came(olds: seq<Entry>, news: seq<Entry>, path: string) {
    Sure(olds, news, path) && FirstOf(olds, path).None? && FirstOf(news, path).Some?
  }

  ghost predicate Went(olds: seq<Entry>, news: seq<Entry>, path: string) {
    Sure(olds, news, path) && FirstOf(olds, path).Some? && FirstOf(news, path).None?
  }

  ghost predicate Stayed(olds: seq<Entry>, news: seq<Entry>, path: string) {
    Sure(olds, news, path) && FirstOf(olds, path).Some? && FirstOf(news, path).Some?
  }

  ghost predicate SameSize(olds: seq<Entry>, news: seq<Entry>, path: string) {
    var a, b := FirstOf(olds, path), FirstOf(news, path);
    a.Some? && b.Some? && a.value.sizeToken == b.value.sizeToken
  }

  lemma {:induction false} BaseIs(olds: seq<Entry>, news: seq<Entry>, path: string)
    requires path != "ALL_FILES" && (FirstOf(olds, path).Some? || FirstOf(news, path).Some?)
    ensures var c := BaseCategory(Loaded(olds), Loaded(news), path);
            && (c.Ambiguous? <==> !Sure(olds, news, path)) && (c.AddedPath? <==> Came(olds, news, path))
            && (c.RemovedPath? <==> Went(olds, news, path))
            && (c.Unchanged? <==> Stayed(olds, news, path) && SameSize(olds, news, path))
            && (c.MetadataChanged? <==> Stayed(olds, news, path) && !SameSize(olds, news, path))
  {
    hide Loaded, FirstOf, Repeats, Unsafe;
    LoadedMeans(olds, path);
    LoadedMeans(news, path);
  }

  // Another path with the same normal form that went when this one came, or came when it went.
  ghost predicate Twin(olds: seq<Entry>, news: seq<Entry>, nfc: string -> string, path: string, q: string) {
    && q != "ALL_FILES" && nfc(q) == nfc(path)
    && ((Came(olds, news, path) && Went(olds, news, q)) || (Went(olds, news, path) && Came(olds, news, q)))
  }

  ghost predicate Twinned(olds: seq<Entry>, news: seq<Entry>, nfc: string -> string, path: string) {
    exists q :: Twin(olds, news, nfc, path, q)
  }

  // All paths of both listings, but not the listing itself.
  ghost predicate Covers(olds: seq<Entry>, news: seq<Entry>, paths: seq<string>) {
    Distinct(paths)
    && forall p :: p in paths <==> p != "ALL_FILES" && (FirstOf(olds, p).Some? || FirstOf(news, p).Some?)
  }

  lemma {:induction false} TwinIs(olds: seq<Entry>, news: seq<Entry>, nfc: string -> string, paths: seq<string>, path: string)
    requires Covers(olds, news, paths) && path in paths
    ensures HasTwin(Loaded(olds), Loaded(news), nfc, Changed(Loaded(olds), Loaded(news), paths), path) <==> Twinned(olds, news, nfc, path)
  {
    hide Loaded, FirstOf, Sure, BaseCategory, Changed, SameSize;
    var o, n := Loaded(olds), Loaded(news);
    BaseIs(olds, news, path);
    forall q | q in paths ensures q in Changed(o, n, paths) <==> !BaseCategory(o, n, q).Unchanged? {
      ChangedAre(o, n, paths, q);
    }
    forall q | q in Changed(o, n, paths) ensures q in paths {
      ChangedAre(o, n, paths, q);
    }
    forall q | q in paths
      ensures BaseCategory(o, n, q).AddedPath? <==> Came(olds, news, q)
      ensures BaseCategory(o, n, q).RemovedPath? <==> Went(olds, news, q)
    {
      BaseIs(olds, news, q);
    }
    if Twinned(olds, news, nfc, path) {
      var q :| Twin(olds, news, nfc, path, q);
      assert q in paths && q in Changed(o, n, paths);
    }
    if HasTwin(o, n, nfc, Changed(o, n, paths), path) {
      var q :| q in Changed(o, n, paths) && nfc(q) == nfc(path) && BaseCategory(o, n, q) == Opposite(BaseCategory(o, n, path));
      assert q in paths && Twin(olds, news, nfc, path, q);
    }
  }

  function SizeOf(entries: seq<Entry>, path: string): Option<string> {
    var first := FirstOf(entries, path);
    if first.Some? then Some(first.value.sizeToken) else None
  }

  // One record says which way the path went, and both sizes.
  ghost predicate Tells(olds: seq<Entry>, news: seq<Entry>, nfc: string -> string, r: Record) {
    && r.before == SizeOf(olds, r.path) && r.after == SizeOf(news, r.path)
    && (r.category.Ambiguous? <==> !Sure(olds, news, r.path) || Twinned(olds, news, nfc, r.path))
    && (r.category.AddedPath? <==> Came(olds, news, r.path) && !Twinned(olds, news, nfc, r.path))
    && (r.category.RemovedPath? <==> Went(olds, news, r.path) && !Twinned(olds, news, nfc, r.path))
    && (r.category.MetadataChanged? <==> Stayed(olds, news, r.path) && !SameSize(olds, news, r.path))
  }

  lemma {:induction false} RecordTells(olds: seq<Entry>, news: seq<Entry>, nfc: string -> string, paths: seq<string>, path: string)
    requires Covers(olds, news, paths) && path in paths
    ensures var o, n := Loaded(olds), Loaded(news);
            !BaseCategory(o, n, path).Unchanged?
            ==> Tells(olds, news, nfc, RecordOf(o, n, path).(category := FinalCategory(o, n, nfc, Changed(o, n, paths), path)))
  {
    hide Loaded, FirstOf, Sure, BaseCategory, Changed, HasTwin;
    BaseIs(olds, news, path);
    TwinIs(olds, news, nfc, paths, path);
    LoadedMeans(olds, path);
    LoadedMeans(news, path);
    CategoriesExclude(olds, news, nfc, path);
  }

  lemma {:induction false} CategoriesExclude(olds: seq<Entry>, news: seq<Entry>, nfc: string -> string, path: string)
    ensures Twinned(olds, news, nfc, path) ==> Came(olds, news, path) || Went(olds, news, path)
    ensures !(Came(olds, news, path) && Went(olds, news, path))
  {
    hide FirstOf, Sure;
  }

  // The difference of two listings: one record for every path that is not the same on both sides.
  lemma {:induction false} RecordsMean(olds: seq<Entry>, news: seq<Entry>, nfc: string -> string, paths: seq<string>)
    requires Covers(olds, news, paths)
    ensures var records := Finals(Loaded(olds), Loaded(news), nfc, Changed(Loaded(olds), Loaded(news), paths));
            && (forall k | 0 <= k < |records| :: records[k].path in paths && Tells(olds, news, nfc, records[k]))
            && (forall k, n | 0 <= k < n < |records| :: records[k].path != records[n].path)
            && forall p | p in paths ::
                 (exists k :: 0 <= k < |records| && records[k].path == p) <==> !(Stayed(olds, news, p) && SameSize(olds, news, p))
  {
    hide Loaded, FirstOf, Sure, BaseCategory, FinalCategory, Tells, SameSize;
    var o, n := Loaded(olds), Loaded(news);
    var changed := Changed(o, n, paths);
    var records := Finals(o, n, nfc, changed);
    ChangedDistinct(o, n, paths);
    forall k | 0 <= k < |records| ensures records[k].path in paths && Tells(olds, news, nfc, records[k]) {
      ChangedAre(o, n, paths, changed[k]);
      RecordTells(olds, news, nfc, paths, changed[k]);
    }
    forall p | p in paths
      ensures (exists k :: 0 <= k < |records| && records[k].path == p) <==> !(Stayed(olds, news, p) && SameSize(olds, news, p))
    {
      BaseIs(olds, news, p);
      ChangedAre(o, n, paths, p);
      if p in changed {
        var k :| 0 <= k < |changed| && changed[k] == p;
        assert records[k].path == p;
      }
    }
  }
}
