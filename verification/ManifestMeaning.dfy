/** What the manifest says of one listed file: why it is rejected, which rule decides, and where its
    line stands. */
module ManifestMeaning {
  import opened Prelude
  import opened Strings
  import opened UrlRoundTrip
  import opened Listing
  import opened ManifestWriter
  import opened ManifestTheorems

  // ------------------------------------------------------------ one file

  function Path(e: Entry): string {
    if e.directory == "" then e.name else e.directory + "/" + e.name
  }

  // A slash in the name, an empty or dotted segment, or a control character.
  ghost predicate Unsafe(e: Entry) {
    '/' in e.name || exists s :: s in Split(Path(e), '/') && Bad(s)
  }

  predicate Bad(segment: string) {
    segment == "" || segment == "." || segment == ".." || exists c :: c in segment && (c as int < 0x20 || c as int == 0x7F)
  }

  // The first file of its path that may be downloaded.
  ghost predicate Downloadable(entries: seq<Entry>, k: nat)
    requires k < |entries|
  {
    !Unsafe(entries[k]) && Path(entries[k]) != "ALL_FILES" && forall j | 0 <= j < k :: Path(entries[j]) != Path(entries[k])
  }

  // A rule asks for a path prefix, an extension and a name; what it does not name, it does not ask for.
  ghost predicate Fits(policy: Policy, rule: Rule, e: Entry) {
    var segments, lowered := Split(Path(e), '/'), policy.lower(e.name);
    && |rule.prefix| <= |segments| && (forall n | 0 <= n < |rule.prefix| :: segments[n] == rule.prefix[n])
    && (|rule.extensions| > 0 ==> exists x, stem :: x in rule.extensions && lowered == stem + x)
    && (|rule.names| > 0 ==> lowered in rule.names)
  }

  lemma {:induction false} SplitHasParts(s: string)
    ensures |Split(s, '/')| > 0
  {
  }

  lemma {:induction false} UnsafeIs(e: Entry)
    ensures SafePath(PathOf(e), e.name) <==> !Unsafe(e)
  {
    hide Split, SafeSegment, Bad;
    var segments := Split(PathOf(e), '/');
    forall k | 0 <= k < |segments| ensures SafeSegment(segments[k]) <==> !Bad(segments[k]) {
      SegmentIs(segments[k]);
    }
  }

  lemma {:induction false} SegmentIs(s: string)
    ensures SafeSegment(s) <==> !Bad(s)
  {
    if SafeSegment(s) {
      forall c | c in s ensures !(c as int < 0x20 || c as int == 0x7F) {
        var n :| 0 <= n < |s| && s[n] == c;
        assert !Control(s[n]);
      }
    }
    if !Bad(s) {
      forall k | 0 <= k < |s| ensures !Control(s[k]) {
        assert s[k] in s;
      }
    }
  }

  lemma {:induction false} FitsIs(policy: Policy, rule: Rule, e: Entry)
    ensures RuleMatches(policy, rule, PathOf(e), e.name) <==> Fits(policy, rule, e)
  {
    hide Split;
    SplitHasParts(PathOf(e));
    var lowered := policy.lower(e.name);
    forall x ensures EndsWith(lowered, x) <==> exists stem: string :: lowered == stem + x {
      if EndsWith(lowered, x) {
        assert lowered == lowered[..|lowered| - |x|] + x;
      }
    }
    assert rule.names == {} <==> |rule.names| == 0;
  }

  // The rank is the number of the first rule that fits.
  ghost predicate Decides(policy: Policy, e: Entry, rank: nat) {
    && rank <= |policy.rules| && (rank < |policy.rules| ==> Fits(policy, policy.rules[rank], e))
    && forall n | 0 <= n < rank :: !Fits(policy, policy.rules[n], e)
  }

  lemma {:induction false} RankIs(policy: Policy, e: Entry, from: nat)
    requires from <= |policy.rules| && forall n | 0 <= n < from :: !Fits(policy, policy.rules[n], e)
    ensures Decides(policy, e, Rank(policy, PathOf(e), e.name, from))
    decreases |policy.rules| - from
  {
    hide RuleMatches, Fits;
    if from < |policy.rules| {
      FitsIs(policy, policy.rules[from], e);
      if !RuleMatches(policy, policy.rules[from], PathOf(e), e.name) {
        RankIs(policy, e, from + 1);
      }
    }
  }

  // ------------------------------------------------------------ what was seen before

  lemma {:induction false} SeenIs(policy: Policy, entries: seq<Entry>, k: nat)
    requires k < |entries|
    ensures PathOf(entries[k]) in IndexOf(policy, entries[..k]).seen <==> exists j :: 0 <= j < k && Path(entries[j]) == Path(entries[k])
  {
    SeenPaths(policy, entries[..k], PathOf(entries[k]));
    if j :| 0 <= j < k && Path(entries[j]) == Path(entries[k]) {
      assert PathOf(entries[..k][j]) == PathOf(entries[k]);
    }
  }

  lemma {:induction false} MappedIs(policy: Policy, entries: seq<Entry>, k: nat)
    requires k < |entries|
    ensures Mapped(entries[k], IndexOf(policy, entries[..k])) <==> Downloadable(entries, k)
  {
    hide SafePath, IndexOf, Unsafe;
    SeenIs(policy, entries, k);
    UnsafeIs(entries[k]);
  }

  // The line of the first downloadable file with this normal form, among the first `k`.
  ghost predicate FirstNormal(policy: Policy, entries: seq<Entry>, k: nat, normal: string, line: nat)
    requires k <= |entries|
  {
    exists j :: 0 <= j < k && Downloadable(entries, j) && policy.nfc(Path(entries[j])) == normal && entries[j].line == line
                && forall n | 0 <= n < j :: !(Downloadable(entries, n) && policy.nfc(Path(entries[n])) == normal)
  }

  ghost predicate NoNormal(policy: Policy, entries: seq<Entry>, k: nat, normal: string)
    requires k <= |entries|
  {
    forall n | 0 <= n < k :: !(Downloadable(entries, n) && policy.nfc(Path(entries[n])) == normal)
  }

  lemma {:induction false} NormalIs(policy: Policy, entries: seq<Entry>, k: nat, normal: string)
    requires k <= |entries|
    ensures var index := IndexOf(policy, entries[..k]);
            if normal in index.normal then FirstNormal(policy, entries, k, normal, index.normal[normal])
            else NoNormal(policy, entries, k, normal)
  {
    hide Mapped, Downloadable;
    if k > 0 {
      NormalIs(policy, entries, k - 1, normal);
      MappedIs(policy, entries, k - 1);
      assert entries[..k][..k - 1] == entries[..k - 1] && entries[..k][k - 1] == entries[k - 1];
    }
  }

  // ------------------------------------------------------------ the item

  // What the manifest says of the file at position `k` of the listing.
  ghost predicate Describes(policy: Policy, base: Base, entries: seq<Entry>, k: nat, item: Item)
    requires k < |entries|
  {
    var e := entries[k];
    && item.line == e.line && item.path == Path(e) && item.name == e.name && item.sizeToken == e.sizeToken
    && if Downloadable(entries, k) then
         && Decides(policy, e, item.rank)
         && (var rule := if item.rank < |policy.rules| then policy.rules[item.rank] else policy.fallback;
             item.disposition == rule.disposition && item.ruleId == rule.id)
         && item.url == Some(ItemUrl(base, Path(e))) && item.destination == Some(Join(base.segments, '/') + "/" + Path(e))
         && (if item.collidesWith.Some? then FirstNormal(policy, entries, k, policy.nfc(Path(e)), item.collidesWith.value)
             else NoNormal(policy, entries, k, policy.nfc(Path(e))))
       else
         && item.disposition == Rejected && item.rank == |policy.rules| + 1
         && item.url.None? && item.destination.None? && item.collidesWith.None?
         && item.ruleId == (if Unsafe(e) then "builtin:unsafe_path"
                            else if Path(e) == "ALL_FILES" then "builtin:inventory_listing" else "builtin:duplicate_path")
  }

  // Every listed file gets the item that the policy, the paths before it and its own path give it.
  lemma {:induction false} ItemMeans(policy: Policy, base: Base, entries: seq<Entry>, k: nat)
    requires k < |entries|
    ensures Describes(policy, base, entries, k, Items(policy, base, entries)[k])
  {
    hide SafePath, Rank, Unsafe, Items, IndexOf, ItemUrl, FirstNormal, NoNormal, Decides;
    var e := entries[k];
    ItemAt(policy, base, entries, k);
    UnsafeIs(e);
    SeenIs(policy, entries, k);
    NormalIs(policy, entries, k, policy.nfc(Path(e)));
    RankIs(policy, e, 0);
    RankInRange(policy, e);
  }

  lemma {:induction false} RankInRange(policy: Policy, e: Entry)
    ensures Rank(policy, PathOf(e), e.name, 0) <= |policy.rules|
  {
  }

  // ------------------------------------------------------------ the order

  // Priority first, rejected last; then by rule, then by line.
  predicate Ordered(x: Item, y: Item) {
    && (x.disposition.Rejected? ==> y.disposition.Rejected?) && (x.disposition.Deferred? ==> !y.disposition.Priority?)
    && (x.disposition == y.disposition ==> x.rank < y.rank || (x.rank == y.rank && x.line < y.line))
  }

  lemma {:induction false} SortedMeans(items: seq<Item>)
    ensures Sorted(items) <==> forall k, n | 0 <= k < n < |items| :: Ordered(items[k], items[n])
  {
    forall x: Item, y: Item ensures Before(x, y) <==> Ordered(x, y) {
      match x.disposition case Priority => case Deferred => case Rejected =>
    }
  }

  // The manifest: the items of all files, in order.
  lemma {:induction false} ManifestMeans(policy: Policy, base: Base, entries: seq<Entry>)
    requires forall k, n | 0 <= k < n < |entries| :: entries[k].line < entries[n].line
    ensures var items, manifest := Items(policy, base, entries), Body(Items(policy, base, entries), 3, |policy.rules| + 2);
            && multiset(manifest) == multiset(items) && (forall k, n | 0 <= k < n < |manifest| :: Ordered(manifest[k], manifest[n]))
            && |items| == |entries| && forall k | 0 <= k < |entries| :: Describes(policy, base, entries, k, items[k])
  {
    hide Body, Items, Describes, Ordered, Sorted;
    ManifestIsStableSort(policy, base, entries);
    var items := Items(policy, base, entries);
    SortedMeans(Body(items, 3, |policy.rules| + 2));
    forall k | 0 <= k < |entries| ensures Describes(policy, base, entries, k, items[k]) {
      ItemMeans(policy, base, entries, k);
    }
  }
}
