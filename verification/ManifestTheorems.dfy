/** The manifest body is a stable sort of the listing, names no path twice, and can be exported and
    read back. */
module ManifestTheorems {
  import opened Prelude
  import opened Urls
  import opened UrlRoundTrip
  import opened Listing
  import opened ManifestWriter
  import QueueFile

  // ------------------------------------------------------------ a permutation

  function Only(b: bool, x: Item): multiset<Item> {
    if b then multiset{x} else multiset{}
  }

  lemma {:induction false} BucketAdd(items: seq<Item>, x: Item, key: Key)
    ensures multiset(Bucket(items + [x], key)) == multiset(Bucket(items, key)) + Only(BucketKey(x) == key, x)
  {
    assert (items + [x])[..|items|] == items;
  }

  lemma {:induction false} OnlyAdds(x: Item, order: nat, ranks: nat)
    requires ranks > 0
    ensures Only(Order(x.disposition) == order && x.rank < ranks - 1, x) + Only(BucketKey(x) == (order, ranks - 1), x)
            == Only(Order(x.disposition) == order && x.rank < ranks, x)
  {
    hide Order;
  }

  lemma {:induction false} BucketsAdd(items: seq<Item>, x: Item, order: nat, ranks: nat)
    ensures multiset(Buckets(items + [x], order, ranks))
            == multiset(Buckets(items, order, ranks)) + Only(Order(x.disposition) == order && x.rank < ranks, x)
  {
    hide Bucket, Order, Only, BucketKey;
    if ranks > 0 {
      OnlyAdds(x, order, ranks);
      BucketsAdd(items, x, order, ranks - 1);
      BucketAdd(items, x, (order, ranks - 1));
      SplitMultisets(Buckets(items + [x], order, ranks), Buckets(items + [x], order, ranks - 1),
                     Bucket(items + [x], (order, ranks - 1)));
      SplitMultisets(Buckets(items, order, ranks), Buckets(items, order, ranks - 1), Bucket(items, (order, ranks - 1)));
    } else {
      NoneAdded(x);
    }
  }

  lemma {:induction false} NoneAdded(x: Item)
    ensures Only(false, x) == multiset{}
  {
  }

  lemma {:induction false} SplitMultisets(whole: seq<Item>, a: seq<Item>, b: seq<Item>)
    requires whole == a + b
    ensures multiset(whole) == multiset(a) + multiset(b)
  {
  }

  lemma {:induction false} BodyAdd(items: seq<Item>, x: Item, orders: nat, ranks: nat)
    ensures multiset(Body(items + [x], orders, ranks))
            == multiset(Body(items, orders, ranks)) + Only(Order(x.disposition) < orders && x.rank < ranks, x)
  {
    hide Buckets, Order;
    if orders > 0 {
      BodyAdd(items, x, orders - 1, ranks);
      BucketsAdd(items, x, orders - 1, ranks);
      SplitMultisets(Body(items + [x], orders, ranks), Body(items + [x], orders - 1, ranks), Buckets(items + [x], orders - 1, ranks));
      SplitMultisets(Body(items, orders, ranks), Body(items, orders - 1, ranks), Buckets(items, orders - 1, ranks));
    }
  }

  lemma {:induction false} NothingBucketed(order: nat, ranks: nat)
    ensures Buckets([], order, ranks) == []
  {
    if ranks > 0 {
      NothingBucketed(order, ranks - 1);
    }
  }

  lemma {:induction false} EmptyBody(orders: nat, ranks: nat)
    ensures Body([], orders, ranks) == []
  {
    if orders > 0 {
      EmptyBody(orders - 1, ranks);
      NothingBucketed(orders - 1, ranks);
    }
  }

  lemma {:induction false} BodyPermutes(items: seq<Item>, ranks: nat)
    requires forall k | 0 <= k < |items| :: items[k].rank < ranks
    ensures multiset(Body(items, 3, ranks)) == multiset(items)
  {
    hide Body;
    if items == [] {
      EmptyBody(3, ranks);
    } else {
      var front, last := items[..|items| - 1], items[|items| - 1];
      BodyPermutes(front, ranks);
      BodyAdd(front, last, 3, ranks);
      assert items == front + [last];
      assert Order(last.disposition) < 3;
    }
  }

  // ------------------------------------------------------------ sorted

  predicate Before(x: Item, y: Item) {
    || Order(x.disposition) < Order(y.disposition)
    || (Order(x.disposition) == Order(y.disposition)
        && (x.rank < y.rank || (x.rank == y.rank && x.line < y.line)))
  }

  ghost predicate Sorted(items: seq<Item>) {
    forall k, n | 0 <= k < n < |items| :: Before(items[k], items[n])
  }

  ghost predicate InLineOrder(items: seq<Item>) {
    forall k, n | 0 <= k < n < |items| :: items[k].line < items[n].line
  }

  lemma {:induction false} BucketSorted(items: seq<Item>, key: Key)
    requires InLineOrder(items)
    ensures var b := Bucket(items, key);
            && Sorted(b) && (forall k | 0 <= k < |b| :: BucketKey(b[k]) == key)
            && forall k | 0 <= k < |b| :: items != [] && b[k].line <= items[|items| - 1].line
  {
    if items == [] {
      assert Bucket(items, key) == [];
    } else {
      var n := |items| - 1;
      BucketSorted(items[..n], key);
      var before, b := Bucket(items[..n], key), Bucket(items, key);
      forall k | 0 <= k < |before| ensures before[k].line < items[n].line {
        assert before[k].line <= items[..n][n - 1].line;
      }
    }
  }

  lemma {:induction false} SortedJoins(a: seq<Item>, b: seq<Item>)
    requires Sorted(a) && Sorted(b) && forall k, n | 0 <= k < |a| && 0 <= n < |b| :: Before(a[k], b[n])
    ensures Sorted(a + b)
  {
  }

  lemma {:induction false} BucketsSorted(items: seq<Item>, order: nat, ranks: nat)
    requires InLineOrder(items)
    ensures var b := Buckets(items, order, ranks);
            Sorted(b) && forall k | 0 <= k < |b| :: Order(b[k].disposition) == order && b[k].rank < ranks
  {
    hide Bucket, Order;
    if ranks > 0 {
      BucketsSorted(items, order, ranks - 1);
      BucketSorted(items, (order, ranks - 1));
      SortedJoins(Buckets(items, order, ranks - 1), Bucket(items, (order, ranks - 1)));
    }
  }

  lemma {:induction false} BodySorted(items: seq<Item>, orders: nat, ranks: nat)
    requires InLineOrder(items)
    ensures var b := Body(items, orders, ranks);
            Sorted(b) && forall k | 0 <= k < |b| :: Order(b[k].disposition) < orders
  {
    hide Buckets, Order;
    if orders > 0 {
      BodySorted(items, orders - 1, ranks);
      BucketsSorted(items, orders - 1, ranks);
      SortedJoins(Body(items, orders - 1, ranks), Buckets(items, orders - 1, ranks));
    }
  }

  // ------------------------------------------------------------ items and entries

  lemma {:induction false} ItemAt(policy: Policy, base: Base, entries: seq<Entry>, k: nat)
    requires k < |entries|
    ensures Items(policy, base, entries)[k] == ItemOf(policy, base, entries[k], IndexOf(policy, entries[..k]))
  {
    hide ItemOf, Indexed;
    var n := |entries| - 1;
    if k < n {
      ItemAt(policy, base, entries[..n], k);
      assert entries[..n][..k] == entries[..k];
    }
  }

  lemma {:induction false} ItemIsEntry(policy: Policy, base: Base, e: Entry, index: Index)
    ensures var item := ItemOf(policy, base, e, index);
            && item.line == e.line && item.path == PathOf(e) && item.name == e.name && item.sizeToken == e.sizeToken
            && item.rank <= LastRank(policy)
            && (item.url.Some? <==> Mapped(e, index))
            && (Mapped(e, index) ==> item.url == Some(ItemUrl(base, item.path)) && item.destination == Some(Destination(base, item.path)))
            && (!Mapped(e, index) ==> item.disposition == Rejected)
  {
    hide SafePath, RuleMatches, ItemUrl, Destination;
  }

  // Stable sort: the manifest is a permutation of the items, ordered by disposition, by rank of
  // the deciding rule, and within one rule by source line.
  lemma {:induction false} ManifestIsStableSort(policy: Policy, base: Base, entries: seq<Entry>)
    requires forall k, n | 0 <= k < n < |entries| :: entries[k].line < entries[n].line
    ensures var items := Items(policy, base, entries);
            var manifest := Body(items, 3, LastRank(policy) + 1);
            multiset(manifest) == multiset(items) && Sorted(manifest) && |manifest| == |entries|
  {
    hide Body, ItemOf, Mapped, Items, Order, Before;
    var items := Items(policy, base, entries);
    forall k | 0 <= k < |items| ensures items[k].rank < LastRank(policy) + 1 && items[k].line == entries[k].line {
      ItemAt(policy, base, entries, k);
      ItemIsEntry(policy, base, entries[k], IndexOf(policy, entries[..k]));
    }
    BodyPermutes(items, LastRank(policy) + 1);
    BodySorted(items, 3, LastRank(policy) + 1);
    assert |multiset(Body(items, 3, LastRank(policy) + 1))| == |multiset(items)|;
  }

  // The totals by disposition and the totals by rule both cover every file.
  lemma {:induction false} DispositionsCover(items: seq<Item>)
    ensures DispositionCount(items, Priority) + DispositionCount(items, Deferred) + DispositionCount(items, Rejected) == |items|
  {
    if items != [] {
      DispositionsCover(items[..|items| - 1]);
    }
  }

  // ------------------------------------------------------------ one URL for a path

  lemma {:induction false} SeenPaths(policy: Policy, entries: seq<Entry>, path: string)
    ensures path in IndexOf(policy, entries).seen <==> exists k :: 0 <= k < |entries| && PathOf(entries[k]) == path
  {
    hide Mapped;
    if entries != [] {
      var n := |entries| - 1;
      SeenPaths(policy, entries[..n], path);
      if k :| 0 <= k < |entries| && PathOf(entries[k]) == path {
        assert k < n ==> PathOf(entries[..n][k]) == path;
      }
      if k :| 0 <= k < |entries[..n]| && PathOf(entries[..n][k]) == path {
        assert PathOf(entries[k]) == path;
      }
    }
  }

  // Of the entries with one path, the first alone has a URL, and no URL belongs to two paths.
  lemma {:induction false} UrlsAreDistinct(codec: Codec, policy: Policy, base: Base, entries: seq<Entry>, k: nat, n: nat)
    requires BaseOk(base) && k < n < |entries|
    requires var items := Items(policy, base, entries); items[k].url.Some? && items[n].url.Some?
    ensures var items := Items(policy, base, entries); items[k].path != items[n].path && items[k].url != items[n].url
  {
    hide ItemOf, SafePath, ItemUrl, Items, BaseOk;
    var items := Items(policy, base, entries);
    ItemAt(policy, base, entries, k);
    ItemAt(policy, base, entries, n);
    ItemIsEntry(policy, base, entries[k], IndexOf(policy, entries[..k]));
    ItemIsEntry(policy, base, entries[n], IndexOf(policy, entries[..n]));
    SeenPaths(policy, entries[..n], items[k].path);
    assert PathOf(entries[..n][k]) == items[k].path;
    if items[k].url == items[n].url {
      ItemUrlInjective(codec, base, items[k].path, items[n].path, items[k].name, items[n].name);
    }
  }

  // ------------------------------------------------------------ from the listing to the downloader

  // The queue items of one disposition, in manifest order.
  function ToQueue(manifest: seq<Item>, d: Disposition): (queue: seq<QueueFile.QueueItem>)
    ensures |queue| <= |manifest|
  {
    if manifest == [] then []
    else
      var last := manifest[|manifest| - 1];
      ToQueue(manifest[..|manifest| - 1], d)
      + if last.disposition == d && last.url.Some? then [QueueFile.QueueItem(last.url.value, last.sizeToken)] else []
  }

  // Two manifest items with URLs have different URLs.
  ghost predicate DistinctUrls(items: seq<Item>) {
    forall k, n | 0 <= k < n < |items| && items[k].url.Some? && items[n].url.Some? :: items[k].url != items[n].url
  }

  lemma {:induction false} QueueUrls(manifest: seq<Item>, d: Disposition, k: nat) returns (at: nat)
    requires k < |ToQueue(manifest, d)|
    ensures at < |manifest| && manifest[at].url == Some(ToQueue(manifest, d)[k].url) && manifest[at].disposition == d
    ensures manifest[at].sizeToken == ToQueue(manifest, d)[k].sizeToken
  {
    var n := |manifest| - 1;
    if k < |ToQueue(manifest[..n], d)| {
      at := QueueUrls(manifest[..n], d, k);
    } else {
      at := n;
    }
  }

  lemma {:induction false} QueueIsDistinct(manifest: seq<Item>, d: Disposition)
    requires DistinctUrls(manifest)
    ensures QueueFile.UrlsDistinct(ToQueue(manifest, d))
  {
    if manifest != [] {
      var n := |manifest| - 1;
      var front, last := manifest[..n], manifest[n];
      QueueIsDistinct(front, d);
      forall k | 0 <= k < |ToQueue(front, d)| && last.url.Some? ensures ToQueue(front, d)[k].url != last.url.value {
        var at := QueueUrls(front, d, k);
        assert front[at] == manifest[at];
      }
    }
  }

  // What the parser and the writer say about an item that goes to a queue.
  ghost predicate FromListing(base: Base, item: Item) {
    item.url.Some? ==> item.url == Some(ItemUrl(base, item.path)) && item.destination == Some(Destination(base, item.path))
                       && SafePath(item.path, item.name) && IsSizeToken(item.sizeToken)
  }
}
