/** The bucketed manifest writer: one pass over the listing, then the buckets in order. */
module ManifestWriter {
  import opened Prelude
  import opened Strings
  import opened UrlRoundTrip
  import opened Listing

  // ------------------------------------------------------------ policy

  datatype Disposition = Priority | Deferred | Rejected

  function Order(d: Disposition): nat {
    match d case Priority => 0 case Deferred => 1 case Rejected => 2
  }

  datatype Rule = Rule(id: string, prefix: seq<string>, extensions: seq<string>, names: set<string>, disposition: Disposition)

  // `lower` and `nfc` are the Unicode case mapping and normalization.
  datatype Policy = Policy(rules: seq<Rule>, fallback: Rule, lower: string -> string, nfc: string -> string)

  predicate EndsWith(s: string, tail: string) {
    |tail| <= |s| && s[|s| - |tail|..] == tail
  }

  predicate RuleMatches(policy: Policy, rule: Rule, path: string, name: string) {
    && (rule.prefix != [] ==> rule.prefix <= Split(path, '/'))
    && (rule.extensions != [] ==> exists e :: e in rule.extensions && EndsWith(policy.lower(name), e))
    && (rule.names != {} ==> policy.lower(name) in rule.names)
  }

  // The first rule that matches, or the default behind them all.
  function Rank(policy: Policy, path: string, name: string, from: nat): (rank: nat)
    requires from <= |policy.rules|
    ensures from <= rank <= |policy.rules|
    decreases |policy.rules| - from
  {
    if from == |policy.rules| || RuleMatches(policy, policy.rules[from], path, name) then from
    else Rank(policy, path, name, from + 1)
  }

  function RuleAt(policy: Policy, rank: nat): Rule {
    if rank < |policy.rules| then policy.rules[rank] else policy.fallback
  }

  // The rank of the built-in rejections.
  function LastRank(policy: Policy): nat {
    |policy.rules| + 1
  }

  // ------------------------------------------------------------ items

  datatype Item = Item(line: nat, path: string, name: string, sizeToken: string, url: Option<string>,
                       destination: Option<string>, disposition: Disposition, ruleId: string, rank: nat,
                       collidesWith: Option<nat>)

  function PathOf(e: Entry): string {
    if e.directory != "" then e.directory + "/" + e.name else e.name
  }

  // `seen` holds the first line of every path, `normal` the first line of every normalized path
  // that has a URL.
  datatype Index = Index(seen: map<string, nat>, normal: map<string, nat>)

  predicate Mapped(e: Entry, index: Index) {
    SafePath(PathOf(e), e.name) && PathOf(e) != "ALL_FILES" && PathOf(e) !in index.seen
  }

  function ItemOf(policy: Policy, base: Base, e: Entry, index: Index): Item {
    var path := PathOf(e);
    if !SafePath(path, e.name) then
      Item(e.line, path, e.name, e.sizeToken, None, None, Rejected, "builtin:unsafe_path", LastRank(policy), None)
    else if path == "ALL_FILES" then
      Item(e.line, path, e.name, e.sizeToken, None, None, Rejected, "builtin:inventory_listing", LastRank(policy), None)
    else if path in index.seen then
      Item(e.line, path, e.name, e.sizeToken, None, None, Rejected, "builtin:duplicate_path", LastRank(policy), None)
    else
      var rank := Rank(policy, path, e.name, 0);
      var rule, key := RuleAt(policy, rank), policy.nfc(path);
      Item(e.line, path, e.name, e.sizeToken, Some(ItemUrl(base, path)), Some(Destination(base, path)), rule.disposition,
           rule.id, rank, if key in index.normal then Some(index.normal[key]) else None)
  }

  function Indexed(policy: Policy, e: Entry, index: Index): Index {
    var path := PathOf(e);
    var key := policy.nfc(path);
    Index(if path in index.seen then index.seen else index.seen[path := e.line],
          if Mapped(e, index) && key !in index.normal then index.normal[key := e.line] else index.normal)
  }

  function IndexOf(policy: Policy, entries: seq<Entry>): Index {
    if entries == [] then Index(map[], map[])
    else Indexed(policy, entries[|entries| - 1], IndexOf(policy, entries[..|entries| - 1]))
  }

  function Items(policy: Policy, base: Base, entries: seq<Entry>): (items: seq<Item>)
    ensures |items| == |entries|
  {
    if entries == [] then []
    else
      var front := entries[..|entries| - 1];
      Items(policy, base, front) + [ItemOf(policy, base, entries[|entries| - 1], IndexOf(policy, front))]
  }

  // ------------------------------------------------------------ buckets

  type Key = (nat, nat)

  function BucketKey(item: Item): Key {
    (Order(item.disposition), item.rank)
  }

  function Bucket(items: seq<Item>, key: Key): seq<Item> {
    if items == [] then []
    else
      var last := items[|items| - 1];
      Bucket(items[..|items| - 1], key) + if BucketKey(last) == key then [last] else []
  }

  // The buckets of one disposition, by rank.
  function Buckets(items: seq<Item>, order: nat, ranks: nat): seq<Item> {
    if ranks == 0 then [] else Buckets(items, order, ranks - 1) + Bucket(items, (order, ranks - 1))
  }

  // The manifest body: the buckets in the order of their keys.
  function Body(items: seq<Item>, orders: nat, ranks: nat): seq<Item> {
    if orders == 0 then [] else Body(items, orders - 1, ranks) + Buckets(items, orders - 1, ranks)
  }

  function DispositionCount(items: seq<Item>, d: Disposition): nat {
    if items == [] then 0
    else DispositionCount(items[..|items| - 1], d) + if items[|items| - 1].disposition == d then 1 else 0
  }

  function RuleCount(items: seq<Item>, id: string): nat {
    if items == [] then 0
    else RuleCount(items[..|items| - 1], id) + if items[|items| - 1].ruleId == id then 1 else 0
  }

  function Collisions(items: seq<Item>): nat {
    if items == [] then 0
    else Collisions(items[..|items| - 1]) + if items[|items| - 1].collidesWith.Some? then 1 else 0
  }

  datatype Totals = Totals(files: nat, byDisposition: map<Disposition, nat>, byRule: map<string, nat>, collisions: nat)

  predicate TotalsOf(totals: Totals, items: seq<Item>) {
    && totals.files == |items| && totals.collisions == Collisions(items)
    && (forall d: Disposition :: d in totals.byDisposition && totals.byDisposition[d] == DispositionCount(items, d))
    && (forall k | 0 <= k < |items| :: items[k].ruleId in totals.byRule)
    && forall id | id in totals.byRule :: totals.byRule[id] == RuleCount(items, id)
  }

  function NoItems(d: Disposition): nat {
    0
  }

  // ------------------------------------------------------------ the writer

  // One entry: its item, its bucket file, its totals, and the index for the entries behind it.
  method WriteEntry(policy: Policy, base: Base, e: Entry, index: Index, buckets: map<Key, seq<Item>>, totals: Totals)
    returns (item: Item, index': Index, buckets': map<Key, seq<Item>>, totals': Totals)
    requires forall d: Disposition :: d in totals.byDisposition
    ensures item == ItemOf(policy, base, e, index) && index' == Indexed(policy, e, index)
    ensures buckets' == buckets[BucketKey(item) := (if BucketKey(item) in buckets then buckets[BucketKey(item)] else []) + [item]]
    ensures totals' == Totals(totals.files + 1, totals.byDisposition[item.disposition := totals.byDisposition[item.disposition] + 1],
                              totals.byRule[item.ruleId := (if item.ruleId in totals.byRule then totals.byRule[item.ruleId] else 0) + 1],
                              totals.collisions + if item.collidesWith.Some? then 1 else 0)
  {
    hide SafePath, Rank, ItemUrl, Destination;
    var path := PathOf(e);
    item := Item(e.line, path, e.name, e.sizeToken, None, None, Rejected, "", LastRank(policy), None);
    index' := index;
    var collisions := totals.collisions;
    if !SafePath(path, e.name) {
      item := item.(ruleId := "builtin:unsafe_path");
    } else if path == "ALL_FILES" {
      item := item.(ruleId := "builtin:inventory_listing");
    } else if path in index.seen {
      item := item.(ruleId := "builtin:duplicate_path");
    } else {
      var rank := Rank(policy, path, e.name, 0);
      var rule := RuleAt(policy, rank);
      item := item.(rank := rank, ruleId := rule.id, disposition := rule.disposition,
                    url := Some(ItemUrl(base, path)), destination := Some(Destination(base, path)));
      var key := policy.nfc(path);
      if key in index.normal {
        item := item.(collidesWith := Some(index.normal[key]));
        collisions := collisions + 1;
      } else {
        index' := index'.(normal := index'.normal[key := e.line]);
      }
    }
    if path !in index'.seen {
      index' := index'.(seen := index'.seen[path := e.line]);
    }
    var key := BucketKey(item);
    buckets' := buckets;
    if key !in buckets' {
      buckets' := buckets'[key := []];
    }
    buckets' := buckets'[key := buckets'[key] + [item]];
    totals' := Totals(totals.files + 1,
                      totals.byDisposition[item.disposition := totals.byDisposition[item.disposition] + 1],
                      totals.byRule[item.ruleId := (if item.ruleId in totals.byRule then totals.byRule[item.ruleId] else 0) + 1],
                      collisions);
  }

  // The bucket files hold the items by key.
  ghost predicate Bucketed(buckets: map<Key, seq<Item>>, items: seq<Item>) {
    forall key: Key :: Bucket(items, key) == if key in buckets then buckets[key] else []
  }

  lemma {:induction false} BucketsGrow(buckets: map<Key, seq<Item>>, items: seq<Item>, item: Item, buckets': map<Key, seq<Item>>)
    requires Bucketed(buckets, items)
    requires buckets' == buckets[BucketKey(item) := (if BucketKey(item) in buckets then buckets[BucketKey(item)] else []) + [item]]
    ensures Bucketed(buckets', items + [item])
  {
    assert (items + [item])[..|items|] == items;
  }

  lemma {:induction false} TotalsGrow(totals: Totals, items: seq<Item>, item: Item, totals': Totals)
    requires TotalsOf(totals, items)
    requires totals' == Totals(totals.files + 1, totals.byDisposition[item.disposition := totals.byDisposition[item.disposition] + 1],
                               totals.byRule[item.ruleId := (if item.ruleId in totals.byRule then totals.byRule[item.ruleId] else 0) + 1],
                               totals.collisions + if item.collidesWith.Some? then 1 else 0)
    ensures TotalsOf(totals', items + [item])
  {
    assert (items + [item])[..|items|] == items;
    if item.ruleId !in totals.byRule {
      UnknownRule(items, item.ruleId);
    }
  }

  lemma {:induction false} UnknownRule(items: seq<Item>, id: string)
    requires forall k | 0 <= k < |items| :: items[k].ruleId != id
    ensures RuleCount(items, id) == 0
  {
    if items != [] {
      UnknownRule(items[..|items| - 1], id);
    }
  }

  method WriteManifest(policy: Policy, base: Base, entries: seq<Entry>) returns (manifest: seq<Item>, totals: Totals)
    ensures manifest == Body(Items(policy, base, entries), 3, LastRank(policy) + 1)
    ensures TotalsOf(totals, Items(policy, base, entries))
  {
    hide ItemOf, Indexed, Bucket, TotalsOf, BucketKey;
    var index := Index(map[], map[]);
    var buckets: map<Key, seq<Item>> := map[];
    totals := Totals(0, map d: Disposition | true :: NoItems(d), map[], 0);
    NothingWritten(totals);
    var k := 0;
    assert entries[..0] == [];
    while k < |entries|
      invariant 0 <= k <= |entries| && index == IndexOf(policy, entries[..k])
      invariant Bucketed(buckets, Items(policy, base, entries[..k])) && TotalsOf(totals, Items(policy, base, entries[..k]))
      invariant forall d: Disposition :: d in totals.byDisposition
    {
      assert entries[..k + 1][..k] == entries[..k];
      ghost var items, wasBuckets, wasTotals := Items(policy, base, entries[..k]), buckets, totals;
      var item;
      item, index, buckets, totals := WriteEntry(policy, base, entries[k], index, buckets, totals);
      BucketsGrow(wasBuckets, items, item, buckets);
      TotalsGrow(wasTotals, items, item, totals);
      k := k + 1;
    }
    assert entries[..k] == entries;
    manifest := [];
    var order := 0;
    while order < 3
      invariant 0 <= order <= 3 && manifest == Body(Items(policy, base, entries), order, LastRank(policy) + 1)
    {
      var rank := 0;
      ghost var before := manifest;
      while rank < LastRank(policy) + 1
        invariant 0 <= rank <= LastRank(policy) + 1
        invariant manifest == before + Buckets(Items(policy, base, entries), order, rank)
      {
        if (order, rank) in buckets {
          manifest := manifest + buckets[(order, rank)];
        }
        rank := rank + 1;
      }
      order := order + 1;
    }
  }

  lemma {:induction false} NothingWritten(totals: Totals)
    requires totals == Totals(0, map d: Disposition | true :: NoItems(d), map[], 0)
    ensures TotalsOf(totals, []) && Bucketed(map[], [])
  {
  }
}
