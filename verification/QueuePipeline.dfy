/** From a listing to the downloader: manifest, queue file and queue reader together. */
module QueuePipeline {
  import opened Prelude
  import opened Strings
  import opened Urls
  import opened UrlRoundTrip
  import opened Listing
  import opened ManifestWriter
  import opened ManifestTheorems
  import opened QueueFile
  import opened QueueRoundTrip
  import LineReader

  // ------------------------------------------------------------ size tokens

  lemma {:induction false} DigitsAre(s: string)
    ensures forall k | 0 <= k < DigitsLength(s) :: IsDigit(s[k])
  {
    if s != "" && IsDigit(s[0]) {
      DigitsAre(s[1..]);
    }
  }

  lemma {:induction false} SizeTokenIsWord(s: string)
    requires IsSizeToken(s)
    ensures Word(s)
  {
    var n := DigitsLength(s);
    var rest := s[n..];
    var m := if |rest| > 0 && rest[0] == '.' then DigitsLength(rest[1..]) else 0;
    DigitsAre(s);
    if m > 0 {
      DigitsAre(rest[1..]);
      forall k | 0 <= k < |s| ensures !IsSpace(s[k]) {
        if k > n && k <= n + m {
          assert IsDigit(rest[1..][k - n - 1]);
        }
      }
    }
  }

  lemma {:induction false} EntrySizes(lines: seq<LineReader.Line>)
    ensures forall k | 0 <= k < |Entries(lines)| :: IsSizeToken(Entries(lines)[k].sizeToken)
  {
    hide Judge;
    if lines != [] {
      var n := |lines| - 1;
      var p := After(lines[..n]);
      EntrySizes(lines[..n]);
      JudgedSize(lines[n], p.mode, p.headers);
    } else {
      assert Entries(lines) == [];
    }
  }

  lemma {:induction false} JudgedSize(line: LineReader.Line, mode: Mode, headers: set<string>)
    ensures Judge(line, mode, headers).entry.Some? ==> IsSizeToken(Judge(line, mode, headers).entry.value.sizeToken)
  {
    hide EntryMatch, IsSizeToken;
  }

  // ------------------------------------------------------------ item URLs in a queue

  lemma {:induction false} SafeIsPrintable(x: char)
    requires UrlSafe(x)
    ensures Printable(x) && x !in "/?#"
  {
  }

  lemma {:induction false} JoinedPrintable(segments: seq<string>, x: char)
    requires x in Join(EncodedSegments(segments), '/')
    ensures Printable(x)
  {
    hide EncodeSegment;
    if x != '/' {
      JoinCharacters(EncodedSegments(segments), '/', x);
      var k :| 0 <= k < |segments| && x in EncodedSegments(segments)[k];
      EncodedSegmentSafe(segments[k]);
      SafeIsPrintable(x);
    }
  }

  lemma {:induction false} ItemUrlIsWord(b: Base, path: string, name: string)
    requires BaseOk(b) && SafePath(path, name)
    ensures Word(ItemUrl(b, path)) && ItemUrl(b, path)[0] != '#' && Ascii(ItemUrl(b, path))
  {
    hide Split, Join, EncodeSegment, SafeSegment, HasUserInfo, IsSpace;
    UrlTail(b, path);
    var text := Join(EncodedSegments(Behind(b, path)), '/');
    var url := ItemUrl(b, path);
    assert url == b.scheme + "://" + b.netloc + ("/" + b.segments[0] + "/" + text);
    LiteralsPrintable(b);
    forall k | 0 <= k < |url| ensures Printable(url[k]) {
      assert url[k] in b.scheme || url[k] in "://" || url[k] in b.netloc || url[k] == '/' || url[k] in b.segments[0]
             || url[k] in text;
      if url[k] in text {
        JoinedPrintable(Behind(b, path), url[k]);
      }
    }
  }

  lemma {:induction false} LiteralsPrintable(b: Base)
    requires b.scheme in ["http", "https"]
    ensures forall x | x in b.scheme || x in "://" || x == '/' :: Printable(x)
    ensures |b.scheme| > 0 && b.scheme[0] != '#'
  {
  }

  // The exporter refuses the listing file, and nothing else that is mapped.
  lemma {:induction false} QueueUrlOkIff(hostOk: string -> bool, codec: Codec, b: Base, path: string, name: string)
    requires BaseOk(b) && SafePath(path, name) && hostOk(b.netloc)
    ensures QueueUrlOk(hostOk, ItemUrl(b, path)) <==> !IsListing(b, path)
  {
    hide Split, Join, EncodeSegment, SafeSegment, HasUserInfo, IsSpace, UrlSplit, ItemUrl, Ascii;
    var c, text := b.segments[0], Join(EncodedSegments(Behind(b, path)), '/');
    BehindIsSafe(b, path, name);
    EncodedIsSafe(Behind(b, path));
    UrlTail(b, path);
    ItemUrlSplits(b, c, text);
    ItemUrlIs(b, path);
    ItemUrlIsWord(b, path, name);
    ListingIff(b, path, name, codec);
    assert c[0] in c;
    assert StripSlashes("/" + c + "/" + text) == c + "/" + text by {
      assert ("/" + c + "/" + text)[1..] == c + "/" + text;
    }
    FindSlash(c, text);
    assert (c + "/" + text)[|c| + 1..] == text;
  }

  lemma {:induction false} ItemUrlIs(b: Base, path: string)
    ensures ItemUrl(b, path) == BaseUrl(b) + "/" + Join(EncodedSegments(Split(path, '/')), '/')
  {
  }

  // ------------------------------------------------------------ the pipeline

  lemma {:induction false} InManifest(policy: Policy, base: Base, entries: seq<Entry>, item: Item) returns (k: nat)
    requires forall a, b | 0 <= a < b < |entries| :: entries[a].line < entries[b].line
    requires item in Body(Items(policy, base, entries), 3, LastRank(policy) + 1)
    ensures k < |entries| && Items(policy, base, entries)[k] == item
  {
    hide Body, Items, Sorted;
    ManifestIsStableSort(policy, base, entries);
    assert item in multiset(Items(policy, base, entries));
    k :| 0 <= k < |entries| && Items(policy, base, entries)[k] == item;
  }

  lemma {:induction false} ManifestUrlsDistinct(codec: Codec, policy: Policy, base: Base, entries: seq<Entry>)
    requires BaseOk(base) && forall a, b | 0 <= a < b < |entries| :: entries[a].line < entries[b].line
    ensures DistinctUrls(Body(Items(policy, base, entries), 3, LastRank(policy) + 1))
  {
    hide Body, Items, BaseOk, Before;
    var manifest := Body(Items(policy, base, entries), 3, LastRank(policy) + 1);
    ManifestIsStableSort(policy, base, entries);
    forall k, n | 0 <= k < n < |manifest| && manifest[k].url.Some? && manifest[n].url.Some?
      ensures manifest[k].url != manifest[n].url
    {
      var i := InManifest(policy, base, entries, manifest[k]);
      var j := InManifest(policy, base, entries, manifest[n]);
      assert Before(manifest[k], manifest[n]);
      NotBeforeItself(manifest[k]);
      if i < j {
        UrlsAreDistinct(codec, policy, base, entries, i, j);
      } else if j < i {
        UrlsAreDistinct(codec, policy, base, entries, j, i);
      }
    }
  }

  lemma {:induction false} NotBeforeItself(x: Item)
    ensures !Before(x, x)
  {
  }

  lemma {:induction false} ManifestItemIs(policy: Policy, base: Base, entries: seq<Entry>, item: Item)
    requires forall a, b | 0 <= a < b < |entries| :: entries[a].line < entries[b].line
    requires forall k | 0 <= k < |entries| :: IsSizeToken(entries[k].sizeToken)
    requires item in Body(Items(policy, base, entries), 3, LastRank(policy) + 1)
    ensures FromListing(base, item)
  {
    hide Body, Items, ItemOf, SafePath, IsSizeToken;
    var k := InManifest(policy, base, entries, item);
    ItemAt(policy, base, entries, k);
    ItemIsEntry(policy, base, entries[k], IndexOf(policy, entries[..k]));
  }

  // No mapped item of the disposition is the listing file of a collection without "data".
  ghost predicate NoListing(base: Base, manifest: seq<Item>, d: Disposition) {
    forall k | 0 <= k < |manifest| && manifest[k].disposition == d && manifest[k].url.Some? ::
      !IsListing(base, manifest[k].path)
  }

  function Manifest(policy: Policy, base: Base, entries: seq<Entry>): seq<Item> {
    Body(Items(policy, base, entries), 3, LastRank(policy) + 1)
  }

  ghost predicate Parsed(entries: seq<Entry>) {
    && (forall a, b | 0 <= a < b < |entries| :: entries[a].line < entries[b].line)
    && forall k | 0 <= k < |entries| :: IsSizeToken(entries[k].sizeToken)
  }

  // What the parser yields is parsed.
  lemma {:induction false} ListingIsParsed(data: Bytes, lines: seq<LineReader.Line>)
    requires lines == LineReader.SplitFrom(data, 1)
    ensures Parsed(Entries(lines))
  {
    hide Entries, Judge;
    LineReader.NumbersIncrease(data, 1);
    EntriesInOrder(lines);
    EntrySizes(lines);
  }

  lemma {:induction false} QueueItemReads(codec: Codec, policy: Policy, base: Base, entries: seq<Entry>, d: Disposition, k: nat) returns (at: nat)
    requires BaseOk(base) && PlainCollection(codec, base.segments[0]) && Parsed(entries)
    requires NoListing(base, Manifest(policy, base, entries), d) && k < |ToQueue(Manifest(policy, base, entries), d)|
    ensures var manifest, queue := Manifest(policy, base, entries), ToQueue(Manifest(policy, base, entries), d);
            && at < |manifest| && manifest[at].url == Some(queue[k].url) && manifest[at].sizeToken == queue[k].sizeToken
            && manifest[at].destination.Some? && Readable(codec, queue[k])
            && RelativePath(codec, queue[k].url) == Some(PurePath(false, Split(manifest[at].destination.value, '/')))
  {
    hide Manifest, ToQueue, BaseOk, SafePath, RelativePath, ItemUrl, Destination, PlainCollection, Word, IsSizeToken;
    var manifest := Manifest(policy, base, entries);
    at := QueueUrls(manifest, d, k);
    ManifestItemIs(policy, base, entries, manifest[at]) by {
      ManifestIs(policy, base, entries);
    }
    UrlRoundTripIff(codec, base, manifest[at].path, manifest[at].name);
    ItemUrlIsWord(base, manifest[at].path, manifest[at].name);
    SizeTokenIsWord(manifest[at].sizeToken);
  }

  lemma {:induction false} ManifestIs(policy: Policy, base: Base, entries: seq<Entry>)
    ensures Manifest(policy, base, entries) == Body(Items(policy, base, entries), 3, LastRank(policy) + 1)
  {
  }

  // An entry of the downloader is the manifest item: its URL, its size, and the path to its destination.
  predicate IsReadAs(item: Item, entry: QueueEntry) {
    && item.url == Some(entry.url) && entry.size == Some(item.sizeToken) && item.destination.Some?
    && entry.path == PurePath(false, Split(item.destination.value, '/'))
  }

  ghost predicate LeadsToDestination(manifest: seq<Item>, entry: QueueEntry) {
    exists at :: 0 <= at < |manifest| && IsReadAs(manifest[at], entry)
  }

  lemma {:induction false} QueueItemLeads(codec: Codec, policy: Policy, base: Base, entries: seq<Entry>, d: Disposition,
                                          generation: Option<string>, k: nat)
    requires BaseOk(base) && PlainCollection(codec, base.segments[0]) && Parsed(entries)
    requires NoListing(base, Manifest(policy, base, entries), d) && k < |ToQueue(Manifest(policy, base, entries), d)|
    ensures var item := ToQueue(Manifest(policy, base, entries), d)[k];
            Readable(codec, item) && LeadsToDestination(Manifest(policy, base, entries), Found(codec, item, generation))
  {
    hide Manifest, ToQueue, Readable, BaseOk, PlainCollection, NoListing, Parsed, RelativePath;
    var at := QueueItemReads(codec, policy, base, entries, d, k);
    assert IsReadAs(Manifest(policy, base, entries)[at],
                    Found(codec, ToQueue(Manifest(policy, base, entries), d)[k], generation));
  }

  // For every listing, policy and base URL whose collection is plain: exporting the manifest and
  // reading the file gives back exactly the exported items, in order, each with the path to the
  // destination that the manifest gives it.
  lemma {:induction false} PipelineReadsBack(codec: Codec, policy: Policy, base: Base, entries: seq<Entry>, d: Disposition, digest: string,
                          disposition: string, generation: Option<string>)
    requires BaseOk(base) && PlainCollection(codec, base.segments[0]) && Parsed(entries)
    requires NoListing(base, Manifest(policy, base, entries), d)
    requires Unbroken(digest) && Unbroken(disposition) && (generation.Some? ==> GenerationOk(generation.value))
    ensures var queue := ToQueue(Manifest(policy, base, entries), d);
            && UrlsDistinct(queue) && (forall k | 0 <= k < |queue| :: Readable(codec, queue[k]))
            && ReadLines(codec, AllLines([Heading(digest, disposition) + QueueLines(queue, generation)])).entries
               == Expected(codec, queue, Clean(generation))
            && forall k | 0 <= k < |queue| ::
                 LeadsToDestination(Manifest(policy, base, entries), Expected(codec, queue, Clean(generation))[k])
  {
    hide Manifest, ToQueue, Readable, BaseOk, PlainCollection, GenerationOk, ReadLines, AllLines, NoListing, Unbroken, Found,
      LeadsToDestination, Clean, QueueLines, Heading, UrlsDistinct;
    var queue := ToQueue(Manifest(policy, base, entries), d);
    forall k | 0 <= k < |queue|
      ensures Readable(codec, queue[k])
      ensures LeadsToDestination(Manifest(policy, base, entries), Found(codec, queue[k], Clean(generation)))
    {
      QueueItemLeads(codec, policy, base, entries, d, Clean(generation), k);
    }
    ManifestUrlsDistinct(codec, policy, base, entries);
    ManifestIs(policy, base, entries);
    QueueIsDistinct(Manifest(policy, base, entries), d);
    QueueReadsBack(codec, digest, disposition, queue, generation);
  }

  // The export never finds a URL twice; it fails exactly on the listing file.
  lemma {:induction false} ExportSucceedsIff(hostOk: string -> bool, codec: Codec, policy: Policy, base: Base, entries: seq<Entry>, d: Disposition)
    requires BaseOk(base) && Parsed(entries) && hostOk(base.netloc)
    ensures Exportable(hostOk, ToQueue(Manifest(policy, base, entries), d)) <==> NoListing(base, Manifest(policy, base, entries), d)
  {
    hide Manifest, BaseOk, SafePath, ItemUrl, Destination, IsSizeToken, QueueUrlOk, Parsed, IsListing;
    var manifest := Manifest(policy, base, entries);
    ManifestUrlsDistinct(codec, policy, base, entries) by {
      ParsedOrder(entries);
    }
    ManifestIs(policy, base, entries);
    QueueIsDistinct(manifest, d);
    forall at | 0 <= at < |manifest| ensures FromListing(base, manifest[at]) {
      ParsedOrder(entries);
      ManifestItemIs(policy, base, entries, manifest[at]);
    }
    if Exportable(hostOk, ToQueue(manifest, d)) {
      forall at | 0 <= at < |manifest| && manifest[at].disposition == d && manifest[at].url.Some?
        ensures !IsListing(base, manifest[at].path)
      {
        var k := InQueue(manifest, d, at);
        QueueUrlOkIff(hostOk, codec, base, manifest[at].path, manifest[at].name);
      }
    }
    if NoListing(base, manifest, d) {
      forall k | 0 <= k < |ToQueue(manifest, d)| ensures QueueUrlOk(hostOk, ToQueue(manifest, d)[k].url) {
        var at := QueueUrls(manifest, d, k);
        QueueUrlOkIff(hostOk, codec, base, manifest[at].path, manifest[at].name);
      }
    }
  }

  lemma {:induction false} ParsedOrder(entries: seq<Entry>)
    requires Parsed(entries)
    ensures forall a, b | 0 <= a < b < |entries| :: entries[a].line < entries[b].line
    ensures forall k | 0 <= k < |entries| :: IsSizeToken(entries[k].sizeToken)
  {
  }

  lemma {:induction false} InQueue(manifest: seq<Item>, d: Disposition, at: nat) returns (k: nat)
    requires at < |manifest| && manifest[at].disposition == d && manifest[at].url.Some?
    ensures k < |ToQueue(manifest, d)| && Some(ToQueue(manifest, d)[k].url) == manifest[at].url
  {
    var n := |manifest| - 1;
    if at < n {
      k := InQueue(manifest[..n], d, at);
    } else {
      k := |ToQueue(manifest, d)| - 1;
    }
  }
}
