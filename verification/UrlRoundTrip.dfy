/** Where an exported URL leads: back to the destination that the manifest recorded. */
module UrlRoundTrip {
  import opened Prelude
  import opened Strings
  import opened Urls
  import Listing

  // ------------------------------------------------------------ the printer

  predicate Control(c: char) {
    c as int < 0x20 || c as int == 0x7F
  }

  predicate SafeSegment(s: string) {
    s != "" && s != "." && s != ".." && forall k | 0 <= k < |s| :: !Control(s[k])
  }

  // unsafe_path_reason finds none.
  predicate SafePath(path: string, name: string) {
    '/' !in name && forall k | 0 <= k < |Split(path, '/')| :: SafeSegment(Split(path, '/')[k])
  }

  // `segments` is the collection, or the collection and "data".
  datatype Base = Base(scheme: string, netloc: string, segments: seq<string>)

  function Prefix(b: Base): string {
    Join(b.segments, '/')
  }

  function BaseUrl(b: Base): string {
    b.scheme + "://" + b.netloc + "/" + Prefix(b)
  }

  function StripEnd(s: string): string {
    if s != "" && s[|s| - 1] == '/' then StripEnd(s[..|s| - 1]) else s
  }

  // parse_base_url; `hostOk` stands for the host name and port checks.
  function ParseBaseUrl(hostOk: string -> bool, text: string): Option<Base> {
    var parts := UrlSplit(text);
    var segments := Split(StripEnd(StripSlashes(parts.path)), '/');
    if parts.scheme !in ["http", "https"] || !hostOk(parts.netloc) || HasUserInfo(parts.netloc)
       || parts.query != "" || parts.fragment != "" || |segments| > 2 || segments[0] == ""
       || (|segments| == 2 && segments[1] != "data") || segments[0] in [".", ".."] || !Ascii(text)
       || (exists k :: 0 <= k < |text| && Listing.IsSpace(text[k])) then None
    else Some(Base(parts.scheme, parts.netloc, segments))
  }

  function EncodedSegments(segments: seq<string>): (encoded: seq<string>)
    ensures |encoded| == |segments|
  {
    seq(|segments|, k requires 0 <= k < |segments| => EncodeSegment(segments[k]))
  }

  function ItemUrl(b: Base, path: string): string {
    BaseUrl(b) + "/" + Join(EncodedSegments(Split(path, '/')), '/')
  }

  function Destination(b: Base, path: string): string {
    Prefix(b) + "/" + path
  }

  // ------------------------------------------------------------ what a base URL is

  predicate BaseOk(b: Base) {
    && b.scheme in ["http", "https"] && !HasUserInfo(b.netloc) && (forall x | x in b.netloc :: x !in "/?#")
    && 1 <= |b.segments| <= 2 && (|b.segments| == 2 ==> b.segments[1] == "data")
    && b.segments[0] != "" && b.segments[0] != "." && b.segments[0] != ".."
    && (forall x | x in b.segments[0] :: x !in "/?#" && Printable(x)) && forall x | x in b.netloc :: Printable(x)
  }

  // ASCII and no white space
  predicate Printable(x: char) {
    x as int < 128 && !Listing.IsSpace(x)
  }

  lemma {:induction false} StripEndTake(s: string)
    ensures StripEnd(s) <= s
  {
    if s != "" && s[|s| - 1] == '/' {
      StripEndTake(s[..|s| - 1]);
    }
  }

  lemma {:induction false} StripSlashesDrop(s: string, x: char)
    ensures x in StripSlashes(s) ==> x in s
  {
    if s != "" && s[0] == '/' {
      StripSlashesDrop(s[1..], x);
    }
  }

  lemma {:induction false} SplitTailClean(scheme: string, netloc: string, rest: string, x: char)
    ensures x in SplitTail(scheme, netloc, rest).path ==> x != '?' && x != '#' && x in rest
    ensures SplitTail(scheme, netloc, rest).netloc == netloc
  {
  }

  lemma {:induction false} InSuffix(s: string, from: nat, x: char)
    requires from <= |s| && x in s[from..]
    ensures x in s
  {
  }

  lemma {:induction false} SplitNetlocClean(scheme: string, rest: string, x: char)
    ensures x in SplitNetloc(scheme, rest).path ==> x != '?' && x != '#' && x in rest
    ensures x in SplitNetloc(scheme, rest).netloc ==> x !in "/?#" && x in rest
  {
    hide SplitTail;
    if |rest| >= 2 && rest[..2] == "//" {
      var end := Find(rest[2..], "/?#");
      SplitTailClean(scheme, rest[2..][..end], rest[2..][end..], x);
      if x in rest[2..] {
        InSuffix(rest, 2, x);
      }
    } else {
      SplitTailClean(scheme, "", rest, x);
    }
  }

  lemma {:induction false} UrlSplitClean(text: string, x: char)
    ensures x in UrlSplit(text).path ==> x != '?' && x != '#' && x in text
    ensures x in UrlSplit(text).netloc ==> x !in "/?#" && x in text
  {
    hide SplitNetloc, LowerAll, SchemeLength;
    var n := SchemeLength(text);
    if n > 0 {
      SplitNetlocClean(LowerAll(text[..n]), text[n + 1..], x);
      if x in text[n + 1..] {
        InSuffix(text, n + 1, x);
      }
    } else {
      SplitNetlocClean("", text, x);
    }
  }

  lemma {:induction false} TextIsPrintable(text: string, x: char)
    requires x in text && Ascii(text) && !exists k :: 0 <= k < |text| && Listing.IsSpace(text[k])
    ensures Printable(x)
  {
    hide Listing.IsSpace;
    var k :| 0 <= k < |text| && text[k] == x;
  }

  lemma {:induction false} ParsedBaseOk(hostOk: string -> bool, text: string)
    ensures ParseBaseUrl(hostOk, text).Some? ==> BaseOk(ParseBaseUrl(hostOk, text).value)
  {
    hide UrlSplit, HasUserInfo, StripEnd, StripSlashes, Listing.IsSpace;
    var b := ParseBaseUrl(hostOk, text);
    if b.Some? {
      var path := UrlSplit(text).path;
      var stripped := StripEnd(StripSlashes(path));
      JoinSplit(stripped, '/');
      forall x | x in b.value.segments[0] ensures x !in "/?#" && Printable(x) {
        StripEndTake(StripSlashes(path));
        FirstPartChars(stripped, '/', x);
        assert x in StripSlashes(path);
        StripSlashesDrop(path, x);
        UrlSplitClean(text, x);
        TextIsPrintable(text, x);
      }
      forall x | x in b.value.netloc ensures x !in "/?#" && Printable(x) {
        UrlSplitClean(text, x);
        TextIsPrintable(text, x);
      }
    }
  }

  lemma {:induction false} FirstPartChars(s: string, c: char, x: char)
    requires x in Split(s, c)[0]
    ensures x in s && x != c
  {
    JoinSplit(s, c);
    var parts := Split(s, c);
    assert Free(parts[0], c);
    if |parts| == 1 {
    } else {
      assert Join(parts, c) == parts[0] + [c] + Join(parts[1..], c);
    }
  }

  // ------------------------------------------------------------ the parser undoes the printer

  // The path segments behind the collection, before and after encoding.
  function Behind(b: Base, path: string): seq<string>
    requires |b.segments| >= 1
  {
    b.segments[1..] + Split(path, '/')
  }

  predicate AllSafe(segments: seq<string>) {
    forall k | 0 <= k < |segments| :: SafeSegment(segments[k])
  }

  lemma {:induction false} BehindIsSafe(b: Base, path: string, name: string)
    requires BaseOk(b) && SafePath(path, name)
    ensures AllSafe(Behind(b, path)) && |Behind(b, path)| > 0
    ensures forall k | 0 <= k < |Behind(b, path)| :: Free(Behind(b, path)[k], '/')
  {
    JoinSplit(path, '/');
  }

  // "data" encodes to itself.
  lemma {:induction false} DataIsPlain()
    ensures EncodeSegment("data") == "data"
  {
    assert EncodeSegment("a") == EncodeUrlChar('a') + EncodeSegment("");
    assert EncodeSegment("ta") == EncodeUrlChar('t') + EncodeSegment("a");
    assert EncodeSegment("ata") == EncodeUrlChar('a') + EncodeSegment("ta");
    assert "ta"[1..] == "a" && "ata"[1..] == "ta" && "data"[1..] == "ata";
  }

  // The text behind the collection is the joined encoding of the segments behind it.
  lemma {:induction false} UrlTail(b: Base, path: string)
    requires BaseOk(b)
    ensures BaseUrl(b) + "/" + Join(EncodedSegments(Split(path, '/')), '/')
            == b.scheme + "://" + b.netloc + ("/" + b.segments[0] + "/" + Join(EncodedSegments(Behind(b, path)), '/'))
  {
    hide EncodeSegment, Split, HasUserInfo;
    var tail := EncodedSegments(Split(path, '/'));
    if |b.segments| == 2 {
      DataIsPlain();
      assert b.segments == [b.segments[0]] + ["data"];
      assert EncodedSegments(Behind(b, path)) == ["data"] + tail;
      JoinMore(b.segments[0], ["data"], '/');
      JoinMore("data", tail, '/');
      assert Join(["data"], '/') == "data";
    } else {
      assert Behind(b, path) == Split(path, '/');
      assert b.segments == [b.segments[0]] && Join(b.segments, '/') == b.segments[0];
    }
  }

  lemma {:induction false} EncodedIsSafe(segments: seq<string>)
    requires AllSafe(segments) && |segments| > 0
    ensures var text := Join(EncodedSegments(segments), '/');
            && '?' !in text && '#' !in text && Split(text, '/') == EncodedSegments(segments) && text != "" && text[0] != '/'
  {
    hide EncodeSegment, Split;
    var encoded := EncodedSegments(segments);
    forall k | 0 <= k < |encoded| ensures Free(encoded[k], '/') && encoded[k] != "" && forall x | x in encoded[k] :: UrlSafe(x) {
      EncodedSegmentSafe(segments[k]);
    }
    SplitJoin(encoded, '/');
    var text := Join(encoded, '/');
    forall x | x in text ensures x == '/' || UrlSafe(x) {
      JoinCharacters(encoded, '/', x);
    }
    assert text == encoded[0] || text == encoded[0] + ['/'] + Join(encoded[1..], '/');
    assert encoded[0][0] in encoded[0];
  }

  lemma {:induction false} AllKept(parts: seq<string>)
    requires forall k | 0 <= k < |parts| :: parts[k] != "" && parts[k] != "."
    ensures Kept(parts) == parts
  {
    if parts != [] {
      AllKept(parts[1..]);
      assert [parts[0]] + parts[1..] == parts;
    }
  }

  lemma {:induction false} EncodedIsKept(segments: seq<string>)
    requires AllSafe(segments)
    ensures Kept(EncodedSegments(segments)) == EncodedSegments(segments)
  {
    var encoded := EncodedSegments(segments);
    forall k | 0 <= k < |encoded| ensures encoded[k] != "" && encoded[k] != "." {
      EncodedSegmentSafe(segments[k]);
      if encoded[k] == "." {
        DotsEncodePlain(segments[k]);
      }
    }
    AllKept(encoded);
  }

  lemma {:induction false} UnquoteAllEncoded(codec: Codec, segments: seq<string>)
    ensures UnquoteAll(codec, EncodedSegments(segments)) == segments
  {
    forall k | 0 <= k < |segments| ensures Unquote(codec, EncodeSegment(segments[k])) == segments[k] {
      UnquoteEncode(codec, segments[k]);
    }
  }

  lemma {:induction false} PureSegment(s: string)
    requires SafeSegment(s) && Free(s, '/')
    ensures Pure(s) == PurePath(false, [s])
  {
    SplitFree(s, '/');
    assert s[0] in s;
    assert Kept([s][1..]) == [];
  }

  lemma {:induction false} JoinedSegments(segments: seq<string>)
    requires AllSafe(segments) && forall k | 0 <= k < |segments| :: Free(segments[k], '/')
    ensures JoinedAll(segments) == PurePath(false, segments)
  {
    if segments != [] {
      var n := |segments| - 1;
      JoinedSegments(segments[..n]);
      PureSegment(segments[n]);
      assert segments == segments[..n] + [segments[n]];
    }
  }

  // The listing file itself has no URL: "ALL_FILES", and "data/ALL_FILES" below a plain collection.
  predicate IsListing(b: Base, path: string) {
    path == "ALL_FILES" || (|b.segments| == 1 && path == "data/ALL_FILES")
  }

  lemma {:induction false} PlainText(s: string)
    requires forall k | 0 <= k < |s| :: Unreserved(s[k])
    ensures EncodeSegment(s) == s
  {
    if s != "" {
      PlainText(s[1..]);
      assert [s[0]] + s[1..] == s;
    }
  }

  lemma {:induction false} ListingTexts()
    ensures Join(EncodedSegments(["ALL_FILES"]), '/') == "ALL_FILES"
    ensures Join(EncodedSegments(["data", "ALL_FILES"]), '/') == "data/ALL_FILES"
    ensures AllSafe(["ALL_FILES"]) && AllSafe(["data", "ALL_FILES"])
  {
    hide EncodeSegment;
    PlainText("ALL_FILES");
    PlainText("data");
    assert EncodedSegments(["data", "ALL_FILES"]) == ["data"] + ["ALL_FILES"];
    JoinMore("data", ["ALL_FILES"], '/');
    assert Join(["ALL_FILES"], '/') == "ALL_FILES";
  }

  lemma {:induction false} SameTextSameSegments(codec: Codec, a: seq<string>, b: seq<string>)
    requires AllSafe(a) && AllSafe(b) && |a| > 0 && |b| > 0
    ensures Join(EncodedSegments(a), '/') == Join(EncodedSegments(b), '/') <==> a == b
  {
    hide Split, Join, Kept;
    EncodedIsSafe(a);
    EncodedIsSafe(b);
    UnquoteAllEncoded(codec, a);
    UnquoteAllEncoded(codec, b);
  }

  lemma {:induction false} SamePathSameSegments(a: string, b: string)
    ensures Split(a, '/') == Split(b, '/') <==> a == b
  {
    JoinSplit(a, '/');
    JoinSplit(b, '/');
  }

  lemma {:induction false} ListingSplits()
    ensures Split("ALL_FILES", '/') == ["ALL_FILES"] && Split("data/ALL_FILES", '/') == ["data", "ALL_FILES"]
  {
    hide Split;
    SplitFree("ALL_FILES", '/');
    SplitFirst("data", "ALL_FILES", '/');
    assert "data" + ['/'] + "ALL_FILES" == "data/ALL_FILES";
  }

  // Encoding neither makes nor hides a listing name.
  lemma {:induction false} ListingIff(b: Base, path: string, name: string, codec: Codec)
    requires BaseOk(b) && SafePath(path, name)
    ensures Join(EncodedSegments(Behind(b, path)), '/') in Listings <==> IsListing(b, path)
  {
    hide Split, Join, EncodeSegment, SafeSegment;
    var segments := Behind(b, path);
    BehindIsSafe(b, path, name);
    EncodedIsSafe(segments);
    ListingTexts();
    ListingSplits();
    SameTextSameSegments(codec, segments, ["ALL_FILES"]);
    SameTextSameSegments(codec, segments, ["data", "ALL_FILES"]);
    SamePathSameSegments(path, "ALL_FILES");
    SamePathSameSegments(path, "data/ALL_FILES");
    if |b.segments| == 2 {
      assert segments == ["data"] + Split(path, '/');
      assert segments[1..] == Split(path, '/');
    } else {
      assert segments == Split(path, '/');
    }
  }

  // What the downloader makes of the collection name.
  predicate PlainCollection(codec: Codec, collection: string) {
    Pure(Unquote(codec, collection)) == PurePath(false, [collection]) && '\0' !in collection
  }

  lemma {:induction false} NoPercentIsPlain(codec: Codec, b: Base)
    requires BaseOk(b) && '%' !in b.segments[0] && '\0' !in b.segments[0]
    ensures PlainCollection(codec, b.segments[0])
  {
    var c := b.segments[0];
    SplitFree(c, '/');
    assert c[0] in c;
    assert Kept([c][1..]) == [];
  }

  // The URL of an item leads to the collection, unquoted, and the segments behind it.
  lemma {:induction false} ItemUrlLeads(codec: Codec, b: Base, path: string, name: string)
    requires BaseOk(b) && SafePath(path, name)
    ensures RelativePath(codec, ItemUrl(b, path))
            == if IsListing(b, path) then None
               else var p := Joined(Pure(Unquote(codec, b.segments[0])), PurePath(false, Behind(b, path)));
                    if IsUnsafe(p) then None else Some(p)
  {
    hide Split, Join, EncodeSegment, SafeSegment, IsUnsafe, Unquote, JoinedAll, Kept, RelativePath, HasUserInfo;
    var c, segments := b.segments[0], Behind(b, path);
    BehindIsSafe(b, path, name);
    EncodedIsSafe(segments);
    ListingIff(b, path, name, codec);
    UrlTail(b, path);
    var text := Join(EncodedSegments(segments), '/');
    ItemUrlSplits(b, c, text);
    CollectionFound(codec, ItemUrl(b, path), b.scheme, b.netloc, c, text);
    EncodedIsKept(segments);
    UnquoteAllEncoded(codec, segments);
    JoinedSegments(segments);
    assert [] + EncodedSegments(segments) == EncodedSegments(segments);
  }

  lemma {:induction false} CollectionFound(codec: Codec, url: string, scheme: string, netloc: string, c: string, text: string)
    requires UrlSplit(url) == Parts(scheme, netloc, "/" + c + "/" + text, "", "") && !HasUserInfo(netloc)
    requires c != "" && forall x | x in c :: x !in "/?#"
    ensures RelativePath(codec, url) == BehindCollection(codec, c, text)
  {
    hide UrlSplit, HasUserInfo, BehindCollection;
    assert c[0] in c;
    assert StripSlashes("/" + c + "/" + text) == c + "/" + text by {
      assert ("/" + c + "/" + text)[1..] == c + "/" + text;
    }
    FindSlash(c, text);
    assert (c + "/" + text)[..|c|] == c && (c + "/" + text)[|c| + 1..] == text;
  }

  lemma {:induction false} FindSlash(c: string, text: string)
    requires forall x | x in c :: x !in "/?#"
    ensures Find(c + "/" + text, "/") == |c|
  {
    assert c + "/" + text == c + ("/" + text);
    FindIs(c, "/" + text, "/");
  }

  lemma {:induction false} ItemUrlSplits(b: Base, c: string, text: string)
    requires BaseOk(b) && c == b.segments[0] && '?' !in text && '#' !in text
    ensures UrlSplit(b.scheme + "://" + b.netloc + ("/" + c + "/" + text))
            == Parts(b.scheme, b.netloc, "/" + c + "/" + text, "", "")
  {
    hide UrlSplit;
    assert LowerAll("http") == "http" && LowerAll("https") == "https";
    UrlSplitIs(b.scheme, b.netloc, "/" + c + "/" + text);
  }

  lemma {:induction false} DestinationSplits(b: Base, path: string)
    requires BaseOk(b)
    ensures Split(Destination(b, path), '/') == [b.segments[0]] + Behind(b, path)
  {
    hide Split;
    JoinSplit(path, '/');
    JoinJoins(b.segments, Split(path, '/'), '/');
    assert Destination(b, path) == Join(b.segments + Split(path, '/'), '/');
    assert b.segments + Split(path, '/') == [b.segments[0]] + Behind(b, path);
    SplitJoin(b.segments + Split(path, '/'), '/');
  }

  // Queue round trip for one item: whatever the path, the downloader finds the destination of the
  // manifest if and only if it leaves the collection name as it is.
  lemma {:induction false} UrlRoundTripIff(codec: Codec, b: Base, path: string, name: string)
    requires BaseOk(b) && SafePath(path, name) && !IsListing(b, path)
    ensures RelativePath(codec, ItemUrl(b, path)) == Some(PurePath(false, Split(Destination(b, path), '/')))
            <==> PlainCollection(codec, b.segments[0])
  {
    hide Split, Unquote, RelativePath, Pure, ItemUrl, Destination, SafePath, SafeSegment;
    var c, segments := b.segments[0], Behind(b, path);
    ItemUrlLeads(codec, b, path, name);
    DestinationSplits(b, path);
    BehindIsSafe(b, path, name);
    var u := Pure(Unquote(codec, c));
    var p := Joined(u, PurePath(false, segments));
    if u.parts + segments == [c] + segments {
      assert |u.parts| == 1 && (u.parts + segments)[0] == u.parts[0];
      assert u.parts == [c];
    }
    if u == PurePath(false, [c]) {
      UnsafeIff(c, segments);
      assert p == PurePath(false, [c] + segments);
    }
  }

  lemma {:induction false} UnsafeIff(c: string, segments: seq<string>)
    requires AllSafe(segments) && c != ".."
    ensures IsUnsafe(PurePath(false, [c] + segments)) <==> '\0' in c
  {
    var p := PurePath(false, [c] + segments);
    if '\0' in c {
      assert '\0' in p.parts[0];
    }
    forall k | 1 <= k < |p.parts| ensures p.parts[k] != ".." && '\0' !in p.parts[k] {
      assert p.parts[k] == segments[k - 1] && SafeSegment(segments[k - 1]);
    }
  }

  // No two safe paths share a URL.
  lemma {:induction false} ItemUrlInjective(codec: Codec, b: Base, p: string, q: string, pName: string, qName: string)
    requires BaseOk(b) && SafePath(p, pName) && SafePath(q, qName) && ItemUrl(b, p) == ItemUrl(b, q)
    ensures p == q
  {
    hide Split, Join, EncodeSegment, SafeSegment;
    var head := BaseUrl(b) + "/";
    var x, y := Join(EncodedSegments(Split(p, '/')), '/'), Join(EncodedSegments(Split(q, '/')), '/');
    assert (head + x)[|head|..] == x && (head + y)[|head|..] == y;
    SameTextSameSegments(codec, Split(p, '/'), Split(q, '/'));
    SamePathSameSegments(p, q);
  }
}
