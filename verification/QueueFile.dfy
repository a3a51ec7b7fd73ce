/** Exporting a queue from a manifest, and reading it back. */
module QueueFile {
  import opened Prelude
  import opened Strings
  import opened Urls
  import Listing

  // ------------------------------------------------------------ the exported file

  // One manifest line that goes to the queue.
  datatype QueueItem = QueueItem(url: string, sizeToken: string)

  datatype QueueError = UnsafeUrl(url: string) | RepeatedUrl(url: string)

  predicate GenerationChar(c: char) {
    'A' <= c <= 'Z' || 'a' <= c <= 'z' || '0' <= c <= '9' || c in "._:-"
  }

  predicate PlainGeneration(g: string) {
    1 <= |g| <= 128 && forall k | 0 <= k < |g| :: GenerationChar(g[k])
  }

  // The pattern ends with `$`, so it also accepts one newline at the end.
  predicate GenerationOk(g: string) {
    PlainGeneration(g) || (|g| > 0 && g[|g| - 1] == '\n' && PlainGeneration(g[..|g| - 1]))
  }

  // check_queue_url
  predicate QueueUrlOk(hostOk: string -> bool, url: string) {
    var parts := UrlSplit(url);
    var path := StripSlashes(parts.path);
    var slash := Find(path, "/");
    && parts.scheme in ["http", "https"] && hostOk(parts.netloc) && !HasUserInfo(parts.netloc)
    && parts.query == "" && parts.fragment == "" && Ascii(url)
    && (forall k | 0 <= k < |url| :: !Listing.IsSpace(url[k]))
    && slash < |path| && path[slash + 1..] !in Listings
  }

  // The content of a queue line: URL, size and generation.
  function Content(item: QueueItem, generation: Option<string>): string {
    item.url + (" " + ("size=" + item.sizeToken + Tail(generation)))
  }

  function Tail(generation: Option<string>): string {
    if generation.Some? then " " + ("generation=" + generation.value) else ""
  }

  function QueueLine(item: QueueItem, generation: Option<string>): string {
    Content(item, generation) + "\n"
  }

  function QueueLines(items: seq<QueueItem>, generation: Option<string>): string {
    if items == [] then ""
    else QueueLines(items[..|items| - 1], generation) + QueueLine(items[|items| - 1], generation)
  }

  function Heading(manifestDigest: string, disposition: string): string {
    "# " + ("manifest_sha256=" + manifestDigest) + "\n" + ("# " + ("disposition=" + disposition) + "\n")
  }

  predicate UrlsDistinct(items: seq<QueueItem>) {
    forall k, n | 0 <= k < n < |items| :: items[k].url != items[n].url
  }

  predicate Exportable(hostOk: string -> bool, items: seq<QueueItem>) {
    UrlsDistinct(items) && forall k | 0 <= k < |items| :: QueueUrlOk(hostOk, items[k].url)
  }

  // The URLs of the first `k` items.
  function FirstUrls(items: seq<QueueItem>, k: nat): set<string>
    requires k <= |items|
  {
    set n | 0 <= n < k :: items[n].url
  }

  lemma {:induction false} ExportableGrows(hostOk: string -> bool, items: seq<QueueItem>, k: nat)
    requires k < |items|
    ensures Exportable(hostOk, items[..k + 1])
            <==> Exportable(hostOk, items[..k]) && QueueUrlOk(hostOk, items[k].url) && items[k].url !in FirstUrls(items, k)
    ensures Exportable(hostOk, items) ==> Exportable(hostOk, items[..k + 1])
  {
    hide QueueUrlOk;
    var front, more := items[..k], items[..k + 1];
    assert forall n | 0 <= n < k :: more[n] == front[n];
    if Exportable(hostOk, more) {
      assert UrlsDistinct(more) && more[k] == items[k];
      forall n | 0 <= n < k ensures items[n].url != items[k].url {
        assert more[n].url != more[k].url;
      }
    }
    if Exportable(hostOk, front) && items[k].url !in FirstUrls(items, k) {
      forall n | 0 <= n < k ensures more[n].url != more[k].url {
        assert items[n].url in FirstUrls(items, k);
      }
    }
  }

  lemma {:induction false} LinesGrow(items: seq<QueueItem>, generation: Option<string>, k: nat)
    requires k < |items|
    ensures QueueLines(items[..k + 1], generation) == QueueLines(items[..k], generation) + QueueLine(items[k], generation)
    ensures FirstUrls(items, k + 1) == FirstUrls(items, k) + {items[k].url}
  {
    assert items[..k + 1][..k] == items[..k];
  }

  lemma {:induction false} NothingExported(hostOk: string -> bool, items: seq<QueueItem>, generation: Option<string>)
    ensures items[..0] == [] && Exportable(hostOk, items[..0]) && QueueLines(items[..0], generation) == ""
    ensures FirstUrls(items, 0) == {}
  {
  }

  // The emit loop: it stops at the first unsafe or repeated URL.
  method Export(hostOk: string -> bool, manifestDigest: string, disposition: string, items: seq<QueueItem>,
                generation: Option<string>)
    returns (r: Result<string, QueueError>)
    ensures r.Ok? <==> Exportable(hostOk, items)
    ensures r.Ok? ==> r.value == Heading(manifestDigest, disposition) + QueueLines(items, generation)
  {
    hide QueueUrlOk, Exportable, QueueLines, QueueLine, Heading, FirstUrls;
    var text := Heading(manifestDigest, disposition);
    var seen: set<string> := {};
    var k := 0;
    NothingExported(hostOk, items, generation);
    while k < |items|
      invariant 0 <= k <= |items| && Exportable(hostOk, items[..k])
      invariant text == Heading(manifestDigest, disposition) + QueueLines(items[..k], generation)
      invariant seen == FirstUrls(items, k)
    {
      var item := items[k];
      ExportableGrows(hostOk, items, k);
      LinesGrow(items, generation, k);
      if !QueueUrlOk(hostOk, item.url) {
        return Err(UnsafeUrl(item.url));
      }
      if item.url in seen {
        return Err(RepeatedUrl(item.url));
      }
      seen := seen + {item.url};
      text := text + QueueLine(item, generation);
      k := k + 1;
    }
    assert items[..k] == items;
    r := Ok(text);
  }

  // ------------------------------------------------------------ reading

  datatype QueueEntry = QueueEntry(url: string, path: PurePath, size: Option<string>, sha256: Option<string>,
                                   generation: Option<string>)

  predicate Break(c: char) {
    c == '\n' || c == '\r'
  }

  // Text lines; a carriage return and a newline leave a blank line, which nobody reads.
  function LinesOf(text: string): (lines: seq<string>)
    ensures |lines| > 0
  {
    if text == "" then [""]
    else if Break(text[0]) then [""] + LinesOf(text[1..])
    else
      var rest := LinesOf(text[1..]);
      [[text[0]] + rest[0]] + rest[1..]
  }

  // str.split(): the runs of characters that are not white space
  function Words(s: string): (words: seq<string>)
    ensures forall k | 0 <= k < |words| :: words[k] != ""
  {
    if s == "" then []
    else if Listing.IsSpace(s[0]) then Words(s[1..])
    else
      var n := Listing.TokenLength(s);
      [s[..n]] + Words(s[n..])
  }

  predicate HexChar(c: char) {
    '0' <= c <= '9' || 'a' <= c <= 'f' || 'A' <= c <= 'F'
  }

  predicate HexDigest(s: string) {
    |s| == 64 && forall k | 0 <= k < 64 :: HexChar(s[k])
  }

  const TokenKeys := ["size", "sha256", "generation"]

  // One `key=value` token on top of the tokens before it; None is ValueError.
  function AddToken(tokens: map<string, string>, field: string): Option<map<string, string>> {
    var at := Find(field, "=");
    if at == |field| then None
    else
      var key, value := field[..at], field[at + 1..];
      if key !in TokenKeys || key in tokens || value == "" || (key == "sha256" && !HexDigest(value)) then None
      else Some(tokens[key := if key == "sha256" then LowerAll(value) else value])
  }

  function Tokens(fields: seq<string>): Option<map<string, string>> {
    if fields == [] then Some(map[])
    else
      var before := Tokens(fields[..|fields| - 1]);
      if before.None? then None else AddToken(before.value, fields[|fields| - 1])
  }

  method ParseTokens(fields: seq<string>) returns (tokens: Option<map<string, string>>)
    ensures tokens == Tokens(fields)
  {
    var found: map<string, string> := map[];
    var k := 0;
    assert fields[..0] == [];
    while k < |fields|
      invariant 0 <= k <= |fields| && Tokens(fields[..k]) == Some(found)
    {
      assert fields[..k + 1][..k] == fields[..k];
      var next := AddToken(found, fields[k]);
      if next.None? {
        NoTokens(fields, k + 1);
        return None;
      }
      found := next.value;
      k := k + 1;
    }
    assert fields[..k] == fields;
    tokens := Some(found);
  }

  lemma {:induction false} NoTokens(fields: seq<string>, n: nat)
    requires n <= |fields| && Tokens(fields[..n]).None?
    ensures Tokens(fields).None?
    decreases |fields| - n
  {
    if n < |fields| {
      assert fields[..n + 1][..n] == fields[..n];
      NoTokens(fields, n + 1);
    } else {
      assert fields[..n] == fields;
    }
  }

  function Token(tokens: map<string, string>, key: string): Option<string> {
    if key in tokens then Some(tokens[key]) else None
  }

  datatype Reading = Reading(entries: seq<QueueEntry>, seen: set<string>)


  function ReadLine(codec: Codec, line: string, before: Reading): Reading {
    var words := Words(line);
    if words == [] || words[0][0] == '#' || words[0] in before.seen then before
    else
      var tokens := Tokens(words[1..]);
      if tokens.None? then before
      else
        var seen, path := before.seen + {words[0]}, RelativePath(codec, words[0]);
        if path.None? then Reading(before.entries, seen)
        else
          var entry := QueueEntry(words[0], path.value, Token(tokens.value, "size"), Token(tokens.value, "sha256"),
                                  Token(tokens.value, "generation"));
          Reading(before.entries + [entry], seen)
  }

  function ReadLines(codec: Codec, lines: seq<string>): Reading {
    if lines == [] then Reading([], {})
    else ReadLine(codec, lines[|lines| - 1], ReadLines(codec, lines[..|lines| - 1]))
  }

  function AllLines(texts: seq<string>): seq<string> {
    if texts == [] then [] else AllLines(texts[..|texts| - 1]) + LinesOf(texts[|texts| - 1])
  }

  // The entries of all queue files, in order; a URL is read once.
  method ReadQueues(codec: Codec, texts: seq<string>) returns (entries: seq<QueueEntry>)
    ensures entries == ReadLines(codec, AllLines(texts)).entries
  {
    hide Words, Tokens, RelativePath, LinesOf;
    entries := [];
    var seen: set<string> := {};
    var t := 0;
    assert texts[..0] == [];
    while t < |texts|
      invariant 0 <= t <= |texts| && ReadLines(codec, AllLines(texts[..t])) == Reading(entries, seen)
    {
      var lines := LinesOf(texts[t]);
      ghost var before := AllLines(texts[..t]);
      assert texts[..t + 1][..t] == texts[..t];
      var k := 0;
      assert before + lines[..0] == before;
      while k < |lines|
        invariant 0 <= k <= |lines| && ReadLines(codec, before + lines[..k]) == Reading(entries, seen)
      {
        assert (before + lines[..k + 1])[..|before| + k] == before + lines[..k];
        assert (before + lines[..k + 1])[|before| + k] == lines[k];
        var words := Words(lines[k]);
        k := k + 1;
        if words == [] || words[0][0] == '#' || words[0] in seen {
          continue;
        }
        var tokens := ParseTokens(words[1..]);
        if tokens.None? {
          continue;
        }
        seen := seen + {words[0]};
        var path := RelativePath(codec, words[0]);
        if path.None? {
          continue;
        }
        entries := entries + [QueueEntry(words[0], path.value, Token(tokens.value, "size"), Token(tokens.value, "sha256"),
                                         Token(tokens.value, "generation"))];
      }
      assert lines[..k] == lines;
      t := t + 1;
    }
    assert texts[..t] == texts;
  }
}
