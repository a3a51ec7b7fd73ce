/** Reading an exported queue gives back exactly what was exported. */
module QueueRoundTrip {
  import opened Prelude
  import opened Strings
  import opened Urls
  import opened QueueFile
  import Listing

  // ------------------------------------------------------------ lines

  predicate Unbroken(s: string) {
    forall k | 0 <= k < |s| :: !Break(s[k])
  }

  function LastLine(text: string): string {
    LinesOf(text)[|LinesOf(text)| - 1]
  }

  function FrontLines(text: string): seq<string> {
    LinesOf(text)[..|LinesOf(text)| - 1]
  }

  // The last line of `x` and the first of `y` become one.
  function Seam(x: seq<string>, y: seq<string>): (lines: seq<string>)
    requires |x| > 0 && |y| > 0
    ensures |lines| > 0
  {
    x[..|x| - 1] + [x[|x| - 1] + y[0]] + y[1..]
  }

  lemma {:induction false} SeamBehindLine(x: seq<string>, y: seq<string>)
    requires |x| > 0 && |y| > 0
    ensures Seam([""] + x, y) == [""] + Seam(x, y)
  {
    assert ([""] + x)[..|x|] == [""] + x[..|x| - 1];
  }

  lemma {:induction false} SeamBehindChar(c: char, x: seq<string>, y: seq<string>)
    requires |x| > 0 && |y| > 0
    ensures Seam([[c] + x[0]] + x[1..], y) == [[c] + Seam(x, y)[0]] + Seam(x, y)[1..]
  {
    if |x| == 1 {
      assert [c] + (x[0] + y[0]) == [c] + x[0] + y[0];
    } else {
      var z := [[c] + x[0]] + x[1..];
      assert z[..|z| - 1] == [[c] + x[0]] + x[1..|x| - 1];
      assert Seam(x, y)[0] == x[0] && Seam(x, y)[1..] == x[1..|x| - 1] + [x[|x| - 1] + y[0]] + y[1..];
    }
  }

  lemma {:induction false} SeamOfNothing(y: seq<string>)
    requires |y| > 0
    ensures Seam([""], y) == y
  {
    assert "" + y[0] == y[0];
  }

  lemma {:induction false} LinesJoin(a: string, b: string)
    ensures LinesOf(a + b) == Seam(LinesOf(a), LinesOf(b))
  {
    hide Seam;
    if a == "" {
      assert a + b == b;
      SeamOfNothing(LinesOf(b));
    } else {
      LinesJoin(a[1..], b);
      assert (a + b)[1..] == a[1..] + b;
      if Break(a[0]) {
        SeamBehindLine(LinesOf(a[1..]), LinesOf(b));
      } else {
        SeamBehindChar(a[0], LinesOf(a[1..]), LinesOf(b));
      }
    }
  }

  lemma {:induction false} UnbrokenLine(s: string)
    requires Unbroken(s)
    ensures LinesOf(s + "\n") == [s, ""]
  {
    if s == "" {
      assert ("" + "\n")[1..] == "";
    } else {
      UnbrokenLine(s[1..]);
      assert (s + "\n")[1..] == s[1..] + "\n";
      assert [s[0]] + s[1..] == s;
    }
  }

  // A blank last line is read as nothing.
  lemma {:induction false} BlankLine(codec: Codec, lines: seq<string>)
    ensures ReadLines(codec, lines + [""]) == ReadLines(codec, lines)
  {
    hide Tokens, RelativePath;
    assert (lines + [""])[..|lines|] == lines;
  }

  // One more line behind a text that ends with a line break.
  lemma {:induction false} AppendLine(codec: Codec, text: string, line: string)
    requires LastLine(text) == "" && Unbroken(line)
    ensures LastLine(text + (line + "\n")) == ""
    ensures ReadLines(codec, LinesOf(text + (line + "\n"))) == ReadLine(codec, line, ReadLines(codec, LinesOf(text)))
  {
    hide LinesOf, ReadLine;
    LinesJoin(text, line + "\n");
    UnbrokenLine(line);
    var front := FrontLines(text);
    BlankLine(codec, front);
    assert LinesOf(text) == front + [""];
    assert "" + line == line;
    assert [line, ""][1..] == [""];
    assert LinesOf(text + (line + "\n")) == front + [line] + [""];
    BlankLine(codec, front + [line]);
    assert (front + [line])[..|front|] == front;
  }

  // ------------------------------------------------------------ words

  predicate Word(s: string) {
    s != "" && forall k | 0 <= k < |s| :: !Listing.IsSpace(s[k])
  }

  lemma {:induction false} TokenLengthIs(w: string, rest: string)
    requires forall k | 0 <= k < |w| :: !Listing.IsSpace(w[k])
    requires rest == "" || Listing.IsSpace(rest[0])
    ensures Listing.TokenLength(w + rest) == |w|
  {
    hide Listing.IsSpace;
    if w == "" {
      assert w + rest == rest;
    } else {
      TokenLengthIs(w[1..], rest);
      assert (w + rest)[1..] == w[1..] + rest;
    }
  }

  lemma {:induction false} FirstWord(w: string, rest: string)
    requires Word(w) && (rest == "" || Listing.IsSpace(rest[0]))
    ensures Words(w + rest) == [w] + Words(rest)
  {
    hide Listing.IsSpace;
    TokenLengthIs(w, rest);
    assert (w + rest)[..|w|] == w && (w + rest)[|w|..] == rest;
  }

  lemma {:induction false} BlankFirst(rest: string)
    ensures Words(" " + rest) == Words(rest)
  {
    assert Listing.IsSpace(' ');
    assert (" " + rest)[1..] == rest;
  }

  function Fields(item: QueueItem, generation: Option<string>): seq<string> {
    ["size=" + item.sizeToken] + if generation.Some? then ["generation=" + generation.value] else []
  }

  lemma {:induction false} KeyedWord(key: string, value: string)
    requires Word(key) && Word(value)
    ensures Word(key + value)
  {
  }

  lemma {:induction false} ContentWords(item: QueueItem, generation: Option<string>)
    requires Word(item.url) && Word(item.sizeToken) && (generation.Some? ==> Word(generation.value))
    ensures Words(Content(item, generation)) == [item.url] + Fields(item, generation)
  {
    hide Words;
    assert Word("size=") && Word("generation=");
    KeyedWord("size=", item.sizeToken);
    FirstWord(item.url, " " + ("size=" + item.sizeToken + Tail(generation)));
    BlankFirst("size=" + item.sizeToken + Tail(generation));
    FirstWord("size=" + item.sizeToken, Tail(generation));
    NoWords();
    if generation.Some? {
      KeyedWord("generation=", generation.value);
      BlankFirst("generation=" + generation.value);
      assert "generation=" + generation.value + "" == "generation=" + generation.value;
      FirstWord("generation=" + generation.value, "");
    }
  }

  lemma {:induction false} NoWords()
    ensures Words("") == []
  {
  }

  // ------------------------------------------------------------ tokens

  lemma {:induction false} KeyValue(key: string, value: string)
    requires '=' !in key
    ensures Find(key + "=" + value, "=") == |key|
    ensures (key + "=" + value)[..|key|] == key && (key + "=" + value)[|key| + 1..] == value
  {
    FindIs(key, "=" + value, "=");
    assert key + "=" + value == key + ("=" + value);
  }

  lemma {:induction false} FieldTokens(item: QueueItem, generation: Option<string>)
    requires item.sizeToken != "" && (generation.Some? ==> generation.value != "")
    ensures var tokens := Tokens(Fields(item, generation));
            && tokens.Some? && Token(tokens.value, "size") == Some(item.sizeToken)
            && Token(tokens.value, "sha256") == None && Token(tokens.value, "generation") == generation
  {
    KeyValue("size", item.sizeToken);
    assert "size" + "=" + item.sizeToken == "size=" + item.sizeToken;
    var first := ["size=" + item.sizeToken];
    assert first[..0] == [];
    assert Tokens(first) == Some(map["size" := item.sizeToken]);
    if generation.Some? {
      KeyValue("generation", generation.value);
      assert "generation" + "=" + generation.value == "generation=" + generation.value;
      assert Fields(item, generation)[..1] == first;
    } else {
      assert Fields(item, generation) == first;
    }
  }

  // ------------------------------------------------------------ the round trip

  predicate Readable(codec: Codec, item: QueueItem) {
    Word(item.url) && item.url[0] != '#' && Word(item.sizeToken) && RelativePath(codec, item.url).Some?
  }

  function Found(codec: Codec, item: QueueItem, generation: Option<string>): QueueEntry
    requires Readable(codec, item)
  {
    QueueEntry(item.url, RelativePath(codec, item.url).value, Some(item.sizeToken), None, generation)
  }

  lemma {:induction false} ItemRead(codec: Codec, item: QueueItem, generation: Option<string>, before: Reading)
    requires Readable(codec, item) && (generation.Some? ==> Word(generation.value)) && item.url !in before.seen
    ensures ReadLine(codec, Content(item, generation), before)
            == Reading(before.entries + [Found(codec, item, generation)], before.seen + {item.url})
  {
    hide Words, Tokens, RelativePath;
    ContentWords(item, generation);
    FieldTokens(item, generation);
    assert ([item.url] + Fields(item, generation))[1..] == Fields(item, generation);
  }

  // What a reader sees of the generation: the newline at its end is lost.
  function Clean(generation: Option<string>): Option<string> {
    if generation.Some? && generation.value != "" && generation.value[|generation.value| - 1] == '\n' then
      Some(generation.value[..|generation.value| - 1])
    else generation
  }

  lemma {:induction false} CleanWord(generation: Option<string>)
    requires generation.Some? ==> GenerationOk(generation.value)
    ensures Clean(generation).Some? <==> generation.Some?
    ensures generation.Some? ==> PlainGeneration(Clean(generation).value) && Word(Clean(generation).value)
  {
    if generation.Some? {
      assert !GenerationChar('\n');
      forall k | 0 <= k < |Clean(generation).value| ensures !Listing.IsSpace(Clean(generation).value[k]) {
        assert GenerationChar(Clean(generation).value[k]);
      }
    }
  }

  lemma {:induction false} WordUnbroken(s: string)
    requires forall k | 0 <= k < |s| :: !Listing.IsSpace(s[k])
    ensures Unbroken(s)
  {
  }

  lemma {:induction false} UnbrokenJoin(a: string, b: string)
    requires Unbroken(a) && Unbroken(b)
    ensures Unbroken(a + b)
  {
  }

  lemma {:induction false} ContentUnbroken(item: QueueItem, generation: Option<string>)
    requires Word(item.url) && Word(item.sizeToken) && (generation.Some? ==> Word(generation.value))
    ensures Unbroken(Content(item, generation))
  {
    assert Unbroken(" ") && Unbroken("size=") && Unbroken("generation=");
    WordUnbroken(item.url);
    WordUnbroken(item.sizeToken);
    hide Unbroken, Listing.IsSpace;
    if generation.Some? {
      WordUnbroken(generation.value);
      UnbrokenJoin("generation=", generation.value);
      UnbrokenJoin(" ", "generation=" + generation.value);
    } else {
      NothingUnbroken();
    }
    UnbrokenJoin("size=", item.sizeToken);
    UnbrokenJoin("size=" + item.sizeToken, Tail(generation));
    UnbrokenJoin(" ", "size=" + item.sizeToken + Tail(generation));
    UnbrokenJoin(item.url, " " + ("size=" + item.sizeToken + Tail(generation)));
  }

  lemma {:induction false} NothingUnbroken()
    ensures Unbroken("")
  {
  }

  lemma {:induction false} BreakLast(a: string, b: string)
    ensures a + (b + "\n") == a + b + "\n"
  {
  }

  // A queue line is its content, a line break, and one more if the generation has one.
  lemma {:induction false} QueueLineIs(item: QueueItem, generation: Option<string>)
    ensures QueueLine(item, generation) == Content(item, Clean(generation)) + "\n" + (if Clean(generation) == generation then "" else "\n")
  {
    var g := Clean(generation);
    var size := "size=" + item.sizeToken;
    if g == generation {
      assert Content(item, g) + "\n" + "" == Content(item, g) + "\n";
    } else {
      assert generation.value == g.value + "\n";
      BreakLast("generation=", g.value);
      BreakLast(" ", "generation=" + g.value);
      BreakLast(size, Tail(g));
      BreakLast(" ", size + Tail(g));
      BreakLast(item.url, " " + (size + Tail(g)));
    }
  }

  // The expected entries.
  function Expected(codec: Codec, items: seq<QueueItem>, generation: Option<string>): seq<QueueEntry>
    requires forall k | 0 <= k < |items| :: Readable(codec, items[k])
  {
    seq(|items|, k requires 0 <= k < |items| => Found(codec, items[k], generation))
  }

  lemma {:induction false} LineRead(codec: Codec, text: string, item: QueueItem, generation: Option<string>)
    requires LastLine(text) == "" && Readable(codec, item) && (generation.Some? ==> GenerationOk(generation.value))
    requires item.url !in ReadLines(codec, LinesOf(text)).seen
    ensures LastLine(text + QueueLine(item, generation)) == ""
    ensures var before := ReadLines(codec, LinesOf(text));
            ReadLines(codec, LinesOf(text + QueueLine(item, generation)))
            == Reading(before.entries + [Found(codec, item, Clean(generation))], before.seen + {item.url})
  {
    hide LinesOf, ReadLine, RelativePath, Word, Content, GenerationOk;
    var g := Clean(generation);
    var line := Content(item, g);
    CleanWord(generation);
    ContentUnbroken(item, g);
    QueueLineIs(item, generation);
    AppendLine(codec, text, line);
    ItemRead(codec, item, g, ReadLines(codec, LinesOf(text)));
    var one := text + (line + "\n");
    if g == generation {
      assert text + QueueLine(item, generation) == one;
    } else {
      AppendLine(codec, one, "");
      NoWords();
      BlankRead(codec, ReadLines(codec, LinesOf(one)));
      assert "" + "\n" == "\n";
      assert text + QueueLine(item, generation) == one + ("" + "\n");
    }
  }

  lemma {:induction false} BlankRead(codec: Codec, before: Reading)
    ensures ReadLine(codec, "", before) == before
  {
    hide Tokens, RelativePath;
  }

  lemma {:induction false} LinesRead(codec: Codec, head: string, items: seq<QueueItem>, generation: Option<string>)
    requires LastLine(head) == "" && ReadLines(codec, LinesOf(head)) == Reading([], {})
    requires (forall k | 0 <= k < |items| :: Readable(codec, items[k])) && UrlsDistinct(items)
    requires generation.Some? ==> GenerationOk(generation.value)
    ensures LastLine(head + QueueLines(items, generation)) == ""
    ensures ReadLines(codec, LinesOf(head + QueueLines(items, generation)))
            == Reading(Expected(codec, items, Clean(generation)), set k | 0 <= k < |items| :: items[k].url)
  {
    hide LinesOf, ReadLines, RelativePath, GenerationOk, Readable, QueueLine;
    if items == [] {
      assert head + "" == head;
    } else {
      var n := |items| - 1;
      LinesRead(codec, head, items[..n], generation);
      var text := head + QueueLines(items[..n], generation);
      assert Readable(codec, items[n]);
      assert forall k | 0 <= k < n :: items[..n][k].url == items[k].url;
      LineRead(codec, text, items[n], generation);
      assert head + QueueLines(items, generation) == text + QueueLine(items[n], generation);
    }
  }

  lemma {:induction false} CommentRead(codec: Codec, text: string, before: Reading)
    ensures ReadLine(codec, "# " + text, before) == before
  {
    hide Tokens, RelativePath;
    assert Word("#");
    assert "# " + text == "#" + (" " + text);
    FirstWord("#", " " + text);
  }

  lemma {:induction false} HeadingRead(codec: Codec, digest: string, disposition: string)
    requires Unbroken(digest) && Unbroken(disposition)
    ensures LastLine(Heading(digest, disposition)) == ""
    ensures ReadLines(codec, LinesOf(Heading(digest, disposition))) == Reading([], {})
  {
    hide ReadLine, LinesOf;
    var one, two := "# " + ("manifest_sha256=" + digest), "# " + ("disposition=" + disposition);
    StartRead(codec);
    AppendLine(codec, "", one);
    CommentRead(codec, "manifest_sha256=" + digest, Reading([], {}));
    assert LastLine("") == "";
    var half := one + "\n";
    assert "" + half == half;
    AppendLine(codec, half, two);
    CommentRead(codec, "disposition=" + disposition, Reading([], {}));
    assert ReadLines(codec, LinesOf(half)) == Reading([], {});
    assert Heading(digest, disposition) == half + (two + "\n");
  }

  lemma {:induction false} StartRead(codec: Codec)
    ensures LinesOf("") == [""] && ReadLines(codec, [""]) == Reading([], {})
  {
    assert [""][..0] == [];
    BlankLine(codec, []);
    assert [] + [""] == [""];
  }

  // Queue round trip: an exported file reads back as exactly the exported items, in order, each
  // with its size and the generation.
  lemma {:induction false} QueueReadsBack(codec: Codec, digest: string, disposition: string, items: seq<QueueItem>, generation: Option<string>)
    requires Unbroken(digest) && Unbroken(disposition)
    requires (forall k | 0 <= k < |items| :: Readable(codec, items[k])) && UrlsDistinct(items)
    requires generation.Some? ==> GenerationOk(generation.value)
    ensures ReadLines(codec, AllLines([Heading(digest, disposition) + QueueLines(items, generation)])).entries
            == Expected(codec, items, Clean(generation))
  {
    hide LinesOf, ReadLines, Readable, GenerationOk, QueueLines, Heading;
    HeadingRead(codec, digest, disposition);
    LinesRead(codec, Heading(digest, disposition), items, generation);
    var text := Heading(digest, disposition) + QueueLines(items, generation);
    assert [text][..0] == [];
    assert AllLines([]) == [];
    assert [] + LinesOf(text) == LinesOf(text);
    assert AllLines([text]) == LinesOf(text);
  }

  // The generation survives if and only if it has no newline at its end, which the pattern permits.
  lemma {:induction false} GenerationSurvivesIff(generation: Option<string>)
    requires generation.Some? ==> GenerationOk(generation.value)
    ensures Clean(generation) == generation <==> (generation.Some? ==> PlainGeneration(generation.value))
  {
    if generation.Some? {
      var g := generation.value;
      assert !GenerationChar('\n');
      assert g[|g| - 1] == '\n' ==> !PlainGeneration(g);
    }
  }
}
