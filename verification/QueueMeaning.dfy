/** What the queue functions accept: URLs, generations, lines, words and tokens, stated on their text. */
module QueueMeaning {
  import opened Prelude
  import opened Strings
  import opened Urls
  import opened QueueFile
  import Listing
  import ListingGrammar
  import UrlMeaning

  // ------------------------------------------------------------ characters

  predicate Hexadecimal(c: char) {
    var n := c as int;
    48 <= n <= 57 || 65 <= n <= 70 || 97 <= n <= 102
  }

  predicate Digest(s: string) {
    |s| == 64 && forall k | 0 <= k < |s| :: Hexadecimal(s[k])
  }

  lemma {:induction false} HexDigestIs(s: string)
    ensures HexDigest(s) <==> Digest(s)
  {
  }

  // Letters, digits, point, underscore, colon and hyphen.
  predicate Name(s: string) {
    1 <= |s| <= 128
    && forall k | 0 <= k < |s| ::
         var n := s[k] as int; 48 <= n <= 57 || 65 <= n <= 90 || 97 <= n <= 122 || n in {45, 46, 58, 95}
  }

  // A generation is a name; the pattern lets one newline stand behind it.
  lemma {:induction false} GenerationOkIs(g: string)
    ensures GenerationOk(g) <==> exists name: string :: Name(name) && (g == name || g == name + "\n")
  {
    PlainGenerationIs(g);
    if |g| > 0 {
      PlainGenerationIs(g[..|g| - 1]);
      if g[|g| - 1] == '\n' {
        assert g == g[..|g| - 1] + "\n";
      }
    }
    forall name: string | Name(name) && g == name + "\n" ensures GenerationOk(g) {
      assert g[..|g| - 1] == name;
    }
    hide PlainGeneration, Name;
    if GenerationOk(g) && !PlainGeneration(g) {
      assert Name(g[..|g| - 1]) && g == g[..|g| - 1] + "\n";
    }
  }

  lemma {:induction false} PlainGenerationIs(g: string)
    ensures PlainGeneration(g) <==> Name(g)
  {
    forall c: char
      ensures GenerationChar(c) <==> var n := c as int; 48 <= n <= 57 || 65 <= n <= 90 || 97 <= n <= 122 || n in {45, 46, 58, 95}
    {
      GenerationCharIs(c);
    }
  }

  lemma {:induction false} GenerationCharIs(c: char)
    ensures GenerationChar(c) <==> var n := c as int; 48 <= n <= 57 || 65 <= n <= 90 || 97 <= n <= 122 || n in {45, 46, 58, 95}
  {
  }

  // ------------------------------------------------------------ an exported URL

  // An absolute web URL of a file: no user information, query or fragment, printable ASCII only.
  ghost predicate Exports(hostOk: string -> bool, url: string) {
    var parts := UrlSplit(url);
    && (parts.scheme == "http" || parts.scheme == "https") && hostOk(parts.netloc) && !HasUserInfo(parts.netloc)
    && parts.query == "" && parts.fragment == ""
    && (forall k | 0 <= k < |url| :: url[k] as int < 128 && url[k] as int !in ListingGrammar.Spaces)
    && exists collection, rest :: StripSlashes(parts.path) == collection + "/" + rest && OfFile(collection, rest)
  }

  predicate OfFile(collection: string, rest: string) {
    '/' !in collection && rest != "" && rest != "ALL_FILES" && rest != "data/ALL_FILES"
  }

  lemma {:induction false} QueueUrlOkMeans(hostOk: string -> bool, url: string)
    ensures QueueUrlOk(hostOk, url) <==> Exports(hostOk, url)
  {
    hide UrlSplit, HasUserInfo, StripSlashes, Find, Listing.IsSpace;
    forall k | 0 <= k < |url| ensures Listing.IsSpace(url[k]) <==> url[k] as int in ListingGrammar.Spaces {
      ListingGrammar.SpaceIs(url[k]);
    }
    var path := StripSlashes(UrlSplit(url).path);
    FileIs(path);
  }

  lemma {:induction false} FileIs(path: string)
    ensures var slash := Find(path, "/");
            slash < |path| && path[slash + 1..] !in Listings
            <==> exists collection, rest :: path == collection + "/" + rest && OfFile(collection, rest)
  {
    hide Find;
    var slash := Find(path, "/");
    if slash < |path| {
      assert path == path[..slash] + "/" + path[slash + 1..];
      assert '/' !in path[..slash] by {
        assert forall k | 0 <= k < slash :: path[k] !in "/";
      }
    }
    forall collection, rest | path == collection + "/" + rest && OfFile(collection, rest)
      ensures slash == |collection| && path[slash + 1..] == rest
    {
      FindIs(collection, "/" + rest, "/");
      assert collection + ("/" + rest) == path;
    }
  }

  // ------------------------------------------------------------ lines and words

  // A newline or a carriage return ends a line.
  lemma {:induction false} LinesAre(line: string, end: char, rest: string)
    requires '\n' !in line && '\r' !in line && (end == '\n' || end == '\r')
    ensures LinesOf(line) == [line] && LinesOf(line + [end] + rest) == [line] + LinesOf(rest)
  {
    if line == "" {
      assert ([end] + rest)[1..] == rest;
      assert line + [end] + rest == [end] + rest;
    } else {
      LinesAre(line[1..], end, rest);
      assert (line + [end] + rest)[1..] == line[1..] + [end] + rest;
      assert line == [line[0]] + line[1..];
    }
  }

  // White space parts the words of a line.
  lemma {:induction false} WordsAre(word: string, blank: char, rest: string)
    requires ListingGrammar.Word(word) && blank as int in ListingGrammar.Spaces
    ensures Words("") == [] && Words([blank] + rest) == Words(rest)
    ensures Words(word) == [word] && Words(word + ([blank] + rest)) == [word] + Words(rest)
  {
    hide Listing.IsSpace, Listing.TokenLength;
    BlankIs(blank, rest);
    ListingGrammar.FirstWordIs(word, [blank] + rest);
    WholeWord(word);
    ListingGrammar.SpaceIs(word[0]);
    var s := word + ([blank] + rest);
    assert s[..|word|] == word && s[|word|..] == [blank] + rest;
    assert word[..|word|] == word && word[|word|..] == "";
  }

  lemma {:induction false} BlankIs(blank: char, rest: string)
    requires blank as int in ListingGrammar.Spaces
    ensures Words([blank] + rest) == Words(rest)
  {
    hide Listing.IsSpace;
    ListingGrammar.SpaceIs(blank);
    assert ([blank] + rest)[1..] == rest;
  }

  lemma {:induction false} WholeWord(word: string)
    requires ListingGrammar.Word(word)
    ensures Listing.TokenLength(word) == |word|
  {
    hide Listing.TokenLength;
    ListingGrammar.TokenLengthIs(word);
  }

  // ------------------------------------------------------------ tokens

  // One token of a queue line: a known key, an equals sign, a value.
  predicate Token(field: string, key: string, value: string) {
    && field == key + "=" + value && value != ""
    && (key == "size" || key == "generation" || (key == "sha256" && Digest(value)))
  }

  // What a token records: a digest in lower case, any other value as it is.
  function Recorded(key: string, value: string): string {
    if key == "sha256" then UrlMeaning.Lowered(value) else value
  }

  lemma {:induction false} AddTokenMeans(tokens: map<string, string>, field: string, after: map<string, string>)
    ensures AddToken(tokens, field) == Some(after)
            <==> exists key, value :: Token(field, key, value) && key !in tokens && after == tokens[key := Recorded(key, value)]
  {
    hide Find, HexDigest, Digest;
    var at := Find(field, "=");
    if at < |field| {
      var key, value := field[..at], field[at + 1..];
      assert field == key + "=" + value;
      HexDigestIs(value);
      assert LowerAll(value) == UrlMeaning.Lowered(value);
      assert key in TokenKeys <==> key == "size" || key == "sha256" || key == "generation";
      if AddToken(tokens, field).Some? {
        assert Token(field, key, value) && key !in tokens;
      }
    }
    forall key, value | Token(field, key, value) ensures at == |key| && field[..at] == key && field[at + 1..] == value {
      KeyFound(key, value);
    }
  }

  lemma {:induction false} KeyFound(key: string, value: string)
    requires key == "size" || key == "generation" || key == "sha256"
    ensures Find(key + "=" + value, "=") == |key|
  {
    hide Find;
    FindIs(key, "=" + value, "=");
    assert key + ("=" + value) == key + "=" + value;
  }

  ghost predicate IsToken(field: string) {
    exists key, value :: Token(field, key, value)
  }

  ghost predicate Keyed(field: string, key: string) {
    exists value :: Token(field, key, value)
  }

  // Every field is a token.
  ghost predicate AllTokens(fields: seq<string>) {
    forall k | 0 <= k < |fields| :: IsToken(fields[k])
  }

  ghost predicate HasKey(fields: seq<string>, key: string) {
    exists k :: 0 <= k < |fields| && Keyed(fields[k], key)
  }

  // No key comes twice.
  ghost predicate KeysOnce(fields: seq<string>) {
    forall j, k, key | 0 <= j < k < |fields| && Keyed(fields[j], key) :: !Keyed(fields[k], key)
  }

  lemma {:induction false} FieldsGrow(front: seq<string>, last: string)
    ensures AllTokens(front + [last]) <==> AllTokens(front) && IsToken(last)
    ensures forall key :: HasKey(front + [last], key) <==> HasKey(front, key) || Keyed(last, key)
  {
    hide IsToken, Keyed;
    var fields := front + [last];
    assert fields[|front|] == last && forall k | 0 <= k < |front| :: fields[k] == front[k];
    forall key ensures HasKey(fields, key) <==> HasKey(front, key) || Keyed(last, key) {
      if HasKey(front, key) {
        var k :| 0 <= k < |front| && Keyed(front[k], key);
        assert Keyed(fields[k], key);
      }
    }
  }

  lemma {:induction false} OnceGrows(front: seq<string>, last: string)
    ensures KeysOnce(front + [last]) <==> KeysOnce(front) && forall key | Keyed(last, key) :: !HasKey(front, key)
  {
    hide Keyed;
    var fields := front + [last];
    assert fields[|front|] == last && forall k | 0 <= k < |front| :: fields[k] == front[k];
    if KeysOnce(fields) {
      forall j, k, key | 0 <= j < k < |front| && Keyed(front[j], key) ensures !Keyed(front[k], key) {
        assert Keyed(fields[j], key) && fields[k] == front[k];
      }
      forall key, j | Keyed(last, key) && 0 <= j < |front| ensures !Keyed(front[j], key) {
        assert fields[j] == front[j];
      }
    }
    if KeysOnce(front) && forall key | Keyed(last, key) :: !HasKey(front, key) {
      forall j, k, key | 0 <= j < k < |fields| && Keyed(fields[j], key) ensures !Keyed(fields[k], key) {
        assert fields[j] == front[j];
      }
    }
  }

  // The tokens of a line are accepted if and only if every field is a token and no key comes twice; then
  // every key has its recorded value.
  lemma {:induction false} TokensMean(fields: seq<string>)
    ensures Tokens(fields).Some? <==> AllTokens(fields) && KeysOnce(fields)
    ensures Tokens(fields).Some? ==> forall key :: key in Tokens(fields).value <==> HasKey(fields, key)
    ensures Tokens(fields).Some? ==>
              forall k, key, value | 0 <= k < |fields| && Token(fields[k], key, value) ::
                key in Tokens(fields).value && Tokens(fields).value[key] == Recorded(key, value)
  {
    hide AddToken, Token, Recorded, AllTokens, KeysOnce, HasKey, IsToken, Keyed;
    if fields == [] {
      NoFields();
    } else {
      var front, last, n := fields[..|fields| - 1], fields[|fields| - 1], |fields| - 1;
      TokensMean(front);
      assert fields == front + [last] && forall k | 0 <= k < n :: fields[k] == front[k];
      FieldsGrow(front, last);
      OnceGrows(front, last);
      if Tokens(front).Some? {
        LastToken(Tokens(front).value, last);
        KeysAreFound(front);
      }
    }
  }

  lemma {:induction false} NoFields()
    ensures AllTokens([]) && KeysOnce([]) && forall key :: !HasKey([], key)
  {
  }

  lemma {:induction false} KeysAreFound(fields: seq<string>)
    ensures forall k, key, value | 0 <= k < |fields| && Token(fields[k], key, value) :: HasKey(fields, key)
  {
    hide Token;
    forall k, key, value | 0 <= k < |fields| && Token(fields[k], key, value) ensures HasKey(fields, key) {
      assert Keyed(fields[k], key);
    }
  }

  lemma {:induction false} LastToken(before: map<string, string>, last: string)
    ensures AddToken(before, last).Some? <==> IsToken(last) && forall key | Keyed(last, key) :: key !in before
    ensures AddToken(before, last).Some? ==>
              var after := AddToken(before, last).value;
              && (forall key :: key in after <==> key in before || Keyed(last, key))
              && (forall key | key in before :: after[key] == before[key])
              && forall key, value | Token(last, key, value) :: key in after && after[key] == Recorded(key, value)
    ensures forall key, value | Token(last, key, value) :: Keyed(last, key)
  {
    hide AddToken, Token, Recorded;
    forall key, value, key', value' | Token(last, key, value) && Token(last, key', value') ensures key == key' && value == value' {
      TokenOnce(last, key, value, key', value');
    }
    forall key, value | Token(last, key, value) && key !in before
      ensures AddToken(before, last) == Some(before[key := Recorded(key, value)])
    {
      AddTokenMeans(before, last, before[key := Recorded(key, value)]);
    }
    forall key, value | Token(last, key, value) ensures Keyed(last, key) && IsToken(last) {
    }
    if AddToken(before, last).Some? {
      var after := AddToken(before, last).value;
      AddTokenMeans(before, last, after);
      var key, value :| Token(last, key, value) && key !in before && after == before[key := Recorded(key, value)];
      forall key' | Keyed(last, key') ensures key' == key {
        var value' :| Token(last, key', value');
      }
    }
    if IsToken(last) && forall key | Keyed(last, key) :: key !in before {
      var key, value :| Token(last, key, value);
      assert Keyed(last, key);
    }
  }

  lemma {:induction false} TokenOnce(field: string, key: string, value: string, key': string, value': string)
    requires Token(field, key, value) && Token(field, key', value')
    ensures key == key' && value == value'
  {
    KeyFound(key, value);
    KeyFound(key', value');
    assert field[..|key|] == key && field[..|key'|] == key' && field[|key| + 1..] == value && field[|key'| + 1..] == value';
  }
}
