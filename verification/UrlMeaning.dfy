/** What the URL functions compute, stated on the text of a URL. */
module UrlMeaning {
  import opened Prelude
  import opened Strings
  import opened Urls
  import Utf8

  // ------------------------------------------------------------ characters and escapes

  const Upper := "0123456789ABCDEF"
  const Small := "0123456789abcdef"

  // Letters, digits, and the four marks hyphen, point, underscore and tilde.
  lemma {:induction false} UnreservedIs(c: char)
    ensures var n := c as int; Unreserved(c) <==> 65 <= n <= 90 || 97 <= n <= 122 || 48 <= n <= 57 || n in {45, 46, 95, 126}
  {
  }

  // A byte is written as a percent sign and two upper-case digits, the high one first.
  lemma {:induction false} EncodeByteIs(b: byte)
    ensures EncodeByte(b) == ['%', Upper[b as int / 16], Upper[b as int % 16]]
  {
  }

  lemma {:induction false} HexValueIs(c: char, n: nat)
    ensures HexValue(c) == Some(n) <==> n < 16 && (c == Upper[n] || c == Small[n])
  {
  }

  predicate Writes(c: char, n: nat) {
    n < 16 && (c == Upper[n] || c == Small[n])
  }

  // Unquoting takes an escape with two digits of any case for its byte, and any other character as it is.
  lemma {:induction false} EscapeIs(a: char, b: char, m: nat, n: nat, rest: string)
    requires Writes(a, m) && Writes(b, n) && Ascii(['%', a, b] + rest)
    ensures Ascii(rest) && UnquoteBytes(['%', a, b] + rest) == [(16 * m + n) as byte] + UnquoteBytes(rest)
  {
    hide HexValue;
    var s := ['%', a, b] + rest;
    HexValueIs(a, m);
    HexValueIs(b, n);
    assert s[3..] == rest && forall k | 0 <= k < |rest| :: rest[k] == s[k + 3];
  }

  // Two hexadecimal digits stand behind the percent sign.
  predicate Escapes(s: string) {
    |s| >= 3 && s[0] == '%' && (s[1] in Upper || s[1] in Small) && (s[2] in Upper || s[2] in Small)
  }

  lemma {:induction false} NoEscapeIs(s: string)
    requires |s| > 0 && Ascii(s) && !Escapes(s)
    ensures Ascii(s[1..]) && UnquoteBytes(s) == [s[0] as int as byte] + UnquoteBytes(s[1..])
  {
    if |s| >= 3 && Escape(s) {
      HexValueIs(s[1], HexValue(s[1]).value);
      HexValueIs(s[2], HexValue(s[2]).value);
      assert Escapes(s);
    }
  }

  // ------------------------------------------------------------ the parts of a URL

  predicate Scheme(s: string) {
    |s| > 0 && ('a' <= s[0] <= 'z' || 'A' <= s[0] <= 'Z')
    && forall k | 0 <= k < |s| :: 'a' <= s[k] <= 'z' || 'A' <= s[k] <= 'Z' || '0' <= s[k] <= '9' || s[k] == '+' || s[k] == '-' || s[k] == '.'
  }

  function Lowered(s: string): string {
    seq(|s|, k requires 0 <= k < |s| => if 'A' <= s[k] <= 'Z' then (s[k] as int + 32) as char else s[k])
  }

  function Marked(mark: char, text: Option<string>): string {
    if text.Some? then [mark] + text.value else ""
  }

  // Scheme, authority, path, query and fragment are found as they are written.
  lemma {:induction false} UrlSplitMeans(scheme: string, netloc: string, path: string, query: Option<string>, fragment: Option<string>)
    requires Scheme(scheme) && '/' !in netloc && '?' !in netloc && '#' !in netloc
    requires (path == "" || path[0] == '/') && '?' !in path && '#' !in path && (query.Some? ==> '#' !in query.value)
    ensures UrlSplit(scheme + "://" + netloc + (path + (Marked('?', query) + Marked('#', fragment))))
            == Parts(Lowered(scheme), netloc, path, if query.Some? then query.value else "", if fragment.Some? then fragment.value else "")
  {
    hide SchemeLength, SplitNetloc, LowerAll, Marked, Lowered, Scheme;
    var tail := path + (Marked('?', query) + Marked('#', fragment));
    var rest := "//" + (netloc + tail);
    assert scheme + "://" + netloc + tail == scheme + ":" + rest;
    var url := scheme + ":" + rest;
    SchemeIs(scheme);
    SchemeLengthIs(scheme, rest);
    assert url[..|scheme|] == scheme && url[|scheme| + 1..] == rest;
    TailBegins(path, query, fragment);
    NetlocMeans(Lowered(scheme), netloc, tail);
    TailMeans(Lowered(scheme), netloc, path, query, fragment);
  }

  lemma {:induction false} TailBegins(path: string, query: Option<string>, fragment: Option<string>)
    requires path == "" || path[0] == '/'
    ensures var tail := path + (Marked('?', query) + Marked('#', fragment)); tail == "" || tail[0] in "/?#"
  {
  }

  lemma {:induction false} NetlocMeans(scheme: string, netloc: string, tail: string)
    requires '/' !in netloc && '?' !in netloc && '#' !in netloc && (tail == "" || tail[0] in "/?#")
    ensures SplitNetloc(scheme, "//" + (netloc + tail)) == SplitTail(scheme, netloc, tail)
  {
    hide Find, SplitTail;
    var rest := "//" + (netloc + tail);
    assert rest[..2] == "//" && rest[2..] == netloc + tail;
    FindIs(netloc, tail, "/?#");
    assert (netloc + tail)[..|netloc|] == netloc && (netloc + tail)[|netloc|..] == tail;
  }

  lemma {:induction false} SchemeIs(scheme: string)
    requires Scheme(scheme)
    ensures IsScheme(scheme) && LowerAll(scheme) == Lowered(scheme)
  {
  }

  lemma {:induction false} TailMeans(scheme: string, netloc: string, path: string, query: Option<string>, fragment: Option<string>)
    requires '?' !in path && '#' !in path && (query.Some? ==> '#' !in query.value)
    ensures SplitTail(scheme, netloc, path + (Marked('?', query) + Marked('#', fragment)))
            == Parts(scheme, netloc, path, if query.Some? then query.value else "", if fragment.Some? then fragment.value else "")
  {
    hide Marked, SplitTail, HeadParts;
    var head := path + Marked('?', query);
    assert path + (Marked('?', query) + Marked('#', fragment)) == head + Marked('#', fragment);
    HeadIsFree(path, query);
    FragmentFound(scheme, netloc, head, fragment);
    QueryFound(scheme, netloc, path, query, if fragment.Some? then fragment.value else "");
  }

  function HeadParts(scheme: string, netloc: string, head: string, fragment: string): Parts {
    var mark := Find(head, "?");
    Parts(scheme, netloc, head[..mark], if mark < |head| then head[mark + 1..] else "", fragment)
  }

  lemma {:induction false} FragmentFound(scheme: string, netloc: string, head: string, fragment: Option<string>)
    requires '#' !in head
    ensures SplitTail(scheme, netloc, head + Marked('#', fragment))
            == HeadParts(scheme, netloc, head, if fragment.Some? then fragment.value else "")
  {
    hide Find, Marked;
    MarkFound(head, '#', fragment);
    FindSingle('#');
  }

  lemma {:induction false} QueryFound(scheme: string, netloc: string, path: string, query: Option<string>, fragment: string)
    requires '?' !in path
    ensures HeadParts(scheme, netloc, path + Marked('?', query), fragment)
            == Parts(scheme, netloc, path, if query.Some? then query.value else "", fragment)
  {
    hide Find, Marked;
    MarkFound(path, '?', query);
    FindSingle('?');
  }

  lemma {:induction false} FindSingle(mark: char)
    ensures [mark] == "#" <==> mark == '#'
    ensures [mark] == "?" <==> mark == '?'
  {
  }

  lemma {:induction false} HeadIsFree(path: string, query: Option<string>)
    requires '#' !in path && (query.Some? ==> '#' !in query.value)
    ensures '#' !in path + Marked('?', query)
  {
  }

  // The first mark divides the text.
  lemma {:induction false} MarkFound(front: string, mark: char, text: Option<string>)
    requires mark !in front
    ensures var s := front + Marked(mark, text);
            && Find(s, [mark]) == |front| && s[..|front|] == front && (|front| < |s| <==> text.Some?)
            && (text.Some? ==> s[|front| + 1..] == text.value)
  {
    hide Find;
    FindIs(front, Marked(mark, text), [mark]);
  }

  // User information stands before the last at sign, and a lone colon is none.
  lemma {:induction false} HasUserInfoIs(user: string, host: string)
    requires '@' !in host
    ensures HasUserInfo(user + "@" + host) <==> user != "" && user != ":"
    ensures !HasUserInfo(host)
  {
    var netloc := user + "@" + host;
    assert netloc[|user|] == '@' && netloc[..|user|] == user;
    assert forall k | |user| < k < |netloc| :: netloc[k] == host[k - |user| - 1];
  }

  // ------------------------------------------------------------ the downloader's path

  // The parts of a POSIX path without the empty and the dot parts.
  function Names(text: string): seq<string> {
    Kept(Split(text, '/'))
  }

  lemma {:induction false} KeptMeans(parts: seq<string>, last: string)
    ensures Kept([]) == [] && Kept(parts + [last]) == Kept(parts) + (if last == "" || last == "." then [] else [last])
  {
    if parts == [] {
      assert [] + [last] == [last] && [last][1..] == [];
    } else {
      var all := parts + [last];
      KeptMeans(parts[1..], last);
      assert all[1..] == parts[1..] + [last] && all[0] == parts[0];
      var head := if parts[0] == "" || parts[0] == "." then [] else [parts[0]];
      assert Kept(all) == head + Kept(all[1..]) && Kept(parts) == head + Kept(parts[1..]);
    }
  }

  // The names of all unquoted segments.
  function AllNames(codec: Codec, segments: seq<string>): seq<string> {
    if segments == [] then []
    else AllNames(codec, segments[..|segments| - 1]) + Names(Unquote(codec, segments[|segments| - 1]))
  }

  predicate Rooted(text: string) {
    |text| > 0 && text[0] == '/'
  }

  // No part leads upwards or holds a null character.
  predicate Inside(names: seq<string>) {
    forall k | 0 <= k < |names| :: names[k] != ".." && '\0' !in names[k]
  }

  // The text behind the slashes of a URL path: a collection, a slash, and what is no listing.
  predicate Holds(path: string, collection: string, rest: string) {
    && (exists n: nat :: n <= |path| && (forall k | 0 <= k < n :: path[k] == '/') && path[n..] == collection + "/" + rest)
    && '/' !in collection && collection != "" && rest != "" && rest != "ALL_FILES" && rest != "data/ALL_FILES"
  }

  lemma {:induction false} JoinedNames(codec: Codec, segments: seq<string>)
    ensures var p := JoinedAll(UnquoteAll(codec, segments));
            && (p.absolute <==> exists k :: 0 <= k < |segments| && Rooted(Unquote(codec, segments[k])))
            && (!p.absolute ==> p.parts == AllNames(codec, segments))
  {
    hide Kept, Split, Unquote;
    if segments != [] {
      var front, last := segments[..|segments| - 1], segments[|segments| - 1];
      JoinedNames(codec, front);
      assert UnquoteAll(codec, segments)[..|front|] == UnquoteAll(codec, front);
      assert forall k | 0 <= k < |front| :: segments[k] == front[k];
    }
  }

  // relative_path on what stands behind the collection.
  lemma {:induction false} BehindMeans(codec: Codec, collection: string, rest: string)
    ensures var found := BehindCollection(codec, collection, rest);
            var names := Names(Unquote(codec, collection)) + AllNames(codec, Names(rest));
            && (found.Some? <==>
                  && rest != "" && rest != "ALL_FILES" && rest != "data/ALL_FILES" && !Rooted(rest) && !Rooted(Unquote(codec, collection))
                  && (forall k | 0 <= k < |Names(rest)| :: !Rooted(Unquote(codec, Names(rest)[k]))) && Inside(names))
            && (found.Some? ==> found.value == PurePath(false, names))
  {
    hide Kept, Split, Unquote, UnquoteAll, JoinedAll;
    JoinedNames(codec, Names(rest));
    SlashFirst(codec, Names(rest));
    var left := Pure(Unquote(codec, collection));
    assert left.absolute <==> Rooted(Unquote(codec, collection));
    assert Pure(rest) == PurePath(Rooted(rest), Names(rest));
    if rest !in Listings && !Rooted(rest) {
      assert [] + Names(rest) == Names(rest);
      assert BehindCollection(codec, collection, rest)
             == (var p := Joined(left, JoinedAll(UnquoteAll(codec, Names(rest)))); if IsUnsafe(p) then None else Some(p));
    }
  }

  lemma {:induction false} SlashFirst(codec: Codec, segments: seq<string>)
    ensures JoinedAll(UnquoteAll(codec, ["/"] + segments)).absolute
  {
    hide Kept, Split, Unquote;
    JoinedNames(codec, ["/"] + segments);
    assert (["/"] + segments)[0] == "/";
    SlashStays(codec);
  }

  lemma {:induction false} SlashStays(codec: Codec)
    ensures Unquote(codec, "/") == "/"
  {
  }

  // A URL leads to a path if and only if it has no user information and no query, and its path is that
  // of a file inside the destination.
  lemma {:induction false} RelativePathMeans(codec: Codec, url: string, p: PurePath)
    ensures RelativePath(codec, url) == Some(p) <==>
              var parts := UrlSplit(url);
              && !HasUserInfo(parts.netloc) && parts.query == ""
              && exists collection, rest :: (&& Holds(parts.path, collection, rest)
                                             && BehindCollection(codec, collection, rest) == Some(p))
  {
    hide UrlSplit, HasUserInfo, BehindCollection, StripSlashes, Find;
    var parts := UrlSplit(url);
    var path := StripSlashes(parts.path);
    var slash := Find(path, "/");
    var n := StripMeans(parts.path);
    if slash < |path| {
      assert path == path[..slash] + "/" + path[slash + 1..];
      BehindNeedsFile(codec, path[..slash], path[slash + 1..]);
    }
    forall collection, rest | Holds(parts.path, collection, rest) ensures path == collection + "/" + rest && slash == |collection| {
      StripIs(parts.path, collection, rest);
      FindIs(collection, "/" + rest, "/");
      assert collection + ("/" + rest) == collection + "/" + rest;
    }
    forall collection, rest | Holds(parts.path, collection, rest) ensures path[..slash] == collection && path[slash + 1..] == rest {
      assert path == collection + "/" + rest && slash == |collection|;
    }
  }

  lemma {:induction false} BehindNeedsFile(codec: Codec, collection: string, rest: string)
    ensures BehindCollection(codec, collection, rest).Some? ==> rest != "" && rest != "ALL_FILES" && rest != "data/ALL_FILES"
  {
  }

  lemma {:induction false} StripMeans(path: string) returns (n: nat)
    ensures n <= |path| && (forall k | 0 <= k < n :: path[k] == '/') && path[n..] == StripSlashes(path)
    ensures StripSlashes(path) == "" || StripSlashes(path)[0] != '/'
  {
    if path != "" && path[0] == '/' {
      n := StripMeans(path[1..]);
      assert forall k | 0 < k < n + 1 :: path[k] == path[1..][k - 1];
      assert path[n + 1..] == path[1..][n..];
      n := n + 1;
    } else {
      n := 0;
      assert path[0..] == path;
    }
  }

  lemma {:induction false} StripIs(path: string, collection: string, rest: string)
    requires Holds(path, collection, rest)
    ensures StripSlashes(path) == collection + "/" + rest
  {
    var n: nat :| n <= |path| && (forall k | 0 <= k < n :: path[k] == '/') && path[n..] == collection + "/" + rest;
    StripTo(path, n);
    assert path[n] == collection[0] && collection[0] in collection;
  }

  lemma {:induction false} StripTo(path: string, n: nat)
    requires n <= |path| && (forall k | 0 <= k < n :: path[k] == '/') && (n < |path| ==> path[n] != '/')
    ensures StripSlashes(path) == path[n..]
  {
    if n > 0 {
      assert forall k | 0 <= k < n - 1 :: path[1..][k] == path[k + 1];
      StripTo(path[1..], n - 1);
      assert path[1..][n - 1..] == path[n..];
    }
  }
}
