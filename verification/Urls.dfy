/** The percent-encoding URL printer of the inventory, and the parser of the downloader that has to
    undo it. */
module Urls {
  import opened Prelude
  import opened Strings
  import Utf8

  // ------------------------------------------------------------ percent-encoding (RFC 3986)

  predicate Unreserved(c: char) {
    'A' <= c <= 'Z' || 'a' <= c <= 'z' || '0' <= c <= '9' || c in "-._~"
  }

  function HexDigit(n: nat): char
    requires n < 16
  {
    "0123456789ABCDEF"[n]
  }

  function EncodeByte(b: byte): (s: string)
    ensures |s| == 3 && s[0] == '%'
  {
    ['%', HexDigit(b as nat / 16), HexDigit(b as nat % 16)]
  }

  function EncodeBytes(bytes: Bytes): string {
    if bytes == [] then "" else EncodeByte(bytes[0]) + EncodeBytes(bytes[1..])
  }

  function EncodeUrlChar(c: char): string {
    if Unreserved(c) then [c] else EncodeBytes(Utf8.EncodeChar(c))
  }

  function EncodeSegment(segment: string): string {
    if segment == "" then "" else EncodeUrlChar(segment[0]) + EncodeSegment(segment[1..])
  }

  // ------------------------------------------------------------ unquote

  function HexValue(c: char): Option<nat> {
    if '0' <= c <= '9' then Some(c as int - '0' as int)
    else if 'A' <= c <= 'F' then Some(c as int - 'A' as int + 10)
    else if 'a' <= c <= 'f' then Some(c as int - 'a' as int + 10)
    else None
  }

  predicate Ascii(s: string) {
    forall k | 0 <= k < |s| :: s[k] as int < 128
  }

  predicate Escape(s: string) {
    |s| >= 3 && s[0] == '%' && HexValue(s[1]).Some? && HexValue(s[2]).Some?
  }

  // A percent sign without two hexadecimal digits stands for itself.
  function UnquoteBytes(s: string): Bytes
    requires Ascii(s)
  {
    if s == "" then []
    else if Escape(s) then [(HexValue(s[1]).value * 16 + HexValue(s[2]).value) as byte] + UnquoteBytes(s[3..])
    else
      [s[0] as int as byte] + UnquoteBytes(s[1..])
  }

  // Decoding with replacement characters, and text that is not ASCII, stay abstract.
  datatype Codec = Codec(replace: Bytes -> string, mixed: string -> string)

  function Unquote(codec: Codec, s: string): string {
    if '%' !in s then s
    else if !Ascii(s) then codec.mixed(s)
    else
      var decoded := Utf8.Decode(UnquoteBytes(s));
      if decoded.Some? then decoded.value else codec.replace(UnquoteBytes(s))
  }

  // ------------------------------------------------------------ encoding is undone

  lemma {:induction false} ByteEscape(b: byte, rest: string)
    requires Ascii(rest)
    ensures Ascii(EncodeByte(b) + rest) && UnquoteBytes(EncodeByte(b) + rest) == [b] + UnquoteBytes(rest)
  {
    var s := EncodeByte(b) + rest;
    assert s[3..] == rest;
    var hi, lo := b as nat / 16, b as nat % 16;
    assert HexValue(HexDigit(hi)) == Some(hi) && HexValue(HexDigit(lo)) == Some(lo);
    assert s[1] == HexDigit(hi) && s[2] == HexDigit(lo);
  }

  lemma {:induction false} BytesEscape(bytes: Bytes, rest: string)
    requires Ascii(rest)
    ensures Ascii(EncodeBytes(bytes) + rest) && UnquoteBytes(EncodeBytes(bytes) + rest) == bytes + UnquoteBytes(rest)
  {
    hide EncodeByte, UnquoteBytes;
    if bytes == [] {
      assert EncodeBytes(bytes) + rest == rest;
    } else {
      BytesEscape(bytes[1..], rest);
      ByteEscape(bytes[0], EncodeBytes(bytes[1..]) + rest);
      assert EncodeBytes(bytes) + rest == EncodeByte(bytes[0]) + (EncodeBytes(bytes[1..]) + rest);
      assert [bytes[0]] + bytes[1..] == bytes;
    }
  }

  lemma {:induction false} CharEscape(c: char, rest: string)
    requires Ascii(rest)
    ensures Ascii(EncodeUrlChar(c) + rest)
    ensures UnquoteBytes(EncodeUrlChar(c) + rest) == Utf8.EncodeChar(c) + UnquoteBytes(rest)
  {
    if Unreserved(c) {
      assert (EncodeUrlChar(c) + rest)[1..] == rest;
      assert !Escape([c] + rest);
    } else {
      BytesEscape(Utf8.EncodeChar(c), rest);
    }
  }

  lemma {:induction false} SegmentBytes(segment: string)
    ensures Ascii(EncodeSegment(segment)) && UnquoteBytes(EncodeSegment(segment)) == Utf8.Encode(segment)
  {
    if segment != "" {
      SegmentBytes(segment[1..]);
      CharEscape(segment[0], EncodeSegment(segment[1..]));
    }
  }

  lemma {:induction false} PercentOrPlain(c: char)
    ensures Unreserved(c) || '%' in EncodeUrlChar(c)
  {
    var bytes := Utf8.EncodeChar(c);
    assert EncodeBytes(bytes)[0] == EncodeByte(bytes[0])[0];
  }

  // A segment without a percent sign is its own encoding.
  lemma {:induction false} PlainSegment(segment: string)
    requires '%' !in EncodeSegment(segment)
    ensures EncodeSegment(segment) == segment
  {
    if segment != "" {
      var head := EncodeUrlChar(segment[0]);
      assert forall x | x in head :: x in EncodeSegment(segment);
      assert forall x | x in EncodeSegment(segment[1..]) :: x in EncodeSegment(segment);
      PercentOrPlain(segment[0]);
      PlainSegment(segment[1..]);
    }
  }

  // Percent-encoding of UTF-8 is undone, segment by segment, for every name.
  lemma {:induction false} UnquoteEncode(codec: Codec, segment: string)
    ensures Unquote(codec, EncodeSegment(segment)) == segment
  {
    SegmentBytes(segment);
    if '%' in EncodeSegment(segment) {
      Utf8.DecodeEncode(segment);
    } else {
      PlainSegment(segment);
    }
  }

  // What may occur in an encoded segment.
  predicate UrlSafe(c: char) {
    Unreserved(c) || c == '%'
  }

  lemma {:induction false} EncodedBytesSafe(bytes: Bytes)
    ensures forall x | x in EncodeBytes(bytes) :: UrlSafe(x)
  {
    if bytes != [] {
      EncodedBytesSafe(bytes[1..]);
    }
  }

  lemma {:induction false} EncodedSegmentSafe(segment: string)
    ensures forall x | x in EncodeSegment(segment) :: UrlSafe(x)
    ensures EncodeSegment(segment) == "" <==> segment == ""
  {
    if segment != "" {
      EncodedBytesSafe(Utf8.EncodeChar(segment[0]));
      EncodedSegmentSafe(segment[1..]);
    }
  }

  lemma {:induction false} DotsEncodePlain(segment: string)
    requires EncodeSegment(segment) == "." || EncodeSegment(segment) == ".."
    ensures EncodeSegment(segment) == segment
  {
    PlainSegment(segment);
  }

  // ------------------------------------------------------------ splitting a URL

  datatype Parts = Parts(scheme: string, netloc: string, path: string, query: string, fragment: string)

  predicate Letter(c: char) {
    'A' <= c <= 'Z' || 'a' <= c <= 'z'
  }

  predicate SchemeChar(c: char) {
    Letter(c) || '0' <= c <= '9' || c in "+-."
  }

  predicate IsScheme(s: string) {
    |s| > 0 && Letter(s[0]) && forall k | 0 <= k < |s| :: SchemeChar(s[k])
  }

  function Lower(c: char): char {
    if 'A' <= c <= 'Z' then (c as int + 32) as char else c
  }

  function LowerAll(s: string): string {
    seq(|s|, k requires 0 <= k < |s| => Lower(s[k]))
  }

  // urlsplit, on text without control characters
  function UrlSplit(url: string): Parts {
    var n := SchemeLength(url);
    if n > 0 then SplitNetloc(LowerAll(url[..n]), url[n + 1..]) else SplitNetloc("", url)
  }

  // 0: the text has no scheme.
  function SchemeLength(url: string): (n: nat)
    ensures n > 0 ==> n < |url|
  {
    var colon := Find(url, ":");
    if colon < |url| && IsScheme(url[..colon]) then colon else 0
  }

  function SplitNetloc(scheme: string, rest: string): Parts {
    if |rest| >= 2 && rest[..2] == "//" then
      var end := Find(rest[2..], "/?#");
      SplitTail(scheme, rest[2..][..end], rest[2..][end..])
    else SplitTail(scheme, "", rest)
  }

  function SplitTail(scheme: string, netloc: string, rest: string): Parts {
    var hash := Find(rest, "#");
    var fragment := if hash < |rest| then rest[hash + 1..] else "";
    var head := rest[..hash];
    var mark := Find(head, "?");
    Parts(scheme, netloc, head[..mark], if mark < |head| then head[mark + 1..] else "", fragment)
  }

  // The user information of a network location is what stands before its last at sign.
  predicate HasUserInfo(netloc: string) {
    exists k :: 0 < k < |netloc| && netloc[k] == '@' && netloc[..k] != ":"
  }

  // A path without a question mark and a number sign is found whole.
  lemma {:induction false} UrlSplitIs(scheme: string, netloc: string, path: string)
    requires IsScheme(scheme) && LowerAll(scheme) == scheme
    requires forall x | x in netloc :: x !in "/?#"
    requires |path| > 0 && path[0] == '/' && '?' !in path && '#' !in path
    ensures UrlSplit(scheme + "://" + netloc + path) == Parts(scheme, netloc, path, "", "")
  {
    hide SplitNetloc, SchemeLength, IsScheme, LowerAll;
    var url := scheme + "://" + netloc + path;
    var rest := "//" + (netloc + path);
    assert url == scheme + ":" + rest;
    SchemeLengthIs(scheme, rest);
    assert url[..|scheme|] == scheme && url[|scheme| + 1..] == rest;
    SplitNetlocIs(scheme, netloc, path);
  }

  lemma {:induction false} SchemeLengthIs(scheme: string, rest: string)
    requires IsScheme(scheme)
    ensures SchemeLength(scheme + ":" + rest) == |scheme| > 0
  {
    hide Find;
    forall x | x in scheme ensures x !in ":" {
      var k :| 0 <= k < |scheme| && scheme[k] == x;
      assert SchemeChar(scheme[k]);
    }
    FindIs(scheme, ":" + rest, ":");
    assert scheme + ":" + rest == scheme + (":" + rest);
    assert (scheme + ":" + rest)[..|scheme|] == scheme;
  }

  lemma {:induction false} SplitNetlocIs(scheme: string, netloc: string, path: string)
    requires forall x | x in netloc :: x !in "/?#"
    requires |path| > 0 && path[0] == '/' && '?' !in path && '#' !in path
    ensures SplitNetloc(scheme, "//" + (netloc + path)) == Parts(scheme, netloc, path, "", "")
  {
    hide Find, SplitTail;
    var rest := "//" + (netloc + path);
    assert rest[..2] == "//" && rest[2..] == netloc + path;
    FindIs(netloc, path, "/?#");
    assert rest[2..][..|netloc|] == netloc && rest[2..][|netloc|..] == path;
    SplitTailIs(scheme, netloc, path);
  }

  lemma {:induction false} SplitTailIs(scheme: string, netloc: string, path: string)
    requires '?' !in path && '#' !in path
    ensures SplitTail(scheme, netloc, path) == Parts(scheme, netloc, path, "", "")
  {
    FindIs(path, "", "#");
    assert path + "" == path && path[..|path|] == path;
    FindIs(path, "", "?");
  }

  // ------------------------------------------------------------ pure POSIX paths

  datatype PurePath = PurePath(absolute: bool, parts: seq<string>)

  function Kept(parts: seq<string>): seq<string> {
    if parts == [] then []
    else (if parts[0] == "" || parts[0] == "." then [] else [parts[0]]) + Kept(parts[1..])
  }

  function Pure(s: string): PurePath {
    PurePath(s != "" && s[0] == '/', Kept(Split(s, '/')))
  }

  // The right path replaces the left one when it is absolute.
  function Joined(p: PurePath, q: PurePath): PurePath {
    if q.absolute then q else PurePath(p.absolute, p.parts + q.parts)
  }

  function JoinedAll(texts: seq<string>): PurePath {
    if texts == [] then PurePath(false, [])
    else Joined(JoinedAll(texts[..|texts| - 1]), Pure(texts[|texts| - 1]))
  }

  predicate IsUnsafe(p: PurePath) {
    p.absolute || exists k :: 0 <= k < |p.parts| && (p.parts[k] == ".." || '\0' in p.parts[k])
  }

  function UnquoteAll(codec: Codec, texts: seq<string>): seq<string> {
    seq(|texts|, k requires 0 <= k < |texts| => Unquote(codec, texts[k]))
  }

  function StripSlashes(s: string): (r: string)
    ensures r == "" || r[0] != '/'
  {
    if s != "" && s[0] == '/' then StripSlashes(s[1..]) else s
  }

  const Listings := ["", "ALL_FILES", "data/ALL_FILES"]

  // relative_path; None is ValueError.
  function RelativePath(codec: Codec, url: string): Option<PurePath> {
    var parsed := UrlSplit(url);
    if HasUserInfo(parsed.netloc) || parsed.query != "" then None
    else
      var path := StripSlashes(parsed.path);
      var slash := Find(path, "/");
      if slash == |path| then None else BehindCollection(codec, path[..slash], path[slash + 1..])
  }

  function BehindCollection(codec: Codec, collection: string, rest: string): Option<PurePath> {
    if rest in Listings then None
    else
      var tail := Pure(rest);
      var texts := (if tail.absolute then ["/"] else []) + tail.parts;
      var p := Joined(Pure(Unquote(codec, collection)), JoinedAll(UnquoteAll(codec, texts)));
      if IsUnsafe(p) then None else Some(p)
  }
}
