/** What the line forms of a listing are: the patterns of the parser, stated as ways to write a line. */
module ListingGrammar {
  import opened Prelude
  import opened LineReader
  import opened Listing
  import Utf8

  // ------------------------------------------------------------ characters

  // White space as the patterns see it.
  const Spaces: set<int> := {0x09, 0x0A, 0x0B, 0x0C, 0x0D, 0x1C, 0x1D, 0x1E, 0x1F, 0x20, 0x85, 0xA0, 0x1680, 0x2000, 0x2001,
                             0x2002, 0x2003, 0x2004, 0x2005, 0x2006, 0x2007, 0x2008, 0x2009, 0x200A, 0x2028, 0x2029, 0x202F,
                             0x205F, 0x3000}

  lemma {:induction false} SpaceIs(c: char)
    ensures IsSpace(c) <==> c as int in Spaces
  {
  }

  predicate Word(s: string) {
    |s| > 0 && forall k | 0 <= k < |s| :: s[k] as int !in Spaces
  }

  predicate Digits(s: string) {
    |s| > 0 && forall k | 0 <= k < |s| :: '0' <= s[k] <= '9'
  }

  // ------------------------------------------------------------ an entry

  // A kind, a word and a name, one blank between them; the name may be empty.
  predicate WritesEntry(text: string, kind: char, token: string, name: string) {
    (kind == 'd' || kind == '-') && Word(token) && text == [kind, ' '] + token + [' '] + name
  }

  lemma {:induction false} TokenLengthIs(s: string)
    ensures var n := TokenLength(s);
            && (forall k | 0 <= k < n :: s[k] as int !in Spaces) && (n < |s| ==> s[n] as int in Spaces)
  {
    hide IsSpace;
    if s != [] {
      SpaceIs(s[0]);
      TokenLengthIs(s[1..]);
      var n := TokenLength(s);
      if n > 0 {
        assert forall k | 0 < k < n :: s[k] == s[1..][k - 1];
      }
    }
  }

  lemma {:induction false} FirstWordIs(word: string, tail: string)
    requires (forall k | 0 <= k < |word| :: word[k] as int !in Spaces) && |tail| > 0 && tail[0] as int in Spaces
    ensures TokenLength(word + tail) == |word|
  {
    hide TokenLength;
    var s := word + tail;
    TokenLengthIs(s);
    var n := TokenLength(s);
    assert s[|word|] == tail[0] && forall k | 0 <= k < |word| :: s[k] == word[k];
  }

  // The pattern of an entry matches exactly what is written so, and finds its parts.
  lemma {:induction false} EntryMatchIs(text: string, kind: char, token: string, name: string)
    ensures EntryMatch(text) == Some(Match(kind, token, name)) <==> WritesEntry(text, kind, token, name)
  {
    hide TokenLength;
    if EntryMatch(text) == Some(Match(kind, token, name)) {
      TokenLengthIs(text[2..]);
      assert text == [text[0], text[1]] + text[2..];
      var n := TokenLength(text[2..]);
      assert text[2..] == text[2..][..n] + [' '] + text[n + 3..];
      assert text[2..][..n] == text[2..n + 2];
      assert forall k | 0 <= k < |token| :: token[k] == text[2..][k];
    }
    if WritesEntry(text, kind, token, name) {
      assert text[2..] == token + ([' '] + name);
      FirstWordIs(token, [' '] + name);
      assert text[2..|token| + 2] == token && text[|token| + 3..] == name;
    }
  }

  // ------------------------------------------------------------ a size token

  // Digits, maybe a point and digits, maybe one unit letter.
  ghost predicate WritesSize(s: string) {
    exists whole: string, fraction: string, unit: string {:trigger whole + fraction + unit} ::
      Digits(whole) && Fraction(fraction) && Unit(unit) && s == whole + fraction + unit
  }

  predicate Fraction(s: string) {
    s == "" || (|s| > 1 && s[0] == '.' && Digits(s[1..]))
  }

  predicate Unit(s: string) {
    s == "" || s == "K" || s == "M" || s == "G" || s == "T" || s == "P" || s == "E"
  }

  lemma {:induction false} DigitsLengthIs(s: string)
    ensures var n := DigitsLength(s);
            (forall k | 0 <= k < n :: '0' <= s[k] <= '9') && (n < |s| ==> !('0' <= s[n] <= '9'))
  {
    if s != [] {
      DigitsLengthIs(s[1..]);
      var n := DigitsLength(s);
      if n > 0 {
        assert forall k | 0 < k < n :: s[k] == s[1..][k - 1];
      }
    }
  }

  lemma {:induction false} FirstDigitsAre(digits: string, tail: string)
    requires (forall k | 0 <= k < |digits| :: '0' <= digits[k] <= '9') && (tail == "" || !('0' <= tail[0] <= '9'))
    ensures DigitsLength(digits + tail) == |digits|
  {
    hide DigitsLength;
    var s := digits + tail;
    DigitsLengthIs(s);
    var n := DigitsLength(s);
    assert (forall k | 0 <= k < |digits| :: s[k] == digits[k]) && (|digits| < |s| ==> s[|digits|] == tail[0]);
  }

  // What follows the digits.
  ghost predicate WritesTail(rest: string) {
    exists fraction: string, unit: string {:trigger fraction + unit} ::
      Fraction(fraction) && Unit(unit) && rest == fraction + unit
  }

  predicate TailOk(rest: string) {
    var m := if |rest| > 0 && rest[0] == '.' then DigitsLength(rest[1..]) else 0;
    var unit := if m > 0 then rest[m + 1..] else rest;
    unit == "" || (|unit| == 1 && unit[0] in "KMGTPE")
  }

  lemma {:induction false} UnitIs(unit: string)
    ensures Unit(unit) <==> unit == "" || (|unit| == 1 && unit[0] in "KMGTPE")
  {
    if |unit| == 1 {
      assert unit == [unit[0]];
    }
  }

  lemma {:induction false} TailIsWritten(rest: string)
    requires TailOk(rest)
    ensures WritesTail(rest)
  {
    hide DigitsLength;
    var m := if |rest| > 0 && rest[0] == '.' then DigitsLength(rest[1..]) else 0;
    if m > 0 {
      DigitsLengthIs(rest[1..]);
      var fraction := rest[..m + 1];
      assert fraction[1..] == rest[1..][..m];
      UnitIs(rest[m + 1..]);
      assert rest == fraction + rest[m + 1..];
    } else {
      UnitIs(rest);
      assert rest == "" + rest;
    }
  }

  lemma {:induction false} WrittenTailIsOk(fraction: string, unit: string)
    requires Fraction(fraction) && Unit(unit)
    ensures TailOk(fraction + unit) && (fraction + unit == "" || !('0' <= (fraction + unit)[0] <= '9'))
  {
    hide DigitsLength;
    UnitIs(unit);
    if fraction == "" {
      assert fraction + unit == unit;
    } else {
      assert (fraction + unit)[1..] == fraction[1..] + unit;
      FirstDigitsAre(fraction[1..], unit);
      assert (fraction + unit)[|fraction|..] == unit;
    }
  }

  lemma {:induction false} TokenSplits(s: string)
    ensures IsSizeToken(s) <==> DigitsLength(s) > 0 && TailOk(s[DigitsLength(s)..])
  {
  }

  lemma {:induction false} TokenIsWritten(s: string)
    requires IsSizeToken(s)
    ensures WritesSize(s)
  {
    hide DigitsLength, Fraction, Unit, TailOk, IsSizeToken;
    TokenSplits(s);
    var n := DigitsLength(s);
    DigitsLengthIs(s);
    TailIsWritten(s[n..]);
    var fraction: string, unit: string :| Fraction(fraction) && Unit(unit) && s[n..] == fraction + unit;
    assert Digits(s[..n]);
    SizeJoins(s, n, fraction, unit);
  }

  lemma {:induction false} SizeJoins(s: string, n: nat, fraction: string, unit: string)
    requires n <= |s| && s[n..] == fraction + unit && Digits(s[..n]) && Fraction(fraction) && Unit(unit)
    ensures WritesSize(s)
  {
    hide Digits, Fraction, Unit;
    assert s == s[..n] + s[n..];
    assert s[..n] + (fraction + unit) == s[..n] + fraction + unit;
  }

  lemma {:induction false} WrittenTokenIsOk(whole: string, fraction: string, unit: string)
    requires Digits(whole) && Fraction(fraction) && Unit(unit)
    ensures IsSizeToken(whole + fraction + unit)
  {
    hide DigitsLength, Fraction, Unit, TailOk, IsSizeToken;
    var s := whole + fraction + unit;
    assert s == whole + (fraction + unit);
    WrittenTailIsOk(fraction, unit);
    FirstDigitsAre(whole, fraction + unit);
    assert s[|whole|..] == fraction + unit;
    TokenSplits(s);
  }

  lemma {:induction false} SizeTokenIs(s: string)
    ensures IsSizeToken(s) <==> WritesSize(s)
  {
    hide IsSizeToken, Digits, Fraction, Unit;
    if IsSizeToken(s) {
      TokenIsWritten(s);
    }
    if WritesSize(s) {
      var whole: string, fraction: string, unit: string :|
        Digits(whole) && Fraction(fraction) && Unit(unit) && s == whole + fraction + unit;
      WrittenTokenIsOk(whole, fraction, unit);
    }
  }

  // ------------------------------------------------------------ a section header

  // A name and a colon; "./" in front of the name is dropped once.
  predicate WritesHeader(text: string, name: string) {
    && name != ""
    && (text == "./" + name + ":" || (text == name + ":" && !(|name| >= 2 && name[0] == '.' && name[1] == '/')))
  }

  lemma {:induction false} HeaderNameIs(text: string, name: string)
    requires name != ""
    ensures HeaderName(text) == name <==> WritesHeader(text, name)
  {
    if HeaderName(text) == name {
      var whole := text[..|text| - 1];
      assert text == whole + ":";
      if |whole| >= 2 && whole[..2] == "./" {
        assert whole == "./" + whole[2..];
        assert text == "./" + name + ":";
      }
    }
    if text == "./" + name + ":" {
      assert text[..|text| - 1] == "./" + name;
    } else if WritesHeader(text, name) {
      assert text[..|text| - 1] == name;
    }
  }

  // ------------------------------------------------------------ one line

  // The line can be decoded, and `text` is what it says.
  predicate Says(line: Line, text: string) {
    !line.tooLong && line.bytes != [] && Utf8.Decode(line.bytes) == Some(text)
  }

  ghost predicate IsHeaderLine(line: Line, mode: Mode) {
    mode.expectHeader && exists text, name :: Says(line, text) && WritesHeader(text, name)
  }

  // A well-formed entry under a section.
  ghost predicate IsEntryLine(line: Line, mode: Mode, kind: char, token: string, name: string) {
    && !mode.expectHeader && mode.directory.Some? && name != ""
    && exists text :: Says(line, text) && WritesEntry(text, kind, token, name) && WritesSize(token)
  }

  lemma {:induction false} NoHeader(text: string)
    ensures HeaderName(text) == "" <==> forall name :: !WritesHeader(text, name)
  {
    hide WritesHeader;
    if HeaderName(text) != "" {
      HeaderNameIs(text, HeaderName(text));
    }
    forall name | WritesHeader(text, name) ensures HeaderName(text) != "" {
      WrittenNames(text, name);
      HeaderNameIs(text, name);
    }
  }

  lemma {:induction false} WrittenNames(text: string, name: string)
    ensures WritesHeader(text, name) ==> name != ""
  {
  }

  // The class of a line: too long and not understood, blank, undecodable, a header where a section may
  // begin, a directory or a file where one has begun, and not understood otherwise.
  lemma {:induction false} ClassIs(line: Line, mode: Mode, headers: set<string>)
    ensures var c := Judge(line, mode, headers).class_;
            && (c.Blank? <==> !line.tooLong && line.bytes == [])
            && (c.DecodeError? <==> !line.tooLong && line.bytes != [] && Utf8.Decode(line.bytes).None?)
            && (c.Header? <==> IsHeaderLine(line, mode))
            && (c.Directory? <==> exists token, name :: IsEntryLine(line, mode, 'd', token, name))
            && (c.File? <==> exists token, name :: IsEntryLine(line, mode, '-', token, name))
  {
    hide EntryMatch, IsSizeToken, HeaderName, WritesHeader, WritesEntry, WritesSize;
    if !line.tooLong && line.bytes != [] && Utf8.Decode(line.bytes).Some? {
      var text := Utf8.Decode(line.bytes).value;
      NoHeader(text);
      EntryForm(text);
      var m := EntryMatch(text);
      if !mode.expectHeader && m.Some? && m.value.name != "" && IsSizeToken(m.value.token) && mode.directory.Some? {
        assert Says(line, text) && IsEntryLine(line, mode, m.value.kind, m.value.token, m.value.name);
      }
    }
  }

  lemma {:induction false} EntryForm(text: string)
    ensures var m := EntryMatch(text);
            && (m.Some? ==> WritesEntry(text, m.value.kind, m.value.token, m.value.name))
            && (m.Some? ==> (IsSizeToken(m.value.token) <==> WritesSize(m.value.token)))
            && (m.Some? ==> m.value.kind == 'd' || m.value.kind == '-')
    ensures forall kind, token, name :: WritesEntry(text, kind, token, name) ==> EntryMatch(text) == Some(Match(kind, token, name))
  {
    hide WritesSize, IsSizeToken;
    forall kind, token, name
      ensures EntryMatch(text) == Some(Match(kind, token, name)) <==> WritesEntry(text, kind, token, name)
    {
      EntryMatchIs(text, kind, token, name);
    }
    if EntryMatch(text).Some? {
      SizeTokenIs(EntryMatch(text).value.token);
    }
  }

  // What a file line yields.
  lemma {:induction false} FileEntryIs(line: Line, mode: Mode, headers: set<string>, token: string, name: string)
    requires IsEntryLine(line, mode, '-', token, name)
    ensures Judge(line, mode, headers).entry == Some(Entry(line.number, token, mode.directory.value, name))
  {
    hide EntryMatch, IsSizeToken, WritesEntry, WritesSize;
    var text :| Says(line, text) && WritesEntry(text, '-', token, name) && WritesSize(token);
    EntryForm(text);
  }

  // The section of the next line: a header opens its section, a line that should have been a header and
  // is none closes it, a blank line right after a header separates, and any other blank line ends the
  // section. Every other line stays in it.
  lemma {:induction false} NextModeIs(line: Line, mode: Mode, headers: set<string>)
    ensures var v := Judge(line, mode, headers);
            var silent := line.tooLong || (line.bytes != [] && Utf8.Decode(line.bytes).None?);
            && (v.class_.Header? ==>
                  exists text, name :: (&& Says(line, text) && WritesHeader(text, name)
                                        && v.next == Mode(Some(if name == "." then "" else name), false, true)))
            && (v.class_.Blank? ==> v.next == Mode(mode.directory, mode.expectHeader || !mode.afterHeader, false))
            && (silent && mode.expectHeader ==> v.next == Mode(None, false, mode.afterHeader))
            && (silent && !mode.expectHeader ==> v.next == mode)
            && (!silent && !v.class_.Header? && !v.class_.Blank? ==>
                  v.next == Mode(if mode.expectHeader then None else mode.directory, false, false))
  {
    hide EntryMatch, IsSizeToken, HeaderName, WritesHeader;
    if !line.tooLong && line.bytes != [] && Utf8.Decode(line.bytes).Some? {
      var text := Utf8.Decode(line.bytes).value;
      if HeaderName(text) != "" {
        HeaderNameIs(text, HeaderName(text));
      }
    }
  }

  // Which issue a line raises.
  lemma {:induction false} IssueIs(line: Line, mode: Mode, headers: set<string>)
    ensures var v := Judge(line, mode, headers);
            && (v.issue == Some(LineTooLong) <==> line.tooLong)
            && (v.issue == Some(BadBytes) <==> v.class_.DecodeError?)
            && (v.issue == Some(NotAHeader) <==> v.class_.Unparsed? && !line.tooLong && mode.expectHeader)
            && (v.issue == Some(DuplicateHeader) <==>
                  v.class_.Header? && exists text, name :: Says(line, text) && WritesHeader(text, name) && name in headers)
            && (v.issue == Some(EmptyName) <==>
                  !mode.expectHeader && exists text, kind, token :: Says(line, text) && WritesEntry(text, kind, token, ""))
            && (v.issue == Some(BadSizeToken) <==>
                  !mode.expectHeader
                  && exists text, kind, token, name ::
                       (Says(line, text) && WritesEntry(text, kind, token, name) && name != "" && !WritesSize(token)))
            && (v.issue.None? <==> (v.class_.Blank? || v.class_.Directory? || v.class_.File?
                                    || (v.class_.Header? && v.issue != Some(DuplicateHeader))))
  {
    hide EntryMatch, IsSizeToken, HeaderName, WritesHeader, WritesEntry, WritesSize;
    if !line.tooLong && line.bytes != [] && Utf8.Decode(line.bytes).Some? {
      var text := Utf8.Decode(line.bytes).value;
      EntryForm(text);
      NoHeader(text);
      forall name | WritesHeader(text, name) ensures HeaderName(text) == name {
        WrittenNames(text, name);
        HeaderNameIs(text, name);
      }
      if HeaderName(text) != "" {
        HeaderNameIs(text, HeaderName(text));
      }
    }
  }
}
