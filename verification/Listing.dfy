/** The parser of an `ls -R` style listing: every line falls into one class. */
module Listing {
  import opened Prelude
  import opened LineReader
  import Utf8

  const MAX_LISTED_ISSUES := 1000

  datatype Class = Blank | Header | Directory | File | Unparsed | DecodeError

  datatype Code = LineTooLong | BadBytes | NotAHeader | DuplicateHeader | BadEntry | EmptyName | BadSizeToken

  datatype Entry = Entry(line: nat, sizeToken: string, directory: string, name: string)

  // The section that the next line belongs to. `afterHeader` expects the separator line.
  datatype Mode = Mode(directory: Option<string>, expectHeader: bool, afterHeader: bool)

  const Beginning := Mode(None, true, false)

  // ------------------------------------------------------------ patterns

  // What `\S` does not match.
  predicate IsSpace(c: char) {
    var n := c as int;
    || 0x09 <= n <= 0x0D || 0x1C <= n <= 0x20 || n == 0x85 || n == 0xA0 || n == 0x1680 || 0x2000 <= n <= 0x200A
    || n == 0x2028 || n == 0x2029 || n == 0x202F || n == 0x205F || n == 0x3000
  }

  predicate IsDigit(c: char) {
    '0' <= c <= '9'
  }

  function TokenLength(s: string): (n: nat)
    ensures n <= |s|
  {
    if s == [] || IsSpace(s[0]) then 0 else 1 + TokenLength(s[1..])
  }

  // kind, blank, token, blank, name
  datatype Match = Match(kind: char, token: string, name: string)

  function EntryMatch(text: string): Option<Match> {
    if |text| < 2 || text[0] !in "d-" || text[1] != ' ' then None
    else
      var n := TokenLength(text[2..]);
      if n == 0 || n + 2 >= |text| || text[n + 2] != ' ' then None
      else Some(Match(text[0], text[2..n + 2], text[n + 3..]))
  }

  function DigitsLength(s: string): (n: nat)
    ensures n <= |s|
  {
    if s == [] || !IsDigit(s[0]) then 0 else 1 + DigitsLength(s[1..])
  }

  // Digits, an optional fraction, an optional unit.
  predicate IsSizeToken(s: string) {
    var n := DigitsLength(s);
    && n > 0
    && var rest := s[n..];
    var m := if |rest| > 0 && rest[0] == '.' then DigitsLength(rest[1..]) else 0;
    var unit := if m > 0 then rest[m + 1..] else rest;
    unit == "" || (|unit| == 1 && unit[0] in "KMGTPE")
  }

  // ------------------------------------------------------------ one line

  function HeaderName(text: string): string {
    var name := if |text| > 0 && text[|text| - 1] == ':' then text[..|text| - 1] else "";
    if |name| >= 2 && name[..2] == "./" then name[2..] else name
  }

  datatype Verdict = Verdict(class_: Class, issue: Option<Code>, entry: Option<Entry>, next: Mode)

  // A line that cannot be a header closes the section that it should have opened.
  function Broken(mode: Mode): Mode {
    if mode.expectHeader then mode.(directory := None, expectHeader := false) else mode
  }

  function Judge(line: Line, mode: Mode, headers: set<string>): Verdict {
    if line.tooLong then Verdict(Unparsed, Some(LineTooLong), None, Broken(mode))
    else if line.bytes == [] then
      Verdict(Blank, None, None,
              if mode.afterHeader then mode.(afterHeader := false) else mode.(expectHeader := true))
    else if Utf8.Decode(line.bytes).None? then Verdict(DecodeError, Some(BadBytes), None, Broken(mode))
    else
      var text := Utf8.Decode(line.bytes).value;
      if mode.expectHeader then JudgeHeader(text, headers) else JudgeEntry(line.number, text, mode)
  }

  function JudgeHeader(text: string, headers: set<string>): Verdict {
    var name := HeaderName(text);
    if name == "" then Verdict(Unparsed, Some(NotAHeader), None, Mode(None, false, false))
    else
      Verdict(Header, if name in headers then Some(DuplicateHeader) else None, None,
              Mode(Some(if name == "." then "" else name), false, true))
  }

  function JudgeEntry(number: nat, text: string, mode: Mode): Verdict {
    var next := mode.(afterHeader := false);
    var m := EntryMatch(text);
    if m.None? then Verdict(Unparsed, Some(BadEntry), None, next)
    else if m.value.name == "" then Verdict(Unparsed, Some(EmptyName), None, next)
    else if !IsSizeToken(m.value.token) then Verdict(Unparsed, Some(BadSizeToken), None, next)
    else if mode.directory.None? then Verdict(Unparsed, Some(BadEntry), None, next)
    else if m.value.kind == 'd' then Verdict(Directory, None, None, next)
    else Verdict(File, None, Some(Entry(number, m.value.token, mode.directory.value, m.value.name)), next)
  }

  function NewHeaders(line: Line, mode: Mode, headers: set<string>): set<string> {
    if Judge(line, mode, headers).class_.Header? then headers + {HeaderName(Utf8.Decode(line.bytes).value)} else headers
  }

  // ------------------------------------------------------------ all lines

  datatype Progress = Progress(mode: Mode, headers: set<string>)

  function After(lines: seq<Line>): Progress {
    if lines == [] then Progress(Beginning, {})
    else
      var p, last := After(lines[..|lines| - 1]), lines[|lines| - 1];
      Progress(Judge(last, p.mode, p.headers).next, NewHeaders(last, p.mode, p.headers))
  }

  // The verdict on line `k`, under the section that the lines before it opened.
  function VerdictAt(lines: seq<Line>, k: nat): Verdict
    requires k < |lines|
  {
    var p := After(lines[..k]);
    Judge(lines[k], p.mode, p.headers)
  }

  function Entries(lines: seq<Line>): seq<Entry> {
    if lines == [] then []
    else
      var n := |lines| - 1;
      Entries(lines[..n]) + if VerdictAt(lines, n).entry.Some? then [VerdictAt(lines, n).entry.value] else []
  }

  function ClassCount(lines: seq<Line>, c: Class): nat {
    if lines == [] then 0
    else ClassCount(lines[..|lines| - 1], c) + if VerdictAt(lines, |lines| - 1).class_ == c then 1 else 0
  }

  function IssueCount(lines: seq<Line>, code: Code): nat {
    if lines == [] then 0
    else IssueCount(lines[..|lines| - 1], code) + if VerdictAt(lines, |lines| - 1).issue == Some(code) then 1 else 0
  }

  // Every issue with its line, in order.
  function Issues(lines: seq<Line>): seq<(nat, Code)> {
    if lines == [] then []
    else
      var n := |lines| - 1;
      Issues(lines[..n])
      + if VerdictAt(lines, n).issue.Some? then [(lines[n].number, VerdictAt(lines, n).issue.value)] else []
  }

  // The issues that the report lists.
  function Shortened(issues: seq<(nat, Code)>): seq<(nat, Code)> {
    if |issues| <= 1000 then issues else issues[..1000]
  }

  function NoLines(c: Class): nat {
    0
  }

  function NoIssues(code: Code): nat {
    0
  }

  // ------------------------------------------------------------ the parser

  class ListingParser {
    var lineCount: nat
    var classes: map<Class, nat>
    var issueCounts: map<Code, nat>
    var issues: seq<(nat, Code)>
    var headers: set<string>
    // what has been parsed so far
    ghost var seen: seq<Line>

    ghost predicate Valid()
      reads this
    {
      && lineCount == |seen|
      && (forall c: Class :: c in classes && classes[c] == ClassCount(seen, c))
      && (forall code: Code :: code in issueCounts && issueCounts[code] == IssueCount(seen, code))
      && headers == After(seen).headers && issues == Shortened(Issues(seen))
    }

    constructor ()
      ensures Valid() && seen == [] && issues == []
    {
      lineCount, headers, issues, seen := 0, {}, [], [];
      classes := map c: Class | true :: NoLines(c);
      issueCounts := map code: Code | true :: NoIssues(code);
    }

    method Count(c: Class)
      requires c in classes
      modifies this`classes
      ensures classes == old(classes)[c := old(classes)[c] + 1]
    {
      classes := classes[c := classes[c] + 1];
    }

    method Issue(number: nat, code: Code)
      requires code in issueCounts
      modifies this`issueCounts, this`issues
      ensures issueCounts == old(issueCounts)[code := old(issueCounts)[code] + 1]
      ensures issues == if |old(issues)| < MAX_LISTED_ISSUES then old(issues) + [(number, code)] else old(issues)
    {
      issueCounts := issueCounts[code := issueCounts[code] + 1];
      if |issues| < MAX_LISTED_ISSUES {
        issues := issues + [(number, code)];
      }
    }

    // One line: its class, its issue, and the mode for the next line.
    method JudgeLine(line: Line, mode: Mode) returns (entry: Option<Entry>, next: Mode)
      requires (forall c: Class :: c in classes) && forall code: Code :: code in issueCounts
      modifies this`classes, this`issueCounts, this`issues, this`headers
      ensures Counted(old(classes), old(issueCounts), classes, issueCounts, Judge(line, mode, old(headers)))
      ensures issues == Noted(old(issues), line.number, Judge(line, mode, old(headers)).issue)
      ensures headers == NewHeaders(line, mode, old(headers))
      ensures entry == Judge(line, mode, old(headers)).entry && next == Judge(line, mode, old(headers)).next
    {
      hide EntryMatch, IsSizeToken, HeaderName;
      entry, next := None, mode;
      if line.tooLong {
        Count(Unparsed);
        Issue(line.number, LineTooLong);
        if mode.expectHeader {
          next := mode.(directory := None, expectHeader := false);
        }
        return;
      }
      if line.bytes == [] {
        Count(Blank);
        if mode.afterHeader {
          next := mode.(afterHeader := false);
        } else {
          next := mode.(expectHeader := true);
        }
        return;
      }
      var text := Utf8.Decode(line.bytes);
      if text.None? {
        Count(DecodeError);
        Issue(line.number, BadBytes);
        if mode.expectHeader {
          next := mode.(directory := None, expectHeader := false);
        }
        return;
      }
      if mode.expectHeader {
        next := ParseHeader(line.number, text.value);
        return;
      }
      next := mode.(afterHeader := false);
      entry := ParseEntry(line.number, text.value, mode.directory);
    }

    method ParseLine(line: Line, mode: Mode) returns (entry: Option<Entry>, next: Mode)
      requires Valid() && mode == After(seen).mode
      modifies this
      ensures Valid() && seen == old(seen) + [line] && next == After(seen).mode
      ensures entry == VerdictAt(seen, |seen| - 1).entry
    {
      hide Judge, NewHeaders;
      ghost var was, issued := classes, issueCounts;
      ghost var verdict := Judge(line, mode, headers);
      lineCount := lineCount + 1;
      entry, next := JudgeLine(line, mode);
      LineCounted(seen, line, was, issued, classes, issueCounts, verdict);
      LineNoted(seen, line, verdict);
      seen := seen + [line];
    }

    method ParseHeader(number: nat, text: string) returns (next: Mode)
      requires (forall c: Class :: c in classes) && forall code: Code :: code in issueCounts
      modifies this`classes, this`issueCounts, this`issues, this`headers
      ensures Counted(old(classes), old(issueCounts), classes, issueCounts, JudgeHeader(text, old(headers)))
      ensures issues == Noted(old(issues), number, JudgeHeader(text, old(headers)).issue)
      ensures next == JudgeHeader(text, old(headers)).next
      ensures headers == if HeaderName(text) == "" then old(headers) else old(headers) + {HeaderName(text)}
    {
      var name := HeaderName(text);
      if name == "" {
        Count(Unparsed);
        Issue(number, NotAHeader);
        return Mode(None, false, false);
      }
      Count(Header);
      if name in headers {
        Issue(number, DuplicateHeader);
      }
      headers := headers + {name};
      next := Mode(Some(if name == "." then "" else name), false, true);
    }

    method ParseEntry(number: nat, text: string, directory: Option<string>) returns (entry: Option<Entry>)
      requires (forall c: Class :: c in classes) && forall code: Code :: code in issueCounts
      modifies this`classes, this`issueCounts, this`issues
      ensures forall e: bool, a: bool :: entry == JudgeEntry(number, text, Mode(directory, e, a)).entry
      ensures forall e: bool, a: bool :: issues == Noted(old(issues), number, JudgeEntry(number, text, Mode(directory, e, a)).issue)
      ensures forall e: bool, a: bool :: Counted(old(classes), old(issueCounts), classes, issueCounts,
                                              JudgeEntry(number, text, Mode(directory, e, a)))
    {
      hide EntryMatch, IsSizeToken;
      entry := None;
      var m := EntryMatch(text);
      var code: Code;
      if m.None? {
        code := BadEntry;
      } else if m.value.name == "" {
        code := EmptyName;
      } else if !IsSizeToken(m.value.token) {
        code := BadSizeToken;
      } else if directory.None? {
        code := BadEntry;
      } else {
        if m.value.kind == 'd' {
          Count(Directory);
          return;
        }
        Count(File);
        entry := Some(Entry(number, m.value.token, directory.value, m.value.name));
        return;
      }
      Count(Unparsed);
      Issue(number, code);
    }

    method Parse(lines: seq<Line>) returns (entries: seq<Entry>)
      requires Valid() && seen == []
      modifies this
      ensures Valid() && seen == lines && entries == Entries(lines)
    {
      hide Judge, NewHeaders;
      var mode := Beginning;
      entries := [];
      var k := 0;
      while k < |lines|
        invariant 0 <= k <= |lines| && Valid() && seen == lines[..k]
        invariant mode == After(seen).mode && entries == Entries(seen)
      {
        var entry;
        assert lines[..k + 1] == lines[..k] + [lines[k]];
        entry, mode := ParseLine(lines[k], mode);
        assert seen[..k] == lines[..k];
        if entry.Some? {
          entries := entries + [entry.value];
        }
        k := k + 1;
      }
      assert lines[..k] == lines;
    }
  }

  // The counters move as the verdict says.
  predicate Counted(classes: map<Class, nat>, issues: map<Code, nat>, classes': map<Class, nat>, issues': map<Code, nat>,
                    v: Verdict) {
    && v.class_ in classes && classes' == classes[v.class_ := classes[v.class_] + 1]
    && (v.issue.Some? ==> v.issue.value in issues)
    && issues' == if v.issue.Some? then issues[v.issue.value := issues[v.issue.value] + 1] else issues
  }

  lemma {:induction false} LineCounted(seen: seq<Line>, line: Line, classes: map<Class, nat>, issues: map<Code, nat>,
                    classes': map<Class, nat>, issues': map<Code, nat>, v: Verdict)
    requires forall c: Class :: c in classes && classes[c] == ClassCount(seen, c)
    requires forall code: Code :: code in issues && issues[code] == IssueCount(seen, code)
    requires Counted(classes, issues, classes', issues', v)
    requires v == Judge(line, After(seen).mode, After(seen).headers)
    ensures forall c: Class :: c in classes' && classes'[c] == ClassCount(seen + [line], c)
    ensures forall code: Code :: code in issues' && issues'[code] == IssueCount(seen + [line], code)
    ensures After(seen + [line]) == Progress(v.next, NewHeaders(line, After(seen).mode, After(seen).headers))
    ensures VerdictAt(seen + [line], |seen|) == v
  {
    hide Judge, NewHeaders;
    assert (seen + [line])[..|seen|] == seen;
  }

  // An issue is listed while the report has room.
  function Noted(issues: seq<(nat, Code)>, number: nat, issue: Option<Code>): seq<(nat, Code)> {
    if issue.Some? && |issues| < MAX_LISTED_ISSUES then issues + [(number, issue.value)] else issues
  }

  lemma {:induction false} LineNoted(seen: seq<Line>, line: Line, v: Verdict)
    requires v == Judge(line, After(seen).mode, After(seen).headers)
    ensures Shortened(Issues(seen + [line])) == Noted(Shortened(Issues(seen)), line.number, v.issue)
  {
    hide Judge;
    assert (seen + [line])[..|seen|] == seen;
  }

  // ------------------------------------------------------------ what the counters mean

  // No line is lost and none is counted twice, so the accounting error of the report cannot occur.
  lemma {:induction false} ClassesCoverLines(lines: seq<Line>)
    ensures ClassCount(lines, Blank) + ClassCount(lines, Header) + ClassCount(lines, Directory) + ClassCount(lines, File)
            + ClassCount(lines, Unparsed) + ClassCount(lines, DecodeError) == |lines|
  {
    hide VerdictAt;
    if lines != [] {
      ClassesCoverLines(lines[..|lines| - 1]);
    }
  }

  // Every line that is not understood is one structural issue, and a repeated header is none.
  lemma {:induction false} StructuralIssuesAreBadLines(lines: seq<Line>)
    ensures IssueCount(lines, LineTooLong) + IssueCount(lines, BadBytes) + IssueCount(lines, NotAHeader)
            + IssueCount(lines, BadEntry) + IssueCount(lines, EmptyName) + IssueCount(lines, BadSizeToken)
            == ClassCount(lines, Unparsed) + ClassCount(lines, DecodeError)
  {
    hide Judge;
    if lines != [] {
      var n := |lines| - 1;
      StructuralIssuesAreBadLines(lines[..n]);
      var p := After(lines[..n]);
      OneIssuePerBadLine(lines[n], p.mode, p.headers);
    }
  }

  lemma {:induction false} OneIssuePerBadLine(line: Line, mode: Mode, headers: set<string>)
    ensures var v := Judge(line, mode, headers);
            && (v.class_.Unparsed? || v.class_.DecodeError? <==> v.issue.Some? && !v.issue.value.DuplicateHeader?)
            && (v.class_.File? <==> v.entry.Some?)
            && (v.entry.Some? ==> v.entry.value.line == line.number && mode.directory == Some(v.entry.value.directory))
  {
    hide EntryMatch, IsSizeToken, HeaderName;
  }

  // The entries are exactly the file lines, in order, each under the section it stands in.
  lemma {:induction false} EntriesAreFileLines(lines: seq<Line>)
    ensures |Entries(lines)| == ClassCount(lines, File)
    ensures forall e | e in Entries(lines) :: exists k :: 0 <= k < |lines| && VerdictAt(lines, k).entry == Some(e)
                                                          && e.line == lines[k].number
                                                          && After(lines[..k]).mode.directory == Some(e.directory)
  {
    hide Judge;
    if lines != [] {
      var n := |lines| - 1;
      var p := After(lines[..n]);
      EntriesAreFileLines(lines[..n]);
      OneIssuePerBadLine(lines[n], p.mode, p.headers);
      forall e | e in Entries(lines)
        ensures exists k :: 0 <= k < |lines| && VerdictAt(lines, k).entry == Some(e) && e.line == lines[k].number
                            && After(lines[..k]).mode.directory == Some(e.directory)
      {
        if e in Entries(lines[..n]) {
          var k :| 0 <= k < n && VerdictAt(lines[..n], k).entry == Some(e) && e.line == lines[..n][k].number
                   && After(lines[..n][..k]).mode.directory == Some(e.directory);
          assert lines[..n][..k] == lines[..k] && VerdictAt(lines, k).entry == Some(e);
        } else {
          assert VerdictAt(lines, n).entry == Some(e);
        }
      }
    }
  }

  // The lines of the entries increase.
  lemma {:induction false} EntriesInOrder(lines: seq<Line>)
    requires forall k, n | 0 <= k < n < |lines| :: lines[k].number < lines[n].number
    ensures forall k, n | 0 <= k < n < |Entries(lines)| :: Entries(lines)[k].line < Entries(lines)[n].line
    ensures forall k | 0 <= k < |Entries(lines)| :: lines != [] && Entries(lines)[k].line <= lines[|lines| - 1].number
  {
    hide Judge;
    if lines == [] {
      assert Entries(lines) == [];
    } else {
      var n := |lines| - 1;
      var p := After(lines[..n]);
      EntriesInOrder(lines[..n]);
      OneIssuePerBadLine(lines[n], p.mode, p.headers);
      var front, all := Entries(lines[..n]), Entries(lines);
      forall k | 0 <= k < |all| ensures all[k].line <= lines[n].number && (k < |front| ==> all[k].line < lines[n].number) {
        if k < |front| {
          assert all[k] == front[k] && front[k].line <= lines[..n][n - 1].number;
        }
      }
    }
  }
}
