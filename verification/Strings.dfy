/** Splitting and joining strings at one character. */
module Strings {

  // str.split(c): there is always a first part.
  function Split(s: string, c: char): (parts: seq<string>)
    ensures |parts| > 0
  {
    if s == [] then [""]
    else if s[0] == c then [""] + Split(s[1..], c)
    else
      var rest := Split(s[1..], c);
      [[s[0]] + rest[0]] + rest[1..]
  }

  function Join(parts: seq<string>, c: char): string {
    if parts == [] then "" else if |parts| == 1 then parts[0] else parts[0] + [c] + Join(parts[1..], c)
  }

  predicate Free(s: string, c: char) {
    c !in s
  }

  lemma {:induction false} SplitFree(s: string, c: char)
    requires Free(s, c)
    ensures Split(s, c) == [s]
  {
    if s != [] {
      assert s[0] in s && forall x | x in s[1..] :: x in s;
      SplitFree(s[1..], c);
      assert [s[0]] + s[1..] == s;
    }
  }

  // The first part ends at the first separator.
  lemma {:induction false} SplitFirst(a: string, b: string, c: char)
    requires Free(a, c)
    ensures Split(a + [c] + b, c) == [a] + Split(b, c)
  {
    if a == [] {
      assert (a + [c] + b)[1..] == b;
    } else {
      assert a[0] in a && forall x | x in a[1..] :: x in a;
      SplitFirst(a[1..], b, c);
      assert (a + [c] + b)[1..] == a[1..] + [c] + b;
      assert [a[0]] + a[1..] == a;
    }
  }

  lemma {:induction false} SplitJoin(parts: seq<string>, c: char)
    requires |parts| > 0 && forall k | 0 <= k < |parts| :: Free(parts[k], c)
    ensures Split(Join(parts, c), c) == parts
  {
    if |parts| == 1 {
      SplitFree(parts[0], c);
    } else {
      SplitJoin(parts[1..], c);
      SplitFirst(parts[0], Join(parts[1..], c), c);
    }
  }

  lemma {:induction false} JoinSplit(s: string, c: char)
    ensures Join(Split(s, c), c) == s
    ensures forall k | 0 <= k < |Split(s, c)| :: Free(Split(s, c)[k], c)
  {
    if s == [] {
    } else {
      JoinSplit(s[1..], c);
      var rest := Split(s[1..], c);
      if s[0] == c {
        assert ([""] + rest)[1..] == rest;
      } else {
        assert ([[s[0]] + rest[0]] + rest[1..])[1..] == rest[1..];
      }
      assert [s[0]] + s[1..] == s;
    }
  }

  // Joining more parts behind a first one.
  lemma {:induction false} JoinMore(first: string, parts: seq<string>, c: char)
    requires |parts| > 0
    ensures Join([first] + parts, c) == first + [c] + Join(parts, c)
  {
    assert ([first] + parts)[1..] == parts;
  }

  lemma {:induction false} JoinJoins(a: seq<string>, b: seq<string>, c: char)
    requires |a| > 0 && |b| > 0
    ensures Join(a + b, c) == Join(a, c) + [c] + Join(b, c)
  {
    if |a| == 1 {
      JoinMore(a[0], b, c);
      assert a + b == [a[0]] + b;
    } else {
      JoinJoins(a[1..], b, c);
      JoinMore(a[0], a[1..] + b, c);
      assert a + b == [a[0]] + (a[1..] + b);
    }
  }

  // Every character of the joined string is a separator or comes from a part.
  lemma {:induction false} JoinCharacters(parts: seq<string>, c: char, x: char)
    requires x in Join(parts, c)
    ensures x == c || exists k :: 0 <= k < |parts| && x in parts[k]
  {
    if |parts| == 1 {
      assert x in parts[0];
    } else if |parts| > 1 {
      if x !in parts[0] && x != c {
        JoinCharacters(parts[1..], c, x);
        var k :| 0 <= k < |parts[1..]| && x in parts[1..][k];
        assert x in parts[k + 1];
      }
    }
  }

  // The index of the first character of `stops`, or the length.
  function Find(s: string, stops: string): (n: nat)
    ensures n <= |s| && (n < |s| ==> s[n] in stops)
    ensures forall k | 0 <= k < n :: s[k] !in stops
  {
    if s == [] || s[0] in stops then 0 else 1 + Find(s[1..], stops)
  }

  lemma {:induction false} FindIs(a: string, b: string, stops: string)
    requires forall x | x in a :: x !in stops
    requires b == [] || b[0] in stops
    ensures Find(a + b, stops) == |a|
  {
    var n := Find(a + b, stops);
    assert forall k | 0 <= k < |a| :: (a + b)[k] in a;
    assert b != [] ==> (a + b)[|a|] == b[0];
  }
}
