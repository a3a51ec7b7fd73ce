/** The streaming line reader of the inventory: bounded reads of a byte stream. */
module LineReader {
  import opened Prelude

  const MAX_LINE_BYTES := 8192
  const NEWLINE: byte := 10

  predicate EndsLine(chunk: Bytes) {
    |chunk| > 0 && chunk[|chunk| - 1] == NEWLINE
  }

  // ------------------------------------------------------------ the newline split

  // How many bytes come before the first newline.
  function Until(data: Bytes): (n: nat)
    ensures n <= |data| && (n < |data| ==> data[n] == NEWLINE)
    ensures forall k | 0 <= k < n :: data[k] != NEWLINE
  {
    if data == [] || data[0] == NEWLINE then 0 else 1 + Until(data[1..])
  }

  // The stream without its first line.
  function Behind(data: Bytes): (rest: Bytes)
    ensures data != [] ==> |rest| < |data|
  {
    var n := Until(data);
    if n < |data| then data[n + 1..] else []
  }

  datatype Line = Line(number: nat, bytes: Bytes, tooLong: bool)

  function Clipped(number: nat, bytes: Bytes): Line {
    if |bytes| > MAX_LINE_BYTES then Line(number, bytes[..MAX_LINE_BYTES], true) else Line(number, bytes, false)
  }

  // Every line of the stream, with its number; longer lines are cut and flagged.
  function SplitFrom(data: Bytes, number: nat): (lines: seq<Line>)
    decreases |data|
  {
    if data == [] then []
    else [Clipped(number, data[..Until(data)])] + SplitFrom(Behind(data), number + 1)
  }

  // ------------------------------------------------------------ the bounded stream

  class Stream {
    const data: Bytes
    var pos: nat

    ghost predicate Valid()
      reads this
    {
      pos <= |data|
    }

    ghost function Left(): Bytes
      requires Valid()
      reads this
    {
      data[pos..]
    }

    constructor (data: Bytes)
      ensures Valid() && this.data == data && pos == 0
    {
      this.data, pos := data, 0;
    }

    // readline(limit): up to and with the next newline, and never more than `limit` bytes.
    method ReadLine(limit: nat) returns (chunk: Bytes)
      requires Valid() && limit > 0
      modifies this
      ensures Valid() && old(Left()) == chunk + Left()
      ensures var n := Until(old(Left()));
              |chunk| == if n + 1 <= limit && n < |old(Left())| then n + 1 else if n <= limit then n else limit
      ensures pos == old(pos) + |chunk|
    {
      var k := pos;
      while k < |data| && k - pos < limit && data[k] != NEWLINE
        invariant pos <= k <= |data| && k - pos <= limit
        invariant forall m | pos <= m < k :: data[m] != NEWLINE
      {
        k := k + 1;
      }
      if k < |data| && k - pos < limit {
        k := k + 1;
      }
      chunk := data[pos..k];
      UntilIs(data[pos..], if k > pos && data[k - 1] == NEWLINE then k - 1 - pos else k - pos, limit);
      pos := k;
    }
  }

  // `n` bytes without a newline, then a newline, the end, or the limit.
  lemma {:induction false} UntilIs(data: Bytes, n: nat, limit: nat)
    requires n <= |data| && forall k | 0 <= k < n :: data[k] != NEWLINE
    requires n == |data| || data[n] == NEWLINE || n == limit
    ensures Until(data) >= n && (n == |data| || data[n] == NEWLINE ==> Until(data) == n)
  {
  }

  // ------------------------------------------------------------ read_lines

  // A read that is not the end of a line has not met the newline yet.
  lemma {:induction false} Skipped(data: Bytes, m: nat)
    requires m <= Until(data)
    ensures Until(data[m..]) == Until(data) - m && Behind(data[m..]) == Behind(data)
  {
    var n := Until(data);
    UntilIs(data[m..], n - m, |data|);
    assert n < |data| ==> data[m..][n - m] == data[n];
    if n < |data| {
      assert data[m..][n - m + 1..] == data[n + 1..];
    }
  }

  // What the first bounded read of a line tells.
  lemma {:induction false} FirstChunk(data: Bytes, chunk: Bytes, left: Bytes)
    requires data != [] && data == chunk + left
    requires var n := Until(data);
             |chunk| == if n + 1 <= MAX_LINE_BYTES + 1 && n < |data| then n + 1
                        else if n <= MAX_LINE_BYTES + 1 then n else MAX_LINE_BYTES + 1
    ensures (|chunk| > MAX_LINE_BYTES && !EndsLine(chunk)) <==> Until(data) > MAX_LINE_BYTES
    ensures Until(data) > MAX_LINE_BYTES ==>
              chunk[..MAX_LINE_BYTES] == data[..Until(data)][..MAX_LINE_BYTES] && |chunk| <= Until(data)
              && left == data[|chunk|..]
    ensures Until(data) <= MAX_LINE_BYTES ==>
              (if EndsLine(chunk) then chunk[..|chunk| - 1] else chunk) == data[..Until(data)] && left == Behind(data)
  {
    var n := Until(data);
    assert forall k | 0 <= k < |chunk| :: chunk[k] == data[k];
  }

  // The rest of a line that is too long.
  method DiscardRest(handle: Stream)
    requires handle.Valid()
    modifies handle
    ensures handle.Valid() && handle.Left() == Behind(old(handle.Left())) && handle.pos >= old(handle.pos)
  {
    while true
      invariant handle.Valid() && handle.pos >= old(handle.pos)
      invariant Behind(handle.Left()) == Behind(old(handle.Left()))
      decreases |handle.data| - handle.pos
    {
      ghost var before := handle.Left();
      var rest := handle.ReadLine(MAX_LINE_BYTES);
      LastRead(before, rest, handle.Left());
      if rest == [] || EndsLine(rest) {
        break;
      }
    }
  }

  // A read of a line either ends it or leaves the rest of it.
  lemma {:induction false} LastRead(data: Bytes, rest: Bytes, left: Bytes)
    requires data == rest + left
    requires var n := Until(data);
             |rest| == if n + 1 <= MAX_LINE_BYTES && n < |data| then n + 1 else if n <= MAX_LINE_BYTES then n else MAX_LINE_BYTES
    ensures rest == [] || EndsLine(rest) ==> left == Behind(data)
    ensures !(rest == [] || EndsLine(rest)) ==> Behind(left) == Behind(data)
  {
    var n := Until(data);
    assert forall k | 0 <= k < |rest| :: rest[k] == data[k];
    assert left == data[|rest|..];
    if |rest| <= n {
      Skipped(data, |rest|);
    }
  }

  // One more line of the split.
  lemma {:induction false} SplitStep(data: Bytes, number: nat)
    requires data != []
    ensures SplitFrom(data, number) == [Clipped(number, data[..Until(data)])] + SplitFrom(Behind(data), number + 1)
  {
  }

  // The first read of a line gives the line, and what it leaves begins the next one, or the rest of this.
  lemma {:induction false} FirstLine(data: Bytes, chunk: Bytes, left: Bytes, number: nat)
    requires data != [] && data == chunk + left
    requires var n := Until(data);
             |chunk| == if n + 1 <= MAX_LINE_BYTES + 1 && n < |data| then n + 1
                        else if n <= MAX_LINE_BYTES + 1 then n else MAX_LINE_BYTES + 1
    ensures if |chunk| > MAX_LINE_BYTES && !EndsLine(chunk) then
              SplitFrom(data, number) == [Line(number, chunk[..MAX_LINE_BYTES], true)] + SplitFrom(Behind(left), number + 1)
            else
              SplitFrom(data, number)
              == [Line(number, if EndsLine(chunk) then chunk[..|chunk| - 1] else chunk, false)] + SplitFrom(left, number + 1)
  {
    hide Until, Behind, SplitFrom, EndsLine;
    FirstChunk(data, chunk, left);
    SplitStep(data, number);
    if Until(data) > MAX_LINE_BYTES {
      Skipped(data, |chunk|);
    }
  }

  method ReadLines(data: Bytes) returns (lines: seq<Line>)
    ensures lines == SplitFrom(data, 1)
  {
    hide Until, Behind, SplitFrom, Clipped;
    var handle := new Stream(data);
    lines := [];
    var number := 0;
    assert handle.Left() == data;
    while true
      invariant handle.Valid() && handle.data == data && fresh(handle)
      invariant lines + SplitFrom(handle.Left(), number + 1) == SplitFrom(data, 1)
      decreases |data| - handle.pos
    {
      ghost var start := handle.Left();
      var chunk := handle.ReadLine(MAX_LINE_BYTES + 1);
      if chunk == [] {
        EmptyRead(start, number + 1);
        break;
      }
      number := number + 1;
      FirstLine(start, chunk, handle.Left(), number);
      var tooLong := |chunk| > MAX_LINE_BYTES && !EndsLine(chunk);
      if tooLong {
        chunk := chunk[..MAX_LINE_BYTES];
        DiscardRest(handle);
      } else if EndsLine(chunk) {
        chunk := chunk[..|chunk| - 1];
      }
      OneMore(lines, Line(number, chunk, tooLong), SplitFrom(handle.Left(), number + 1));
      lines := lines + [Line(number, chunk, tooLong)];
    }
  }

  lemma {:induction false} OneMore(lines: seq<Line>, line: Line, rest: seq<Line>)
    ensures (lines + [line]) + rest == lines + ([line] + rest)
  {
  }

  lemma {:induction false} EmptyRead(data: Bytes, number: nat)
    requires var n := Until(data);
             0 == if n + 1 <= MAX_LINE_BYTES + 1 && n < |data| then n + 1
                  else if n <= MAX_LINE_BYTES + 1 then n else MAX_LINE_BYTES + 1
    ensures SplitFrom(data, number) == []
  {
  }

  // ------------------------------------------------------------ what the split means

  function Glued(lines: seq<Line>): Bytes {
    if lines == [] then [] else lines[0].bytes + [NEWLINE] + Glued(lines[1..])
  }

  predicate Whole(lines: seq<Line>) {
    forall k | 0 <= k < |lines| :: !lines[k].tooLong
  }

  lemma {:induction false} SplitHead(data: Bytes, number: nat)
    requires data != []
    ensures var lines := SplitFrom(data, number);
            && |lines| > 0 && lines[0] == Clipped(number, data[..Until(data)])
            && lines[1..] == SplitFrom(Behind(data), number + 1)
    ensures NEWLINE !in data[..Until(data)]
    ensures data == data[..Until(data)] + (if Until(data) < |data| then [NEWLINE] else []) + Behind(data)
  {
    hide Until, Clipped;
    var n := Until(data);
    if n < |data| {
      assert data == data[..n] + [data[n]] + data[n + 1..];
    } else {
      assert data == data[..n] + [] + [];
    }
  }

  // Bytes up to a newline, byte 10, are one line; of more than 8192 bytes the first 8192 are kept.
  lemma {:induction false} LineIs(piece: Bytes, rest: Bytes, number: nat)
    requires 10 !in piece
    ensures var line := Line(number, if |piece| > 8192 then piece[..8192] else piece, |piece| > 8192);
            && SplitFrom(piece + [10] + rest, number) == [line] + SplitFrom(rest, number + 1)
            && (piece != [] ==> SplitFrom(piece, number) == [line]) && SplitFrom([], number) == []
  {
    hide Until;
    var data := piece + [10] + rest;
    assert forall k | 0 <= k < |piece| :: data[k] == piece[k] && piece[k] in piece;
    UntilIs(data, |piece|, |piece|);
    UntilIs(piece, |piece|, |piece|);
    assert data[..|piece|] == piece && data[|piece| + 1..] == rest && piece[..|piece|] == piece;
  }

  // The lines are numbered, hold no newline and are never longer than the limit.
  lemma {:induction false} SplitIsNumbered(data: Bytes, number: nat)
    ensures var lines := SplitFrom(data, number);
            forall k | 0 <= k < |lines| ::
              lines[k].number == number + k && NEWLINE !in lines[k].bytes && |lines[k].bytes| <= MAX_LINE_BYTES
    decreases |data|
  {
    hide SplitFrom, Until;
    if data == [] {
      EmptySplit(number);
    } else {
      SplitHead(data, number);
      SplitIsNumbered(Behind(data), number + 1);
      var lines := SplitFrom(data, number);
      forall k | 0 <= k < |lines|
        ensures lines[k].number == number + k && NEWLINE !in lines[k].bytes && |lines[k].bytes| <= MAX_LINE_BYTES
      {
        if k > 0 {
          assert lines[k] == lines[1..][k - 1];
        }
      }
    }
  }

  lemma {:induction false} NumbersIncrease(data: Bytes, number: nat)
    ensures var lines := SplitFrom(data, number);
            forall k, n | 0 <= k < n < |lines| :: lines[k].number < lines[n].number
  {
    SplitIsNumbered(data, number);
  }

  // When no line is flagged, gluing the lines gives the stream back.
  lemma {:induction false} SplitGlues(data: Bytes, number: nat)
    requires Whole(SplitFrom(data, number))
    ensures Glued(SplitFrom(data, number)) == data + if data == [] || EndsLine(data) then [] else [NEWLINE]
    decreases |data|
  {
    hide SplitFrom, Until, Behind;
    if data == [] {
      EmptySplit(number);
    } else {
      SplitHead(data, number);
      var lines, rest := SplitFrom(data, number), SplitFrom(Behind(data), number + 1);
      forall k | 0 <= k < |rest| ensures !rest[k].tooLong {
        assert rest[k] == lines[k + 1];
      }
      SplitGlues(Behind(data), number + 1);
      BehindIsShort(data);
    }
  }

  lemma {:induction false} BehindIsShort(data: Bytes)
    requires data != []
    ensures |Behind(data)| < |data|
    ensures if Until(data) < |data| then (EndsLine(data) <==> Behind(data) == [] || EndsLine(Behind(data)))
            else Behind(data) == [] && !EndsLine(data)
  {
    var n := Until(data);
    if n < |data| && Behind(data) != [] {
      assert data[|data| - 1] == Behind(data)[|Behind(data)| - 1];
    }
  }

  lemma {:induction false} EmptySplit(number: nat)
    ensures SplitFrom([], number) == []
  {
  }
}
