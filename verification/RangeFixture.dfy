/** The acquisition fixture: a representation generated block by block, and the range server
    that cuts its bodies short so that a client has to resume. */
module RangeFixture {
  import opened Prelude
  import opened Strings

  const BLOCK: nat := 1048576
  const CHUNK: nat := 65536

  // The extendable-output function: seed, block index and output size to bytes.
  type Generator = (Bytes, nat, nat) -> Bytes

  ghost predicate Sized(xof: Generator) {
    forall seed, index, size :: |xof(seed, index, size)| == size
  }

  datatype Representation = Representation(seed: Bytes, length: nat)

  function Min(a: int, b: int): int {
    if a < b then a else b
  }

  // ------------------------------------------------------------ generated bytes

  function Block(xof: Generator, r: Representation, index: nat): Bytes
    requires index * BLOCK < r.length
  {
    xof(r.seed, index, Min(BLOCK, r.length - index * BLOCK))
  }

  // The blocks from `index` on, one after the other.
  function From(xof: Generator, r: Representation, index: nat): Bytes
    decreases r.length - index * BLOCK
  {
    if index * BLOCK >= r.length then [] else Block(xof, r, index) + From(xof, r, index + 1)
  }

  function Whole(xof: Generator, r: Representation): Bytes {
    From(xof, r, 0)
  }

  lemma {:induction false} FromLength(xof: Generator, r: Representation, index: nat)
    requires Sized(xof)
    ensures |From(xof, r, index)| == if index * BLOCK >= r.length then 0 else r.length - index * BLOCK
    decreases r.length - index * BLOCK
  {
    if index * BLOCK < r.length {
      FromLength(xof, r, index + 1);
    }
  }

  // Block `index` starts at its multiple of the block size.
  lemma {:induction false} FromIsSuffix(xof: Generator, r: Representation, index: nat)
    requires Sized(xof) && index * BLOCK <= r.length
    ensures |Whole(xof, r)| == r.length && Whole(xof, r)[index * BLOCK..] == From(xof, r, index)
  {
    FromLength(xof, r, 0);
    if index > 0 {
      FromIsSuffix(xof, r, index - 1);
      var before := From(xof, r, index - 1);
      assert before[BLOCK..] == From(xof, r, index);
      assert Whole(xof, r)[index * BLOCK..] == Whole(xof, r)[(index - 1) * BLOCK..][BLOCK..];
    }
  }

  lemma {:induction false} BlockLength(xof: Generator, r: Representation, index: nat)
    requires Sized(xof) && index * BLOCK < r.length
    ensures |Block(xof, r, index)| == Min(BLOCK, r.length - index * BLOCK)
  {
  }

  // A read inside one block is a slice of the whole.
  lemma {:induction false} SliceOfBlock(xof: Generator, r: Representation, index: nat, from: nat, take: nat)
    requires Sized(xof) && index * BLOCK < r.length
    requires from + take <= |Block(xof, r, index)|
    ensures |Whole(xof, r)| == r.length
    ensures index * BLOCK + from + take <= r.length
    ensures Block(xof, r, index)[from..from + take] == Whole(xof, r)[index * BLOCK + from..index * BLOCK + from + take]
  {
    FromIsSuffix(xof, r, index);
    var whole, block := Whole(xof, r), Block(xof, r, index);
    assert From(xof, r, index)[..|block|] == block;
    assert whole[index * BLOCK..][from..from + take] == whole[index * BLOCK + from..index * BLOCK + from + take];
    assert From(xof, r, index)[from..from + take] == block[from..from + take];
  }

  // Byte `p` of a representation: every 1048576 bytes are one block of the generator.
  lemma {:induction false} BytesAre(xof: Generator, r: Representation, p: nat)
    requires Sized(xof) && p < r.length
    ensures var block, left := p / 1048576, r.length - p / 1048576 * 1048576;
            && |Whole(xof, r)| == r.length && p % 1048576 < |xof(r.seed, block, if left < 1048576 then left else 1048576)|
            && Whole(xof, r)[p] == xof(r.seed, block, if left < 1048576 then left else 1048576)[p % 1048576]
  {
    hide From;
    var index, from := p / BLOCK, p % BLOCK;
    assert index * BLOCK + from == p;
    BlockLength(xof, r, index);
    SliceOfBlock(xof, r, index, from, 1);
    assert Block(xof, r, index)[from..from + 1] == [Block(xof, r, index)[from]] && Whole(xof, r)[p..p + 1] == [Whole(xof, r)[p]];
  }

  lemma {:induction false} SlicesJoin(s: Bytes, a: nat, b: nat, c: nat)
    requires a <= b <= c <= |s|
    ensures s[a..b] + s[b..c] == s[a..c]
  {
  }

  lemma {:induction false} SliceStarts(s: Bytes, a: nat, b: nat, n: nat)
    requires a <= b <= |s| && n <= b - a
    ensures s[a..b][..n] == s[a..a + n]
  {
  }

  // A read is the exact slice of the representation, or an error outside it.
  method Read(xof: Generator, r: Representation, offset: int, length: int) returns (result: Result<Bytes, string>)
    requires Sized(xof)
    ensures result.Err? <==> offset < 0 || length < 0 || offset + length > r.length
    ensures result.Ok? ==> |Whole(xof, r)| == r.length && result.value == Whole(xof, r)[offset..offset + length]
  {
    if offset < 0 || length < 0 || offset + length > r.length {
      return Err("requested fixture range is outside its representation");
    }
    hide From, Block;
    FromIsSuffix(xof, r, 0);
    ghost var whole := Whole(xof, r);
    var bytes: Bytes := [];
    var position, remaining := offset, length;
    while remaining > 0
      invariant 0 <= remaining && offset <= position && position + remaining == offset + length
      invariant bytes == whole[offset..position]
    {
      var index, inside := position / BLOCK, position % BLOCK;
      assert index * BLOCK + inside == position;
      var block := Block(xof, r, index);
      var take := Min(remaining, BLOCK - inside);
      BlockLength(xof, r, index);
      SliceOfBlock(xof, r, index, inside, take);
      bytes := bytes + block[inside..inside + take];
      SlicesJoin(whole, offset, position, position + take);
      position, remaining := position + take, remaining - take;
    }
    return Ok(bytes);
  }

  // The digest is taken over the whole representation, whatever the chunk size.
  method Sha256(xof: Generator, r: Representation, digest: Bytes -> string, chunkSize: int)
    returns (result: Result<string, string>)
    requires Sized(xof)
    ensures result.Err? <==> chunkSize <= 0
    ensures result.Ok? ==> result.value == digest(Whole(xof, r))
  {
    if chunkSize <= 0 {
      return Err("digest chunk size must be positive");
    }
    FromIsSuffix(xof, r, 0);
    ghost var whole := Whole(xof, r);
    var fed: Bytes := [];
    var offset := 0;
    while offset < r.length
      invariant 0 <= offset <= r.length
      invariant fed == whole[..offset]
    {
      var size := Min(chunkSize, r.length - offset);
      var chunk := Read(xof, r, offset, size);
      fed := fed + chunk.value;
      SlicesJoin(whole, 0, offset, offset + size);
      offset := offset + size;
    }
    assert whole[..offset] == whole;
    return Ok(digest(fed));
  }

  // ------------------------------------------------------------ the Range header

  datatype Requested = NoRange | Unsatisfiable | Range(first: nat, last: nat)

  predicate Digits(s: string) {
    forall k | 0 <= k < |s| :: '0' <= s[k] <= '9'
  }

  predicate IsDecimal(s: string) {
    s != "" && Digits(s)
  }

  function Number(s: string): nat
    requires Digits(s)
  {
    if s == "" then 0 else 10 * Number(s[..|s| - 1]) + (s[|s| - 1] as int - '0' as int)
  }

  function Decimal(n: nat): (s: string)
    ensures IsDecimal(s)
  {
    var digit := [('0' as int + n % 10) as char];
    if n < 10 then digit else Decimal(n / 10) + digit
  }

  lemma {:induction false} NumberDecimal(n: nat)
    ensures Number(Decimal(n)) == n
  {
    var s := Decimal(n);
    if n < 10 {
      assert s[..|s| - 1] == "";
    } else {
      NumberDecimal(n / 10);
      assert s[..|s| - 1] == Decimal(n / 10);
    }
  }

  lemma {:induction false} NoComma(s: string)
    requires Digits(s)
    ensures ',' !in s && forall c | c in s :: c !in "-"
  {
    forall c | c in s ensures c != ',' && c != '-' {
      var k :| 0 <= k < |s| && s[k] == c;
    }
  }

  function ParseRange(value: Option<string>, length: nat): (requested: Requested)
    ensures requested.Range? ==> requested.first <= requested.last < length
  {
    if value.None? || !("bytes=" <= value.value) || ',' in value.value then NoRange
    else
      var spec := value.value[6..];
      var dash := Find(spec, "-");
      if dash == |spec| || !IsDecimal(spec[..dash]) then NoRange
      else
        var first := Number(spec[..dash]);
        var lastText := spec[dash + 1..];
        var last: int := if lastText == "" then length - 1 else if IsDecimal(lastText) then Number(lastText) else -1;
        if first >= length || last < first then Unsatisfiable else Range(first, Min(last, length - 1))
  }

  function RangeText(first: nat, last: Option<nat>): string {
    "bytes=" + Decimal(first) + "-" + if last.Some? then Decimal(last.value) else ""
  }

  // Section 14.1.2 of RFC 9110: the positions that were written are the positions that are
  // served, the last one cut to the representation.
  lemma {:induction false} ParsesWrittenRange(first: nat, last: Option<nat>, length: nat)
    ensures ParseRange(Some(RangeText(first, last)), length)
            == if first >= length || (last.Some? && last.value < first) then Unsatisfiable
               else Range(first, if last.Some? then Min(last.value, length - 1) else length - 1)
  {
    hide RangeText, Number, Decimal, Find, Digits;
    WrittenParts(first, last);
    NumberDecimal(first);
    if last.Some? {
      NumberDecimal(last.value);
    }
  }

  // The two numbers stand around the first dash, and there is no comma.
  lemma {:induction false} WrittenParts(first: nat, last: Option<nat>)
    ensures var text, lastText := RangeText(first, last), if last.Some? then Decimal(last.value) else "";
            && "bytes=" <= text && ',' !in text && Find(text[6..], "-") == |Decimal(first)| < |text[6..]|
            && text[6..][..|Decimal(first)|] == Decimal(first) && text[6..][|Decimal(first)| + 1..] == lastText
  {
    hide Number, Decimal, Find, Digits;
    var text, lastText := RangeText(first, last), if last.Some? then Decimal(last.value) else "";
    NoComma(Decimal(first));
    if last.Some? {
      NoComma(Decimal(last.value));
    }
    assert text == "bytes=" + (Decimal(first) + ("-" + lastText));
    assert text[6..] == Decimal(first) + ("-" + lastText);
    FindIs(Decimal(first), "-" + lastText, "-");
  }

  // "bytes=", one number, a dash, and a rest without a comma.
  predicate Ranged(value: Option<string>, first: string, last: string) {
    && value == Some("bytes=" + first + "-" + last) && ',' !in last
    && first != "" && forall k | 0 <= k < |first| :: 48 <= first[k] as int <= 57
  }

  // Any other header asks for no range.
  lemma {:induction false} NoRangeIff(value: Option<string>, length: nat)
    ensures ParseRange(value, length).NoRange? <==> !exists first, last :: Ranged(value, first, last)
  {
    hide Find;
    if !ParseRange(value, length).NoRange? {
      var dash := Find(value.value[6..], "-");
      PartsRanged(value.value, dash);
      assert Ranged(value, value.value[6..][..dash], value.value[6..][dash + 1..]);
    }
    hide ParseRange, Ranged;
    forall first, last | Ranged(value, first, last) ensures !ParseRange(value, length).NoRange? {
      RangedAsks(value, first, last, length);
    }
  }

  lemma {:induction false} RangedAsks(value: Option<string>, first: string, last: string, length: nat)
    requires Ranged(value, first, last)
    ensures !ParseRange(value, length).NoRange?
  {
    hide Find, Number;
    RangedParts(value, first, last);
  }

  lemma {:induction false} PartsRanged(text: string, dash: nat)
    requires "bytes=" <= text && ',' !in text && dash < |text| - 6 && text[6..][dash] == '-' && IsDecimal(text[6..][..dash])
    ensures Ranged(Some(text), text[6..][..dash], text[6..][dash + 1..])
  {
    var first, last := text[6..][..dash], text[6..][dash + 1..];
    assert text == "bytes=" + first + "-" + last;
    forall k | 0 <= k < |last| ensures last[k] in text {
      assert last[k] == text[7 + dash + k];
    }
  }

  lemma {:induction false} RangedParts(value: Option<string>, first: string, last: string)
    requires Ranged(value, first, last)
    ensures var text := value.value;
            && "bytes=" <= text && ',' !in text && IsDecimal(first) && Find(text[6..], "-") == |first| < |text[6..]|
            && text[6..][..|first|] == first && text[6..][|first| + 1..] == last
  {
    hide Find;
    NoComma(first);
    var text := "bytes=" + first + "-" + last;
    assert text[6..] == first + ("-" + last);
    FindIs(first, "-" + last, "-");
    assert forall c | c in text :: c in "bytes=" || c in first || c == '-' || c in last;
  }

  // With no second number the range is open; a second number that is no number, or lies before the
  // first, or a first number behind the end cannot be met; and the range ends inside.
  lemma {:induction false} RangeMeans(value: Option<string>, first: string, last: string, length: nat)
    requires Ranged(value, first, last)
    ensures Digits(first) && (Digits(last) ==>
              ParseRange(value, length)
              == if Number(first) >= length || (last != "" && Number(last) < Number(first)) then Unsatisfiable
                 else Range(Number(first), if last == "" || Number(last) >= length then length - 1 else Number(last)))
    ensures !Digits(last) ==> ParseRange(value, length) == Unsatisfiable
  {
    hide Find, Number;
    RangedParts(value, first, last);
  }

  // ------------------------------------------------------------ serving

  datatype Script = Script(status: Option<nat>, shortBody: Option<nat>, ignoreRange: bool, redirect: Option<string>,
                           terminateAfter: Option<nat>, bodyOverride: Option<Bytes>)

  datatype ContentRange = Bounds(first: nat, last: int, length: nat) | Unmet(length: nat)

  datatype Response = Response(status: nat, contentLength: nat, contentRange: Option<ContentRange>, body: Bytes,
                               closes: bool)

  // The status and the byte positions, before a redirect is considered.
  function Chosen(r: Representation, script: Script, range: Option<string>): (nat, nat, int) {
    var requested := ParseRange(range, r.length);
    if script.status.Some? then (script.status.value, 0, r.length - 1)
    else if requested.Unsatisfiable? then (416, 0, r.length - 1)
    else if requested.Range? && !script.ignoreRange then (206, requested.first, requested.last)
    else (200, 0, r.length - 1)
  }

  lemma {:induction false} ChosenIsInside(r: Representation, script: Script, range: Option<string>)
    ensures var (status, first, last) := Chosen(r, script, range);
            first <= last + 1 <= r.length && (status == 206 && script.status.None? ==> first <= last)
  {
  }

  // How many bytes of a body of length `full` the script lets through.
  function Allowed(script: Script, full: nat): nat {
    var short := if script.shortBody.Some? then Min(full, script.shortBody.value) else full;
    if script.terminateAfter.Some? then Min(short, script.terminateAfter.value) else short
  }

  // The source tests a status by its truth value: no status and zero are the same.
  function OrElse(status: Option<nat>, default_: nat): nat {
    if status.Some? && status.value != 0 then status.value else default_
  }

  // Every answer of the fixture: an override, a redirect, a refusal, or a slice of the
  // representation that ends early, with the connection, exactly when the script cuts it.
  method Serve(xof: Generator, r: Representation, script: Script, range: Option<string>) returns (response: Response)
    requires Sized(xof)
    ensures response == Reply(xof, r, script, range)
  {
    if script.bodyOverride.Some? {
      var body := script.bodyOverride.value;
      return Response(OrElse(script.status, 200), |body|, None, body, false);
    }
    hide ParseRange, From;
    var (status, first, last) := Chosen(r, script, range);
    ChosenIsInside(r, script, range);
    if script.redirect.Some? {
      return Response(OrElse(script.status, 302), 0, None, [], false);
    }
    if status == 416 {
      return Response(status, 0, Some(Unmet(r.length)), [], false);
    }
    var advertised := last - first + 1;
    var bodyLength := if script.shortBody.Some? then Min(advertised, script.shortBody.value) else advertised;
    var body, closes := SendBody(xof, r, first, bodyLength, script.terminateAfter);
    closes := closes || bodyLength < advertised;
    response := Response(status, advertised, if status == 206 then Some(Bounds(first, last, r.length)) else None, body, closes);
  }

  // The loop over the chunks; the connection closes early when the script ends it first.
  method SendBody(xof: Generator, r: Representation, first: nat, bodyLength: nat, terminateAfter: Option<nat>)
    returns (body: Bytes, closes: bool)
    requires Sized(xof) && first + bodyLength <= r.length
    ensures var sent := if terminateAfter.Some? then Min(bodyLength, terminateAfter.value) else bodyLength;
            |Whole(xof, r)| == r.length && body == Whole(xof, r)[first..first + sent]
            && (closes <==> sent < bodyLength)
  {
    hide From;
    FromIsSuffix(xof, r, 0);
    ghost var whole := Whole(xof, r);
    var position, remaining := first, bodyLength;
    body, closes := [], false;
    while remaining > 0
      invariant 0 <= remaining && first <= position && position + remaining == first + bodyLength
      invariant body == whole[first..position]
      invariant terminateAfter.Some? ==> position - first <= terminateAfter.value
    {
      var read := Read(xof, r, position, Min(CHUNK, remaining));
      var chunk := read.value;
      if terminateAfter.Some? {
        var available := terminateAfter.value - |body|;
        if available <= 0 {
          closes := true;
          break;
        }
        SliceStarts(whole, position, position + |chunk|, Min(available, |chunk|));
        chunk := chunk[..Min(available, |chunk|)];
      }
      body := body + chunk;
      SlicesJoin(whole, first, position, position + |chunk|);
      position, remaining := position + |chunk|, remaining - |chunk|;
    }
  }

  function Reply(xof: Generator, r: Representation, script: Script, range: Option<string>): Response
    requires Sized(xof)
  {
    FromIsSuffix(xof, r, 0);
    ChosenIsInside(r, script, range);
    var (status, first, last) := Chosen(r, script, range);
    if script.bodyOverride.Some? then
      Response(OrElse(script.status, 200), |script.bodyOverride.value|, None, script.bodyOverride.value, false)
    else if script.redirect.Some? then Response(OrElse(script.status, 302), 0, None, [], false)
    else if status == 416 then Response(status, 0, Some(Unmet(r.length)), [], false)
    else
      var full := last - first + 1;
      var sent := Allowed(script, full);
      Response(status, full, if status == 206 then Some(Bounds(first, last, r.length)) else None,
               Whole(xof, r)[first..first + sent], sent < full)
  }

  predicate OverrideSent(script: Script, response: Response) {
    script.bodyOverride.Some? ==>
      && response.body == script.bodyOverride.value && response.contentLength == |response.body|
      && response.contentRange.None? && !response.closes
  }

  // The bytes first..last of the whole are announced; those that the script lets through are sent, and
  // the connection closes exactly when that is fewer.
  ghost predicate Sends(xof: Generator, r: Representation, script: Script, first: nat, last: int, response: Response) {
    var sent := |response.body|;
    && response.contentLength == last - first + 1 && sent <= last - first + 1 <= r.length - first == |Whole(xof, r)| - first
    && response.body == Whole(xof, r)[first..first + sent] && (response.closes <==> sent < last - first + 1)
    && (script.shortBody.Some? ==> sent <= script.shortBody.value)
    && (script.terminateAfter.Some? ==> sent <= script.terminateAfter.value)
    && (sent == last - first + 1 || Some(sent) == script.shortBody || Some(sent) == script.terminateAfter)
  }

  // The answer to one request. A scripted status is always the status; a redirect and an override send no
  // bytes of the representation; 416 refuses, 206 sends the range that was asked for, 200 sends the whole.
  lemma {:induction false} ReplyMeans(xof: Generator, r: Representation, script: Script, range: Option<string>)
    requires Sized(xof)
    ensures var response, asked := Reply(xof, r, script, range), ParseRange(range, r.length);
            var scripted := if script.status.Some? then script.status.value else 0;
            && OverrideSent(script, response)
            && (script.bodyOverride.Some? ==> response.status == if scripted == 0 then 200 else scripted)
            && (script.bodyOverride.None? && script.redirect.Some? ==>
                  response == Response(if scripted == 0 then 302 else scripted, 0, None, [], false))
            && (script.bodyOverride.None? && script.redirect.None? && script.status.Some? ==>
                  && response.status == scripted
                  && (if scripted == 416 then response == Response(416, 0, Some(Unmet(r.length)), [], false)
                      else
                        && Sends(xof, r, script, 0, r.length - 1, response)
                        && response.contentRange == if scripted == 206 then Some(Bounds(0, r.length - 1, r.length)) else None))
            && (script.bodyOverride.None? && script.redirect.None? && script.status.None? ==>
                  if asked.Unsatisfiable? then response == Response(416, 0, Some(Unmet(r.length)), [], false)
                  else if asked.Range? && !script.ignoreRange then
                    && Sends(xof, r, script, asked.first, asked.last, response) && response.status == 206
                    && response.contentRange == Some(Bounds(asked.first, asked.last, r.length))
                  else
                    Sends(xof, r, script, 0, r.length - 1, response) && response.status == 200 && response.contentRange.None?)
  {
    hide ParseRange, From;
    FromIsSuffix(xof, r, 0);
    ChosenIsInside(r, script, range);
  }

  // ------------------------------------------------------------ resuming

  // Section 15.3.7 of RFC 9110: a partial response is appended where its range starts, a full
  // one replaces what was there, and any other response leaves it alone.
  function Combine(have: Bytes, response: Response): Bytes {
    if response.status == 206 then
      if response.contentRange.Some? && response.contentRange.value.Bounds? && response.contentRange.value.first == |have|
      then have + response.body else have
    else if response.status == 200 then response.body
    else have
  }

  function ResumeRange(have: Bytes): Option<string> {
    Some(RangeText(|have|, None))
  }

  // One request for each script, each for the bytes from the end of what is there on.
  function Download(xof: Generator, r: Representation, scripts: seq<Script>, have: Bytes): Bytes
    requires Sized(xof)
    decreases |scripts|
  {
    if scripts == [] then have
    else Download(xof, r, scripts[1..], Combine(have, Reply(xof, r, scripts[0], ResumeRange(have))))
  }

  predicate Cuts(script: Script) {
    script.shortBody.Some? || script.terminateAfter.Some?
  }

  predicate Plain(script: Script) {
    script.status.None? && script.redirect.None? && script.bodyOverride.None? && !Cuts(script)
  }

  // An override reaches the client as a full response, unless its status is another one.
  predicate Faithful(xof: Generator, r: Representation, script: Script) {
    script.bodyOverride.None? || OrElse(script.status, 200) != 200 || script.bodyOverride.value <= Whole(xof, r)
  }

  lemma {:induction false} SliceOnTop(whole: Bytes, have: Bytes, m: nat)
    requires have <= whole && |have| + m <= |whole|
    ensures have + whole[|have|..|have| + m] == whole[..|have| + m]
  {
    assert have == whole[..|have|] && whole[..|have|] + whole[|have|..|have| + m] == whole[..|have| + m];
  }

  // Whatever a script cuts, redirects or refuses, the client keeps a prefix of the representation,
  // if and only if no override is taken for other bytes of it.
  lemma {:induction false} OneResponseIff(xof: Generator, r: Representation, script: Script, have: Bytes)
    requires Sized(xof) && have <= Whole(xof, r)
    ensures Combine(have, Reply(xof, r, script, ResumeRange(have))) <= Whole(xof, r) <==> Faithful(xof, r, script)
  {
    hide RangeText, ParseRange, From;
    FromIsSuffix(xof, r, 0);
    var whole, n := Whole(xof, r), |have|;
    ParsesWrittenRange(n, None, r.length);
    var response := Reply(xof, r, script, ResumeRange(have));
    if script.bodyOverride.None? && response.status == 206 && response.contentRange.Some? && response.contentRange.value.first == n {
      SliceOnTop(whole, have, |response.body|);
    }
  }

  lemma {:induction false} DownloadFirst(xof: Generator, r: Representation, scripts: seq<Script>, have: Bytes, n: nat)
    requires Sized(xof) && 0 < n <= |scripts|
    ensures Download(xof, r, scripts[..n], have)
            == Download(xof, r, scripts[1..][..n - 1], Combine(have, Reply(xof, r, scripts[0], ResumeRange(have))))
  {
    hide Combine, Reply;
    assert scripts[..n][1..] == scripts[1..][..n - 1];
  }

  // Over any number of requests the client holds a prefix all the time, if and only if every
  // script is faithful.
  lemma {:induction false} DownloadIsPrefixIff(xof: Generator, r: Representation, scripts: seq<Script>, have: Bytes)
    requires Sized(xof) && have <= Whole(xof, r)
    ensures (forall n | 0 <= n <= |scripts| :: Download(xof, r, scripts[..n], have) <= Whole(xof, r))
            <==> forall k | 0 <= k < |scripts| :: Faithful(xof, r, scripts[k])
  {
    hide Combine, Reply, Faithful, Whole;
    if scripts == [] {
      assert scripts[..0] == [];
    } else {
      var next, rest := Combine(have, Reply(xof, r, scripts[0], ResumeRange(have))), scripts[1..];
      OneResponseIff(xof, r, scripts[0], have);
      DownloadFirst(xof, r, scripts, have, 1);
      assert Download(xof, r, scripts[..1], have) == next;
      assert scripts == [scripts[0]] + rest;
      if next <= Whole(xof, r) {
        DownloadIsPrefixIff(xof, r, rest, next);
        forall n | 0 <= n <= |scripts|
          ensures Download(xof, r, scripts[..n], have) == if n == 0 then have else Download(xof, r, rest[..n - 1], next)
        {
          if n > 0 {
            DownloadFirst(xof, r, scripts, have, n);
          }
        }
        if forall n | 0 <= n <= |scripts| :: Download(xof, r, scripts[..n], have) <= Whole(xof, r) {
          forall n | 0 <= n <= |rest| ensures Download(xof, r, rest[..n], next) <= Whole(xof, r) {
            assert Download(xof, r, scripts[..n + 1], have) <= Whole(xof, r);
          }
          forall k | 0 <= k < |scripts| ensures Faithful(xof, r, scripts[k]) {
            assert k > 0 ==> scripts[k] == rest[k - 1];
          }
        }
      }
    }
  }

  lemma {:induction false} DownloadLast(xof: Generator, r: Representation, scripts: seq<Script>, last: Script, have: Bytes)
    requires Sized(xof)
    ensures var before := Download(xof, r, scripts, have);
            Download(xof, r, scripts + [last], have) == Combine(before, Reply(xof, r, last, ResumeRange(before)))
  {
    hide Combine, Reply;
    var all := scripts + [last];
    var next := Combine(have, Reply(xof, r, all[0], ResumeRange(have)));
    if scripts == [] {
      assert all[1..] == [];
      assert Download(xof, r, all[1..], next) == next;
    } else {
      assert all[1..] == scripts[1..] + [last];
      DownloadLast(xof, r, scripts[1..], last, next);
    }
  }

  // A plain response completes what the client holds if and only if that is a prefix, or the
  // response starts afresh because it ignores a range that could be met.
  lemma {:induction false} PlainCompletesIff(xof: Generator, r: Representation, script: Script, have: Bytes)
    requires Sized(xof) && Plain(script)
    ensures Combine(have, Reply(xof, r, script, ResumeRange(have))) == Whole(xof, r)
            <==> have <= Whole(xof, r) || (script.ignoreRange && |have| < r.length)
  {
    hide RangeText, ParseRange, From;
    FromIsSuffix(xof, r, 0);
    var whole, n := Whole(xof, r), |have|;
    ParsesWrittenRange(n, None, r.length);
    var now := Combine(have, Reply(xof, r, script, ResumeRange(have)));
    if n < |whole| && !script.ignoreRange {
      assert now == have + whole[n..];
      if have <= whole {
        SliceOnTop(whole, have, |whole| - n);
      } else {
        assert now[..n] == have;
      }
    }
  }

  // A download is completed by one plain response if and only if it has gone right so far, or that
  // response starts afresh.
  lemma {:induction false} ResumeRebuildsIff(xof: Generator, r: Representation, scripts: seq<Script>, last: Script, have: Bytes)
    requires Sized(xof) && Plain(last)
    ensures var before := Download(xof, r, scripts, have);
            Download(xof, r, scripts + [last], have) == Whole(xof, r)
            <==> before <= Whole(xof, r) || (last.ignoreRange && |before| < r.length)
  {
    hide Combine, Reply, Plain, Whole;
    DownloadLast(xof, r, scripts, last, have);
    PlainCompletesIff(xof, r, last, Download(xof, r, scripts, have));
  }

  // A body that was cut, redirected or refused any number of times is completed by one plain response.
  lemma {:induction false} ResumeRebuilds(xof: Generator, r: Representation, scripts: seq<Script>, last: Script, have: Bytes)
    requires Sized(xof) && have <= Whole(xof, r) && Plain(last)
    requires forall k | 0 <= k < |scripts| :: Faithful(xof, r, scripts[k])
    ensures Download(xof, r, scripts + [last], have) == Whole(xof, r)
  {
    hide Combine, Reply, Plain, Whole, Faithful, Download;
    DownloadIsPrefixIff(xof, r, scripts, have);
    assert scripts[..|scripts|] == scripts;
    ResumeRebuildsIff(xof, r, scripts, last, have);
  }

  // One override with other bytes: the next plain response has nothing to complete.
  function Twos(seed: Bytes, index: nat, size: nat): Bytes {
    seq(size, _ => 2)
  }

  const OneByte := Representation([0], 1)
  const PlainScript := Script(None, None, false, None, None, None)

  lemma {:induction false} TwosWhole()
    ensures Sized(Twos) && Whole(Twos, OneByte) == [2]
  {
    assert From(Twos, OneByte, 1) == [] && Block(Twos, OneByte, 0) == [2];
  }

  lemma {:induction false} OverrideExample()
    ensures Sized(Twos) && Whole(Twos, OneByte) == [2]
    ensures Download(Twos, OneByte, [PlainScript.(bodyOverride := Some([1])), PlainScript], []) == [1]
  {
    hide Whole, ParseRange, RangeText, Combine, Reply, Sized;
    TwosWhole();
    var override := PlainScript.(bodyOverride := Some([1]));
    Overridden();
    DownloadLast(Twos, OneByte, [override], PlainScript, []);
    assert [override] + [PlainScript] == [override, PlainScript] && [override][1..] == [];
    assert Download(Twos, OneByte, [override][1..], [1]) == [1];
  }

  lemma {:induction false} Overridden()
    requires Sized(Twos)
    ensures Combine([], Reply(Twos, OneByte, PlainScript.(bodyOverride := Some([1])), ResumeRange([]))) == [1]
    ensures Combine([1], Reply(Twos, OneByte, PlainScript, ResumeRange([1]))) == [1]
  {
    hide Whole, ParseRange, RangeText;
    ParsesWrittenRange(1, None, 1);
  }

  // A cut below the length loses exactly the tail, and the tail is what the next range asks for.
  lemma {:induction false} CutThenRange(xof: Generator, r: Representation, cut: nat)
    requires Sized(xof) && cut < r.length
    ensures var whole := Whole(xof, r);
            var first := Reply(xof, r, Script(None, None, false, None, Some(cut), None), None);
            var rest := Reply(xof, r, Script(None, None, false, None, None, None), ResumeRange(first.body));
            && first.status == 200 && first.closes && |first.body| == cut && first.contentLength == |whole|
            && rest.status == 206 && rest.contentRange == Some(Bounds(cut, r.length - 1, r.length))
            && rest.contentLength == |rest.body| && !rest.closes && first.body + rest.body == whole
  {
    hide RangeText, From;
    FromIsSuffix(xof, r, 0);
    ParsesWrittenRange(cut, None, r.length);
    var whole := Whole(xof, r);
    assert whole[..cut] + whole[cut..] == whole;
    assert whole[0..cut] == whole[..cut] && whole[cut..r.length] == whole[cut..];
  }
}
