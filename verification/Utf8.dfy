/** UTF-8, as section 3 of RFC 3629 defines it. */
module Utf8 {
  import opened Prelude

  function Lead(n: int): byte
    requires 0 <= n < 256
  {
    n as byte
  }

  // A continuation byte holds six bits.
  function Tail(n: int): byte
    requires 0 <= n < 64
  {
    (0x80 + n) as byte
  }

  predicate IsTail(b: byte) {
    0x80 <= b < 0xC0
  }

  function Bits(b: byte): int {
    b as int - 0x80
  }

  function EncodeChar(c: char): (bytes: Bytes)
    ensures 1 <= |bytes| <= 4
  {
    var n := c as int;
    if n < 0x80 then [Lead(n)]
    else if n < 0x800 then [Lead(0xC0 + n / 64), Tail(n % 64)]
    else if n < 0x10000 then [Lead(0xE0 + n / 4096), Tail(n / 64 % 64), Tail(n % 64)]
    else [Lead(0xF0 + n / 262144), Tail(n / 4096 % 64), Tail(n / 64 % 64), Tail(n % 64)]
  }

  function Encode(s: string): Bytes {
    if s == [] then [] else EncodeChar(s[0]) + Encode(s[1..])
  }

  // ------------------------------------------------------------ strict decoding

  predicate Scalar(n: int) {
    0 <= n < 0xD800 || 0xE000 <= n < 0x110000
  }

  // How many bytes the sequence has that starts with this byte; 0 is no start.
  function Width(b: byte): nat {
    if b < 0x80 then 1
    else if 0xC0 <= b < 0xE0 then 2
    else if 0xE0 <= b < 0xF0 then 3
    else if 0xF0 <= b < 0xF8 then 4
    else 0
  }

  function Value(bytes: Bytes): int
    requires |bytes| > 0 && Width(bytes[0]) == |bytes|
    requires forall k | 1 <= k < |bytes| :: IsTail(bytes[k])
  {
    var b := bytes[0] as int;
    if |bytes| == 1 then b
    else if |bytes| == 2 then (b - 0xC0) * 64 + Bits(bytes[1])
    else if |bytes| == 3 then (b - 0xE0) * 4096 + Bits(bytes[1]) * 64 + Bits(bytes[2])
    else (b - 0xF0) * 262144 + Bits(bytes[1]) * 4096 + Bits(bytes[2]) * 64 + Bits(bytes[3])
  }

  // No sequence is longer than its value needs.
  predicate Shortest(n: int, width: nat) {
    (width == 2 ==> n >= 0x80) && (width == 3 ==> n >= 0x800) && (width == 4 ==> n >= 0x10000)
  }

  predicate Sequence(bytes: Bytes) {
    && |bytes| > 0 && Width(bytes[0]) == |bytes| && (forall k | 1 <= k < |bytes| :: IsTail(bytes[k]))
    && Scalar(Value(bytes)) && Shortest(Value(bytes), |bytes|)
  }

  // None is UnicodeDecodeError.
  function Decode(bytes: Bytes): Option<string> {
    if bytes == [] then Some([])
    else
      var w := Width(bytes[0]);
      if w == 0 || w > |bytes| || !Sequence(bytes[..w]) then None
      else
        var rest := Decode(bytes[w..]);
        if rest.None? then None else Some([Value(bytes[..w]) as char] + rest.value)
  }

  // ------------------------------------------------------------ round trips

  lemma {:induction false} EncodedChar(c: char)
    ensures Sequence(EncodeChar(c)) && Value(EncodeChar(c)) == c as int
  {
    var n := c as int;
    if n < 0x80 {
    } else if n < 0x800 {
      assert n == n / 64 * 64 + n % 64;
    } else if n < 0x10000 {
      assert n == n / 4096 * 4096 + n / 64 % 64 * 64 + n % 64;
    } else {
      assert n == n / 262144 * 262144 + n / 4096 % 64 * 4096 + n / 64 % 64 * 64 + n % 64;
    }
  }

  lemma {:induction false} DecodeEncode(s: string)
    ensures Decode(Encode(s)) == Some(s)
  {
    hide EncodeChar, Value, Sequence;
    if s != [] {
      EncodedChar(s[0]);
      DecodeEncode(s[1..]);
      var head := EncodeChar(s[0]);
      SequenceWidth(head);
      assert Encode(s)[..|head|] == head && Encode(s)[|head|..] == Encode(s[1..]);
      assert Encode(s)[0] == head[0];
      assert [s[0]] + s[1..] == s;
    }
  }

  lemma {:induction false} SequenceWidth(bytes: Bytes)
    requires Sequence(bytes)
    ensures |bytes| > 0 && Width(bytes[0]) == |bytes|
  {
  }

  lemma {:induction false} SixBits(a: int, b: int)
    requires a >= 0 && 0 <= b < 64
    ensures (a * 64 + b) / 64 == a && (a * 64 + b) % 64 == b
  {
  }

  lemma {:induction false} TwelveBits(a: int, b: int, c: int)
    requires a >= 0 && 0 <= b < 64 && 0 <= c < 64
    ensures var n := a * 4096 + b * 64 + c; n / 4096 == a && n / 64 % 64 == b && n % 64 == c
  {
    SixBits(a * 64 + b, c);
    SixBits(a, b);
  }

  lemma {:induction false} EighteenBits(a: int, b: int, c: int, d: int)
    requires a >= 0 && 0 <= b < 64 && 0 <= c < 64 && 0 <= d < 64
    ensures var n := a * 262144 + b * 4096 + c * 64 + d;
            n / 262144 == a && n / 4096 % 64 == b && n / 64 % 64 == c && n % 64 == d
  {
    TwelveBits(a * 64 + b, c, d);
    SixBits(a, b);
  }

  // One scalar value has one sequence only.
  lemma {:induction false} DecodedChar(bytes: Bytes)
    requires Sequence(bytes)
    ensures EncodeChar(Value(bytes) as char) == bytes
  {
    if |bytes| == 2 {
      SixBits(bytes[0] as int - 0xC0, Bits(bytes[1]));
    } else if |bytes| == 3 {
      TwelveBits(bytes[0] as int - 0xE0, Bits(bytes[1]), Bits(bytes[2]));
    } else if |bytes| == 4 {
      EighteenBits(bytes[0] as int - 0xF0, Bits(bytes[1]), Bits(bytes[2]), Bits(bytes[3]));
    }
  }

  // Strict decoding accepts nothing but what encoding yields.
  lemma {:induction false} EncodeDecode(bytes: Bytes)
    requires Decode(bytes).Some?
    ensures Encode(Decode(bytes).value) == bytes
    decreases |bytes|
  {
    hide EncodeChar, Value, Sequence;
    if bytes != [] {
      var w := Width(bytes[0]);
      DecodedChar(bytes[..w]);
      EncodeDecode(bytes[w..]);
      var s := Decode(bytes).value;
      assert s[1..] == Decode(bytes[w..]).value;
      assert bytes == bytes[..w] + bytes[w..];
    }
  }

  lemma {:induction false} EncodeJoins(a: string, b: string)
    ensures Encode(a + b) == Encode(a) + Encode(b)
  {
    hide EncodeChar;
    if a == [] {
      assert a + b == b;
    } else {
      EncodeJoins(a[1..], b);
      assert (a + b)[1..] == a[1..] + b;
    }
  }
}
