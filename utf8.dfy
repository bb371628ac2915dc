/**
 * UTF-8 as Rust's `str::from_utf8` (behind `CStr::to_str`) accepts it: the
 * well-formed byte sequences of the Unicode standard, table 3-7, decoded to
 * Unicode scalar values (Dafny's `char`).
 */
module Utf8 {
  import opened Common

  predicate IsContinuation(b: byte) {
    0x80 <= b <= 0xBF
  }

  /** The range allowed for the second byte of a three- or four-byte sequence led by `b0`. */
  function SecondLow(b0: byte): byte {
    if b0 == 0xE0 then 0xA0 else if b0 == 0xF0 then 0x90 else 0x80
  }

  function SecondHigh(b0: byte): byte {
    if b0 == 0xED then 0x9F else if b0 == 0xF4 then 0x8F else 0xBF
  }

  /** The length of the well-formed sequence that starts `bs`, or 0 when there is none. */
  function LeadLength(bs: seq<byte>): (n: nat)
    ensures n <= 4 && n <= |bs|
    ensures n > 0 ==> |bs| > 0
  {
    if |bs| == 0 then 0
    else if bs[0] < 0x80 then 1
    else if 0xC2 <= bs[0] <= 0xDF then
      if |bs| >= 2 && IsContinuation(bs[1]) then 2 else 0
    else if 0xE0 <= bs[0] <= 0xEF then
      if |bs| >= 3 && SecondLow(bs[0]) <= bs[1] <= SecondHigh(bs[0]) && IsContinuation(bs[2]) then 3 else 0
    else if 0xF0 <= bs[0] <= 0xF4 then
      if |bs| >= 4 && SecondLow(bs[0]) <= bs[1] <= SecondHigh(bs[0]) &&
         IsContinuation(bs[2]) && IsContinuation(bs[3]) then 4 else 0
    else 0
  }

  /** The scalar value encoded by the well-formed sequence that starts `bs`. */
  function LeadChar(bs: seq<byte>): char
    requires LeadLength(bs) > 0
  {
    var n := LeadLength(bs);
    var b0 := bs[0] as int;
    if n == 1 then b0 as char
    else if n == 2 then ((b0 - 0xC0) * 64 + (bs[1] as int - 0x80)) as char
    else if n == 3 then
      ((b0 - 0xE0) * 4096 + (bs[1] as int - 0x80) * 64 + (bs[2] as int - 0x80)) as char
    else
      ((b0 - 0xF0) * 262144 + (bs[1] as int - 0x80) * 4096 + (bs[2] as int - 0x80) * 64 +
       (bs[3] as int - 0x80)) as char
  }

  /** The text `bs` encodes, or `None` when `bs` is not well-formed UTF-8. */
  function Decode(bs: seq<byte>): Option<string>
    decreases |bs|
  {
    if bs == [] then Some([])
    else
      var n := LeadLength(bs);
      if n == 0 then None
      else match Decode(bs[n..])
        case Some(rest) => Some([LeadChar(bs)] + rest)
        case None => None
  }

  /** The UTF-8 encoding of one scalar value. */
  function EncodeChar(c: char): (bs: seq<byte>)
    ensures 1 <= |bs| <= 4
  {
    var n := c as int;
    if n < 0x80 then [n as byte]
    else if n < 0x800 then [(0xC0 + n / 64) as byte, (0x80 + n % 64) as byte]
    else if n < 0x1_0000 then
      [(0xE0 + n / 4096) as byte, (0x80 + (n / 64) % 64) as byte, (0x80 + n % 64) as byte]
    else
      [(0xF0 + n / 262144) as byte, (0x80 + (n / 4096) % 64) as byte,
       (0x80 + (n / 64) % 64) as byte, (0x80 + n % 64) as byte]
  }

  function Encode(s: string): seq<byte> {
    if s == [] then [] else EncodeChar(s[0]) + Encode(s[1..])
  }

  lemma SplitTwo(n: int)
    requires 0x80 <= n < 0x800
    ensures 0xC2 <= 0xC0 + n / 64 <= 0xDF && 0 <= n % 64 < 64 && (n / 64) * 64 + n % 64 == n
  {
  }

  lemma SplitThree(n: int)
    requires 0x800 <= n < 0x1_0000
    ensures 0 <= n / 4096 < 16 && 0 <= (n / 64) % 64 < 64 && 0 <= n % 64 < 64
    ensures (n / 4096) * 4096 + ((n / 64) % 64) * 64 + n % 64 == n
    ensures n < 0x1000 ==> (n / 64) % 64 >= 32
    ensures 0xD000 <= n < 0xD800 ==> n / 4096 == 13 && (n / 64) % 64 < 32
  {
  }

  lemma SplitFour(n: int)
    requires 0x1_0000 <= n < 0x11_0000
    ensures 0 <= n / 262144 < 5 && 0 <= (n / 4096) % 64 < 64 && 0 <= (n / 64) % 64 < 64 && 0 <= n % 64 < 64
    ensures (n / 262144) * 262144 + ((n / 4096) % 64) * 4096 + ((n / 64) % 64) * 64 + n % 64 == n
    ensures n < 0x4_0000 ==> (n / 4096) % 64 >= 16
    ensures n >= 0x10_0000 ==> n / 262144 == 4 && (n / 4096) % 64 < 16
  {
  }

  lemma JoinTwo(a: int, b: int)
    requires 0 <= b < 64
    ensures (a * 64 + b) / 64 == a && (a * 64 + b) % 64 == b
  {
  }

  lemma JoinThree(a: int, b: int, c: int)
    requires 0 <= a && 0 <= b < 64 && 0 <= c < 64
    ensures var n := a * 4096 + b * 64 + c; n / 4096 == a && (n / 64) % 64 == b && n % 64 == c
  {
  }

  lemma JoinFour(a: int, b: int, c: int, d: int)
    requires 0 <= a && 0 <= b < 64 && 0 <= c < 64 && 0 <= d < 64
    ensures var n := a * 262144 + b * 4096 + c * 64 + d;
            n / 262144 == a && (n / 4096) % 64 == b && (n / 64) % 64 == c && n % 64 == d
  {
    var n := a * 262144 + b * 4096 + c * 64 + d;
    assert 0 <= b * 4096 + c * 64 + d < 262144;
    assert n / 262144 == a;
    var m := a * 64 + b;
    assert n == m * 4096 + (c * 64 + d);
    assert n / 4096 == m;
    assert m % 64 == b;
    var k := a * 4096 + b * 64 + c;
    assert n == k * 64 + d;
    assert n / 64 == k;
    assert k % 64 == c;
  }

  /** An encoded scalar value is read back as a whole, whatever follows it. */
  lemma EncodeCharThenLead(c: char, rest: seq<byte>)
    ensures LeadLength(EncodeChar(c) + rest) == |EncodeChar(c)|
    ensures LeadChar(EncodeChar(c) + rest) == c
  {
    var n := c as int;
    if n < 0x80 {
    } else if n < 0x800 {
      SplitTwo(n);
      LeadOfTwo(c, rest);
    } else if n < 0x1_0000 {
      SplitThree(n);
      LeadOfThree(c, rest);
    } else {
      SplitFour(n);
      LeadOfFour(c, rest);
    }
  }

  lemma LeadOfTwo(c: char, rest: seq<byte>)
    requires 0x80 <= c as int < 0x800
    ensures LeadLength(EncodeChar(c) + rest) == 2 && LeadChar(EncodeChar(c) + rest) == c
  {
    var n := c as int;
    SplitTwo(n);
    var bs := EncodeChar(c) + rest;
    assert bs[0] as int == 0xC0 + n / 64 && bs[1] as int == 0x80 + n % 64;
  }

  lemma LeadOfThree(c: char, rest: seq<byte>)
    requires 0x800 <= c as int < 0x1_0000
    ensures LeadLength(EncodeChar(c) + rest) == 3 && LeadChar(EncodeChar(c) + rest) == c
  {
    var n := c as int;
    SplitThree(n);
    var bs := EncodeChar(c) + rest;
    assert bs[0] as int == 0xE0 + n / 4096;
    assert bs[1] as int == 0x80 + (n / 64) % 64;
    assert bs[2] as int == 0x80 + n % 64;
  }

  lemma LeadOfFour(c: char, rest: seq<byte>)
    requires 0x1_0000 <= c as int
    ensures LeadLength(EncodeChar(c) + rest) == 4 && LeadChar(EncodeChar(c) + rest) == c
  {
    var n := c as int;
    SplitFour(n);
    var bs := EncodeChar(c) + rest;
    assert bs[0] as int == 0xF0 + n / 262144;
    assert bs[1] as int == 0x80 + (n / 4096) % 64;
    assert bs[2] as int == 0x80 + (n / 64) % 64;
    assert bs[3] as int == 0x80 + n % 64;
  }

  /** A well-formed sequence is the encoding of the scalar value it is read as. */
  lemma LeadEncodes(bs: seq<byte>)
    requires LeadLength(bs) > 0
    ensures EncodeChar(LeadChar(bs)) == bs[..LeadLength(bs)]
  {
    var n := LeadLength(bs);
    if n == 2 {
      JoinTwo(bs[0] as int - 0xC0, bs[1] as int - 0x80);
    } else if n == 3 {
      JoinThree(bs[0] as int - 0xE0, bs[1] as int - 0x80, bs[2] as int - 0x80);
    } else if n == 4 {
      JoinFour(bs[0] as int - 0xF0, bs[1] as int - 0x80, bs[2] as int - 0x80, bs[3] as int - 0x80);
    }
  }

  /** Every text survives an encode-decode round trip. */
  lemma {:induction false} DecodeEncode(s: string)
    ensures Decode(Encode(s)) == Some(s)
  {
    if s != [] {
      var bs := Encode(s);
      EncodeCharThenLead(s[0], Encode(s[1..]));
      assert bs[|EncodeChar(s[0])|..] == Encode(s[1..]);
      DecodeEncode(s[1..]);
      assert [s[0]] + s[1..] == s;
    }
  }

  /** Decoding succeeds only on the encoding of the decoded text. */
  lemma {:induction false} EncodeDecode(bs: seq<byte>)
    requires Decode(bs).Some?
    ensures Encode(Decode(bs).value) == bs
    decreases |bs|
  {
    if bs != [] {
      var n := LeadLength(bs);
      var s := Decode(bs).value;
      EncodeDecode(bs[n..]);
      LeadEncodes(bs);
      assert s[0] == LeadChar(bs) && s[1..] == Decode(bs[n..]).value;
      assert bs == bs[..n] + bs[n..];
    }
  }

  /** Bytes below 0x80 decode one-to-one to the characters with those codes. */
  lemma {:induction false} DecodeAscii(bs: seq<byte>)
    requires forall i :: 0 <= i < |bs| ==> bs[i] < 0x80
    ensures Decode(bs).Some?
    ensures |Decode(bs).value| == |bs|
    ensures forall i :: 0 <= i < |bs| ==> Decode(bs).value[i] as int == bs[i] as int
  {
    if bs != [] {
      DecodeAscii(bs[1..]);
    }
  }
}
