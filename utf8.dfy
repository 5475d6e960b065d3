/** UTF-8 as `str::from_utf8` checks it: the well-formed byte sequences of
    the Unicode Standard, Table 3-7, decoded to Unicode scalar values. */
module Utf8 {
  import opened Common

  predicate IsCont(b: u8) { 0x80 <= b < 0xC0 }

  /** The allowed range of the second byte after lead byte `b` (narrower
      than a continuation byte after E0, ED, F0 and F4, which excludes
      overlong forms, surrogates and values above 0x10FFFF). */
  predicate SecondOk(b: u8, c: u8) {
    if b == 0xE0 then 0xA0 <= c <= 0xBF
    else if b == 0xED then 0x80 <= c <= 0x9F
    else if b == 0xF0 then 0x90 <= c <= 0xBF
    else if b == 0xF4 then 0x80 <= c <= 0x8F
    else IsCont(c)
  }

  /** The length of the well-formed sequence starting at `i`, or 0 when the
      bytes there start none. */
  function SeqLen(s: seq<u8>, i: nat): (n: nat)
    requires i < |s|
    ensures n <= 4 && (n > 0 ==> i + n <= |s|)
  {
    var b := s[i];
    if b < 0x80 then 1
    else if 0xC2 <= b <= 0xDF then (if i + 1 < |s| && IsCont(s[i + 1]) then 2 else 0)
    else if 0xE0 <= b <= 0xEF then
      (if i + 2 < |s| && SecondOk(b, s[i + 1]) && IsCont(s[i + 2]) then 3 else 0)
    else if 0xF0 <= b <= 0xF4 then
      (if i + 3 < |s| && SecondOk(b, s[i + 1]) && IsCont(s[i + 2]) && IsCont(s[i + 3]) then 4 else 0)
    else 0
  }

  predicate IsScalar(v: int) { 0 <= v < 0xD800 || 0xE000 <= v < 0x11_0000 }

  /** The scalar value a well-formed sequence of `n` bytes denotes. */
  function ScalarAt(s: seq<u8>, i: nat, n: nat): (v: int)
    requires i < |s| && 0 < n && n == SeqLen(s, i)
    ensures IsScalar(v)
  {
    if n == 1 then s[i] as int
    else if n == 2 then (s[i] as int - 0xC0) * 64 + (s[i + 1] as int - 0x80)
    else if n == 3 then (s[i] as int - 0xE0) * 4096 + (s[i + 1] as int - 0x80) * 64 + (s[i + 2] as int - 0x80)
    else ((s[i] as int - 0xF0) * 262144 + (s[i + 1] as int - 0x80) * 4096
      + (s[i + 2] as int - 0x80) * 64 + (s[i + 3] as int - 0x80))
  }

  /** `Utf8Error::error_len` for the ill-formed sequence at `i`: how many
      bytes from `i` on form the longest start of a sequence that is then
      broken by the next byte, or none when the input ends before a byte
      breaks it. */
  function ErrorLen(s: seq<u8>, i: nat): (r: Option<nat>)
    requires i < |s| && SeqLen(s, i) == 0
    ensures r.Some? ==> 1 <= r.value <= 3 && i + r.value < |s| + 1
    ensures r.None? ==> 0xC2 <= s[i] <= 0xF4 && |s| - i < 4
  {
    var b := s[i];
    if 0xC2 <= b <= 0xDF then
      (if i + 1 == |s| then None else Some(1))
    else if 0xE0 <= b <= 0xEF then
      if i + 1 == |s| then None
      else if !SecondOk(b, s[i + 1]) then Some(1)
      else if i + 2 == |s| then None
      else Some(2)
    else if 0xF0 <= b <= 0xF4 then
      if i + 1 == |s| then None
      else if !SecondOk(b, s[i + 1]) then Some(1)
      else if i + 2 == |s| then None
      else if !IsCont(s[i + 2]) then Some(2)
      else if i + 3 == |s| then None
      else Some(3)
    else Some(1)
  }

  /** The text of a `Utf8Error` with `valid_up_to` `i` and `error_len`
      `len`, as its `Display` writes it. */
  function InvalidMsg(i: nat, len: Option<nat>): string {
    match len
    case Some(n) => "invalid utf-8 sequence of " + ShowNat(n) + " bytes from index " + ShowNat(i)
    case None => "incomplete utf-8 byte sequence from index " + ShowNat(i)
  }

  /** The error text of the ill-formed sequence at `i`. */
  function ErrorAt(s: seq<u8>, i: nat): string
    requires i < |s| && SeqLen(s, i) == 0
  {
    InvalidMsg(i, ErrorLen(s, i))
  }

  /** `str::from_utf8` of the bytes from `i` on: the characters, or the
      `Utf8Error` of the first ill-formed sequence, whose index is where the
      valid prefix ends. */
  function DecodeFrom(s: seq<u8>, i: nat): (r: Result<string>)
    requires i <= |s|
    decreases |s| - i
  {
    if i == |s| then Ok([])
    else
      var n := SeqLen(s, i);
      if n == 0 then Err(ErrorAt(s, i))
      else
        var rest :- DecodeFrom(s, i + n);
        Ok([ScalarAt(s, i, n) as char] + rest)
  }

  function Decode(s: seq<u8>): Result<string> {
    DecodeFrom(s, 0)
  }

  /** The UTF-8 encoding of one character. */
  function EncodeChar(c: char): (bytes: seq<u8>)
    ensures 1 <= |bytes| <= 4
  {
    var v := c as int;
    if v < 0x80 then [v]
    else if v < 0x800 then [0xC0 + v / 64, 0x80 + v % 64]
    else if v < 0x1_0000 then [0xE0 + v / 4096, 0x80 + v / 64 % 64, 0x80 + v % 64]
    else [0xF0 + v / 262144, 0x80 + v / 4096 % 64, 0x80 + v / 64 % 64, 0x80 + v % 64]
  }

  function Encode(s: string): (bytes: seq<u8>)
    ensures |bytes| <= 4 * |s|
  {
    if s == [] then [] else EncodeChar(s[0]) + Encode(s[1..])
  }

  lemma EncodeTwo(c: char, s: seq<u8>, i: nat)
    requires 0x80 <= c as int < 0x800
    requires i + 2 <= |s| && s[i..i + 2] == EncodeChar(c)
    ensures SeqLen(s, i) == 2 && ScalarAt(s, i, 2) == c as int
  {
    var v := c as int;
    assert s[i] == 0xC0 + v / 64 && s[i + 1] == 0x80 + v % 64;
  }

  lemma EncodeThree(c: char, s: seq<u8>, i: nat)
    requires 0x800 <= c as int < 0x1_0000
    requires i + 3 <= |s| && s[i..i + 3] == EncodeChar(c)
    ensures SeqLen(s, i) == 3 && ScalarAt(s, i, 3) == c as int
  {
    var v := c as int;
    assert s[i] == 0xE0 + v / 4096 && s[i + 1] == 0x80 + v / 64 % 64 && s[i + 2] == 0x80 + v % 64;
    assert v == v / 4096 * 4096 + v / 64 % 64 * 64 + v % 64;
  }

  /** A value below 2^21 in four groups of six, three and six bits. */
  lemma Groups(v: nat)
    ensures v == v / 262144 * 262144 + v / 4096 % 64 * 4096 + v / 64 % 64 * 64 + v % 64
  {
    assert v == v / 64 * 64 + v % 64;
    assert v / 64 == v / 4096 * 64 + v / 64 % 64;
    assert v / 4096 == v / 262144 * 64 + v / 4096 % 64;
  }

  lemma EncodeFour(c: char, s: seq<u8>, i: nat)
    requires 0x1_0000 <= c as int
    requires i + 4 <= |s| && s[i..i + 4] == EncodeChar(c)
    ensures SeqLen(s, i) == 4 && ScalarAt(s, i, 4) == c as int
  {
    var v := c as int;
    assert v < 0x11_0000;
    var b0, b1, b2, b3 := v / 262144, v / 4096 % 64, v / 64 % 64, v % 64;
    assert s[i] == 0xF0 + b0 && s[i + 1] == 0x80 + b1;
    assert s[i + 2] == 0x80 + b2 && s[i + 3] == 0x80 + b3;
    assert b0 == 0 ==> b1 >= 16;
    assert b0 == 4 ==> b1 < 16;
    Groups(v);
  }

  /** The bytes of one character form one well-formed sequence that denotes
      it. */
  lemma EncodeCharDecodes(c: char, pre: seq<u8>, rest: seq<u8>)
    ensures var e := EncodeChar(c); var s := pre + e + rest;
      SeqLen(s, |pre|) == |e| && ScalarAt(s, |pre|, |e|) == c as int
  {
    var e := EncodeChar(c);
    var s := pre + e + rest;
    var i := |pre|;
    assert s[i..i + |e|] == e;
    var v := c as int;
    if v < 0x80 {
      assert s[i] == e[0];
    } else if v < 0x800 {
      EncodeTwo(c, s, i);
    } else if v < 0x1_0000 {
      EncodeThree(c, s, i);
    } else {
      EncodeFour(c, s, i);
    }
  }

  /** A well-formed sequence followed by decodable bytes. */
  lemma DecodeStep(s: seq<u8>, i: nat, n: nat, rest: string)
    requires i < |s| && 0 < n == SeqLen(s, i) && DecodeFrom(s, i + n) == Ok(rest)
    ensures DecodeFrom(s, i) == Ok([ScalarAt(s, i, n) as char] + rest)
  {
    assert i != |s| && SeqLen(s, i) != 0;
  }

  /** Decoding the encoding of a string gives it back. */
  lemma {:induction false} DecodeOfEncode(pre: seq<u8>, t: string)
    ensures DecodeFrom(pre + Encode(t), |pre|) == Ok(t)
    decreases |t|
  {
    if t == [] {
      assert pre + Encode(t) == pre;
    } else {
      var e, more := EncodeChar(t[0]), Encode(t[1..]);
      var s := pre + e + more;
      assert Encode(t) == e + more;
      assert pre + Encode(t) == s;
      EncodeCharDecodes(t[0], pre, more);
      DecodeOfEncode(pre + e, t[1..]);
      DecodeStep(s, |pre|, |e|, t[1..]);
      assert t == [t[0]] + t[1..];
    }
  }

  lemma DecodeEncode(t: string)
    ensures Decode(Encode(t)) == Ok(t)
  {
    DecodeOfEncode([], t);
    assert [] + Encode(t) == Encode(t);
  }

  /** A byte 0xFF never starts or continues a sequence, so text holding one
      is rejected. */
  lemma {:induction false} InvalidByteRejected(s: seq<u8>, i: nat, j: nat)
    requires i <= j < |s| && s[j] == 0xFF
    ensures DecodeFrom(s, i).Err?
    decreases |s| - i
  {
    if i < j || i == j {
      var n := SeqLen(s, i);
      if n > 0 && i < j {
        if i + n <= j {
          InvalidByteRejected(s, i + n, j);
        } else {
          assert s[j] == 0xFF;
        }
      }
    }
  }

  /** A byte that cannot start a sequence: `error_len` is 1. */
  lemma ErrorTextInvalidByte()
    ensures Decode([0x61, 0xFF]) == Err("invalid utf-8 sequence of 1 bytes from index 1")
  {
    var a: seq<u8> := [0x61, 0xFF];
    assert SeqLen(a, 0) == 1 && SeqLen(a, 1) == 0 && ErrorLen(a, 1) == Some(1);
    assert ShowNat(1) == "1";
    assert DecodeFrom(a, 2 - 1) == Err(InvalidMsg(1, Some(1)));
  }

  /** Input that ends inside a sequence (the euro sign's first two bytes):
      `error_len` is none. */
  lemma ErrorTextIncomplete()
    ensures Decode([0xE2, 0x82]) == Err("incomplete utf-8 byte sequence from index 0")
  {
    var a: seq<u8> := [0xE2, 0x82];
    assert SeqLen(a, 0) == 0 && ErrorLen(a, 0) == None;
    assert ShowNat(0) == "0";
  }

  /** A sequence broken by its third byte: `error_len` is 2. */
  lemma ErrorTextBroken()
    ensures Decode([0xE2, 0x82, 0x41]) == Err("invalid utf-8 sequence of 2 bytes from index 0")
  {
    var a: seq<u8> := [0xE2, 0x82, 0x41];
    assert SeqLen(a, 0) == 0 && ErrorLen(a, 0) == Some(2);
    assert ShowNat(0) == "0" && ShowNat(2) == "2";
  }
}
