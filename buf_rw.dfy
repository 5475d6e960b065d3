/** The byte reader the packet and replay decoders use: a cursor over a byte
    vector with big-endian integers, Minecraft VarInts and length-prefixed
    byte strings; and the parsing of UUIDs from hex text. */
module BufRw {
  import opened Common

  /** The message of `io::ErrorKind::UnexpectedEof` from `read_exact`. */
  const EOF_MSG: string := "failed to fill whole buffer"
  const VARINT_TOO_BIG_MSG: string := "VarInt too big"
  /** The panic message of `vec![0; n]` for a length above `isize::MAX`. */
  const CAPACITY_MSG: string := "capacity overflow"
  const UUID_FORMAT_MSG: string := "Invalid UUID format"
  const HEX_LENGTH_MSG: string := "Invalid input length"

  // ---------------------------------------------------------------------------
  // What a read at a position yields

  /** `read_exact` of `n` bytes at position `p`: the bytes, or end of file. */
  function BytesAt(data: seq<u8>, p: nat, n: nat): (r: Result<seq<u8>>)
    ensures r.Ok? <==> p + n <= |data|
    ensures r.Ok? ==> |r.value| == n && r.value == data[p..p + n]
    ensures r.Err? ==> r.error == EOF_MSG
  {
    if p + n <= |data| then Ok(data[p..p + n]) else Err(EOF_MSG)
  }

  /** Where `read_exact` of `n` bytes leaves the cursor: past the bytes, or at
      the end of the data when fewer remain. */
  function AfterRead(data: seq<u8>, p: nat, n: nat): nat {
    if p + n <= |data| then p + n else |data|
  }

  /** The big-endian unsigned number of `n` bytes at `p`. */
  function NumberAt(data: seq<u8>, p: nat, n: nat): (r: Result<nat>)
    ensures r.Ok? <==> p + n <= |data|
    ensures r.Ok? ==> r.value < Pow256(n)
    ensures r.Err? ==> r.error == EOF_MSG
  {
    var bytes :- BytesAt(data, p, n);
    Ok(BigEndian(bytes))
  }

  /** Four bytes as a big-endian u32. */
  function BigEndian32(s: seq<u8>): u32
    requires |s| == 4
  {
    Pow256Values();
    BigEndian(s)
  }

  /** Eight bytes as a big-endian u64. */
  function BigEndian64(s: seq<u8>): u64
    requires |s| == 8
  {
    Pow256Values();
    BigEndian(s)
  }

  lemma Pow256Values()
    ensures Pow256(2) == 0x1_0000 && Pow256(4) == 0x1_0000_0000
    ensures Pow256(8) == 0x1_0000_0000_0000_0000
  {
  }

  // ---------------------------------------------------------------------------
  // VarInt

  /** 128 to the power `k`. */
  function Pow128(k: nat): (r: nat)
    ensures r >= 1
  {
    if k == 0 then 1 else 128 * Pow128(k - 1)
  }

  /** `read_varint` continued at byte `p` after `size` bytes gave `acc`: the
      value or the error, and where the cursor ends. Each byte adds its low
      seven bits at bit `7 * size` (the groups do not overlap, so the
      source's bitwise or is a sum; bits past 32 are lost); a byte below 0x80
      ends the number; a sixth byte is an error. */
  function VarIntFrom(data: seq<u8>, p: nat, size: nat, acc: nat): (r: (Result<i32>, nat))
    requires p <= |data| && size <= 5 && acc < 0x1_0000_0000
    ensures r.1 <= |data|
    ensures r.0.Ok? ==> p < r.1 <= p + 5 - size
    decreases 5 - size
  {
    if p == |data| then (Err(EOF_MSG), |data|)
    else
      var b := data[p];
      var acc' := AddGroup(acc, b, size);
      if size == 5 then (Err(VARINT_TOO_BIG_MSG), p + 1)
      else if b < 128 then (Ok(AsI32(acc')), p + 1)
      else VarIntFrom(data, p + 1, size + 1, acc')
  }

  /** The partial value after the low seven bits of byte `b` are added as
      group `size`, modulo 2^32. */
  function AddGroup(acc: nat, b: u8, size: nat): (r: nat)
    ensures r < 0x1_0000_0000
  {
    (acc + (b % 128) * Pow128(size)) % 0x1_0000_0000
  }

  /** `read_varint` at byte `p`. */
  function VarIntAt(data: seq<u8>, p: nat): (Result<i32>, nat)
    requires p <= |data|
  {
    VarIntFrom(data, p, 0, 0)
  }

  /** A byte below 0x80 is a one-byte VarInt denoting itself. */
  lemma VarIntOneByte(data: seq<u8>, p: nat)
    requires p < |data| && data[p] < 0x80
    ensures VarIntAt(data, p) == (Ok(data[p] as i32), p + 1)
  {
  }

  /** Six bytes with the continuation bit set from `p` on: "VarInt too big". */
  lemma {:induction false} VarIntTooLong(data: seq<u8>, p: nat, size: nat, acc: nat)
    requires size <= 5 && acc < 0x1_0000_0000 && p + 6 - size <= |data|
    requires forall i | p <= i < p + 6 - size :: data[i] >= 0x80
    ensures VarIntFrom(data, p, size, acc) == (Err(VARINT_TOO_BIG_MSG), p + 6 - size)
    decreases 5 - size
  {
    if size < 5 {
      VarIntTooLong(data, p + 1, size + 1, AddGroup(acc, data[p], size));
    }
  }

  /** The VarInt encoding of an unsigned 32-bit value: seven bits per byte,
      least significant first, the continuation bit on every byte but the
      last. */
  function EncodeVarInt(n: u32): (s: seq<u8>)
    ensures 1 <= |s|
    decreases n
  {
    if n < 128 then [n as u8] else [(n % 128 + 128) as u8] + EncodeVarInt(n / 128)
  }

  lemma Pow128Values()
    ensures Pow128(1) == 128 && Pow128(2) == 16384 && Pow128(3) == 2097152
    ensures Pow128(4) == 268435456 && Pow128(5) == 34359738368
  {
  }

  /** One seven-bit group taken off `m`: what is read so far stays below the
      next place value, and the total is unchanged. */
  lemma VarIntDigitSplit(acc: nat, pw: nat, m: nat)
    requires acc < pw && m >= 128
    ensures acc + (m % 128) * pw < 128 * pw
    ensures acc + (m % 128) * pw + (m / 128) * (128 * pw) == acc + m * pw
  {
    var q, r := m / 128, m % 128;
    MulBelow(r, 127, pw);
    MulSplit(q, r, pw);
  }

  /** `r <= k` keeps `r * pw <= k * pw`. */
  lemma MulBelow(r: nat, k: nat, pw: nat)
    requires r <= k
    ensures r * pw <= k * pw
  {
    assert k * pw == r * pw + (k - r) * pw;
  }

  /** The place value of a seven-bit group. */
  lemma MulSplit(q: nat, r: nat, pw: nat)
    ensures r * pw + q * (128 * pw) == (128 * q + r) * pw
  {
  }

  /** The arithmetic of one continuation byte `b` carrying the low group of
      `m`: a number that still has a group left fits below 2^32 only if at
      most four groups were read, and the partial value then grows by the
      group at its place. */
  lemma VarIntStep(size: nat, acc: nat, m: nat, b: u8)
    requires size <= 4 && acc < Pow128(size) && acc + m * Pow128(size) < 0x1_0000_0000
    requires m >= 128 && b % 128 == m % 128
    ensures size < 4
    ensures AddGroup(acc, b, size) < Pow128(size + 1)
    ensures AddGroup(acc, b, size) + (m / 128) * Pow128(size + 1) == acc + m * Pow128(size)
  {
    var pw := Pow128(size);
    Pow128Values();
    assert m * pw >= 128 * pw;
    VarIntDigitSplit(acc, pw, m);
  }

  /** The arithmetic of the last byte `b == m`. */
  lemma VarIntLast(size: nat, acc: nat, m: nat, b: u8)
    requires acc + m * Pow128(size) < 0x1_0000_0000 && b == m < 128
    ensures AddGroup(acc, b, size) == acc + m * Pow128(size)
  {
  }

  /** Decoding the rest `m` of a number whose low `7 * size` bits `acc` are
      already read. */
  lemma {:induction false} VarIntOfEncoding(data: seq<u8>, p: nat, size: nat, acc: nat, m: u32)
    requires size <= 4 && acc < Pow128(size) && acc + m * Pow128(size) < 0x1_0000_0000
    requires p + |EncodeVarInt(m)| <= |data| && data[p..p + |EncodeVarInt(m)|] == EncodeVarInt(m)
    ensures VarIntFrom(data, p, size, acc) == (Ok(AsI32(acc + m * Pow128(size))), p + |EncodeVarInt(m)|)
    decreases m
  {
    var enc := EncodeVarInt(m);
    assert data[p] == enc[0];
    if m < 128 {
      VarIntLast(size, acc, m, data[p]);
    } else {
      VarIntStep(size, acc, m, data[p]);
      var rest := EncodeVarInt(m / 128);
      assert enc == [data[p]] + rest;
      assert data[p + 1..p + 1 + |rest|] == rest by {
        assert data[p + 1..p + 1 + |rest|] == data[p..p + |enc|][1..];
      }
      VarIntOfEncoding(data, p + 1, size + 1, AddGroup(acc, data[p], size), m / 128);
    }
  }

  /** The u32 with the same bits as an i32. */
  function AsU32(x: i32): u32 {
    if x < 0 then x + 0x1_0000_0000 else x
  }

  /** Every i32 survives its VarInt encoding (as the u32 of the same bits),
      wherever it stands. */
  lemma VarIntRoundTrip(x: i32, pre: seq<u8>, rest: seq<u8>)
    ensures var enc := EncodeVarInt(AsU32(x));
      |enc| <= 5 && VarIntAt(pre + enc + rest, |pre|) == (Ok(x), |pre| + |enc|)
  {
    var enc := EncodeVarInt(AsU32(x));
    var data := pre + enc + rest;
    assert data[|pre|..|pre| + |enc|] == enc;
    VarIntOfEncoding(data, |pre|, 0, 0, AsU32(x));
  }

  // ---------------------------------------------------------------------------
  // The reads as functions of the data and a position, for decoders that
  // chain them

  /** A value read and the position after it. */
  datatype Parsed<+T> = Parsed(value: T, next: nat)

  /** A read returned what `spec` says, and on success left the cursor right
      after the value. */
  ghost predicate Follows<T>(r: Result<T>, spec: Result<Parsed<T>>, pos: nat) {
    match spec
    case Ok(parsed) => r == Ok(parsed.value) && pos == parsed.next
    case Err(e) => r == Err(e)
  }

  function U8P(d: seq<u8>, p: nat): (r: Result<Parsed<u8>>)
    ensures r.Ok? ==> p < r.value.next <= |d|
  {
    if p < |d| then Ok(Parsed(d[p], p + 1)) else Err(EOF_MSG)
  }

  function I8P(d: seq<u8>, p: nat): (r: Result<Parsed<i8>>)
    ensures r.Ok? ==> p < r.value.next <= |d|
  {
    if p < |d| then Ok(Parsed(AsI8(d[p]), p + 1)) else Err(EOF_MSG)
  }

  function BoolP(d: seq<u8>, p: nat): (r: Result<Parsed<bool>>)
    ensures r.Ok? ==> p < r.value.next <= |d|
  {
    if p < |d| then Ok(Parsed(d[p] != 0, p + 1)) else Err(EOF_MSG)
  }

  function U16P(d: seq<u8>, p: nat): (r: Result<Parsed<u16>>)
    ensures r.Ok? ==> p < r.value.next <= |d|
  {
    if p + 2 <= |d| then Ok(Parsed(d[p] as int * 256 + d[p + 1] as int, p + 2)) else Err(EOF_MSG)
  }

  function I16P(d: seq<u8>, p: nat): (r: Result<Parsed<i16>>)
    ensures r.Ok? ==> p < r.value.next <= |d|
  {
    if p + 2 <= |d| then Ok(Parsed(AsI16(d[p] as int * 256 + d[p + 1] as int), p + 2)) else Err(EOF_MSG)
  }

  function U32P(d: seq<u8>, p: nat): (r: Result<Parsed<u32>>)
    ensures r.Ok? ==> p < r.value.next <= |d|
  {
    if p + 4 <= |d| then Ok(Parsed(BigEndian32(d[p..p + 4]), p + 4)) else Err(EOF_MSG)
  }

  function I32P(d: seq<u8>, p: nat): (r: Result<Parsed<i32>>)
    ensures r.Ok? ==> p < r.value.next <= |d|
  {
    if p + 4 <= |d| then Ok(Parsed(AsI32(BigEndian32(d[p..p + 4])), p + 4)) else Err(EOF_MSG)
  }

  function F64BitsP(d: seq<u8>, p: nat): (r: Result<Parsed<u64>>)
    ensures r.Ok? ==> p < r.value.next <= |d|
  {
    if p + 8 <= |d| then Ok(Parsed(BigEndian64(d[p..p + 8]), p + 8)) else Err(EOF_MSG)
  }

  function UuidP(d: seq<u8>, p: nat): (r: Result<Parsed<Uuid>>)
    ensures r.Ok? ==> p < r.value.next <= |d|
  {
    if p + 16 <= |d| then Ok(Parsed(Uuid(BigEndian64(d[p..p + 8]), BigEndian64(d[p + 8..p + 16])), p + 16))
    else Err(EOF_MSG)
  }

  function VarIntP(d: seq<u8>, p: nat): (r: Result<Parsed<i32>>)
    requires p <= |d|
    ensures r.Ok? ==> p < r.value.next <= |d|
  {
    var (v, q) := VarIntAt(d, p);
    if v.Ok? then Ok(Parsed(v.value, q)) else Err(v.error)
  }

  function PrefixedBytesP(d: seq<u8>, p: nat): (r: Result<Parsed<seq<u8>>>)
    requires p <= |d|
    ensures r.Ok? ==> p < r.value.next <= |d|
  {
    var n :- VarIntP(d, p);
    if n.value < 0 then Err(CAPACITY_MSG)
    else
      var bytes :- BytesAt(d, n.next, n.value);
      Ok(Parsed(bytes, n.next + n.value))
  }

  // ---------------------------------------------------------------------------
  // The reader

  /** `BufReader`: the bytes, their count, and a cursor position. */
  class BufReader {
    const data: seq<u8>
    const len: nat
    var pos: nat

    ghost predicate Valid()
      reads this
    {
      len == |data| && pos <= len
    }

    /** `BufReader::new`: the cursor at the start. */
    constructor (data: seq<u8>)
      ensures Valid() && this.data == data && pos == 0
    {
      this.data := data;
      len := |data|;
      pos := 0;
    }

    function Len(): (n: nat)
      reads this
      requires Valid()
      ensures n == |data|
    {
      len
    }

    function Position(): nat
      reads this
    {
      pos
    }

    /** `read_bytes`: `read_exact` of `size` bytes. A read past the end
        fails and leaves the cursor at the end: the generic `Read::read_exact`
        consumes what is left before failing, and the specialised
        `Cursor::read_exact` of later Rust releases moves to the end. */
    method ReadBytes(size: nat) returns (r: Result<seq<u8>>)
      requires Valid()
      modifies this
      ensures Valid()
      ensures r == BytesAt(data, old(pos), size) && pos == AfterRead(data, old(pos), size)
    {
      if pos + size <= len {
        r := Ok(data[pos..pos + size]);
        pos := pos + size;
      } else {
        r := Err(EOF_MSG);
        pos := len;
      }
    }

    /** `read_remainder`: every byte left, which always succeeds. */
    method ReadRemainder() returns (r: Result<seq<u8>>)
      requires Valid()
      modifies this
      ensures Valid()
      ensures r == Ok(data[old(pos)..]) && pos == |data|
    {
      var size := Len() - pos;
      assert data[pos..pos + size] == data[pos..];
      r := ReadBytes(size);
    }

    method ReadU8() returns (r: Result<u8>)
      requires Valid()
      modifies this
      ensures Valid()
      ensures Follows(r, U8P(data, old(pos)), pos) && (r.Err? ==> pos == |data|)
    {
      var bytes :- ReadBytes(1);
      return Ok(bytes[0]);
    }

    method ReadI8() returns (r: Result<i8>)
      requires Valid()
      modifies this
      ensures Valid()
      ensures Follows(r, I8P(data, old(pos)), pos) && (r.Err? ==> pos == |data|)
    {
      var b :- ReadU8();
      return Ok(AsI8(b));
    }

    /** `read_bool`: true for any nonzero byte. */
    method ReadBool() returns (r: Result<bool>)
      requires Valid()
      modifies this
      ensures Valid()
      ensures Follows(r, BoolP(data, old(pos)), pos) && (r.Err? ==> pos == |data|)
    {
      var b :- ReadU8();
      return Ok(b != 0);
    }

    /** A big-endian unsigned number of `n` bytes. */
    method ReadNumber(n: nat) returns (r: Result<nat>)
      requires Valid()
      modifies this
      ensures Valid()
      ensures r == NumberAt(data, old(pos), n) && pos == AfterRead(data, old(pos), n)
    {
      var bytes :- ReadBytes(n);
      return Ok(BigEndian(bytes));
    }

    method ReadU16() returns (r: Result<u16>)
      requires Valid()
      modifies this
      ensures Valid()
      ensures Follows(r, U16P(data, old(pos)), pos) && (r.Err? ==> pos == |data|)
    {
      ghost var p := pos;
      var v :- ReadNumber(2);
      BigEndianTwo(data[p..p + 2]);
      return Ok(v);
    }

    method ReadI16() returns (r: Result<i16>)
      requires Valid()
      modifies this
      ensures Valid()
      ensures Follows(r, I16P(data, old(pos)), pos) && (r.Err? ==> pos == |data|)
    {
      var v :- ReadU16();
      return Ok(AsI16(v));
    }

    method ReadU32() returns (r: Result<u32>)
      requires Valid()
      modifies this
      ensures Valid()
      ensures Follows(r, U32P(data, old(pos)), pos) && (r.Err? ==> pos == |data|)
    {
      var v :- ReadNumber(4);
      Pow256Values();
      return Ok(v);
    }

    method ReadI32() returns (r: Result<i32>)
      requires Valid()
      modifies this
      ensures Valid()
      ensures Follows(r, I32P(data, old(pos)), pos) && (r.Err? ==> pos == |data|)
    {
      var v :- ReadU32();
      return Ok(AsI32(v));
    }

    /** `read_f64`, kept as the raw big-endian bits of the double. */
    method ReadF64Bits() returns (r: Result<u64>)
      requires Valid()
      modifies this
      ensures Valid()
      ensures Follows(r, F64BitsP(data, old(pos)), pos) && (r.Err? ==> pos == |data|)
    {
      var v :- ReadNumber(8);
      Pow256Values();
      return Ok(v);
    }

    /** `read_uuid`: two big-endian u64, high half first. */
    method ReadUuid() returns (r: Result<Uuid>)
      requires Valid()
      modifies this
      ensures Valid()
      ensures Follows(r, UuidP(data, old(pos)), pos) && (r.Err? ==> pos == |data|)
    {
      var high :- ReadF64Bits();
      var low :- ReadF64Bits();
      return Ok(Uuid(high, low));
    }

    /** `read_varint`. */
    method ReadVarint() returns (r: Result<i32>)
      requires Valid()
      modifies this
      ensures Valid()
      ensures (r, pos) == VarIntAt(data, old(pos))
      ensures Follows(r, VarIntP(data, old(pos)), pos)
    {
      var size: nat := 0;
      var val: nat := 0;
      while true
        invariant Valid() && size <= 5 && val < 0x1_0000_0000
        invariant VarIntFrom(data, pos, size, val) == VarIntAt(data, old(pos))
        decreases 5 - size
      {
        ghost var p := pos;
        var rb := ReadU8();
        if rb.Err? {
          assert p == |data|;
          return Err(rb.error);
        }
        var b := rb.value;
        assert b == data[p] && pos == p + 1;
        val := AddGroup(val, b, size);
        size := size + 1;
        if size > 5 {
          return Err(VARINT_TOO_BIG_MSG);
        }
        if b < 128 {
          break;
        }
      }
      return Ok(AsI32(val));
    }

    /** `read_varint_prefixed_bytes`: a VarInt length, then that many bytes.
        A negative length becomes a huge `usize` and the allocation of the
        buffer fails. */
    method ReadVarintPrefixedBytes() returns (r: Result<seq<u8>>)
      requires Valid()
      modifies this
      ensures Valid()
      ensures Follows(r, PrefixedBytesP(data, old(pos)), pos)
    {
      var size :- ReadVarint();
      if size < 0 {
        return Err(CAPACITY_MSG);
      }
      r := ReadBytes(size);
    }
  }

  // ---------------------------------------------------------------------------
  // What a writer puts for each read, and the reads of those bytes

  function AsU8(x: i8): u8 {
    if x < 0 then x + 0x100 else x
  }

  function AsU16(x: i16): u16 {
    if x < 0 then x + 0x1_0000 else x
  }

  function EncodeU16(v: u16): (s: seq<u8>)
    ensures |s| == 2
  {
    Pow256Values();
    EncodeBigEndian(v, 2)
  }

  function EncodeI16(x: i16): (s: seq<u8>)
    ensures |s| == 2
  {
    EncodeU16(AsU16(x))
  }

  function EncodeU32(v: u32): (s: seq<u8>)
    ensures |s| == 4
  {
    Pow256Values();
    EncodeBigEndian(v, 4)
  }

  function EncodeI32(x: i32): (s: seq<u8>)
    ensures |s| == 4
  {
    Pow256Values();
    EncodeBigEndian(AsU32(x), 4)
  }

  function EncodeU64(v: u64): (s: seq<u8>)
    ensures |s| == 8
  {
    Pow256Values();
    EncodeBigEndian(v, 8)
  }

  function EncodeUuid(u: Uuid): (s: seq<u8>)
    ensures |s| == 16
  {
    EncodeU64(u.high) + EncodeU64(u.low)
  }

  function EncodeBool(b: bool): seq<u8> {
    [if b then 1 else 0]
  }

  /** The bytes from `p` on start with `a`: its bytes, and what follows. */
  lemma Peel(d: seq<u8>, p: nat, a: seq<u8>, rest: seq<u8>)
    requires p <= |d| && d[p..] == a + rest
    ensures p + |a| <= |d| && d[p..p + |a|] == a && d[p + |a|..] == rest
  {
    assert d[p..p + |a|] == d[p..][..|a|];
    assert d[p + |a|..] == d[p..][|a|..];
  }

  // Each read of the bytes a writer put for a value gives the value back and
  // moves past them.

  lemma U8POf(d: seq<u8>, p: nat, b: u8, rest: seq<u8>)
    requires p <= |d| && d[p..] == [b] + rest
    ensures U8P(d, p) == Ok(Parsed(b, p + 1)) && d[p + 1..] == rest
  {
    Peel(d, p, [b], rest);
  }

  lemma I8POf(d: seq<u8>, p: nat, x: i8, rest: seq<u8>)
    requires p <= |d| && d[p..] == [AsU8(x)] + rest
    ensures I8P(d, p) == Ok(Parsed(x, p + 1)) && d[p + 1..] == rest
  {
    Peel(d, p, [AsU8(x)], rest);
  }

  lemma BoolPOf(d: seq<u8>, p: nat, b: bool, rest: seq<u8>)
    requires p <= |d| && d[p..] == EncodeBool(b) + rest
    ensures BoolP(d, p) == Ok(Parsed(b, p + 1)) && d[p + 1..] == rest
  {
    Peel(d, p, EncodeBool(b), rest);
  }

  lemma U16POf(d: seq<u8>, p: nat, v: u16, rest: seq<u8>)
    requires p <= |d| && d[p..] == EncodeU16(v) + rest
    ensures U16P(d, p) == Ok(Parsed(v, p + 2)) && d[p + 2..] == rest
  {
    Peel(d, p, EncodeU16(v), rest);
    Pow256Values();
    BigEndianOfEncode(v, 2);
    BigEndianTwo(d[p..p + 2]);
  }

  lemma I16POf(d: seq<u8>, p: nat, x: i16, rest: seq<u8>)
    requires p <= |d| && d[p..] == EncodeI16(x) + rest
    ensures I16P(d, p) == Ok(Parsed(x, p + 2)) && d[p + 2..] == rest
  {
    U16POf(d, p, AsU16(x), rest);
  }

  lemma U32POf(d: seq<u8>, p: nat, v: u32, rest: seq<u8>)
    requires p <= |d| && d[p..] == EncodeU32(v) + rest
    ensures U32P(d, p) == Ok(Parsed(v, p + 4)) && d[p + 4..] == rest
  {
    Peel(d, p, EncodeU32(v), rest);
    Pow256Values();
    BigEndianOfEncode(v, 4);
  }

  lemma I32POf(d: seq<u8>, p: nat, x: i32, rest: seq<u8>)
    requires p <= |d| && d[p..] == EncodeI32(x) + rest
    ensures I32P(d, p) == Ok(Parsed(x, p + 4)) && d[p + 4..] == rest
  {
    Peel(d, p, EncodeI32(x), rest);
    Pow256Values();
    BigEndianOfEncode(AsU32(x), 4);
  }

  lemma F64BitsPOf(d: seq<u8>, p: nat, v: u64, rest: seq<u8>)
    requires p <= |d| && d[p..] == EncodeU64(v) + rest
    ensures F64BitsP(d, p) == Ok(Parsed(v, p + 8)) && d[p + 8..] == rest
  {
    Peel(d, p, EncodeU64(v), rest);
    Pow256Values();
    BigEndianOfEncode(v, 8);
  }

  lemma UuidPOf(d: seq<u8>, p: nat, u: Uuid, rest: seq<u8>)
    requires p <= |d| && d[p..] == EncodeUuid(u) + rest
    ensures UuidP(d, p) == Ok(Parsed(u, p + 16)) && d[p + 16..] == rest
  {
    assert d[p..] == EncodeU64(u.high) + (EncodeU64(u.low) + rest);
    F64BitsPOf(d, p, u.high, EncodeU64(u.low) + rest);
    F64BitsPOf(d, p + 8, u.low, rest);
    Peel(d, p, EncodeUuid(u), rest);
    assert d[p..p + 8] == d[p..p + 16][..8];
    assert d[p + 8..p + 16] == d[p..p + 16][8..];
  }

  lemma VarIntPOf(d: seq<u8>, p: nat, x: i32, rest: seq<u8>)
    requires p <= |d| && d[p..] == EncodeVarInt(AsU32(x)) + rest
    ensures VarIntP(d, p) == Ok(Parsed(x, p + |EncodeVarInt(AsU32(x))|))
    ensures d[p + |EncodeVarInt(AsU32(x))|..] == rest
  {
    Peel(d, p, EncodeVarInt(AsU32(x)), rest);
    VarIntOfEncoding(d, p, 0, 0, AsU32(x));
  }

  /** Reading a VarInt-prefixed byte string written as its VarInt length and
      its bytes gives the bytes back and ends right after them. */
  lemma PrefixedBytesPOf(d: seq<u8>, p: nat, bytes: seq<u8>, rest: seq<u8>)
    requires |bytes| < 0x8000_0000
    requires p <= |d| && d[p..] == EncodeVarInt(|bytes|) + (bytes + rest)
    ensures PrefixedBytesP(d, p) == Ok(Parsed(bytes, p + |EncodeVarInt(|bytes|)| + |bytes|))
    ensures d[p + |EncodeVarInt(|bytes|)| + |bytes|..] == rest
  {
    var n: i32 := |bytes|;
    assert AsU32(n) == |bytes|;
    VarIntPOf(d, p, n, bytes + rest);
    var q := p + |EncodeVarInt(|bytes|)|;
    Peel(d, q, bytes, rest);
    assert BytesAt(d, q, |bytes|) == Ok(bytes);
  }

  // ---------------------------------------------------------------------------
  // UUIDs

  datatype Uuid = Uuid(high: u64, low: u64)

  /** The hex value of a digit, in either case. */
  function HexValue(c: char): Option<nat> {
    if '0' <= c <= '9' then Some(c as int - '0' as int)
    else if 'a' <= c <= 'f' then Some(c as int - 'a' as int + 10)
    else if 'A' <= c <= 'F' then Some(c as int - 'A' as int + 10)
    else None
  }

  predicate IsHexSpace(c: char) { c == ' ' || c == '\r' || c == '\n' || c == '\t' }

  function InvalidCharMsg(c: char, idx: nat): string {
    "Invalid character '" + [c] + "' at position " + ShowNat(idx)
  }

  /** `FromHex::from_hex` on the text `s` found at index `base` of the whole,
      with `pending` the high nibble of a byte begun before it: two digits
      per byte, white space skipped, the first other character an error,
      and an odd count of digits an error. */
  function FromHexFrom(s: string, base: nat, pending: Option<nat>): (r: Result<seq<u8>>)
    requires pending.Some? ==> pending.value < 16
  {
    if s == [] then (if pending.Some? then Err(HEX_LENGTH_MSG) else Ok([]))
    else if IsHexSpace(s[0]) then FromHexFrom(s[1..], base + 1, pending)
    else match HexValue(s[0])
      case None => Err(InvalidCharMsg(s[0], base))
      case Some(v) =>
        if v >= 16 then Err(InvalidCharMsg(s[0], base))
        else match pending
          case None => FromHexFrom(s[1..], base + 1, Some(v))
          case Some(h) =>
            var rest :- FromHexFrom(s[1..], base + 1, None);
            Ok([(h * 16 + v) as u8] + rest)
  }

  function FromHex(s: string): Result<seq<u8>> {
    FromHexFrom(s, 0, None)
  }

  /** `s.replace("-", "")` */
  function RemoveDashes(s: string): (r: string)
    ensures '-' !in r
  {
    if s == [] then [] else (if s[0] == '-' then [] else [s[0]]) + RemoveDashes(s[1..])
  }

  /** `UUID::from_str`: 36 characters lose their dashes, 32 are kept, other
      lengths are an error; the hex text is decoded and its first sixteen
      bytes give the two big-endian halves. Fewer than sixteen bytes panic
      on an index. */
  function UuidOf(s: string): Outcome<Result<Uuid>> {
    if |s| != 36 && |s| != 32 then Returns(Err(UUID_FORMAT_MSG))
    else
      var text := if |s| == 36 then RemoveDashes(s) else s;
      match FromHex(text)
      case Err(e) => Returns(Err(e))
      case Ok(parts) =>
        match HalvesOf(parts)
        case Panics => Panics
        case Returns(u) => Returns(Ok(u))
  }

  /** The two big-endian halves of the first sixteen bytes; fewer panic. */
  function HalvesOf(parts: seq<u8>): Outcome<Uuid> {
    if |parts| < 16 then Panics
    else Returns(Uuid(BigEndian64(parts[..8]), BigEndian64(parts[8..16])))
  }

  lemma BigEndianSnoc(s: seq<u8>, b: u8)
    ensures BigEndian(s + [b]) == BigEndian(s) * 256 + b
  {
    assert (s + [b])[..|s|] == s;
  }

  lemma ShiftIn(x: int, b: int, w: int)
    ensures (x * 256 + b) * w == x * (256 * w) + b * w
  {
  }

  /** Byte `b` at place `i` of eight, counted from the most significant. */
  function Placed(b: u8, i: nat): nat
    requires i < 8
  {
    b * Pow256(7 - i)
  }

  /** The first `i` of the eight bytes at `off`, shifted to their places. */
  function Partial(parts: seq<u8>, off: nat, i: nat): nat
    requires i <= 8 && off + i <= |parts|
  {
    BigEndian(parts[off..off + i]) * Pow256(8 - i)
  }

  /** One more byte shifted in below a partial big-endian number. */
  lemma HalfStep(parts: seq<u8>, off: nat, i: nat)
    requires i < 8 && off + i < |parts|
    ensures Partial(parts, off, i + 1) == Partial(parts, off, i) + Placed(parts[off + i], i)
  {
    var x, b, w := BigEndian(parts[off..off + i]), parts[off + i], Pow256(7 - i);
    assert parts[off..off + i + 1] == parts[off..off + i] + [b];
    BigEndianSnoc(parts[off..off + i], b);
    assert Pow256(8 - i) == 256 * w;
    ShiftIn(x, b, w);
  }

  /** The loop of `UUID::from_str` over the eight byte positions of each
      half. */
  method ReadHalves(parts: seq<u8>) returns (r: Outcome<Uuid>)
    ensures r == HalvesOf(parts)
  {
    var high: nat := 0;
    var low: nat := 0;
    for i := 0 to 8
      invariant i == 0 || i + 7 < |parts|
      invariant i == 0 ==> high == 0 && low == 0
      invariant i > 0 ==> high == Partial(parts, 0, i) && low == Partial(parts, 8, i)
    {
      if i + 8 >= |parts| {
        return Panics;
      }
      HalfStep(parts, 0, i);
      HalfStep(parts, 8, i);
      high := high + Placed(parts[i], i);
      low := low + Placed(parts[i + 8], i);
    }
    assert parts[8..16] == parts[8..8 + 8] && parts[..8] == parts[0..8];
    Pow256Values();
    return Returns(Uuid(high, low));
  }

  /** `UUID::from_str`. */
  method UuidFromStr(s: string) returns (r: Outcome<Result<Uuid>>)
    ensures r == UuidOf(s)
  {
    var text: string;
    if |s| == 36 {
      text := RemoveDashes(s);
    } else if |s| == 32 {
      text := s;
    } else {
      return Returns(Err(UUID_FORMAT_MSG));
    }
    var decoded := FromHex(text);
    if decoded.Err? {
      return Returns(Err(decoded.error));
    }
    var halves := ReadHalves(decoded.value);
    if halves.Panics? {
      return Panics;
    }
    return Returns(Ok(halves.value));
  }

  // Printing UUIDs as hex text

  /** The lower-case hex digit of a value below sixteen. */
  function HexDigit(v: nat): (c: char)
    requires v < 16
    ensures HexValue(c) == Some(v) && c != '-'
  {
    if v < 10 then ('0' as int + v) as char else ('a' as int + v - 10) as char
  }

  /** Two lower-case hex digits per byte. */
  function HexText(bytes: seq<u8>): (s: string)
    ensures |s| == 2 * |bytes| && '-' !in s
  {
    if bytes == [] then []
    else [HexDigit(bytes[0] / 16), HexDigit(bytes[0] % 16)] + HexText(bytes[1..])
  }

  /** The hex text of bytes decodes back to them. */
  lemma {:induction false} FromHexOfText(bytes: seq<u8>, base: nat)
    ensures FromHexFrom(HexText(bytes), base, None) == Ok(bytes)
  {
    if bytes != [] {
      var s := HexText(bytes);
      var b := bytes[0];
      var hi, lo := HexDigit(b / 16), HexDigit(b % 16);
      assert s[0] == hi && s[1..][0] == lo;
      assert s[1..][1..] == HexText(bytes[1..]);
      FromHexOfText(bytes[1..], base + 2);
      assert FromHexFrom(s[1..], base + 1, Some(b / 16)) == Ok([b] + bytes[1..]);
      assert bytes == [b] + bytes[1..];
    }
  }

  lemma {:induction false} HexTextAppend(a: seq<u8>, b: seq<u8>)
    ensures HexText(a + b) == HexText(a) + HexText(b)
  {
    if a == [] {
      assert a + b == b;
    } else {
      assert (a + b)[0] == a[0];
      assert (a + b)[1..] == a[1..] + b;
      HexTextAppend(a[1..], b);
      var head := [HexDigit(a[0] / 16), HexDigit(a[0] % 16)];
      assert HexText(a + b) == head + (HexText(a[1..]) + HexText(b));
      assert head + (HexText(a[1..]) + HexText(b)) == (head + HexText(a[1..])) + HexText(b);
    }
  }

  lemma {:induction false} RemoveDashesAppend(a: string, b: string)
    ensures RemoveDashes(a + b) == RemoveDashes(a) + RemoveDashes(b)
  {
    if a == [] {
      assert a + b == b;
    } else {
      assert (a + b)[0] == a[0];
      assert (a + b)[1..] == a[1..] + b;
      RemoveDashesAppend(a[1..], b);
      var head := if a[0] == '-' then [] else [a[0]];
      assert RemoveDashes(a + b) == head + (RemoveDashes(a[1..]) + RemoveDashes(b));
      assert head + (RemoveDashes(a[1..]) + RemoveDashes(b)) == (head + RemoveDashes(a[1..])) + RemoveDashes(b);
    }
  }

  lemma {:induction false} RemoveDashesNone(s: string)
    requires '-' !in s
    ensures RemoveDashes(s) == s
  {
    if s != [] {
      RemoveDashesNone(s[1..]);
    }
  }

  /** The two halves of the UUID of sixteen bytes. */
  function UuidOfBytes(bytes: seq<u8>): Uuid
    requires |bytes| == 16
  {
    Uuid(BigEndian64(bytes[..8]), BigEndian64(bytes[8..]))
  }

  /** Thirty-two hex digits read back as the UUID of their bytes. */
  lemma UuidOfHexText(bytes: seq<u8>)
    requires |bytes| == 16
    ensures UuidOf(HexText(bytes)) == Returns(Ok(UuidOfBytes(bytes)))
  {
    FromHexOfText(bytes, 0);
    assert bytes[8..16] == bytes[8..];
  }

  /** The usual 8-4-4-4-12 form with dashes. */
  function DashedText(bytes: seq<u8>): string
    requires |bytes| == 16
  {
    HexText(bytes[..4]) + "-" + HexText(bytes[4..6]) + "-" + HexText(bytes[6..8]) + "-"
      + HexText(bytes[8..10]) + "-" + HexText(bytes[10..])
  }

  lemma DashJoin(x: string, y: string)
    ensures RemoveDashes(x + "-" + y) == RemoveDashes(x) + RemoveDashes(y)
  {
    RemoveDashesAppend(x + "-", y);
    RemoveDashesAppend(x, "-");
  }

  /** One more dash and group after text whose dashes are already
      accounted for. */
  lemma DashStep(t: string, done: seq<u8>, g: seq<u8>, whole: seq<u8>)
    requires RemoveDashes(t) == HexText(done) && whole == done + g
    ensures RemoveDashes(t + "-" + HexText(g)) == HexText(whole)
  {
    DashJoin(t, HexText(g));
    RemoveDashesNone(HexText(g));
    HexTextAppend(done, g);
  }

  /** Removing the dashes between five hex groups leaves the hex text of
      the five groups' bytes. */
  lemma DashesOfGroups(g1: seq<u8>, g2: seq<u8>, g3: seq<u8>, g4: seq<u8>, g5: seq<u8>)
    ensures RemoveDashes(HexText(g1) + "-" + HexText(g2) + "-" + HexText(g3) + "-"
                         + HexText(g4) + "-" + HexText(g5)) == HexText(g1 + g2 + g3 + g4 + g5)
  {
    var t1 := HexText(g1);
    RemoveDashesNone(t1);
    var t2 := t1 + "-" + HexText(g2);
    DashStep(t1, g1, g2, g1 + g2);
    var t3 := t2 + "-" + HexText(g3);
    DashStep(t2, g1 + g2, g3, g1 + g2 + g3);
    var t4 := t3 + "-" + HexText(g4);
    DashStep(t3, g1 + g2 + g3, g4, g1 + g2 + g3 + g4);
    DashStep(t4, g1 + g2 + g3 + g4, g5, g1 + g2 + g3 + g4 + g5);
  }

  /** Removing the dashes from the dashed form leaves the plain hex text. */
  lemma DashesOfDashedText(bytes: seq<u8>)
    requires |bytes| == 16
    ensures RemoveDashes(DashedText(bytes)) == HexText(bytes)
  {
    var g1, g2, g3, g4, g5 := bytes[..4], bytes[4..6], bytes[6..8], bytes[8..10], bytes[10..];
    DashesOfGroups(g1, g2, g3, g4, g5);
    assert g1 + g2 == bytes[..6];
    assert g1 + g2 + g3 == bytes[..8];
    assert g1 + g2 + g3 + g4 == bytes[..10];
    assert g1 + g2 + g3 + g4 + g5 == bytes;
  }

  /** The dashed form reads back as the UUID of its bytes. */
  lemma UuidOfDashedText(bytes: seq<u8>)
    requires |bytes| == 16
    ensures UuidOf(DashedText(bytes)) == Returns(Ok(UuidOfBytes(bytes)))
  {
    DashesOfDashedText(bytes);
    UuidOfHexText(bytes);
  }
}
