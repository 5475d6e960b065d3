/** Shared vocabulary of the model: fixed-width integers, Option/Result, and the
    few pieces of Rust's standard library the core relies on (decimal integer
    parsing and printing, `str::splitn`, `BufRead::lines`). */
module Common {

  // ---------------------------------------------------------------------------
  // Fixed-width integers (values, not bit patterns)

  type u8 = x: int | 0 <= x < 0x100
  type u16 = x: int | 0 <= x < 0x1_0000
  type u32 = x: int | 0 <= x < 0x1_0000_0000
  type u64 = x: int | 0 <= x < 0x1_0000_0000_0000_0000
  type i8 = x: int | -0x80 <= x < 0x80
  type i16 = x: int | -0x8000 <= x < 0x8000
  type i32 = x: int | -0x8000_0000 <= x < 0x8000_0000

  /** Two's-complement reinterpretation of an unsigned 8-bit value (`as i8`). */
  function AsI8(x: u8): (r: i8)
    ensures (r - x) % 0x100 == 0
  {
    if x < 0x80 then x else x - 0x100
  }

  /** Two's-complement reinterpretation of an unsigned 16-bit value (`as i16`). */
  function AsI16(x: u16): (r: i16)
    ensures (r - x) % 0x1_0000 == 0
  {
    if x < 0x8000 then x else x - 0x1_0000
  }

  /** Two's-complement reinterpretation of an unsigned 32-bit value (`as i32`). */
  function AsI32(x: u32): (r: i32)
    ensures (r - x) % 0x1_0000_0000 == 0
  {
    if x < 0x8000_0000 then x else x - 0x1_0000_0000
  }

  // ---------------------------------------------------------------------------
  // Failure-compatible wrappers

  datatype Option<+T> = None | Some(value: T) {
    predicate IsFailure() { None? }
    function PropagateFailure<U>(): Option<U> requires None? { None }
    function Extract(): T requires Some? { value }
  }

  datatype Result<+T> = Ok(value: T) | Err(error: string) {
    predicate IsFailure() { Err? }
    function PropagateFailure<U>(): Result<U> requires Err? { Err(error) }
    function Extract(): T requires Ok? { value }
    /** `Result::ok()` */
    function ToOption(): Option<T> { if Ok? then Some(value) else None }
  }

  /** The result of a computation that may panic. */
  datatype Outcome<+T> = Returns(value: T) | Panics

  // ---------------------------------------------------------------------------
  // Big-endian numbers

  /** 256 to the power `n`. */
  function Pow256(n: nat): (r: nat)
    ensures r >= 1
  {
    if n == 0 then 1 else 256 * Pow256(n - 1)
  }

  /** The unsigned number the bytes `s` denote, most significant first. */
  function BigEndian(s: seq<u8>): (v: nat)
    ensures v < Pow256(|s|)
  {
    if s == [] then 0 else BigEndian(s[..|s| - 1]) * 256 + s[|s| - 1]
  }

  /** The `n` bytes of `v`, most significant first. */
  function EncodeBigEndian(v: nat, n: nat): (s: seq<u8>)
    requires v < Pow256(n)
    ensures |s| == n
  {
    if n == 0 then [] else EncodeBigEndian(v / 256, n - 1) + [(v % 256) as u8]
  }

  /** Encoding then decoding gives the number back. */
  lemma {:induction false} BigEndianOfEncode(v: nat, n: nat)
    requires v < Pow256(n)
    ensures BigEndian(EncodeBigEndian(v, n)) == v
  {
    if n > 0 {
      var s := EncodeBigEndian(v, n);
      assert s[..|s| - 1] == EncodeBigEndian(v / 256, n - 1);
      BigEndianOfEncode(v / 256, n - 1);
    }
  }

  /** Decoding then encoding gives the bytes back. */
  lemma {:induction false} EncodeOfBigEndian(s: seq<u8>)
    ensures EncodeBigEndian(BigEndian(s), |s|) == s
  {
    if s != [] {
      var init := s[..|s| - 1];
      EncodeOfBigEndian(init);
      assert BigEndian(s) / 256 == BigEndian(init);
      assert s == init + [s[|s| - 1]];
    }
  }

  /** Two bytes: high byte first. */
  lemma BigEndianTwo(s: seq<u8>)
    requires |s| == 2
    ensures BigEndian(s) == s[0] as int * 256 + s[1] as int
  {
    assert s[..1][..0] == [];
  }

  // ---------------------------------------------------------------------------
  // Decimal integers, as Rust's `FromStr` for integer types reads them

  predicate IsDigit(c: char) { '0' <= c <= '9' }

  predicate AllDigits(s: string) { forall i :: 0 <= i < |s| ==> IsDigit(s[i]) }

  /** Value of a non-empty run of decimal digits, most significant first. */
  function DigitsValue(s: string): nat
    requires AllDigits(s)
  {
    if s == [] then 0
    else
      assert IsDigit(s[|s| - 1]);
      10 * DigitsValue(s[..|s| - 1]) + (s[|s| - 1] as int - '0' as int)
  }

  /** Two's-complement wrap-around of an integer into an i32 (the i32
      arithmetic of a release build). */
  function WrapI32(x: int): (r: i32)
    ensures (r - x) % 0x1_0000_0000 == 0
    ensures -0x8000_0000 <= x < 0x8000_0000 ==> r == x
  {
    var m := x % 0x1_0000_0000;
    if m >= 0x8000_0000 then m - 0x1_0000_0000 else m
  }

  const EMPTY_MSG: string := "cannot parse integer from empty string"
  const INVALID_MSG: string := "invalid digit found in string"
  const OVERFLOW_MSG: string := "number too large to fit in target type"
  const UNDERFLOW_MSG: string := "number too small to fit in target type"

  /** The integer written in `s`: an optional leading `+` (and `-` when
      `signed`) and at least one decimal digit, whatever its size. This is
      the reference reading; the parsers below add the range of the target
      type and the error Rust reports. */
  function DecimalValue(s: string, signed: bool): (r: Option<int>)
    ensures r.Some? ==> s != [] && (r.value < 0 ==> signed && s[0] == '-')
  {
    if s == [] || (|s| == 1 && (s[0] == '+' || s[0] == '-')) then None
    else
      var neg := signed && s[0] == '-';
      var digits := if s[0] == '+' || neg then s[1..] else s;
      if !AllDigits(digits) then None
      else
        var v: int := DigitsValue(digits);
        Some(if neg then -v else v)
  }

  /** The digit loop of Rust's `from_str_radix`: the characters are read left
      to right, a character that is not a digit gives `InvalidDigit`, and the
      first prefix whose magnitude exceeds `bound` gives the overflow error
      `over`, whichever comes first. */
  function Accumulate(digits: string, bound: nat, over: string): (r: Result<nat>)
    ensures r.Ok? <==> AllDigits(digits) && DigitsValue(digits) <= bound
    ensures r.Ok? ==> r.value == DigitsValue(digits)
    ensures r.Err? ==> r.error == INVALID_MSG || r.error == over
    ensures AllDigits(digits) && DigitsValue(digits) > bound ==> r == Err(over)
    decreases |digits|
  {
    if digits == [] then Ok(0)
    else
      var init, c := digits[..|digits| - 1], digits[|digits| - 1];
      assert AllDigits(digits) <==> AllDigits(init) && IsDigit(c) by {
        if AllDigits(init) && IsDigit(c) {
          forall i | 0 <= i < |digits| ensures IsDigit(digits[i]) {
            if i < |init| {
              assert digits[i] == init[i];
            }
          }
        }
      }
      match Accumulate(init, bound, over)
      case Err(e) => Err(e)
      case Ok(acc) =>
        if !IsDigit(c) then Err(INVALID_MSG)
        else
          var v := 10 * acc + (c as int - '0' as int);
          if v > bound then Err(over) else Ok(v)
  }

  /** Once a prefix fails, the whole run fails the same way. */
  lemma {:induction false} AccumulatePrefix(digits: string, i: nat, bound: nat, over: string)
    requires i <= |digits| && Accumulate(digits[..i], bound, over).Err?
    ensures Accumulate(digits, bound, over) == Accumulate(digits[..i], bound, over)
    decreases |digits| - i
  {
    if i < |digits| {
      var next := i + 1;
      assert digits[..next][..i] == digits[..i];
      assert Accumulate(digits[..next], bound, over) == Accumulate(digits[..i], bound, over);
      AccumulatePrefix(digits, next, bound, over);
    } else {
      assert digits[..i] == digits;
    }
  }

  /** A non-digit after a prefix of digits that stays in range is reported
      as an invalid digit, whatever follows it. */
  lemma AccumulateInvalid(digits: string, i: nat, bound: nat, over: string)
    requires i < |digits| && !IsDigit(digits[i])
    requires AllDigits(digits[..i]) && DigitsValue(digits[..i]) <= bound
    ensures Accumulate(digits, bound, over) == Err(INVALID_MSG)
  {
    var next := i + 1;
    assert digits[..next][..i] == digits[..i];
    assert Accumulate(digits[..next], bound, over) == Err(INVALID_MSG);
    AccumulatePrefix(digits, next, bound, over);
  }

  /** A prefix of digits that leaves the range is reported as the overflow,
      whatever follows it. */
  lemma AccumulateOverflow(digits: string, i: nat, bound: nat, over: string)
    requires i <= |digits| && AllDigits(digits[..i]) && DigitsValue(digits[..i]) > bound
    ensures Accumulate(digits, bound, over) == Err(over)
  {
    AccumulatePrefix(digits, i, bound, over);
  }

  /** Rust's `from_str_radix` in base 10 for a type whose values run from
      `-maxNeg` to `maxPos`: the empty-string error, the invalid digit of a
      lone sign, then the sign and the digit loop. */
  function ParseInteger(s: string, signed: bool, maxPos: nat, maxNeg: nat): (r: Result<int>)
    ensures r.Ok? <==> DecimalValue(s, signed).Some? && -(maxNeg as int) <= DecimalValue(s, signed).value <= maxPos
    ensures r.Ok? ==> r.value == DecimalValue(s, signed).value
    ensures DecimalValue(s, signed).Some? && DecimalValue(s, signed).value > maxPos ==> r == Err(OVERFLOW_MSG)
    ensures DecimalValue(s, signed).Some? && DecimalValue(s, signed).value < -(maxNeg as int) ==> r == Err(UNDERFLOW_MSG)
    ensures r.Err? ==> r.error in {EMPTY_MSG, INVALID_MSG, OVERFLOW_MSG, UNDERFLOW_MSG}
  {
    if s == [] then Err(EMPTY_MSG)
    else if |s| == 1 && (s[0] == '+' || s[0] == '-') then Err(INVALID_MSG)
    else
      var neg := signed && s[0] == '-';
      var digits := if s[0] == '+' || neg then s[1..] else s;
      if neg then
        var m :- Accumulate(digits, maxNeg, UNDERFLOW_MSG);
        Ok(-(m as int))
      else
        var m :- Accumulate(digits, maxPos, OVERFLOW_MSG);
        Ok(m)
  }

  /** `str::parse::<i32>()` */
  function ParseI32(s: string): (r: Result<i32>)
    ensures r.Ok? <==> DecimalValue(s, true).Some? && -0x8000_0000 <= DecimalValue(s, true).value < 0x8000_0000
    ensures r.Ok? ==> r.value == DecimalValue(s, true).value
    ensures r.Err? ==> r == ParseInteger(s, true, 0x7FFF_FFFF, 0x8000_0000)
  {
    var v :- ParseInteger(s, true, 0x7FFF_FFFF, 0x8000_0000);
    Ok(v)
  }

  /** `str::parse::<u16>()`: a `-` sign is an invalid digit. */
  function ParseU16(s: string): (r: Result<u16>)
    ensures r.Ok? <==> DecimalValue(s, false).Some? && DecimalValue(s, false).value < 0x1_0000
    ensures r.Ok? ==> r.value == DecimalValue(s, false).value
    ensures r.Err? ==> r == ParseInteger(s, false, 0xFFFF, 0)
  {
    var v :- ParseInteger(s, false, 0xFFFF, 0);
    Ok(v)
  }

  /** A run of `k` nines denotes 10^k - 1. */
  lemma {:induction false} NinesValue(d: string, k: nat)
    requires k <= |d| && forall i | 0 <= i < k :: d[i] == '9'
    ensures AllDigits(d[..k]) && DigitsValue(d[..k]) + 1 == Pow10(k)
  {
    if k > 0 {
      NinesValue(d, k - 1);
      assert d[..k][..k - 1] == d[..k - 1];
    }
  }

  function Pow10(k: nat): nat {
    if k == 0 then 1 else 10 * Pow10(k - 1)
  }

  /** An overflow is reported at the digit where it happens, before a later
      invalid character is reached. */
  lemma OverflowBeforeInvalidDigit()
    ensures ParseI32("99999999999x") == Err(OVERFLOW_MSG)
    ensures ParseI32("-99999999999x") == Err(UNDERFLOW_MSG)
    ensures DecimalValue("99999999999x", true).None?
  {
    var d := "99999999999x";
    NinesValue(d, 10);
    AccumulateOverflow(d, 10, 0x7FFF_FFFF, OVERFLOW_MSG);
    assert ("-" + d)[1..] == d;
    AccumulateOverflow(d, 10, 0x8000_0000, UNDERFLOW_MSG);
    assert !IsDigit(d[11]);
  }

  /** Decimal digits of `n` without leading zeros (`format!("{}", n)`). */
  function ShowNat(n: nat): (s: string)
    ensures s != []
  {
    var d := ['0' + (n % 10) as char];
    if n < 10 then d else ShowNat(n / 10) + d
  }

  /** The printed digits are decimal digits and denote `n`. */
  lemma {:induction false} ShowNatDigits(n: nat)
    ensures AllDigits(ShowNat(n)) && DigitsValue(ShowNat(n)) == n
  {
    if n >= 10 {
      ShowNatDigits(n / 10);
      var s := ShowNat(n);
      assert s[..|s| - 1] == ShowNat(n / 10);
    }
  }

  /** `format!("{}", x)` for a signed integer. */
  function ShowInt(x: int): (s: string)
    ensures s != []
  {
    if x < 0 then "-" + ShowNat(-x) else ShowNat(x)
  }

  lemma ShowIntShape(x: int)
    ensures x >= 0 ==> ShowInt(x) == ShowNat(x) && ShowInt(x)[0] != '-' && ShowInt(x)[0] != '+'
    ensures x < 0 ==> ShowInt(x)[0] == '-' && ShowInt(x)[1..] == ShowNat(-x)
    ensures forall i :: 0 <= i < |ShowInt(x)| ==> ShowInt(x)[i] != ',' && ShowInt(x)[i] != ' ' && ShowInt(x)[i] != '\n'
  {
    var s := ShowNat(if x < 0 then -x else x);
    ShowNatDigits(if x < 0 then -x else x);
    assert IsDigit(s[0]);
  }

  /** Printing and parsing a u16 are inverse. */
  lemma ParseShowU16(n: u16)
    ensures ParseU16(ShowNat(n)) == Ok(n)
  {
    var s := ShowNat(n);
    ShowNatDigits(n);
    assert IsDigit(s[0]);
  }

  /** Printing and parsing an i32 are inverse. */
  lemma ParseShowI32(x: i32)
    ensures ParseI32(ShowInt(x)) == Ok(x)
  {
    var s := ShowInt(x);
    if x < 0 {
      var d := ShowNat(-(x as int));
      ShowNatDigits(-(x as int));
      assert s == "-" + d;
      assert |s| >= 2 && s[0] == '-' && s[1..] == d;
      assert AllDigits(d) && DigitsValue(d) == -(x as int);
      assert DecimalValue(s, true) == Some(x as int);
    } else {
      var d := ShowNat(x);
      ShowNatDigits(x);
      assert s == d && IsDigit(d[0]);
      assert AllDigits(d) && DigitsValue(d) == x;
      assert DecimalValue(s, true) == Some(x as int);
    }
  }

  // ---------------------------------------------------------------------------
  // String splitting

  /** Index of the first `c` in `s`, if any. */
  function IndexOf(s: string, c: char): (r: Option<nat>)
    ensures r.Some? ==> r.value < |s| && s[r.value] == c
  {
    if s == [] then None
    else if s[0] == c then Some(0)
    else match IndexOf(s[1..], c)
      case None => None
      case Some(i) => assert s[1..][..i] == s[1..i + 1]; Some(i + 1)
  }

  /** Nothing is found exactly when `c` does not occur. */
  lemma {:induction false} IndexOfNone(s: string, c: char)
    ensures IndexOf(s, c).None? <==> c !in s
  {
    if s != [] && s[0] != c {
      IndexOfNone(s[1..], c);
      assert c in s <==> c in s[1..];
    }
  }

  /** The index found is the first occurrence. */
  lemma IndexOfFirst(s: string, c: char)
    ensures IndexOf(s, c).Some? ==> c !in s[..IndexOf(s, c).value]
  {
    if s != [] && s[0] != c && IndexOf(s, c).Some? {
      IndexOfFirst(s[1..], c);
      var i := IndexOf(s[1..], c).value;
      assert s[..i + 1] == [s[0]] + s[1..][..i];
    }
  }

  /** `s.splitn(n, c)`: at most `n` pieces; the last one keeps the remaining separators. */
  function SplitN(s: string, c: char, n: nat): (r: seq<string>)
    requires n >= 1
    ensures 1 <= |r| <= n
  {
    if n == 1 then [s]
    else match IndexOf(s, c)
      case None => [s]
      case Some(i) => [s[..i]] + SplitN(s[i + 1..], c, n - 1)
  }

  /** The piece of `s` before the first `c` (`s.split(c).next().unwrap()`). */
  function Before(s: string, c: char): (r: string)
    ensures r <= s
  {
    match IndexOf(s, c)
    case None => s
    case Some(i) => s[..i]
  }

  /** No piece but the last contains the separator. */
  lemma {:induction false} SplitNPieces(s: string, c: char, n: nat)
    requires n >= 1
    ensures forall k :: 0 <= k < |SplitN(s, c, n)| - 1 ==> c !in SplitN(s, c, n)[k]
  {
    if n > 1 && IndexOf(s, c).Some? {
      var i := IndexOf(s, c).value;
      IndexOfFirst(s, c);
      SplitNPieces(s[i + 1..], c, n - 1);
    }
  }

  lemma BeforeNoSep(s: string, c: char)
    ensures c !in Before(s, c)
  {
    IndexOfFirst(s, c);
    IndexOfNone(s, c);
  }

  /** Splitting around a separator that is absent from the prefix. */
  lemma SplitNAt(p: string, c: char, rest: string, n: nat)
    requires n >= 2 && c !in p
    ensures SplitN(p + [c] + rest, c, n) == [p] + SplitN(rest, c, n - 1)
  {
    var s := p + [c] + rest;
    IndexOfAt(p, c, rest);
    assert s[..|p|] == p && s[|p| + 1..] == rest;
  }

  /** `SplitNAt` with the pieces named, so that callers match them directly. */
  lemma SplitNCons(s: string, p: string, c: char, rest: string, n: nat, tail: seq<string>, whole: seq<string>)
    requires n >= 2 && c !in p && s == p + [c] + rest
    requires SplitN(rest, c, n - 1) == tail && whole == [p] + tail
    ensures SplitN(s, c, n) == whole
  {
    SplitNAt(p, c, rest, n);
  }

  lemma IndexOfAt(p: string, c: char, rest: string)
    requires c !in p
    ensures IndexOf(p + [c] + rest, c) == Some(|p|)
  {
    var s := p + [c] + rest;
    assert s[|p|] == c;
    assert forall j :: 0 <= j < |p| ==> s[j] == p[j];
    IndexOfFirst(s, c);
    IndexOfNone(s, c);
    var i := IndexOf(s, c).value;
    assert forall j :: 0 <= j < i ==> s[j] == s[..i][j];
  }

  lemma SplitNNoSep(s: string, c: char, n: nat)
    requires n >= 1 && c !in s
    ensures SplitN(s, c, n) == [s]
  {
  }

  // ---------------------------------------------------------------------------
  // Lines of a text, as `BufRead::lines` yields them

  /** Drops one trailing carriage return. */
  function StripCr(line: string): string {
    if line != [] && line[|line| - 1] == '\r' then line[..|line| - 1] else line
  }

  /** The lines of `text`: split after each `\n`; a line ended by `\n` loses the
      `\n` and then one `\r`; a last line without `\n` is kept as it is; the text
      after the last `\n` yields no line when it is empty. */
  function Lines(text: string): (r: seq<string>)
    decreases |text|
  {
    if text == [] then []
    else match IndexOf(text, '\n')
      case None => [text]
      case Some(i) =>
        [StripCr(text[..i])] + Lines(text[i + 1..])
  }

  /** A line written with a `\r\n` terminator reads back as itself. */
  lemma {:induction false} LinesCons(line: string, rest: string)
    requires '\n' !in line
    ensures Lines(line + "\r\n" + rest) == [line] + Lines(rest)
  {
    var lcr := line + "\r";
    assert '\n' !in lcr;
    assert line + "\r\n" + rest == lcr + ['\n'] + rest;
    IndexOfAt(lcr, '\n', rest);
    var text := lcr + ['\n'] + rest;
    assert text[..|lcr|] == lcr;
    assert text[|lcr| + 1..] == rest;
    assert StripCr(lcr) == line;
  }

  /** Lines each terminated by "\r\n". */
  function JoinCrLf(lines: seq<string>): string {
    if lines == [] then "" else lines[0] + "\r\n" + JoinCrLf(lines[1..])
  }

  /** Text written as "\r\n"-terminated lines reads back as those lines. */
  lemma {:induction false} LinesOfJoin(lines: seq<string>, rest: string)
    requires forall k :: 0 <= k < |lines| ==> '\n' !in lines[k]
    ensures Lines(JoinCrLf(lines) + rest) == lines + Lines(rest)
  {
    if lines == [] {
      EmptyAppend(rest);
    } else {
      var tail := lines[1..];
      assert forall k :: 0 <= k < |tail| ==> '\n' !in tail[k] by {
        forall k | 0 <= k < |tail| ensures '\n' !in tail[k] {
          assert tail[k] == lines[k + 1];
        }
      }
      LinesOfJoin(tail, rest);
      LinesOfJoinStep(lines, rest);
    }
  }

  lemma LinesOfJoinStep(lines: seq<string>, rest: string)
    requires lines != [] && '\n' !in lines[0]
    requires Lines(JoinCrLf(lines[1..]) + rest) == lines[1..] + Lines(rest)
    ensures Lines(JoinCrLf(lines) + rest) == lines + Lines(rest)
  {
    var tail := lines[1..];
    JoinCrLfCons(lines, rest);
    ConsAppend(lines[0], tail, Lines(rest), lines);
    LinesConsEq(JoinCrLf(lines) + rest, lines[0], JoinCrLf(tail) + rest, tail + Lines(rest), lines + Lines(rest));
  }

  lemma ConsAppend<T>(x: T, a: seq<T>, b: seq<T>, whole: seq<T>)
    requires whole == [x] + a
    ensures [x] + (a + b) == whole + b
  {
  }

  lemma LinesOfJoinAll(lines: seq<string>)
    requires forall k :: 0 <= k < |lines| ==> '\n' !in lines[k]
    ensures Lines(JoinCrLf(lines)) == lines
  {
    LinesOfJoin(lines, "");
    RightUnit(JoinCrLf(lines));
    RightUnit(lines);
  }

  lemma RightUnit<T>(s: seq<T>)
    ensures s + [] == s
  {
  }

  lemma EmptyAppend(rest: string)
    ensures JoinCrLf([]) + rest == rest
  {
  }

  lemma JoinCrLfCons(lines: seq<string>, rest: string)
    requires lines != []
    ensures JoinCrLf(lines) + rest == lines[0] + "\r\n" + (JoinCrLf(lines[1..]) + rest)
  {
  }

  lemma LinesConsEq(text: string, line: string, more: string, tail: seq<string>, whole: seq<string>)
    requires '\n' !in line && text == line + "\r\n" + more && Lines(more) == tail && whole == [line] + tail
    ensures Lines(text) == whole
  {
    LinesCons(line, more);
  }
}
