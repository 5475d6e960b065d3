/** Library helpers shared by the binaries: the block-name table index of a
    voxelmap blockstate, the `--bounds` argument parser, and the older copy of
    the contributor-name parser. */
module VoxelLib {
  import opened Common
  import TileCodec

  // ---------------------------------------------------------------------------
  // Block names

  /** Entries of the block-name table, indexed by `id << 4 | meta`. */
  const BLOCK_STRINGS_COUNT: nat := 4096

  /** The table index `get_block_name_from_voxelmap` reads for the two bytes
      of a voxelmap blockstate: the id is `vmB` and the meta the high nibble
      of `vmA`. (`vmB << 4` has its low four bits clear and `vmA >> 4` is
      below 16, so the bitwise or is a sum.) */
  function BlockNameIndex(vmA: u8, vmB: u8): (i: nat)
    ensures i < BLOCK_STRINGS_COUNT
    ensures i / 16 == vmB && i % 16 == vmA / 16
  {
    vmB * 16 + vmA / 16
  }

  /** Every entry of the table is reached by some blockstate. */
  lemma BlockNameIndexOnto(i: nat)
    requires i < BLOCK_STRINGS_COUNT
    ensures BlockNameIndex((i % 16) * 16, i / 16) == i
  {
  }

  /** `get_block_name_from_voxelmap`, over a table of the right size. */
  function BlockNameFromVoxelmap(names: seq<string>, vmA: u8, vmB: u8): (name: string)
    requires |names| == BLOCK_STRINGS_COUNT
    ensures name in names
  {
    names[BlockNameIndex(vmA, vmB)]
  }

  // ---------------------------------------------------------------------------
  // Bounds

  const BOUNDS_MSG: string := "should be: w,n,e,s"

  /** A tile coordinate `c` as the world coordinate `c * 256 + 42`. */
  function TileToWorld(c: i32): (w: i32)
    ensures w % 256 == 42
    ensures -0x80_0000 <= c < 0x80_0000 ==> w == c * 256 + 42
  {
    WrapI32(c * 256 + 42)
  }

  /** One component of a bounds argument: `t<c>` is the tile coordinate `c`,
      anything else a world coordinate. An empty component gives the parse
      error of the empty string. */
  function ParseBound(s: string): Result<i32> {
    if |s| >= 1 && s[0] == 't' then
      var c :- ParseI32(s[1..]);
      Ok(TileToWorld(c))
    else ParseI32(s)
  }

  /** A world coordinate printed in decimal reads back as itself. */
  lemma ParseBoundWorld(x: i32)
    ensures ParseBound(ShowInt(x)) == Ok(x)
  {
    ShowIntShape(x);
    ParseShowI32(x);
  }

  /** A tile coordinate printed after `t` reads back as its world coordinate. */
  lemma ParseBoundTile(c: i32)
    ensures ParseBound("t" + ShowInt(c)) == Ok(TileToWorld(c))
  {
    assert ("t" + ShowInt(c))[1..] == ShowInt(c);
    ParseShowI32(c);
  }

  /** The components parsed in order; the first that fails gives the error. */
  function CollectBounds(pieces: seq<string>): (r: Result<seq<i32>>)
    ensures r.Ok? <==> forall i | 0 <= i < |pieces| :: ParseBound(pieces[i]).Ok?
    ensures r.Ok? ==> |r.value| == |pieces| && forall i | 0 <= i < |pieces| :: r.value[i] == ParseBound(pieces[i]).value
    ensures r.Err? ==> exists i | 0 <= i < |pieces| ::
      ParseBound(pieces[i]) == Err(r.error) && forall j | 0 <= j < i :: ParseBound(pieces[j]).Ok?
  {
    if pieces == [] then Ok([])
    else
      var v :- ParseBound(pieces[0]);
      var vs :- CollectBounds(pieces[1..]);
      Ok([v] + vs)
  }

  /** `parse_bounds` with every component's failure reported as an error:
      exactly four comma-separated components (the fourth keeps any further
      commas) that parse, with w <= e and n <= s. */
  function ParseBounds(text: string): (r: Result<seq<i32>>)
    ensures r.Ok? <==>
      var p := SplitN(text, ',', 4);
      && |p| == 4 && (forall i | 0 <= i < 4 :: ParseBound(p[i]).Ok?)
      && ParseBound(p[0]).value <= ParseBound(p[2]).value
      && ParseBound(p[1]).value <= ParseBound(p[3]).value
    ensures r.Ok? ==>
      var p := SplitN(text, ',', 4);
      r.value == [ParseBound(p[0]).value, ParseBound(p[1]).value, ParseBound(p[2]).value, ParseBound(p[3]).value]
    ensures CollectBounds(SplitN(text, ',', 4)).Ok? && r.Err? ==> r.error == BOUNDS_MSG
  {
    var bounds :- CollectBounds(SplitN(text, ',', 4));
    if |bounds| != 4 || bounds[0] > bounds[2] || bounds[1] > bounds[3] then Err(BOUNDS_MSG)
    else Ok(bounds)
  }

  /** A bounds argument in world coordinates. */
  function ShowBounds(w: i32, n: i32, e: i32, s: i32): string {
    ShowInt(w) + "," + ShowInt(n) + "," + ShowInt(e) + "," + ShowInt(s)
  }

  /** A bounds argument in tile coordinates. */
  function ShowTileBounds(w: i32, n: i32, e: i32, s: i32): string {
    TileText(w) + "," + TileText(n) + "," + TileText(e) + "," + TileText(s)
  }

  lemma SplitFour(a: string, b: string, c: string, d: string)
    requires ',' !in a && ',' !in b && ',' !in c && ',' !in d
    ensures SplitN(a + "," + b + "," + c + "," + d, ',', 4) == [a, b, c, d]
  {
    var cd := c + [','] + d;
    var bcd := b + [','] + cd;
    var s := a + [','] + bcd;
    SplitNNoSep(d, ',', 1);
    SplitNCons(cd, c, ',', d, 2, [d], [c, d]);
    SplitNCons(bcd, b, ',', cd, 3, [c, d], [b, c, d]);
    SplitNCons(s, a, ',', bcd, 4, [b, c, d], [a, b, c, d]);
    CommaJoinAssoc(a, b, c, d, s);
  }

  /** The left-nested and right-nested forms of `a,b,c,d`. */
  lemma CommaJoinAssoc(a: string, b: string, c: string, d: string, s: string)
    requires s == a + [','] + (b + [','] + (c + [','] + d))
    ensures a + "," + b + "," + c + "," + d == s
  {
    assert |s| == |a| + |b| + |c| + |d| + 3;
  }

  /** Four comma-free components that parse to `vs` give `vs`, or the usage
      error when they are out of order. */
  lemma ParseFour(a: string, b: string, c: string, d: string, vs: seq<i32>)
    requires ',' !in a && ',' !in b && ',' !in c && ',' !in d && |vs| == 4
    requires ParseBound(a) == Ok(vs[0]) && ParseBound(b) == Ok(vs[1])
    requires ParseBound(c) == Ok(vs[2]) && ParseBound(d) == Ok(vs[3])
    ensures ParseBounds(a + "," + b + "," + c + "," + d) ==
      if vs[0] <= vs[2] && vs[1] <= vs[3] then Ok(vs) else Err(BOUNDS_MSG)
  {
    var text := a + "," + b + "," + c + "," + d;
    SplitFour(a, b, c, d);
    var p := [a, b, c, d];
    CollectFour(p, vs);
    ParseOfCollected(text, vs);
  }

  lemma CollectFour(p: seq<string>, vs: seq<i32>)
    requires |p| == 4 && |vs| == 4
    requires ParseBound(p[0]) == Ok(vs[0]) && ParseBound(p[1]) == Ok(vs[1])
    requires ParseBound(p[2]) == Ok(vs[2]) && ParseBound(p[3]) == Ok(vs[3])
    ensures CollectBounds(p) == Ok(vs)
  {
    CollectCons(p[3..], [], vs[3..], []);
    CollectCons(p[2..], p[3..], vs[2..], vs[3..]);
    CollectCons(p[1..], p[2..], vs[1..], vs[2..]);
    CollectCons(p, p[1..], vs, vs[1..]);
  }

  /** One more component that parses in front of components that do. */
  lemma CollectCons(p: seq<string>, tail: seq<string>, vs: seq<i32>, tailVs: seq<i32>)
    requires |p| >= 1 && |vs| >= 1 && tail == p[1..] && tailVs == vs[1..]
    requires ParseBound(p[0]) == Ok(vs[0]) && CollectBounds(tail) == Ok(tailVs)
    ensures CollectBounds(p) == Ok(vs)
  {
    assert p != [] && p[1..] == tail;
    assert CollectBounds(p) == Ok([vs[0]] + tailVs);
    assert vs == [vs[0]] + tailVs;
  }

  lemma ParseOfCollected(text: string, vs: seq<i32>)
    requires CollectBounds(SplitN(text, ',', 4)) == Ok(vs) && |vs| == 4
    ensures ParseBounds(text) == if vs[0] <= vs[2] && vs[1] <= vs[3] then Ok(vs) else Err(BOUNDS_MSG)
  {
  }

  /** Printed world bounds read back as themselves when they are ordered, and
      as the usage error otherwise. */
  lemma BoundsRoundTrip(w: i32, n: i32, e: i32, s: i32)
    ensures ParseBounds(ShowBounds(w, n, e, s)) ==
      if w <= e && n <= s then Ok([w, n, e, s]) else Err(BOUNDS_MSG)
  {
    TileCodec.NoCommaInShowInt(w);
    TileCodec.NoCommaInShowInt(n);
    TileCodec.NoCommaInShowInt(e);
    TileCodec.NoCommaInShowInt(s);
    ParseBoundWorld(w);
    ParseBoundWorld(n);
    ParseBoundWorld(e);
    ParseBoundWorld(s);
    ParseFour(ShowInt(w), ShowInt(n), ShowInt(e), ShowInt(s), [w, n, e, s]);
  }

  /** Printed tile bounds read back as the world coordinates `c * 256 + 42`. */
  lemma TileBoundsRoundTrip(w: i32, n: i32, e: i32, s: i32)
    ensures ParseBounds(ShowTileBounds(w, n, e, s)) ==
      var b := [TileToWorld(w), TileToWorld(n), TileToWorld(e), TileToWorld(s)];
      if b[0] <= b[2] && b[1] <= b[3] then Ok(b) else Err(BOUNDS_MSG)
  {
    TileTextParses(w);
    TileTextParses(n);
    TileTextParses(e);
    TileTextParses(s);
    ParseFour(TileText(w), TileText(n), TileText(e), TileText(s),
              [TileToWorld(w), TileToWorld(n), TileToWorld(e), TileToWorld(s)]);
  }

  /** A tile coordinate printed after `t`. */
  function TileText(c: i32): string {
    "t" + ShowInt(c)
  }

  /** A printed tile coordinate has no comma and reads back as its world
      coordinate. */
  lemma TileTextParses(c: i32)
    ensures ',' !in TileText(c) && ParseBound(TileText(c)) == Ok(TileToWorld(c))
  {
    TileCodec.NoCommaInShowInt(c);
    ParseBoundTile(c);
  }

  /** The decimal texts of the numbers in the first unit test's argument. */
  lemma WorldExampleNumbers()
    ensures ShowInt(1) == "1" && ShowInt(-22222) == "-22222" && ShowInt(33333) == "33333" && ShowInt(-4) == "-4"
  {
    assert ShowNat(22) == "22";
    assert ShowNat(222) == "222";
    assert ShowNat(2222) == "2222";
    assert ShowNat(33) == "33";
    assert ShowNat(333) == "333";
    assert ShowNat(3333) == "3333";
  }

  /** The pieces of the second unit test's argument. */
  lemma TileExampleNumbers()
    ensures TileText(-2) == "t-2" && TileText(-33) == "t-33" && TileText(4) == "t4" && TileText(5) == "t5"
  {
    assert ShowInt(-33) == "-33" by {
      assert ShowNat(33) == "33";
    }
  }

  /** The unit tests' arguments as four comma-joined pieces. */
  lemma ExampleJoins()
    ensures "1" + "," + "-22222" + "," + "33333" + "," + "-4" == "1,-22222,33333,-4"
    ensures "t-2" + "," + "t-33" + "," + "t4" + "," + "t5" == "t-2,t-33,t4,t5"
  {
  }

  /** The first example of the unit tests: world coordinates. */
  lemma ParseBoundsWorldExample()
    ensures ShowBounds(1, -22222, 33333, -4) == "1,-22222,33333,-4"
    ensures ParseBounds(ShowBounds(1, -22222, 33333, -4)) == Ok([1, -22222, 33333, -4])
  {
    BoundsRoundTrip(1, -22222, 33333, -4);
    WorldExampleNumbers();
    ExampleJoins();
  }

  /** The second example of the unit tests: tile coordinates. */
  lemma ParseBoundsTileExample()
    ensures ShowTileBounds(-2, -33, 4, 5) == "t-2,t-33,t4,t5"
    ensures ParseBounds(ShowTileBounds(-2, -33, 4, 5)) == Ok([-470, -8406, 1066, 1322])
  {
    TileBoundsRoundTrip(-2, -33, 4, 5);
    TileExampleNumbers();
    ExampleJoins();
  }

  /** The first character of each component is taken with the byte slice
      `&s[0..1]`, which panics unless byte 1 is a character boundary: on an
      empty component, and on one whose first character is not ASCII (its
      UTF-8 encoding is longer than one byte). */
  predicate FirstByteSlicePanics(s: string) {
    s == [] || s[0] as int >= 0x80
  }

  function ParseBoundAsWritten(s: string): Outcome<Result<i32>> {
    if FirstByteSlicePanics(s) then Panics else Returns(ParseBound(s))
  }

  function CollectBoundsAsWritten(pieces: seq<string>): Outcome<Result<seq<i32>>> {
    if pieces == [] then Returns(Ok([]))
    else match ParseBoundAsWritten(pieces[0])
      case Panics => Panics
      case Returns(Err(e)) => Returns(Err(e))
      case Returns(Ok(v)) =>
        match CollectBoundsAsWritten(pieces[1..])
        case Panics => Panics
        case Returns(Err(e)) => Returns(Err(e))
        case Returns(Ok(vs)) => Returns(Ok([v] + vs))
  }

  /** `parse_bounds` as written. */
  function ParseBoundsAsWritten(text: string): Outcome<Result<seq<i32>>> {
    match CollectBoundsAsWritten(SplitN(text, ',', 4))
    case Panics => Panics
    case Returns(Err(e)) => Returns(Err(e))
    case Returns(Ok(bounds)) =>
      Returns(if |bounds| != 4 || bounds[0] > bounds[2] || bounds[1] > bounds[3] then Err(BOUNDS_MSG) else Ok(bounds))
  }

  /** The code as written panics exactly when an empty or non-ASCII-led
      component comes after components that all parse; otherwise it returns
      what `CollectBounds` returns. */
  lemma {:induction false} CollectAsWrittenAgrees(pieces: seq<string>)
    ensures CollectBoundsAsWritten(pieces).Panics? <==>
      exists i | 0 <= i < |pieces| :: FirstByteSlicePanics(pieces[i]) && forall j | 0 <= j < i :: ParseBound(pieces[j]).Ok?
    ensures CollectBoundsAsWritten(pieces).Returns? ==> CollectBoundsAsWritten(pieces).value == CollectBounds(pieces)
  {
    if pieces != [] {
      CollectAsWrittenAgrees(pieces[1..]);
      if !FirstByteSlicePanics(pieces[0]) && ParseBound(pieces[0]).Ok? {
        if CollectBoundsAsWritten(pieces[1..]).Panics? {
          var i :| 0 <= i < |pieces[1..]| && FirstByteSlicePanics(pieces[1..][i]) && forall j | 0 <= j < i :: ParseBound(pieces[1..][j]).Ok?;
          assert FirstByteSlicePanics(pieces[i + 1]) && forall j | 0 <= j < i + 1 :: ParseBound(pieces[j]).Ok?;
        } else {
          forall i | 0 <= i < |pieces| && FirstByteSlicePanics(pieces[i])
            ensures exists j | 0 <= j < i :: !ParseBound(pieces[j]).Ok?
          {
            assert i != 0;
            assert FirstByteSlicePanics(pieces[1..][i - 1]);
            var j :| 0 <= j < i - 1 && !ParseBound(pieces[1..][j]).Ok?;
            assert !ParseBound(pieces[j + 1]).Ok?;
          }
        }
      }
    }
  }

  /** A component that parses starts with an ASCII character. */
  lemma ParsedBoundAsciiLead(s: string)
    requires ParseBound(s).Ok?
    ensures !FirstByteSlicePanics(s)
  {
    if s[0] != 't' && s[0] != '+' && s[0] != '-' {
      assert IsDigit(s[0]);
    }
  }

  lemma ParseBoundsAsWrittenAgrees(text: string)
    ensures ParseBoundsAsWritten(text).Returns? ==> ParseBoundsAsWritten(text).value == ParseBounds(text)
  {
    CollectAsWrittenAgrees(SplitN(text, ',', 4));
  }

  /** An empty component: the code as written panics where an error is
      evidently meant. */
  lemma EmptyBoundPanics(text: string)
    requires text == "1,,2,3"
    ensures ParseBoundsAsWritten(text).Panics?
    ensures ParseBounds(text) == Err(EMPTY_MSG)
  {
    assert text == "1" + "," + "" + "," + "2" + "," + "3";
    SplitFour("1", "", "2", "3");
    assert ShowInt(1) == "1";
    ParseBoundWorld(1);
    var p := SplitN(text, ',', 4);
    assert ParseBound(p[0]).Ok? && p[1] == [];
    CollectAsWrittenAgrees(p);
  }

  /** A component led by a non-ASCII character: the code as written panics
      where the corrected parser reports an invalid digit. */
  lemma MultiByteBoundPanics(text: string)
    requires text == "\U{E9},1,2,3"
    ensures ParseBoundsAsWritten(text).Panics?
    ensures ParseBounds(text) == Err(INVALID_MSG)
  {
    assert text == "\U{E9}" + "," + "1" + "," + "2" + "," + "3";
    SplitFour("\U{E9}", "1", "2", "3");
    var p := SplitN(text, ',', 4);
    assert FirstByteSlicePanics(p[0]) && ParseBound(p[0]) == Err(INVALID_MSG);
    CollectAsWrittenAgrees(p);
  }

  /** A component whose digits overflow before a later invalid character:
      the bounds fail with the overflow message. */
  lemma OverflowBoundExample()
    ensures ParseBounds("99999999999x,0,1,1") == Err(OVERFLOW_MSG)
  {
    var text := "99999999999x,0,1,1";
    assert text == "99999999999x" + "," + "0" + "," + "1" + "," + "1";
    SplitFour("99999999999x", "0", "1", "1");
    OverflowBeforeInvalidDigit();
    assert ParseBound("99999999999x") == Err(OVERFLOW_MSG);
  }

  // ---------------------------------------------------------------------------
  // The library's copy of the contributor-name parser

  /** `get_contrib_from_tile_path` in the library: like the tile module's,
      except that a name without a third comma field panics (`unwrap`)
      instead of giving an error. */
  function ContribFromTilePath(fname: string): (r: Outcome<Result<string>>)
    ensures r.Panics? <==> TileCodec.ContribFromTilePath(fname) == Err(TileCodec.NO_CONTRIB_MSG)
    ensures r.Returns? ==> r.value == TileCodec.ContribFromTilePath(fname)
  {
    if |fname| <= 4 then Returns(Err(TileCodec.SHORT_CONTRIB_NAME_MSG))
    else
      var parts := SplitN(fname[..|fname| - 4], ',', 3);
      if |parts| < 3 then Panics else Returns(Ok(parts[2]))
  }
}
