/** The tile codec: the layer-major byte layout of one 256x256-column map tile,
    its field accessors, chunk geometry, the `key` table text format, the
    reading and writing of a tile archive's entries, tile file names, and the
    bounding-box test. */
module TileCodec {
  import opened Common

  // ---------------------------------------------------------------------------
  // Layout constants

  const COLUMN_BYTES_OLD: nat := 17
  const COLUMN_BYTES_MODERN: nat := 18

  const TILE_WIDTH: nat := 256
  const TILE_HEIGHT: nat := 256
  const TILE_COLUMNS: nat := 65536  // TILE_WIDTH * TILE_HEIGHT

  const CHUNK_WIDTH: nat := 16
  const CHUNK_HEIGHT: nat := 16
  const CHUNK_COLUMNS: nat := 256   // CHUNK_WIDTH * CHUNK_HEIGHT

  const TILE_CHUNKS: nat := 256     // TILE_COLUMNS / CHUNK_COLUMNS

  /** Size of the modern `data` buffer. */
  const TILE_BYTES: nat := 65536 * 18  // TILE_COLUMNS * COLUMN_BYTES_MODERN

  const HEIGHTPOS: nat := 0
  const BLOCKSTATEPOS: nat := 1
  const LIGHTPOS: nat := 3
  const OCEANFLOORHEIGHTPOS: nat := 4
  const OCEANFLOORBLOCKSTATEPOS: nat := 5
  const OCEANFLOORLIGHTPOS: nat := 7
  const TRANSPARENTHEIGHTPOS: nat := 8
  const TRANSPARENTBLOCKSTATEPOS: nat := 9
  const TRANSPARENTLIGHTPOS: nat := 11
  const FOLIAGEHEIGHTPOS: nat := 12
  const FOLIAGEBLOCKSTATEPOS: nat := 13
  const FOLIAGELIGHTPOS: nat := 15
  const BIOMEIDPOS: nat := 16

  lemma DerivedConstants()
    ensures TILE_COLUMNS == TILE_WIDTH * TILE_HEIGHT
    ensures CHUNK_COLUMNS == CHUNK_WIDTH * CHUNK_HEIGHT
    ensures TILE_CHUNKS == TILE_COLUMNS / CHUNK_COLUMNS == 256
    ensures TILE_BYTES == TILE_COLUMNS * COLUMN_BYTES_MODERN
  {
  }

  /** The thirteen per-column fields; the 16-bit ones (the four blockstates
      and the biome) take two consecutive layers, high byte first. */
  datatype Field =
    | Height | Blockstate | Light
    | OceanFloorHeight | OceanFloorBlockstate | OceanFloorLight
    | TransparentHeight | TransparentBlockstate | TransparentLight
    | FoliageHeight | FoliageBlockstate | FoliageLight
    | BiomeId
  {
    /** The layer of the field (of its high byte for a 16-bit field). */
    function Layer(): nat {
      match this
      case Height => HEIGHTPOS
      case Blockstate => BLOCKSTATEPOS
      case Light => LIGHTPOS
      case OceanFloorHeight => OCEANFLOORHEIGHTPOS
      case OceanFloorBlockstate => OCEANFLOORBLOCKSTATEPOS
      case OceanFloorLight => OCEANFLOORLIGHTPOS
      case TransparentHeight => TRANSPARENTHEIGHTPOS
      case TransparentBlockstate => TRANSPARENTBLOCKSTATEPOS
      case TransparentLight => TRANSPARENTLIGHTPOS
      case FoliageHeight => FOLIAGEHEIGHTPOS
      case FoliageBlockstate => FOLIAGEBLOCKSTATEPOS
      case FoliageLight => FOLIAGELIGHTPOS
      case BiomeId => BIOMEIDPOS
    }

    predicate Wide() {
      Blockstate? || OceanFloorBlockstate? || TransparentBlockstate? || FoliageBlockstate? || BiomeId?
    }

    predicate IsBlockstate() {
      Blockstate? || OceanFloorBlockstate? || TransparentBlockstate? || FoliageBlockstate?
    }

    /** Does the field occupy byte layer `l`? */
    predicate Covers(l: nat) {
      l == Layer() || (Wide() && l == Layer() + 1)
    }
  }

  /** The layers used by the thirteen fields are pairwise distinct and
      together they are exactly the 18 layers 0..17 of a modern column. */
  lemma FieldLayersPartition()
    ensures forall f: Field, l: nat :: f.Covers(l) ==> l < COLUMN_BYTES_MODERN && f == FieldOfLayer(l)
    ensures forall l: nat :: l < COLUMN_BYTES_MODERN ==> FieldOfLayer(l).Covers(l)
  {
    forall f: Field, l: nat | f.Covers(l)
      ensures l < COLUMN_BYTES_MODERN && f == FieldOfLayer(l)
    {
      CoversUnique(f, l);
    }
  }

  /** The field that occupies layer `l`. */
  function FieldOfLayer(l: nat): (f: Field)
    requires l < COLUMN_BYTES_MODERN
    ensures f.Covers(l)
  {
    if l == 0 then Height else if l <= 2 then Blockstate else if l == 3 then Light
    else if l == 4 then OceanFloorHeight else if l <= 6 then OceanFloorBlockstate
    else if l == 7 then OceanFloorLight else if l == 8 then TransparentHeight
    else if l <= 10 then TransparentBlockstate else if l == 11 then TransparentLight
    else if l == 12 then FoliageHeight else if l <= 14 then FoliageBlockstate
    else if l == 15 then FoliageLight else BiomeId
  }

  // ---------------------------------------------------------------------------
  // Byte positions and field values on a buffer

  /** Position of layer `layer` of column `col` in the layer-major buffer. */
  function Index(col: nat, layer: nat): (i: nat)
    requires col < TILE_COLUMNS && layer < COLUMN_BYTES_MODERN
    ensures i < TILE_BYTES
    ensures i % TILE_COLUMNS == col && i / TILE_COLUMNS == layer
  {
    col + 65536 * layer
  }

  lemma IndexInjective(c1: nat, l1: nat, c2: nat, l2: nat)
    requires c1 < TILE_COLUMNS && l1 < COLUMN_BYTES_MODERN
    requires c2 < TILE_COLUMNS && l2 < COLUMN_BYTES_MODERN
    ensures Index(c1, l1) == Index(c2, l2) <==> c1 == c2 && l1 == l2
  {
  }

  predicate IsTileBuffer(d: seq<u8>) { |d| == TILE_BYTES }

  function Byte(d: seq<u8>, col: nat, layer: nat): u8
    requires IsTileBuffer(d) && col < TILE_COLUMNS && layer < COLUMN_BYTES_MODERN
  {
    d[Index(col, layer)]
  }

  /** Value of field `f` of column `col`: one byte, or a big-endian byte pair
      spread over two consecutive layers. */
  function FieldValue(d: seq<u8>, f: Field, col: nat): (v: u16)
    requires IsTileBuffer(d) && col < TILE_COLUMNS
    ensures !f.Wide() ==> v < 0x100
  {
    if f.Wide() then Byte(d, col, f.Layer()) * 0x100 + Byte(d, col, f.Layer() + 1)
    else Byte(d, col, f.Layer())
  }

  /** The byte of value `v` that field `f` stores in its layer `l`. */
  function FieldByte(f: Field, v: u16, l: nat): u8
    requires f.Covers(l) && (!f.Wide() ==> v < 0x100)
  {
    if !f.Wide() then v else if l == f.Layer() then v / 0x100 else v % 0x100
  }

  /** The buffer after storing `v` in field `f` of column `col`. */
  function WriteField(d: seq<u8>, f: Field, col: nat, v: u16): (d': seq<u8>)
    requires IsTileBuffer(d) && col < TILE_COLUMNS && (!f.Wide() ==> v < 0x100)
    ensures IsTileBuffer(d')
  {
    if f.Wide() then d[Index(col, f.Layer()) := v / 0x100][Index(col, f.Layer() + 1) := v % 0x100]
    else d[Index(col, f.Layer()) := v]
  }

  /** A write touches exactly the one or two bytes of its field in its column. */
  lemma WriteFieldBytes(d: seq<u8>, f: Field, col: nat, v: u16, c: nat, l: nat)
    requires IsTileBuffer(d) && col < TILE_COLUMNS && (!f.Wide() ==> v < 0x100)
    requires c < TILE_COLUMNS && l < COLUMN_BYTES_MODERN
    ensures Byte(WriteField(d, f, col, v), c, l)
         == if c == col && f.Covers(l) then FieldByte(f, v, l) else Byte(d, c, l)
  {
    IndexInjective(c, l, col, f.Layer());
    if f.Wide() { IndexInjective(c, l, col, f.Layer() + 1); }
  }

  /** Reading a field back after writing it gives the written value. */
  lemma FieldValueAfterWrite(d: seq<u8>, f: Field, col: nat, v: u16)
    requires IsTileBuffer(d) && col < TILE_COLUMNS && (!f.Wide() ==> v < 0x100)
    ensures FieldValue(WriteField(d, f, col, v), f, col) == v
  {
    WriteFieldBytes(d, f, col, v, col, f.Layer());
    if f.Wide() { WriteFieldBytes(d, f, col, v, col, f.Layer() + 1); }
  }

  /** Writing a field leaves every other field of every column unchanged. */
  lemma OtherFieldsAfterWrite(d: seq<u8>, f: Field, col: nat, v: u16, g: Field, c: nat)
    requires IsTileBuffer(d) && col < TILE_COLUMNS && (!f.Wide() ==> v < 0x100)
    requires c < TILE_COLUMNS && (g != f || c != col)
    ensures FieldValue(WriteField(d, f, col, v), g, c) == FieldValue(d, g, c)
  {
    var d' := WriteField(d, f, col, v);
    assert Byte(d', c, g.Layer()) == Byte(d, c, g.Layer()) by {
      WriteFieldBytes(d, f, col, v, c, g.Layer());
      if c == col { DisjointFields(f, g, g.Layer()); }
    }
    if g.Wide() {
      assert Byte(d', c, g.Layer() + 1) == Byte(d, c, g.Layer() + 1) by {
        WriteFieldBytes(d, f, col, v, c, g.Layer() + 1);
        if c == col { DisjointFields(f, g, g.Layer() + 1); }
      }
    }
    SameBytesSameValue(d, d', g, c);
  }

  lemma SameBytesSameValue(d: seq<u8>, d': seq<u8>, g: Field, c: nat)
    requires IsTileBuffer(d) && IsTileBuffer(d') && c < TILE_COLUMNS
    requires Byte(d', c, g.Layer()) == Byte(d, c, g.Layer())
    requires g.Wide() ==> Byte(d', c, g.Layer() + 1) == Byte(d, c, g.Layer() + 1)
    ensures FieldValue(d', g, c) == FieldValue(d, g, c)
  {
  }

  lemma DisjointFields(f: Field, g: Field, l: nat)
    requires f != g
    ensures !(f.Covers(l) && g.Covers(l))
  {
    CoversUnique(f, l);
    CoversUnique(g, l);
  }

  lemma CoversUnique(f: Field, l: nat)
    ensures f.Covers(l) ==> l < COLUMN_BYTES_MODERN && f == FieldOfLayer(l)
  {
  }

  // ---------------------------------------------------------------------------
  // Columns and chunks

  function ColumnNrOfPos(x: nat, z: nat): nat {
    x + z * TILE_WIDTH
  }

  function FirstColumnNrOfChunkNr(chunk: nat): nat {
    (chunk * CHUNK_WIDTH) % TILE_WIDTH + (chunk * CHUNK_WIDTH / TILE_WIDTH) * TILE_WIDTH * CHUNK_HEIGHT
  }

  /** Chunk `c` starts at block (16*(c%16), 16*(c/16)) of the tile. */
  lemma FirstColumnOfChunk(chunk: nat)
    requires chunk < TILE_CHUNKS
    ensures FirstColumnNrOfChunkNr(chunk)
         == ColumnNrOfPos(CHUNK_WIDTH * (chunk % 16), CHUNK_HEIGHT * (chunk / 16))
    ensures FirstColumnNrOfChunkNr(chunk) < TILE_COLUMNS
  {
    var cx, cz := chunk % 16, chunk / 16;
    DivMod16(chunk, cx, cz);
    DivMod256(chunk * 16, 16 * cx, cz);
  }

  /** The chunk a column belongs to. */
  function ChunkOfColumn(col: nat): (chunk: nat)
    ensures col < TILE_COLUMNS ==> chunk < TILE_CHUNKS
  {
    (col % 256) / 16 + 16 * ((col / 256) / 16)
  }

  /** Row-major position of a column inside its chunk. */
  function IndexInChunk(col: nat): nat {
    ((col / 256) % 16) * 16 + col % 16
  }

  /** Column `x`,`z` of chunk `chunk` is `first + z*TILE_WIDTH + x`; it lies
      in that chunk at position `16*z + x`, and it is the only such column. */
  lemma ColumnOfChunk(chunk: nat, z: nat, x: nat)
    requires chunk < TILE_CHUNKS && z < CHUNK_HEIGHT && x < CHUNK_WIDTH
    ensures var col := FirstColumnNrOfChunkNr(chunk) + z * TILE_WIDTH + x;
      && col < TILE_COLUMNS
      && ChunkOfColumn(col) == chunk
      && IndexInChunk(col) == 16 * z + x
  {
    var col := FirstColumnNrOfChunkNr(chunk) + z * TILE_WIDTH + x;
    var cx, cz := chunk % 16, chunk / 16;
    DivMod16(chunk, cx, cz);
    DivMod256(chunk * 16, 16 * cx, cz);
    assert FirstColumnNrOfChunkNr(chunk) == 16 * cx + 4096 * cz;
    DivMod256(col, 16 * cx + x, 16 * cz + z);
    DivMod16(16 * cx + x, x, cx);
    DivMod16(16 * cz + z, z, cz);
  }

  lemma DivMod16(n: int, r: int, q: int)
    requires 0 <= r < 16 && n == r + 16 * q
    ensures n % 16 == r && n / 16 == q
  {
  }

  lemma DivMod256(n: int, r: int, q: int)
    requires 0 <= r < 256 && n == r + 256 * q
    ensures n % 256 == r && n / 256 == q
  {
  }

  lemma ColumnOfChunkUnique(chunk: nat, z: nat, x: nat, col: nat)
    requires chunk < TILE_CHUNKS && z < CHUNK_HEIGHT && x < CHUNK_WIDTH && col < TILE_COLUMNS
    requires ChunkOfColumn(col) == chunk && IndexInChunk(col) == 16 * z + x
    ensures col == FirstColumnNrOfChunkNr(chunk) + z * TILE_WIDTH + x
  {
    var a, b, e, f := ColumnDigits(col);
    DigitsEqual(x, z, a, e);
    FirstColumnIs(chunk, b, f);
  }

  /** `n` in base `k`. */
  lemma Digits(n: nat, k: nat)
    requires k > 0
    ensures n == n % k + k * (n / k) && n % k < k
  {
  }

  lemma FirstColumnIs(chunk: nat, b: nat, e: nat)
    requires b < 16 && chunk == b + 16 * e
    ensures FirstColumnNrOfChunkNr(chunk) == 16 * b + 4096 * e
  {
    DivMod256(chunk * 16, 16 * b, e);
  }

  /** A column is determined by its chunk and its position in the chunk. */
  lemma ColumnPlaceUnique(c1: nat, c2: nat)
    requires ChunkOfColumn(c1) == ChunkOfColumn(c2) && IndexInChunk(c1) == IndexInChunk(c2)
    ensures c1 == c2
  {
    var a1, b1, e1, f1 := ColumnDigits(c1);
    var a2, b2, e2, f2 := ColumnDigits(c2);
    DigitsEqual(b1, f1, b2, f2);
    DigitsEqual(a1, e1, a2, e2);
  }

  /** The four base-16 digits of a column number: x within the chunk, chunk
      x, z within the chunk, chunk z. */
  lemma ColumnDigits(c: nat) returns (a: nat, b: nat, e: nat, f: nat)
    ensures a < 16 && b < 16 && e < 16
    ensures c == a + 16 * b + 256 * e + 4096 * f
    ensures ChunkOfColumn(c) == b + 16 * f && IndexInChunk(c) == a + 16 * e
  {
    var p, q := c % 256, c / 256;
    a, b, e, f := p % 16, p / 16, q % 16, q / 16;
    Digits(c, 256);
    Digits(p, 16);
    Digits(q, 16);
    Recombine(c, p, q, a, b, e, f);
  }

  lemma Recombine(c: nat, p: nat, q: nat, a: nat, b: nat, e: nat, f: nat)
    requires c == p + 256 * q && p == a + 16 * b && q == e + 16 * f
    ensures c == a + 16 * b + 256 * e + 4096 * f
  {
  }

  /** Two base-16 digit pairs with the same value are the same digits. */
  lemma DigitsEqual(a1: nat, b1: nat, a2: nat, b2: nat)
    requires a1 < 16 && a2 < 16 && a1 + 16 * b1 == a2 + 16 * b2
    ensures a1 == a2 && b1 == b2
  {
  }

  lemma ChunkOfColumnBound(col: nat)
    requires col < TILE_COLUMNS
    ensures ChunkOfColumn(col) < TILE_CHUNKS && IndexInChunk(col) < CHUNK_COLUMNS
  {
  }

  /** A column is empty when its height, biome and surface blockstate are 0. */
  predicate ColEmpty(d: seq<u8>, col: nat)
    requires IsTileBuffer(d) && col < TILE_COLUMNS
  {
    FieldValue(d, Height, col) == 0 && FieldValue(d, BiomeId, col) == 0 && FieldValue(d, Blockstate, col) == 0
  }

  /** A chunk is empty when its first column is. */
  predicate ChunkEmpty(d: seq<u8>, chunk: nat)
    requires IsTileBuffer(d) && chunk < TILE_CHUNKS
  {
    FirstColumnOfChunk(chunk);
    ColEmpty(d, FirstColumnNrOfChunkNr(chunk))
  }

  /** `is_chunk_empty` looks only at the first column of the chunk, at the
      height byte, the two biome bytes and the two surface blockstate bytes. */
  lemma ChunkEmptyBytes(d: seq<u8>, chunk: nat)
    requires IsTileBuffer(d) && chunk < TILE_CHUNKS
    ensures FirstColumnNrOfChunkNr(chunk) < TILE_COLUMNS
    ensures var col := FirstColumnNrOfChunkNr(chunk);
      ChunkEmpty(d, chunk) <==>
        && Byte(d, col, HEIGHTPOS) == 0
        && Byte(d, col, BIOMEIDPOS) == 0 && Byte(d, col, BIOMEIDPOS + 1) == 0
        && Byte(d, col, BLOCKSTATEPOS) == 0 && Byte(d, col, BLOCKSTATEPOS + 1) == 0
  {
    FirstColumnOfChunk(chunk);
  }

  // ---------------------------------------------------------------------------
  // The tile object

  class Tile {
    /** Layer-major modern buffer of TILE_BYTES bytes. */
    const data: array<u8>
    var keys: map<string, u16>
    var names: seq<string>
    var pos: Option<(i32, i32)>
    var source: Option<Path>

    ghost predicate Valid()
      reads this
    {
      data.Length == TILE_BYTES
    }

    /** The all-zero accumulator tile a merge starts from. */
    constructor Empty()
      ensures Valid() && fresh(data)
      ensures forall i :: 0 <= i < data.Length ==> data[i] == 0
      ensures keys == map[] && names == [] && pos == None && source == None
    {
      data := new u8[TILE_BYTES](_ => 0);
      keys := map[];
      names := [];
      pos := None;
      source := None;
    }

    /** A tile as read from an archive. */
    constructor FromParts(bytes: seq<u8>, keys: map<string, u16>, names: seq<string>,
                          pos: Option<(i32, i32)>, source: Option<Path>)
      requires IsTileBuffer(bytes)
      ensures Valid() && fresh(data) && data[..] == bytes
      ensures this.keys == keys && this.names == names && this.pos == pos && this.source == source
    {
      data := new u8[TILE_BYTES](i requires 0 <= i < TILE_BYTES => bytes[i]);
      this.keys := keys;
      this.names := names;
      this.pos := pos;
      this.source := source;
    }

    /** `get_height`, `get_blockstate`, ..., `get_biome_id`. */
    function Get(f: Field, col: nat): (v: u16)
      reads this, data
      requires Valid() && col < TILE_COLUMNS
      ensures !f.Wide() ==> v < 0x100
    {
      FieldValue(data[..], f, col)
    }

    predicate IsColEmpty(col: nat)
      reads this, data
      requires Valid() && col < TILE_COLUMNS
    {
      Get(Height, col) == 0 && Get(BiomeId, col) == 0 && Get(Blockstate, col) == 0
    }

    predicate IsChunkEmpty(chunk: nat)
      reads this, data
      requires Valid() && chunk < TILE_CHUNKS
    {
      FirstColumnOfChunk(chunk);
      IsColEmpty(FirstColumnNrOfChunkNr(chunk))
    }

    method SetU8(col: nat, layer: nat, value: u8)
      requires Valid() && col < TILE_COLUMNS && layer < COLUMN_BYTES_MODERN
      modifies data
      ensures data[..] == old(data[..])[Index(col, layer) := value]
    {
      data[Index(col, layer)] := value;
    }

    method SetU16(col: nat, layer: nat, value: u16)
      requires Valid() && col < TILE_COLUMNS && layer + 1 < COLUMN_BYTES_MODERN
      modifies data
      ensures data[..] == old(data[..])[Index(col, layer) := value / 0x100][Index(col, layer + 1) := value % 0x100]
    {
      var index := Index(col, layer);
      data[index] := value / 0x100;
      data[index + TILE_COLUMNS] := value % 0x100;
    }

    /** `set_height`, `set_blockstate`, ..., `set_biome_id`: store `value` in
        field `f` of column `col`; every other byte keeps its value. */
    method Set(f: Field, col: nat, value: u16)
      requires Valid() && col < TILE_COLUMNS && (!f.Wide() ==> value < 0x100)
      modifies data
      ensures data[..] == WriteField(old(data[..]), f, col, value)
      ensures Get(f, col) == value
    {
      if f.Wide() {
        SetU16(col, f.Layer(), value);
      } else {
        SetU8(col, f.Layer(), value);
      }
      FieldValueAfterWrite(old(data[..]), f, col, value);
    }
  }

  // ---------------------------------------------------------------------------
  // The `key` entry: one "<id> <name>" line per block name

  /** A line `read_tile` accepts: blank, or a u16 id, a space and a name
      (anything else makes it panic). */
  predicate KeyLineOk(line: string) {
    line == [] || (' ' in line && ParseU16(Before(line, ' ')).Ok?)
  }

  predicate KeyLinesOk(lines: seq<string>) {
    forall k :: 0 <= k < |lines| ==> KeyLineOk(lines[k])
  }

  function KeyLineId(line: string): u16
    requires line != [] && KeyLineOk(line)
  {
    ParseU16(Before(line, ' ')).value
  }

  /** The second space-separated piece of the line. */
  function KeyLineName(line: string): string
    requires ' ' in line
  {
    IndexOfNone(line, ' ');
    var i := IndexOf(line, ' ').value;
    Before(line[i + 1..], ' ')
  }

  /** The key table after inserting the lines in order (a later line for the
      same name overrides an earlier one). */
  function KeysOfLines(lines: seq<string>): map<string, u16>
    requires KeyLinesOk(lines)
  {
    if lines == [] then map[]
    else
      var m := KeysOfLines(lines[..|lines| - 1]);
      var line := lines[|lines| - 1];
      if line == [] then m else m[KeyLineName(line) := KeyLineId(line)]
  }

  /** The largest id on any line (0 when there is none). */
  function MaxIdOfLines(lines: seq<string>): u16
    requires KeyLinesOk(lines)
  {
    if lines == [] then 0
    else
      var m := MaxIdOfLines(lines[..|lines| - 1]);
      var line := lines[|lines| - 1];
      if line == [] || KeyLineId(line) <= m then m else KeyLineId(line)
  }

  /** Every id in the table is at most the largest id read. */
  lemma {:induction false} KeysBelowMaxId(lines: seq<string>)
    requires KeyLinesOk(lines)
    ensures forall n | n in KeysOfLines(lines) :: KeysOfLines(lines)[n] <= MaxIdOfLines(lines)
  {
    if lines != [] {
      KeysBelowMaxId(lines[..|lines| - 1]);
    }
  }

  function NonBlank(lines: seq<string>): (r: seq<string>)
    ensures forall k :: 0 <= k < |r| ==> r[k] != [] && r[k] in lines
  {
    if lines == [] then []
    else
      var r := NonBlank(lines[..|lines| - 1]);
      if lines[|lines| - 1] == [] then r else r + [lines[|lines| - 1]]
  }

  /** Blank lines change neither the table nor the largest id. */
  lemma {:induction false} BlankLinesSkipped(lines: seq<string>)
    requires KeyLinesOk(lines)
    ensures KeyLinesOk(NonBlank(lines))
    ensures KeysOfLines(NonBlank(lines)) == KeysOfLines(lines)
    ensures MaxIdOfLines(NonBlank(lines)) == MaxIdOfLines(lines)
  {
    if lines != [] {
      var init := lines[..|lines| - 1];
      assert KeyLinesOk(init) by {
        forall k | 0 <= k < |init| ensures KeyLineOk(init[k]) { assert init[k] == lines[k]; }
      }
      BlankLinesSkipped(init);
      var r := NonBlank(init);
      var line := lines[|lines| - 1];
      if line != [] {
        assert KeyLineOk(line);
        TablesSnoc(r, line, r + [line]);
      }
    }
  }

  /** The table and the largest id after one more non-blank line. */
  lemma TablesSnoc(r: seq<string>, line: string, rl: seq<string>)
    requires rl == r + [line] && line != [] && KeyLinesOk(r) && KeyLineOk(line)
    ensures KeyLinesOk(rl)
    ensures KeysOfLines(rl) == KeysOfLines(r)[KeyLineName(line) := KeyLineId(line)]
    ensures MaxIdOfLines(rl) == if KeyLineId(line) <= MaxIdOfLines(r) then MaxIdOfLines(r) else KeyLineId(line)
  {
    assert rl[..|r|] == r;
  }

  /** The key-reading loop of `read_tile`: insert each non-blank line's name
      with its id, and track the largest id. */
  method ReadKeys(lines: seq<string>) returns (keys: map<string, u16>, maxKey: u16)
    requires KeyLinesOk(lines)
    ensures keys == KeysOfLines(lines) && maxKey == MaxIdOfLines(lines)
    ensures forall n | n in keys :: keys[n] <= maxKey
  {
    keys := map[];
    maxKey := 0;
    var i := 0;
    while i < |lines|
      invariant 0 <= i <= |lines|
      invariant KeyLinesOk(lines[..i])
      invariant keys == KeysOfLines(lines[..i]) && maxKey == MaxIdOfLines(lines[..i])
    {
      var line := lines[i];
      assert lines[..i + 1][..i] == lines[..i];
      if line != [] {
        var blockId := ParseU16(Before(line, ' ')).value;
        var blockName := KeyLineName(line);
        if maxKey < blockId {
          maxKey := blockId;
        }
        keys := keys[blockName := blockId];
      }
      i := i + 1;
    }
    assert lines[..|lines|] == lines;
    KeysBelowMaxId(lines);
  }

  /** Slot `i` of the names vector holds a name whose id is `i`, or "?" when no
      name has id `i`. */
  predicate NamesFor(keys: map<string, u16>, names: seq<string>) {
    forall i | 0 <= i < |names| ::
      if i in keys.Values then names[i] in keys && keys[names[i]] == i else names[i] == "?"
  }

  /** The names vector of `read_tile`: 1 + max id slots, all "?", then each
      name written into the slot of its id (in the map's iteration order, so
      of two names sharing an id either may win). */
  method BuildNames(keys: map<string, u16>, maxKey: u16) returns (names: seq<string>)
    requires forall n | n in keys :: keys[n] <= maxKey
    ensures |names| == 1 + maxKey
    ensures NamesFor(keys, names)
  {
    names := seq(1 + maxKey, _ => "?");
    var remaining := keys.Keys;
    while remaining != {}
      invariant remaining <= keys.Keys
      invariant |names| == 1 + maxKey
      invariant forall i | 0 <= i < |names| ::
        names[i] == "?" || (names[i] in keys && names[i] !in remaining && keys[names[i]] == i)
      invariant forall n | n in keys && n !in remaining ::
        names[keys[n]] in keys && names[keys[n]] !in remaining && keys[names[keys[n]]] == keys[n]
      decreases remaining
    {
      var name :| name in remaining;
      names := names[keys[name] := name];
      remaining := remaining - {name};
    }
    forall i | 0 <= i < |names|
      ensures if i in keys.Values then names[i] in keys && keys[names[i]] == i else names[i] == "?"
    {
      if i in keys.Values {
        var n :| n in keys && keys[n] == i;
      }
    }
  }

  /** One line of the written key entry: `format!("{} {}\r\n", id, name)`. */
  function KeyLine(name: string, id: u16): string {
    ShowNat(id) + " " + name + "\r\n"
  }

  /** The key entry text for the names in `order`. */
  function KeyText(order: seq<string>, keys: map<string, u16>): string
    requires forall k :: 0 <= k < |order| ==> order[k] in keys
  {
    if order == [] then "" else KeyLine(order[0], keys[order[0]]) + KeyText(order[1..], keys)
  }

  lemma {:induction false} KeyTextSnoc(order: seq<string>, name: string, keys: map<string, u16>)
    requires forall k :: 0 <= k < |order| ==> order[k] in keys
    requires name in keys
    ensures KeyText(order + [name], keys) == KeyText(order, keys) + KeyLine(name, keys[name])
  {
    if order != [] {
      assert (order + [name])[1..] == order[1..] + [name];
      KeyTextSnoc(order[1..], name, keys);
    }
  }

  /** `order` lists every name of `keys` exactly once. */
  predicate Enumerates(order: seq<string>, keys: map<string, u16>) {
    && (forall k :: 0 <= k < |order| ==> order[k] in keys)
    && (forall n | n in keys :: n in order)
    && (forall j, k :: 0 <= j < k < |order| ==> order[j] != order[k])
  }

  /** The key-writing loop of `write_tile`, in the map's iteration order. */
  method WriteKeys(keys: map<string, u16>) returns (text: string, ghost order: seq<string>)
    ensures Enumerates(order, keys)
    ensures text == KeyText(order, keys)
  {
    text := "";
    order := [];
    var remaining := keys.Keys;
    while remaining != {}
      invariant remaining <= keys.Keys
      invariant forall k :: 0 <= k < |order| ==> order[k] in keys && order[k] !in remaining
      invariant forall n | n in keys && n !in remaining :: n in order
      invariant forall j, k :: 0 <= j < k < |order| ==> order[j] != order[k]
      invariant text == KeyText(order, keys)
      decreases remaining
    {
      var name :| name in remaining;
      KeyTextSnoc(order, name, keys);
      text := text + KeyLine(name, keys[name]);
      order := order + [name];
      remaining := remaining - {name};
    }
  }

  /** A block name that survives the round trip: no space (it would end the
      name) and no line feed (it would end the line). */
  predicate NameOk(name: string) { ' ' !in name && '\n' !in name }

  /** The line `read_tile` sees for a written key line. */
  function KeyBody(name: string, id: u16): string {
    ShowNat(id) + " " + name
  }

  lemma KeyBodyParses(name: string, id: u16)
    requires NameOk(name)
    ensures KeyLineOk(KeyBody(name, id))
    ensures KeyBody(name, id) != [] && KeyLineId(KeyBody(name, id)) == id
    ensures KeyLineName(KeyBody(name, id)) == name
  {
    var line := KeyBody(name, id);
    ShowIntShape(id);
    assert ' ' !in ShowNat(id);
    IndexOfAt(ShowNat(id), ' ', name);
    assert line == ShowNat(id) + [' '] + name;
    assert Before(line, ' ') == ShowNat(id);
    ParseShowU16(id);
    assert line[|ShowNat(id)| + 1..] == name;
  }

  function KeyBodies(order: seq<string>, keys: map<string, u16>): (r: seq<string>)
    requires forall k :: 0 <= k < |order| ==> order[k] in keys
    ensures |r| == |order|
  {
    seq(|order|, k requires 0 <= k < |order| => KeyBody(order[k], keys[order[k]]))
  }

  /** The written text is the lines `read_tile` sees, each ended by "\r\n". */
  lemma {:induction false} KeyTextIsJoin(order: seq<string>, keys: map<string, u16>)
    requires forall k :: 0 <= k < |order| ==> order[k] in keys
    ensures KeyText(order, keys) == JoinCrLf(KeyBodies(order, keys))
  {
    if order != [] {
      KeyTextIsJoin(order[1..], keys);
      var b := KeyBodies(order, keys);
      assert b[1..] == KeyBodies(order[1..], keys);
    }
  }

  lemma KeyBodyHasNoLineFeed(name: string, id: u16)
    requires NameOk(name)
    ensures '\n' !in KeyBody(name, id)
  {
    ShowIntShape(id);
    assert '\n' !in ShowNat(id);
  }

  /** Reading back the bodies of distinct names gives the table restricted
      to those names. */
  lemma KeyBodiesOk(order: seq<string>, keys: map<string, u16>)
    requires forall k :: 0 <= k < |order| ==> order[k] in keys && NameOk(order[k])
    ensures KeyLinesOk(KeyBodies(order, keys))
  {
    var b := KeyBodies(order, keys);
    forall k | 0 <= k < |b| ensures KeyLineOk(b[k]) {
      KeyBodyParses(order[k], keys[order[k]]);
    }
  }

  lemma {:induction false} KeysOfBodies(order: seq<string>, keys: map<string, u16>)
    requires forall k :: 0 <= k < |order| ==> order[k] in keys && NameOk(order[k])
    ensures KeyLinesOk(KeyBodies(order, keys))
    ensures KeysOfLines(KeyBodies(order, keys)) == map n | n in order :: keys[n]
  {
    KeyBodiesOk(order, keys);
    if order != [] {
      var init := order[..|order| - 1];
      var name := order[|order| - 1];
      assert order == init + [name];
      assert forall k :: 0 <= k < |init| ==> init[k] == order[k];
      KeysOfBodies(init, keys);
      assert forall n | n in init :: n in keys by {
        forall n | n in init ensures n in keys {
          var k :| 0 <= k < |init| && init[k] == n;
          assert order[k] == n;
        }
      }
      KeyBodiesSnoc(order, keys);
      KeysOfBodiesStep(order, keys, init, name, KeyBodies(init, keys), KeyBodies(order, keys));
    }
  }

  lemma KeysOfBodiesStep(order: seq<string>, keys: map<string, u16>, init: seq<string>, name: string,
                         bInit: seq<string>, b: seq<string>)
    requires order == init + [name] && name in keys && NameOk(name)
    requires forall n | n in init :: n in keys
    requires b == bInit + [KeyBody(name, keys[name])] && KeyLinesOk(b) && KeyLinesOk(bInit)
    requires KeysOfLines(bInit) == map n | n in init :: keys[n]
    ensures KeysOfLines(b) == map n | n in order :: keys[n]
  {
    KeyBodyParses(name, keys[name]);
    KeysOfLinesSnoc(bInit, KeyBody(name, keys[name]), b);
    RestrictSnoc(init, name, keys, order);
  }

  lemma KeyBodiesSnoc(order: seq<string>, keys: map<string, u16>)
    requires order != [] && forall k :: 0 <= k < |order| ==> order[k] in keys
    ensures KeyBodies(order, keys)
         == KeyBodies(order[..|order| - 1], keys) + [KeyBody(order[|order| - 1], keys[order[|order| - 1]])]
  {
  }

  /** Reading one more non-blank line inserts its name with its id. */
  lemma KeysOfLinesSnoc(init: seq<string>, line: string, lines: seq<string>)
    requires lines == init + [line] && KeyLinesOk(lines) && line != [] && KeyLineOk(line)
    ensures KeyLinesOk(init)
    ensures KeysOfLines(lines) == KeysOfLines(init)[KeyLineName(line) := KeyLineId(line)]
  {
    assert lines[..|lines| - 1] == init;
    assert forall k :: 0 <= k < |init| ==> init[k] == lines[k];
  }

  lemma RestrictSnoc(init: seq<string>, name: string, keys: map<string, u16>, order: seq<string>)
    requires order == init + [name] && name in keys
    requires forall n | n in init :: n in keys
    ensures (map n | n in init :: keys[n])[name := keys[name]] == map n | n in order :: keys[n]
  {
  }

  lemma RestrictAll(order: seq<string>, keys: map<string, u16>)
    requires Enumerates(order, keys)
    ensures (map n | n in order :: keys[n]) == keys
  {
  }

  /** Writing a key table and reading it back gives the same table, provided
      no name contains a space or a line feed. */
  lemma KeyTableRoundTrip(keys: map<string, u16>, order: seq<string>)
    requires Enumerates(order, keys)
    requires forall n | n in keys :: NameOk(n)
    ensures KeyLinesOk(Lines(KeyText(order, keys)))
    ensures KeysOfLines(Lines(KeyText(order, keys))) == keys
  {
    var bodies := KeyBodies(order, keys);
    forall k | 0 <= k < |bodies| ensures '\n' !in bodies[k] {
      KeyBodyHasNoLineFeed(order[k], keys[order[k]]);
    }
    KeyTextIsJoin(order, keys);
    LinesOfJoinAll(bodies);
    KeysOfBodies(order, keys);
    RestrictAll(order, keys);
  }

  // ---------------------------------------------------------------------------
  // Reading and writing a tile archive

  /** The entries of a tile archive (each absent or with its contents). */
  datatype Archive = Archive(control: Option<string>, data: Option<seq<u8>>, key: Option<string>)

  /** A file path, as its components; the last one is the file name. */
  type Path = seq<string>

  const CONTROL_TEXT: string := "version:2\r\n"
  const NO_DATA_MSG: string := "No data file in tile zip"
  const SHORT_DATA_MSG: string := "failed to fill whole buffer"

  /** An archive `read_tile` can process without panicking: it has a key
      entry and every key line is well formed. */
  predicate KeyEntryOk(a: Archive) {
    a.key.Some? && KeyLinesOk(Lines(a.key.value))
  }

  /** The modern buffer read from the data entry: its first TILE_BYTES bytes. */
  function DataOf(a: Archive): (r: Result<seq<u8>>)
    ensures r.Ok? ==> IsTileBuffer(r.value)
    ensures r.Ok? <==> a.data.Some? && |a.data.value| >= TILE_BYTES
  {
    if a.data.None? then Err(NO_DATA_MSG)
    else if |a.data.value| < TILE_BYTES then Err(SHORT_DATA_MSG)
    else Ok(a.data.value[..TILE_BYTES])
  }

  /** `read_tile`. `zip` is the outcome of opening the file and its zip
      directory. The tile keeps the key table, the names vector, the buffer
      and the position parsed from the file name. */
  method ReadTile(path: Path, zip: Result<Archive>) returns (r: Result<Tile>)
    requires |path| >= 1
    requires zip.Ok? ==> KeyEntryOk(zip.value)
    ensures zip.Err? ==> r == Err(zip.error)
    ensures zip.Ok? ==> (r.Ok? <==> DataOf(zip.value).Ok?)
    ensures zip.Ok? && r.Err? ==> r.error == DataOf(zip.value).error
    ensures r.Ok? ==>
      var t := r.value;
      var lines := Lines(zip.value.key.value);
      && fresh(t) && fresh(t.data) && t.Valid()
      && t.data[..] == DataOf(zip.value).value
      && t.keys == KeysOfLines(lines)
      && |t.names| == 1 + MaxIdOfLines(lines)
      && NamesFor(t.keys, t.names)
      && t.pos == XzFromTilePath(path[|path| - 1]).ToOption()
      && t.source == Some(path)
  {
    if zip.Err? {
      return Err(zip.error);
    }
    var archive := zip.value;
    var keys, maxKey := ReadKeys(Lines(archive.key.value));
    var names := BuildNames(keys, maxKey);
    var data := DataOf(archive);
    if data.Err? {
      return Err(data.error);
    }
    var tile := new Tile.FromParts(data.value, keys, names, XzFromTilePath(path[|path| - 1]).ToOption(), Some(path));
    return Ok(tile);
  }

  /** The archive `write_tile` produces for `t`, with its key lines in the
      map's iteration order `order`. */
  function WrittenArchive(data: seq<u8>, keys: map<string, u16>, order: seq<string>): Archive
    requires forall k :: 0 <= k < |order| ==> order[k] in keys
  {
    Archive(Some(CONTROL_TEXT), Some(data), Some(KeyText(order, keys)))
  }

  /** `write_tile`: the control entry "version:2", the buffer, and the key
      entry. */
  method WriteTile(t: Tile) returns (a: Archive, ghost order: seq<string>)
    requires t.Valid()
    ensures Enumerates(order, t.keys)
    ensures a == WrittenArchive(t.data[..], t.keys, order)
  {
    var text;
    text, order := WriteKeys(t.keys);
    a := Archive(Some(CONTROL_TEXT), Some(t.data[..]), Some(text));
  }

  /** A written tile reads back with the same buffer and key table, and a
      names vector consistent with it. */
  lemma WriteReadRoundTrip(data: seq<u8>, keys: map<string, u16>, order: seq<string>)
    requires IsTileBuffer(data) && Enumerates(order, keys)
    requires forall n | n in keys :: NameOk(n)
    ensures KeyEntryOk(WrittenArchive(data, keys, order))
    ensures DataOf(WrittenArchive(data, keys, order)) == Ok(data)
    ensures KeysOfLines(Lines(WrittenArchive(data, keys, order).key.value)) == keys
  {
    KeyTableRoundTrip(keys, order);
    assert data[..TILE_BYTES] == data;
  }

  // ---------------------------------------------------------------------------
  // Tile file names "<x>,<z>[,<contributor>].zip"

  const SHORT_NAME_MSG: string := "file name too short"
  const NO_Z_MSG: string := "no z coord in filename"
  const SHORT_CONTRIB_NAME_MSG: string := "no contrib in filename"
  const NO_CONTRIB_MSG: string := "No contrib in tile name"

  /** `get_xz_from_tile_path` on the file name: drop the 4-character
      extension, split at the first two commas, parse x and z as i32. */
  function XzFromTilePath(fname: string): (r: Result<(i32, i32)>)
    ensures |fname| <= 4 ==> r == Err(SHORT_NAME_MSG)
    ensures |fname| > 4 ==> var parts := SplitN(fname[..|fname| - 4], ',', 3);
      && (r.Ok? <==> |parts| >= 2 && ParseI32(parts[0]).Ok? && ParseI32(parts[1]).Ok?)
      && (r.Ok? ==> r.value == (ParseI32(parts[0]).value, ParseI32(parts[1]).value))
      && (ParseI32(parts[0]).Err? ==> r == Err(ParseI32(parts[0]).error))
      && (ParseI32(parts[0]).Ok? && |parts| < 2 ==> r == Err(NO_Z_MSG))
      && (ParseI32(parts[0]).Ok? && |parts| >= 2 && ParseI32(parts[1]).Err? ==> r == Err(ParseI32(parts[1]).error))
  {
    if |fname| <= 4 then Err(SHORT_NAME_MSG)
    else
      var parts := SplitN(fname[..|fname| - 4], ',', 3);
      var x :- ParseI32(parts[0]);
      if |parts| < 2 then Err(NO_Z_MSG)
      else
        var z :- ParseI32(parts[1]);
        Ok((x, z))
  }

  /** `get_contrib_from_tile_path`: the third comma field, which keeps any
      further commas. */
  function ContribFromTilePath(fname: string): (r: Result<string>)
    ensures |fname| <= 4 ==> r == Err(SHORT_CONTRIB_NAME_MSG)
    ensures r.Ok? <==> |fname| > 4 && |SplitN(fname[..|fname| - 4], ',', 3)| == 3
  {
    if |fname| <= 4 then Err(SHORT_CONTRIB_NAME_MSG)
    else
      var parts := SplitN(fname[..|fname| - 4], ',', 3);
      if |parts| < 3 then Err(NO_CONTRIB_MSG) else Ok(parts[2])
  }

  /** The name of a contributor's tile. */
  function TileFileName(x: i32, z: i32, contrib: string, ext: string): string {
    ShowInt(x) + "," + ShowInt(z) + "," + contrib + ext
  }

  /** The name of a merged tile. */
  function MergedFileName(x: i32, z: i32, ext: string): string {
    ShowInt(x) + "," + ShowInt(z) + ext
  }

  lemma SplitThree(a: string, b: string, c: string)
    requires ',' !in a && ',' !in b
    ensures SplitN(a + "," + b + "," + c, ',', 3) == [a, b, c]
  {
    assert a + "," + b + "," + c == a + [','] + (b + [','] + c);
    SplitNAt(a, ',', b + [','] + c, 3);
    SplitNAt(b, ',', c, 2);
  }

  lemma NoCommaInShowInt(x: int)
    ensures ',' !in ShowInt(x)
  {
    ShowIntShape(x);
  }

  /** Contributor tile names parse back to their position and contributor
      (the contributor may itself contain commas). */
  lemma TileFileNameRoundTrip(x: i32, z: i32, contrib: string, ext: string)
    requires |ext| == 4
    ensures XzFromTilePath(TileFileName(x, z, contrib, ext)) == Ok((x, z))
    ensures ContribFromTilePath(TileFileName(x, z, contrib, ext)) == Ok(contrib)
  {
    var fname := TileFileName(x, z, contrib, ext);
    var stem := ShowInt(x) + "," + ShowInt(z) + "," + contrib;
    assert fname == stem + ext;
    assert fname[..|fname| - 4] == stem;
    NoCommaInShowInt(x);
    NoCommaInShowInt(z);
    SplitThree(ShowInt(x), ShowInt(z), contrib);
    ParseShowI32(x);
    ParseShowI32(z);
  }

  /** Merged tile names parse back to their position and have no contributor. */
  lemma MergedFileNameRoundTrip(x: i32, z: i32, ext: string)
    requires |ext| == 4
    ensures XzFromTilePath(MergedFileName(x, z, ext)) == Ok((x, z))
    ensures ContribFromTilePath(MergedFileName(x, z, ext)) == Err(NO_CONTRIB_MSG)
  {
    var fname := MergedFileName(x, z, ext);
    var stem := ShowInt(x) + "," + ShowInt(z);
    assert fname == stem + ext;
    assert fname[..|fname| - 4] == stem;
    NoCommaInShowInt(x);
    NoCommaInShowInt(z);
    SplitTwo(ShowInt(x), ShowInt(z));
    ParseShowI32(x);
    ParseShowI32(z);
  }

  /** A coordinate that overflows before a later invalid character reports
      the overflow, the error `ParseIntError` gives. */
  lemma TilePathOverflowExample()
    ensures XzFromTilePath("99999999999x,0.zip") == Err(OVERFLOW_MSG)
  {
    var fname := "99999999999x,0.zip";
    assert fname[..|fname| - 4] == "99999999999x" + "," + "0";
    SplitTwo("99999999999x", "0");
    OverflowBeforeInvalidDigit();
  }

  lemma SplitTwo(a: string, b: string)
    requires ',' !in a && ',' !in b
    ensures SplitN(a + "," + b, ',', 3) == [a, b]
  {
    assert a + "," + b == a + [','] + b;
    SplitNAt(a, ',', b, 3);
    SplitNNoSep(b, ',', 2);
  }

  // ---------------------------------------------------------------------------
  // Bounding boxes

  /** Tile coordinates whose block coordinates `t*256` and `t*256 + 256` fit
      in an i32; outside them the source's i32 arithmetic overflows (a panic
      in a debug build, a wrap-around in a release build). */
  predicate TileCoordFits(t: int) { -0x80_0000 <= t < 0x7F_FFFF }

  /** `is_tile_pos_in_bounds`: the tile's 256x256 block square against the
      box `bounds = [w, n, e, s]`, with the i32 products and sums wrapping
      around as in a release build. */
  function IsTilePosInBounds(pos: (i32, i32), bounds: seq<i32>): (r: bool)
    requires |bounds| >= 4
    ensures TileCoordFits(pos.0) && TileCoordFits(pos.1) ==>
      (r <==> pos.0 * 256 + 256 > bounds[0] && pos.0 * 256 < bounds[2] && pos.1 * 256 + 256 > bounds[1] && pos.1 * 256 < bounds[3])
  {
    var x := WrapI32(pos.0 * 256);
    var z := WrapI32(pos.1 * 256);
    WrapI32(x + 256) > bounds[0] && x < bounds[2] && WrapI32(z + 256) > bounds[1] && z < bounds[3]
  }

  /** Block coordinates strictly inside the tile's side [lo, lo+256]. */
  predicate InOpenSide(p: real, lo: int) { lo as real < p < (lo + 256) as real }

  predicate InClosed(p: real, lo: int, hi: int) { lo as real <= p <= hi as real }

  /** For w <= e, the open side (lo, lo+256) meets the closed interval
      [w, e] iff lo + 256 > w and lo < e. */
  lemma SideOverlap(lo: int, w: int, e: int)
    requires w <= e
    ensures (lo + 256 > w && lo < e) <==> exists p: real :: InOpenSide(p, lo) && InClosed(p, w, e)
  {
    if lo + 256 > w && lo < e {
      var a := if lo < w then w else lo;
      var b := if lo + 256 < e then lo + 256 else e;
      var p := (a as real + b as real) / 2.0;
      assert InOpenSide(p, lo) && InClosed(p, w, e);
    }
  }

  /** For a box with w <= e and n <= s (what `parse_bounds` accepts, a line
      or a point included) and tile coordinates without overflow,
      `is_tile_pos_in_bounds` holds iff the inside of the tile's square
      (256x, 256x+256) x (256z, 256z+256) meets the closed box
      [w, e] x [n, s]. */
  lemma TilePosInBoundsMeansOverlap(pos: (i32, i32), bounds: seq<i32>)
    requires |bounds| >= 4 && TileCoordFits(pos.0) && TileCoordFits(pos.1)
    requires bounds[0] <= bounds[2] && bounds[1] <= bounds[3]
    ensures IsTilePosInBounds(pos, bounds) <==>
      (exists px: real, pz: real :: InOpenSide(px, pos.0 * 256) && InOpenSide(pz, pos.1 * 256)
                                  && InClosed(px, bounds[0], bounds[2]) && InClosed(pz, bounds[1], bounds[3]))
  {
    SideOverlap(pos.0 * 256, bounds[0], bounds[2]);
    SideOverlap(pos.1 * 256, bounds[1], bounds[3]);
    if IsTilePosInBounds(pos, bounds) {
      var px :| InOpenSide(px, pos.0 * 256) && InClosed(px, bounds[0], bounds[2]);
      var pz :| InOpenSide(pz, pos.1 * 256) && InClosed(pz, bounds[1], bounds[3]);
      assert InOpenSide(px, pos.0 * 256) && InOpenSide(pz, pos.1 * 256);
    }
  }
}
