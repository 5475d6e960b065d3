/** The tile-cache merge: contributions of one tile position are merged chunk by
    chunk, most recent first, into one output tile whose key table grows as new
    block names are met. */
module MergeCaches {
  import opened Common
  import opened TileCodec

  // ---------------------------------------------------------------------------
  // Key tables and block-id converters

  /** The largest id of a key table (`values().max().unwrap_or(0)`). */
  function MaxValue(m: map<string, u16>): (r: u16)
    ensures forall n | n in m :: m[n] <= r
    ensures m != map[] ==> r in m.Values
    ensures m == map[] ==> r == 0
  {
    if m == map[] then 0
    else
      var n0 :| n0 in m;
      assert m[n0] in m.Values;
      MaxExists(m.Values);
      var x :| x in m.Values && forall y | y in m.Values :: y <= x;
      assert forall n | n in m :: m[n] in m.Values;
      x
  }

  /** A non-empty set of ids has a largest element. */
  lemma {:induction false} MaxExists(s: set<u16>)
    requires s != {}
    ensures exists x :: x in s && forall y | y in s :: y <= x
    decreases |s|
  {
    var x :| x in s;
    if s == {x} {
      assert forall y | y in s :: y <= x;
    } else {
      var t := s - {x};
      assert |t| < |s|;
      MaxExists(t);
      var z :| z in t && forall y | y in t :: y <= z;
      MaxOfTwo(s, t, x, z);
    }
  }

  lemma MaxOfTwo(s: set<u16>, t: set<u16>, x: u16, z: u16)
    requires s == t + {x} && z in t && forall y | y in t :: y <= z
    ensures exists m :: m in s && forall y | y in s :: y <= m
  {
    var m := if x > z then x else z;
    assert m in s;
    assert forall y | y in s :: y <= m;
  }

  lemma {:induction false} SubsetCard<T>(a: set<T>, b: set<T>)
    requires a <= b
    ensures |a| <= |b|
  {
    if a != {} {
      var x :| x in a;
      SubsetCard(a - {x}, b - {x});
    }
  }

  /** The ids of `keys` are distinct and lie in 1..|keys| (so they are
      exactly 1..|keys|), as Voxelmap numbers its block states. */
  predicate DenseIds(keys: map<string, u16>) {
    && (forall n | n in keys :: 1 <= keys[n] <= |keys|)
    && (forall a, b | a in keys && b in keys && a != b :: keys[a] != keys[b])
  }

  /** `merged` is `keysOut` grown by the names of `added` it lacked: old names
      keep their ids, new names get distinct ids |keysOut|+1 .. |merged|. */
  ghost predicate KeysGrownBy(keysOut: map<string, u16>, added: set<string>, merged: map<string, u16>) {
    && (forall n :: n in merged <==> n in keysOut || n in added)
    && (forall n | n in keysOut :: merged[n] == keysOut[n])
    && (forall n | n in merged && n !in keysOut :: |keysOut| < merged[n] <= |merged|)
    && (forall a, b | a in merged && b in merged && a !in keysOut && b !in keysOut && a != b :: merged[a] != merged[b])
  }

  /** The merged key table: `keysOut` grown by the names of `keysIn`. */
  ghost predicate KeysGrown(keysOut: map<string, u16>, keysIn: map<string, u16>, merged: map<string, u16>) {
    KeysGrownBy(keysOut, keysIn.Keys, merged)
  }

  /** Adding one missing name with the next id keeps the growth invariant. */
  lemma GrowByOne(keysOut: map<string, u16>, added: set<string>, merged: map<string, u16>,
                  name: string, id: u16, grown: map<string, u16>)
    requires KeysGrownBy(keysOut, added, merged) && name !in merged && id as int == |merged| + 1
    requires grown == merged[name := id]
    ensures |grown| == |merged| + 1
    ensures KeysGrownBy(keysOut, added + {name}, grown)
  {
    SubsetCard(keysOut.Keys, merged.Keys);
  }

  /** Output id `v` is what input id `id` becomes: the output id of a name
      that has `id` in the input table, or 0 when no name has it. */
  predicate ConvertsTo(keysIn: map<string, u16>, merged: map<string, u16>, id: int, v: int) {
    || (exists n :: n in keysIn && keysIn[n] == id && n in merged && merged[n] == v)
    || (id !in keysIn.Values && v == 0)
  }

  /** The converter has a slot for every input id up to the largest, and each
      slot holds the output id of a name with that input id (0 if none). */
  predicate ConverterFor(keysIn: map<string, u16>, merged: map<string, u16>, conv: seq<u16>) {
    && |conv| == 1 + MaxValue(keysIn)
    && forall i | 0 <= i < |conv| :: ConvertsTo(keysIn, merged, i, conv[i])
  }

  /** Converter state after the names `done` have been visited: `setBy[i]` is
      the name whose output id slot i last received; untouched slots hold 0. */
  ghost predicate ConverterSoFar(keysIn: map<string, u16>, done: set<string>, merged: map<string, u16>,
                                 conv: seq<u16>, setBy: map<int, string>) {
    && (forall i | i in setBy :: 0 <= i < |conv| && setBy[i] in done && setBy[i] in keysIn
                                 && keysIn[setBy[i]] == i && setBy[i] in merged && merged[setBy[i]] == conv[i])
    && (forall n | n in done && n in keysIn :: keysIn[n] as int in setBy)
    && (forall i | 0 <= i < |conv| && i !in setBy :: conv[i] == 0)
  }

  /** The state of the merge loop: `done` and `remaining` split the input
      names, `merged` is grown by `done`, the converter covers `done`. */
  ghost predicate MergeLoopInv(keysOut: map<string, u16>, keysIn: map<string, u16>, remaining: set<string>,
                               done: set<string>, merged: map<string, u16>, conv: seq<u16>, setBy: map<int, string>) {
    && (forall n | n in remaining :: n in keysIn && n !in done)
    && (forall n | n in keysIn :: n in remaining || n in done)
    && (forall n | n in done :: n in keysIn)
    && KeysGrownBy(keysOut, done, merged)
    && ConverterSoFar(keysIn, done, merged, conv, setBy)
  }

  lemma MergeLoopStart(keysOut: map<string, u16>, keysIn: map<string, u16>, conv: seq<u16>)
    requires forall i | 0 <= i < |conv| :: conv[i] == 0
    ensures MergeLoopInv(keysOut, keysIn, keysIn.Keys, {}, keysOut, conv, map[])
  {
  }

  /** While some input name is still missing, the merged table has room for a
      new 16-bit id. */
  lemma RoomForOne(keysOut: map<string, u16>, keysIn: map<string, u16>, remaining: set<string>, done: set<string>,
                   merged: map<string, u16>, conv: seq<u16>, setBy: map<int, string>, name: string)
    requires MergeLoopInv(keysOut, keysIn, remaining, done, merged, conv, setBy)
    requires name in remaining && name !in merged && |keysOut.Keys + keysIn.Keys| <= 0xFFFF
    ensures |merged| < 0xFFFF
  {
    SubsetCard(merged.Keys + {name}, keysOut.Keys + keysIn.Keys);
  }

  /** Visiting one more input name, with its output id either found in the
      merged table or freshly allocated as the next id, keeps the loop state. */
  lemma MergeLoopStep(keysOut: map<string, u16>, keysIn: map<string, u16>, remaining: set<string>, done: set<string>,
                      merged: map<string, u16>, conv: seq<u16>, setBy: map<int, string>,
                      name: string, merged': map<string, u16>, outId: u16)
    requires MergeLoopInv(keysOut, keysIn, remaining, done, merged, conv, setBy)
    requires name in remaining && keysIn[name] < |conv|
    requires || (name in merged && merged' == merged && outId == merged[name])
             || (name !in merged && outId as int == |merged| + 1 && merged' == merged[name := outId])
    ensures |merged'| == |merged| + (if name in merged then 0 else 1)
    ensures MergeLoopInv(keysOut, keysIn, remaining - {name}, done + {name}, merged',
                         conv[keysIn[name] := outId], setBy[keysIn[name] as int := name])
  {
    if name !in merged {
      GrowByOne(keysOut, done, merged, name, outId, merged');
    }
    ConverterStep(keysIn, done, merged, merged', conv, setBy, name, outId);
  }

  /** Visiting one more name keeps the converter state, provided the tables
      only grew. */
  lemma ConverterStep(keysIn: map<string, u16>, done: set<string>, merged: map<string, u16>, merged': map<string, u16>,
                      conv: seq<u16>, setBy: map<int, string>, name: string, outId: u16)
    requires ConverterSoFar(keysIn, done, merged, conv, setBy)
    requires name in keysIn && keysIn[name] < |conv|
    requires forall n | n in merged :: n in merged' && merged'[n] == merged[n]
    requires name in merged' && merged'[name] == outId
    ensures ConverterSoFar(keysIn, done + {name}, merged', conv[keysIn[name] := outId],
                           setBy[keysIn[name] as int := name])
  {
  }

  /** Once every input name is visited, the table is grown by all of them and
      the converter state is a converter. */
  lemma MergeLoopEnd(keysOut: map<string, u16>, keysIn: map<string, u16>, done: set<string>,
                     merged: map<string, u16>, conv: seq<u16>, setBy: map<int, string>)
    requires MergeLoopInv(keysOut, keysIn, {}, done, merged, conv, setBy)
    requires |conv| == 1 + MaxValue(keysIn)
    ensures KeysGrown(keysOut, keysIn, merged)
    ensures ConverterFor(keysIn, merged, conv)
  {
    forall i | 0 <= i < |conv|
      ensures ConvertsTo(keysIn, merged, i, conv[i])
    {
      if i in setBy {
        var n := setBy[i];
        assert n in keysIn && keysIn[n] == i && n in merged && merged[n] == conv[i];
      } else {
        assert i !in keysIn.Values;
      }
    }
  }

  /** `merge_keys_and_build_converter`: add the input names missing from the
      output table (numbered on from the output table's size), and build the
      input-id -> output-id converter. The u16 counter must not overflow. */
  method MergeKeysAndBuildConverter(keysOut: map<string, u16>, keysIn: map<string, u16>)
      returns (merged: map<string, u16>, converter: seq<u16>)
    requires |keysOut.Keys + keysIn.Keys| <= 0xFFFF
    ensures KeysGrown(keysOut, keysIn, merged)
    ensures ConverterFor(keysIn, merged, converter)
  {
    var lenIn := 1 + MaxValue(keysIn);
    SubsetCard(keysOut.Keys, keysOut.Keys + keysIn.Keys);
    var nextId: u16 := |keysOut|;
    converter := seq(lenIn, _ => 0);
    merged := keysOut;
    var remaining := keysIn.Keys;
    ghost var done: set<string> := {};
    ghost var setBy: map<int, string> := map[];
    MergeLoopStart(keysOut, keysIn, converter);
    while remaining != {}
      invariant MergeLoopInv(keysOut, keysIn, remaining, done, merged, converter, setBy)
      invariant nextId as int == |merged|
      invariant |converter| == lenIn
      decreases remaining
    {
      var name :| name in remaining;
      var inId := keysIn[name];
      var outId;
      ghost var before := merged;
      if name in merged {
        outId := merged[name];
      } else {
        RoomForOne(keysOut, keysIn, remaining, done, merged, converter, setBy, name);
        nextId := nextId + 1;
        merged := merged[name := nextId];
        outId := nextId;
      }
      MergeLoopStep(keysOut, keysIn, remaining, done, before, converter, setBy, name, merged, outId);
      converter := converter[inId := outId];
      setBy := setBy[inId as int := name];
      remaining := remaining - {name};
      done := done + {name};
    }
    MergeLoopEnd(keysOut, keysIn, done, merged, converter, setBy);
  }

  /** Growing a table whose ids are exactly 1..n by k new names gives a table
      whose ids are exactly 1..n+k. */
  lemma KeysGrownKeepsDense(keysOut: map<string, u16>, keysIn: map<string, u16>, merged: map<string, u16>)
    requires KeysGrown(keysOut, keysIn, merged) && DenseIds(keysOut)
    ensures DenseIds(merged)
  {
    SubsetCard(keysOut.Keys, merged.Keys);
    forall a, b | a in merged && b in merged && a != b
      ensures merged[a] != merged[b]
    {
    }
  }

  /** Slot 0 of the converter stays 0 unless the input table gives some name
      id 0; with distinct input ids, every input id's slot holds the output id
      of its own name. */
  lemma ConverterSlots(keysIn: map<string, u16>, merged: map<string, u16>, conv: seq<u16>)
    requires ConverterFor(keysIn, merged, conv) && merged.Keys >= keysIn.Keys
    ensures 0 !in keysIn.Values ==> conv[0] == 0
    ensures (forall a, b | a in keysIn && b in keysIn && a != b :: keysIn[a] != keysIn[b]) ==>
      forall n | n in keysIn :: keysIn[n] < |conv| && conv[keysIn[n]] == merged[n]
  {
    if forall a, b | a in keysIn && b in keysIn && a != b :: keysIn[a] != keysIn[b] {
      forall n | n in keysIn
        ensures keysIn[n] < |conv| && conv[keysIn[n]] == merged[n]
      {
        assert ConvertsTo(keysIn, merged, keysIn[n], conv[keysIn[n]]);
      }
    }
  }

  // ---------------------------------------------------------------------------
  // Copying a chunk through the converter

  /** The four blockstates of column `col` are valid converter indices. */
  predicate Convertible(u: seq<u8>, n: int, col: nat)
    requires IsTileBuffer(u) && col < TILE_COLUMNS
  {
    && FieldValue(u, Blockstate, col) < n
    && FieldValue(u, OceanFloorBlockstate, col) < n
    && FieldValue(u, TransparentBlockstate, col) < n
    && FieldValue(u, FoliageBlockstate, col) < n
  }

  /** Every column of chunk `chunk` is convertible. */
  predicate ChunkConvertible(u: seq<u8>, n: int, chunk: nat)
    requires IsTileBuffer(u)
  {
    forall c: nat | c < TILE_COLUMNS && ChunkOfColumn(c) == chunk :: Convertible(u, n, c)
  }

  /** The value field `f` of column `col` of `u` takes in the output tile:
      blockstates go through the converter, the other fields are copied. */
  function Converted(u: seq<u8>, conv: seq<u16>, f: Field, col: nat): (v: u16)
    requires IsTileBuffer(u) && col < TILE_COLUMNS && Convertible(u, |conv|, col)
  {
    if f.IsBlockstate() then conv[FieldValue(u, f, col)] else FieldValue(u, f, col)
  }

  /** The number of field writes per column in `copy_convert_chunk`. */
  const COPY_STEPS: nat := 13

  /** The field `copy_convert_chunk` writes at step `k` of a column: first the
      nine verbatim fields, then the four blockstates. */
  function CopyOrder(k: nat): Field
    requires k < COPY_STEPS
  {
    match k
    case 0 => Height
    case 1 => Light
    case 2 => OceanFloorHeight
    case 3 => OceanFloorLight
    case 4 => TransparentHeight
    case 5 => TransparentLight
    case 6 => FoliageHeight
    case 7 => FoliageLight
    case 8 => BiomeId
    case 9 => Blockstate
    case 10 => OceanFloorBlockstate
    case 11 => TransparentBlockstate
    case _ => FoliageBlockstate
  }

  /** The step at which field `g` is written: every field is written. */
  function CopyStepOf(g: Field): (k: nat)
    ensures k < COPY_STEPS && CopyOrder(k) == g
  {
    match g
    case Height => 0
    case Light => 1
    case OceanFloorHeight => 2
    case OceanFloorLight => 3
    case TransparentHeight => 4
    case TransparentLight => 5
    case FoliageHeight => 6
    case FoliageLight => 7
    case BiomeId => 8
    case Blockstate => 9
    case OceanFloorBlockstate => 10
    case TransparentBlockstate => 11
    case FoliageBlockstate => 12
  }

  /** No field is written twice. */
  lemma CopyStepOfOrder(k: nat)
    requires k < COPY_STEPS
    ensures CopyStepOf(CopyOrder(k)) == k
  {
  }

  /** Buffer `d` after the first `k` writes of column `col`. */
  function WriteFields(d: seq<u8>, u: seq<u8>, conv: seq<u16>, col: nat, k: nat): (d': seq<u8>)
    requires IsTileBuffer(d) && IsTileBuffer(u) && col < TILE_COLUMNS && Convertible(u, |conv|, col)
    requires k <= COPY_STEPS
    ensures IsTileBuffer(d')
  {
    if k == 0 then d
    else
      var f := CopyOrder(k - 1);
      WriteField(WriteFields(d, u, conv, col, k - 1), f, col, Converted(u, conv, f, col))
  }

  /** After the first `k` writes, the fields written so far hold their
      converted values in column `col`, and every other field of every column
      is unchanged. */
  lemma {:induction false} WriteFieldsValue(d: seq<u8>, u: seq<u8>, conv: seq<u16>, col: nat, k: nat, g: Field, c: nat)
    requires IsTileBuffer(d) && IsTileBuffer(u) && col < TILE_COLUMNS && Convertible(u, |conv|, col)
    requires k <= COPY_STEPS && c < TILE_COLUMNS
    ensures FieldValue(WriteFields(d, u, conv, col, k), g, c)
         == if c == col && CopyStepOf(g) < k then Converted(u, conv, g, col) else FieldValue(d, g, c)
    decreases k, 1
  {
    if k > 0 {
      WriteFieldsStep(d, u, conv, col, k, g, c);
    }
  }

  /** Write `k - 1` of a column, after the first `k - 1` writes. */
  lemma {:induction false} WriteFieldsStep(d: seq<u8>, u: seq<u8>, conv: seq<u16>, col: nat, k: nat, g: Field, c: nat)
    requires IsTileBuffer(d) && IsTileBuffer(u) && col < TILE_COLUMNS && Convertible(u, |conv|, col)
    requires 0 < k <= COPY_STEPS && c < TILE_COLUMNS
    ensures FieldValue(WriteFields(d, u, conv, col, k), g, c)
         == if c == col && CopyStepOf(g) < k then Converted(u, conv, g, col) else FieldValue(d, g, c)
    decreases k, 0
  {
    WriteFieldsValue(d, u, conv, col, k - 1, g, c);
    CopyStepOfOrder(k - 1);
    if g == CopyOrder(k - 1) && c == col {
      WriteFieldsHit(d, u, conv, col, k, g);
    } else {
      WriteFieldsMiss(d, u, conv, col, k, g, c);
    }
  }

  /** Write `k - 1` sets the field it writes. */
  lemma WriteFieldsHit(d: seq<u8>, u: seq<u8>, conv: seq<u16>, col: nat, k: nat, g: Field)
    requires IsTileBuffer(d) && IsTileBuffer(u) && col < TILE_COLUMNS && Convertible(u, |conv|, col)
    requires 0 < k <= COPY_STEPS && g == CopyOrder(k - 1)
    ensures FieldValue(WriteFields(d, u, conv, col, k), g, col) == Converted(u, conv, g, col)
  {
    FieldValueAfterWrite(WriteFields(d, u, conv, col, k - 1), g, col, Converted(u, conv, g, col));
  }

  /** Write `k - 1` leaves every other field of every column alone. */
  lemma WriteFieldsMiss(d: seq<u8>, u: seq<u8>, conv: seq<u16>, col: nat, k: nat, g: Field, c: nat)
    requires IsTileBuffer(d) && IsTileBuffer(u) && col < TILE_COLUMNS && Convertible(u, |conv|, col)
    requires 0 < k <= COPY_STEPS && c < TILE_COLUMNS && (g != CopyOrder(k - 1) || c != col)
    ensures FieldValue(WriteFields(d, u, conv, col, k), g, c) == FieldValue(WriteFields(d, u, conv, col, k - 1), g, c)
  {
    var f := CopyOrder(k - 1);
    OtherFieldsAfterWrite(WriteFields(d, u, conv, col, k - 1), f, col, Converted(u, conv, f, col), g, c);
  }

  /** One `set_<field>(col, get_<field>(col))` of `copy_convert_chunk`, with
      blockstates sent through the converter: field `f`, written at step `k`,
      joins the writes done so far on column `col`. */
  method CopyField(conv: seq<u16>, out: Tile, under: Tile, col: nat, f: Field, k: nat,
                   ghost d0: seq<u8>, ghost u: seq<u8>)
    requires out.Valid() && under.Valid() && out.data != under.data && u == under.data[..]
    requires IsTileBuffer(d0) && col < TILE_COLUMNS && Convertible(u, |conv|, col)
    requires CopyStepOf(f) == k
    requires out.data[..] == WriteFields(d0, u, conv, col, k)
    modifies out.data
    ensures under.data[..] == u
    ensures out.data[..] == WriteFields(d0, u, conv, col, k + 1)
  {
    var value := under.Get(f, col);
    if f.IsBlockstate() {
      value := conv[value];
    }
    out.Set(f, col, value);
  }

  /** One column of `copy_convert_chunk`'s inner loop: nine fields copied and
      the four blockstates sent through the converter, in the source's order. */
  method CopyConvertColumn(conv: seq<u16>, out: Tile, under: Tile, col: nat)
    requires out.Valid() && under.Valid() && out.data != under.data
    requires col < TILE_COLUMNS && Convertible(under.data[..], |conv|, col)
    modifies out.data
    ensures out.data[..] == WriteFields(old(out.data[..]), under.data[..], conv, col, COPY_STEPS)
  {
    ghost var d0, u := out.data[..], under.data[..];
    CopyField(conv, out, under, col, Height, 0, d0, u);
    CopyField(conv, out, under, col, Light, 1, d0, u);
    CopyField(conv, out, under, col, OceanFloorHeight, 2, d0, u);
    CopyField(conv, out, under, col, OceanFloorLight, 3, d0, u);
    CopyField(conv, out, under, col, TransparentHeight, 4, d0, u);
    CopyField(conv, out, under, col, TransparentLight, 5, d0, u);
    CopyField(conv, out, under, col, FoliageHeight, 6, d0, u);
    CopyField(conv, out, under, col, FoliageLight, 7, d0, u);
    CopyField(conv, out, under, col, BiomeId, 8, d0, u);
    CopyField(conv, out, under, col, Blockstate, 9, d0, u);
    CopyField(conv, out, under, col, OceanFloorBlockstate, 10, d0, u);
    CopyField(conv, out, under, col, TransparentBlockstate, 11, d0, u);
    CopyField(conv, out, under, col, FoliageBlockstate, 12, d0, u);
  }

  /** A copied column holds the converted values of all its fields; every
      other column is unchanged. */
  lemma CopiedColumnFields(d: seq<u8>, u: seq<u8>, conv: seq<u16>, col: nat, g: Field, c: nat)
    requires IsTileBuffer(d) && IsTileBuffer(u) && col < TILE_COLUMNS && Convertible(u, |conv|, col)
    requires c < TILE_COLUMNS
    ensures FieldValue(WriteFields(d, u, conv, col, COPY_STEPS), g, c)
         == if c == col then Converted(u, conv, g, col) else FieldValue(d, g, c)
  {
    WriteFieldsValue(d, u, conv, col, COPY_STEPS, g, c);
  }

  /** The columns of chunk `chunk` at positions below `n` hold the converted
      fields of `u`; every other column still holds what it held in `d0`. */
  ghost predicate ChunkCopiedUpTo(d: seq<u8>, d0: seq<u8>, u: seq<u8>, conv: seq<u16>, chunk: nat, n: nat)
    requires IsTileBuffer(d) && IsTileBuffer(d0) && IsTileBuffer(u) && ChunkConvertible(u, |conv|, chunk)
  {
    forall g: Field, c: nat {:trigger FieldValue(d, g, c)} | c < TILE_COLUMNS ::
      FieldValue(d, g, c)
        == if ChunkOfColumn(c) == chunk && IndexInChunk(c) < n then Converted(u, conv, g, c) else FieldValue(d0, g, c)
  }

  /** Copying column `col`, at position `n` of the chunk, extends the copied
      prefix by one. */
  lemma ChunkCopyStep(d: seq<u8>, d': seq<u8>, d0: seq<u8>, u: seq<u8>, conv: seq<u16>, chunk: nat, n: nat, col: nat)
    requires IsTileBuffer(d) && IsTileBuffer(d0) && IsTileBuffer(u) && ChunkConvertible(u, |conv|, chunk)
    requires ChunkCopiedUpTo(d, d0, u, conv, chunk, n)
    requires col < TILE_COLUMNS && ChunkOfColumn(col) == chunk && IndexInChunk(col) == n
    requires Convertible(u, |conv|, col) && d' == WriteFields(d, u, conv, col, COPY_STEPS)
    ensures ChunkCopiedUpTo(d', d0, u, conv, chunk, n + 1)
  {
    forall g: Field, c: nat | c < TILE_COLUMNS
      ensures FieldValue(d', g, c)
        == if ChunkOfColumn(c) == chunk && IndexInChunk(c) < n + 1 then Converted(u, conv, g, c)
           else FieldValue(d0, g, c)
    {
      CopiedColumnFields(d, u, conv, col, g, c);
      if c != col && ChunkOfColumn(c) == chunk && IndexInChunk(c) == n {
        ColumnPlaceUnique(c, col);
      }
    }
  }

  /** Column `x`,`z` of a chunk whose columns are all convertible is a
      convertible column of that chunk. */
  lemma ColumnOfConvertibleChunk(u: seq<u8>, n: int, chunk: nat, z: nat, x: nat)
    requires IsTileBuffer(u) && chunk < TILE_CHUNKS && z < CHUNK_HEIGHT && x < CHUNK_WIDTH
    requires ChunkConvertible(u, n, chunk)
    ensures var col := FirstColumnNrOfChunkNr(chunk) + z * TILE_WIDTH + x;
      && col < TILE_COLUMNS && ChunkOfColumn(col) == chunk && IndexInChunk(col) == 16 * z + x
      && Convertible(u, n, col)
  {
    ColumnOfChunk(chunk, z, x);
  }

  /** `d'` is `d` with every column of `chunk` holding the converted fields of `u`. */
  ghost predicate ChunkCopied(d': seq<u8>, d: seq<u8>, u: seq<u8>, conv: seq<u16>, chunk: nat)
    requires IsTileBuffer(d') && IsTileBuffer(d) && IsTileBuffer(u) && chunk < TILE_CHUNKS
    requires ChunkConvertible(u, |conv|, chunk)
  {
    forall g: Field, c: nat {:trigger FieldValue(d', g, c)} | c < TILE_COLUMNS ::
      FieldValue(d', g, c) == if ChunkOfColumn(c) == chunk then Converted(u, conv, g, c) else FieldValue(d, g, c)
  }

  /** `copy_convert_chunk`: every column of the chunk gets the converted
      fields of `under`; the rest of `out` is unchanged. It always succeeds. */
  method CopyConvertChunk(conv: seq<u16>, out: Tile, under: Tile, chunk: nat) returns (r: Result<()>)
    requires out.Valid() && under.Valid() && out.data != under.data && chunk < TILE_CHUNKS
    requires ChunkConvertible(under.data[..], |conv|, chunk)
    modifies out.data
    ensures r == Ok(())
    ensures ChunkCopied(out.data[..], old(out.data[..]), under.data[..], conv, chunk)
  {
    ghost var d0, u := out.data[..], under.data[..];
    var firstChunkColumn := FirstColumnNrOfChunkNr(chunk);
    FirstColumnOfChunk(chunk);
    for zInChunk := 0 to CHUNK_HEIGHT
      invariant under.data[..] == u
      invariant ChunkCopiedUpTo(out.data[..], d0, u, conv, chunk, 16 * zInChunk)
    {
      var lineStart := firstChunkColumn + zInChunk * TILE_WIDTH;
      for xInChunk := 0 to CHUNK_WIDTH
        invariant under.data[..] == u
        invariant ChunkCopiedUpTo(out.data[..], d0, u, conv, chunk, 16 * zInChunk + xInChunk)
      {
        var columnNr := lineStart + xInChunk;
        ColumnOfConvertibleChunk(u, |conv|, chunk, zInChunk, xInChunk);
        ghost var before := out.data[..];
        CopyConvertColumn(conv, out, under, columnNr);
        ChunkCopyStep(before, out.data[..], d0, u, conv, chunk, 16 * zInChunk + xInChunk, columnNr);
      }
    }
    forall c: nat | c < TILE_COLUMNS
      ensures IndexInChunk(c) < 16 * CHUNK_HEIGHT
    {
      ChunkOfColumnBound(c);
    }
    return Ok(());
  }

  // ---------------------------------------------------------------------------
  // Merging one tile under the output tile

  /** The number of chunks not yet done. */
  function CountFalse(s: seq<bool>): (n: nat)
    ensures n <= |s|
  {
    if s == [] then 0 else CountFalse(s[..|s| - 1]) + (if s[|s| - 1] then 0 else 1)
  }

  /** Marking one chunk done lowers the count by one. */
  lemma {:induction false} CountFalseMark(s: seq<bool>, i: nat)
    requires i < |s| && !s[i]
    ensures CountFalse(s[i := true]) + 1 == CountFalse(s)
  {
    var last := |s| - 1;
    if i == last {
      assert s[i := true][..last] == s[..last];
    } else {
      assert s[i := true][..last] == s[..last][i := true];
      CountFalseMark(s[..last], i);
    }
  }

  /** The count is 0 exactly when every chunk is done. */
  lemma {:induction false} CountFalseZero(s: seq<bool>)
    ensures CountFalse(s) == 0 <==> forall i | 0 <= i < |s| :: s[i]
  {
    if s != [] {
      var last := |s| - 1;
      CountFalseZero(s[..last]);
      assert forall i | 0 <= i < last :: s[..last][i] == s[i];
    }
  }

  /** Chunk `ch` is taken from the tile under the output: it was not done and
      is not empty there. */
  predicate TakesChunk(done: seq<bool>, u: seq<u8>, ch: nat)
    requires |done| == TILE_CHUNKS && IsTileBuffer(u) && ch < TILE_CHUNKS
  {
    !done[ch] && !ChunkEmpty(u, ch)
  }

  /** Every chunk taken from `u` can be sent through a converter of length `n`. */
  predicate TakenChunksConvertible(done: seq<bool>, u: seq<u8>, n: int)
    requires |done| == TILE_CHUNKS && IsTileBuffer(u)
  {
    forall ch | 0 <= ch < TILE_CHUNKS && TakesChunk(done, u, ch) :: ChunkConvertible(u, n, ch)
  }

  /** The chunks below `n` that are taken hold the converted fields of `u`;
      all other columns still hold what they held in `d0`. */
  ghost predicate TilesMergedUpTo(d: seq<u8>, d0: seq<u8>, u: seq<u8>, conv: seq<u16>, done: seq<bool>, n: nat)
    requires IsTileBuffer(d) && IsTileBuffer(d0) && IsTileBuffer(u) && |done| == TILE_CHUNKS
    requires TakenChunksConvertible(done, u, |conv|)
  {
    forall g: Field, c: nat {:trigger FieldValue(d, g, c)} | c < TILE_COLUMNS ::
      FieldValue(d, g, c)
        == if ChunkOfColumn(c) < n && TakesChunk(done, u, ChunkOfColumn(c)) then Converted(u, conv, g, c)
           else FieldValue(d0, g, c)
  }

  /** The state of `merge_two_tiles`' loop after chunks 0..n-1: those taken
      are marked done and counted, and hold the converted fields of `u`. */
  ghost predicate MergeTwoInv(done: seq<bool>, processed: nat, d: seq<u8>,
                              d0: seq<u8>, u: seq<u8>, conv: seq<u16>, done0: seq<bool>, n: nat)
    requires IsTileBuffer(d) && IsTileBuffer(d0) && IsTileBuffer(u) && |done0| == TILE_CHUNKS
    requires TakenChunksConvertible(done0, u, |conv|)
  {
    && |done| == TILE_CHUNKS
    && (forall ch | 0 <= ch < TILE_CHUNKS :: done[ch] == if ch < n then done0[ch] || !ChunkEmpty(u, ch) else done0[ch])
    && processed + CountFalse(done) == CountFalse(done0)
    && TilesMergedUpTo(d, d0, u, conv, done0, n)
  }

  /** Chunk `n` is done already or empty in `u`: it is passed over. */
  lemma MergeTwoSkip(done: seq<bool>, processed: nat, d: seq<u8>,
                     d0: seq<u8>, u: seq<u8>, conv: seq<u16>, done0: seq<bool>, n: nat)
    requires IsTileBuffer(d) && IsTileBuffer(d0) && IsTileBuffer(u) && |done0| == TILE_CHUNKS
    requires TakenChunksConvertible(done0, u, |conv|) && n < TILE_CHUNKS
    requires MergeTwoInv(done, processed, d, d0, u, conv, done0, n)
    requires done[n] || ChunkEmpty(u, n)
    ensures MergeTwoInv(done, processed, d, d0, u, conv, done0, n + 1)
  {
  }

  /** Chunk `n` was copied and marked done: it is counted. */
  lemma MergeTwoCopy(done: seq<bool>, processed: nat, d: seq<u8>, d': seq<u8>,
                     d0: seq<u8>, u: seq<u8>, conv: seq<u16>, done0: seq<bool>, n: nat)
    requires IsTileBuffer(d) && IsTileBuffer(d') && IsTileBuffer(d0) && IsTileBuffer(u) && |done0| == TILE_CHUNKS
    requires TakenChunksConvertible(done0, u, |conv|) && n < TILE_CHUNKS
    requires MergeTwoInv(done, processed, d, d0, u, conv, done0, n)
    requires TakesChunk(done0, u, n) && ChunkCopied(d', d, u, conv, n)
    ensures MergeTwoInv(done[n := true], processed + 1, d', d0, u, conv, done0, n + 1)
  {
    CountFalseMark(done, n);
  }

  /** After the last chunk the loop state says which chunks were taken, how
      many, and what they now hold. */
  lemma MergeTwoEnd(done: seq<bool>, processed: nat, d: seq<u8>,
                    d0: seq<u8>, u: seq<u8>, conv: seq<u16>, done0: seq<bool>)
    requires IsTileBuffer(d) && IsTileBuffer(d0) && IsTileBuffer(u) && |done0| == TILE_CHUNKS
    requires TakenChunksConvertible(done0, u, |conv|)
    requires MergeTwoInv(done, processed, d, d0, u, conv, done0, TILE_CHUNKS)
    ensures |done| == TILE_CHUNKS
    ensures forall ch | 0 <= ch < TILE_CHUNKS :: done[ch] == (done0[ch] || !ChunkEmpty(u, ch))
    ensures processed + CountFalse(done) == CountFalse(done0)
    ensures TilesMergedUpTo(d, d0, u, conv, done0, TILE_CHUNKS)
  {
  }

  /** The chunk loop of `merge_two_tiles`: every chunk that is neither done
      nor empty in `under` is copied through `conv` and marked done; returns
      how many were copied. */
  method CopyTakenChunks(conv: seq<u16>, out: Tile, under: Tile, chunksDone: array<bool>) returns (processed: nat)
    requires out.Valid() && under.Valid() && out.data != under.data && chunksDone.Length == TILE_CHUNKS
    requires TakenChunksConvertible(chunksDone[..], under.data[..], |conv|)
    modifies out.data, chunksDone
    ensures forall ch | 0 <= ch < TILE_CHUNKS ::
      chunksDone[ch] == (old(chunksDone[ch]) || !ChunkEmpty(under.data[..], ch))
    ensures processed + CountFalse(chunksDone[..]) == CountFalse(old(chunksDone[..]))
    ensures TilesMergedUpTo(out.data[..], old(out.data[..]), under.data[..], conv, old(chunksDone[..]), TILE_CHUNKS)
  {
    ghost var d0, u, done0 := out.data[..], under.data[..], chunksDone[..];
    processed := 0;
    for chunkNr := 0 to TILE_CHUNKS
      invariant under.data[..] == u
      invariant MergeTwoInv(chunksDone[..], processed, out.data[..], d0, u, conv, done0, chunkNr)
    {
      if chunksDone[chunkNr] || under.IsChunkEmpty(chunkNr) {
        MergeTwoSkip(chunksDone[..], processed, out.data[..], d0, u, conv, done0, chunkNr);
        continue;
      }
      ghost var before := out.data[..];
      var res := CopyConvertChunk(conv, out, under, chunkNr);
      if res.Err? {
        // the `?` after copy_convert_chunk: it never fails
        assert false;
      }
      MergeTwoCopy(chunksDone[..], processed, before, out.data[..], d0, u, conv, done0, chunkNr);
      chunksDone[chunkNr] := true;
      processed := processed + 1;
    }
    MergeTwoEnd(chunksDone[..], processed, out.data[..], d0, u, conv, done0);
  }

  /** `merge_two_tiles`: grow the output key table by the names of `under`,
      then copy through the converter every chunk that is neither done nor
      empty in `under`, marking it done. Returns the number of chunks copied;
      it never fails. */
  method MergeTwoTiles(out: Tile, under: Tile, chunksDone: array<bool>) returns (r: Result<nat>, ghost conv: seq<u16>)
    requires out.Valid() && under.Valid() && out.data != under.data && chunksDone.Length == TILE_CHUNKS
    requires |out.keys.Keys + under.keys.Keys| <= 0xFFFF
    requires TakenChunksConvertible(chunksDone[..], under.data[..], 1 + MaxValue(under.keys))
    modifies out, out.data, chunksDone
    ensures r.Ok?
    ensures KeysGrown(old(out.keys), under.keys, out.keys) && ConverterFor(under.keys, out.keys, conv)
    ensures out.names == old(out.names) && out.pos == old(out.pos) && out.source == old(out.source)
    ensures forall ch | 0 <= ch < TILE_CHUNKS ::
      chunksDone[ch] == (old(chunksDone[ch]) || !ChunkEmpty(under.data[..], ch))
    ensures r.value + CountFalse(chunksDone[..]) == CountFalse(old(chunksDone[..]))
    ensures TilesMergedUpTo(out.data[..], old(out.data[..]), under.data[..], conv, old(chunksDone[..]), TILE_CHUNKS)
  {
    var converter;
    out.keys, converter := MergeKeysAndBuildConverter(out.keys, under.keys);
    var chunksProcessed := CopyTakenChunks(converter, out, under, chunksDone);
    return Ok(chunksProcessed), converter;
  }

  // ---------------------------------------------------------------------------
  // Candidates, most recent first

  /** A tile buffer of the modern layout. */
  type TileBuffer = d: seq<u8> | IsTileBuffer(d) witness seq(TILE_BYTES, _ => 0)

  /** What `read_tile` returns for a file: the buffer, the key table, the
      names vector and the position from the file name. */
  datatype Loaded = Loaded(data: TileBuffer, keys: map<string, u16>, names: seq<string>, pos: Option<(i32, i32)>)

  /** One contribution at the tile position: its path, its modification time
      and the outcome of `read_tile` on it. */
  datatype Contrib = Contrib(path: Path, mtime: int, read: Result<Loaded>)

  /** The indices 0 .. n-1 in order. */
  function Range(n: nat): (r: seq<nat>)
    ensures |r| == n && forall i | 0 <= i < n :: r[i] == i
  {
    seq(n, i => i)
  }

  /** Candidate `i` is visited before candidate `j`: it is more recent, or as
      recent and earlier in the input (`sort_by` is stable). */
  predicate VisitedBefore(cs: seq<Contrib>, i: nat, j: nat)
    requires i < |cs| && j < |cs|
  {
    cs[i].mtime > cs[j].mtime || (cs[i].mtime == cs[j].mtime && i < j)
  }

  predicate IndicesOf(cs: seq<Contrib>, idx: seq<nat>) {
    forall p | 0 <= p < |idx| :: idx[p] < |cs|
  }

  predicate SortedBy(cs: seq<Contrib>, idx: seq<nat>)
    requires IndicesOf(cs, idx)
  {
    forall p, q | 0 <= p < q < |idx| :: VisitedBefore(cs, idx[p], idx[q])
  }

  /** Insert index `i` in front of the first index it comes before. */
  function Insert(cs: seq<Contrib>, i: nat, idx: seq<nat>): (r: seq<nat>)
    requires i < |cs| && IndicesOf(cs, idx)
    ensures |r| == |idx| + 1 && multiset(r) == multiset(idx) + multiset{i}
    ensures IndicesOf(cs, r)
    ensures forall x :: x in r <==> x == i || x in idx
  {
    if idx == [] || VisitedBefore(cs, i, idx[0]) then [i] + idx
    else
      var rest := Insert(cs, i, idx[1..]);
      assert idx == [idx[0]] + idx[1..];
      assert forall p | 0 <= p < |rest| :: rest[p] in multiset(rest);
      [idx[0]] + rest
  }

  lemma {:induction false} InsertSorted(cs: seq<Contrib>, i: nat, idx: seq<nat>)
    requires i < |cs| && IndicesOf(cs, idx) && SortedBy(cs, idx) && i !in idx
    ensures SortedBy(cs, Insert(cs, i, idx))
  {
    if idx == [] || VisitedBefore(cs, i, idx[0]) {
      var r := [i] + idx;
      forall p, q | 0 <= p < q < |r| ensures VisitedBefore(cs, r[p], r[q]) {
        if p > 0 {
          assert r[p] == idx[p - 1] && r[q] == idx[q - 1];
        } else if idx != [] && q > 1 {
          assert VisitedBefore(cs, idx[0], idx[q - 1]);
        }
      }
    } else {
      var tail := idx[1..];
      var rest := Insert(cs, i, tail);
      assert VisitedBefore(cs, idx[0], i);
      InsertSorted(cs, i, tail);
      forall q | 0 <= q < |rest|
        ensures VisitedBefore(cs, idx[0], rest[q])
      {
        if rest[q] != i {
          assert rest[q] in rest;
          var p :| 0 <= p < |tail| && tail[p] == rest[q];
          assert idx[p + 1] == tail[p];
        }
      }
      var r := [idx[0]] + rest;
      forall p, q | 0 <= p < q < |r| ensures VisitedBefore(cs, r[p], r[q]) {
        if p > 0 {
          assert r[p] == rest[p - 1] && r[q] == rest[q - 1];
        }
      }
    }
  }

  /** Insertion sort of the indices 0 .. n-1. */
  function SortIdx(cs: seq<Contrib>, n: nat): (idx: seq<nat>)
    requires n <= |cs|
    ensures |idx| == n && IndicesOf(cs, idx)
    ensures multiset(idx) == multiset(Range(n))
    ensures forall i: nat :: i in idx <==> i < n
  {
    if n == 0 then []
    else
      var prev := SortIdx(cs, n - 1);
      assert Range(n) == Range(n - 1) + [n - 1];
      Insert(cs, n - 1, prev)
  }

  lemma {:induction false} SortIdxSorted(cs: seq<Contrib>, n: nat)
    requires n <= |cs|
    ensures SortedBy(cs, SortIdx(cs, n))
  {
    if n > 0 {
      var prev := SortIdx(cs, n - 1);
      SortIdxSorted(cs, n - 1);
      assert n - 1 !in multiset(Range(n - 1));
      InsertSorted(cs, n - 1, prev);
    }
  }

  /** The order in which `merge_tile_from_contribs` visits the candidates. */
  function SortOrder(cs: seq<Contrib>): (idx: seq<nat>)
    ensures |idx| == |cs| && IndicesOf(cs, idx)
  {
    SortIdx(cs, |cs|)
  }

  /** `sort_by(|a, b| mtime_b.cmp(mtime_a))`: the candidates, most recent first. */
  function SortByMtime(cs: seq<Contrib>): (s: seq<Contrib>)
    ensures |s| == |cs|
  {
    var idx := SortOrder(cs);
    seq(|cs|, p requires 0 <= p < |cs| => cs[idx[p]])
  }

  /** The sorted candidates are a permutation of the input, in descending
      mtime, with ties in input order. */
  lemma SortByMtimeSpec(cs: seq<Contrib>)
    ensures multiset(SortOrder(cs)) == multiset(Range(|cs|))
    ensures forall p | 0 <= p < |cs| :: SortByMtime(cs)[p] == cs[SortOrder(cs)[p]]
    ensures forall p, q | 0 <= p < q < |cs| :: SortByMtime(cs)[p].mtime >= SortByMtime(cs)[q].mtime
    ensures forall p, q | 0 <= p < q < |cs| && SortByMtime(cs)[p].mtime == SortByMtime(cs)[q].mtime ::
      SortOrder(cs)[p] < SortOrder(cs)[q]
  {
    SortIdxSorted(cs, |cs|);
  }

  /** `min_mtime`, the mtime of the last sorted candidate, is the oldest of
      all candidates. */
  lemma OldestIsLast(cs: seq<Contrib>)
    requires |cs| >= 1
    ensures forall i | 0 <= i < |cs| :: SortByMtime(cs)[|cs| - 1].mtime <= cs[i].mtime
  {
    var idx := SortOrder(cs);
    SortIdxSorted(cs, |cs|);
    forall i | 0 <= i < |cs|
      ensures SortByMtime(cs)[|cs| - 1].mtime <= cs[i].mtime
    {
      assert i in idx;
      var p :| 0 <= p < |idx| && idx[p] == i;
      if p < |cs| - 1 {
        assert VisitedBefore(cs, idx[p], idx[|cs| - 1]);
      }
    }
  }

  // ---------------------------------------------------------------------------
  // What the candidate loop reads, uses and skips

  /** What `read_tile` yields for a candidate: its buffer, or the error. */
  function ReadOutcome(c: Contrib): (r: Result<seq<u8>>)
    ensures r.Ok? ==> IsTileBuffer(r.value)
  {
    if c.read.Err? then Err(c.read.error) else Ok(c.read.value.data)
  }

  /** The key table of a candidate that was read. */
  function KeysOf(c: Contrib): map<string, u16>
    requires c.read.Ok?
  {
    c.read.value.keys
  }

  /** Every non-empty chunk of `u` holds blockstates below `n`. */
  predicate TileConvertible(u: seq<u8>, n: int)
    requires IsTileBuffer(u)
  {
    forall ch | 0 <= ch < TILE_CHUNKS && !ChunkEmpty(u, ch) :: ChunkConvertible(u, n, ch)
  }

  /** The converter built for a candidate that was read covers the
      blockstates of its non-empty chunks (otherwise `copy_convert_chunk`
      indexes out of range and panics). */
  predicate ConverterCovers(c: Contrib) {
    c.read.Ok? ==> TileConvertible(c.read.value.data, 1 + MaxValue(c.read.value.keys))
  }

  predicate AllConverterCovers(s: seq<Contrib>) {
    forall j | 0 <= j < |s| :: ConverterCovers(s[j])
  }

  /** Candidate `c` supplies chunk `ch` unless an earlier one did: it was read
      and the chunk is not empty in it. */
  predicate Supplies(c: Contrib, ch: nat)
    requires ch < TILE_CHUNKS
  {
    ReadOutcome(c).Ok? && !ChunkEmpty(ReadOutcome(c).value, ch)
  }

  /** The first of the candidates s[0..k] that supplies chunk `ch`. */
  function FirstSupplier(s: seq<Contrib>, k: nat, ch: nat): (r: Option<nat>)
    requires k <= |s| && ch < TILE_CHUNKS
    ensures r.Some? ==> r.value < k && Supplies(s[r.value], ch)
    ensures forall j | 0 <= j < k && Supplies(s[j], ch) :: r.Some? && r.value <= j
  {
    if k == 0 then None
    else
      var prev := FirstSupplier(s, k - 1, ch);
      if prev.Some? then prev
      else if Supplies(s[k - 1], ch) then Some(k - 1)
      else None
  }

  /** `chunks_done` after the candidates s[0..k]. */
  function DoneAfter(s: seq<Contrib>, k: nat): (done: seq<bool>)
    requires k <= |s|
    ensures |done| == TILE_CHUNKS
  {
    seq(TILE_CHUNKS, ch requires 0 <= ch < TILE_CHUNKS => FirstSupplier(s, k, ch).Some?)
  }

  /** The paths of the candidates among s[0..k] that were read (`used`). */
  function UsedUpTo(s: seq<Contrib>, k: nat): seq<Path>
    requires k <= |s|
  {
    if k == 0 then []
    else UsedUpTo(s, k - 1) + if ReadOutcome(s[k - 1]).Ok? then [s[k - 1].path] else []
  }

  /** The candidates among s[0..k] that could not be read, with the error (`skipped`). */
  function SkippedUpTo(s: seq<Contrib>, k: nat): seq<(Path, string)>
    requires k <= |s|
  {
    if k == 0 then []
    else SkippedUpTo(s, k - 1) + if ReadOutcome(s[k - 1]).Err? then [(s[k - 1].path, ReadOutcome(s[k - 1]).error)] else []
  }

  /** Each visited candidate is either used or skipped, never both. */
  lemma {:induction false} UsedSkippedPartition(s: seq<Contrib>, k: nat)
    requires k <= |s|
    ensures |UsedUpTo(s, k)| + |SkippedUpTo(s, k)| == k
    ensures |UsedUpTo(s, k)| == |set j | 0 <= j < k && ReadOutcome(s[j]).Ok?|
  {
    if k > 0 {
      UsedSkippedPartition(s, k - 1);
      var prev := set j | 0 <= j < k - 1 && ReadOutcome(s[j]).Ok?;
      var now := set j | 0 <= j < k && ReadOutcome(s[j]).Ok?;
      if ReadOutcome(s[k - 1]).Ok? {
        assert now == prev + {k - 1};
      } else {
        assert now == prev;
      }
    }
  }

  /** The block names of the candidates among s[0..k] that were read. */
  ghost function NamesUpTo(s: seq<Contrib>, k: nat): set<string>
    requires k <= |s|
  {
    if k == 0 then {}
    else NamesUpTo(s, k - 1) + if ReadOutcome(s[k - 1]).Ok? then KeysOf(s[k - 1]).Keys else {}
  }

  /** Field `g` of column `c` of `d` came from `u`: verbatim, or for a
      blockstate through a name `keysIn` and `keysOut` share. */
  ghost predicate FieldFrom(d: seq<u8>, u: seq<u8>, keysIn: map<string, u16>, keysOut: map<string, u16>, g: Field, c: nat)
    requires IsTileBuffer(d) && IsTileBuffer(u) && c < TILE_COLUMNS
  {
    if g.IsBlockstate() then ConvertsTo(keysIn, keysOut, FieldValue(u, g, c), FieldValue(d, g, c))
    else FieldValue(d, g, c) == FieldValue(u, g, c)
  }

  /** Field `g` of column `c` of `d` holds what its chunk's first supplier
      among s[0..k] has there, its block ids renumbered into `keys`; a chunk
      nobody supplied is zero. */
  ghost predicate FieldMergedFrom(d: seq<u8>, s: seq<Contrib>, k: nat, keys: map<string, u16>, g: Field, c: nat)
    requires IsTileBuffer(d) && k <= |s| && c < TILE_COLUMNS
  {
    var supplier := FirstSupplier(s, k, ChunkOfColumn(c));
    if supplier.None? then FieldValue(d, g, c) == 0
    else FieldFrom(d, ReadOutcome(s[supplier.value]).value, KeysOf(s[supplier.value]), keys, g, c)
  }

  /** Every field of every column of `d` is merged from s[0..k]. */
  ghost predicate MergedFrom(d: seq<u8>, s: seq<Contrib>, k: nat, keys: map<string, u16>)
    requires IsTileBuffer(d) && k <= |s|
  {
    forall g: Field, c: nat | c < TILE_COLUMNS :: FieldMergedFrom(d, s, k, keys, g, c)
  }

  /** `merged` keeps every name of `keysOut` with its id. */
  ghost predicate KeepsIds(keysOut: map<string, u16>, merged: map<string, u16>) {
    forall n | n in keysOut :: n in merged && merged[n] == keysOut[n]
  }

  /** A renumbering into a key table stays valid as the table grows. */
  lemma ConvertsToGrows(keysIn: map<string, u16>, keysOut: map<string, u16>,
                        merged: map<string, u16>, id: int, v: int)
    requires KeepsIds(keysOut, merged) && ConvertsTo(keysIn, keysOut, id, v)
    ensures ConvertsTo(keysIn, merged, id, v)
  {
    if id in keysIn.Values {
      var n :| n in keysIn && keysIn[n] == id && n in keysOut && keysOut[n] == v;
      assert merged[n] == v;
    }
  }

  /** The state of `merge_tile_from_contribs`' loop after the candidates
      s[0..k]: the output buffer, key table, done bitmap, countdown and the
      used/skipped lists. */
  ghost predicate ContribsLoopInv(s: seq<Contrib>, k: nat, d: seq<u8>, keys: map<string, u16>,
                                  done: seq<bool>, numLeft: int, used: seq<Path>, skipped: seq<(Path, string)>)
    requires k <= |s|
  {
    && IsTileBuffer(d)
    && done == DoneAfter(s, k)
    && numLeft == CountFalse(done)
    && used == UsedUpTo(s, k) && skipped == SkippedUpTo(s, k)
    && DenseIds(keys) && (forall n :: n in keys <==> n in NamesUpTo(s, k))
    && MergedFrom(d, s, k, keys)
  }

  lemma ContribsLoopStart(s: seq<Contrib>, d: seq<u8>, done: seq<bool>)
    requires IsTileBuffer(d) && forall i | 0 <= i < |d| :: d[i] == 0
    requires done == seq(TILE_CHUNKS, _ => false)
    ensures ContribsLoopInv(s, 0, d, map[], done, TILE_CHUNKS, [], [])
  {
    assert done == DoneAfter(s, 0);
    CountFalseAllFalse(done);
    MergedFromZero(s, d);
  }

  lemma MergedFromZero(s: seq<Contrib>, d: seq<u8>)
    requires IsTileBuffer(d) && forall i | 0 <= i < |d| :: d[i] == 0
    ensures MergedFrom(d, s, 0, map[])
  {
    forall g: Field, c: nat | c < TILE_COLUMNS
      ensures FieldMergedFrom(d, s, 0, map[], g, c)
    {
      assert d[Index(c, g.Layer())] == 0;
      if g.Wide() {
        assert d[Index(c, g.Layer() + 1)] == 0;
      }
    }
  }

  /** The countdown starts at the number of chunks. */
  lemma {:induction false} CountFalseAllFalse(s: seq<bool>)
    requires forall i | 0 <= i < |s| :: !s[i]
    ensures CountFalse(s) == |s|
  {
    if s != [] {
      CountFalseAllFalse(s[..|s| - 1]);
    }
  }

  /** Candidate k could not be read: it is skipped with its error and nothing
      else changes. */
  lemma ContribsLoopSkip(s: seq<Contrib>, k: nat, d: seq<u8>, keys: map<string, u16>,
                         done: seq<bool>, numLeft: int, used: seq<Path>, skipped: seq<(Path, string)>)
    requires k < |s| && ReadOutcome(s[k]).Err?
    requires ContribsLoopInv(s, k, d, keys, done, numLeft, used, skipped)
    ensures ContribsLoopInv(s, k + 1, d, keys, done, numLeft, used, skipped + [(s[k].path, ReadOutcome(s[k]).error)])
  {
    forall ch | 0 <= ch < TILE_CHUNKS
      ensures FirstSupplier(s, k + 1, ch) == FirstSupplier(s, k, ch)
    {
    }
    assert DoneAfter(s, k + 1) == DoneAfter(s, k);
    assert UsedUpTo(s, k + 1) == UsedUpTo(s, k) + [];
    assert NamesUpTo(s, k + 1) == NamesUpTo(s, k) + {};
    MergedFromSkip(s, k, d, keys);
  }

  lemma MergedFromSkip(s: seq<Contrib>, k: nat, d: seq<u8>, keys: map<string, u16>)
    requires k < |s| && IsTileBuffer(d)
    requires forall ch | 0 <= ch < TILE_CHUNKS :: FirstSupplier(s, k + 1, ch) == FirstSupplier(s, k, ch)
    requires MergedFrom(d, s, k, keys)
    ensures MergedFrom(d, s, k + 1, keys)
  {
    var next := k + 1;
    forall g: Field, c: nat | c < TILE_COLUMNS
      ensures FieldMergedFrom(d, s, next, keys, g, c)
    {
      assert FieldMergedFrom(d, s, k, keys, g, c);
      assert FirstSupplier(s, next, ChunkOfColumn(c)) == FirstSupplier(s, k, ChunkOfColumn(c));
    }
  }

  /** One field after candidate k was merged under the output: chunks
      supplied before keep their value (their names keep their ids), chunks k
      supplies first get its renumbered fields, the rest stay zero. */
  lemma FieldMergedStep(s: seq<Contrib>, k: nat, d: seq<u8>, d': seq<u8>, keys: map<string, u16>,
                        keys': map<string, u16>, g: Field, c: nat)
    requires k < |s| && ReadOutcome(s[k]).Ok? && c < TILE_COLUMNS
    requires IsTileBuffer(d) && IsTileBuffer(d')
    requires FieldMergedFrom(d, s, k, keys, g, c) && KeepsIds(keys, keys')
    requires FirstSupplier(s, k, ChunkOfColumn(c)).None? && Supplies(s[k], ChunkOfColumn(c)) ==>
      FieldFrom(d', ReadOutcome(s[k]).value, KeysOf(s[k]), keys', g, c)
    requires FirstSupplier(s, k, ChunkOfColumn(c)).Some? || !Supplies(s[k], ChunkOfColumn(c)) ==>
      FieldValue(d', g, c) == FieldValue(d, g, c)
    ensures FieldMergedFrom(d', s, k + 1, keys', g, c)
  {
    var ch := ChunkOfColumn(c);
    var before := FirstSupplier(s, k, ch);
    if before.Some? {
      assert FirstSupplier(s, k + 1, ch) == before;
      var j := before.value;
      if g.IsBlockstate() {
        ConvertsToGrows(KeysOf(s[j]), keys, keys', FieldValue(ReadOutcome(s[j]).value, g, c), FieldValue(d, g, c));
      }
    } else if Supplies(s[k], ch) {
      assert FirstSupplier(s, k + 1, ch) == Some(k);
    } else {
      assert FirstSupplier(s, k + 1, ch).None?;
    }
  }

  /** The whole buffer after candidate k was merged under the output. */
  lemma MergedFromRead(s: seq<Contrib>, k: nat, d: seq<u8>, d': seq<u8>, keys: map<string, u16>,
                       keys': map<string, u16>, done: seq<bool>, conv: seq<u16>)
    requires k < |s| && ReadOutcome(s[k]).Ok?
    requires IsTileBuffer(d) && IsTileBuffer(d') && done == DoneAfter(s, k)
    requires MergedFrom(d, s, k, keys) && KeepsIds(keys, keys')
    requires forall i | 0 <= i < |conv| :: ConvertsTo(KeysOf(s[k]), keys', i, conv[i])
    requires TakenChunksConvertible(done, ReadOutcome(s[k]).value, |conv|)
    requires TilesMergedUpTo(d', d, ReadOutcome(s[k]).value, conv, done, TILE_CHUNKS)
    ensures MergedFrom(d', s, k + 1, keys')
  {
    var u := ReadOutcome(s[k]).value;
    var next := k + 1;
    forall g: Field, c: nat | c < TILE_COLUMNS
      ensures FieldMergedFrom(d', s, next, keys', g, c)
    {
      var ch := ChunkOfColumn(c);
      assert FieldMergedFrom(d, s, k, keys, g, c);
      assert FieldValue(d', g, c)
        == if ch < TILE_CHUNKS && TakesChunk(done, u, ch) then Converted(u, conv, g, c) else FieldValue(d, g, c);
      assert TakesChunk(done, u, ch) <==> FirstSupplier(s, k, ch).None? && Supplies(s[k], ch);
      if TakesChunk(done, u, ch) && g.IsBlockstate() {
        var id := FieldValue(u, g, c);
        assert ConvertsTo(KeysOf(s[k]), keys', id, conv[id]);
      }
      FieldMergedStep(s, k, d, d', keys, keys', g, c);
    }
  }

  /** Candidate k was read and merged under the output: it is used, the
      countdown drops by the chunks it supplied, and the buffer and key table
      take in its chunks and names. */
  lemma ContribsLoopRead(s: seq<Contrib>, k: nat, d: seq<u8>, d': seq<u8>, keys: map<string, u16>,
                         keys': map<string, u16>, done: seq<bool>, done': seq<bool>, numLeft: int,
                         processed: nat, used: seq<Path>, skipped: seq<(Path, string)>, conv: seq<u16>)
    requires k < |s| && ReadOutcome(s[k]).Ok?
    requires ContribsLoopInv(s, k, d, keys, done, numLeft, used, skipped)
    requires IsTileBuffer(d') && MergedUnder(s[k].read.value, keys, keys', conv, d, d', done, done', processed)
    ensures ContribsLoopInv(s, k + 1, d', keys', done', numLeft - processed, used + [s[k].path], skipped)
  {
    assert KeepsIds(keys, keys');
    MergedFromRead(s, k, d, d', keys, keys', done, conv);
    DoneAfterRead(s, k, done, done');
    assert SkippedUpTo(s, k + 1) == SkippedUpTo(s, k) + [];
    KeysAfterRead(s, k, keys, keys');
  }

  lemma DoneAfterRead(s: seq<Contrib>, k: nat, done: seq<bool>, done': seq<bool>)
    requires k < |s| && ReadOutcome(s[k]).Ok? && done == DoneAfter(s, k) && |done'| == TILE_CHUNKS
    requires forall ch | 0 <= ch < TILE_CHUNKS :: done'[ch] == (done[ch] || !ChunkEmpty(ReadOutcome(s[k]).value, ch))
    ensures done' == DoneAfter(s, k + 1)
  {
    forall ch | 0 <= ch < TILE_CHUNKS
      ensures done'[ch] == DoneAfter(s, k + 1)[ch]
    {
    }
  }

  lemma KeysAfterRead(s: seq<Contrib>, k: nat, keys: map<string, u16>, keys': map<string, u16>)
    requires k < |s| && ReadOutcome(s[k]).Ok?
    requires DenseIds(keys) && (forall n :: n in keys <==> n in NamesUpTo(s, k))
    requires KeysGrown(keys, KeysOf(s[k]), keys')
    ensures DenseIds(keys') && (forall n :: n in keys' <==> n in NamesUpTo(s, k + 1))
  {
    var next := k + 1;
    forall n
      ensures n in keys' <==> n in NamesUpTo(s, next)
    {
      assert n in NamesUpTo(s, next) <==> n in NamesUpTo(s, k) || n in KeysOf(s[k]);
    }
    KeysGrownKeepsDense(keys, KeysOf(s[k]), keys');
  }

  /** Each name among those of s[0..k] comes from a candidate there that
      was read. */
  lemma {:induction false} NameSource(s: seq<Contrib>, k: nat, n: string) returns (j: nat)
    requires k <= |s| && n in NamesUpTo(s, k)
    ensures j < k && ReadOutcome(s[j]).Ok? && n in KeysOf(s[j])
  {
    if n in NamesUpTo(s, k - 1) {
      j := NameSource(s, k - 1, n);
    } else {
      j := k - 1;
    }
  }

  /** The names of every candidate read among s[0..k] are among NamesUpTo(s, k). */
  lemma {:induction false} NameIncluded(s: seq<Contrib>, k: nat, j: nat, n: string)
    requires k <= |s| && j < k && ReadOutcome(s[j]).Ok? && n in KeysOf(s[j])
    ensures n in NamesUpTo(s, k)
  {
    if j < k - 1 {
      NameIncluded(s, k - 1, j, n);
    }
  }

  lemma SortedConverterCovers(cs: seq<Contrib>)
    requires AllConverterCovers(cs)
    ensures AllConverterCovers(SortByMtime(cs))
  {
    var s := SortByMtime(cs);
    var idx := SortOrder(cs);
    forall p | 0 <= p < |s|
      ensures ConverterCovers(s[p])
    {
      assert s[p] == cs[idx[p]];
    }
  }

  /** Sorting brings no new names. */
  lemma SortedNames(cs: seq<Contrib>)
    ensures |NamesUpTo(SortByMtime(cs), |cs|)| <= |NamesUpTo(cs, |cs|)|
  {
    SortByMtimeSpec(cs);
    PermutedNames(cs, SortByMtime(cs), SortOrder(cs));
  }

  lemma PermutedNames(cs: seq<Contrib>, s: seq<Contrib>, idx: seq<nat>)
    requires |s| == |cs| == |idx|
    requires forall p | 0 <= p < |s| :: idx[p] < |cs| && s[p] == cs[idx[p]]
    ensures |NamesUpTo(s, |s|)| <= |NamesUpTo(cs, |cs|)|
  {
    forall n | n in NamesUpTo(s, |s|)
      ensures n in NamesUpTo(cs, |cs|)
    {
      var j := NameSource(s, |s|, n);
      NameIncluded(cs, |cs|, idx[j], n);
    }
    SubsetCard(NamesUpTo(s, |s|), NamesUpTo(cs, |cs|));
  }

  /** The output table and the next candidate's names fit in 16-bit ids when
      all names of all candidates do. */
  lemma KeysFit(s: seq<Contrib>, k: nat, keys: map<string, u16>)
    requires |NamesUpTo(s, |s|)| <= 0xFFFF
    requires k < |s| && ReadOutcome(s[k]).Ok?
    requires forall n :: n in keys <==> n in NamesUpTo(s, k)
    ensures |keys.Keys + KeysOf(s[k]).Keys| <= 0xFFFF
  {
    var both := keys.Keys + KeysOf(s[k]).Keys;
    forall n | n in both
      ensures n in NamesUpTo(s, |s|)
    {
      var j := k;
      if n in keys {
        j := NameSource(s, k, n);
      }
      NameIncluded(s, |s|, j, n);
    }
    SubsetCard(both, NamesUpTo(s, |s|));
  }

  /** Every chunk a candidate supplies is one the converter covers. */
  lemma ConvertibleTakes(done: seq<bool>, u: seq<u8>, n: int)
    requires |done| == TILE_CHUNKS && IsTileBuffer(u) && TileConvertible(u, n)
    ensures TakenChunksConvertible(done, u, n)
  {
  }

  /** Tile `t` merged under an output tile: the key table `keys` grew to
      `keys'` by the names of `t`, `conv` converts `t`'s ids, the chunks `t`
      supplies are marked done, `processed` counts them, and buffer `d'` is
      `d` with those chunks copied from `t` through `conv`. */
  ghost predicate MergedUnder(t: Loaded, keys: map<string, u16>, keys': map<string, u16>, conv: seq<u16>,
                              d: seq<u8>, d': seq<u8>, done: seq<bool>, done': seq<bool>, processed: nat)
    requires IsTileBuffer(d) && IsTileBuffer(d') && |done| == TILE_CHUNKS
  {
    && KeysGrown(keys, t.keys, keys') && ConverterFor(t.keys, keys', conv)
    && |done'| == TILE_CHUNKS
    && (forall ch | 0 <= ch < TILE_CHUNKS :: done'[ch] == (done[ch] || !ChunkEmpty(t.data, ch)))
    && processed + CountFalse(done') == CountFalse(done)
    && TakenChunksConvertible(done, t.data, |conv|)
    && TilesMergedUpTo(d', d, t.data, conv, done, TILE_CHUNKS)
  }

  /** The tile `read_tile` gave for candidate `c`, merged under `outTile`. */
  method MergeCandidate(c: Contrib, outTile: Tile, chunksDone: array<bool>) returns (r: Result<nat>, ghost conv: seq<u16>)
    requires c.read.Ok? && ConverterCovers(c)
    requires outTile.Valid() && chunksDone.Length == TILE_CHUNKS
    requires |outTile.keys.Keys + c.read.value.keys.Keys| <= 0xFFFF
    modifies outTile, outTile.data, chunksDone
    ensures r.Ok? && IsTileBuffer(outTile.data[..]) && chunksDone.Length == TILE_CHUNKS
    ensures MergedUnder(c.read.value, old(outTile.keys), outTile.keys, conv, old(outTile.data[..]), outTile.data[..],
                        old(chunksDone[..]), chunksDone[..], r.value)
  {
    var loaded := c.read.value;
    var under := new Tile.FromParts(loaded.data, loaded.keys, loaded.names, loaded.pos, Some(c.path));
    ConvertibleTakes(chunksDone[..], under.data[..], 1 + MaxValue(under.keys));
    r, conv := MergeTwoTiles(outTile, under, chunksDone);
  }

  /** One turn of `merge_tile_from_contribs`' loop: read candidate k and,
      if that works, merge it under the output; the candidate is then used
      and the countdown drops by the chunks it supplied, otherwise it is
      skipped with the read error. */
  method VisitCandidate(s: seq<Contrib>, k: nat, outTile: Tile, chunksDone: array<bool>,
                        numLeft: int, used: seq<Path>, skipped: seq<(Path, string)>)
    returns (numLeft': int, used': seq<Path>, skipped': seq<(Path, string)>)
    requires k < |s| && AllConverterCovers(s) && |NamesUpTo(s, |s|)| <= 0xFFFF
    requires outTile.Valid() && chunksDone.Length == TILE_CHUNKS
    requires ContribsLoopInv(s, k, outTile.data[..], outTile.keys, chunksDone[..], numLeft, used, skipped)
    modifies outTile, outTile.data, chunksDone
    ensures ContribsLoopInv(s, k + 1, outTile.data[..], outTile.keys, chunksDone[..], numLeft', used', skipped')
  {
    var candidate := s[k];
    if candidate.read.Ok? {
      KeysFit(s, k, outTile.keys);
      ghost var d, keys, done := outTile.data[..], outTile.keys, chunksDone[..];
      var result, conv := MergeCandidate(candidate, outTile, chunksDone);
      ContribsLoopRead(s, k, d, outTile.data[..], keys, outTile.keys, done, chunksDone[..],
                       numLeft, result.value, used, skipped, conv);
      numLeft', used', skipped' := numLeft - result.value, used + [candidate.path], skipped;
    } else {
      ContribsLoopSkip(s, k, outTile.data[..], outTile.keys, chunksDone[..], numLeft, used, skipped);
      numLeft', used', skipped' := numLeft, used, skipped + [(candidate.path, candidate.read.error)];
    }
  }

  /** Chunks were still left after each of the first k candidates, so the
      loop went on past each of them. */
  ghost predicate LeftAfterEach(s: seq<Contrib>, k: nat)
    requires k <= |s|
  {
    k == 0 || (LeftAfterEach(s, k - 1) && CountFalse(DoneAfter(s, k)) > 0)
  }

  lemma {:induction false} LeftAfterEachMeans(s: seq<Contrib>, k: nat, j: nat)
    requires k <= |s| && LeftAfterEach(s, k) && 1 <= j <= k
    ensures CountFalse(DoneAfter(s, j)) > 0
  {
    if j < k {
      LeftAfterEachMeans(s, k - 1, j);
    }
  }

  /** The loop of `merge_tile_from_contribs`: visit the candidates of `s` in
      order until none is left or the countdown of chunks left reaches 0.
      `visited` is the number visited. */
  method VisitInOrder(s: seq<Contrib>, outTile: Tile, chunksDone: array<bool>)
    returns (numLeft: int, used: seq<Path>, skipped: seq<(Path, string)>, visited: nat)
    requires 1 <= |s| && AllConverterCovers(s) && |NamesUpTo(s, |s|)| <= 0xFFFF
    requires outTile.Valid() && chunksDone.Length == TILE_CHUNKS
    requires ContribsLoopInv(s, 0, outTile.data[..], outTile.keys, chunksDone[..], TILE_CHUNKS, [], [])
    modifies outTile, outTile.data, chunksDone
    ensures visited <= |s|
    ensures ContribsLoopInv(s, visited, outTile.data[..], outTile.keys, chunksDone[..], numLeft, used, skipped)
    ensures visited == |s| || CountFalse(DoneAfter(s, visited)) == 0
    ensures 1 <= visited && LeftAfterEach(s, visited - 1)
  {
    numLeft, used, skipped := TILE_CHUNKS, [], [];
    visited := 0;
    while visited < |s|
      invariant visited <= |s|
      invariant ContribsLoopInv(s, visited, outTile.data[..], outTile.keys, chunksDone[..], numLeft, used, skipped)
      invariant LeftAfterEach(s, visited)
    {
      numLeft, used, skipped := VisitCandidate(s, visited, outTile, chunksDone, numLeft, used, skipped);
      visited := visited + 1;
      if numLeft <= 0 {
        break;
      }
    }
  }

  /** The outcome of merging several candidates: the archive written for the
      output tile and the mtime it is given. */
  datatype Written = Written(archive: Archive, mtime: int)

  /** What merging the candidates `s`, most recent first, gives: the first
      `visited` candidates were visited, each used or skipped with its read
      error; the loop stopped at the end or once every chunk was done, and
      not before; the archive written holds a buffer and a key entry for the
      output key table `keys` in the order `order`, and carries the oldest
      candidate mtime; the key table holds dense ids for exactly the names of
      the candidates used, and every field of the buffer came from the most
      recent candidate supplying its chunk. */
  ghost predicate MergedInOrder(s: seq<Contrib>, used: seq<Path>, skipped: seq<(Path, string)>, w: Written,
                                visited: nat, keys: map<string, u16>, order: seq<string>)
  {
    && 1 <= visited <= |s|
    && used == UsedUpTo(s, visited) && skipped == SkippedUpTo(s, visited)
    && (visited == |s| || CountFalse(DoneAfter(s, visited)) == 0)
    && LeftAfterEach(s, visited - 1)
    && w.mtime == s[|s| - 1].mtime
    && w.archive.data.Some? && IsTileBuffer(w.archive.data.value)
    && Enumerates(order, keys)
    && w.archive == WrittenArchive(w.archive.data.value, keys, order)
    && DenseIds(keys) && (forall n :: n in keys <==> n in NamesUpTo(s, visited))
    && MergedFrom(w.archive.data.value, s, visited, keys)
  }

  /** The merge of several candidates already sorted most recent first. */
  method MergeSorted(s: seq<Contrib>)
    returns (used: seq<Path>, skipped: seq<(Path, string)>, written: Written,
             ghost visited: nat, ghost keys: map<string, u16>, ghost order: seq<string>)
    requires 1 <= |s| && AllConverterCovers(s) && |NamesUpTo(s, |s|)| <= 0xFFFF
    ensures MergedInOrder(s, used, skipped, written, visited, keys, order)
  {
    var minMtime := s[|s| - 1].mtime;
    var outTile := new Tile.Empty();
    var chunksDone := new bool[TILE_CHUNKS](_ => false);
    ContribsLoopStart(s, outTile.data[..], chunksDone[..]);
    var numChunksLeft, next;
    numChunksLeft, used, skipped, next := VisitInOrder(s, outTile, chunksDone);
    var archive;
    archive, order := WriteTile(outTile);
    visited, keys := next, outTile.keys;
    written := Written(archive, minMtime);
  }

  /** `merge_tile_from_contribs`. One candidate is hard-linked to the output
      (`link` is the outcome); several are sorted most recent first and
      merged as `MergedInOrder` says. */
  method MergeTileFromContribs(contribs: seq<Contrib>, link: Result<()>)
    returns (used: seq<Path>, skipped: seq<(Path, string)>, written: Option<Written>,
             ghost visited: nat, ghost keys: map<string, u16>, ghost order: seq<string>)
    requires |contribs| >= 1
    requires |contribs| >= 2 ==> AllConverterCovers(contribs) && |NamesUpTo(contribs, |contribs|)| <= 0xFFFF
    ensures |contribs| == 1 ==>
      && written.None?
      && (link.Ok? ==> used == [contribs[0].path] && skipped == [])
      && (link.Err? ==> used == [] && skipped == [(contribs[0].path, link.error)])
    ensures |contribs| >= 2 ==>
      written.Some? && MergedInOrder(SortByMtime(contribs), used, skipped, written.value, visited, keys, order)
  {
    if |contribs| == 1 {
      // a single contribution is hard-linked to the destination
      var path := contribs[0].path;
      if link.Ok? {
        return [path], [], None, 0, map[], [];
      } else {
        return [], [(path, link.error)], None, 0, map[], [];
      }
    }
    var sorted := SortByMtime(contribs);
    SortedConverterCovers(contribs);
    SortedNames(contribs);
    var w;
    used, skipped, w, visited, keys, order := MergeSorted(sorted);
    written := Some(w);
  }
}
