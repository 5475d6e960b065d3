# voxelmap-cache in Dafny

This project models the core of voxelmap-cache, a set of Rust tools for
Voxelmap map caches and ReplayMod recordings.

A Voxelmap cache tile covers 256×256 map columns. It is a zip archive that
holds two entries:

- `data`: a layer-major byte buffer of 18 layers, each of 65536 columns;
- `key`: a text table that maps block-state names to the tile's own local
  ids, one `"<id> <name>\r\n"` line each.

The heart of the tools is `merge_caches`. It merges the many partial tiles
that players contributed for one position into a single tile. Candidates are
taken newest first, and each 16×16-column chunk comes from the newest
candidate that has it. Block ids are renumbered through a growing output key
table plus a per-candidate converter array.

Around the merge the project models:

- the tile byte layout, its field accessors and chunk geometry;
- the key-table text format;
- tile and region file names;
- the bounds option (`parse_bounds`) and the tile/bounding-box overlap test;
- a cursor reader for the Minecraft protocol (big-endian integers, VarInt,
  length-prefixed bytes, UUIDs);
- the packet decoder and the `.tmcpr` record framing of replays, with the
  memoised `parse_packet`;
- the column colourings;
- the per-biome block counter (`blockcount`);
- the block id/meta histogram of `worldstats`.

Modules, one per source file:

- `Common` (common.dfy): fixed-width integers, `Option`/`Result`/`Outcome`, and Rust's decimal parse/print, `splitn` and `lines`;
- `TileCodec` (tile.dfy): src/tile.rs;
- `MergeCaches` (merge.dfy): src/bin/merge_caches.rs;
- `VoxelLib` (voxel_lib.dfy): src/lib.rs;
- `BufRw` (buf_rw.dfy): src/buf_rw.rs;
- `Utf8` (utf8.dfy): the `str::from_utf8` check the chat packet relies on;
- `Packet` (packet.dfy): src/mc/packet.rs;
- `Replay` (replay.dfy): src/replay.rs;
- `Colors` (colorizer.dfy): src/colorizer.rs;
- `BlockCount` (blockcount.dfy): src/bin/blockcount.rs;
- `WorldStats` (worldstats.dfy): src/bin/worldstats.rs.

How the model treats the source's state and failures:

- **State changed in place stays imperative.** A `Tile` keeps its data in an
  `array<u8>`. The merge's chunk bitmap is an `array<bool>`. `BufReader`,
  `ReplayPacket` and `Replay` are classes whose methods advance or fill their
  fields. The worldstats counters are an `array<nat>`.
- **Each method is proved against a specification function or predicate.**
  Lemmas then state what the source promises about that function.
- **Panics are values.** A Rust panic (`unwrap`, `expect`, an out-of-range
  index) is the value `Panics` of `Outcome`.
- **Errors are values.** A returned error is `Err` of `Result`.
- **I/O becomes inputs.**
  - A zip archive that was read is an `Archive` value.
  - A candidate tile is a path, an mtime and the outcome of `read_tile`.
  - A region file is the outcome of loading its chunks.

## Model

| member | source | states |
|---|---|---|
| TileCodec.DerivedConstants | src/tile.rs:9-20 | a tile has 65536 columns and 256 chunks of 16×16 columns, and the modern buffer is 65536·18 bytes |
| TileCodec.FieldLayersPartition | src/tile.rs:22-34 | every layer a field uses is below 18, and each of the 18 layers belongs to exactly one field (16-bit fields take two consecutive layers) |
| TileCodec.FieldOfLayer | src/tile.rs:22-34 | the field that owns a layer covers it |
| TileCodec.Index | src/tile.rs:141-143 | the byte of (column, layer) lies inside the buffer, and its index gives back the column (mod 65536) and the layer (div 65536) |
| TileCodec.IndexInjective | src/tile.rs:141-158 | distinct (column, layer) pairs have distinct bytes |
| TileCodec.FieldValue | src/tile.rs:61-99 | an 8-bit field reads below 256 |
| TileCodec.WriteField | src/tile.rs:145-158 | a field write keeps the buffer at the tile size |
| TileCodec.WriteFieldBytes | src/tile.rs:150-158 | a write changes exactly the field's own byte(s) of that column (high byte in layer L, low byte in L+1) and no other byte |
| TileCodec.FieldValueAfterWrite | src/tile.rs:145-158 | reading a field after writing it gives the value written |
| TileCodec.OtherFieldsAfterWrite | src/tile.rs:101-158 | a write leaves every other field of every column, and the same field of every other column, unchanged |
| TileCodec.FirstColumnOfChunk | src/tile.rs:179-186 | the first column of chunk c is `column_nr_of_pos(16·(c%16), 16·(c/16))` and lies inside the tile |
| TileCodec.ChunkOfColumn | src/tile.rs:179-186 | every column of the tile belongs to one of the 256 chunks |
| TileCodec.ColumnOfChunk | src/tile.rs:179-186 | column (x, z) of chunk c lies in the tile, belongs to chunk c, and is its (16z+x)-th column |
| TileCodec.ColumnOfChunkUnique | src/tile.rs:179-186 | a column of chunk c at place 16z+x is that very column, so the copy loop visits each column of a chunk once |
| TileCodec.ColumnPlaceUnique | src/tile.rs:179-186 | two columns with the same chunk and the same place in it are equal |
| TileCodec.ChunkEmptyBytes | src/tile.rs:51-59 | a chunk is empty iff its first column has height 0, biome 0 and surface blockstate 0 |
| TileCodec.Tile.Empty | src/bin/merge_caches.rs:182-190 | a fresh tile has an all-zero buffer, no keys, no names, no position and no source |
| TileCodec.Tile.FromParts | src/tile.rs:240-246 | a tile built from a buffer, key table, names, position and source holds exactly those |
| TileCodec.Tile.Get | src/tile.rs:61-99 | the getters return the field value of the column; 8-bit fields are below 256 |
| TileCodec.Tile.SetU8 | src/tile.rs:150-153 | `set_u8` changes exactly the one byte at (column, layer) |
| TileCodec.Tile.SetU16 | src/tile.rs:154-158 | `set_u16` puts the high byte in layer L and the low byte in layer L+1 and changes nothing else |
| TileCodec.Tile.Set | src/tile.rs:101-139 | each setter writes its field as `WriteField` says, and the getter then reads the value back |
| TileCodec.KeysBelowMaxId | src/tile.rs:215-218 | every id of the parsed key table is at most the running maximum `max_key` |
| TileCodec.NonBlank | src/tile.rs:202-204 | the lines kept are non-empty lines of the input |
| TileCodec.BlankLinesSkipped | src/tile.rs:202-204 | empty key lines change neither the key table nor the maximum id |
| TileCodec.ReadKeys | src/tile.rs:194-222 | the key loop builds the table of the last id given to each name, and the largest id, which bounds every id |
| TileCodec.BuildNames | src/tile.rs:224-228 | the names vector has 1 + max_key entries, `names[id]` is a name with that id, and the unused slots hold `"?"` |
| TileCodec.WriteKeys | src/tile.rs:280-284 | the key entry is one `"<id> <name>\r\n"` line per key, in some enumeration order of the table |
| TileCodec.KeyBodyParses | src/tile.rs:205-214 | a written key line parses back to its id and name |
| TileCodec.KeyTableRoundTrip | src/tile.rs:280-284 | reading the key text that `write_tile` writes gives back the key table, whatever the enumeration order |
| TileCodec.DataOf | src/tile.rs:230-238 | the data entry gives a tile buffer iff it is present and at least 65536·18 bytes long (`read_exact`) |
| TileCodec.ReadTile | src/tile.rs:188-249 | `read_tile` fails with the archive's error or the data entry's, and otherwise builds a tile of the first 65536·18 data bytes, the parsed key table, the names vector, the position from the file name and the path as source |
| TileCodec.WriteTile | src/tile.rs:251-290 | `write_tile` writes the control entry, the buffer as the data entry and the key text |
| TileCodec.WriteReadRoundTrip | src/tile.rs:251-290 | reading back what `write_tile` wrote gives the same buffer and the same key table |
| TileCodec.XzFromTilePath | src/tile.rs:292-310 | names of at most 4 characters are an error; otherwise `Ok` iff the name without its last 4 characters has two comma fields that both parse as `i32`, the coordinates being those two values; the error is x's parse error, then "no z coord in filename", then z's parse error, in the source's order |
| TileCodec.TilePathOverflowExample | src/tile.rs:301-307 | `"99999999999x,0.zip"` fails with the overflow message, as `ParseIntError` reports it |
| TileCodec.ContribFromTilePath | src/tile.rs:312-324 | names of at most 4 characters are an error; otherwise the contributor exists iff the name without its last 4 characters has a third comma field |
| TileCodec.TileFileNameRoundTrip | src/tile.rs:292-324 | `x,z,contrib.ext` parses back to (x, z) and to the contributor |
| TileCodec.MergedFileNameRoundTrip | src/tile.rs:292-324 | a merged tile's name `x,z.ext` parses back to (x, z) and has no contributor |
| TileCodec.IsTilePosInBounds | src/tile.rs:357-365 | with the i32 products and sums wrapping as in a release build; for tile coordinates whose ×256 fits in `i32` it is the plain comparison of the tile's edges 256x, 256x+256 (and 256z, 256z+256) against w, e (and n, s) |
| TileCodec.TilePosInBoundsMeansOverlap | src/tile.rs:357-365 | for any box `parse_bounds` accepts (w ≤ e, n ≤ s, lines and points included) and tile coordinates without overflow, a tile is in bounds iff the inside of its 256×256 world square meets the closed box [w, e]×[n, s] |
| MergeCaches.MaxValue | src/bin/merge_caches.rs:256 | the largest id of a key table, or 0 for an empty table, bounds every id |
| MergeCaches.MergeKeysAndBuildConverter | src/bin/merge_caches.rs:255-267 | the output table keeps its names and ids and gains each new input name with a fresh id after the current size; the converter has 1 + max input id slots, and each slot holds the output id of a name with that input id, or 0 |
| MergeCaches.KeysGrownKeepsDense | src/bin/merge_caches.rs:257-263 | growing a table whose ids are exactly 1..n keeps its ids exactly 1..n' |
| MergeCaches.ConverterSlots | src/bin/merge_caches.rs:258-265 | slot 0 stays 0 unless some input name has id 0, and with distinct input ids each name's slot holds its output id |
| MergeCaches.CopyConvertColumn | src/bin/merge_caches.rs:278-309 | one column's 13 fields are written in the source order |
| MergeCaches.CopiedColumnFields | src/bin/merge_caches.rs:281-308 | after the column copy every field of that column holds its converted source value, and every other column is unchanged |
| MergeCaches.CopyConvertChunk | src/bin/merge_caches.rs:269-312 | the 256 columns of the chunk hold the converted fields of the source, every other column is unchanged, and the result is `Ok` |
| MergeCaches.CountFalse | src/bin/merge_caches.rs:192-193 | the count of chunks left is at most the number of chunks |
| MergeCaches.CountFalseMark | src/bin/merge_caches.rs:246-247 | marking a chunk that was not done lowers the count of chunks left by one |
| MergeCaches.CountFalseZero | src/bin/merge_caches.rs:210-212 | no chunk is left iff every chunk is done |
| MergeCaches.CopyTakenChunks | src/bin/merge_caches.rs:238-248 | a chunk becomes done iff it was done or is non-empty in the source; the count returned is the drop in chunks left; exactly the chunks taken are copied |
| MergeCaches.MergeTwoTiles | src/bin/merge_caches.rs:229-251 | `merge_two_tiles` grows the key table, converts with that converter, takes exactly the chunks not done and non-empty in the source, returns how many, and keeps `chunks_done` and the count in step |
| MergeCaches.SortIdxSorted | src/bin/merge_caches.rs:170-175 | the insertion order is sorted by descending mtime, ties in the original order |
| MergeCaches.SortByMtimeSpec | src/bin/merge_caches.rs:170-175 | the sorted candidates are a permutation of the input in descending mtime, stable on ties |
| MergeCaches.OldestIsLast | src/bin/merge_caches.rs:176-177 | the last sorted candidate has the oldest mtime of all candidates, used or not |
| MergeCaches.ReadOutcome | src/bin/merge_caches.rs:197-198 | a candidate that was read gives a tile buffer |
| MergeCaches.FirstSupplier | src/bin/merge_caches.rs:196-213 | the supplier of a chunk is the first candidate read that has the chunk non-empty |
| MergeCaches.UsedSkippedPartition | src/bin/merge_caches.rs:199-208 | each visited candidate lands in exactly one of `used` and `skipped`, and `used` holds those read |
| MergeCaches.ContribsLoopSkip | src/bin/merge_caches.rs:204-207 | a failed read is pushed to `skipped` with its error and changes no chunk and no count |
| MergeCaches.ContribsLoopRead | src/bin/merge_caches.rs:199-203 | a successful merge is pushed to `used` and lowers the count by the chunks it took |
| MergeCaches.MergeCandidate | src/bin/merge_caches.rs:197-198 | reading a candidate and merging it under the output tile is `merge_two_tiles` on that tile |
| MergeCaches.VisitCandidate | src/bin/merge_caches.rs:196-213 | one turn of the loop keeps the loop's state as the first k+1 candidates define it |
| MergeCaches.VisitInOrder | src/bin/merge_caches.rs:196-213 | the loop stops at the end of the candidates or as soon as no chunk is left, and not before |
| MergeCaches.MergeSorted | src/bin/merge_caches.rs:170-226 | several candidates: every field of the written buffer comes from the newest candidate supplying its chunk, renumbered into a key table with ids exactly 1..n over the names of the candidates used; the output carries the oldest mtime |
| MergeCaches.MergeTileFromContribs | src/bin/merge_caches.rs:157-227 | one candidate is hard-linked: used on success, skipped with the error otherwise; several are sorted newest first and merged as `MergeSorted` states |
| VoxelLib.BlockNameIndex | src/lib.rs:14-18 | the index `(vm_b<<4) \| (vm_a>>4)` is below 4096, with vm_b as the id and the high nibble of vm_a as the meta |
| VoxelLib.BlockNameIndexOnto | src/lib.rs:14-18 | every index of the block table is reached |
| VoxelLib.BlockNameFromVoxelmap | src/lib.rs:14-18 | the name returned is an entry of the block table |
| Common.WrapI32 | src/lib.rs:101 | the value is congruent mod 2^32 and in `i32` range, unchanged when it fits |
| Common.DecimalValue | src/lib.rs:101-102 | the integer a sign and decimal digits denote, the reference reading for `str::parse` |
| Common.Accumulate | src/lib.rs:101-102 | the digit loop of `from_str_radix` succeeds iff every character is a digit and the value is within the bound, and then gives that value; a run of digits beyond the bound is the overflow error |
| Common.AccumulatePrefix | src/lib.rs:101-102 | once a prefix fails, the whole run fails with the same error |
| Common.AccumulateInvalid | src/lib.rs:101-102 | a non-digit after an in-range prefix of digits is the invalid-digit error, whatever follows |
| Common.AccumulateOverflow | src/lib.rs:101-102 | a prefix of digits beyond the bound is the overflow error, whatever follows |
| Common.ParseInteger | src/lib.rs:101-102 | `Ok` iff the text is a decimal in the type's range, with that value; above the range it is the too-large error, below it the too-small error; every error is one of the four `ParseIntError` messages |
| Common.ParseI32 | src/lib.rs:101-102 | `str::parse::<i32>()`: `Ok` iff the text denotes an `i32`, with that value |
| Common.ParseU16 | src/tile.rs:207-210 | `str::parse::<u16>()`: `Ok` iff the text denotes a `u16`, with that value |
| Common.OverflowBeforeInvalidDigit | src/lib.rs:101-102 | `"99999999999x"` is too large and `"-99999999999x"` too small, although an invalid character follows: the overflow is found first |
| VoxelLib.TileToWorld | src/lib.rs:101 | a tile coordinate c becomes c·256+42 |
| VoxelLib.ParseBoundWorld | src/lib.rs:100-103 | a printed world coordinate parses back to itself |
| VoxelLib.ParseBoundTile | src/lib.rs:100-103 | `t<c>` parses to c·256+42 |
| VoxelLib.CollectBounds | src/lib.rs:98-105 | the bounds collect iff every component parses, in order, and the error is that of the first failing component, with `ParseIntError`'s message (an overflow reported where it occurs) |
| VoxelLib.ParseBounds | src/lib.rs:97-112 | `Ok` iff there are exactly 4 components that all parse with w ≤ e and n ≤ s; the result is those 4 values; a failing component gives its `ParseIntError` message, otherwise the error is the usage message |
| VoxelLib.OverflowBoundExample | src/lib.rs:97-105 | `"99999999999x,0,1,1"` fails with the overflow message |
| VoxelLib.BoundsRoundTrip | src/lib.rs:97-112 | printing four coordinates with commas and parsing them back gives them again, or the w,n,e,s error |
| VoxelLib.TileBoundsRoundTrip | src/lib.rs:97-112 | four `t`-prefixed tile coordinates parse to their world coordinates |
| VoxelLib.ParseBoundsWorldExample | src/lib.rs:153-158 | `"1,-22222,33333,-4"` parses to [1, -22222, 33333, -4] |
| VoxelLib.ParseBoundsTileExample | src/lib.rs:160-165 | `"t-2,t-33,t4,t5"` parses to [-470, -8406, 1066, 1322] |
| VoxelLib.CollectAsWrittenAgrees | src/lib.rs:98-105 | the code as written panics exactly when a component that is empty or starts with a non-ASCII character (where byte 1 is no character boundary) follows components that all parse, and otherwise agrees with `CollectBounds` |
| VoxelLib.ParsedBoundAsciiLead | src/lib.rs:100-103 | a component that parses starts with an ASCII character, so the first-byte slice never panics on it |
| VoxelLib.ParseBoundsAsWrittenAgrees | src/lib.rs:97-112 | where the code as written returns, it returns what `ParseBounds` returns |
| VoxelLib.EmptyBoundPanics | src/lib.rs:100 | `"1,,2,3"` panics as written; the corrected parser reports an error |
| VoxelLib.MultiByteBoundPanics | src/lib.rs:100 | `"é,1,2,3"` panics as written; the corrected parser reports an invalid digit |
| VoxelLib.ContribFromTilePath | src/lib.rs:40-52 | the library's copy panics exactly where the tile module's returns the missing-contributor error, and otherwise agrees with it |
| BufRw.BytesAt | src/buf_rw.rs:67-71 | n bytes can be read iff n remain; they are the next n bytes; otherwise the error is end of file |
| BufRw.NumberAt | src/buf_rw.rs:97-111 | a big-endian n-byte number can be read iff n bytes remain, and it is below 256^n |
| BufRw.VarIntOneByte | src/buf_rw.rs:135-137 | a byte below 0x80 decodes to itself and takes one byte |
| BufRw.VarIntTooLong | src/buf_rw.rs:129-134 | six continuation bytes in a row are the "VarInt too big" error after six bytes |
| BufRw.VarIntOfEncoding | src/buf_rw.rs:124-140 | decoding the 7-bit groups of a value, least significant first, accumulates that value |
| BufRw.VarIntRoundTrip | src/buf_rw.rs:124-140 | every `i32` encodes in at most 5 bytes and decodes back, consuming exactly its encoding |
| BufRw.BufReader.constructor | src/buf_rw.rs:52-57 | a new reader holds the data at position 0 |
| BufRw.BufReader.Len | src/buf_rw.rs:59-61 | `len` is the length of the data, which never changes |
| BufRw.BufReader.ReadBytes | src/buf_rw.rs:67-71 | returns the next n bytes and advances by n; with fewer left it fails and leaves the position at the end |
| BufRw.BufReader.ReadRemainder | src/buf_rw.rs:80-83 | returns the bytes from the position to the end and leaves the position at the end |
| BufRw.BufReader.ReadU8 | src/buf_rw.rs:85-87 | reads one byte and advances by one, or fails at the end |
| BufRw.BufReader.ReadI8 | src/buf_rw.rs:89-91 | reads one byte as two's complement |
| BufRw.BufReader.ReadBool | src/buf_rw.rs:93-95 | true iff the byte read is nonzero |
| BufRw.BufReader.ReadU16 | src/buf_rw.rs:97-99 | reads 2 bytes big-endian and advances by 2 |
| BufRw.BufReader.ReadI16 | src/buf_rw.rs:101-103 | reads 2 bytes big-endian as two's complement |
| BufRw.BufReader.ReadU32 | src/buf_rw.rs:105-107 | reads 4 bytes big-endian and advances by 4 |
| BufRw.BufReader.ReadI32 | src/buf_rw.rs:109-111 | reads 4 bytes big-endian as two's complement |
| BufRw.BufReader.ReadF64Bits | src/buf_rw.rs:113-115 | reads the 8 big-endian bytes of a double |
| BufRw.BufReader.ReadUuid | src/buf_rw.rs:117-122 | reads two big-endian `u64`, high half first |
| BufRw.BufReader.ReadVarint | src/buf_rw.rs:124-140 | the loop reads 7-bit groups until a byte without bit 7 and fails on a sixth byte or at the end of the data |
| BufRw.BufReader.ReadVarintPrefixedBytes | src/buf_rw.rs:73-78 | reads a VarInt n and then exactly n bytes |
| BufRw.U8POf | src/buf_rw.rs:85-87 | a byte followed by anything reads back as that byte |
| BufRw.I16POf | src/buf_rw.rs:101-103 | the big-endian encoding of an `i16` reads back as it |
| BufRw.U16POf | src/buf_rw.rs:97-99 | the big-endian encoding of a `u16` reads back as it |
| BufRw.U32POf | src/buf_rw.rs:105-107 | the big-endian encoding of a `u32` reads back as it |
| BufRw.I32POf | src/buf_rw.rs:109-111 | the big-endian encoding of an `i32` reads back as it |
| BufRw.F64BitsPOf | src/buf_rw.rs:113-115 | 8 big-endian bytes read back as the double's bits |
| BufRw.UuidPOf | src/buf_rw.rs:117-122 | the 16 bytes of a UUID read back as it |
| BufRw.VarIntPOf | src/buf_rw.rs:124-140 | a VarInt encoding reads back as its value |
| BufRw.PrefixedBytesPOf | src/buf_rw.rs:73-78 | a VarInt length and that many bytes read back as those bytes |
| BufRw.RemoveDashes | src/buf_rw.rs:25 | the result has no dash |
| BufRw.ReadHalves | src/buf_rw.rs:30-35 | the loop ORs bytes 0-7 into `high` and bytes 8-15 into `low`, big-endian |
| BufRw.UuidFromStr | src/buf_rw.rs:22-37 | `UUID::from_str` is `UuidOf`: only 36 (dashes removed) or 32 characters are accepted |
| BufRw.FromHexOfText | src/buf_rw.rs:29 | hex decoding of a byte string's hex text gives the bytes back |
| BufRw.UuidOfHexText | src/buf_rw.rs:26-36 | the 32-character hex text of 16 bytes parses to the UUID of those bytes |
| BufRw.DashesOfDashedText | src/buf_rw.rs:25 | removing the dashes of the 8-4-4-4-12 form gives the plain hex text |
| BufRw.UuidOfDashedText | src/buf_rw.rs:25-36 | the 36-character dashed form of 16 bytes parses to the UUID of those bytes |
| Utf8.DecodeEncode | src/mc/packet.rs:79 | the UTF-8 encoding of every string is valid and decodes back to it |
| Utf8.InvalidByteRejected | src/mc/packet.rs:79 | a byte 0xFF anywhere makes the bytes invalid UTF-8 |
| Utf8.ErrorLen | src/mc/packet.rs:79 | the `error_len` of `Utf8Error` is 1 to 3 bytes, or none only for a lead byte C2-F4 less than 4 bytes before the end |
| Utf8.ErrorTextInvalidByte | src/mc/packet.rs:79 | after "a", a 0xFF byte is "invalid utf-8 sequence of 1 bytes from index 1" |
| Utf8.ErrorTextIncomplete | src/mc/packet.rs:79 | E2 82 at the end is "incomplete utf-8 byte sequence from index 0" |
| Utf8.ErrorTextBroken | src/mc/packet.rs:79 | E2 82 41 is "invalid utf-8 sequence of 2 bytes from index 0" |
| Packet.Decode | src/mc/packet.rs:61-127 | the cursor-threading decoder returns what the field-layout specification `Decoded` gives |
| Packet.DecodeSpawnPlayer | src/mc/packet.rs:64-75 | reads VarInt eid, uuid, three doubles, yaw, pitch and the remainder as metadata |
| Packet.DecodeChat | src/mc/packet.rs:77-83 | reads a VarInt-prefixed UTF-8 message and an `i8` position |
| Packet.DecodeChunkData | src/mc/packet.rs:85-93 | reads x, z, is_new, sections mask, VarInt-prefixed chunk data, and the remainder as tile entities |
| Packet.DecodeRelativeMove | src/mc/packet.rs:96-102 | reads VarInt eid, three raw `i16` deltas and on_ground |
| Packet.DecodeLookAndRelativeMove | src/mc/packet.rs:104-112 | reads VarInt eid, three raw `i16` deltas, yaw, pitch and on_ground |
| Packet.DecodeTeleport | src/mc/packet.rs:114-122 | reads VarInt eid, three doubles, yaw, pitch and on_ground |
| Packet.IdOf | src/mc/packet.rs:63-125 | a packet is `Unimplemented` iff its id is not one of the six known ids |
| Packet.Encoded | src/mc/packet.rs:61-127 | the wire form of a packet is its id byte followed by its fields |
| Packet.Dispatch | src/mc/packet.rs:63-125 | the first byte selects the field layout, and unknown ids give `Unimplemented` |
| Packet.DecodeEncoded | src/mc/packet.rs:61-127 | every encodable packet decodes back from its wire form |
| Packet.UnknownIdUnimplemented | src/mc/packet.rs:124-125 | an unknown first byte gives `Ok(Unimplemented)` whatever follows |
| Packet.EmptyIsEof | src/mc/packet.rs:63 | empty input is the end-of-file error |
| Packet.ChatInvalidUtf8 | src/mc/packet.rs:77-83 | a chat message that is not valid UTF-8 is an error |
| Packet.TruncatedIsError | src/mc/packet.rs:61-127 | a known id followed by fewer bytes than its fixed fields need is an error |
| Replay.Inline | src/replay.rs:10-60 | the replay's packet type is the protocol's, with chunk data stored inline |
| Replay.Decode | src/replay.rs:63-135 | the replay's own decoder returns what `Decoded` gives; its `read_bytes_len_varint` calls are read as the VarInt-prefixed byte read (see Left out) |
| Replay.DecodeEncoded | src/replay.rs:63-135 | it decodes every encodable packet to the same packet as the protocol decoder, fields inline |
| Replay.UnknownIdUnimplemented | src/replay.rs:132-133 | an unknown first byte gives `Ok(Unimplemented)` |
| Replay.ReplayPacket.constructor | src/replay.rs:189-195 | a new packet holds date, size, id and data, not yet decoded |
| Replay.ReplayPacket.ParsePacket | src/replay.rs:151-156 | `parse_packet` is one `ParseStep` |
| Replay.ParseStep | src/replay.rs:151-156 | decodes only while nothing is decoded; `Ok` iff a packet is then held; a decode error leaves `decoded` empty |
| Replay.ParseTwice | src/replay.rs:151-156 | a second `parse_packet` changes nothing and succeeds iff the first did |
| Replay.FrameAt | src/replay.rs:176-196 | no record iff fewer than 9 bytes remain; a record is offset, size and that many payload bytes, ending at p+8+size; a payload running past the end or of size 0 panics |
| Replay.FrameOfEncoding | src/replay.rs:176-196 | an encoded record reads back, and reading stops right after it |
| Replay.FramesOfEncoding | src/replay.rs:176-196 | a run of encoded records reads back as those records |
| Replay.Replay.constructor | src/replay.rs:199-268 | a replay reads its stream from position 0 |
| Replay.Replay.Next | src/replay.rs:176-196 | `next` returns `None` iff fewer than 9 bytes remain, and otherwise a packet with date = info.date + offset, the size, id = first payload byte and the payload, advancing the cursor by 8+size |
| Colors.Rgba | src/colorizer.rs:71-76 | r, g, b and a land in bits 0-7, 8-15, 16-23 and 24-31 |
| Colors.RgbaOfChannels | src/colorizer.rs:71-76 | every colour is the `rgba` of its four channels |
| Colors.Simple | src/colorizer.rs:2-11 | transparent iff the column is all zero; otherwise opaque, and the water colour iff byte 2 is 8 or 9 |
| Colors.Biome | src/colorizer.rs:13-21 | transparent for an all-zero column, else the biome colour |
| Colors.Lightmap | src/colorizer.rs:23-32 | transparent for an all-zero column, opaque black below height 50, else the grey `(byte3 & 0xf)·17` |
| Colors.HeightmapGrayscale | src/colorizer.rs:34-40 | transparent for an all-zero column, else the height as opaque grey |
| Colors.SubU32 | src/colorizer.rs:61-68 | `u32` subtraction wraps around below zero |
| Colors.Heightmap | src/colorizer.rs:44-69 | transparent iff the height is 0; land below sea level is (0, h·255/95, 0), land above it (p, 255, p) with p = (h−95)·255/160; water at most 95 deep is (0, g, 255 − g/2) with g = 255 − depth·255/95; water whose floor is above its surface is dark blue |
| Colors.DepthShading | src/colorizer.rs:44-69 | deeper dug-out land is darker green, and deeper water has less green |
| Colors.HeightmapWater | src/colorizer.rs:61-68 | water is dark blue iff the floor is above the surface (the wrapped depth) or more than 95 blocks below it |
| Colors.ColumnColorFn | src/colorizer.rs:89-98 | Simple, Terrain and Unknown colour as `simple`, Light as `lightmap`, Biome as `biome`, Height as `heightmap` |
| BlockCount.BiomeBlockCounts.constructor | src/bin/blockcount.rs:40-42 | new counts are empty |
| BlockCount.BiomeBlockCounts.MergeInto | src/bin/blockcount.rs:43-47 | each key's count becomes its old count (0 if absent) plus the other's; other keys are unchanged |
| BlockCount.AddKeysAppend | src/bin/blockcount.rs:172 | counting two runs of keys one after the other counts their concatenation |
| BlockCount.TallyCounts | src/bin/blockcount.rs:172 | the tally of a run of keys counts each key as often as it occurs, and holds exactly the keys that occur |
| BlockCount.MergedTallies | src/bin/blockcount.rs:43-47 | merging two tallies is the tally of the concatenated runs |
| BlockCount.StemOf | src/bin/blockcount.rs:170 | the stem holds no `[`, and is the whole name when the name has none |
| BlockCount.ColumnKeysBound | src/bin/blockcount.rs:157-160 | a column yields at most 4 keys, all under the column's biome (byte 16) |
| BlockCount.TileKeysBound | src/bin/blockcount.rs:157-175 | n columns yield at most 4n keys |
| BlockCount.CountSlot | src/bin/blockcount.rs:160-173 | a slot with id 0 counts nothing; otherwise it counts its (biome, stem) key once, and panics when the id has no name |
| BlockCount.CountColumn | src/bin/blockcount.rs:157-175 | counting a column adds the keys of its four slots, or panics where a slot does |
| BlockCount.CountTile | src/bin/blockcount.rs:132-178 | the counts of a tile are the tally of the keys of all its columns, or a panic |
| BlockCount.BiomeCounts | src/bin/blockcount.rs:102-105 | `biome_counts[b]` is the sum of the counts of all keys with biome b |
| BlockCount.BiomeTotal | src/bin/blockcount.rs:102-105 | summed per biome, a tally counts the keys that fall in that biome |
| BlockCount.MergedAllTallies | src/bin/blockcount.rs:91-99 | merging the tallies of all tiles is the tally of all their keys |
| BlockCount.MergeResults | src/bin/blockcount.rs:86-99 | the merged counts of all tiles, or none when any tile failed |
| BlockCount.NamesMap | src/bin/blockcount.rs:147-153 | the names map is keyed by the key table's ids and maps each to a name with that id |
| WorldStats.Meta | src/bin/worldstats.rs:85-90 | a block's meta is a nibble |
| WorldStats.Nibbles | src/bin/worldstats.rs:85-90 | block 2k takes the low nibble and block 2k+1 the high nibble of `data[k]` |
| WorldStats.IdMeta | src/bin/worldstats.rs:91 | `id<<4 \| meta` is below 4096, the number of counters |
| WorldStats.IdMetaSplit | src/bin/worldstats.rs:151-153 | `idmeta>>4` and `idmeta & 0xf` recover id and meta, and every counter index is such a pair |
| WorldStats.IdMetasStep | src/bin/worldstats.rs:85-92 | the id/meta values of a section are those of its blocks in order |
| WorldStats.OccurrencesAppend | src/bin/worldstats.rs:92 | counting occurrences distributes over concatenation |
| WorldStats.HistogramTotal | src/bin/worldstats.rs:69-92 | the counters of a region add up to the number of blocks counted |
| WorldStats.SumBump | src/bin/worldstats.rs:92 | one increment raises the total by one |
| WorldStats.CountSection | src/bin/worldstats.rs:85-93 | counting a section adds each block's id/meta once to the counters, or panics when `data` is too short |
| WorldStats.CountSections | src/bin/worldstats.rs:79-94 | counting the sections of a chunk adds all their blocks, or panics |
| WorldStats.SectionsPanicSticks | src/bin/worldstats.rs:79-94 | once a section panics, the chunk panics |
| WorldStats.ChunksStopSticks | src/bin/worldstats.rs:71-97 | once a chunk fails to load or panics, the region's outcome is fixed |
| WorldStats.AnalyzeRegion | src/bin/worldstats.rs:60-100 | `analyze_region` gives the region's position and the histogram of all its blocks' id/meta, the loader's error, or a panic |
| WorldStats.SumRegions | src/bin/worldstats.rs:121-135 | `counts_total` is the elementwise sum of the counts of the successful regions |
| WorldStats.TotalOfSuccesses | src/bin/worldstats.rs:126-134 | failed regions add nothing to the total |
| WorldStats.TotalAppend | src/bin/worldstats.rs:125-135 | the total over two runs of results is the sum of their totals |
| WorldStats.XzFromRegionName | src/bin/worldstats.rs:162-171 | agrees with `xz_from_region_path` wherever that returns, and is an error where it panics |
| WorldStats.NonRegionNamePanics | src/bin/worldstats.rs:162-171 | `level.dat` makes the code as written panic at the second `unwrap` |
| WorldStats.OneDotNamePanics | src/bin/worldstats.rs:162-171 | `r.5.mca` panics at the third `unwrap` |
| WorldStats.UnparsedNamesFail | src/bin/worldstats.rs:162-171 | `session.lock` gives the empty-string error and `a.b.mca` the invalid-digit error, so both reach the non-region branch |
| WorldStats.XzOfRegionName | src/bin/worldstats.rs:162-171 | `r.<x>.<z>.mca` parses back to (x, z) |
| WorldStats.KeptExactly | src/bin/worldstats.rs:178-184 | with the corrected parser `XzFromRegionName`, a file is kept iff its name parses to a region with -10 ≤ x < 10 and -10 ≤ z < 10 |
| WorldStats.GetRegions | src/bin/worldstats.rs:173-192 | `get_regions` with the corrected parser keeps exactly those files, in directory order |
| WorldStats.KeptOrPanicAgrees | src/bin/worldstats.rs:173-192 | a `get_regions` loop whose name reader either panics or agrees with a parser panics iff its reader panics on some listed name, and otherwise keeps exactly what that parser keeps |
| WorldStats.KeptAsWrittenAgrees | src/bin/worldstats.rs:162-192 | `get_regions` as written panics iff some listed name makes `xz_from_region_path` panic (such as `level.dat`), and otherwise keeps what the corrected version keeps |
| WorldStats.GetRegionsAsWritten | src/bin/worldstats.rs:173-192 | the loop of `get_regions` as written, calling `xz_from_region_path`, yields `KeptAsWritten` |

## Left out

- File system and zip I/O:
  - opening and creating zip archives, `fs::metadata`, `read_dir`, `hard_link` and `set_file_times` are left out;
  - their outcomes are inputs: an `Archive` value, a candidate's mtime and read outcome, the hard link's `Result`;
  - `write_tile`'s own I/O errors are not modelled, and a failed write is only printed by the source;
  - `get_tile_paths_in_dirs` is left out.
- Concurrency: the thread pools and channels of every `main` and the work queue of src/main.rs. The per-item functions they run are modelled.
  - A worker that panics would leave the receiving loop waiting forever; this is not modelled.
- Printing and progress output: `print_progress`, `ProgressTracker`, timing, and the per-block report of `worldstats` and `blockcount`. This includes blockcount's `rel_count` division, which is floating point.
- Floating point: doubles are kept as their raw big-endian bits. The relative-move deltas are kept as the raw `i16`, before the division by 4096.
- `read_replay` and its JSON metadata: `ReplayInfo` is an input.
- src/processor.rs, the other binaries (`diff`, `diff-all`, `tiles`, `render`, `palette`, `replay`), src/main.rs and the Python scripts are not part of this model.
- The legacy keyless tile format: `read_tile` panics on it. The model requires a key entry of well-formed lines, and treats the key-line `expect`s as that precondition.
- `blockcount` reads tiles through an older tile API with a 17-byte column layout and an optional key table. The model takes its columns and optional names map as inputs. `BLOCK_STRINGS_ARR` is a parameter, and only its length matters.
- `worldstats` reads sections through NBT accessors whose `expect`s are not modelled. A section is given by its `Blocks` and `Data` byte arrays, and a chunk slot by its load outcome.
- WorldStats.AnalyzeRegion: the error value keeps only the message. The source pairs it with the region position.
- VoxelLib.TileToWorld: `c * 256 + 42` on `i32` wraps in a release build and panics in a debug build. The model takes the release behaviour.
- Colors.Heightmap: the water depth `h - floor` on `u32` panics in a debug build when the floor is above the surface. The model takes the release wrap-around, which yields dark blue.
- BufRw.BufReader.ReadVarint: a sixth VarInt byte shifts by 35 before the size check. A debug build panics there; the model makes it the "VarInt too big" error, as a release build returns.
- BufRw.BufReader.ReadVarintPrefixedBytes: a negative VarInt length becomes a huge `usize`, and allocating that vector panics with "capacity overflow". The model returns an error with that message instead of a panic.
- Counter widths: the `u32`/`u64`/`usize` counters of `blockcount`, `worldstats` and the replay dates are unbounded naturals. Overflow would take more than 2^32 blocks.
- MergeCaches.MergeSorted: `HashMap` iteration order is not modelled. The order in which names are visited and keys are written is a ghost `order`, and every property holds for every order.
- MergeCaches.MergeSorted: candidates whose source block ids exceed their converter would make `copy_convert_chunk` panic on the converter index. The model requires every candidate's ids to be covered and at most 65535 names in total.
- Packet.TruncatedIsError: states the error only for inputs shorter than the fixed-size fields of the packet. Truncation inside the variable-length fields is covered by the round trip and the reader contracts, not by this lemma.
- Utf8: the decoder follows the validity grammar and the `Utf8Error` fields (`valid_up_to`, `error_len`) of `str::from_utf8`, and the error is kept as the text `Utf8Error` displays, not as the structured value. Its lemmas state acceptance of well-formed UTF-8, rejection of 0xFF bytes and the three kinds of error text on examples, not a general characterisation of the error index.
- TileCodec.TilePosInBoundsMeansOverlap: stated only for tile coordinates t with -2^23 ≤ t < 2^23 − 1, where `t * 256` and `t * 256 + 256` fit in `i32`. Outside them the source panics in a debug build and wraps in a release build; `IsTilePosInBounds` computes the release wrap, but no geometric meaning is stated for it.
- Replay.Decode: src/replay.rs:80 and src/replay.rs:93 call `read_bytes_len_varint`, which src/buf_rw.rs does not define (its only length-prefixed read is `read_varint_prefixed_bytes`, src/buf_rw.rs:73). The model reads both fields with `ReadVarintPrefixedBytes`, on the assumption that the method meant is that one.
- Byte lengths: names, bounds and UUID text are Dafny strings, sequences of Unicode characters, while `str::len`, `split_at` and byte slices count UTF-8 bytes and panic off a character boundary. The model agrees with the source on ASCII text; on other text the lines below say what differs. Only the first-character slice of `parse_bounds` is modelled at byte level (`VoxelLib.FirstByteSlicePanics`).
- BufRw.UuidFromStr: the 36- and 32-length cases count characters, where `s.len()` counts bytes; a non-ASCII string is rejected either way, by the length check or by the hex decoding, but the error message can differ.
- TileCodec.XzFromTilePath: the name length and the cut of the last four bytes are in characters; a non-ASCII name can make `split_at` panic in the source where the model cuts at a character.
- TileCodec.ContribFromTilePath: the same character-for-byte reading as `XzFromTilePath`.
- VoxelLib.ContribFromTilePath: the same character-for-byte reading as `XzFromTilePath`.
- WorldStats.XzFromRegionName: the same character-for-byte reading for the cut of `.mca`; the as-written `XzAsWritten` shares it.
- `is_tile_pos_in_bounds` and `get_xz_from_tile_path` of src/lib.rs are the same code as in src/tile.rs (src/lib.rs:20-38, 114-122). `TileCodec` models them once.

## Findings

| source | as written | input that shows it | evidently intended | confidence | as-written member | corrected member |
|---|---|---|---|---|---|---|
| src/lib.rs:100 | each component's first character is taken with the byte slice `&s[0..1]`, which panics on an empty component and on one whose first character is not ASCII (`"é,1,2,3"`, `MultiByteBoundPanics`) | `"1,,2,3"` | an empty or non-ASCII-led component is a parse error, as every other malformed component is | high (not executed) | VoxelLib.EmptyBoundPanics | VoxelLib.ParseBounds |
| src/bin/worldstats.rs:162-171 | the pieces of the name are taken with `unwrap`: a name shorter than four characters panics, a cut name without a dot panics at the second `unwrap`, and one with exactly one dot whose second piece parses panics at the third; names whose pieces fail to parse (`session.lock`, `a.b.mca`) are errors. `get_regions` panics with it | `"level.dat"` | an error, so that `get_regions` can skip the file as its branches for non-region files intend | medium (not executed) | WorldStats.NonRegionNamePanics | WorldStats.XzFromRegionName |
