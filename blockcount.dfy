/** Block counting per biome: every non-air block slot of every column of a
    tile is counted under its column's biome and the stem of its block name
    (the name up to the first `[`, which drops the block properties); the
    counts of several tiles are merged, and summed per biome. */
module BlockCount {
  import opened Common

  /** `(biome, block name stem)`. */
  type Key = (u8, string)

  /** Bytes per column in the layout the counter reads: the four blockstate
      ids big-endian at bytes 1-2, 5-6, 9-10 and 13-14, the biome at 16. */
  const COLUMN_BYTES: nat := 17
  const SLOTS: nat := 4

  // ---------------------------------------------------------------------------
  // Counts as tallies

  function Get(m: map<Key, nat>, k: Key): nat {
    if k in m then m[k] else 0
  }

  /** `m` with a run of keys counted in, one key after the other as
      `*counts.entry(key).or_insert(0) += 1` does. */
  function AddKeys(m: map<Key, nat>, keys: seq<Key>): map<Key, nat> {
    if keys == [] then m
    else
      var before := AddKeys(m, keys[..|keys| - 1]);
      before[keys[|keys| - 1] := Get(before, keys[|keys| - 1]) + 1]
  }

  /** The tally of a run of keys. */
  function Tally(keys: seq<Key>): map<Key, nat> {
    AddKeys(map[], keys)
  }

  /** One more key counted in. */
  lemma AddKey(m: map<Key, nat>, keys: seq<Key>, key: Key)
    ensures AddKeys(m, keys + [key]) == AddKeys(m, keys)[key := Get(AddKeys(m, keys), key) + 1]
  {
    assert (keys + [key])[..|keys|] == keys;
  }

  /** Counting two runs of keys one after the other counts both. */
  lemma {:induction false} AddKeysAppend(m: map<Key, nat>, keys1: seq<Key>, keys2: seq<Key>)
    ensures AddKeys(AddKeys(m, keys1), keys2) == AddKeys(m, keys1 + keys2)
  {
    if keys2 == [] {
      assert keys1 + keys2 == keys1;
    } else {
      var init, key := keys2[..|keys2| - 1], keys2[|keys2| - 1];
      assert keys2 == init + [key];
      assert keys1 + keys2 == (keys1 + init) + [key];
      AddKeysAppend(m, keys1, init);
      AddKey(m, keys1 + init, key);
    }
  }

  /** The tally holds each key that occurs, with the number of times it occurs. */
  lemma {:induction false} TallyCounts(keys: seq<Key>)
    ensures forall k :: k in Tally(keys) <==> k in multiset(keys)
    ensures forall k :: Get(Tally(keys), k) == multiset(keys)[k]
  {
    if keys != [] {
      var init := keys[..|keys| - 1];
      TallyCounts(init);
      assert Tally(keys) == Tally(init)[keys[|keys| - 1] := Get(Tally(init), keys[|keys| - 1]) + 1];
      assert keys == init + [keys[|keys| - 1]];
      assert multiset(keys) == multiset(init) + multiset{keys[|keys| - 1]};
    }
  }

  /** `a` with `b` added in: every key of either, with the two counts summed. */
  function Merged(a: map<Key, nat>, b: map<Key, nat>): map<Key, nat> {
    map k | k in a.Keys + b.Keys :: Get(a, k) + Get(b, k)
  }

  /** Merging the tallies of two runs of keys is the tally of both. */
  lemma {:induction false} MergedTallies(keys1: seq<Key>, keys2: seq<Key>)
    ensures Merged(Tally(keys1), Tally(keys2)) == Tally(keys1 + keys2)
  {
    if keys2 == [] {
      assert keys1 + keys2 == keys1;
    } else {
      var init, key := keys2[..|keys2| - 1], keys2[|keys2| - 1];
      var t1, ti := Tally(keys1), Tally(init);
      assert Tally(keys2) == ti[key := Get(ti, key) + 1];
      MergedTallies(keys1, init);
      assert keys2 == init + [key];
      AddKey(map[], keys1 + init, key);
      assert keys1 + keys2 == (keys1 + init) + [key];
      MergedBump(t1, ti, key);
    }
  }

  /** Counting one more key on the right of a merge. */
  lemma MergedBump(a: map<Key, nat>, b: map<Key, nat>, key: Key)
    ensures Merged(a, b[key := Get(b, key) + 1]) == Merged(a, b)[key := Get(Merged(a, b), key) + 1]
  {
  }

  // ---------------------------------------------------------------------------
  // `merge_biome_block_counts_into`

  /** `BiomeBlockCounts`: `(biome, block) -> count`. */
  class BiomeBlockCounts {
    var counts: map<Key, nat>

    /** `new_biome_block_counts`. */
    constructor ()
      ensures counts == map[]
    {
      counts := map[];
    }

    /** `merge_biome_block_counts_into`: every count of `other` is added to
        this one's, a missing key counting as 0; other keys keep their counts. */
    method MergeInto(other: map<Key, nat>)
      modifies this
      ensures counts == Merged(old(counts), other)
    {
      ghost var c0 := counts;
      var into := counts;
      ghost var merged: set<Key> := {};
      var rest := other.Keys;
      MergedNone(c0, other);
      while rest != {}
        invariant merged <= other.Keys && rest == other.Keys - merged
        invariant into == MergedOn(c0, other, merged)
        decreases |rest|
      {
        var key :| key in rest;
        MergedOnStep(c0, other, merged, key, into);
        into := into[key := Get(into, key) + other[key]];
        rest := rest - {key};
        merged := merged + {key};
      }
      MergedOnAll(c0, other, merged, into);
      counts := into;
    }
  }

  /** `a` with the counts of `b` on the keys `ks` added in. */
  function MergedOn(a: map<Key, nat>, b: map<Key, nat>, ks: set<Key>): map<Key, nat>
    requires ks <= b.Keys
  {
    map k | k in a.Keys + ks :: Get(a, k) + (if k in ks then b[k] else 0)
  }

  lemma MergedNone(a: map<Key, nat>, b: map<Key, nat>)
    ensures MergedOn(a, b, {}) == a
  {
  }

  lemma MergedOnAll(a: map<Key, nat>, b: map<Key, nat>, ks: set<Key>, m: map<Key, nat>)
    requires ks <= b.Keys && b.Keys - ks == {} && m == MergedOn(a, b, ks)
    ensures m == Merged(a, b)
  {
    forall k | k in b.Keys
      ensures k in ks
    {
      assert k !in b.Keys - ks;
    }
    assert ks == b.Keys;
  }

  lemma MergedOnStep(a: map<Key, nat>, b: map<Key, nat>, ks: set<Key>, key: Key, m: map<Key, nat>)
    requires ks <= b.Keys && key in b && key !in ks && m == MergedOn(a, b, ks)
    ensures m[key := Get(m, key) + b[key]] == MergedOn(a, b, ks + {key})
  {
  }

  // ---------------------------------------------------------------------------
  // `count_tile`

  /** The name of block id `nr`: from the tile's key table when it has one
      (absent ids panic), else from the global table `blockStrings`
      (`BLOCK_STRINGS_ARR`; ids past its end panic). */
  function BlockName(names: Option<map<u16, string>>, blockStrings: seq<string>, nr: u16): Option<string> {
    match names
    case Some(m) => if nr in m then Some(m[nr]) else None
    case None => if nr < |blockStrings| then Some(blockStrings[nr]) else None
  }

  /** The block id in slot `off` of a column. */
  function SlotId(column: seq<u8>, off: nat): u16
    requires |column| == COLUMN_BYTES && off < SLOTS
  {
    column[1 + off * 4] as int * 256 + column[2 + off * 4] as int
  }

  /** The key slot `off` of a column counts under: none for air (id 0). */
  function SlotKeys(column: seq<u8>, off: nat, names: Option<map<u16, string>>, blockStrings: seq<string>)
    : (r: Outcome<seq<Key>>)
    requires |column| == COLUMN_BYTES && off < SLOTS
  {
    var nr := SlotId(column, off);
    if nr == 0 then Returns([])
    else match BlockName(names, blockStrings, nr)
      case None => Panics
      case Some(name) => Returns([(column[16], Before(name, '['))])
  }

  /** A stem is the whole name when it has no `[`, and never holds one. */
  lemma StemOf(name: string)
    ensures '[' !in Before(name, '[')
    ensures '[' !in name ==> Before(name, '[') == name
  {
    IndexOfNone(name, '[');
    IndexOfFirst(name, '[');
  }

  function Then(a: Outcome<seq<Key>>, b: Outcome<seq<Key>>): Outcome<seq<Key>> {
    if a.Panics? || b.Panics? then Panics else Returns(a.value + b.value)
  }

  /** The keys of the first `k` slots of a column, in order. */
  function ColumnKeys(column: seq<u8>, k: nat, names: Option<map<u16, string>>, blockStrings: seq<string>)
    : (r: Outcome<seq<Key>>)
    requires |column| == COLUMN_BYTES && k <= SLOTS
  {
    if k == 0 then Returns([])
    else Then(ColumnKeys(column, k - 1, names, blockStrings), SlotKeys(column, k - 1, names, blockStrings))
  }

  function ColumnAt(columns: seq<u8>, i: nat): (column: seq<u8>)
    requires (i + 1) * COLUMN_BYTES <= |columns|
    ensures |column| == COLUMN_BYTES
  {
    columns[i * COLUMN_BYTES..(i + 1) * COLUMN_BYTES]
  }

  /** The keys of the first `n` columns. */
  function TileKeysUpTo(columns: seq<u8>, n: nat, names: Option<map<u16, string>>, blockStrings: seq<string>)
    : (r: Outcome<seq<Key>>)
    requires n * COLUMN_BYTES <= |columns|
  {
    if n == 0 then Returns([])
    else Then(TileKeysUpTo(columns, n - 1, names, blockStrings),
              ColumnKeys(ColumnAt(columns, n - 1), SLOTS, names, blockStrings))
  }

  /** A column adds at most one key per slot, each under its own biome. */
  lemma {:induction false} ColumnKeysBound(column: seq<u8>, k: nat, names: Option<map<u16, string>>,
                                           blockStrings: seq<string>)
    requires |column| == COLUMN_BYTES && k <= SLOTS
    ensures ColumnKeys(column, k, names, blockStrings).Returns? ==>
              var keys := ColumnKeys(column, k, names, blockStrings).value;
              |keys| <= k && forall j | 0 <= j < |keys| :: keys[j].0 == column[16]
  {
    if k > 0 {
      ColumnKeysBound(column, k - 1, names, blockStrings);
    }
  }

  /** A tile of `n` columns counts at most four blocks per column. */
  lemma {:induction false} TileKeysBound(columns: seq<u8>, n: nat, names: Option<map<u16, string>>,
                                         blockStrings: seq<string>)
    requires n * COLUMN_BYTES <= |columns|
    ensures TileKeysUpTo(columns, n, names, blockStrings).Returns? ==>
              |TileKeysUpTo(columns, n, names, blockStrings).value| <= SLOTS * n
  {
    if n > 0 {
      TileKeysBound(columns, n - 1, names, blockStrings);
      ColumnKeysBound(ColumnAt(columns, n - 1), SLOTS, names, blockStrings);
    }
  }

  /** What `count_tile` counts: the keys of all columns; a trailing partial
      column panics when its biome byte is read. */
  function TileKeys(columns: seq<u8>, names: Option<map<u16, string>>, blockStrings: seq<string>)
    : Outcome<seq<Key>>
  {
    if |columns| % COLUMN_BYTES != 0 then Panics
    else TileKeysUpTo(columns, |columns| / COLUMN_BYTES, names, blockStrings)
  }

  /** A panic in the first `n` columns is a panic of the whole tile. */
  lemma {:induction false} PanicSticks(columns: seq<u8>, n: nat, m: nat, names: Option<map<u16, string>>,
                                       blockStrings: seq<string>)
    requires n <= m && m * COLUMN_BYTES <= |columns|
    requires TileKeysUpTo(columns, n, names, blockStrings).Panics?
    ensures TileKeysUpTo(columns, m, names, blockStrings).Panics?
    decreases m - n
  {
    if n < m {
      PanicSticks(columns, n + 1, m, names, blockStrings);
    }
  }

  /** A panic in the first slots of a column is a panic of the column. */
  lemma {:induction false} ColumnPanics(column: seq<u8>, off: nat, names: Option<map<u16, string>>, blockStrings: seq<string>)
    requires |column| == COLUMN_BYTES && off <= SLOTS
    requires ColumnKeys(column, off, names, blockStrings).Panics?
    ensures ColumnKeys(column, SLOTS, names, blockStrings).Panics?
    decreases SLOTS - off
  {
    if off < SLOTS {
      ColumnPanics(column, off + 1, names, blockStrings);
    }
  }

  /** Counting column `i` after the columns before it. */
  lemma ColumnStep(columns: seq<u8>, i: nat, names: Option<map<u16, string>>, blockStrings: seq<string>,
                   keys: seq<Key>, colKeys: seq<Key>)
    requires (i + 1) * COLUMN_BYTES <= |columns|
    requires TileKeysUpTo(columns, i, names, blockStrings) == Returns(keys)
    requires ColumnKeys(ColumnAt(columns, i), SLOTS, names, blockStrings) == Returns(colKeys)
    ensures TileKeysUpTo(columns, i + 1, names, blockStrings) == Returns(keys + colKeys)
  {
  }

  /** One slot of a column of `count_tile`: air is skipped, a block with
      no name panics, any other block is counted under its column's biome
      and the stem of its name. */
  method CountSlot(column: seq<u8>, offset: nat, names: Option<map<u16, string>>, blockStrings: seq<string>,
                   counts: map<Key, nat>)
    returns (r: Outcome<map<Key, nat>>)
    requires |column| == COLUMN_BYTES && offset < SLOTS
    ensures SlotKeys(column, offset, names, blockStrings).Panics? <==> r.Panics?
    ensures r.Returns? ==> r.value == AddKeys(counts, SlotKeys(column, offset, names, blockStrings).value)
  {
    var blockNr := SlotId(column, offset);
    if blockNr == 0 {
      return Returns(counts);
    }
    var name := BlockName(names, blockStrings, blockNr);
    if name.None? {
      // `unwrap` of a missing name, or an index past BLOCK_STRINGS_ARR
      return Panics;
    }
    var key := (column[16], Before(name.value, '['));
    AddKey(counts, [], key);
    return Returns(counts[key := Get(counts, key) + 1]);
  }

  /** The slots of one column of `count_tile`, counted into `counts`: a
      panic if a block has no name, else the tally grown by the keys of the
      column. */
  method CountColumn(column: seq<u8>, names: Option<map<u16, string>>, blockStrings: seq<string>,
                     counts: map<Key, nat>)
    returns (r: Outcome<map<Key, nat>>)
    requires |column| == COLUMN_BYTES
    ensures ColumnKeys(column, SLOTS, names, blockStrings).Panics? <==> r.Panics?
    ensures r.Returns? ==> r.value == AddKeys(counts, ColumnKeys(column, SLOTS, names, blockStrings).value)
  {
    var counted := counts;
    ghost var colKeys: seq<Key> := [];
    for offset := 0 to SLOTS
      invariant ColumnKeys(column, offset, names, blockStrings) == Returns(colKeys)
      invariant counted == AddKeys(counts, colKeys)
    {
      var slot := CountSlot(column, offset, names, blockStrings, counted);
      if slot.Panics? {
        ColumnPanics(column, offset + 1, names, blockStrings);
        return Panics;
      }
      ghost var slotKeys := SlotKeys(column, offset, names, blockStrings).value;
      AddKeysAppend(counts, colKeys, slotKeys);
      counted := slot.value;
      colKeys := colKeys + slotKeys;
    }
    return Returns(counted);
  }

  /** `count_tile`'s loop over the columns of a tile: the count of each key
      is the number of slots that hold a block of that stem in a column of
      that biome. `names` is the id-to-name map built from the tile's keys. */
  method CountTile(columns: seq<u8>, names: Option<map<u16, string>>, blockStrings: seq<string>)
    returns (r: Outcome<map<Key, nat>>)
    ensures TileKeys(columns, names, blockStrings).Panics? <==> r.Panics?
    ensures r.Returns? ==> r.value == Tally(TileKeys(columns, names, blockStrings).value)
  {
    var n := |columns| / COLUMN_BYTES;
    var counts: map<Key, nat> := map[];
    ghost var keys: seq<Key> := [];
    var i := 0;
    while i < n
      invariant i <= n && n * COLUMN_BYTES <= |columns|
      invariant TileKeysUpTo(columns, i, names, blockStrings) == Returns(keys)
      invariant counts == Tally(keys)
    {
      var column := ColumnAt(columns, i);
      var counted := CountColumn(column, names, blockStrings, counts);
      if counted.Panics? {
        PanicSticks(columns, i + 1, n, names, blockStrings);
        return Panics;
      }
      ghost var colKeys := ColumnKeys(column, SLOTS, names, blockStrings).value;
      ColumnStep(columns, i, names, blockStrings, keys, colKeys);
      AddKeysAppend(map[], keys, colKeys);
      counts := counted.value;
      keys := keys + colKeys;
      i := i + 1;
    }
    if |columns| % COLUMN_BYTES != 0 {
      // `column[16]` of the short last chunk
      return Panics;
    }
    return Returns(counts);
  }

  // ---------------------------------------------------------------------------
  // `biome_counts`

  /** The sum of the counts of the keys of biome `b`. */
  ghost function SumFor(m: map<Key, nat>, b: u8): nat
    decreases |m|
  {
    if m == map[] then 0
    else
      var k :| k in m;
      (if k.0 == b then m[k] else 0) + SumFor(m - {k}, b)
  }

  /** The sum does not depend on which key is taken first. */
  lemma {:induction false} SumForRemove(m: map<Key, nat>, k: Key, b: u8)
    requires k in m
    ensures SumFor(m, b) == (if k.0 == b then m[k] else 0) + SumFor(m - {k}, b)
    decreases |m|
  {
    var j :| j in m && SumFor(m, b) == (if j.0 == b then m[j] else 0) + SumFor(m - {j}, b);
    if j != k {
      var mj := m - {j};
      SumForRemove(mj, k, b);
      SumForRemove(m - {k}, j, b);
      assert mj - {k} == m - {k} - {j};
    }
  }

  /** The per-biome totals of `main`: entry `b` sums the counts of every key
      of biome `b`. */
  method BiomeCounts(counts: map<Key, nat>) returns (biomeCounts: array<nat>)
    ensures fresh(biomeCounts) && biomeCounts.Length == 256
    ensures forall b: u8 :: biomeCounts[b] == SumFor(counts, b)
  {
    biomeCounts := new nat[256](_ => 0);
    var rest: map<Key, nat> := counts;
    while rest != map[]
      invariant forall b: u8 :: biomeCounts[b] + SumFor(rest, b) == SumFor(counts, b)
      decreases |rest|
    {
      var key :| key in rest;
      forall b: u8 ensures SumFor(rest, b) == (if key.0 == b then rest[key] else 0) + SumFor(rest - {key}, b) {
        SumForRemove(rest, key, b);
      }
      biomeCounts[key.0] := biomeCounts[key.0] + rest[key];
      rest := rest - {key};
    }
  }

  /** Counting one more key of biome `b` adds one to the sum for `b`. */
  lemma SumForBump(m: map<Key, nat>, k: Key, b: u8)
    ensures SumFor(m[k := Get(m, k) + 1], b) == SumFor(m, b) + (if k.0 == b then 1 else 0)
  {
    var m' := m[k := Get(m, k) + 1];
    SumForRemove(m', k, b);
    assert m' - {k} == m - {k};
    if k in m {
      SumForRemove(m, k, b);
    } else {
      assert m - {k} == m;
    }
  }

  /** The number of keys of biome `b` in a run. */
  function InBiome(keys: seq<Key>, b: u8): nat {
    if keys == [] then 0
    else InBiome(keys[..|keys| - 1], b) + (if keys[|keys| - 1].0 == b then 1 else 0)
  }

  /** The per-biome total of a tally is the number of counted blocks in
      that biome. */
  lemma {:induction false} BiomeTotal(keys: seq<Key>, b: u8)
    ensures SumFor(Tally(keys), b) == InBiome(keys, b)
  {
    if keys != [] {
      var init, key := keys[..|keys| - 1], keys[|keys| - 1];
      BiomeTotal(init, b);
      assert Tally(keys) == Tally(init)[key := Get(Tally(init), key) + 1];
      SumForBump(Tally(init), key, b);
    }
  }

  // ---------------------------------------------------------------------------
  // `main`: the tiles' counts merged; `names_map`

  /** All the tiles' counts merged into one, in order. */
  function MergedAll(tiles: seq<map<Key, nat>>): map<Key, nat> {
    if tiles == [] then map[] else Merged(MergedAll(tiles[..|tiles| - 1]), tiles[|tiles| - 1])
  }

  function Concat(runs: seq<seq<Key>>): seq<Key> {
    if runs == [] then [] else Concat(runs[..|runs| - 1]) + runs[|runs| - 1]
  }

  function Tallies(runs: seq<seq<Key>>): (ts: seq<map<Key, nat>>)
    ensures |ts| == |runs|
  {
    if runs == [] then [] else Tallies(runs[..|runs| - 1]) + [Tally(runs[|runs| - 1])]
  }

  /** Merging the tallies of several tiles is the tally of all their keys:
      the order in which tiles arrive does not matter beyond the order of
      keys, which a tally forgets. */
  lemma {:induction false} MergedAllTallies(runs: seq<seq<Key>>)
    ensures MergedAll(Tallies(runs)) == Tally(Concat(runs))
  {
    if runs != [] {
      var init := runs[..|runs| - 1];
      var ts := Tallies(runs);
      MergedAllTallies(init);
      assert ts[..|ts| - 1] == Tallies(init);
      MergedTallies(Concat(init), runs[|runs| - 1]);
    }
  }

  /** `main`'s collection of the tiles' results: the first failed tile ends
      the run without output; otherwise every tile's counts are merged. */
  method MergeResults(results: seq<Result<map<Key, nat>>>) returns (r: Option<map<Key, nat>>)
    ensures r.None? <==> exists i | 0 <= i < |results| :: results[i].Err?
    ensures r.Some? ==> r.value == MergedAll(seq(|results|, i requires 0 <= i < |results| => results[i].value))
  {
    var counts := new BiomeBlockCounts();
    ghost var values: seq<map<Key, nat>> := [];
    for workDone := 0 to |results|
      invariant |values| == workDone
      invariant forall i | 0 <= i < workDone :: results[i].Ok? && values[i] == results[i].value
      invariant counts.counts == MergedAll(values)
    {
      var result := results[workDone];
      if result.Err? {
        return None;
      }
      counts.MergeInto(result.value);
      values := values + [result.value];
      assert values[..|values| - 1] == values[..workDone];
    }
    assert values == seq(|results|, i requires 0 <= i < |results| => results[i].value);
    return Some(counts.counts);
  }

  /** `names_map`: the tile's name-to-id table turned around. Every id of
      the table is mapped back to a name that the table gives that id. */
  method NamesMap(keys: map<string, u16>) returns (names: map<u16, string>)
    ensures names.Keys == keys.Values
    ensures forall nr | nr in names :: names[nr] in keys && keys[names[nr]] == nr
  {
    names := map[];
    var rest := keys.Keys;
    while rest != {}
      invariant rest <= keys.Keys
      invariant forall nr | nr in names :: names[nr] in keys && keys[names[nr]] == nr
      invariant forall name | name in keys && name !in rest :: keys[name] in names
      invariant forall nr | nr in names :: exists name | name in keys && name !in rest :: keys[name] == nr
      decreases |rest|
    {
      var name :| name in rest;
      names := names[keys[name] := name];
      rest := rest - {name};
    }
  }
}
