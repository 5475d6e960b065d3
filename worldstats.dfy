/** World statistics: every block of every section of every chunk of the
    world's region files is counted by its id and its metadata (4096
    counters, one per `id << 4 | meta`); the regions' counts are summed,
    and regions are found from their file names `r.<x>.<z>.mca`. */
module WorldStats {
  import opened Common

  const COUNTERS: nat := 4096
  const REGION_CHUNKS: nat := 1024

  /** A chunk section's `Blocks` ids and its nibble-packed `Data`. */
  datatype Section = Section(blocks: seq<u8>, data: seq<u8>)

  // ---------------------------------------------------------------------------
  // Block ids and metadata

  /** The metadata of block `i`: the low nibble of `data[i / 2]` for even
      `i`, the high nibble for odd `i` (`& 0xf` and `>> 4` on a byte). */
  function Meta(data: seq<u8>, i: nat): (meta: nat)
    requires i / 2 < |data|
    ensures meta < 16
  {
    if i % 2 == 0 then data[i / 2] % 16 else data[i / 2] / 16
  }

  /** `id << 4 | meta`: the bits do not overlap, so the OR is a sum. */
  function IdMeta(id: u8, meta: nat): (idm: nat)
    requires meta < 16
    ensures idm < COUNTERS
  {
    id * 16 + meta
  }

  /** The printed split of a counter's index: `idmeta >> 4` and `idmeta & 0xf`. */
  function SplitIdMeta(idm: nat): (nat, nat) {
    (idm / 16, idm % 16)
  }

  /** Splitting recovers the id and the metadata, and every counter is the
      counter of exactly one pair. */
  lemma IdMetaSplit(id: u8, meta: nat, idm: nat)
    requires meta < 16
    ensures SplitIdMeta(IdMeta(id, meta)) == (id as nat, meta)
    ensures idm < COUNTERS ==> SplitIdMeta(idm).0 < 256 && SplitIdMeta(idm).1 < 16 &&
                               IdMeta(SplitIdMeta(idm).0, SplitIdMeta(idm).1) == idm
  {
  }

  /** A byte is its two nibbles. */
  lemma Nibbles(data: seq<u8>, i: nat)
    requires i / 2 < |data| && i % 2 == 0
    ensures Meta(data, i + 1) * 16 + Meta(data, i) == data[i / 2]
  {
    assert (i + 1) / 2 == i / 2;
  }

  // ---------------------------------------------------------------------------
  // What a region counts

  /** The number of times `v` occurs in `s`. */
  function Occurrences(s: seq<nat>, v: nat): nat {
    if s == [] then 0 else Occurrences(s[..|s| - 1], v) + (if s[|s| - 1] == v then 1 else 0)
  }

  lemma OccurrencesAppend(s: seq<nat>, t: seq<nat>, v: nat)
    ensures Occurrences(s + t, v) == Occurrences(s, v) + Occurrences(t, v)
    decreases |t|
  {
    if t == [] {
      assert s + t == s;
    } else {
      assert (s + t)[..|s + t| - 1] == s + t[..|t| - 1];
      OccurrencesAppend(s, t[..|t| - 1], v);
    }
  }

  /** The counter index of every block of a section; a `Data` array too
      short for the blocks panics when the missing byte is read. */
  function SectionIdMetas(section: Section): (r: Outcome<seq<nat>>)
    ensures r.Returns? ==> |r.value| == |section.blocks|
  {
    if |section.blocks| > 2 * |section.data| then Panics
    else Returns(IdMetasUpTo(section, |section.blocks|))
  }

  /** The counter indices of the first `n` blocks of a section. */
  function IdMetasUpTo(section: Section, n: nat): (ids: seq<nat>)
    requires n <= |section.blocks| && n <= 2 * |section.data|
    ensures |ids| == n
  {
    seq(n, i requires 0 <= i < n => IdMeta(section.blocks[i], Meta(section.data, i)))
  }

  lemma IdMetasStep(section: Section, n: nat)
    requires n < |section.blocks| && n < 2 * |section.data|
    ensures IdMetasUpTo(section, n + 1) == IdMetasUpTo(section, n) + [IdMeta(section.blocks[n], Meta(section.data, n))]
  {
  }

  /** The counter indices of the first `k` sections of a chunk. */
  function SectionsIdMetas(sections: seq<Section>, k: nat): Outcome<seq<nat>>
    requires k <= |sections|
  {
    if k == 0 then Returns([])
    else match SectionsIdMetas(sections, k - 1)
      case Panics => Panics
      case Returns(ids) =>
        match SectionIdMetas(sections[k - 1])
        case Panics => Panics
        case Returns(more) => Returns(ids + more)
  }

  /** One of the region's 32 x 32 chunk slots: absent, unreadable (the
      loader's error message), or the chunk's sections. */
  type ChunkSlot = Option<Result<seq<Section>>>

  /** The counter indices of the first `n` chunk slots, in order: the first
      chunk that fails to load ends the region with its error. */
  function ChunksIdMetas(chunks: seq<ChunkSlot>, n: nat): Outcome<Result<seq<nat>>>
    requires n <= |chunks|
  {
    if n == 0 then Returns(Ok([]))
    else match ChunksIdMetas(chunks, n - 1)
      case Panics => Panics
      case Returns(Err(e)) => Returns(Err(e))
      case Returns(Ok(ids)) =>
        match chunks[n - 1]
        case None => Returns(Ok(ids))
        case Some(Err(e)) => Returns(Err(e))
        case Some(Ok(sections)) =>
          match SectionsIdMetas(sections, |sections|)
          case Panics => Panics
          case Returns(more) => Returns(Ok(ids + more))
  }

  /** The 4096 counters of a run of counter indices. */
  function Histogram(ids: seq<nat>): (h: seq<nat>)
    ensures |h| == COUNTERS
  {
    seq(COUNTERS, idm requires 0 <= idm < COUNTERS => Occurrences(ids, idm))
  }

  /** Every block is counted exactly once: the counters add up to the
      number of blocks. */
  lemma {:induction false} HistogramTotal(ids: seq<nat>)
    requires forall i | 0 <= i < |ids| :: ids[i] < COUNTERS
    ensures SumTo(Histogram(ids), COUNTERS) == |ids|
  {
    if ids == [] {
      SumZero(Histogram(ids), COUNTERS);
    } else {
      var init, last := ids[..|ids| - 1], ids[|ids| - 1];
      HistogramTotal(init);
      SumBump(Histogram(init), Histogram(ids), last, COUNTERS);
    }
  }

  lemma {:induction false} SumZero(s: seq<nat>, n: nat)
    requires n <= |s| && forall j | 0 <= j < n :: s[j] == 0
    ensures SumTo(s, n) == 0
  {
    if n > 0 {
      SumZero(s, n - 1);
    }
  }

  /** The sum of the first `n` entries. */
  function SumTo(s: seq<nat>, n: nat): nat
    requires n <= |s|
  {
    if n == 0 then 0 else SumTo(s, n - 1) + s[n - 1]
  }

  /** Raising one entry by one raises the sum by one. */
  lemma {:induction false} SumBump(s: seq<nat>, t: seq<nat>, k: nat, n: nat)
    requires |s| == |t| && n <= |s| && k < |s|
    requires forall j | 0 <= j < |s| :: t[j] == s[j] + (if j == k then 1 else 0)
    ensures SumTo(t, n) == SumTo(s, n) + (if k < n then 1 else 0)
  {
    if n > 0 {
      SumBump(s, t, k, n - 1);
    }
  }

  // ---------------------------------------------------------------------------
  // Region file names

  /** `xz_from_region_path` as written: the name without its last four
      characters is split at its first two dots and the second and third
      pieces are parsed, each `try!` returning a parse error at once. It
      panics on a name shorter than four characters, on a cut name without
      a dot (the second `unwrap`), and on one with exactly one dot whose
      second piece parses (the third `unwrap`). */
  function XzAsWritten(fname: string): Outcome<Result<(i32, i32)>> {
    if |fname| < 4 then Panics
    else
      var pieces := SplitN(fname[..|fname| - 4], '.', 3);
      if |pieces| < 2 then Panics
      else match ParseI32(pieces[1])
        case Err(e) => Returns(Err(e))
        case Ok(x) =>
          if |pieces| < 3 then Panics
          else match ParseI32(pieces[2])
            case Err(e) => Returns(Err(e))
            case Ok(z) => Returns(Ok((x, z)))
  }

  /** A non-region file whose cut name has no dot makes
      `xz_from_region_path` panic instead of failing, so `get_regions` panics
      before reaching its branch for non-region files. */
  lemma NonRegionNamePanics()
    ensures XzAsWritten("level.dat") == Panics
  {
    SplitNNoSep("level", '.', 3);
  }

  /** A cut name with exactly one dot whose second piece parses panics at
      the third `unwrap`. */
  lemma OneDotNamePanics()
    ensures XzAsWritten("r.5.mca") == Panics
  {
    assert "r.5.mca"[..3] == "r" + "." + "5";
    SplitNNoSep("5", '.', 2);
    SplitNCons("r.5", "r", '.', "5", 3, ["5"], ["r", "5"]);
    assert ParseI32("5") == Ok(5);
  }

  /** Names whose pieces do not parse are errors, which reach the branch
      for non-region files of `get_regions`. */
  lemma UnparsedNamesFail()
    ensures XzAsWritten("session.lock") == Returns(Err(EMPTY_MSG))
    ensures XzAsWritten("a.b.mca") == Returns(Err(INVALID_MSG))
  {
    SessionLockFails();
    assert "a.b.mca"[..3] == "a" + "." + "b";
    SplitNNoSep("b", '.', 2);
    SplitNCons("a.b", "a", '.', "b", 3, ["b"], ["a", "b"]);
    assert !IsDigit('b');
  }

  lemma SessionLockFails()
    ensures XzAsWritten("session.lock") == Returns(Err(EMPTY_MSG))
  {
    assert "session.lock"[..8] == "session" + "." + "";
    SplitNNoSep("", '.', 2);
    SplitNCons("session.", "session", '.', "", 3, [""], ["session", ""]);
  }

  /** The region coordinates of a file name `r.<x>.<z>.mca`: an error
      wherever `xz_from_region_path` fails or panics. */
  function XzFromRegionName(fname: string): (r: Result<(i32, i32)>)
    ensures XzAsWritten(fname).Returns? ==> r == XzAsWritten(fname).value
  {
    if |fname| < 4 then Err("file name too short")
    else
      var pieces := SplitN(fname[..|fname| - 4], '.', 3);
      if |pieces| < 2 then Err("not a region file name")
      else
        var x :- ParseI32(pieces[1]);
        if |pieces| < 3 then Err("not a region file name")
        else
          var z :- ParseI32(pieces[2]);
          Ok((x, z))
  }

  /** The name of the region file of region `(x, z)`. */
  function RegionName(x: i32, z: i32): string {
    "r." + ShowInt(x) + "." + ShowInt(z) + ".mca"
  }

  lemma NoDot(x: int)
    ensures '.' !in ShowInt(x)
  {
    var digits := ShowNat(if x < 0 then -x else x);
    ShowNatDigits(if x < 0 then -x else x);
    assert ShowInt(x) == (if x < 0 then "-" + digits else digits);
    assert forall i | 0 <= i < |ShowInt(x)| :: ShowInt(x)[i] == '-' || IsDigit(ShowInt(x)[i]);
  }

  /** Every region's file name reads back as its coordinates. */
  lemma XzOfRegionName(x: i32, z: i32)
    ensures XzFromRegionName(RegionName(x, z)) == Ok((x, z))
  {
    var sx, sz := ShowInt(x), ShowInt(z);
    var name := RegionName(x, z);
    var coords := "r" + ['.'] + (sx + ['.'] + sz);
    assert name[..|name| - 4] == coords;
    NoDot(x);
    NoDot(z);
    SplitNNoSep(sz, '.', 1);
    SplitNCons(sx + ['.'] + sz, sx, '.', sz, 2, [sz], [sx, sz]);
    SplitNCons(coords, "r", '.', sx + ['.'] + sz, 3, [sx, sz], ["r", sx, sz]);
    ParseShowI32(x);
    ParseShowI32(z);
  }

  /** The world border of `get_regions`: 20 x 20 regions around the origin. */
  predicate InBorder(x: i32, z: i32) {
    -10 <= x < 10 && -10 <= z < 10
  }

  /** The region files a `get_regions` loop keeps, in directory order, when
      each name is read with `parse`. */
  function KeptWith(names: seq<string>, parse: string -> Result<(i32, i32)>): seq<string> {
    if names == [] then []
    else
      var last := names[|names| - 1];
      KeptWith(names[..|names| - 1], parse) + KeepIf(last, parse(last))
  }

  /** The region files `get_regions` keeps with the corrected
      `XzFromRegionName`. */
  function Kept(names: seq<string>): seq<string> {
    KeptWith(names, XzFromRegionName)
  }

  /** The file `name` as kept, given its parsed coordinates: itself when
      they lie inside the border, nothing otherwise. */
  function KeepIf(name: string, xz: Result<(i32, i32)>): seq<string> {
    match xz
    case Ok((x, z)) => if InBorder(x, z) then [name] else []
    case Err(_) => []
  }

  /** A file is kept exactly when its name is a region's and the region
      lies inside the border. */
  lemma {:induction false} KeptExactly(names: seq<string>, name: string)
    ensures name in Kept(names) <==>
              name in names && XzFromRegionName(name).Ok? &&
              InBorder(XzFromRegionName(name).value.0, XzFromRegionName(name).value.1)
  {
    if names != [] {
      var init := names[..|names| - 1];
      KeptExactly(init, name);
      assert names == init + [names[|names| - 1]];
    }
  }

  /** `get_regions` over the listed file names, with the corrected
      `XzFromRegionName` in place of `xz_from_region_path`. */
  method GetRegions(names: seq<string>) returns (regionPaths: seq<string>)
    ensures regionPaths == Kept(names)
  {
    regionPaths := [];
    for i := 0 to |names|
      invariant regionPaths == Kept(names[..i])
    {
      assert names[..i + 1][..i] == names[..i];
      var xz := XzFromRegionName(names[i]);
      if xz.Ok? {
        var (x, z) := xz.value;
        if -10 <= x && x < 10 && -10 <= z && z < 10 {
          regionPaths := regionPaths + [names[i]];
        }
      }
      // otherwise the file is ignored, with a message
    }
    assert names[..|names|] == names;
  }

  /** The region files a `get_regions` loop keeps when each name is read
      with `read`, or a panic as soon as `read` panics on one of them. */
  function KeptOrPanic(names: seq<string>, read: string -> Outcome<Result<(i32, i32)>>): Outcome<seq<string>> {
    if names == [] then Returns([])
    else match KeptOrPanic(names[..|names| - 1], read)
      case Panics => Panics
      case Returns(rest) =>
        var last := names[|names| - 1];
        match read(last)
        case Panics => Panics
        case Returns(xz) => Returns(rest + KeepIf(last, xz))
  }

  /** The region files `get_regions` as written keeps, or a panic when
      `xz_from_region_path` panics on one of the names. */
  function KeptAsWritten(names: seq<string>): Outcome<seq<string>> {
    KeptOrPanic(names, XzAsWritten)
  }

  /** A loop whose reader panics or agrees with `parse` panics exactly at a
      name its reader panics on, and otherwise keeps what `parse` keeps. */
  lemma {:induction false} KeptOrPanicAgrees(names: seq<string>, read: string -> Outcome<Result<(i32, i32)>>,
                                             parse: string -> Result<(i32, i32)>)
    requires forall n :: read(n).Returns? ==> read(n).value == parse(n)
    ensures KeptOrPanic(names, read).Panics? <==> exists i | 0 <= i < |names| :: read(names[i]).Panics?
    ensures KeptOrPanic(names, read).Returns? ==> KeptOrPanic(names, read).value == KeptWith(names, parse)
  {
    if names != [] {
      var init, last := names[..|names| - 1], names[|names| - 1];
      KeptOrPanicAgrees(init, read, parse);
      if KeptOrPanic(init, read).Panics? {
        var i :| 0 <= i < |init| && read(init[i]).Panics?;
        assert names[i] == init[i];
      } else if !read(last).Panics? {
        forall i | 0 <= i < |names|
          ensures !read(names[i]).Panics?
        {
          if i < |init| {
            assert names[i] == init[i];
          }
        }
      }
    }
  }

  /** `get_regions` as written panics exactly when a listed name makes
      `xz_from_region_path` panic (such as "level.dat"); otherwise it keeps
      the files `Kept` describes. */
  lemma KeptAsWrittenAgrees(names: seq<string>)
    ensures KeptAsWritten(names).Panics? <==> exists i | 0 <= i < |names| :: XzAsWritten(names[i]).Panics?
    ensures KeptAsWritten(names).Returns? ==> KeptAsWritten(names).value == Kept(names)
  {
    KeptOrPanicAgrees(names, XzAsWritten, XzFromRegionName);
  }

  /** `get_regions` as written over the listed file names. */
  method GetRegionsAsWritten(names: seq<string>) returns (r: Outcome<seq<string>>)
    ensures r == KeptAsWritten(names)
  {
    var regionPaths := [];
    for i := 0 to |names|
      invariant KeptAsWritten(names[..i]) == Returns(regionPaths)
    {
      assert names[..i + 1][..i] == names[..i];
      match XzAsWritten(names[i])
      case Panics =>
        KeptAsWrittenAgrees(names[..i + 1]);
        KeptAsWrittenAgrees(names);
        assert names[..i + 1][i] == names[i];
        return Panics;
      case Returns(xz) =>
        // a file outside the border or not a region's is ignored, with a message
        regionPaths := regionPaths + KeepIf(names[i], xz);
    }
    assert names[..|names|] == names;
    return Returns(regionPaths);
  }

  // ---------------------------------------------------------------------------
  // `analyze_region`

  /** What `analyze_region` yields: a panic when the name is not a region's
      (the `expect`), the loader's error, or the region's coordinates and
      counters. */
  function RegionCounts(fname: string, region: Result<seq<ChunkSlot>>): Outcome<Result<((i32, i32), seq<nat>)>>
    requires region.Ok? ==> |region.value| == REGION_CHUNKS
  {
    match XzFromRegionName(fname)
    case Err(_) => Panics
    case Ok(pos) =>
      match region
      case Err(e) => Returns(Err(e))
      case Ok(chunks) =>
        match ChunksIdMetas(chunks, REGION_CHUNKS)
        case Panics => Panics
        case Returns(Err(e)) => Returns(Err(e))
        case Returns(Ok(ids)) => Returns(Ok((pos, Histogram(ids))))
  }

  /** The blocks of one section counted into `counts`. */
  method CountSection(section: Section, counts: array<nat>, ghost seen: seq<nat>) returns (r: Outcome<()>)
    requires counts.Length == COUNTERS
    requires forall idm | 0 <= idm < COUNTERS :: counts[idm] == Occurrences(seen, idm)
    modifies counts
    ensures r.Panics? <==> SectionIdMetas(section).Panics?
    ensures r.Returns? ==>
              forall idm | 0 <= idm < COUNTERS :: counts[idm] == Occurrences(seen + SectionIdMetas(section).value, idm)
  {
    var blocks, data := section.blocks, section.data;
    ghost var ids: seq<nat> := [];
    assert seen + ids == seen;
    for i := 0 to |blocks|
      invariant i <= 2 * |data| && ids == IdMetasUpTo(section, i)
      invariant forall idm | 0 <= idm < COUNTERS :: counts[idm] == Occurrences(seen + ids, idm)
    {
      if i / 2 >= |data| {
        // `data[i / 2]` out of bounds
        return Panics;
      }
      var blockMeta := if i % 2 == 0 then data[i / 2] % 16 else data[i / 2] / 16;
      var blockIdMeta := blocks[i] as int * 16 + blockMeta;
      assert blockIdMeta == IdMeta(blocks[i], Meta(data, i));
      IdMetasStep(section, i);
      counts[blockIdMeta] := counts[blockIdMeta] + 1;
      assert (seen + (ids + [blockIdMeta]))[..|seen + ids|] == seen + ids;
      ids := ids + [blockIdMeta];
    }
    return Returns(());
  }

  /** The sections of one loaded chunk counted into `counts`. */
  method CountSections(sections: seq<Section>, counts: array<nat>, ghost seen: seq<nat>) returns (r: Outcome<()>)
    requires counts.Length == COUNTERS
    requires forall idm | 0 <= idm < COUNTERS :: counts[idm] == Occurrences(seen, idm)
    modifies counts
    ensures r.Panics? <==> SectionsIdMetas(sections, |sections|).Panics?
    ensures r.Returns? ==>
              forall idm | 0 <= idm < COUNTERS ::
                counts[idm] == Occurrences(seen + SectionsIdMetas(sections, |sections|).value, idm)
  {
    ghost var ids: seq<nat> := [];
    assert seen + ids == seen;
    for k := 0 to |sections|
      invariant SectionsIdMetas(sections, k) == Returns(ids)
      invariant forall idm | 0 <= idm < COUNTERS :: counts[idm] == Occurrences(seen + ids, idm)
    {
      var counted := CountSection(sections[k], counts, seen + ids);
      if counted.Panics? {
        SectionsPanicSticks(sections, k + 1, |sections|);
        return Panics;
      }
      ghost var more := SectionIdMetas(sections[k]).value;
      assert seen + ids + more == seen + (ids + more);
      ids := ids + more;
    }
    return Returns(());
  }

  lemma {:induction false} SectionsPanicSticks(sections: seq<Section>, k: nat, n: nat)
    requires k <= n <= |sections| && SectionsIdMetas(sections, k).Panics?
    ensures SectionsIdMetas(sections, n).Panics?
    decreases n - k
  {
    if k < n {
      SectionsPanicSticks(sections, k + 1, n);
    }
  }

  /** Once a region has failed or panicked, later chunks change nothing. */
  lemma {:induction false} ChunksStopSticks(chunks: seq<ChunkSlot>, k: nat, n: nat)
    requires k <= n <= |chunks| && !(ChunksIdMetas(chunks, k).Returns? && ChunksIdMetas(chunks, k).value.Ok?)
    ensures ChunksIdMetas(chunks, n) == ChunksIdMetas(chunks, k)
    decreases n - k
  {
    if k < n {
      ChunksStopSticks(chunks, k, n - 1);
    }
  }

  /** `analyze_region`: the chunk slots are visited row by row (`z`, then
      `x`), and every block of every section of every present chunk is
      counted under `id << 4 | meta`. */
  method AnalyzeRegion(fname: string, region: Result<seq<ChunkSlot>>)
    returns (r: Outcome<Result<((i32, i32), seq<nat>)>>)
    requires region.Ok? ==> |region.value| == REGION_CHUNKS
    ensures r == RegionCounts(fname, region)
  {
    var xz := XzFromRegionName(fname);
    if xz.Err? {
      return Panics;
    }
    var regionPos := xz.value;
    if region.Err? {
      return Returns(Err(region.error));
    }
    var chunks := region.value;
    var counts := new nat[COUNTERS](_ => 0);
    ghost var ids: seq<nat> := [];
    for z := 0 to 32
      invariant ChunksIdMetas(chunks, z * 32) == Returns(Ok(ids))
      invariant forall idm | 0 <= idm < COUNTERS :: counts[idm] == Occurrences(ids, idm)
    {
      for x := 0 to 32
        invariant ChunksIdMetas(chunks, z * 32 + x) == Returns(Ok(ids))
        invariant forall idm | 0 <= idm < COUNTERS :: counts[idm] == Occurrences(ids, idm)
      {
        var n := z * 32 + x;
        match chunks[n]
        case None =>
        case Some(Err(e)) =>
          ChunksStopSticks(chunks, n + 1, REGION_CHUNKS);
          return Returns(Err(e));
        case Some(Ok(sections)) =>
          var counted := CountSections(sections, counts, ids);
          if counted.Panics? {
            ChunksStopSticks(chunks, n + 1, REGION_CHUNKS);
            return Panics;
          }
          ids := ids + SectionsIdMetas(sections, |sections|).value;
      }
    }
    assert counts[..] == Histogram(ids);
    return Returns(Ok((regionPos, counts[..])));
  }

  // ---------------------------------------------------------------------------
  // `analyze_parallelized`

  /** Counter `j` summed over the regions that were counted; a failed region
      adds nothing. Pairing with `zip` stops at the shorter sequence. */
  function TotalAt(results: seq<Result<((i32, i32), seq<nat>)>>, j: nat): nat {
    if results == [] then 0
    else
      TotalAt(results[..|results| - 1], j) +
      match results[|results| - 1]
      case Err(_) => 0
      case Ok((_, counts)) => if j < |counts| then counts[j] else 0
  }

  /** The regions that were counted. */
  function Successes(results: seq<Result<((i32, i32), seq<nat>)>>): seq<Result<((i32, i32), seq<nat>)>> {
    if results == [] then []
    else
      var rest := Successes(results[..|results| - 1]);
      if results[|results| - 1].Ok? then rest + [results[|results| - 1]] else rest
  }

  lemma {:induction false} TotalOfSuccesses(results: seq<Result<((i32, i32), seq<nat>)>>, j: nat)
    ensures TotalAt(Successes(results), j) == TotalAt(results, j)
  {
    if results != [] {
      var init := results[..|results| - 1];
      TotalOfSuccesses(init, j);
      var s := Successes(results);
      if results[|results| - 1].Ok? {
        assert s[..|s| - 1] == Successes(init);
      }
    }
  }

  /** The totals are the sums of the regions' counters, whatever order the
      regions arrive in: appending a batch of results adds its totals. */
  lemma {:induction false} TotalAppend(a: seq<Result<((i32, i32), seq<nat>)>>, b: seq<Result<((i32, i32), seq<nat>)>>, j: nat)
    ensures TotalAt(a + b, j) == TotalAt(a, j) + TotalAt(b, j)
    decreases |b|
  {
    if b == [] {
      assert a + b == a;
    } else {
      assert (a + b)[..|a + b| - 1] == a + b[..|b| - 1];
      TotalAppend(a, b[..|b| - 1], j);
    }
  }

  /** `counts_total` of `analyze_parallelized`, from the results in the
      order they arrive. */
  method SumRegions(results: seq<Result<((i32, i32), seq<nat>)>>) returns (total: seq<nat>)
    ensures |total| == COUNTERS
    ensures forall j | 0 <= j < COUNTERS :: total[j] == TotalAt(results, j)
  {
    var countsTotal := new nat[COUNTERS](_ => 0);
    for workDone := 0 to |results|
      invariant forall j | 0 <= j < COUNTERS :: countsTotal[j] == TotalAt(results[..workDone], j)
    {
      assert results[..workDone + 1][..workDone] == results[..workDone];
      match results[workDone]
      case Err(_) =>
        // the error is printed
      case Ok((_, countsRegion)) =>
        var n := if |countsRegion| < COUNTERS then |countsRegion| else COUNTERS;
        for j := 0 to n
          invariant forall i | 0 <= i < COUNTERS ::
                      countsTotal[i] == TotalAt(results[..workDone], i) + (if i < j then countsRegion[i] else 0)
        {
          countsTotal[j] := countsTotal[j] + countsRegion[j];
        }
    }
    assert results[..|results|] == results;
    return countsTotal[..];
  }
}
