/** Column colourings for map rendering: each maps the 17 bytes of one
    column (height, blockstate, light, …, biome) to a 32-bit RGBA colour with
    red in the low byte and alpha in the high byte; 0 is transparent. */
module Colors {
  import opened Common

  /** The 17 bytes of one column in the pre-1.13 layout: height at 0, the
      surface blockstate's id at 1-2 (its low byte at 2), light at 3, the
      sea floor's height at 4, …, and the biome at 16. */
  type Column = s: seq<u8> | |s| == 17 witness [0, 0, 0, 0, 0, 0, 0, 0, 0, 0, 0, 0, 0, 0, 0, 0, 0]

  predicate AllZero(column: Column) {
    forall i | 0 <= i < 17 :: column[i] == 0
  }

  // ---------------------------------------------------------------------------
  // Packing and unpacking colours

  function Red(c: u32): u8 { c % 0x100 }
  function Green(c: u32): u8 { c / 0x100 % 0x100 }
  function Blue(c: u32): u8 { c / 0x100 / 0x100 % 0x100 }
  function Alpha(c: u32): u8 { c / 0x100 / 0x100 / 0x100 }

  lemma DivMod256(n: int, r: int, q: int)
    requires 0 <= r < 0x100 && n == r + 0x100 * q
    ensures n % 0x100 == r && n / 0x100 == q
  {
  }

  /** `rgba`: the four channels ORed into their bytes (the bytes do not
      overlap, so the OR is a sum); each channel reads back. */
  function Rgba(r: u8, g: u8, b: u8, a: u8): (c: u32)
    ensures Red(c) == r && Green(c) == g && Blue(c) == b && Alpha(c) == a
  {
    var ab := b + 0x100 * a;
    var abg := g + 0x100 * ab;
    var c := r + 0x100 * abg;
    DivMod256(c, r, abg);
    DivMod256(abg, g, ab);
    DivMod256(ab, b, a);
    c
  }

  /** A colour is its four channels. */
  lemma RgbaOfChannels(c: u32)
    ensures Rgba(Red(c), Green(c), Blue(c), Alpha(c)) == c
  {
    var q1 := c / 0x100;
    var q2 := q1 / 0x100;
    DivMod256(c, Red(c), q1);
    DivMod256(q1, Green(c), q2);
    DivMod256(q2, Blue(c), Alpha(c));
  }

  const TRANSPARENT: u32 := 0
  const WATER: u32 := Rgba(166, 197, 255, 255)
  const LAND: u32 := Rgba(231, 228, 220, 255)
  const DEEP_WATER: u32 := Rgba(0, 0, 127, 255)

  /** Blockstate ids 8 and 9: flowing and still water. */
  predicate IsWater(b: u8) { b == 8 || b == 9 }

  // ---------------------------------------------------------------------------
  // The colourings

  /** `simple`: transparent for an empty column, light blue on water and
      beige elsewhere. */
  function Simple(column: Column): (c: u32)
    ensures c == TRANSPARENT <==> AllZero(column)
    ensures !AllZero(column) ==> Alpha(c) == 255 && (c == WATER <==> IsWater(column[2]))
  {
    if AllZero(column) then TRANSPARENT
    else if IsWater(column[2]) then WATER
    else LAND
  }

  const BIOME_COLOR: u32 := 0x88ff88ff

  /** `BIOME_COLORS`: one colour per biome id, all the same light green. */
  function BiomeColors(): (s: seq<u32>)
    ensures |s| == 256
  {
    seq(256, (i: int) => BIOME_COLOR)
  }

  /** `biome`: transparent for an empty column, else the colour of the
      column's biome. */
  function Biome(column: Column): (c: u32)
    ensures AllZero(column) ==> c == TRANSPARENT
    ensures !AllZero(column) ==> c == BIOME_COLOR
  {
    if AllZero(column) then TRANSPARENT else BiomeColors()[column[16]]
  }

  /** `lightmap`: transparent for an empty column, opaque black below height
      50, else the grey of the light level in the low nibble of byte 3. */
  function Lightmap(column: Column): (c: u32)
    ensures AllZero(column) ==> c == TRANSPARENT
    ensures !AllZero(column) ==> Alpha(c) == 255 && Red(c) == Green(c) == Blue(c)
    ensures !AllZero(column) && column[0] < 50 ==> Red(c) == 0
    ensures !AllZero(column) && column[0] >= 50 ==> Red(c) == column[3] % 16 * 17
  {
    if AllZero(column) then TRANSPARENT
    else if column[0] < 50 then Rgba(0, 0, 0, 255)
    else
      var bl := column[3] % 16;
      Rgba(bl * 17, bl * 17, bl * 17, 255)
  }

  /** `heightmap_grayscale`: transparent for an empty column, else the
      height as an opaque grey. */
  function HeightmapGrayscale(column: Column): (c: u32)
    ensures AllZero(column) ==> c == TRANSPARENT
    ensures !AllZero(column) ==> Alpha(c) == 255 && Red(c) == Green(c) == Blue(c) == column[0]
  {
    if AllZero(column) then TRANSPARENT else Rgba(column[0], column[0], column[0], 255)
  }

  const SEA_LEVEL: nat := 95

  /** `u32` subtraction, which wraps around in a release build. */
  function SubU32(x: u32, y: u32): (d: u32)
    ensures y <= x ==> d == x - y
    ensures y > x ==> d == 0x1_0000_0000 + x - y
  {
    (x - y) % 0x1_0000_0000
  }

  /** The green of dry land below sea level: darker the deeper it is dug. */
  function DugOutGreen(h: nat): (g: u8)
    requires h < SEA_LEVEL
  {
    h * 255 / SEA_LEVEL
  }

  /** The red and blue of land at or above sea level: paler the higher. */
  function TerrainPale(h: u8): (p: u8)
    requires h >= SEA_LEVEL
  {
    (h - SEA_LEVEL) * 255 / (255 - SEA_LEVEL)
  }

  /** The green of water `d` deep: darker the deeper. */
  function WaterGreen(d: nat): (g: u8)
    requires d <= SEA_LEVEL
  {
    255 - d * 255 / SEA_LEVEL
  }

  /** `heightmap`: transparent where nothing is recorded (height 0); on land
      green below sea level and green fading to white above it; on water a
      blue whose green part shrinks with the depth, dark blue beyond 95
      blocks. The depth is a `u32` subtraction of the sea floor's height. */
  function Heightmap(column: Column): (c: u32)
    ensures c == TRANSPARENT <==> column[0] == 0
    ensures column[0] != 0 ==> Alpha(c) == 255
    ensures column[0] != 0 && !IsWater(column[2]) && column[0] < SEA_LEVEL ==>
      Red(c) == Blue(c) == 0 && Green(c) == DugOutGreen(column[0])
    ensures column[0] != 0 && !IsWater(column[2]) && column[0] >= SEA_LEVEL ==>
      Green(c) == 255 && Red(c) == Blue(c) == TerrainPale(column[0])
    ensures column[0] != 0 && IsWater(column[2]) && column[4] > column[0] ==> c == DEEP_WATER
    ensures column[0] != 0 && IsWater(column[2]) && column[4] <= column[0] && column[0] - column[4] <= SEA_LEVEL ==>
      Red(c) == 0 && Green(c) == WaterGreen(column[0] - column[4]) && Blue(c) == 255 - Green(c) / 2
  {
    var h: u32 := column[0];
    if h == 0 then Rgba(0, 0, 0, 0)
    else
      var b := column[2];
      if !IsWater(b) then
        if h < SEA_LEVEL then Rgba(0, DugOutGreen(h), 0, 255)
        else
          var p := TerrainPale(h);
          Rgba(p, 255, p, 255)
      else
        var d := SubU32(h, column[4]);
        if d > SEA_LEVEL then DEEP_WATER
        else
          var g := WaterGreen(d);
          Rgba(0, g, 255 - g / 2, 255)
  }

  /** Deeper dug-out land is darker, and deeper water too. */
  lemma DepthShading(h1: nat, h2: nat)
    ensures h1 <= h2 < SEA_LEVEL ==> DugOutGreen(h1) <= DugOutGreen(h2)
    ensures h1 <= h2 <= SEA_LEVEL ==> WaterGreen(h1) >= WaterGreen(h2)
  {
    if h1 <= h2 <= SEA_LEVEL {
      DivMonotone(h1 * 255, h2 * 255, SEA_LEVEL);
    }
  }

  lemma DivMonotone(a: nat, b: nat, k: nat)
    requires a <= b && k > 0
    ensures a / k <= b / k
  {
    var qa, qb := a / k, b / k;
    assert qa * k <= a && b < qb * k + k;
    assert qa * k < (qb + 1) * k;
    MulCancel(qa, qb + 1, k);
  }

  lemma MulCancel(x: nat, y: nat, k: nat)
    requires k > 0 && x * k < y * k
    ensures x < y
  {
  }

  /** The `heightmap` colour of a column on water: dark blue exactly when the
      surface lies more than 95 blocks above the sea floor or below it. */
  lemma HeightmapWater(column: Column)
    requires column[0] != 0 && IsWater(column[2])
    ensures Heightmap(column) == DEEP_WATER <==> column[4] > column[0] || column[0] - column[4] > SEA_LEVEL
  {
    var d := SubU32(column[0], column[4]);
    if column[4] <= column[0] && d <= SEA_LEVEL {
      var g := WaterGreen(d);
      assert Blue(Heightmap(column)) == 255 - g / 2 >= 128;
    }
  }

  // ---------------------------------------------------------------------------
  // Choosing a colouring

  /** The colourings a renderer can be asked for. */
  datatype Colorizer = Biome(todoColors: u8) | Height | Light | Simple | Terrain | Unknown

  /** `column_color_fn`: Simple, Terrain and Unknown colour as `simple`,
      Light as `lightmap`, Biome as `biome` and Height as `heightmap`. */
  function ColumnColorFn(z: Colorizer): (f: Column -> u32)
    ensures z.Simple? || z.Terrain? || z.Unknown? ==> forall column: Column :: f(column) == Simple(column)
    ensures z.Light? ==> forall column: Column :: f(column) == Lightmap(column)
    ensures z.Biome? ==> forall column: Column :: f(column) == Biome(column)
    ensures z.Height? ==> forall column: Column :: f(column) == Heightmap(column)
  {
    match z
    case Simple | Terrain | Unknown => Simple
    case Light => Lightmap
    case Biome(_) => Biome
    case Height => Heightmap
  }
}
