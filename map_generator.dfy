/**
 * The map generator component: its constants, its inspector settings and the clamps applied
 * to them on every edit, the planar window of noise space a chunk samples, and the map it
 * assembles. The noise library itself is a parameter.
 */
module MapGeneration {
  import opened Base
  import opened HeightMaps
  import opened MeshLayout

  /** Samples per side of a generated map. */
  const ChunkSize: int := 97

  /** Number of mesh levels of detail a terrain chunk caches. */
  const LevelsOfDetail: int := 5

  /** Every level of detail a chunk can cache yields a step that divides the map side minus one. */
  lemma StepsDivideChunk(levelOfDetail: int)
    requires 0 <= levelOfDetail < LevelsOfDetail
    ensures (ChunkSize - 1) % Step(levelOfDetail) == 0
    ensures (ChunkSize - 1) / Step(levelOfDetail) in {96, 48, 24, 16, 12}
  {
  }

  /**
   * Both generators stay inside their buffers and the data on a ChunkSize x ChunkSize map at
   * every cached level, the flat one writing 2 * (96 / step)^2 triangles.
   */
  lemma ChunkMeshesFit(levelOfDetail: int)
    requires 0 <= levelOfDetail < LevelsOfDetail
    ensures FlatRunsClean(ChunkSize, ChunkSize, Step(levelOfDetail))
    ensures SharedRunsClean(ChunkSize, ChunkSize, Step(levelOfDetail))
    ensures Count(ChunkSize - 1, Step(levelOfDetail)) == (ChunkSize - 1) / Step(levelOfDetail)
  {
    StepsDivideChunk(levelOfDetail);
    FlatRunsCleanOnSquare(ChunkSize, Step(levelOfDetail));
    SharedRunsCleanOnSquare(ChunkSize, Step(levelOfDetail));
    CountOfDivisible(ChunkSize - 1, Step(levelOfDetail));
  }

  /** Unity's Mathf.Max on floats: `a > b ? a : b`. */
  function MaxFloat(a: real, b: real): real
  {
    if a > b then a else b
  }

  /** Unity's Mathf.Max on ints: `a > b ? a : b`. */
  function MaxInt(a: int, b: int): int
  {
    if a > b then a else b
  }

  /** An RGBA colour of the generated texture. */
  datatype Color = Color(r: real, g: real, b: real, a: real)

  /** The settings OnValidate constrains. */
  datatype ValidatedSettings = ValidatedSettings(mapSize: Vec2, lacunarity: real, octaves: int)

  /** Each map-size component raised to at least 1: the least value that is both >= 1 and >= it. */
  function ClampMapSize(mapSize: Vec2): (r: Vec2)
    ensures r.x >= 1.0 && r.x >= mapSize.x && (r.x == 1.0 || r.x == mapSize.x)
    ensures r.y >= 1.0 && r.y >= mapSize.y && (r.y == 1.0 || r.y == mapSize.y)
  {
    Vec2(MaxFloat(1.0, mapSize.x), MaxFloat(1.0, mapSize.y))
  }

  /** The lacunarity raised to at least 1. */
  function ClampLacunarity(lacunarity: real): (r: real)
    ensures r >= 1.0 && r >= lacunarity && (r == 1.0 || r == lacunarity)
  {
    MaxFloat(1.0, lacunarity)
  }

  /** The octave count raised to at least 0. */
  function ClampOctaves(octaves: int): (r: int)
    ensures r >= 0 && r >= octaves && (r == 0 || r == octaves)
  {
    MaxInt(0, octaves)
  }

  /** The settings OnValidate accepts as they are. */
  predicate IsValid(v: ValidatedSettings)
  {
    v.mapSize.x >= 1.0 && v.mapSize.y >= 1.0 && v.lacunarity >= 1.0 && v.octaves >= 0
  }

  /**
   * The three clamps of OnValidate, in the order it applies them: the result is valid, and it
   * equals the input exactly when the input was already valid.
   */
  function Validate(v: ValidatedSettings): (r: ValidatedSettings)
    ensures IsValid(r)
    ensures r == v <==> IsValid(v)
  {
    ValidatedSettings(ClampMapSize(v.mapSize), ClampLacunarity(v.lacunarity), ClampOctaves(v.octaves))
  }

  /**
   * Field by field: each setting already at its bound is unchanged, and one below it is raised
   * to exactly the bound.
   */
  lemma ValidateEstablishes(v: ValidatedSettings)
    ensures Validate(v).mapSize.x == if v.mapSize.x >= 1.0 then v.mapSize.x else 1.0
    ensures Validate(v).mapSize.y == if v.mapSize.y >= 1.0 then v.mapSize.y else 1.0
    ensures Validate(v).lacunarity == if v.lacunarity >= 1.0 then v.lacunarity else 1.0
    ensures Validate(v).octaves == if v.octaves >= 0 then v.octaves else 0
  {
  }

  /** OnValidate is idempotent: a second pass changes nothing. */
  lemma ValidateIdempotent(v: ValidatedSettings)
    ensures Validate(Validate(v)) == Validate(v)
  {
  }

  /** The noise parameters GenerateMap hands to Perlin. */
  datatype PerlinSettings = PerlinSettings(octaveCount: int, frequency: real, lacunarity: real, persistence: real, seed: int)

  /** The rectangle of noise space GeneratePlanar samples: x from left to right, y from top to bottom. */
  datatype PlanarWindow = PlanarWindow(left: real, right: real, top: real, bottom: real)

  /**
   * The window for a chunk at `offset`: each axis spans 1 / scale, centred on
   * (offset + shift) / scale, with the y offset negated.
   */
  function PlanarWindowFor(offset: Vec2, shift: Vec2, scale: Vec2): (w: PlanarWindow)
    requires scale.x != 0.0 && scale.y != 0.0
    ensures w.right - w.left == 1.0 / scale.x && w.bottom - w.top == 1.0 / scale.y
    ensures (w.left + w.right) / 2.0 == (offset.x + shift.x) / scale.x
    ensures (w.top + w.bottom) / 2.0 == (-offset.y + shift.y) / scale.y
  {
    assert 0.5 / scale.x + 0.5 / scale.x == 1.0 / scale.x;
    assert 0.5 / scale.y + 0.5 / scale.y == 1.0 / scale.y;
    var halfShift := Vec2(0.5 / scale.x, 0.5 / scale.y);
    PlanarWindow((offset.x + shift.x) / scale.x - halfShift.x,
                 (offset.x + shift.x) / scale.x + halfShift.x,
                 (-offset.y + shift.y) / scale.y - halfShift.y,
                 (-offset.y + shift.y) / scale.y + halfShift.y)
  }

  /**
   * Chunks one coordinate apart sample windows that abut: the next chunk in x starts where this
   * one ends, and the next chunk in y ends (in noise y) where this one starts.
   */
  lemma NeighbouringWindowsAbut(offset: Vec2, shift: Vec2, scale: Vec2)
    requires scale.x != 0.0 && scale.y != 0.0
    ensures PlanarWindowFor(Vec2(offset.x + 1.0, offset.y), shift, scale).left == PlanarWindowFor(offset, shift, scale).right
    ensures PlanarWindowFor(Vec2(offset.x, offset.y + 1.0), shift, scale).bottom == PlanarWindowFor(offset, shift, scale).top
  {
    assert (offset.x + 1.0 + shift.x) / scale.x == (offset.x + shift.x) / scale.x + 1.0 / scale.x;
    assert (-(offset.y + 1.0) + shift.y) / scale.y == (-offset.y + shift.y) / scale.y - 1.0 / scale.y;
    assert 0.5 / scale.x + 0.5 / scale.x == 1.0 / scale.x;
    assert 0.5 / scale.y + 0.5 / scale.y == 1.0 / scale.y;
  }

  /** What GenerateMap returns: the height map and the texture's pixels. */
  datatype Map = Map(heightMap: HeightMap, colorMap: seq<Color>)

  /** The normalised noise data, ChunkSize x ChunkSize, element [i, j] drawn from `sample`. */
  function NoiseGrid(sample: (PerlinSettings, PlanarWindow, int, int) -> real, perlin: PerlinSettings, window: PlanarWindow): (g: Grid)
    ensures g.length0 == ChunkSize && g.length1 == ChunkSize
  {
    RawGrid(ChunkSize, ChunkSize,
            seq(ChunkSize, i => seq(ChunkSize, j => sample(perlin, window, i, j))))
  }

  class MapGenerator {
    var mapSize: Vec2
    var noiseShift: Vec2
    var noiseScale: Vec2
    var frequency: real
    var lacunarity: real
    var octaves: int
    var persistence: real
    var seed: int
    var meshHeightMultiplier: real
    var meshHeightCurve: real -> real
    var levelOfDetail: int

    /** The inspector defaults; the curve is whatever the scene assigns. */
    constructor (meshHeightCurve: real -> real)
      ensures mapSize == Vec2(1.0, 1.0) && noiseShift == Vec2(0.0, 0.0) && noiseScale == Vec2(1.0, 1.0)
      ensures frequency == 1.0 && lacunarity == 2.0 && octaves == 6 && persistence == 0.5 && seed == 0
      ensures meshHeightMultiplier == 10.0 && this.meshHeightCurve == meshHeightCurve && levelOfDetail == 0
      ensures IsValid(Settings())
    {
      mapSize := Vec2(1.0, 1.0);
      noiseShift := Vec2(0.0, 0.0);
      noiseScale := Vec2(1.0, 1.0);
      frequency := 1.0;
      lacunarity := 2.0;
      octaves := 6;
      persistence := 0.5;
      seed := 0;
      meshHeightMultiplier := 10.0;
      this.meshHeightCurve := meshHeightCurve;
      levelOfDetail := 0;
    }

    /** The settings OnValidate constrains, as one value. */
    function Settings(): ValidatedSettings
      reads this
    {
      ValidatedSettings(mapSize, lacunarity, octaves)
    }

    /** Start: draws a fresh seed. */
    method Start(next: int)
      requires 0 <= next < 0x7FFF_FFFF
      modifies this`seed
      ensures seed == next && 0 <= seed < 0x7FFF_FFFF
    {
      NewSeed(next);
    }

    /** NewSeed: `next` stands for System.Random.Next(), a value in [0, int.MaxValue). */
    method NewSeed(next: int)
      requires 0 <= next < 0x7FFF_FFFF
      modifies this`seed
      ensures seed == next && 0 <= seed < 0x7FFF_FFFF
    {
      seed := next;
    }

    method ValidateMapSize()
      modifies this`mapSize
      ensures mapSize == ClampMapSize(old(mapSize))
      ensures mapSize.x >= 1.0 && mapSize.y >= 1.0
    {
      mapSize := mapSize.(x := MaxFloat(1.0, mapSize.x));
      mapSize := mapSize.(y := MaxFloat(1.0, mapSize.y));
    }

    method ValidateLacunarity()
      modifies this`lacunarity
      ensures lacunarity == ClampLacunarity(old(lacunarity)) && lacunarity >= 1.0
      ensures old(lacunarity) >= 1.0 ==> lacunarity == old(lacunarity)
    {
      lacunarity := MaxFloat(1.0, lacunarity);
    }

    method ValidateOctaves()
      modifies this`octaves
      ensures octaves == ClampOctaves(old(octaves)) && octaves >= 0
      ensures old(octaves) >= 0 ==> octaves == old(octaves)
    {
      octaves := MaxInt(0, octaves);
    }

    /** OnValidate: the three clamps; a second call changes nothing (ValidateIdempotent). */
    method OnValidate()
      modifies this`mapSize, this`lacunarity, this`octaves
      ensures Settings() == Validate(old(Settings()))
      ensures IsValid(Settings())
    {
      ValidateMapSize();
      ValidateLacunarity();
      ValidateOctaves();
      ValidateEstablishes(old(Settings()));
    }

    /** The Perlin module GenerateMap configures from the settings. */
    function Perlin(): PerlinSettings
      reads this
    {
      PerlinSettings(octaves, frequency, lacunarity, persistence, seed)
    }

    /**
     * GenerateMap: samples a ChunkSize x ChunkSize grid of normalised noise over the chunk's
     * planar window, and pairs the height map built on it (the generator's curve and
     * multiplier) with the texture pixels for the same noise.
     */
    function GenerateMap(offset: Vec2, sample: (PerlinSettings, PlanarWindow, int, int) -> real,
                         pixels: (PerlinSettings, PlanarWindow) -> seq<Color>): (m: Map)
      reads this
      requires noiseScale.x != 0.0 && noiseScale.y != 0.0
      ensures m.heightMap.Width() == ChunkSize && m.heightMap.Height() == ChunkSize
      ensures m.heightMap.heightMultiplier == meshHeightMultiplier && m.heightMap.heightCurve == meshHeightCurve
      ensures forall x, y :: 0 <= x < ChunkSize && 0 <= y < ChunkSize ==>
                m.heightMap.InBounds(x, y) &&
                m.heightMap.At(x, y) == meshHeightCurve(sample(Perlin(), PlanarWindowFor(offset, noiseShift, noiseScale), x, y)) * meshHeightMultiplier
      ensures m.colorMap == pixels(Perlin(), PlanarWindowFor(offset, noiseShift, noiseScale))
    {
      var window := PlanarWindowFor(offset, noiseShift, noiseScale);
      Map(HeightMap(NoiseGrid(sample, Perlin(), window), meshHeightCurve, meshHeightMultiplier),
          pixels(Perlin(), window))
    }
  }
}
