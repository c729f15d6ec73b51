/**
 * The terrain grid: the chunks it has created, keyed by coordinate; which of them are visible;
 * and each chunk's cache of meshes, one per level of detail.
 */
module TerrainGrids {
  import opened Base
  import opened HeightMaps
  import opened MeshBuilders
  import opened MeshLayout
  import opened MapGeneration
  import opened TerrainMeshGeneration
  import opened ChunkScan
  import opened ChunkCache
  import opened GridTick

  /** One level's mesh and texture; a LodMesh is loaded once both are present. */
  class LodMesh {
    const lod: int
    var mesh: Option<MeshGeometry>
    var texture: Option<TextureData>

    constructor (lod: int)
      ensures this.lod == lod && mesh == None && texture == None
      ensures !IsLoaded() && AsSlot() == Placeholder
    {
      this.lod := lod;
      mesh, texture := None, None;
    }

    method Load(mesh: Option<MeshGeometry>, texture: Option<TextureData>)
      modifies this
      ensures this.mesh == mesh && this.texture == texture
      ensures IsLoaded() <==> mesh.Some? && texture.Some?
      ensures IsLoaded() ==> AsSlot() == Built(mesh.value, texture.value)
    {
      this.mesh, this.texture := mesh, texture;
    }

    predicate IsLoaded()
      reads this
    {
      mesh.Some? && texture.Some?
    }

    /** The slot this LodMesh fills in its chunk's cache. */
    ghost function AsSlot(): Slot
      reads this
    {
      if IsLoaded() then Built(mesh.value, texture.value) else Placeholder
    }
  }

  /** The slot an entry of a chunk's `meshes` array stands for. */
  ghost function SlotOf(m: LodMesh?): Slot
    reads m
  {
    if m == null then Empty else m.AsSlot()
  }

  /**
   * The mesh createMesh builds for a chunk's height map at a level of detail: the flat-shaded
   * cells in the buffers' first slots, the unused remainder left at its defaults.
   */
  ghost predicate IsFlatMesh(g: MeshGeometry, hm: HeightMap, lod: int)
  {
    var s := Step(lod);
    var grid := FlatGrid(s, Count(hm.Height() - 1, s), Count(hm.Width() - 1, s));
    && AllInBounds(hm, grid)
    && |grid| <= |g.vertices| == |g.uvs| == |g.triangles| == 3 * FlatTriangleCapacity(hm.Width(), hm.Height(), s)
    && g.vertices[..|grid|] == Positions(hm, grid)
    && g.uvs[..|grid|] == TexCoords(hm, grid)
    && g.triangles[..|grid|] == Iota(|grid|)
    && (forall i :: |grid| <= i < |g.vertices| ==> g.vertices[i] == Zero3 && g.uvs[i] == Zero2 && g.triangles[i] == 0)
  }

  /**
   * What createMesh makes for the chunk at `coord`: the flat mesh of the height map the
   * generator produces at that offset, and a texture of its colour map.
   */
  ghost predicate IsChunkBuild(g: MeshGeometry, t: TextureData, generator: MapGenerator, coord: Coord, lod: int,
                               sample: (PerlinSettings, PlanarWindow, int, int) -> real,
                               pixels: (PerlinSettings, PlanarWindow) -> seq<Color>)
    reads generator
    requires generator.noiseScale.x != 0.0 && generator.noiseScale.y != 0.0
  {
    var m := generator.GenerateMap(Vec2(coord.x as real, coord.y as real), sample, pixels);
    t == TextureData(ChunkSize, ChunkSize, m.colorMap) && IsFlatMesh(g, m.heightMap, lod)
  }

  /** The position in the scan of radius m where its row number `row` (counted from 0) starts. */
  function RowStart(m: nat, row: nat): nat
  {
    if row == 0 then 0 else RowStart(m, row - 1) + 2 * m + 1
  }

  lemma {:induction false} RowStartIsProduct(m: nat, row: nat)
    ensures RowStart(m, row) == row * (2 * m + 1)
  {
    if row > 0 {
      RowStartIsProduct(m, row - 1);
      MulSucc(row - 1, 2 * m + 1);
    }
  }

  /** Positions start to start + 2m of `scan` hold row y of the square of radius m around c, left to right. */
  ghost predicate RowAt(scan: seq<Coord>, start: nat, c: Coord, m: nat, y: int)
  {
    && start + 2 * m + 1 <= |scan|
    && forall i :: start <= i <= start + 2 * m ==> scan[i] == Coord(c.x - m + (i - start), c.y + y)
  }

  /** Row y of the scan around c occupies 2m + 1 consecutive positions, left to right; the last row ends the scan. */
  lemma ScanRowSlice(c: Coord, m: nat, y: int, start: nat)
    requires 0 <= y + m <= 2 * m && start == RowStart(m, y + m)
    ensures RowAt(Scan(c, m), start, c, m, y)
    ensures y == m ==> start + 2 * m + 1 == |Scan(c, m)|
  {
    var w := 2 * m + 1;
    RowStartIsProduct(m, y + m);
    ScanRowsLength(c, m, w);
    MulSucc(y + m, w);
    MulMono(y + m + 1, w, w);
    forall i | start <= i <= start + 2 * m
      ensures Scan(c, m)[i] == Coord(c.x - m + (i - start), c.y + y)
    {
      ScanRowsAt(c, m, w, y + m, i - start);
    }
  }

  /** Rows `row` to 2m of the square of radius m around c are where RowStart places them in `scan`. */
  ghost predicate RowsFrom(scan: seq<Coord>, c: Coord, m: nat, row: nat)
    decreases 2 * m + 1 - row
  {
    row <= 2 * m ==> RowAt(scan, RowStart(m, row), c, m, row - m) && RowsFrom(scan, c, m, row + 1)
  }

  lemma {:induction false} RowsFromAt(scan: seq<Coord>, c: Coord, m: nat, row: nat, r: nat, y: int)
    requires RowsFrom(scan, c, m, row) && row <= r <= 2 * m && y == r - m
    ensures RowAt(scan, RowStart(m, r), c, m, y)
    decreases r - row
  {
    if row < r {
      RowsFromAt(scan, c, m, row + 1, r, y);
    }
  }

  /** `scan` lists the square of radius m around c row by row, each row left to right, without repeats. */
  ghost predicate RowByRow(scan: seq<Coord>, c: Coord, m: nat)
  {
    && NoDuplicates(scan)
    && |scan| == RowStart(m, 2 * m + 1)
    && RowsFrom(scan, c, m, 0)
  }

  /** Past the last row, the scan has ended. */
  lemma ScanEnd(scan: seq<Coord>, c: Coord, m: nat, row: nat)
    requires RowByRow(scan, c, m) && row == 2 * m + 1
    ensures RowStart(m, row) == |scan|
  {
  }

  lemma {:induction false} ScanRowsFrom(c: Coord, m: nat, row: nat)
    ensures RowsFrom(Scan(c, m), c, m, row)
    decreases 2 * m + 1 - row
  {
    if row <= 2 * m {
      ScanRowSlice(c, m, row - m, RowStart(m, row));
      ScanRowsFrom(c, m, row + 1);
    }
  }

  lemma ScanIsRowByRow(c: Coord, m: nat)
    ensures RowByRow(Scan(c, m), c, m)
  {
    ScanCoversSquare(c, m);
    ScanRowsFrom(c, m, 0);
    ScanRowSlice(c, m, m, RowStart(m, 2 * m));
  }

  /** A visit is the Show, Hide or creation at k followed by the Update at k. */
  lemma VisitInTwoSteps(view: map<Coord, ChunkView>, entered: map<Coord, ChunkView>, k: Coord, d: real)
    requires WellFormed(view)
    requires entered == view[k := if k in view then view[k].(visible := d <= MaxViewDistance) else NewChunkView()]
    ensures WellFormed(entered)
    ensures entered[k := Updated(entered[k], ResolveLevelOfDetail(d))] == Visit(view, k, d)
  {
  }

  /** `list` holds the chunks of the coordinates `visible`, in that order. */
  ghost predicate ListsChunksOf(list: seq<TerrainChunk>, chunks: map<Coord, TerrainChunk>, visible: seq<Coord>)
  {
    |list| == |visible| && forall i :: 0 <= i < |visible| ==> visible[i] in chunks && list[i] == chunks[visible[i]]
  }

  /** Appending a coordinate and its chunk keeps the list in step, when no chunk was replaced. */
  lemma ListsChunksOfStep(list: seq<TerrainChunk>, chunks: map<Coord, TerrainChunk>, visible: seq<Coord>,
                          chunks': map<Coord, TerrainChunk>, k: Coord, extend: bool)
    requires ListsChunksOf(list, chunks, visible)
    requires forall k' :: k' in chunks ==> k' in chunks' && chunks'[k'] == chunks[k']
    requires k in chunks'
    ensures ListsChunksOf(list + if extend then [chunks'[k]] else [], chunks', visible + if extend then [k] else [])
  {
  }

  /**
   * One step of the scan loop on values: visiting k, the coordinate at position n of the scan,
   * takes the loop from its first n coordinates to its first n + 1, given what the visit does to
   * the view, the dictionary and lastVisibleChunks.
   */
  lemma ProgressStep(scan: seq<Coord>, n: nat, n': nat, k: Coord, hidden: map<Coord, ChunkView>, known: map<Coord, TerrainChunk>,
                     distance: Coord -> real, outcomes: seq<UpdateOutcome>, outcome: UpdateOutcome,
                     view: map<Coord, ChunkView>, view': map<Coord, ChunkView>,
                     chunks: map<Coord, TerrainChunk>, chunks': map<Coord, TerrainChunk>,
                     list: seq<TerrainChunk>, list': seq<TerrainChunk>)
    requires WellFormed(hidden) && n < |scan| && n' == n + 1 && scan[n] == k
    requires view == VisitFirst(hidden, scan, n, distance) && outcomes == OutcomesFirst(hidden, scan, n, distance)
    requires forall c :: c in known ==> c in chunks && chunks[c] == known[c]
    requires ListsChunksOf(list, chunks, VisibleFirst(scan, n, known.Keys, distance))
    requires k in chunks <==> k in known
    requires view' == Visit(view, k, distance(k)) && outcome == VisitOutcome(view, k, distance(k))
    requires k in chunks' && forall c :: c in chunks ==> c in chunks' && chunks'[c] == chunks[c]
    requires list' == list + if k in chunks && distance(k) <= MaxViewDistance then [chunks'[k]] else []
    ensures view' == VisitFirst(hidden, scan, n', distance)
    ensures outcomes + [outcome] == OutcomesFirst(hidden, scan, n', distance)
    ensures forall c :: c in known ==> c in chunks' && chunks'[c] == known[c]
    ensures ListsChunksOf(list', chunks', VisibleFirst(scan, n', known.Keys, distance))
  {
    VisitFirstSucc(hidden, scan, n, n', distance);
    OutcomesFirstSucc(hidden, scan, n, n', distance);
    VisibleFirstSucc(scan, n, n', known.Keys, distance);
    ListsChunksOfStep(list, chunks, VisibleFirst(scan, n, known.Keys, distance), chunks', k, k in known && distance(k) <= MaxViewDistance);
  }

  /** The recursive descriptions of the scan loop, one coordinate further on. */
  lemma VisitFirstSucc(hidden: map<Coord, ChunkView>, scan: seq<Coord>, n: nat, n': nat, distance: Coord -> real)
    requires WellFormed(hidden) && n < |scan| && n' == n + 1
    ensures VisitFirst(hidden, scan, n', distance) == Visit(VisitFirst(hidden, scan, n, distance), scan[n], distance(scan[n]))
  {
  }

  lemma OutcomesFirstSucc(hidden: map<Coord, ChunkView>, scan: seq<Coord>, n: nat, n': nat, distance: Coord -> real)
    requires WellFormed(hidden) && n < |scan| && n' == n + 1
    ensures OutcomesFirst(hidden, scan, n', distance)
         == OutcomesFirst(hidden, scan, n, distance) + [VisitOutcome(VisitFirst(hidden, scan, n, distance), scan[n], distance(scan[n]))]
  {
  }

  lemma VisibleFirstSucc(scan: seq<Coord>, n: nat, n': nat, keys: set<Coord>, distance: Coord -> real)
    requires n < |scan| && n' == n + 1
    ensures VisibleFirst(scan, n', keys, distance)
         == VisibleFirst(scan, n, keys, distance) + if scan[n] in keys && distance(scan[n]) <= MaxViewDistance then [scan[n]] else []
  {
  }

  /**
   * After the tick around the viewer's chunk c, a chunk is visible exactly when it existed before,
   * lies in the 13 x 13 square around c, and its squared distance from the viewer is within the
   * squared view distance.
   */
  lemma TickFacts(before: map<Coord, ChunkView>, c: Coord, viewer: Vec2, distance: Coord -> real)
    requires WellFormed(before)
    requires forall k :: IsDistance(distance(k), k, viewer)
    ensures forall k :: k in Tick(before, Scan(c, 6), distance) ==>
              (Tick(before, Scan(c, 6), distance)[k].visible <==>
                 k in before && InSquare(k, c, 6) && SqrDistance(k, viewer) <= MaxViewDistance * MaxViewDistance)
  {
    ScanCoversSquare(c, 6);
    TickEffect(before, Scan(c, 6), distance);
    forall k | k in Tick(before, Scan(c, 6), distance)
      ensures distance(k) <= MaxViewDistance <==> SqrDistance(k, viewer) <= MaxViewDistance * MaxViewDistance
    {
      WithinViewIff(distance(k), k, viewer);
    }
  }

  class TerrainChunk {
    const coord: Coord
    /** The centre of the chunk's 1 x 1 bounds: coord * size. */
    const centre: Vec2
    const meshes: array<LodMesh?>
    /** Whether the chunk's game object is active. */
    var visible: bool
    /** The mesh and texture the chunk's renderer displays. */
    var shown: Shown
    ghost var slots: seq<Slot>
    ghost var Repr: set<object>

    /** `slots` mirrors `meshes`; each stored LodMesh sits at its own level. */
    ghost predicate Valid()
      reads this, Repr
    {
      && meshes in Repr
      && meshes.Length == LevelsOfDetail
      && |slots| == LevelsOfDetail
      && forall i :: 0 <= i < LevelsOfDetail ==>
           (meshes[i] != null ==> meshes[i] in Repr && meshes[i].lod == i) && slots[i] == SlotOf(meshes[i])
    }

    ghost function View(): ChunkView
      reads this
    {
      ChunkView(visible, shown, slots)
    }

    /** A new chunk is created hidden, with an empty cache and nothing displayed. */
    constructor (coord: Coord, size: int)
      ensures Valid() && fresh(Repr)
      ensures this.coord == coord && centre == Vec2((coord.x * size) as real, (coord.y * size) as real)
      ensures View() == NewChunkView()
    {
      this.coord := coord;
      centre := Vec2((coord.x * size) as real, (coord.y * size) as real);
      meshes := new LodMesh?[LevelsOfDetail](_ => null);
      visible := true;
      shown := NothingShown;
      slots := EmptySlots();
      Repr := {meshes};
      new;
      Hide();
    }

    predicate IsVisible()
      reads this
    {
      visible
    }

    method Show()
      modifies this`visible
      ensures IsVisible()
    {
      visible := true;
    }

    method Hide()
      modifies this`visible
      ensures !IsVisible()
    {
      visible := false;
    }

    /** Displays the LodMesh when it is loaded, and otherwise leaves the display as it was. */
    method ApplyMesh(m: LodMesh)
      modifies this`shown
      ensures m.IsLoaded() ==> shown == Shown(m.mesh, m.texture)
      ensures !m.IsLoaded() ==> shown == old(shown)
    {
      if m.IsLoaded() {
        shown := Shown(m.mesh, m.texture);
      }
    }

    /**
     * The synchronous part of Update: on a visible chunk, an empty slot gets a placeholder and
     * starts a build, whose completion is BuildCompleted; a filled slot is applied. A level
     * outside the cache faults the returned task.
     */
    method Update(lod: int) returns (outcome: UpdateOutcome)
      requires Valid()
      modifies this`shown, this`slots, this`Repr, meshes
      ensures Valid() && fresh(Repr - old(Repr))
      ensures outcome == UpdateOutcomeOf(old(slots), visible, lod)
      ensures View() == Updated(old(View()), lod)
    {
      if !IsVisible() {
        return Skipped;
      }
      if !(0 <= lod < meshes.Length) {
        return Faulted;
      }
      var mesh := meshes[lod];
      if mesh == null {
        var placeholder := new LodMesh(lod);
        meshes[lod] := placeholder;
        slots := slots[lod := Placeholder];
        Repr := Repr + {placeholder};
        outcome := BuildStarted;
      } else {
        ApplyMesh(mesh);
        outcome := if mesh.IsLoaded() then Applied else NotReady;
      }
    }

    /**
     * createMesh: generates the chunk's map at offset `coord`, builds the flat mesh of its
     * height map and a texture of its colour map, and returns them loaded into a new LodMesh.
     */
    method CreateMesh(generator: MapGenerator, lod: int,
                      sample: (PerlinSettings, PlanarWindow, int, int) -> real,
                      pixels: (PerlinSettings, PlanarWindow) -> seq<Color>) returns (built: LodMesh)
      requires 0 <= lod < LevelsOfDetail
      requires generator.noiseScale.x != 0.0 && generator.noiseScale.y != 0.0
      ensures fresh(built) && built.lod == lod && built.IsLoaded()
      ensures IsChunkBuild(built.mesh.value, built.texture.value, generator, coord, lod, sample, pixels)
    {
      var generated := generator.GenerateMap(Vec2(coord.x as real, coord.y as real), sample, pixels);
      ChunkMeshesFit(lod);
      var builder := GenerateFlatTerrainMesh(generated.heightMap, lod);
      var geometry := builder.Build();
      var texture := TextureData(generated.heightMap.Width(), generated.heightMap.Height(), generated.colorMap);
      built := new LodMesh(lod);
      built.Load(Some(geometry), Some(texture));
    }

    /**
     * The rest of Update, once the awaited createMesh is done: the loaded LodMesh replaces the
     * placeholder. Nothing is displayed until a later Update.
     */
    method BuildCompleted(generator: MapGenerator, lod: int,
                          sample: (PerlinSettings, PlanarWindow, int, int) -> real,
                          pixels: (PerlinSettings, PlanarWindow) -> seq<Color>) returns (built: LodMesh)
      requires Valid() && 0 <= lod < LevelsOfDetail && slots[lod] == Placeholder
      requires generator.noiseScale.x != 0.0 && generator.noiseScale.y != 0.0
      modifies this`slots, this`Repr, meshes
      ensures Valid() && fresh(Repr - old(Repr)) && fresh(built)
      ensures built.lod == lod && built.IsLoaded()
      ensures slots == SlotsAfterBuild(old(slots), lod, built.mesh.value, built.texture.value)
      ensures visible == old(visible) && shown == old(shown)
      ensures IsChunkBuild(built.mesh.value, built.texture.value, generator, coord, lod, sample, pixels)
    {
      built := CreateMesh(generator, lod, sample, pixels);
      meshes[lod] := built;
      slots := slots[lod := Built(built.mesh.value, built.texture.value)];
      Repr := Repr + {built};
    }
  }

  class TerrainGrid {
    var viewerPosition: Vec2
    var chunkSize: int
    var maxChunksVisible: int
    var chunks: map<Coord, TerrainChunk>
    var lastVisibleChunks: seq<TerrainChunk>
    ghost var Repr: set<object>

    /**
     * Every chunk sits under its own coordinate with bounds centred on coord * chunkSize, the
     * chunks' parts are disjoint, and lastVisibleChunks lists, once each, exactly the visible
     * chunks.
     */
    ghost predicate Valid()
      reads this`Repr, this`chunkSize, this`maxChunksVisible, this`chunks, this`lastVisibleChunks, Repr - {this}
    {
      && this in Repr
      && chunkSize == GridChunkSize && maxChunksVisible == MaxChunksVisible()
      && ChunksValid()
      && ChunksDisjoint()
      && VisibleListed()
    }

    /** Each chunk lies in the grid's footprint, under its own coordinate, and is valid. */
    ghost predicate ChunksValid()
      reads this`Repr, this`chunks, Repr - {this}
    {
      forall k :: k in chunks ==>
        && chunks[k] in Repr && chunks[k].Repr <= Repr && this !in chunks[k].Repr
        && chunks[k].coord == k && chunks[k].centre == Centre(k) && chunks[k].Valid()
    }

    /** Different chunks own disjoint parts. */
    ghost predicate ChunksDisjoint()
      reads this`chunks, chunks.Values
    {
      forall k1, k2 :: k1 in chunks && k2 in chunks && k1 != k2 ==> chunks[k1].Repr !! chunks[k2].Repr
    }

    /** lastVisibleChunks lists, once each, exactly the visible chunks. */
    ghost predicate VisibleListed()
      reads this`chunks, this`lastVisibleChunks, chunks.Values
    {
      && NoDuplicates(lastVisibleChunks)
      && (forall i :: 0 <= i < |lastVisibleChunks| ==> lastVisibleChunks[i] in chunks.Values)
      && (forall k :: k in chunks ==> (chunks[k].visible <==> chunks[k] in lastVisibleChunks))
    }

    /** Every chunk's visibility, display and cache, by coordinate. */
    ghost function View(): (v: map<Coord, ChunkView>)
      reads this`chunks, chunks.Values
      ensures v.Keys == chunks.Keys
    {
      map k | k in chunks :: chunks[k].View()
    }

    /** Start: the chunk size is one less than the map's and the scan radius 6 chunks. */
    constructor ()
      ensures Valid() && fresh(Repr)
      ensures chunks == map[] && lastVisibleChunks == []
      ensures chunkSize == 96 && maxChunksVisible == 6
    {
      viewerPosition := Zero2;
      chunkSize := ChunkSize - 1;
      maxChunksVisible := RoundToInt(MaxViewDistance / (ChunkSize - 1) as real);
      chunks := map[];
      lastVisibleChunks := [];
      Repr := {this};
      MaxChunksVisibleIsSix();
    }

    /**
     * The per-frame Update: records the viewer's (x, z) position and runs one tick.
     * `distance` gives GetDistanceFrom for each coordinate: the square root of its bounds'
     * squared distance from that position.
     */
    method Update(viewer: Vec3, distance: Coord -> real) returns (outcomes: seq<UpdateOutcome>)
      requires Valid()
      requires forall k :: IsDistance(distance(k), k, Vec2(viewer.x, viewer.z))
      modifies Repr
      ensures Valid() && fresh(Repr - old(Repr))
      ensures viewerPosition == Vec2(viewer.x, viewer.z)
      ensures WellFormed(old(View()))
      ensures View() == Tick(old(View()), Scan(ViewerChunk(viewerPosition), maxChunksVisible), distance)
      ensures outcomes == VisitOutcomes(HideAll(old(View())), Scan(ViewerChunk(viewerPosition), maxChunksVisible), distance)
    {
      ghost var before := View();
      viewerPosition := Vec2(viewer.x, viewer.z);
      assert View() == before;
      outcomes := UpdateVisibleChunks(distance);
    }

    /**
     * updateVisibleChunks: hides the chunks shown last tick, then visits the 13 x 13 square of
     * coordinates around the viewer's chunk row by row, creating missing chunks, showing old
     * ones within view and updating each at the level of detail its distance selects.
     */
    method UpdateVisibleChunks(distance: Coord -> real) returns (outcomes: seq<UpdateOutcome>)
      requires Valid()
      requires forall k :: IsDistance(distance(k), k, viewerPosition)
      modifies Repr
      ensures Valid() && fresh(Repr - old(Repr))
      ensures viewerPosition == old(viewerPosition)
      ensures WellFormed(old(View()))
      ensures View() == Tick(old(View()), Scan(ViewerChunk(viewerPosition), maxChunksVisible), distance)
      ensures outcomes == VisitOutcomes(HideAll(old(View())), Scan(ViewerChunk(viewerPosition), maxChunksVisible), distance)
      ensures forall k :: k in old(chunks) ==> k in chunks && chunks[k] == old(chunks[k])
      ensures ListsChunksOf(lastVisibleChunks, chunks, VisibleAfterTick(Scan(ViewerChunk(viewerPosition), maxChunksVisible), old(chunks).Keys, distance))
    {
      ghost var before := View();
      HideLastVisible();
      ghost var hidden := View();
      ghost var known := chunks;
      assert hidden == HideAll(before);
      var c := Coord(RoundToInt(viewerPosition.x / chunkSize as real), RoundToInt(viewerPosition.y / chunkSize as real));
      var m := maxChunksVisible;
      ScanIsRowByRow(c, m);
      outcomes := VisitSquare(c, m, Scan(c, m), hidden, known, distance);
    }

    /**
     * The scan loop: visits the square of radius m around c row by row, from the state the
     * first loop leaves.
     */
    method VisitSquare(c: Coord, m: nat, ghost scan: seq<Coord>, ghost hidden: map<Coord, ChunkView>,
                       ghost known: map<Coord, TerrainChunk>, distance: Coord -> real) returns (outcomes: seq<UpdateOutcome>)
      requires RowByRow(scan, c, m)
      requires Valid() && WellFormed(hidden) && View() == hidden && chunks == known && lastVisibleChunks == []
      modifies Repr
      ensures Valid() && fresh(Repr - old(Repr)) && viewerPosition == old(viewerPosition)
      ensures Progress(scan, |scan|, hidden, known, distance, outcomes)
    {
      outcomes := [];
      ghost var row: nat, start: nat := 0, 0;
      var y: int := -(m as int);
      while y <= m
        invariant row == y + m <= 2 * m + 1
        invariant start == RowStart(m, row)
        invariant Valid() && fresh(Repr - old(Repr)) && viewerPosition == old(viewerPosition)
        invariant Progress(scan, start, hidden, known, distance, outcomes)
      {
        RowsFromAt(scan, c, m, 0, row, y);
        outcomes, start := VisitRow(c, m, y, scan, start, hidden, known, distance, outcomes);
        row := row + 1;
        y := y + 1;
      }
      ScanEnd(scan, c, m, row);
    }

    /**
     * The inner loop of the scan: visits row y of the square of radius m around c, left to
     * right; in the scan order those are the 2m + 1 coordinates from position `start` on.
     */
    method VisitRow(c: Coord, m: nat, y: int, ghost scan: seq<Coord>, ghost start: nat,
                    ghost hidden: map<Coord, ChunkView>, ghost known: map<Coord, TerrainChunk>,
                    distance: Coord -> real, outcomes: seq<UpdateOutcome>) returns (outcomes': seq<UpdateOutcome>, ghost end: nat)
      requires RowAt(scan, start, c, m, y)
      requires Valid() && Progress(scan, start, hidden, known, distance, outcomes)
      modifies Repr
      ensures end == start + 2 * m + 1
      ensures Valid() && fresh(Repr - old(Repr)) && viewerPosition == old(viewerPosition)
      ensures Progress(scan, end, hidden, known, distance, outcomes')
    {
      outcomes' := outcomes;
      end := start;
      var x: int := -(m as int);
      while x <= m
        invariant 0 <= x + m <= 2 * m + 1 && end == start + x + m
        invariant Valid() && fresh(Repr - old(Repr)) && viewerPosition == old(viewerPosition)
        invariant Progress(scan, end, hidden, known, distance, outcomes')
      {
        outcomes', end := VisitNext(c, m, x, y, scan, start, end, hidden, known, distance, outcomes');
        x := x + 1;
      }
    }

    /**
     * One step of the scan loop: visits the coordinate at column x of row y, which comes right
     * after the coordinates visited so far.
     */
    method VisitNext(c: Coord, m: nat, x: int, y: int, ghost scan: seq<Coord>, ghost start: nat, ghost n: nat,
                     ghost hidden: map<Coord, ChunkView>, ghost known: map<Coord, TerrainChunk>,
                     distance: Coord -> real, outcomes: seq<UpdateOutcome>) returns (outcomes': seq<UpdateOutcome>, ghost n': nat)
      requires 0 <= x + m <= 2 * m && n == start + x + m && RowAt(scan, start, c, m, y)
      requires Valid() && Progress(scan, n, hidden, known, distance, outcomes)
      modifies Repr
      ensures n' == n + 1
      ensures Valid() && fresh(Repr - old(Repr)) && viewerPosition == old(viewerPosition)
      ensures Progress(scan, n', hidden, known, distance, outcomes')
    {
      n' := n + 1;
      var k := Coord(c.x + x, c.y + y);
      assert scan[n] == k;
      NextIsHidden(scan, n, hidden, known, distance, outcomes);
      ghost var view, chunks0, list := View(), chunks, lastVisibleChunks;
      var outcome := VisitCoord(k, distance(k));
      outcomes' := outcomes + [outcome];
      ProgressStep(scan, n, n', k, hidden, known, distance, outcomes, outcome, view, View(), chunks0, chunks, list, lastVisibleChunks);
    }

    /** The coordinate at position n of the scan is a key exactly when it was one before the scan, and is hidden. */
    lemma NextIsHidden(scan: seq<Coord>, n: nat, hidden: map<Coord, ChunkView>, known: map<Coord, TerrainChunk>,
                       distance: Coord -> real, outcomes: seq<UpdateOutcome>)
      requires Valid() && Progress(scan, n, hidden, known, distance, outcomes) && n < |scan|
      ensures scan[n] in chunks <==> scan[n] in known
      ensures scan[n] in chunks ==> !chunks[scan[n]].visible
    {
      var k := scan[n];
      ghost var visibleSoFar := VisibleFirst(scan, n, known.Keys, distance);
      PrefixStep(scan, n);
      VisitFirstEffect(hidden, scan, n, distance);
      VisibleFirstMembers(scan, n, known.Keys, distance);
      forall i | 0 <= i < |lastVisibleChunks|
        ensures lastVisibleChunks[i].coord != k
      {
        assert lastVisibleChunks[i] == chunks[visibleSoFar[i]];
      }
    }

    /** How far the scan loop has got: it has visited the first n coordinates of `scan`. */
    ghost predicate Progress(scan: seq<Coord>, n: nat, hidden: map<Coord, ChunkView>, known: map<Coord, TerrainChunk>,
                             distance: Coord -> real, outcomes: seq<UpdateOutcome>)
      reads this`chunks, this`lastVisibleChunks, chunks.Values
    {
      && WellFormed(hidden)
      && hidden.Keys == known.Keys
      && NoDuplicates(scan) && n <= |scan|
      && View() == VisitFirst(hidden, scan, n, distance)
      && outcomes == OutcomesFirst(hidden, scan, n, distance)
      && (forall k :: k in known ==> k in chunks && chunks[k] == known[k])
      && ListsChunksOf(lastVisibleChunks, chunks, VisibleFirst(scan, n, known.Keys, distance))
    }

    /** The first loop: hides every chunk of lastVisibleChunks, then clears the list. */
    method HideLastVisible()
      requires Valid()
      modifies this`lastVisibleChunks, lastVisibleChunks`visible
      ensures Valid() && Repr == old(Repr) && chunks == old(chunks)
      ensures lastVisibleChunks == []
      ensures WellFormed(old(View())) && View() == HideAll(old(View()))
    {
      HideEach();
      forall k | k in chunks
        ensures chunks[k].View() == old(chunks[k].View()).(visible := false)
        ensures chunks[k].Valid()
      {
        assert old(chunks[k].Valid());
      }
      lastVisibleChunks := [];
      assert ChunksValid();
      assert VisibleListed();
      AllHidden();
    }

    /** The loop itself: every chunk ends hidden, since those not in lastVisibleChunks were already. */
    method HideEach()
      requires Valid()
      modifies lastVisibleChunks`visible
      ensures forall k :: k in chunks ==> !chunks[k].visible
    {
      var i := 0;
      while i < |lastVisibleChunks|
        invariant 0 <= i <= |lastVisibleChunks|
        invariant forall j :: 0 <= j < i ==> !lastVisibleChunks[j].visible
      {
        lastVisibleChunks[i].Hide();
        i := i + 1;
      }
      forall k | k in chunks && old(chunks[k].visible)
        ensures !chunks[k].visible
      {
        assert chunks[k] in lastVisibleChunks;
      }
    }

    /** When every chunk was only hidden, the view is the old one with everything hidden. */
    twostate lemma AllHidden()
      requires old(Valid()) && chunks == old(chunks)
      requires forall k :: k in chunks ==> chunks[k].View() == old(chunks[k].View()).(visible := false)
      ensures WellFormed(old(View())) && View() == HideAll(old(View()))
    {
      forall k | k in chunks
        ensures View()[k] == HideAll(old(View()))[k]
      {
      }
    }

    /**
     * One coordinate of the scan: onAlreadyExistingChunk or onNewChunk, then the chunk's
     * Update at the level of detail for distance `d`.
     */
    method VisitCoord(k: Coord, d: real) returns (outcome: UpdateOutcome)
      requires Valid()
      requires k in chunks ==> !chunks[k].visible
      modifies Repr
      ensures Valid() && fresh(Repr - old(Repr))
      ensures viewerPosition == old(viewerPosition)
      ensures WellFormed(old(View()))
      ensures View() == Visit(old(View()), k, d)
      ensures outcome == VisitOutcome(old(View()), k, d)
      ensures k in chunks && forall k' :: k' in old(chunks) ==> k' in chunks && chunks[k'] == old(chunks[k'])
      ensures lastVisibleChunks == old(lastVisibleChunks) + if k in old(chunks) && d <= MaxViewDistance then [chunks[k]] else []
    {
      EnterCoord(k, d);
      ghost var entered := View();
      outcome := UpdateChunk(k, ResolveLevelOfDetail(d));
      VisitInTwoSteps(old(View()), entered, k, d);
    }

    /**
     * The branch on the dictionary: an existing chunk is shown or hidden by its distance, a
     * missing one is created.
     */
    method EnterCoord(k: Coord, d: real)
      requires Valid()
      requires k in chunks ==> !chunks[k].visible
      modifies Repr
      ensures Valid() && fresh(Repr - old(Repr))
      ensures viewerPosition == old(viewerPosition)
      ensures WellFormed(old(View()))
      ensures View() == old(View())[k := if k in old(View()) then old(View())[k].(visible := d <= MaxViewDistance) else NewChunkView()]
      ensures k in chunks && forall k' :: k' in old(chunks) ==> k' in chunks && chunks[k'] == old(chunks[k'])
      ensures lastVisibleChunks == old(lastVisibleChunks) + if k in old(chunks) && d <= MaxViewDistance then [chunks[k]] else []
    {
      if k in chunks {
        OnAlreadyExistingChunk(chunks[k], d);
      } else {
        OnNewChunk(k);
      }
    }

    /** The Update call of the chunk under k: no other chunk and nothing of the grid changes. */
    method UpdateChunk(k: Coord, lod: int) returns (outcome: UpdateOutcome)
      requires Valid() && k in chunks
      modifies Repr
      ensures Valid() && fresh(Repr - old(Repr))
      ensures chunks == old(chunks) && lastVisibleChunks == old(lastVisibleChunks) && viewerPosition == old(viewerPosition)
      ensures WellFormed(old(View()))
      ensures outcome == UpdateOutcomeOf(old(View())[k].slots, old(View())[k].visible, lod)
      ensures View() == old(View())[k := Updated(old(View())[k], lod)]
    {
      var chunk := chunks[k];
      assert chunk.Repr <= Repr && chunk in Repr;
      outcome := chunk.Update(lod);
      Repr := Repr + chunk.Repr;
      forall k' | k' in chunks && k' != k
        ensures chunks[k'].Repr !! chunk.Repr && chunks[k'].Valid()
        ensures chunks[k'].View() == old(chunks[k'].View()) && chunks[k'].Repr == old(chunks[k'].Repr)
      {
        assert chunks[k'] != chunk by {
          assert chunks[k'].coord == k' && chunk.coord == k;
        }
      }
      assert ChunksValid();
      assert ChunksDisjoint() by {
        forall k1, k2 | k1 in chunks && k2 in chunks && k1 != k2
          ensures chunks[k1].Repr !! chunks[k2].Repr
        {
          if k1 != k && k2 != k {
            assert old(chunks[k1].Repr !! chunks[k2].Repr);
          }
        }
      }
      assert VisibleListed() by {
        forall k' | k' in chunks
          ensures chunks[k'].visible <==> chunks[k'] in lastVisibleChunks
        {
          assert old(chunks[k'].visible <==> chunks[k'] in lastVisibleChunks);
        }
      }
      ViewChangesAt(k);
    }

    /**
     * The completion of the build an earlier Update started for the chunk under k at level
     * `lod`: the chunk's placeholder becomes the loaded LodMesh of its generated map, and
     * nothing else of the grid changes, so later ticks can display it.
     */
    method CompleteBuild(k: Coord, lod: int, generator: MapGenerator,
                         sample: (PerlinSettings, PlanarWindow, int, int) -> real,
                         pixels: (PerlinSettings, PlanarWindow) -> seq<Color>) returns (built: LodMesh)
      requires Valid() && k in chunks && 0 <= lod < LevelsOfDetail && chunks[k].slots[lod] == Placeholder
      requires generator.noiseScale.x != 0.0 && generator.noiseScale.y != 0.0
      modifies Repr
      ensures Valid() && fresh(Repr - old(Repr)) && fresh(built)
      ensures chunks == old(chunks) && lastVisibleChunks == old(lastVisibleChunks) && viewerPosition == old(viewerPosition)
      ensures WellFormed(old(View()))
      ensures built.lod == lod && built.IsLoaded()
      ensures View() == old(View())[k := old(View())[k].(slots := SlotsAfterBuild(old(View())[k].slots, lod, built.mesh.value, built.texture.value))]
      ensures unchanged(generator)
      ensures IsChunkBuild(built.mesh.value, built.texture.value, generator, k, lod, sample, pixels)
    {
      var chunk := chunks[k];
      assert chunk.Repr <= Repr && chunk in Repr && chunk.coord == k;
      built := chunk.BuildCompleted(generator, lod, sample, pixels);
      Repr := Repr + chunk.Repr;
      forall k' | k' in chunks && k' != k
        ensures chunks[k'].Repr !! chunk.Repr && chunks[k'].Valid()
        ensures chunks[k'].View() == old(chunks[k'].View()) && chunks[k'].Repr == old(chunks[k'].Repr)
      {
        assert chunks[k'] != chunk by {
          assert chunks[k'].coord == k';
        }
      }
      assert ChunksValid();
      assert ChunksDisjoint() by {
        forall k1, k2 | k1 in chunks && k2 in chunks && k1 != k2
          ensures chunks[k1].Repr !! chunks[k2].Repr
        {
          if k1 != k && k2 != k {
            assert old(chunks[k1].Repr !! chunks[k2].Repr);
          }
        }
      }
      assert VisibleListed() by {
        forall k' | k' in chunks
          ensures chunks[k'].visible <==> chunks[k'] in lastVisibleChunks
        {
          assert old(chunks[k'].visible <==> chunks[k'] in lastVisibleChunks);
        }
      }
      ViewChangesAt(k);
    }

    /** When only the chunk under k changed or was added, the view changes only at k. */
    twostate lemma ViewChangesAt(k: Coord)
      requires chunks.Keys == old(chunks).Keys + {k}
      requires forall k' :: k' in chunks && k' != k ==> chunks[k'].View() == old(chunks[k'].View())
      ensures View() == old(View())[k := chunks[k].View()]
    {
      forall k' | k' in chunks
        ensures View()[k'] == old(View())[k := chunks[k].View()][k']
      {
      }
    }

    /** Shows the chunk and lists it when within view; hides it otherwise. */
    method OnAlreadyExistingChunk(chunk: TerrainChunk, d: real)
      requires Valid() && chunk in chunks.Values && !chunk.visible
      modifies chunk`visible, this`lastVisibleChunks
      ensures Valid()
      ensures chunk.visible <==> d <= MaxViewDistance
      ensures lastVisibleChunks == old(lastVisibleChunks) + if d <= MaxViewDistance then [chunk] else []
      ensures chunk.coord in chunks && chunks[chunk.coord] == chunk
      ensures View() == old(View())[chunk.coord := old(View())[chunk.coord].(visible := d <= MaxViewDistance)]
    {
      if d <= MaxViewDistance {
        ShowExisting(chunk);
      } else {
        ghost var k := OwnCoord(chunk);
        chunk.Hide();
        assert View() == old(View());
      }
    }

    /** The coordinate a chunk of the dictionary is stored under is its own. */
    lemma OwnCoord(chunk: TerrainChunk) returns (k: Coord)
      requires ChunksValid() && chunk in chunks.Values
      ensures k == chunk.coord && k in chunks && chunks[k] == chunk
    {
      k :| k in chunks && chunks[k] == chunk;
    }

    /** The branch of OnAlreadyExistingChunk that shows a hidden chunk and lists it. */
    method ShowExisting(chunk: TerrainChunk)
      requires Valid() && chunk in chunks.Values && !chunk.visible
      modifies chunk`visible, this`lastVisibleChunks
      ensures Valid() && chunk.visible
      ensures lastVisibleChunks == old(lastVisibleChunks) + [chunk]
      ensures chunk.coord in chunks && chunks[chunk.coord] == chunk
      ensures View() == old(View())[chunk.coord := old(View())[chunk.coord].(visible := true)]
    {
      ghost var k := OwnCoord(chunk);
      chunk.Show();
      lastVisibleChunks := lastVisibleChunks + [chunk];
      assert ChunksValid() by {
        forall k' | k' in chunks
          ensures chunks[k'].Valid()
        {
          assert old(chunks[k'].Valid());
        }
      }
      assert ChunksDisjoint() by {
        forall k1, k2 | k1 in chunks && k2 in chunks && k1 != k2
          ensures chunks[k1].Repr !! chunks[k2].Repr
        {
          assert old(chunks[k1].Repr !! chunks[k2].Repr);
        }
      }
      assert VisibleListed() by {
        assert old(chunk !in lastVisibleChunks);
        forall k' | k' in chunks
          ensures chunks[k'].visible <==> chunks[k'] in lastVisibleChunks
        {
          if chunks[k'] != chunk {
            assert old(chunks[k'].visible <==> chunks[k'] in lastVisibleChunks);
          }
        }
        NoDuplicatesAppend(old(lastVisibleChunks), [chunk]);
      }
      forall k' | k' in chunks && k' != k
        ensures chunks[k'].View() == old(chunks[k'].View())
      {
        assert chunks[k'] != chunk by {
          assert chunks[k'].coord == k';
        }
      }
      ViewChangesAt(k);
    }

    /** Creates the chunk for coordinate k, hidden and empty, and adds it to the dictionary. */
    method OnNewChunk(k: Coord)
      requires Valid() && k !in chunks
      modifies this`chunks, this`Repr
      ensures Valid() && fresh(Repr - old(Repr))
      ensures k in chunks && chunks == old(chunks)[k := chunks[k]] && fresh(chunks[k])
      ensures lastVisibleChunks == old(lastVisibleChunks)
      ensures View() == old(View())[k := NewChunkView()]
    {
      var chunk := new TerrainChunk(k, chunkSize);
      chunks := chunks[k := chunk];
      Repr := Repr + {chunk} + chunk.Repr;
      assert ChunksValid() by {
        forall k' | k' in chunks
          ensures chunks[k'] in Repr && chunks[k'].Repr <= Repr && this !in chunks[k'].Repr
          ensures chunks[k'].coord == k' && chunks[k'].centre == Centre(k') && chunks[k'].Valid()
        {
          if k' != k {
            assert old(chunks[k'].Valid());
          }
        }
      }
      assert ChunksDisjoint() by {
        forall k1, k2 | k1 in chunks && k2 in chunks && k1 != k2
          ensures chunks[k1].Repr !! chunks[k2].Repr
        {
          if k1 != k && k2 != k {
            assert old(chunks[k1].Repr !! chunks[k2].Repr);
          }
        }
      }
      assert VisibleListed() by {
        assert chunk !in lastVisibleChunks;
        forall k' | k' in chunks
          ensures chunks[k'].visible <==> chunks[k'] in lastVisibleChunks
        {
          if k' != k {
            assert old(chunks[k'].visible <==> chunks[k'] in lastVisibleChunks);
          }
        }
      }
      ViewChangesAt(k);
    }
  }
}
