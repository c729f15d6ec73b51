# Terrain chunks of unity-world, in Dafny

This project models the procedural-terrain core of the Unity project unity-world. Its four parts are below.

- **Height map** (`HeightMap.cs`): an immutable grid of noise samples. Its indexer applies a height curve and a multiplier.
- **Map generation** (`MapGenerator.cs`):
  - the chunk size of 97 samples and the 5 levels of detail;
  - the inspector validation that clamps map size, lacunarity and octaves;
  - the planar noise window a chunk at a given offset samples;
  - the `Map` it returns, a height map plus a colour map.
- **Mesh generation** (`TerrainMeshGenerator.cs`):
  - the `MeshBuilder`, three fixed-size buffers (vertices, texture coordinates, triangle indices) with write cursors;
  - the two generators. The flat-shaded one writes three private vertices per triangle. The shared one writes one vertex per sample and a quad per cell.
- **Terrain grid** (`TerrainGrid.cs`):
  - the dictionary of chunks keyed by chunk coordinate;
  - the per-frame tick that hides last frame's chunks and scans the 13 x 13 square around the viewer's chunk. Known chunks within 600 units are shown, missing chunks are created, and every chunk is asked to update at the level of detail its distance selects;
  - each chunk's cache of one lazily built mesh per level of detail.

The modules are:
- `Base`: vectors, C# integer division and Unity's rounding.
- `HeightMaps`, `MapGeneration`, `MeshBuilders`: one per source file.
- `MeshLayout`: what the generators write, as sequences.
- `TerrainMeshGeneration`: the generators as loops over a `MeshBuilder`.
- `ChunkScan`: the tick's geometry — viewer chunk, scan order, distance, level of detail.
- `ChunkCache`: a chunk's cache as values.
- `GridTick`: one tick as a function on values.
- `TerrainGrids`: the `TerrainGrid`, `TerrainChunk` and `LodMesh` classes.

How the model is built:
- **Methods and the functions that specify them.** The generators and the grid's tick are imperative methods over the classes. Each is proved against a specification function: `FlatGrid`/`SharedGrid`/`SharedTriangles` for the generators, `Tick` for the grid. The lemmas about those functions state what the C# code's comments and its callers rely on.
- **Floats are reals.** `float` arithmetic is modelled on `real`. C# `int` division is `Base.CsDiv`, which truncates toward zero. `Mathf.RoundToInt` rounds half to even and `Mathf.FloorToInt` rounds down.
- **Outside effects are parameters.** The noise library, the gradient texture and the random-number generator become parameters of the operations that use them. The chunk's distance from the viewer is a function argument related to the bounds' squared distance by `ChunkScan.IsDistance`.

## Model

| member | source | states |
|---|---|---|
| Base.CsDiv | Assets/World/TerrainMeshGenerator.cs:42-44 | C# integer division: equals Euclidean division on non-negative dividends; on a negative dividend a the quotient q is not positive and q * b lies in [a, a + b), so it is truncated toward zero |
| Base.FloorToInt | Assets/World/TerrainGrid.cs:77 | the greatest integer not above the argument |
| Base.RoundToInt | Assets/World/TerrainGrid.cs:53-54 | the nearest integer, ties going to the even one |
| Base.RoundToIntUnique | Assets/World/TerrainGrid.cs:35 | any integer within one half of r, even on a tie, is RoundToInt(r): the rounding is fully determined |
| HeightMaps.HeightMap.Height | Assets/World/HeightMap.cs:26-29 | GetLength(0) of the data: the range of the indexer's first index |
| HeightMaps.HeightMap.Width | Assets/World/HeightMap.cs:31-34 | GetLength(1) of the data: the range of the indexer's second index |
| HeightMaps.HeightMap.At | Assets/World/HeightMap.cs:18-24 | the indexer, defined only inside the data: the curve of the raw sample [x, y], times the multiplier; its properties are the two lemmas below |
| HeightMaps.DefaultMultiplierIsIdentity | Assets/World/HeightMap.cs:11-24 | with the constructor's default multiplier of 1 the indexer yields the curve value of the raw sample |
| HeightMaps.FullSweepInBoundsIffSquare | Assets/World/HeightMap.cs:18-34 | letting x run over [0, Width) and y over [0, Height) indexes inside the data exactly when the map is square, because x is the first index, whose range is Height |
| MapGeneration.StepsDivideChunk | Assets/World/MapGenerator.cs:12-13 | at every level of detail 0..4 the step divides the 96 cells of a chunk, giving 96, 48, 24, 16 or 12 cells per side |
| MapGeneration.ChunkMeshesFit | Assets/World/MapGenerator.cs:12-13 | a 97 x 97 chunk at every level 0..4 satisfies the preconditions under which both generators stay inside the data and their buffers |
| MapGeneration.ClampMapSize | Assets/World/MapGenerator.cs:117-121 | each component becomes the least value that is at least 1 and at least the old one (Mathf.Max(1, c)) |
| MapGeneration.ClampLacunarity | Assets/World/MapGenerator.cs:123-126 | the lacunarity becomes the least value that is at least 1 and at least the old one |
| MapGeneration.ClampOctaves | Assets/World/MapGenerator.cs:128-131 | the octave count becomes the least value that is at least 0 and at least the old one |
| MapGeneration.Validate | Assets/World/MapGenerator.cs:110-131 | the three clamps in order: the result is valid, and it equals the input exactly when the input was already valid (both directions) |
| MapGeneration.ValidateEstablishes | Assets/World/MapGenerator.cs:110-131 | after validation map size and lacunarity are at least 1 and octaves at least 0; each field that already met its bound is unchanged |
| MapGeneration.ValidateIdempotent | Assets/World/MapGenerator.cs:110-131 | validating twice is the same as validating once |
| MapGeneration.PlanarWindowFor | Assets/World/MapGenerator.cs:88-94 | each axis of the noise window is 1/scale wide and centred on (offset + shift)/scale, with y negated |
| MapGeneration.NeighbouringWindowsAbut | Assets/World/MapGenerator.cs:88-94 | the windows of neighbouring chunks share an edge, with no gap and no overlap: the right edge of one is the left edge of the next in x, and the top edge of one is the bottom edge of the next in y |
| MapGeneration.NoiseGrid | Assets/World/MapGenerator.cs:87 | the noise builder produces a ChunkSize x ChunkSize grid |
| MapGeneration.MapGenerator.constructor | Assets/World/MapGenerator.cs:15-44 | the inspector defaults (map size 1 x 1, scale 1, frequency 1, lacunarity 2, 6 octaves, persistence 0.5, multiplier 10, level 0), which are valid settings |
| MapGeneration.MapGenerator.Start | Assets/World/MapGenerator.cs:46-49 | the seed becomes the next random value, a non-negative int below Int32.MaxValue |
| MapGeneration.MapGenerator.NewSeed | Assets/World/MapGenerator.cs:51-54 | the seed becomes the next random value, a non-negative int below Int32.MaxValue |
| MapGeneration.MapGenerator.ValidateMapSize | Assets/World/MapGenerator.cs:117-121 | each map-size component is raised to 1 if below it |
| MapGeneration.MapGenerator.ValidateLacunarity | Assets/World/MapGenerator.cs:123-126 | lacunarity is raised to 1 if below it and left alone otherwise |
| MapGeneration.MapGenerator.ValidateOctaves | Assets/World/MapGenerator.cs:128-131 | octaves are raised to 0 if negative and left alone otherwise |
| MapGeneration.MapGenerator.OnValidate | Assets/World/MapGenerator.cs:110-115 | the settings become the validated old settings, which are valid |
| MapGeneration.MapGenerator.GenerateMap | Assets/World/MapGenerator.cs:77-108 | a 97 x 97 height map carrying the generator's multiplier and curve, whose height at (x, y) is the curve of the noise sampled over the chunk's planar window, times the multiplier; the colour map is the pixels of that same window |
| MeshBuilders.QuadSplit | Assets/World/TerrainMeshGenerator.cs:140-144 | the index order AddQuad writes for corners a (top-left), b (top-right), c (bottom-left), d (bottom-right): the triangles (a, d, c) and (d, a, b), which share the diagonal a-d |
| MeshBuilders.MeshBuilder.constructor | Assets/World/TerrainMeshGenerator.cs:103-108 | vertex and UV buffers of the requested size, a triangle buffer of three indices per requested triangle, all zero-filled, cursors at 0 |
| MeshBuilders.MeshBuilder.VertexIndex | Assets/World/TerrainMeshGenerator.cs:166-169 | the number of vertices written, never more than the buffer holds |
| MeshBuilders.MeshBuilder.AddVertex | Assets/World/TerrainMeshGenerator.cs:115-118 | writes the vertex at the cursor and nothing else; the written vertices grow by exactly that vertex |
| MeshBuilders.MeshBuilder.AddVertexComponents | Assets/World/TerrainMeshGenerator.cs:110-113 | as AddVertex, for the vertex built from three components |
| MeshBuilders.MeshBuilder.AddUV | Assets/World/TerrainMeshGenerator.cs:151-154 | writes the texture coordinate at its cursor; the written coordinates grow by exactly it |
| MeshBuilders.MeshBuilder.AddUVComponents | Assets/World/TerrainMeshGenerator.cs:146-149 | as AddUV, for the coordinate built from two components |
| MeshBuilders.MeshBuilder.AddVertexWithUV | Assets/World/TerrainMeshGenerator.cs:120-124 | appends the vertex and its texture coordinate, each at its own cursor |
| MeshBuilders.MeshBuilder.DuplicateLastVertex | Assets/World/TerrainMeshGenerator.cs:126-130 | appends a copy of the last written vertex |
| MeshBuilders.MeshBuilder.AddTriangle | Assets/World/TerrainMeshGenerator.cs:132-138 | appends the three indices in order at the triangle cursor |
| MeshBuilders.MeshBuilder.AddQuad | Assets/World/TerrainMeshGenerator.cs:140-144 | appends the quad's two triangles (a, d, c) and (d, a, b), split along the diagonal a-d |
| MeshBuilders.MeshBuilder.Build | Assets/World/TerrainMeshGenerator.cs:156-164 | the mesh holds the whole buffers, written prefix and zero-filled tail; it has as many UVs as vertices and a whole number of triangles |
| MeshLayout.Step | Assets/World/TerrainMeshGenerator.cs:14 | the grid stride both generators use: 1 at level 0 or below, twice the level above it; always at least 1 |
| MeshLayout.CountBelow | Assets/World/TerrainMeshGenerator.cs:48-50 | a loop `for (i = 0; i < n; i += s)` runs its k-th iteration exactly when k*s < n |
| MeshLayout.FlatGridLength | Assets/World/TerrainMeshGenerator.cs:48-88 | the flat generator writes six vertices per cell |
| MeshLayout.FlatGridCellAt | Assets/World/TerrainMeshGenerator.cs:59-86 | the six vertices of cell (row i, column j) sit at positions 6(i*cols + j) onward and are the corners a, d, c, d, a, b of the cell at (j*s, i*s) |
| MeshLayout.FlatGridInBox | Assets/World/TerrainMeshGenerator.cs:59-62 | every sample the flat generator reads lies within [0, cols*s] x [0, rows*s] |
| MeshLayout.FlatGridReachesCorner | Assets/World/TerrainMeshGenerator.cs:60-62 | the flat generator reads the far corner (cols*s, rows*s), one stride past the last loop value |
| MeshLayout.FlatRunsCleanIff | Assets/World/TerrainMeshGenerator.cs:36-91 | for a map of at least 2 x 2, the flat generator runs without an out-of-range read or a buffer overrun exactly when the map is square and the step divides width - 1 |
| MeshLayout.FlatRunsCleanOnSquare | Assets/World/TerrainMeshGenerator.cs:42-44 | on a square map the step divides, the capacity is 2 k^2 s for k cells per side, s times what the loops write |
| MeshLayout.ChunkFlatFill | Assets/World/TerrainMeshGenerator.cs:41-50 | on a 97 x 97 map at every level 0..4, the triangles the flat generator writes, times the step, equal the declared capacity, so only a 1/step share of the buffers is filled: 18432 of 18432 triangles at level 0, 288 of 2304 at level 4 |
| MeshLayout.SharedGridLength | Assets/World/TerrainMeshGenerator.cs:18-23 | the shared generator writes one vertex per sample |
| MeshLayout.SharedGridAt | Assets/World/TerrainMeshGenerator.cs:18-24 | vertex i*cols + j is the sample (j*s, i*s): row by row, left to right |
| MeshLayout.SharedGridInBox | Assets/World/TerrainMeshGenerator.cs:18-23 | every sample the shared generator reads lies within [0, (cols-1)s] x [0, (rows-1)s] |
| MeshLayout.SharedTrianglesLength | Assets/World/TerrainMeshGenerator.cs:25-29 | six indices per cell: 6 times the cells along the width times the cells along the height |
| MeshLayout.SharedTrianglesInRange | Assets/World/TerrainMeshGenerator.cs:15-29 | when the step divides width - 1 and height - 1, every quad index names a written vertex |
| MeshLayout.SharedRunsCleanOnSquare | Assets/World/TerrainMeshGenerator.cs:16 | on a square map of at least 2 x 2 the step divides, the shared generator stays inside its vertex and triangle buffers |
| MeshLayout.SharedOverrunsOnSingleSample | Assets/World/TerrainMeshGenerator.cs:16 | on a 1 x 1 map at level 1 the vertex capacity 1/2 is 0, so the first AddVertex overruns |
| TerrainMeshGeneration.GenerateFlatTerrainMesh | Assets/World/TerrainMeshGenerator.cs:36-91 | fresh buffers of 3 * capacity slots. It writes 6 vertices per cell, 6 * Count(h-1, s) * Count(w-1, s) in all. The written vertices and UVs are the heights and texture coordinates of the flat grid's samples, in cell order, all inside the map. Triangle k is (3k, 3k+1, 3k+2). The unused tail keeps its zero defaults, and every triangle slot names a vertex slot |
| TerrainMeshGeneration.GenerateTerrainMesh | Assets/World/TerrainMeshGenerator.cs:9-34 | buffers of the source's capacities; one vertex and UV per sample, row by row, all inside the map. The triangles are the quads of every vertex off the last column and row, with vpl = (w-1)/step + 1. The tail keeps its defaults. When the step divides w-1 and h-1, every triangle index names a written vertex |
| ChunkScan.MaxChunksVisible | Assets/World/TerrainGrid.cs:35 | the scan radius in chunks, RoundToInt(600 / 96), as Start computes it |
| ChunkScan.MaxChunksVisibleIsSix | Assets/World/TerrainGrid.cs:34-35 | the scan radius RoundToInt(600 / 96) is 6, so a tick visits 169 coordinates |
| ChunkScan.ViewerChunk | Assets/World/TerrainGrid.cs:53-54 | the viewer lies within half a chunk (48 units) of its chunk's centre along each axis |
| ChunkScan.Scan | Assets/World/TerrainGrid.cs:56-60 | the coordinates the two loops visit: rows y = -m..m upwards, and in each row x = -m..m, offset by the viewer's chunk; ScanCoversSquare and ScanAt characterise it |
| ChunkScan.ScanCoversSquare | Assets/World/TerrainGrid.cs:56-60 | the scan visits each coordinate of the (2m+1) x (2m+1) square around the viewer's chunk exactly once and nothing else |
| ChunkScan.ScanAt | Assets/World/TerrainGrid.cs:56-60 | the visiting order: position i holds column i mod (2m+1) of row i div (2m+1), both counted from the corner (-m, -m) |
| ChunkScan.AxisGap | Assets/World/TerrainGrid.cs:172-175 | the gap to a chunk's 1-wide bounds along one axis is non-negative and zero exactly inside the bounds |
| ChunkScan.SqrDistance | Assets/World/TerrainGrid.cs:172-175 | the squared distance to a chunk's bounds is non-negative |
| ChunkScan.WithinViewIff | Assets/World/TerrainGrid.cs:82 | a chunk is within view exactly when its squared distance is at most 600^2 |
| ChunkScan.OwnChunkInView | Assets/World/TerrainGrid.cs:53-54 | the viewer's own chunk is always within view |
| ChunkScan.ResolveLevelOfDetail | Assets/World/TerrainGrid.cs:75-78 | FloorToInt(d / 600 * 5) is the level n with 120n <= d < 120(n+1) |
| ChunkScan.LevelOfDetailBands | Assets/World/TerrainGrid.cs:75-78 | level n is chosen exactly for distances in [120n, 120(n+1)) |
| ChunkScan.LevelOfDetailRange | Assets/World/TerrainGrid.cs:75-78 | within view the level is between 0 and 5; it is a valid cache index exactly below 600, so 5 arises only at exactly 600 |
| ChunkScan.LevelOfDetailMonotone | Assets/World/TerrainGrid.cs:75-78 | a farther chunk never gets a finer level |
| ChunkScan.VisibleAfterTickMembers | Assets/World/TerrainGrid.cs:80-86 | a tick lists exactly the scanned chunks that existed before it and are within view, each once |
| ChunkScan.SecondTickIsStable | Assets/World/TerrainGrid.cs:56-73 | a second tick from the same viewer chunk adds no key and shows every scanned chunk within view |
| ChunkScan.NewChunksStayHidden | Assets/World/TerrainGrid.cs:93-97 | a chunk created by a tick is not shown in that tick |
| ChunkCache.EmptySlots | Assets/World/TerrainGrid.cs:109 | a new chunk's cache has one empty slot per level of detail |
| ChunkCache.UpdateFaultsIffOutOfRange | Assets/World/TerrainGrid.cs:123-141 | Update faults exactly when the chunk is visible and the level is not a cache index; a hidden chunk is skipped; neither case changes the cache or the display |
| ChunkCache.UpdateOnlyFillsRequestedSlot | Assets/World/TerrainGrid.cs:126-134 | Update only ever fills the requested slot and only when it is empty; it changes the cache exactly when it starts a build |
| ChunkCache.PlaceholderIsNotShown | Assets/World/TerrainGrid.cs:164-170 | a slot whose build is still running is never displayed and stays as it is |
| ChunkCache.BuiltMeshShownOnNextUpdate | Assets/World/TerrainGrid.cs:131-137 | after a build completes, the next Update of the visible chunk at that level displays exactly the built mesh and texture |
| ChunkCache.AtMostOneBuildPerLevel | Assets/World/TerrainGrid.cs:123-141 | over any interleaving of Update calls and build completions each level is built at most once, and never once its slot is filled |
| GridTick.HideAll | Assets/World/TerrainGrid.cs:47-51 | hiding keeps the dictionary's keys |
| GridTick.NewChunkUpdateIsNoop | Assets/World/TerrainGrid.cs:67-70 | the Update made for a chunk in the tick that creates it does nothing, since the chunk is hidden |
| GridTick.VisitAllEffect | Assets/World/TerrainGrid.cs:56-72 | the scan keeps every key and adds the scanned ones. Unscanned chunks are untouched. Scanned old chunks are shown exactly within view and updated at their level. Scanned new chunks are hidden and empty |
| GridTick.TickEffect | Assets/World/TerrainGrid.cs:45-73 | after a tick a chunk is visible exactly when it existed before, was scanned and is within view. Unscanned chunks are only hidden. New chunks are hidden with an empty cache |
| GridTick.VisitOutcomesEffect | Assets/World/TerrainGrid.cs:69-70 | the Update of a new chunk is skipped; that of an old chunk faults exactly at distance 600 and is skipped exactly beyond it |
| GridTick.SecondTickAddsNoKeys | Assets/World/TerrainGrid.cs:56-73 | keys are only added; a second tick from the same viewer chunk adds none and shows every scanned chunk within view |
| TerrainGrids.TickFacts | Assets/World/TerrainGrid.cs:45-73 | after a tick around viewer chunk c a chunk is visible exactly when it existed before, lies in the 13 x 13 square around c and its squared distance is at most 600^2 |
| TerrainGrids.LodMesh.constructor | Assets/World/TerrainGrid.cs:204-207 | a new LodMesh keeps its level and is not loaded: it stands for a placeholder |
| TerrainGrids.LodMesh.IsLoaded | Assets/World/TerrainGrid.cs:215-218 | a LodMesh is loaded exactly when both its mesh and its texture are present |
| TerrainGrids.LodMesh.Load | Assets/World/TerrainGrid.cs:209-218 | stores mesh and texture; the LodMesh is loaded exactly when both are present, and then stands for the built slot |
| TerrainGrids.TerrainChunk.constructor | Assets/World/TerrainGrid.cs:111-121 | a new chunk keeps its coordinate, is centred on coord * size, hidden, with an empty cache and nothing displayed |
| TerrainGrids.TerrainChunk.IsVisible | Assets/World/TerrainGrid.cs:182-185 | whether the chunk's GameObject is active, modelled as the chunk's `visible` flag |
| TerrainGrids.TerrainChunk.Show | Assets/World/TerrainGrid.cs:187-190 | the chunk is visible afterwards |
| TerrainGrids.TerrainChunk.Hide | Assets/World/TerrainGrid.cs:192-195 | the chunk is not visible afterwards |
| TerrainGrids.TerrainChunk.ApplyMesh | Assets/World/TerrainGrid.cs:164-170 | a loaded LodMesh's mesh and texture are displayed; an unloaded one changes nothing |
| TerrainGrids.TerrainChunk.Update | Assets/World/TerrainGrid.cs:123-141 | the outcome and the new visibility, display and cache are those of the cache model for the old cache and the chunk's visibility |
| TerrainGrids.TerrainChunk.CreateMesh | Assets/World/TerrainGrid.cs:143-162 | a fresh, loaded LodMesh of the requested level holding the flat mesh of the height map generated at the chunk's coordinate and a texture of that map's colours; nothing else changes |
| TerrainGrids.TerrainChunk.BuildCompleted | Assets/World/TerrainGrid.cs:131-133 | the placeholder is replaced by the loaded LodMesh createMesh makes, holding the flat mesh of the chunk's generated height map and a texture of its colour map. Visibility and display are unchanged |
| TerrainGrids.TerrainGrid.constructor | Assets/World/TerrainGrid.cs:31-36 | no chunks, nothing listed, chunk size 96 and scan radius 6 |
| TerrainGrids.TerrainGrid.Update | Assets/World/TerrainGrid.cs:39-43 | records the viewer's (x, z) and runs one tick: the grid's view becomes Tick of the old view around the viewer's chunk, and the outcomes are those the tick model predicts |
| TerrainGrids.TerrainGrid.UpdateVisibleChunks | Assets/World/TerrainGrid.cs:45-73 | the new view is Tick of the old one over the scan around the viewer's chunk. Old chunks keep their identity. lastVisibleChunks lists, in scan order, exactly the chunks of the scanned old coordinates within view |
| TerrainGrids.TerrainGrid.HideLastVisible | Assets/World/TerrainGrid.cs:47-51 | every listed chunk is hidden and the list cleared; the view becomes HideAll of the old view |
| TerrainGrids.TerrainGrid.VisitCoord | Assets/World/TerrainGrid.cs:60-70 | one scanned coordinate changes the view as Visit does. Its outcome is the one the tick model predicts. The chunk is listed exactly when it is old and within view |
| TerrainGrids.TerrainGrid.OnAlreadyExistingChunk | Assets/World/TerrainGrid.cs:80-91 | the chunk ends visible exactly when within view and is listed exactly then; only its visibility changes |
| TerrainGrids.TerrainGrid.CompleteBuild | Assets/World/TerrainGrid.cs:131-133 | the completion of a build a tick started, seen from the grid: the chunk's placeholder slot becomes the built mesh and texture of its generated map, nothing else in the grid changes, and the grid stays valid, so later ticks can display it |
| TerrainGrids.TerrainGrid.OnNewChunk | Assets/World/TerrainGrid.cs:93-97 | a fresh hidden, empty chunk is added under k and nothing else changes |

## Left out

- Rendering is not modelled. That covers the GameObject, MeshRenderer, MeshFilter, material, the Texture2D's wrap and filter modes, RecalculateNormals and `Mesh` construction inside Build. A built mesh is its three buffers and a texture is its size and pixels.
- The Perlin noise library is a parameter of `GenerateMap`: `sample` gives the normalized sample at a cell of the window, `pixels` the gradient-coloured texture. `AnimationCurve.Evaluate` is an uninterpreted function.
- Floating point is modelled as exact reals: no rounding, no NaN or infinities. The `0.5 / noiseScale` division therefore requires a non-zero noise scale, where C# would produce infinities.
- 32-bit integer overflow is not modelled; chunk sizes and loop counters stay far below it.
- `System.Random` is replaced by the next value, passed to `Start` and `NewSeed`.
- `Mathf.Sqrt` is left out: the distance is a parameter tied to the squared distance by `IsDistance`.
- The asynchronous `createMesh` task is split in two. `TerrainChunk.Update` is the synchronous part; `TerrainChunk.BuildCompleted` (and `TerrainGrid.CompleteBuild` for a chunk of the grid) is the completion, at any later point. `ChunkCache.AtMostOneBuildPerLevel` covers every interleaving of the two for one chunk. Threads running builds of different chunks concurrently are not modelled.
- A build that throws is not modelled.
- The discarded task is not modelled; its exception becomes the `Faulted` outcome.
- Debug.Log, DrawMapInEditor, the editor script, Movement and FindObjectOfType are not modelled; none changes the modelled state.
- TerrainMeshGeneration.GenerateFlatTerrainMesh and TerrainMeshGeneration.GenerateTerrainMesh require exactly the inputs on which the C# code neither reads outside the data nor overruns a buffer. The exception thrown otherwise is not modelled. `FlatRunsCleanIff`, `SharedRunsCleanOnSquare` and `SharedOverrunsOnSingleSample` characterise those inputs.
- TerrainGrids.TerrainGrid.UpdateVisibleChunks: the contract ties the new state to `Tick`. The visibility characterisation over the 13 x 13 square is `TerrainGrids.TickFacts`, a lemma about `Tick`.
- The chunk's `Position` and bounds are not modelled as Unity `Bounds`. A chunk keeps the centre coord * size, and its box is the 1 x 1 box `ChunkScan.SqrDistance` measures.

## Behaviour of the code worth knowing

- The indexer `heightMap[x, y]` takes x against `Height` (the first dimension). Both generators let x run along `Width`, so they stay inside the data only on square maps. `HeightMaps.FullSweepInBoundsIffSquare` and `MeshLayout.FlatRunsCleanIff` state this. Every chunk is 97 x 97, so the game itself is unaffected.
- Both generators size their buffers by dividing by the step, not by its square. At level 1 about half of each buffer is never written (on a 97 x 97 chunk, 13824 of the flat generator's 27648 vertex slots and 2303 of the shared one's 4704), and from level 2 on most of it is. Those slots stay zero-filled, and `Build` returns them too: the extra vertices sit at the origin and the extra triangles are (0, 0, 0). `GenerateFlatTerrainMesh`'s contract states this tail.
- On a 1 x 1 map at level 1, the shared generator's vertex buffer has size 0, and the first write overruns it (`MeshLayout.SharedOverrunsOnSingleSample`).
- A chunk exactly 600 units away is within view, but its level of detail is 5. Five is not an index of the 5-slot cache, so its Update faults inside a task nobody observes (`ChunkScan.LevelOfDetailRange`, `GridTick.VisitOutcomesEffect`).
- A chunk created by a tick stays hidden for that tick, and its Update does nothing (`ChunkScan.NewChunksStayHidden`). The next tick shows it, and that Update only starts the build, leaving a placeholder (`ChunkScan.SecondTickIsStable`, `ChunkCache.PlaceholderIsNotShown`). The mesh is displayed by the first Update after the build completes (`ChunkCache.BuiltMeshShownOnNextUpdate`). New terrain is therefore drawn at least two ticks after the chunk is created, plus the build time.
- Once a level's slot holds a placeholder, Update never retries it. A build that fails would therefore leave that level's placeholder in place, so nothing would ever be displayed at that level. Failing builds themselves are not modelled; `ChunkCache.AtMostOneBuildPerLevel` states the "never retried" half.
