/**
 * The two terrain mesh generators: a shared-vertex mesh (one vertex per visited sample, one
 * quad per cell) and a flat-shaded mesh (three private vertices per triangle). Each is proved
 * to write exactly the layout MeshLayout describes, sample by sample.
 */
module TerrainMeshGeneration {
  import opened Base
  import opened HeightMaps
  import opened MeshBuilders
  import opened MeshLayout

  /** Every sample of `ps` is a valid index of the height map. */
  predicate AllInBounds(hm: HeightMap, ps: seq<Sample>)
  {
    forall i :: 0 <= i < |ps| ==> hm.InBounds(ps[i].x, ps[i].y)
  }

  /** The world position of sample (0, 0), chosen so that the grid is centred on the origin. */
  function TopLeft(hm: HeightMap): Vec3
  {
    Vec3((hm.Width() - 1) as real / -2.0, 0.0, (hm.Height() - 1) as real / 2.0)
  }

  /**
   * The vertex both generators emit for sample (x, y): x runs along the world x axis from the
   * top-left corner, the height is the indexer's value and y runs against world z.
   */
  function VertexOf(hm: HeightMap, p: Sample): Vec3
    requires hm.InBounds(p.x, p.y)
  {
    Vec3(TopLeft(hm).x + p.x as real, hm.At(p.x, p.y), TopLeft(hm).z - p.y as real)
  }

  /** The texture coordinate of sample (x, y): x / Width, y / Height. */
  function UVOf(hm: HeightMap, p: Sample): Vec2
    requires hm.InBounds(p.x, p.y)
  {
    Vec2(p.x as real / hm.Width() as real, p.y as real / hm.Height() as real)
  }

  function Positions(hm: HeightMap, ps: seq<Sample>): seq<Vec3>
    requires AllInBounds(hm, ps)
  {
    seq(|ps|, i requires 0 <= i < |ps| => VertexOf(hm, ps[i]))
  }

  function TexCoords(hm: HeightMap, ps: seq<Sample>): seq<Vec2>
    requires AllInBounds(hm, ps)
  {
    seq(|ps|, i requires 0 <= i < |ps| => UVOf(hm, ps[i]))
  }

  lemma PositionsAppend(hm: HeightMap, a: seq<Sample>, b: seq<Sample>)
    requires AllInBounds(hm, a) && AllInBounds(hm, b)
    ensures AllInBounds(hm, a + b)
    ensures Positions(hm, a + b) == Positions(hm, a) + Positions(hm, b)
    ensures TexCoords(hm, a + b) == TexCoords(hm, a) + TexCoords(hm, b)
  {
    assert forall i :: 0 <= i < |a + b| ==> (a + b)[i] == if i < |a| then a[i] else b[i - |a|];
  }

  /** The flat cell's six samples are in bounds when its far corner is. */
  lemma FlatCellInBounds(hm: HeightMap, s: int, x: int, y: int)
    requires s >= 1 && 0 <= x && x + s < hm.Height() && 0 <= y && y + s < hm.Width()
    ensures AllInBounds(hm, FlatCell(s, x, y))
  {
  }

  /** Every sample the flat generator reads lies in the box its guard allows. */
  lemma FlatGridInBounds(hm: HeightMap, s: int)
    requires s >= 1 && FlatRunsClean(hm.Width(), hm.Height(), s)
    ensures AllInBounds(hm, FlatGrid(s, Count(hm.Height() - 1, s), Count(hm.Width() - 1, s)))
  {
    var rows, cols := Count(hm.Height() - 1, s), Count(hm.Width() - 1, s);
    FlatGridInBox(s, rows, cols);
    FlatGridLength(s, rows, cols);
    if rows > 0 && cols > 0 {
    } else {
      assert 6 * rows * cols == 0;
    }
  }

  /**
   * GenerateFlatTerrainMesh. Buffers of 3 * capacity slots, capacity = (w-1)(h-1)*2/step; one
   * cell per (x, y) in strides of `step` below (w-1, h-1), written as the triangles (a, d, c)
   * and (d, a, b) with private vertices, so triangle k is (3k, 3k+1, 3k+2). The slots beyond
   * the written prefix keep their default values.
   */
  method GenerateFlatTerrainMesh(hm: HeightMap, levelOfDetail: int) returns (mb: MeshBuilder)
    requires FlatRunsClean(hm.Width(), hm.Height(), Step(levelOfDetail))
    ensures fresh(mb) && fresh(mb.vertices) && fresh(mb.uvs) && fresh(mb.triangles) && mb.Valid()
    ensures mb.vertices.Length == mb.triangles.Length == 3 * FlatTriangleCapacity(hm.Width(), hm.Height(), Step(levelOfDetail))
    ensures AllInBounds(hm, FlatGrid(Step(levelOfDetail), Count(hm.Height() - 1, Step(levelOfDetail)), Count(hm.Width() - 1, Step(levelOfDetail))))
    ensures mb.Vertices() == Positions(hm, FlatGrid(Step(levelOfDetail), Count(hm.Height() - 1, Step(levelOfDetail)), Count(hm.Width() - 1, Step(levelOfDetail))))
    ensures mb.UVs() == TexCoords(hm, FlatGrid(Step(levelOfDetail), Count(hm.Height() - 1, Step(levelOfDetail)), Count(hm.Width() - 1, Step(levelOfDetail))))
    ensures mb.Triangles() == Iota(mb.vertexIndex)
    ensures mb.vertexIndex == mb.uvIndex == mb.triangleIndex
    ensures mb.vertexIndex == 6 * Count(hm.Height() - 1, Step(levelOfDetail)) * Count(hm.Width() - 1, Step(levelOfDetail))
    ensures forall i :: mb.vertexIndex <= i < mb.vertices.Length ==> mb.vertices[i] == Zero3 && mb.uvs[i] == Zero2
    ensures forall i :: mb.triangleIndex <= i < mb.triangles.Length ==> mb.triangles[i] == 0
    ensures forall i :: 0 <= i < mb.triangles.Length ==> 0 <= mb.triangles[i] < mb.vertices.Length
  {
    var width: int := hm.Width();
    var height: int := hm.Height();
    var topLeft := Vec3((width - 1) as real / -2.0, 0.0, (height - 1) as real / 2.0);
    var step := if levelOfDetail <= 0 then 1 else levelOfDetail * 2;
    var trianglesCount := CsDiv((width - 1) * (height - 1) * 2, step);
    var verticesCount := trianglesCount * 3;
    assert step == Step(levelOfDetail);
    assert trianglesCount == FlatTriangleCapacity(width, height, step);
    mb := new MeshBuilder(verticesCount, trianglesCount);
    assert mb.TailIsDefault();
    AddFlatRows(mb, hm, topLeft, step);
    FlatTrianglesBelowVertexCount(mb);
    FlatGridLength(step, Count(height - 1, step), Count(width - 1, step));
  }

  /**
   * GenerateFlatTerrainMesh's outer loop over y, from the fresh builder: one row of cells per
   * stride below height - 1.
   */
  method AddFlatRows(mb: MeshBuilder, hm: HeightMap, topLeft: Vec3, step: int)
    requires step >= 1 && topLeft == TopLeft(hm) && FlatRunsClean(hm.Width(), hm.Height(), step)
    requires mb.Valid() && mb.vertices.Length == mb.triangles.Length == 3 * FlatTriangleCapacity(hm.Width(), hm.Height(), step)
    requires mb.vertexIndex == mb.uvIndex == mb.triangleIndex == 0 && mb.TailIsDefault()
    modifies mb, mb.vertices, mb.uvs, mb.triangles
    ensures mb.Valid() && mb.vertexIndex == mb.uvIndex == mb.triangleIndex
    ensures AllInBounds(hm, FlatGrid(step, Count(hm.Height() - 1, step), Count(hm.Width() - 1, step)))
    ensures mb.Vertices() == Positions(hm, FlatGrid(step, Count(hm.Height() - 1, step), Count(hm.Width() - 1, step)))
    ensures mb.UVs() == TexCoords(hm, FlatGrid(step, Count(hm.Height() - 1, step), Count(hm.Width() - 1, step)))
    ensures mb.Triangles() == Iota(mb.vertexIndex) && mb.TailIsDefault()
  {
    var height: int := hm.Height();
    ghost var rows, cols := Count(height - 1, step), Count(hm.Width() - 1, step);
    assert mb.Vertices() == Positions(hm, FlatGrid(step, 0, cols));
    assert mb.UVs() == TexCoords(hm, FlatGrid(step, 0, cols));
    assert mb.Triangles() == Iota(0);
    var y := 0;
    ghost var row := 0;
    CountBelow(height - 1, step, 0);
    while y < height - 1
      invariant 0 <= row <= rows && y == row * step
      invariant row < rows <==> y < height - 1
      invariant mb.Valid() && mb.vertexIndex == mb.uvIndex == mb.triangleIndex == 6 * row * cols
      invariant AllInBounds(hm, FlatGrid(step, row, cols))
      invariant mb.Vertices() == Positions(hm, FlatGrid(step, row, cols))
      invariant mb.UVs() == TexCoords(hm, FlatGrid(step, row, cols))
      invariant mb.Triangles() == Iota(mb.vertexIndex) && mb.TailIsDefault()
    {
      AddFlatGridRow(mb, hm, topLeft, step, y, row, rows, cols);
      y := y + step;
      row := row + 1;
    }
  }

  /** One pass of GenerateFlatTerrainMesh's outer loop, stated against the grid of rows so far. */
  method AddFlatGridRow(mb: MeshBuilder, hm: HeightMap, topLeft: Vec3, step: int, y: int,
                        ghost row: nat, ghost rows: nat, ghost cols: nat)
    requires step >= 1 && topLeft == TopLeft(hm) && FlatRunsClean(hm.Width(), hm.Height(), step)
    requires rows == Count(hm.Height() - 1, step) && cols == Count(hm.Width() - 1, step)
    requires row < rows && y == row * step
    requires mb.Valid() && mb.vertices.Length == mb.triangles.Length == 3 * FlatTriangleCapacity(hm.Width(), hm.Height(), step)
    requires mb.vertexIndex == mb.uvIndex == mb.triangleIndex == 6 * row * cols
    requires AllInBounds(hm, FlatGrid(step, row, cols))
    requires mb.Vertices() == Positions(hm, FlatGrid(step, row, cols))
    requires mb.UVs() == TexCoords(hm, FlatGrid(step, row, cols))
    requires mb.Triangles() == Iota(mb.vertexIndex) && mb.TailIsDefault()
    modifies mb, mb.vertices, mb.uvs, mb.triangles
    ensures mb.Valid() && mb.vertexIndex == mb.uvIndex == mb.triangleIndex == 6 * (row + 1) * cols
    ensures AllInBounds(hm, FlatGrid(step, row + 1, cols))
    ensures mb.Vertices() == Positions(hm, FlatGrid(step, row + 1, cols))
    ensures mb.UVs() == TexCoords(hm, FlatGrid(step, row + 1, cols))
    ensures mb.Triangles() == Iota(mb.vertexIndex) && mb.TailIsDefault()
    ensures y + step == (row + 1) * step && (row + 1 < rows <==> y + step < hm.Height() - 1)
  {
    AddFlatRow(mb, hm, topLeft, step, y, row, rows, cols);
    FlatGridStep(hm, step, row, rows, cols);
  }

  /** The flat grid grows by one row per pass of the outer loop. */
  lemma FlatGridStep(hm: HeightMap, s: int, row: nat, rows: nat, cols: nat)
    requires s >= 1 && rows == Count(hm.Height() - 1, s)
    requires AllInBounds(hm, FlatGrid(s, row, cols)) && AllInBounds(hm, FlatRow(s, row * s, cols))
    ensures AllInBounds(hm, FlatGrid(s, row + 1, cols))
    ensures Positions(hm, FlatGrid(s, row + 1, cols)) == Positions(hm, FlatGrid(s, row, cols)) + Positions(hm, FlatRow(s, row * s, cols))
    ensures TexCoords(hm, FlatGrid(s, row + 1, cols)) == TexCoords(hm, FlatGrid(s, row, cols)) + TexCoords(hm, FlatRow(s, row * s, cols))
    ensures row * s + s == (row + 1) * s && 6 * row * cols + 6 * cols == 6 * (row + 1) * cols
    ensures row + 1 < rows <==> row * s + s < hm.Height() - 1
  {
    PositionsAppend(hm, FlatGrid(s, row, cols), FlatRow(s, row * s, cols));
    assert FlatGrid(s, row + 1, cols) == FlatGrid(s, row, cols) + FlatRow(s, row * s, cols);
    MulSucc(row, s);
    MulSucc(row, cols);
    CountBelow(hm.Height() - 1, s, row + 1);
  }

  /**
   * The flat generator's inner loop over x for the row at height-map index y = row * step:
   * one cell per stride below width - 1.
   */
  method AddFlatRow(mb: MeshBuilder, hm: HeightMap, topLeft: Vec3, step: int, y: int,
                    ghost row: nat, ghost rows: nat, ghost cols: nat)
    requires step >= 1 && topLeft == TopLeft(hm) && FlatRunsClean(hm.Width(), hm.Height(), step)
    requires rows == Count(hm.Height() - 1, step) && cols == Count(hm.Width() - 1, step)
    requires row < rows && y == row * step
    requires mb.Valid() && mb.vertices.Length == mb.triangles.Length == 3 * FlatTriangleCapacity(hm.Width(), hm.Height(), step)
    requires mb.vertexIndex == mb.uvIndex == mb.triangleIndex == 6 * row * cols
    requires mb.Triangles() == Iota(mb.vertexIndex) && mb.TailIsDefault()
    modifies mb, mb.vertices, mb.uvs, mb.triangles
    ensures mb.Valid() && AllInBounds(hm, FlatRow(step, y, cols))
    ensures mb.vertexIndex == mb.uvIndex == mb.triangleIndex == 6 * row * cols + 6 * cols
    ensures mb.Vertices() == old(mb.Vertices()) + Positions(hm, FlatRow(step, y, cols))
    ensures mb.UVs() == old(mb.UVs()) + TexCoords(hm, FlatRow(step, y, cols))
    ensures mb.Triangles() == Iota(mb.vertexIndex)
    ensures mb.TailIsDefault()
  {
    var width: int := hm.Width();
    ghost var v0, u0, n0 := mb.Vertices(), mb.UVs(), mb.vertexIndex;
    var x := 0;
    ghost var col := 0;
    CountBelow(width - 1, step, 0);
    while x < width - 1
      invariant 0 <= col <= cols && x == col * step
      invariant col < cols <==> x < width - 1
      invariant mb.Valid()
      invariant mb.vertexIndex == mb.uvIndex == mb.triangleIndex == n0 + 6 * col
      invariant AllInBounds(hm, FlatRow(step, y, col))
      invariant mb.Vertices() == v0 + Positions(hm, FlatRow(step, y, col))
      invariant mb.UVs() == u0 + TexCoords(hm, FlatRow(step, y, col))
      invariant mb.Triangles() == Iota(mb.vertexIndex) && mb.TailIsDefault()
    {
      AddFlatColumn(mb, hm, topLeft, step, x, y, row, rows, cols, col, n0, v0, u0);
      x := x + step;
      col := col + 1;
    }
  }

  /**
   * One iteration of AddFlatRow's loop: the cell whose top-left sample is (x, y). v0 and u0
   * are the buffers' contents before the row.
   */
  method AddFlatColumn(mb: MeshBuilder, hm: HeightMap, topLeft: Vec3, step: int, x: int, y: int,
                       ghost row: nat, ghost rows: nat, ghost cols: nat, ghost col: nat,
                       ghost n0: int, ghost v0: seq<Vec3>, ghost u0: seq<Vec2>)
    requires step >= 1 && topLeft == TopLeft(hm) && FlatRunsClean(hm.Width(), hm.Height(), step)
    requires rows == Count(hm.Height() - 1, step) && cols == Count(hm.Width() - 1, step)
    requires row < rows && y == row * step && col < cols && x == col * step
    requires mb.Valid() && mb.vertices.Length == mb.triangles.Length == 3 * FlatTriangleCapacity(hm.Width(), hm.Height(), step)
    requires n0 == 6 * row * cols && mb.vertexIndex == mb.uvIndex == mb.triangleIndex == n0 + 6 * col
    requires AllInBounds(hm, FlatRow(step, y, col))
    requires mb.Vertices() == v0 + Positions(hm, FlatRow(step, y, col))
    requires mb.UVs() == u0 + TexCoords(hm, FlatRow(step, y, col))
    requires mb.Triangles() == Iota(mb.vertexIndex) && mb.TailIsDefault()
    modifies mb, mb.vertices, mb.uvs, mb.triangles
    ensures mb.Valid() && mb.vertexIndex == mb.uvIndex == mb.triangleIndex == n0 + 6 * (col + 1)
    ensures AllInBounds(hm, FlatRow(step, y, col + 1))
    ensures mb.Vertices() == v0 + Positions(hm, FlatRow(step, y, col + 1))
    ensures mb.UVs() == u0 + TexCoords(hm, FlatRow(step, y, col + 1))
    ensures mb.Triangles() == Iota(mb.vertexIndex) && mb.TailIsDefault()
    ensures x + step == (col + 1) * step && (col + 1 < cols <==> x + step < hm.Width() - 1)
  {
    NextStride(hm.Width() - 1, step, col, col + 1, x);
    FlatCellFits(hm, step, rows, cols, row, col);
    ghost var cell := FlatCell(step, x, y);
    AddFlatCell(mb, hm, topLeft, step, x, y);
    PositionsAppend(hm, FlatRow(step, y, col), cell);
    assert FlatRow(step, y, col + 1) == FlatRow(step, y, col) + cell;
  }

  /**
   * The body of the flat generator's inner loop: the cell with top-left sample (x, y) as the
   * triangle (a, d, c) and then (d, a, b), each with three vertices of its own.
   */
  method AddFlatCell(mb: MeshBuilder, hm: HeightMap, topLeft: Vec3, step: int, x: int, y: int)
    requires mb.Valid() && step >= 1 && topLeft == TopLeft(hm)
    requires 0 <= x && x + step < hm.Height() && 0 <= y && y + step < hm.Width()
    requires mb.vertexIndex == mb.uvIndex == mb.triangleIndex
    requires mb.vertexIndex + 6 <= mb.vertices.Length && mb.triangleIndex + 6 <= mb.triangles.Length
    requires mb.Triangles() == Iota(mb.vertexIndex) && mb.TailIsDefault()
    modifies mb, mb.vertices, mb.uvs, mb.triangles
    ensures mb.Valid() && AllInBounds(hm, FlatCell(step, x, y))
    ensures mb.vertexIndex == mb.uvIndex == mb.triangleIndex == old(mb.vertexIndex) + 6
    ensures mb.Vertices() == old(mb.Vertices()) + Positions(hm, FlatCell(step, x, y))
    ensures mb.UVs() == old(mb.UVs()) + TexCoords(hm, FlatCell(step, x, y))
    ensures mb.Triangles() == Iota(mb.vertexIndex)
    ensures mb.TailIsDefault()
  {
    var width: int, height: int := hm.Width(), hm.Height();
    ghost var n := mb.vertexIndex;

    var a := Vec3(topLeft.x + x as real, hm.At(x, y), topLeft.z - y as real);
    var b := Vec3(topLeft.x + x as real + step as real, hm.At(x + step, y), topLeft.z - y as real);
    var c := Vec3(topLeft.x + x as real, hm.At(x, y + step), topLeft.z - (y + step) as real);
    var d := Vec3(topLeft.x + x as real + step as real, hm.At(x + step, y + step), topLeft.z - (y + step) as real);

    var ua := Vec2(x as real / width as real, y as real / height as real);
    var ub := Vec2((x + step) as real / width as real, y as real / height as real);
    var uc := Vec2(x as real / width as real, (y + step) as real / height as real);
    var ud := Vec2((x + step) as real / width as real, (y + step) as real / height as real);

    AddFlatTriangle(mb, a, d, c, ua, ud, uc);
    AddFlatTriangle(mb, d, a, b, ud, ua, ub);

    FlatCellInBounds(hm, step, x, y);
    assert Positions(hm, FlatCell(step, x, y)) == [a, d, c, d, a, b];
    assert TexCoords(hm, FlatCell(step, x, y)) == [ua, ud, uc, ud, ua, ub];
  }

  /** Three private vertices followed by AddTriangle(VertexIndex - 3, VertexIndex - 2, VertexIndex - 1). */
  method AddFlatTriangle(mb: MeshBuilder, p: Vec3, q: Vec3, r: Vec3, up: Vec2, uq: Vec2, ur: Vec2)
    requires mb.Valid() && mb.vertexIndex == mb.uvIndex == mb.triangleIndex
    requires mb.vertexIndex + 3 <= mb.vertices.Length && mb.triangleIndex + 3 <= mb.triangles.Length
    requires mb.Triangles() == Iota(mb.vertexIndex) && mb.TailIsDefault()
    modifies mb, mb.vertices, mb.uvs, mb.triangles
    ensures mb.Valid() && mb.vertexIndex == mb.uvIndex == mb.triangleIndex == old(mb.vertexIndex) + 3
    ensures mb.Vertices() == old(mb.Vertices()) + [p, q, r]
    ensures mb.UVs() == old(mb.UVs()) + [up, uq, ur]
    ensures mb.Triangles() == Iota(mb.vertexIndex)
    ensures mb.TailIsDefault()
  {
    ghost var n := mb.vertexIndex;
    AddVertexToTail(mb, p, up);
    AddVertexToTail(mb, q, uq);
    AddVertexToTail(mb, r, ur);
    AddTriangleToTail(mb, mb.VertexIndex() - 3, mb.VertexIndex() - 2, mb.VertexIndex() - 1);
    IotaAppend3(n);
  }

  /** AddTriangle on a builder whose slots past the cursors are untouched. */
  method AddTriangleToTail(mb: MeshBuilder, a: int, b: int, c: int)
    requires mb.Valid() && mb.triangleIndex + 3 <= mb.triangles.Length && mb.TailIsDefault()
    modifies mb`triangleIndex, mb.triangles
    ensures mb.Valid() && mb.triangleIndex == old(mb.triangleIndex) + 3 && mb.TailIsDefault()
    ensures mb.Triangles() == old(mb.Triangles()) + [a, b, c]
    ensures mb.Vertices() == old(mb.Vertices()) && mb.UVs() == old(mb.UVs())
  {
    mb.AddTriangle(a, b, c);
    assert forall i :: mb.triangleIndex <= i < mb.triangles.Length ==> mb.triangles[i] == old(mb.triangles[i]);
  }

  /** AddVertex(Vector3, Vector2) on a builder whose slots past the cursors are untouched. */
  method AddVertexToTail(mb: MeshBuilder, p: Vec3, up: Vec2)
    requires mb.Valid() && mb.vertexIndex == mb.uvIndex < mb.vertices.Length && mb.TailIsDefault()
    modifies mb`vertexIndex, mb`uvIndex, mb.vertices, mb.uvs
    ensures mb.Valid() && mb.vertexIndex == mb.uvIndex == old(mb.vertexIndex) + 1 && mb.TailIsDefault()
    ensures mb.Vertices() == old(mb.Vertices()) + [p]
    ensures mb.UVs() == old(mb.UVs()) + [up]
  {
    mb.AddVertexWithUV(p, up);
    assert forall i :: mb.vertexIndex <= i < mb.vertices.Length ==> mb.vertices[i] == old(mb.vertices[i]);
    assert forall i :: mb.uvIndex <= i < mb.uvs.Length ==> mb.uvs[i] == old(mb.uvs[i]);
  }

  lemma IotaAppend3(n: nat)
    ensures Iota(n + 3) == Iota(n) + [n, n + 1, n + 2]
  {
    assert Iota(n + 3)[n..] == [n, n + 1, n + 2];
    assert Iota(n + 3)[..n] == Iota(n);
    assert Iota(n + 3) == Iota(n + 3)[..n] + Iota(n + 3)[n..];
  }

  lemma CellSlotsFit(rows: nat, cols: nat, row: nat, col: nat, cap: int)
    requires row < rows && col < cols && 6 * rows * cols <= 3 * cap
    ensures 6 * row * cols + 6 * col + 6 <= 3 * cap
  {
    CellOffsets(row, col, rows, cols);
    assert 6 * (row * cols + col) == 6 * row * cols + 6 * col;
  }

  lemma CornerInside(k: nat, count: nat, s: int, bound: int)
    requires s >= 1 && k < count && count * s < bound
    ensures 0 <= k * s && k * s + s < bound
  {
    MulMono(0, k, s);
    MulMono(k + 1, count, s);
  }

  /** The next cell's six slots fit, and its far corner is inside the data. */
  lemma FlatCellFits(hm: HeightMap, s: int, rows: nat, cols: nat, row: nat, col: nat)
    requires s >= 1 && FlatRunsClean(hm.Width(), hm.Height(), s)
    requires rows == Count(hm.Height() - 1, s) && cols == Count(hm.Width() - 1, s)
    requires row < rows && col < cols
    ensures 6 * row * cols + 6 * col + 6 <= 3 * FlatTriangleCapacity(hm.Width(), hm.Height(), s)
    ensures 0 <= col * s && col * s + s < hm.Height() && 0 <= row * s && row * s + s < hm.Width()
  {
    CellSlotsFit(rows, cols, row, col, FlatTriangleCapacity(hm.Width(), hm.Height(), s));
    CornerInside(col, cols, s, hm.Height());
    CornerInside(row, rows, s, hm.Width());
  }

  // ---------------------------------------------------------------------------
  // Shared-vertex mesh.

  /** Every sample the shared generator reads lies inside the data. */
  lemma SharedGridInBounds(hm: HeightMap, s: int)
    requires s >= 1 && SharedRunsClean(hm.Width(), hm.Height(), s)
    ensures AllInBounds(hm, SharedGrid(s, Count(hm.Height(), s), Count(hm.Width(), s)))
  {
    var rows, cols := Count(hm.Height(), s), Count(hm.Width(), s);
    SharedGridInBox(s, rows, cols);
    SharedGridLength(s, rows, cols);
    if rows == 0 || cols == 0 {
      assert rows * cols == 0;
    }
  }

  /**
   * GenerateTerrainMesh. Buffers of w*h/step vertex slots and 3 * (w-1)(h-1)*2/step triangle
   * slots; one vertex per sample (x, y) in strides of `step` below (w, h), and after each vertex
   * not on the last column or row the quad (i, i+1, i+vpl, i+vpl+1), with i the vertex's own
   * index and vpl = (w-1)/step + 1. When the step divides w-1 and h-1, every triangle index
   * names a written vertex.
   */
  method GenerateTerrainMesh(hm: HeightMap, levelOfDetail: int) returns (mb: MeshBuilder)
    requires SharedRunsClean(hm.Width(), hm.Height(), Step(levelOfDetail))
    ensures fresh(mb) && fresh(mb.vertices) && fresh(mb.uvs) && fresh(mb.triangles) && mb.Valid()
    ensures mb.vertices.Length == SharedVertexCapacity(hm.Width(), hm.Height(), Step(levelOfDetail))
    ensures mb.triangles.Length == 3 * FlatTriangleCapacity(hm.Width(), hm.Height(), Step(levelOfDetail))
    ensures mb.vertexIndex == mb.uvIndex == Count(hm.Height(), Step(levelOfDetail)) * Count(hm.Width(), Step(levelOfDetail))
    ensures AllInBounds(hm, SharedGrid(Step(levelOfDetail), Count(hm.Height(), Step(levelOfDetail)), Count(hm.Width(), Step(levelOfDetail))))
    ensures mb.Vertices() == Positions(hm, SharedGrid(Step(levelOfDetail), Count(hm.Height(), Step(levelOfDetail)), Count(hm.Width(), Step(levelOfDetail))))
    ensures mb.UVs() == TexCoords(hm, SharedGrid(Step(levelOfDetail), Count(hm.Height(), Step(levelOfDetail)), Count(hm.Width(), Step(levelOfDetail))))
    ensures mb.Triangles() == SharedTriangles(Step(levelOfDetail), hm.Width(), hm.Height(), VerticesPerLine(hm.Width(), Step(levelOfDetail)),
                                              Count(hm.Width(), Step(levelOfDetail)), Count(hm.Height(), Step(levelOfDetail)))
    ensures mb.TailIsDefault()
    ensures (hm.Width() - 1) % Step(levelOfDetail) == 0 && (hm.Height() - 1) % Step(levelOfDetail) == 0 ==>
              IndicesBelow(mb.Triangles(), mb.vertexIndex)
  {
    var width: int := hm.Width();
    var height: int := hm.Height();
    var topLeft := Vec3((width - 1) as real / -2.0, 0.0, (height - 1) as real / 2.0);
    var step := if levelOfDetail <= 0 then 1 else levelOfDetail * 2;
    var verticesPerLine := CsDiv(width - 1, step) + 1;
    assert step == Step(levelOfDetail);
    mb := new MeshBuilder(CsDiv(width * height, step), CsDiv((width - 1) * (height - 1) * 2, step));
    assert mb.TailIsDefault();
    AddSharedRows(mb, hm, topLeft, step, verticesPerLine);
    SharedIndicesInRange(mb, hm, step, verticesPerLine);
  }

  /**
   * GenerateTerrainMesh's outer loop over y, from the fresh builder: one row of vertices and
   * quads per stride below the height.
   */
  method AddSharedRows(mb: MeshBuilder, hm: HeightMap, topLeft: Vec3, step: int, verticesPerLine: int)
    requires step >= 1 && topLeft == TopLeft(hm) && SharedRunsClean(hm.Width(), hm.Height(), step)
    requires mb.Valid() && mb.vertices.Length == SharedVertexCapacity(hm.Width(), hm.Height(), step)
    requires mb.triangles.Length == 3 * FlatTriangleCapacity(hm.Width(), hm.Height(), step)
    requires mb.vertexIndex == mb.uvIndex == mb.triangleIndex == 0 && mb.TailIsDefault()
    modifies mb, mb.vertices, mb.uvs, mb.triangles
    ensures mb.Valid() && mb.TailIsDefault()
    ensures mb.vertexIndex == mb.uvIndex == Count(hm.Height(), step) * Count(hm.Width(), step)
    ensures AllInBounds(hm, SharedGrid(step, Count(hm.Height(), step), Count(hm.Width(), step)))
    ensures mb.Vertices() == Positions(hm, SharedGrid(step, Count(hm.Height(), step), Count(hm.Width(), step)))
    ensures mb.UVs() == TexCoords(hm, SharedGrid(step, Count(hm.Height(), step), Count(hm.Width(), step)))
    ensures mb.Triangles() == SharedTriangles(step, hm.Width(), hm.Height(), verticesPerLine, Count(hm.Width(), step), Count(hm.Height(), step))
  {
    var height: int := hm.Height();
    ghost var rows, cols := Count(height, step), Count(hm.Width(), step);
    assert mb.Vertices() == Positions(hm, SharedGrid(step, 0, cols));
    assert mb.UVs() == TexCoords(hm, SharedGrid(step, 0, cols));
    assert mb.Triangles() == SharedTriangles(step, hm.Width(), height, verticesPerLine, cols, 0);
    var y := 0;
    ghost var row := 0;
    CountBelow(height, step, 0);
    while y < height
      invariant 0 <= row <= rows && y == row * step
      invariant row < rows <==> y < height
      invariant mb.Valid() && mb.TailIsDefault()
      invariant mb.vertexIndex == mb.uvIndex == row * cols
      invariant AllInBounds(hm, SharedGrid(step, row, cols))
      invariant mb.Vertices() == Positions(hm, SharedGrid(step, row, cols))
      invariant mb.UVs() == TexCoords(hm, SharedGrid(step, row, cols))
      invariant mb.Triangles() == SharedTriangles(step, hm.Width(), height, verticesPerLine, cols, row)
    {
      AddSharedGridRow(mb, hm, topLeft, step, y, verticesPerLine, row, rows, cols);
      y := y + step;
      row := row + 1;
    }
  }

  /** One pass of GenerateTerrainMesh's outer loop, stated against the grid of rows so far. */
  method AddSharedGridRow(mb: MeshBuilder, hm: HeightMap, topLeft: Vec3, step: int, y: int, verticesPerLine: int,
                          ghost row: nat, ghost rows: nat, ghost cols: nat)
    requires step >= 1 && topLeft == TopLeft(hm) && SharedRunsClean(hm.Width(), hm.Height(), step)
    requires rows == Count(hm.Height(), step) && cols == Count(hm.Width(), step)
    requires row < rows && y == row * step
    requires mb.Valid() && mb.vertices.Length == SharedVertexCapacity(hm.Width(), hm.Height(), step)
    requires mb.triangles.Length == 3 * FlatTriangleCapacity(hm.Width(), hm.Height(), step)
    requires mb.vertexIndex == mb.uvIndex == row * cols
    requires AllInBounds(hm, SharedGrid(step, row, cols))
    requires mb.Vertices() == Positions(hm, SharedGrid(step, row, cols))
    requires mb.UVs() == TexCoords(hm, SharedGrid(step, row, cols))
    requires mb.Triangles() == SharedTriangles(step, hm.Width(), hm.Height(), verticesPerLine, cols, row)
    requires mb.TailIsDefault()
    modifies mb, mb.vertices, mb.uvs, mb.triangles
    ensures mb.Valid() && mb.TailIsDefault()
    ensures mb.vertexIndex == mb.uvIndex == (row + 1) * cols
    ensures AllInBounds(hm, SharedGrid(step, row + 1, cols))
    ensures mb.Vertices() == Positions(hm, SharedGrid(step, row + 1, cols))
    ensures mb.UVs() == TexCoords(hm, SharedGrid(step, row + 1, cols))
    ensures mb.Triangles() == SharedTriangles(step, hm.Width(), hm.Height(), verticesPerLine, cols, row + 1)
    ensures y + step == (row + 1) * step && (row + 1 < rows <==> y + step < hm.Height())
  {
    SharedTrianglesLengthRows(step, hm.Width(), hm.Height(), verticesPerLine, row);
    AddSharedRow(mb, hm, topLeft, step, y, verticesPerLine, row, rows, cols);
    SharedGridStep(hm, step, row, rows, cols);
  }

  /** The shared grid grows by one row per pass of the outer loop. */
  lemma SharedGridStep(hm: HeightMap, s: int, row: nat, rows: nat, cols: nat)
    requires s >= 1 && rows == Count(hm.Height(), s)
    requires AllInBounds(hm, SharedGrid(s, row, cols)) && AllInBounds(hm, SharedRow(s, row * s, cols))
    ensures AllInBounds(hm, SharedGrid(s, row + 1, cols))
    ensures Positions(hm, SharedGrid(s, row + 1, cols)) == Positions(hm, SharedGrid(s, row, cols)) + Positions(hm, SharedRow(s, row * s, cols))
    ensures TexCoords(hm, SharedGrid(s, row + 1, cols)) == TexCoords(hm, SharedGrid(s, row, cols)) + TexCoords(hm, SharedRow(s, row * s, cols))
    ensures row * s + s == (row + 1) * s && row * cols + cols == (row + 1) * cols
    ensures row + 1 < rows <==> row * s + s < hm.Height()
  {
    PositionsAppend(hm, SharedGrid(s, row, cols), SharedRow(s, row * s, cols));
    assert SharedGrid(s, row + 1, cols) == SharedGrid(s, row, cols) + SharedRow(s, row * s, cols);
    MulSucc(row, s);
    MulSucc(row, cols);
    CountBelow(hm.Height(), s, row + 1);
  }

  lemma SharedIndicesInRange(mb: MeshBuilder, hm: HeightMap, s: int, vpl: int)
    requires s >= 1 && vpl == VerticesPerLine(hm.Width(), s) && mb.Valid()
    requires mb.vertexIndex == Count(hm.Height(), s) * Count(hm.Width(), s)
    requires mb.Triangles() == SharedTriangles(s, hm.Width(), hm.Height(), vpl, Count(hm.Width(), s), Count(hm.Height(), s))
    ensures (hm.Width() - 1) % s == 0 && (hm.Height() - 1) % s == 0 ==> IndicesBelow(mb.Triangles(), mb.vertexIndex)
  {
    if (hm.Width() - 1) % s == 0 && (hm.Height() - 1) % s == 0 {
      if hm.Width() >= 1 {
        SharedTrianglesInRange(s, hm.Width(), hm.Height());
      } else {
        SharedTrianglesLength(s, hm.Width(), hm.Height(), vpl);
      }
    }
  }

  /** The shared generator's inner loop over x for the row at height-map index y = row * step. */
  method AddSharedRow(mb: MeshBuilder, hm: HeightMap, topLeft: Vec3, step: int, y: int, verticesPerLine: int,
                      ghost row: nat, ghost rows: nat, ghost cols: nat)
    requires step >= 1 && topLeft == TopLeft(hm) && SharedRunsClean(hm.Width(), hm.Height(), step)
    requires rows == Count(hm.Height(), step) && cols == Count(hm.Width(), step)
    requires row < rows && y == row * step
    requires mb.Valid() && mb.vertices.Length == SharedVertexCapacity(hm.Width(), hm.Height(), step)
    requires mb.triangles.Length == 3 * FlatTriangleCapacity(hm.Width(), hm.Height(), step)
    requires mb.vertexIndex == mb.uvIndex == row * cols
    requires mb.triangleIndex == 6 * Count(hm.Width() - 1, step) * Min(row, Count(hm.Height() - 1, step))
    requires mb.TailIsDefault()
    modifies mb, mb.vertices, mb.uvs, mb.triangles
    ensures mb.Valid() && mb.TailIsDefault() && AllInBounds(hm, SharedRow(step, y, cols))
    ensures mb.vertexIndex == mb.uvIndex == row * cols + cols
    ensures mb.Vertices() == old(mb.Vertices()) + Positions(hm, SharedRow(step, y, cols))
    ensures mb.UVs() == old(mb.UVs()) + TexCoords(hm, SharedRow(step, y, cols))
    ensures mb.Triangles() == old(mb.Triangles()) + SharedRowTriangles(step, hm.Width(), hm.Height(), verticesPerLine, cols, row, cols)
  {
    var width: int, height: int := hm.Width(), hm.Height();
    ghost var v0, u0, t0 := mb.Vertices(), mb.UVs(), mb.Triangles();
    var x := 0;
    ghost var col := 0;
    CountBelow(width, step, 0);
    while x < width
      invariant 0 <= col <= cols && x == col * step
      invariant col < cols <==> x < width
      invariant mb.Valid() && mb.TailIsDefault()
      invariant mb.vertexIndex == mb.uvIndex == row * cols + col
      invariant AllInBounds(hm, SharedRow(step, y, col))
      invariant mb.Vertices() == v0 + Positions(hm, SharedRow(step, y, col))
      invariant mb.UVs() == u0 + TexCoords(hm, SharedRow(step, y, col))
      invariant mb.Triangles() == t0 + SharedRowTriangles(step, width, height, verticesPerLine, cols, row, col)
    {
      col := AddSharedColumn(mb, hm, topLeft, step, x, y, verticesPerLine, row, rows, cols, col, v0, u0, t0);
      x := x + step;
    }
  }

  /**
   * One iteration of AddSharedRow's loop: the vertex at (x, y) and, unless it is on the last
   * column or row, the quad to its right and below. v0, u0 and t0 are the buffers' contents
   * before the row.
   */
  method AddSharedColumn(mb: MeshBuilder, hm: HeightMap, topLeft: Vec3, step: int, x: int, y: int, verticesPerLine: int,
                         ghost row: nat, ghost rows: nat, ghost cols: nat, ghost col: nat,
                         ghost v0: seq<Vec3>, ghost u0: seq<Vec2>, ghost t0: seq<int>) returns (ghost col': nat)
    requires step >= 1 && topLeft == TopLeft(hm) && SharedRunsClean(hm.Width(), hm.Height(), step)
    requires rows == Count(hm.Height(), step) && cols == Count(hm.Width(), step)
    requires row < rows && y == row * step && col < cols && x == col * step
    requires mb.Valid() && mb.vertices.Length == SharedVertexCapacity(hm.Width(), hm.Height(), step)
    requires mb.triangles.Length == 3 * FlatTriangleCapacity(hm.Width(), hm.Height(), step)
    requires mb.vertexIndex == mb.uvIndex == row * cols + col
    requires |t0| == 6 * Count(hm.Width() - 1, step) * Min(row, Count(hm.Height() - 1, step))
    requires AllInBounds(hm, SharedRow(step, y, col))
    requires mb.Vertices() == v0 + Positions(hm, SharedRow(step, y, col))
    requires mb.UVs() == u0 + TexCoords(hm, SharedRow(step, y, col))
    requires mb.Triangles() == t0 + SharedRowTriangles(step, hm.Width(), hm.Height(), verticesPerLine, cols, row, col)
    requires mb.TailIsDefault()
    modifies mb, mb.vertices, mb.uvs, mb.triangles
    ensures col' == col + 1
    ensures mb.Valid() && mb.TailIsDefault()
    ensures mb.vertexIndex == mb.uvIndex == row * cols + col'
    ensures AllInBounds(hm, SharedRow(step, y, col'))
    ensures mb.Vertices() == v0 + Positions(hm, SharedRow(step, y, col'))
    ensures mb.UVs() == u0 + TexCoords(hm, SharedRow(step, y, col'))
    ensures mb.Triangles() == t0 + SharedRowTriangles(step, hm.Width(), hm.Height(), verticesPerLine, cols, row, col')
    ensures x + step == col' * step && (col' < cols <==> x + step < hm.Width())
  {
    col' := col + 1;
    NextStride(hm.Width(), step, col, col', x);
    AddSharedSample(mb, hm, topLeft, step, x, y, row, rows, cols, col, col', v0, u0);
    AddSharedCell(mb, hm, step, x, y, verticesPerLine, row, cols, col, col', t0);
  }

  /** The triangle half of one column: the quad anchored at (x, y), if any, extends the row's triangles. */
  method AddSharedCell(mb: MeshBuilder, hm: HeightMap, step: int, x: int, y: int, verticesPerLine: int,
                       ghost row: nat, ghost cols: nat, ghost col: nat, ghost col': nat, ghost t0: seq<int>)
    requires step >= 1 && SharedRunsClean(hm.Width(), hm.Height(), step)
    requires x == col * step && y == row * step && col' == col + 1
    requires mb.Valid() && mb.vertexIndex == row * cols + col'
    requires mb.triangles.Length == 3 * FlatTriangleCapacity(hm.Width(), hm.Height(), step)
    requires |t0| == 6 * Count(hm.Width() - 1, step) * Min(row, Count(hm.Height() - 1, step))
    requires mb.Triangles() == t0 + SharedRowTriangles(step, hm.Width(), hm.Height(), verticesPerLine, cols, row, col)
    modifies mb`triangleIndex, mb.triangles
    ensures mb.Valid()
    ensures mb.Triangles() == t0 + SharedRowTriangles(step, hm.Width(), hm.Height(), verticesPerLine, cols, row, col')
    ensures mb.Vertices() == old(mb.Vertices()) && mb.UVs() == old(mb.UVs()) && (mb.TailIsDefault() <== old(mb.TailIsDefault()))
  {
    SharedRowTrianglesLength(step, hm.Width(), hm.Height(), verticesPerLine, cols, row, col);
    AddSharedQuad(mb, hm, step, x, y, verticesPerLine, row, cols, col);
    SharedRowTrianglesStep(step, hm.Width(), hm.Height(), verticesPerLine, cols, row, col, col');
  }

  /** The vertex half of one column: the sample at (x, y) extends the row's vertices and texture coordinates. */
  method AddSharedSample(mb: MeshBuilder, hm: HeightMap, topLeft: Vec3, step: int, x: int, y: int,
                         ghost row: nat, ghost rows: nat, ghost cols: nat, ghost col: nat, ghost col': nat,
                         ghost v0: seq<Vec3>, ghost u0: seq<Vec2>)
    requires step >= 1 && topLeft == TopLeft(hm) && SharedRunsClean(hm.Width(), hm.Height(), step)
    requires rows == Count(hm.Height(), step) && cols == Count(hm.Width(), step)
    requires row < rows && y == row * step && col < cols && x == col * step && col' == col + 1
    requires mb.Valid() && mb.vertices.Length == SharedVertexCapacity(hm.Width(), hm.Height(), step)
    requires mb.vertexIndex == mb.uvIndex == row * cols + col
    requires AllInBounds(hm, SharedRow(step, y, col))
    requires mb.Vertices() == v0 + Positions(hm, SharedRow(step, y, col))
    requires mb.UVs() == u0 + TexCoords(hm, SharedRow(step, y, col))
    modifies mb`vertexIndex, mb`uvIndex, mb.vertices, mb.uvs
    ensures mb.Valid() && mb.vertexIndex == mb.uvIndex == row * cols + col'
    ensures AllInBounds(hm, SharedRow(step, y, col'))
    ensures mb.Vertices() == v0 + Positions(hm, SharedRow(step, y, col'))
    ensures mb.UVs() == u0 + TexCoords(hm, SharedRow(step, y, col'))
    ensures mb.Triangles() == old(mb.Triangles()) && (mb.TailIsDefault() <== old(mb.TailIsDefault()))
  {
    SharedVertexFits(hm, step, rows, cols, row, col);
    AddSharedVertex(mb, hm, topLeft, x, y);
    PositionsAppend(hm, SharedRow(step, y, col), [Sample(x, y)]);
    SharedRowStep(step, y, col, col');
  }

  /** One more column of a row of the shared grid adds one more sample... */
  lemma SharedRowStep(s: int, y: int, col: nat, col': nat)
    requires col' == col + 1
    ensures SharedRow(s, y, col') == SharedRow(s, y, col) + [Sample(col * s, y)]
  {
  }

  /** ... and possibly one more quad. */
  lemma SharedRowTrianglesStep(s: int, width: int, height: int, vpl: int, perRow: int, row: nat, col: nat, col': nat)
    requires col' == col + 1
    ensures SharedRowTriangles(s, width, height, vpl, perRow, row, col')
         == SharedRowTriangles(s, width, height, vpl, perRow, row, col) + SharedQuad(s, width, height, vpl, perRow, row, col)
  {
  }

  /** The loop counter x = col * step advances with col, and stays below the bound while col counts strides. */
  lemma NextStride(bound: int, s: int, col: nat, col': nat, x: int)
    requires s >= 1 && x == col * s && col' == col + 1
    ensures x + s == col' * s && (col' < Count(bound, s) <==> x + s < bound)
  {
    MulSucc(col, s);
    CountBelow(bound, s, col');
  }

  lemma VertexSlotFits(rows: nat, cols: nat, row: nat, col: nat, cap: int)
    requires row < rows && col < cols && rows * cols <= cap
    ensures row * cols + col + 1 <= cap
  {
    MulMono(row + 1, rows, cols);
    MulSucc(row, cols);
  }

  /** The vertex and texture coordinate of sample (x, y), through the component overloads. */
  method AddSharedVertex(mb: MeshBuilder, hm: HeightMap, topLeft: Vec3, x: int, y: int)
    requires topLeft == TopLeft(hm) && hm.InBounds(x, y)
    requires mb.Valid() && mb.vertexIndex == mb.uvIndex && mb.vertexIndex < mb.vertices.Length
    modifies mb`vertexIndex, mb`uvIndex, mb.vertices, mb.uvs
    ensures mb.Valid() && mb.vertexIndex == mb.uvIndex == old(mb.vertexIndex) + 1
    ensures AllInBounds(hm, [Sample(x, y)])
    ensures mb.Vertices() == old(mb.Vertices()) + Positions(hm, [Sample(x, y)])
    ensures mb.UVs() == old(mb.UVs()) + TexCoords(hm, [Sample(x, y)])
    ensures forall i :: mb.vertexIndex <= i < mb.vertices.Length ==> mb.vertices[i] == old(mb.vertices[i]) && mb.uvs[i] == old(mb.uvs[i])
  {
    var width: int, height: int := hm.Width(), hm.Height();
    mb.AddVertexComponents(topLeft.x + x as real, hm.At(x, y), topLeft.z - y as real);
    mb.AddUVComponents(x as real / width as real, y as real / height as real);
    assert Positions(hm, [Sample(x, y)]) == [VertexOf(hm, Sample(x, y))];
    assert TexCoords(hm, [Sample(x, y)]) == [UVOf(hm, Sample(x, y))];
  }

  /**
   * The quad written after the vertex at (row, col) when that vertex is not on the last column
   * or row; `index` is the vertex's own index, VertexIndex - 1.
   */
  method AddSharedQuad(mb: MeshBuilder, hm: HeightMap, step: int, x: int, y: int, verticesPerLine: int,
                       ghost row: nat, ghost cols: nat, ghost col: nat)
    requires step >= 1 && SharedRunsClean(hm.Width(), hm.Height(), step)
    requires x == col * step && y == row * step
    requires mb.Valid() && mb.vertexIndex == row * cols + col + 1
    requires mb.triangles.Length == 3 * FlatTriangleCapacity(hm.Width(), hm.Height(), step)
    requires mb.triangleIndex == 6 * Count(hm.Width() - 1, step) * Min(row, Count(hm.Height() - 1, step))
                                 + if y < hm.Height() - 1 then 6 * Min(col, Count(hm.Width() - 1, step)) else 0
    modifies mb`triangleIndex, mb.triangles
    ensures mb.Valid()
    ensures mb.Triangles() == old(mb.Triangles()) + SharedQuad(step, hm.Width(), hm.Height(), verticesPerLine, cols, row, col)
    ensures forall i :: mb.triangleIndex <= i < mb.triangles.Length ==> mb.triangles[i] == old(mb.triangles[i])
  {
    var width: int, height: int := hm.Width(), hm.Height();
    if x < width - 1 && y < height - 1 {
      var index := mb.VertexIndex() - 1;
      QuadSlotsFit(hm, step, row, col);
      mb.AddQuad(index, index + 1, index + verticesPerLine, index + verticesPerLine + 1);
    }
  }

  /** The vertex at (row, col) fits the vertex buffer and its sample is inside the data. */
  lemma SharedVertexFits(hm: HeightMap, s: int, rows: nat, cols: nat, row: nat, col: nat)
    requires s >= 1 && SharedRunsClean(hm.Width(), hm.Height(), s)
    requires rows == Count(hm.Height(), s) && cols == Count(hm.Width(), s)
    requires row < rows && col < cols
    ensures row * cols + col + 1 <= SharedVertexCapacity(hm.Width(), hm.Height(), s)
    ensures hm.InBounds(col * s, row * s)
  {
    assert rows * cols <= SharedVertexCapacity(hm.Width(), hm.Height(), s);
    assert (cols - 1) * s < hm.Height() && (rows - 1) * s < hm.Width();
    VertexSlotFits(rows, cols, row, col, SharedVertexCapacity(hm.Width(), hm.Height(), s));
    ScaledInRange(col, cols, s);
    ScaledInRange(row, rows, s);
  }

  /** A quad is written only before the last column and row, where its six slots still fit. */
  lemma QuadSlotsFit(hm: HeightMap, s: int, row: nat, col: nat)
    requires s >= 1 && SharedRunsClean(hm.Width(), hm.Height(), s)
    requires col * s < hm.Width() - 1 && row * s < hm.Height() - 1
    ensures 6 * Count(hm.Width() - 1, s) * Min(row, Count(hm.Height() - 1, s)) + 6 * Min(col, Count(hm.Width() - 1, s)) + 6
            <= 3 * FlatTriangleCapacity(hm.Width(), hm.Height(), s)
  {
    var a, b := Count(hm.Width() - 1, s), Count(hm.Height() - 1, s);
    CountBelow(hm.Width() - 1, s, col);
    CountBelow(hm.Height() - 1, s, row);
    assert Min(row, b) == row && Min(col, a) == col;
    MulMono(row + 1, b, 6 * a);
    assert 6 * a * (row + 1) == 6 * a * row + 6 * a;
  }

  /** After the loops, every slot of the triangle buffer names a slot of the vertex buffer. */
  lemma FlatTrianglesBelowVertexCount(mb: MeshBuilder)
    requires mb.Valid() && mb.vertices.Length == mb.triangles.Length
    requires mb.vertexIndex == mb.triangleIndex && mb.Triangles() == Iota(mb.vertexIndex)
    requires forall i :: mb.triangleIndex <= i < mb.triangles.Length ==> mb.triangles[i] == 0
    ensures forall i :: 0 <= i < mb.triangles.Length ==> 0 <= mb.triangles[i] < mb.vertices.Length
  {
    forall i | 0 <= i < mb.triangles.Length
      ensures 0 <= mb.triangles[i] < mb.vertices.Length
    {
      if i < mb.triangleIndex {
        assert mb.triangles[i] == mb.Triangles()[i];
      }
    }
  }
}
