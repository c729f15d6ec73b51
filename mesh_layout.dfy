/**
 * The integer layout of the two terrain meshes: which grid samples become vertices, in which
 * order, and which vertex indices the triangles reference. The generator methods are proved
 * to write exactly these sequences.
 */
module MeshLayout {
  import opened Base
  import opened MeshBuilders

  /** The grid stride for a level of detail: 1 at level 0 or below, else twice the level. */
  function Step(levelOfDetail: int): (s: int)
    ensures s >= 1
  {
    if levelOfDetail <= 0 then 1 else levelOfDetail * 2
  }

  /** How often `for (i = 0; i < n; i += s)` runs: the number of multiples of s in [0, n). */
  function Count(n: int, s: int): nat
    requires s >= 1
  {
    if n <= 0 then 0 else (n - 1) / s + 1
  }

  lemma MulMono(a: int, b: int, s: int)
    requires a <= b && s >= 0
    ensures a * s <= b * s
  {
    assert (b - a) * s >= 0;
  }

  /** One more stride: (a + 1) * s == a * s + s. */
  lemma MulSucc(a: int, s: int)
    ensures (a + 1) * s == a * s + s && 6 * (a + 1) * s == 6 * a * s + 6 * s
  {
  }

  lemma MulDiv(a: int, s: int)
    requires s >= 1
    ensures (a * s) / s == a && (a * s) % s == 0
  {
    var q, r := (a * s) / s, (a * s) % s;
    assert a * s == q * s + r;
    if q < a {
      MulMono(q + 1, a, s);
    } else if q > a {
      MulMono(a + 1, q, s);
    }
  }

  /** The k-th iteration of the loop exists exactly when k * s is still below n. */
  lemma CountBelow(n: int, s: int, k: nat)
    requires s >= 1
    ensures k < Count(n, s) <==> k * s < n
  {
    if n > 0 {
      var q := (n - 1) / s;
      assert n - 1 == q * s + (n - 1) % s;
      if k <= q {
        MulMono(k, q, s);
      } else {
        MulMono(q + 1, k, s);
      }
    } else {
      assert k * s >= 0;
    }
  }

  /** The loop over [0, k*s) with stride s runs exactly k times. */
  lemma CountOfMultiple(k: nat, s: int)
    requires s >= 1
    ensures Count(k * s, s) == k
  {
    CountBelow(k * s, s, k);
    if k > 0 {
      CountBelow(k * s, s, k - 1);
    }
  }

  /** When s divides n, the loop over [0, n) runs n / s times and its last stride ends at n. */
  lemma CountOfDivisible(n: nat, s: int)
    requires s >= 1 && n % s == 0
    ensures Count(n, s) == n / s && Count(n, s) * s == n
  {
    assert n == (n / s) * s;
    CountOfMultiple(n / s, s);
  }

  /** Conversely, if the strides cover [0, n) exactly, s divides n. */
  lemma DivisibleOfCount(n: nat, s: int)
    requires s >= 1 && Count(n, s) * s == n
    ensures n % s == 0
  {
    MulDiv(Count(n, s), s);
  }

  /** One more element never lowers the count. */
  lemma CountMonotone(n: int, s: int)
    requires s >= 1
    ensures Count(n - 1, s) <= Count(n, s) <= Count(n - 1, s) + 1
  {
    var c := Count(n - 1, s);
    CountBelow(n - 1, s, c);
    CountBelow(n, s, c + 1);
    if c > 0 {
      CountBelow(n, s, c - 1);
      CountBelow(n - 1, s, c - 1);
    }
    MulMono(c, c + 1, s);
  }

  /** The grid sample `(x, y)` a vertex is taken from: height map index `[x, y]`. */
  datatype Sample = Sample(x: int, y: int)

  // ---------------------------------------------------------------------------
  // Flat mesh: six unshared vertices per cell.

  /**
   * The vertices of the cell whose top-left sample is (x, y): corners a = (x, y),
   * b = (x+s, y), c = (x, y+s), d = (x+s, y+s), emitted as a, d, c then d, a, b.
   */
  function FlatCell(s: int, x: int, y: int): seq<Sample>
  {
    var a, b, c, d := Sample(x, y), Sample(x + s, y), Sample(x, y + s), Sample(x + s, y + s);
    [a, d, c, d, a, b]
  }

  /** The vertices of the first `cols` cells of the row at height-map index y. */
  function FlatRow(s: int, y: int, cols: nat): seq<Sample>
  {
    if cols == 0 then [] else FlatRow(s, y, cols - 1) + FlatCell(s, (cols - 1) * s, y)
  }

  /** The vertices of the first `rows` rows of `cols` cells each. */
  function FlatGrid(s: int, rows: nat, cols: nat): seq<Sample>
  {
    if rows == 0 then [] else FlatGrid(s, rows - 1, cols) + FlatRow(s, (rows - 1) * s, cols)
  }

  lemma {:induction false} FlatRowLength(s: int, y: int, cols: nat)
    ensures |FlatRow(s, y, cols)| == 6 * cols
  {
    if cols > 0 {
      FlatRowLength(s, y, cols - 1);
    }
  }

  /** Six vertices per cell. */
  lemma {:induction false} FlatGridLength(s: int, rows: nat, cols: nat)
    ensures |FlatGrid(s, rows, cols)| == 6 * rows * cols
  {
    if rows > 0 {
      FlatGridLength(s, rows - 1, cols);
      FlatRowLength(s, (rows - 1) * s, cols);
      assert 6 * (rows - 1) * cols + 6 * cols == 6 * rows * cols;
    }
  }

  lemma {:induction false} FlatRowInBox(s: int, y: int, cols: nat)
    requires s >= 1
    ensures forall i :: 0 <= i < |FlatRow(s, y, cols)| ==>
              0 <= FlatRow(s, y, cols)[i].x <= cols * s && y <= FlatRow(s, y, cols)[i].y <= y + s
  {
    if cols > 0 {
      FlatRowInBox(s, y, cols - 1);
      MulMono(0, cols - 1, s);
      MulMono(cols - 1, cols, s);
    }
  }

  /** Every sample of the first rows x cols cells lies in [0, cols*s] x [0, rows*s]. */
  lemma {:induction false} FlatGridInBox(s: int, rows: nat, cols: nat)
    requires s >= 1
    ensures forall i :: 0 <= i < |FlatGrid(s, rows, cols)| ==>
              0 <= FlatGrid(s, rows, cols)[i].x <= cols * s && 0 <= FlatGrid(s, rows, cols)[i].y <= rows * s
  {
    if rows > 0 {
      FlatGridInBox(s, rows - 1, cols);
      FlatRowInBox(s, (rows - 1) * s, cols);
      MulMono(0, rows - 1, s);
      MulMono(rows - 1, rows, s);
    }
  }

  lemma {:induction false} FlatRowCellAt(s: int, y: int, cols: nat, j: nat)
    requires j < cols
    ensures |FlatRow(s, y, cols)| == 6 * cols
    ensures FlatRow(s, y, cols)[6 * j .. 6 * j + 6] == FlatCell(s, j * s, y)
  {
    FlatRowLength(s, y, cols);
    FlatRowLength(s, y, cols - 1);
    var p := FlatRow(s, y, cols - 1);
    var q := FlatCell(s, (cols - 1) * s, y);
    if j < cols - 1 {
      FlatRowCellAt(s, y, cols - 1, j);
      assert (p + q)[6 * j .. 6 * j + 6] == p[6 * j .. 6 * j + 6];
    } else {
      assert (p + q)[6 * j .. 6 * j + 6] == q;
    }
  }

  /** A slice lying wholly in the left operand of a concatenation. */
  lemma SliceLeft<T>(p: seq<T>, q: seq<T>, lo: int, hi: int)
    requires 0 <= lo <= hi <= |p|
    ensures (p + q)[lo .. hi] == p[lo .. hi]
  {
  }

  /** A slice lying wholly in the right operand of a concatenation. */
  lemma SliceRight<T>(p: seq<T>, q: seq<T>, lo: int, hi: int)
    requires |p| <= lo <= hi <= |p| + |q|
    ensures (p + q)[lo .. hi] == q[lo - |p| .. hi - |p|]
  {
  }

  lemma CellOffsets(i: nat, j: nat, rows: nat, cols: nat)
    requires i < rows && j < cols
    ensures 0 <= 6 * (i * cols + j) && 6 * (i * cols + j) + 6 <= 6 * rows * cols
    ensures i + 1 < rows ==> 6 * (i * cols + j) + 6 <= 6 * (rows - 1) * cols
    ensures i + 1 == rows ==> 6 * (i * cols + j) == 6 * (rows - 1) * cols + 6 * j
  {
    MulMono(0, i, cols);
    MulMono(i + 1, rows, cols);
    if i + 1 < rows {
      MulMono(i + 1, rows - 1, cols);
    }
  }

  /**
   * The flat mesh's cell in row i, column j owns the six vertices from 6*(i*cols + j) on;
   * its first triangle is (a, d, c) and its second (d, a, b).
   */
  lemma {:induction false} FlatGridCellAt(s: int, rows: nat, cols: nat, i: nat, j: nat)
    requires i < rows && j < cols
    ensures |FlatGrid(s, rows, cols)| == 6 * rows * cols
    ensures 6 * (i * cols + j) + 6 <= 6 * rows * cols
    ensures FlatGrid(s, rows, cols)[6 * (i * cols + j) .. 6 * (i * cols + j) + 6] == FlatCell(s, j * s, i * s)
  {
    FlatGridLength(s, rows, cols);
    FlatGridLength(s, rows - 1, cols);
    CellOffsets(i, j, rows, cols);
    var p := FlatGrid(s, rows - 1, cols);
    var q := FlatRow(s, (rows - 1) * s, cols);
    var k := 6 * (i * cols + j);
    assert FlatGrid(s, rows, cols) == p + q;
    assert |p| == 6 * (rows - 1) * cols;
    if i < rows - 1 {
      FlatGridCellAt(s, rows - 1, cols, i, j);
      assert k + 6 <= |p|;
      SliceLeft(p, q, k, k + 6);
    } else {
      FlatRowCellAt(s, (rows - 1) * s, cols, j);
      assert k - |p| == 6 * j && (rows - 1) * s == i * s;
      SliceRight(p, q, k, k + 6);
    }
  }

  /** The last cell's bottom-right corner (cols*s, rows*s) is read. */
  lemma FlatGridReachesCorner(s: int, rows: nat, cols: nat)
    requires rows > 0 && cols > 0
    ensures exists i :: 0 <= i < |FlatGrid(s, rows, cols)| && FlatGrid(s, rows, cols)[i] == Sample(cols * s, rows * s)
  {
    var i, j := rows - 1, cols - 1;
    FlatGridCellAt(s, rows, cols, i, j);
    var k := 6 * (i * cols + j);
    var g := FlatGrid(s, rows, cols);
    CornerOfCell(s, j, i);
    MulMono(0, i, cols);
    SliceAt(g, k, k + 6, 1);
    assert g[k + 1] == Sample(cols * s, rows * s);
  }

  lemma SliceAt<T>(a: seq<T>, lo: int, hi: int, n: int)
    requires 0 <= lo <= hi <= |a| && 0 <= n < hi - lo
    ensures a[lo + n] == a[lo .. hi][n]
  {
  }

  lemma CornerOfCell(s: int, j: int, i: int)
    ensures FlatCell(s, j * s, i * s)[1] == Sample((j + 1) * s, (i + 1) * s)
  {
    assert j * s + s == (j + 1) * s && i * s + s == (i + 1) * s;
  }

  /** Triangle indices of the flat mesh: triangle t is (3t, 3t+1, 3t+2). */
  function Iota(n: nat): (r: seq<int>)
    ensures |r| == n && forall j :: 0 <= j < n ==> r[j] == j
  {
    seq(n, j => j)
  }

  /** The triangle capacity GenerateFlatTerrainMesh declares: (w-1)(h-1)*2/step. */
  function FlatTriangleCapacity(width: int, height: int, s: int): int
    requires s >= 1
  {
    CsDiv((width - 1) * (height - 1) * 2, s)
  }

  /**
   * Whether GenerateFlatTerrainMesh, on a height map of the given Width and Height, stays
   * within every array it touches: the buffers have non-negative sizes, the furthest read
   * (cols*s, rows*s) is inside the data (first index against Height, second against Width),
   * and the 6*rows*cols written vertices fit the 3*capacity slots.
   */
  predicate FlatRunsClean(width: int, height: int, s: int)
    requires s >= 1
  {
    var cols, rows := Count(width - 1, s), Count(height - 1, s);
    var cap := FlatTriangleCapacity(width, height, s);
    && cap >= 0
    && (rows == 0 || cols == 0 || (cols * s < height && rows * s < width))
    && 6 * rows * cols <= 3 * cap
  }

  /**
   * On a height map of at least 2 x 2 samples the flat generator stays in bounds exactly when
   * the map is square and the step divides its side minus one.
   */
  lemma FlatRunsCleanIff(width: int, height: int, s: int)
    requires width >= 2 && height >= 2 && s >= 1
    ensures FlatRunsClean(width, height, s) <==> width == height && (width - 1) % s == 0
  {
    var cols, rows := Count(width - 1, s), Count(height - 1, s);
    if width == height && (width - 1) % s == 0 {
      FlatRunsCleanOnSquare(width, s);
    }
    if FlatRunsClean(width, height, s) {
      CountBelow(width - 1, s, cols);
      CountBelow(height - 1, s, rows);
      CountBelow(width - 1, s, 0);
      CountBelow(height - 1, s, 0);
      assert width - 1 <= cols * s <= height - 1 <= rows * s <= width - 1;
      DivisibleOfCount(width - 1, s);
    }
  }

  lemma SquareCapacity(n: nat, s: int, k: nat)
    requires s >= 1 && n >= 1 && k * s == n - 1
    ensures FlatTriangleCapacity(n, n, s) == 2 * k * k * s
  {
    var t := 2 * k * k * s;
    SquareOfMultiple(n - 1, k, s);
    MulDiv(t, s);
  }

  /** With d = k * s: 2 * d * d == (2 * k * k * s) * s, and both sides are non-negative. */
  lemma SquareOfMultiple(d: int, k: nat, s: int)
    requires s >= 1 && d == k * s
    ensures d * d * 2 == (2 * k * k * s) * s && 2 * k * k * s >= 0
  {
    MulMono(0, k * k, s);
  }

  /** On a square map the flat generator stays in bounds whenever the step divides the side minus one. */
  lemma FlatRunsCleanOnSquare(n: nat, s: int)
    requires s >= 1 && (n <= 1 || (n - 1) % s == 0)
    ensures FlatRunsClean(n, n, s)
    ensures n >= 1 ==> Count(n - 1, s) * s == n - 1
    ensures n >= 1 ==> FlatTriangleCapacity(n, n, s) == 2 * Count(n - 1, s) * Count(n - 1, s) * s
  {
    if n >= 1 {
      CountOfDivisible(n - 1, s);
      var k := Count(n - 1, s);
      SquareCapacity(n, s, k);
      SquareFits(k, s);
    }
  }

  lemma SquareFits(k: nat, s: int)
    requires s >= 1
    ensures 0 <= 2 * k * k * s && 6 * k * k <= 3 * (2 * k * k * s)
  {
    MulMono(1, s, 2 * k * k);
  }

  /**
   * On a 97 x 97 map the flat generator writes 6 * Count(96, step)^2 vertices, that is
   * 2 * (96 / step)^2 triangles, into a buffer declared for (96 * 96 * 2) / step: only a
   * 1 / step share of it is filled. At level 0 all 18432 triangles are written, at level 4
   * only 288 of 2304.
   */
  lemma {:induction false} ChunkFlatFill(levelOfDetail: int)
    requires 0 <= levelOfDetail < 5
    ensures var s := Step(levelOfDetail);
            var written := |FlatGrid(s, Count(96, s), Count(96, s))| / 3;
            written * s == FlatTriangleCapacity(97, 97, s) &&
            (levelOfDetail == 0 ==> written == 18432) &&
            (levelOfDetail == 4 ==> written == 288 && FlatTriangleCapacity(97, 97, s) == 2304)
  {
    var s := Step(levelOfDetail);
    var n := if levelOfDetail == 0 then 96 else if levelOfDetail == 1 then 48
             else if levelOfDetail == 2 then 24 else if levelOfDetail == 3 then 16 else 12;
    assert n * s == 96;
    ChunkFlatGrid(s, n);
    assert FlatTriangleCapacity(97, 97, s) == 18432 / s;
  }

  /** At a step s with n * s == 96 the flat grid of a 97 x 97 map has 6 * n * n vertices. */
  lemma ChunkFlatGrid(s: int, n: nat)
    requires s >= 1 && n * s == 96
    ensures |FlatGrid(s, Count(96, s), Count(96, s))| == 6 * n * n
  {
    CountOfDivisible(96, s);
    assert Count(96, s) == n by {
      assert Count(96, s) * s == n * s;
    }
    FlatGridLength(s, n, n);
  }

  // ---------------------------------------------------------------------------
  // Shared mesh: one vertex per visited sample, one quad per cell.

  /** The samples of the first `cols` vertices of the row at height-map index y. */
  function SharedRow(s: int, y: int, cols: nat): seq<Sample>
  {
    if cols == 0 then [] else SharedRow(s, y, cols - 1) + [Sample((cols - 1) * s, y)]
  }

  /** The samples of the first `rows` rows of `cols` vertices each. */
  function SharedGrid(s: int, rows: nat, cols: nat): seq<Sample>
  {
    if rows == 0 then [] else SharedGrid(s, rows - 1, cols) + SharedRow(s, (rows - 1) * s, cols)
  }

  /** The number of vertices per line GenerateTerrainMesh computes: (w-1)/step + 1. */
  function VerticesPerLine(width: int, s: int): int
    requires s >= 1
  {
    CsDiv(width - 1, s) + 1
  }

  /**
   * The quad GenerateTerrainMesh adds after the vertex of row `row`, column `col` when that
   * vertex is not on the last column or row: its index is the number of vertices written
   * before it, row*perRow + col, and the quad is (i, i+1, i+vpl, i+vpl+1).
   */
  function SharedQuad(s: int, width: int, height: int, vpl: int, perRow: int, row: nat, col: nat): seq<int>
  {
    var i := row * perRow + col;
    if col * s < width - 1 && row * s < height - 1 then QuadSplit(i, i + 1, i + vpl, i + vpl + 1) else []
  }

  /** The triangle indices written while visiting the first `cols` vertices of row `row`. */
  function SharedRowTriangles(s: int, width: int, height: int, vpl: int, perRow: int, row: nat, cols: nat): seq<int>
  {
    if cols == 0 then []
    else SharedRowTriangles(s, width, height, vpl, perRow, row, cols - 1) + SharedQuad(s, width, height, vpl, perRow, row, cols - 1)
  }

  /** The triangle indices written while visiting the first `rows` full rows. */
  function SharedTriangles(s: int, width: int, height: int, vpl: int, perRow: nat, rows: nat): seq<int>
  {
    if rows == 0 then []
    else SharedTriangles(s, width, height, vpl, perRow, rows - 1) + SharedRowTriangles(s, width, height, vpl, perRow, rows - 1, perRow)
  }

  lemma {:induction false} SharedRowLength(s: int, y: int, cols: nat)
    ensures |SharedRow(s, y, cols)| == cols
  {
    if cols > 0 {
      SharedRowLength(s, y, cols - 1);
    }
  }

  /** One vertex per visited sample. */
  lemma {:induction false} SharedGridLength(s: int, rows: nat, cols: nat)
    ensures |SharedGrid(s, rows, cols)| == rows * cols
  {
    if rows > 0 {
      SharedGridLength(s, rows - 1, cols);
      SharedRowLength(s, (rows - 1) * s, cols);
    }
  }

  lemma {:induction false} SharedRowAt(s: int, y: int, cols: nat, j: nat)
    requires j < cols
    ensures |SharedRow(s, y, cols)| == cols && SharedRow(s, y, cols)[j] == Sample(j * s, y)
  {
    SharedRowLength(s, y, cols);
    if j < cols - 1 {
      SharedRowAt(s, y, cols - 1, j);
    }
  }

  /** The vertex at index i*cols + j is taken from sample (j*s, i*s). */
  lemma {:induction false} SharedGridAt(s: int, rows: nat, cols: nat, i: nat, j: nat)
    requires i < rows && j < cols
    ensures |SharedGrid(s, rows, cols)| == rows * cols
    ensures i * cols + j < rows * cols
    ensures SharedGrid(s, rows, cols)[i * cols + j] == Sample(j * s, i * s)
  {
    SharedGridLength(s, rows, cols);
    SharedGridLength(s, rows - 1, cols);
    MulMono(i + 1, rows, cols);
    if i < rows - 1 {
      SharedGridAt(s, rows - 1, cols, i, j);
      MulMono(i + 1, rows - 1, cols);
    } else {
      SharedRowAt(s, (rows - 1) * s, cols, j);
    }
  }

  /** Index i of a rows x cols grid is row i / cols, column i % cols. */
  lemma GridIndex(rows: nat, cols: nat, i: nat)
    requires i < rows * cols
    ensures cols > 0 && i / cols < rows && i % cols < cols && i == (i / cols) * cols + i % cols
  {
    assert cols > 0;
    var r := i / cols;
    if r >= rows {
      MulMono(rows, r, cols);
    }
  }

  lemma ScaledInRange(c: nat, cols: nat, s: int)
    requires c < cols && s >= 1
    ensures 0 <= c * s <= (cols - 1) * s
  {
    MulMono(0, c, s);
    MulMono(c, cols - 1, s);
  }

  lemma SharedGridSampleInBox(s: int, rows: nat, cols: nat, i: nat)
    requires s >= 1 && i < rows * cols
    ensures |SharedGrid(s, rows, cols)| == rows * cols
    ensures 0 <= SharedGrid(s, rows, cols)[i].x <= (cols - 1) * s
    ensures 0 <= SharedGrid(s, rows, cols)[i].y <= (rows - 1) * s
  {
    SharedGridLength(s, rows, cols);
    GridIndex(rows, cols, i);
    var r, c := i / cols, i % cols;
    assert r * cols + c == i;
    SharedGridAt(s, rows, cols, r, c);
    assert SharedGrid(s, rows, cols)[i] == Sample(c * s, r * s);
    ScaledInRange(c, cols, s);
    ScaledInRange(r, rows, s);
  }

  /** Every sample of the first rows x cols vertices lies in [0, (cols-1)*s] x [0, (rows-1)*s]. */
  lemma SharedGridInBox(s: int, rows: nat, cols: nat)
    requires s >= 1
    ensures forall i :: 0 <= i < |SharedGrid(s, rows, cols)| ==>
              0 <= SharedGrid(s, rows, cols)[i].x <= (cols - 1) * s && 0 <= SharedGrid(s, rows, cols)[i].y <= (rows - 1) * s
  {
    SharedGridLength(s, rows, cols);
    forall i | 0 <= i < |SharedGrid(s, rows, cols)|
      ensures 0 <= SharedGrid(s, rows, cols)[i].x <= (cols - 1) * s && 0 <= SharedGrid(s, rows, cols)[i].y <= (rows - 1) * s
    {
      SharedGridSampleInBox(s, rows, cols, i);
    }
  }

  function Min(a: int, b: int): int { if a <= b then a else b }

  lemma {:induction false} SharedRowTrianglesLength(s: int, width: int, height: int, vpl: int, perRow: int, row: nat, cols: nat)
    requires s >= 1
    ensures |SharedRowTriangles(s, width, height, vpl, perRow, row, cols)|
            == if row * s < height - 1 then 6 * Min(cols, Count(width - 1, s)) else 0
  {
    if cols > 0 {
      SharedRowTrianglesLength(s, width, height, vpl, perRow, row, cols - 1);
      CountBelow(width - 1, s, cols - 1);
    }
  }

  lemma {:induction false} SharedTrianglesLengthRows(s: int, width: int, height: int, vpl: int, rows: nat)
    requires s >= 1
    ensures |SharedTriangles(s, width, height, vpl, Count(width, s), rows)|
            == 6 * Count(width - 1, s) * Min(rows, Count(height - 1, s))
  {
    if rows > 0 {
      var cols, a, h := Count(width, s), Count(width - 1, s), Count(height - 1, s);
      var m := Min(rows - 1, h);
      var prev := SharedTriangles(s, width, height, vpl, cols, rows - 1);
      var last := SharedRowTriangles(s, width, height, vpl, cols, rows - 1, cols);
      SharedTrianglesLengthRows(s, width, height, vpl, rows - 1);
      SharedRowTrianglesLength(s, width, height, vpl, cols, rows - 1, cols);
      CountMonotone(width, s);
      CountBelow(height - 1, s, rows - 1);
      assert |SharedTriangles(s, width, height, vpl, cols, rows)| == |prev| + |last|;
      if rows - 1 < h {
        assert |last| == 6 * a && Min(rows, h) == m + 1;
        SixTimesSucc(a, m);
      } else {
        assert |last| == 0 && Min(rows, h) == m;
      }
    }
  }

  lemma SixTimesSucc(a: int, m: int)
    ensures 6 * a * m + 6 * a == 6 * a * (m + 1)
  {
  }

  /** The shared mesh has one quad, six indices, per cell: 6 * Count(w-1) * Count(h-1). */
  lemma SharedTrianglesLength(s: int, width: int, height: int, vpl: int)
    requires s >= 1
    ensures |SharedTriangles(s, width, height, vpl, Count(width, s), Count(height, s))|
            == 6 * Count(width - 1, s) * Count(height - 1, s)
  {
    SharedTrianglesLengthRows(s, width, height, vpl, Count(height, s));
    CountMonotone(height, s);
  }

  /** Every index in `t` references one of the first n vertices. */
  predicate IndicesBelow(t: seq<int>, n: int)
  {
    forall j :: 0 <= j < |t| ==> 0 <= t[j] < n
  }

  lemma IndicesBelowAppend(p: seq<int>, q: seq<int>, n: int)
    requires IndicesBelow(p, n) && IndicesBelow(q, n)
    ensures IndicesBelow(p + q, n)
  {
  }

  lemma QuadInRange(s: int, width: int, height: int, vpl: nat, rowsV: nat, row: nat, col: nat)
    requires s >= 1 && width >= 1 && vpl == Count(width, s) && rowsV == Count(height, s)
    requires (width - 1) % s == 0 && (height - 1) % s == 0
    requires col * s < width - 1 && row * s < height - 1
    ensures IndicesBelow(SharedQuad(s, width, height, vpl, vpl, row, col), rowsV * vpl)
  {
    CountOfDivisible(width - 1, s);
    CountOfDivisible(height - 1, s);
    CountMonotone(width, s);
    CountMonotone(height, s);
    CountBelow(width - 1, s, col);
    CountBelow(height - 1, s, row);
    CountBelow(width, s, Count(width - 1, s));
    CountBelow(height, s, Count(height - 1, s));
    assert col + 2 <= vpl && row + 2 <= rowsV;
    var i := row * vpl + col;
    MulMono(0, row, vpl);
    MulMono(row + 1, rowsV - 1, vpl);
    assert i + vpl + 1 < rowsV * vpl by {
      assert i + vpl == (row + 1) * vpl + col;
      assert (rowsV - 1) * vpl + vpl == rowsV * vpl;
    }
  }

  lemma {:induction false} SharedRowTrianglesInRange(s: int, width: int, height: int, vpl: nat, rowsV: nat, row: nat, cols: nat)
    requires s >= 1 && width >= 1 && vpl == Count(width, s) && rowsV == Count(height, s)
    requires (width - 1) % s == 0 && (height - 1) % s == 0 && cols <= vpl
    ensures IndicesBelow(SharedRowTriangles(s, width, height, vpl, vpl, row, cols), rowsV * vpl)
  {
    if cols > 0 {
      var p := SharedRowTriangles(s, width, height, vpl, vpl, row, cols - 1);
      var q := SharedQuad(s, width, height, vpl, vpl, row, cols - 1);
      SharedRowTrianglesInRange(s, width, height, vpl, rowsV, row, cols - 1);
      var col := cols - 1;
      if col * s < width - 1 && row * s < height - 1 {
        QuadInRange(s, width, height, vpl, rowsV, row, col);
      }
      IndicesBelowAppend(p, q, rowsV * vpl);
    }
  }

  lemma {:induction false} SharedTrianglesInRangeRows(s: int, width: int, height: int, vpl: nat, rowsV: nat, rows: nat)
    requires s >= 1 && width >= 1 && vpl == Count(width, s) && rowsV == Count(height, s)
    requires (width - 1) % s == 0 && (height - 1) % s == 0
    ensures IndicesBelow(SharedTriangles(s, width, height, vpl, vpl, rows), rowsV * vpl)
  {
    if rows > 0 {
      SharedTrianglesInRangeRows(s, width, height, vpl, rowsV, rows - 1);
      SharedRowTrianglesInRange(s, width, height, vpl, rowsV, rows - 1, vpl);
    }
  }

  /**
   * When the step divides both sides minus one, every index the shared mesh's quads reference
   * is below its vertex count Count(h) * verticesPerLine.
   */
  lemma SharedTrianglesInRange(s: int, width: int, height: int)
    requires s >= 1 && width >= 1 && (width - 1) % s == 0 && (height - 1) % s == 0
    ensures VerticesPerLine(width, s) == Count(width, s)
    ensures IndicesBelow(SharedTriangles(s, width, height, VerticesPerLine(width, s), Count(width, s), Count(height, s)),
                         Count(height, s) * Count(width, s))
  {
    SharedTrianglesInRangeRows(s, width, height, Count(width, s), Count(height, s), Count(height, s));
  }

  /** The vertex capacity GenerateTerrainMesh declares: w*h/step. */
  function SharedVertexCapacity(width: int, height: int, s: int): int
    requires s >= 1
  {
    CsDiv(width * height, s)
  }

  /**
   * Whether GenerateTerrainMesh, on a height map of the given Width and Height, stays within
   * every array it touches: the furthest read ((cols-1)*s, (rows-1)*s) is inside the data, the
   * rows*cols vertices fit the vertex capacity and the six indices per quad fit the triangle
   * buffer.
   */
  predicate SharedRunsClean(width: int, height: int, s: int)
    requires s >= 1
  {
    var cols, rows := Count(width, s), Count(height, s);
    && FlatTriangleCapacity(width, height, s) >= 0
    && (rows == 0 || cols == 0 || ((cols - 1) * s < height && (rows - 1) * s < width))
    && rows * cols <= SharedVertexCapacity(width, height, s)
    && 6 * Count(width - 1, s) * Count(height - 1, s) <= 3 * FlatTriangleCapacity(width, height, s)
  }

  lemma DivLowerBound(a: int, b: int, s: int)
    requires s >= 1 && a * s <= b
    ensures a <= b / s
  {
    assert b == (b / s) * s + b % s;
    if a > b / s {
      MulMono(b / s + 1, a, s);
    }
  }

  /** On a square map of side at least 2 whose side minus one the step divides, the shared generator stays in bounds. */
  lemma SharedRunsCleanOnSquare(n: int, s: int)
    requires n >= 2 && s >= 1 && (n - 1) % s == 0
    ensures SharedRunsClean(n, n, s)
  {
    FlatRunsCleanOnSquare(n, s);
    var k := Count(n - 1, s);
    CountMonotone(n, s);
    CountBelow(n, s, k + 1);
    CountBelow(n, s, k);
    assert Count(n, s) == k + 1 && k * s == n - 1;
    SquareVertexBound(n, s, k);
    SquareFits(k, s);
  }

  /** (k + 1)^2 vertices fit n * n / s when n - 1 == k * s. */
  lemma SquareVertexBound(n: int, s: int, k: nat)
    requires s >= 1 && n >= 2 && k * s == n - 1
    ensures k >= 1 && (k + 1) * (k + 1) <= CsDiv(n * n, s)
  {
    var q := k * k;
    MulMono(1, k, k);
    var qs := q * s;
    MulMono(1, q, s);
    MulMono(0, qs - 1, s - 1);
    SquareSlack(n, s, k, q, qs);
    assert (k + 1) * (k + 1) * s <= n * n;
    DivLowerBound((k + 1) * (k + 1), n * n, s);
    assert n * n >= 0;
  }

  /** n * n - (k + 1)^2 * s == (s - 1) * (k * k * s - 1) when n == k * s + 1. */
  lemma SquareSlack(n: int, s: int, k: int, q: int, qs: int)
    requires n == k * s + 1 && q == k * k && qs == q * s
    ensures n * n - (k + 1) * (k + 1) * s == (s - 1) * (qs - 1)
  {
  }

  /** A single-sample map at level 1 overruns the shared generator's empty vertex buffer. */
  lemma SharedOverrunsOnSingleSample()
    ensures !SharedRunsClean(1, 1, Step(1))
  {
  }
}
