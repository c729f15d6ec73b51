/**
 * The geometry of one terrain-grid tick: which chunk the viewer stands in, the square of chunk
 * coordinates scanned around it and in which order, each chunk's distance from the viewer, and
 * the level of detail that distance selects.
 */
module ChunkScan {
  import opened Base
  import opened MapGeneration
  import opened MeshLayout

  /** The view radius in world units. */
  const MaxViewDistance: real := 600.0

  /** The world size of a chunk: one less than the samples per side. */
  const GridChunkSize: int := ChunkSize - 1

  /** The scan radius in chunks, as Start computes it: RoundToInt(600 / 96). */
  function MaxChunksVisible(): int
  {
    RoundToInt(MaxViewDistance / GridChunkSize as real)
  }

  /** 600 / 96 = 6.25 rounds to 6, so the scanned square is 13 x 13 chunks. */
  lemma MaxChunksVisibleIsSix()
    ensures MaxChunksVisible() == 6
    ensures (2 * MaxChunksVisible() + 1) * (2 * MaxChunksVisible() + 1) == 169
  {
    assert MaxViewDistance / GridChunkSize as real == 6.25;
    RoundToIntUnique(6.25, 6);
  }

  /** A chunk coordinate; the source keys its dictionary by integral Vector2 values. */
  datatype Coord = Coord(x: int, y: int)

  /**
   * The chunk the viewer stands in: each viewer component over the chunk size, rounded. It is
   * the chunk whose centre is nearest along each axis, within half a chunk (48 units).
   */
  function ViewerChunk(viewer: Vec2): (c: Coord)
    ensures (c.x * GridChunkSize) as real - 48.0 <= viewer.x <= (c.x * GridChunkSize) as real + 48.0
    ensures (c.y * GridChunkSize) as real - 48.0 <= viewer.y <= (c.y * GridChunkSize) as real + 48.0
  {
    var rx, ry := viewer.x / 96.0, viewer.y / 96.0;
    assert viewer.x == rx * 96.0 && viewer.y == ry * 96.0;
    Coord(RoundToInt(viewer.x / GridChunkSize as real), RoundToInt(viewer.y / GridChunkSize as real))
  }

  // ---------------------------------------------------------------------------
  // The scan: rows y = -m .. m, and within each row x = -m .. m.

  /** The first n coordinates of the scanned row at vertical offset dy. */
  function ScanRow(c: Coord, m: int, dy: int, n: nat): seq<Coord>
  {
    if n == 0 then [] else ScanRow(c, m, dy, n - 1) + [Coord(c.x - m + n - 1, c.y + dy)]
  }

  /** The first n scanned rows. */
  function ScanRows(c: Coord, m: nat, n: nat): seq<Coord>
  {
    if n == 0 then [] else ScanRows(c, m, n - 1) + ScanRow(c, m, (n as int) - 1 - m, 2 * m + 1)
  }

  /** The coordinates the tick visits, in visiting order. */
  function Scan(c: Coord, m: nat): seq<Coord>
  {
    ScanRows(c, m, 2 * m + 1)
  }

  /** The square of side 2m + 1 centred on c. */
  predicate InSquare(k: Coord, c: Coord, m: int)
  {
    c.x - m <= k.x <= c.x + m && c.y - m <= k.y <= c.y + m
  }

  predicate NoDuplicates<T(==)>(s: seq<T>)
  {
    forall i, j :: 0 <= i < j < |s| ==> s[i] != s[j]
  }

  lemma NoDuplicatesAppend<T>(a: seq<T>, b: seq<T>)
    requires NoDuplicates(a) && NoDuplicates(b)
    requires forall x :: x in a ==> x !in b
    ensures NoDuplicates(a + b)
  {
    forall i, j | 0 <= i < j < |a + b|
      ensures (a + b)[i] != (a + b)[j]
    {
      if j >= |a| && i < |a| {
        assert (a + b)[i] in a && (a + b)[j] in b;
      }
    }
  }

  /** In a sequence without repeats, each element is new to the prefix before it. */
  lemma PrefixStep<T>(s: seq<T>, i: nat)
    requires NoDuplicates(s) && i < |s|
    ensures s[i] !in s[..i] && s[..i] + [s[i]] == s[..i + 1]
  {
    assert s[..i + 1] == s[..i] + [s[i]];
  }

  lemma {:induction false} ScanRowFacts(c: Coord, m: int, dy: int, n: nat)
    ensures |ScanRow(c, m, dy, n)| == n
    ensures forall k :: k in ScanRow(c, m, dy, n) <==> k.y == c.y + dy && c.x - m <= k.x < c.x - m + n
    ensures NoDuplicates(ScanRow(c, m, dy, n))
  {
    if n > 0 {
      ScanRowFacts(c, m, dy, n - 1);
      NoDuplicatesAppend(ScanRow(c, m, dy, n - 1), [Coord(c.x - m + n - 1, c.y + dy)]);
    }
  }

  lemma {:induction false} ScanRowsLength(c: Coord, m: nat, n: nat)
    ensures |ScanRows(c, m, n)| == n * (2 * m + 1)
  {
    if n > 0 {
      ScanRowsLength(c, m, n - 1);
      ScanRowFacts(c, m, (n as int) - 1 - m, 2 * m + 1);
      MulSucc(n - 1, 2 * m + 1);
    }
  }

  /** A coordinate is in the first n rows when it lies in the square's columns and those rows. */
  predicate InRows(k: Coord, c: Coord, m: int, n: int)
  {
    c.x - m <= k.x <= c.x + m && c.y - m <= k.y < c.y - m + n
  }

  lemma {:induction false} ScanRowsMembers(c: Coord, m: nat, n: nat)
    ensures forall k :: k in ScanRows(c, m, n) <==> InRows(k, c, m, n)
    ensures NoDuplicates(ScanRows(c, m, n))
  {
    if n > 0 {
      var init, last := ScanRows(c, m, n - 1), ScanRow(c, m, (n as int) - 1 - m, 2 * m + 1);
      ScanRowsMembers(c, m, n - 1);
      ScanRowFacts(c, m, (n as int) - 1 - m, 2 * m + 1);
      assert ScanRows(c, m, n) == init + last;
      forall k
        ensures k in init + last <==> InRows(k, c, m, n)
      {
        assert k in init + last <==> k in init || k in last;
      }
      NoDuplicatesAppend(init, last);
    }
  }

  /**
   * The scan visits every coordinate of the (2m+1) x (2m+1) square around c exactly once and
   * nothing else.
   */
  lemma ScanCoversSquare(c: Coord, m: nat)
    ensures |Scan(c, m)| == (2 * m + 1) * (2 * m + 1)
    ensures forall k :: k in Scan(c, m) <==> InSquare(k, c, m)
    ensures NoDuplicates(Scan(c, m))
  {
    ScanRowsLength(c, m, 2 * m + 1);
    ScanRowsMembers(c, m, 2 * m + 1);
  }

  lemma {:induction false} ScanRowAt(c: Coord, m: int, dy: int, n: nat, j: nat)
    requires j < n
    ensures |ScanRow(c, m, dy, n)| == n && ScanRow(c, m, dy, n)[j] == Coord(c.x - m + j, c.y + dy)
  {
    ScanRowFacts(c, m, dy, n);
    if j < n - 1 {
      ScanRowAt(c, m, dy, n - 1, j);
    }
  }

  /**
   * The visiting order: position r * (2m + 1) + j holds column j of row r, both counted from
   * the square's corner (-m, -m); rows go upwards in y and columns in x.
   */
  lemma {:induction false} ScanRowsAt(c: Coord, m: nat, n: nat, r: nat, j: nat)
    requires r < n && j < 2 * m + 1
    ensures |ScanRows(c, m, n)| == n * (2 * m + 1)
    ensures r * (2 * m + 1) + j < n * (2 * m + 1)
    ensures ScanRows(c, m, n)[r * (2 * m + 1) + j] == Coord(c.x - m + j, c.y - m + r)
  {
    var w := 2 * m + 1;
    var init, last := ScanRows(c, m, n - 1), ScanRow(c, m, (n as int) - 1 - m, w);
    ScanRowsLength(c, m, n);
    ScanRowsLength(c, m, n - 1);
    MulSucc(n - 1, w);
    assert ScanRows(c, m, n) == init + last;
    if r < n - 1 {
      ScanRowsAt(c, m, n - 1, r, j);
      assert r * w + j < |init|;
    } else {
      ScanRowAt(c, m, (n as int) - 1 - m, w, j);
      assert r * w == |init|;
    }
  }

  /** The scan's i-th coordinate, for every i: row i / (2m + 1), column i % (2m + 1). */
  lemma ScanAt(c: Coord, m: nat, i: nat)
    requires i < (2 * m + 1) * (2 * m + 1)
    ensures |Scan(c, m)| == (2 * m + 1) * (2 * m + 1)
    ensures Scan(c, m)[i] == Coord(c.x - m + i % (2 * m + 1), c.y - m + i / (2 * m + 1))
  {
    var w := 2 * m + 1;
    var r, j := i / w, i % w;
    assert i == r * w + j;
    RowBelow(i, r, j, w);
    ScanRowsAt(c, m, w, r, j);
  }

  lemma RowBelow(i: nat, r: int, j: int, w: nat)
    requires w > 0 && i < w * w && i == r * w + j && 0 <= j < w
    ensures 0 <= r < w
  {
    if r >= w {
      MulMono(w, r, w);
    }
  }

  // ---------------------------------------------------------------------------
  // Distance from the viewer to a chunk's bounds.

  /** The gap between p and the interval [centre - 0.5, centre + 0.5]. */
  function AxisGap(p: real, centre: real): (g: real)
    ensures g >= 0.0
    ensures g == 0.0 <==> centre - 0.5 <= p <= centre + 0.5
  {
    if p < centre - 0.5 then centre - 0.5 - p
    else if p > centre + 0.5 then p - (centre + 0.5)
    else 0.0
  }

  /** A chunk's bounds are a 1 x 1 box centred on coord * chunkSize. */
  function Centre(k: Coord): Vec2
  {
    Vec2((k.x * GridChunkSize) as real, (k.y * GridChunkSize) as real)
  }

  /** Bounds.SqrDistance from the viewer's position to the chunk's box. */
  function SqrDistance(k: Coord, viewer: Vec2): (d: real)
    ensures d >= 0.0
  {
    var gx, gy := AxisGap(viewer.x, Centre(k).x), AxisGap(viewer.y, Centre(k).y);
    gx * gx + gy * gy
  }

  /** `d` is GetDistanceFrom: the non-negative square root of SqrDistance. */
  predicate IsDistance(d: real, k: Coord, viewer: Vec2)
  {
    d >= 0.0 && d * d == SqrDistance(k, viewer)
  }

  /** A chunk is within view exactly when its squared distance is at most 600^2. */
  lemma WithinViewIff(d: real, k: Coord, viewer: Vec2)
    requires IsDistance(d, k, viewer)
    ensures d <= MaxViewDistance <==> SqrDistance(k, viewer) <= MaxViewDistance * MaxViewDistance
  {
    if d > MaxViewDistance {
      SquareStrictlyMonotone(MaxViewDistance, d);
    } else {
      SquareMonotone(d, MaxViewDistance);
    }
  }

  lemma ScaleMonotone(a: real, b: real, s: real)
    requires a <= b && s >= 0.0
    ensures a * s <= b * s
  {
    assert b * s - a * s == (b - a) * s;
  }

  lemma SquareMonotone(a: real, b: real)
    requires 0.0 <= a <= b
    ensures a * a <= b * b
  {
    ScaleMonotone(a, b, a);
    ScaleMonotone(a, b, b);
  }

  lemma SquareStrictlyMonotone(a: real, b: real)
    requires 0.0 < a < b
    ensures a * a < b * b
  {
    assert b * b - a * a == (b - a) * (b + a);
  }

  /** The viewer's own chunk is always within view: its box lies within 48.5 units along each axis. */
  lemma OwnChunkInView(viewer: Vec2, d: real)
    requires IsDistance(d, ViewerChunk(viewer), viewer)
    ensures d <= MaxViewDistance
  {
    var k := ViewerChunk(viewer);
    var gx, gy := AxisGap(viewer.x, Centre(k).x), AxisGap(viewer.y, Centre(k).y);
    assert gx <= 48.0 && gy <= 48.0;
    assert gx * gx <= 48.0 * 48.0 by {
      assert gx * gx <= gx * 48.0 <= 48.0 * 48.0;
    }
    assert gy * gy <= 48.0 * 48.0 by {
      assert gy * gy <= gy * 48.0 <= 48.0 * 48.0;
    }
    WithinViewIff(d, k, viewer);
  }

  // ---------------------------------------------------------------------------
  // Level of detail.

  /** resolveLevelOfDetailForChunk: FloorToInt(d / 600 * 5), the 120-unit band d falls in. */
  function ResolveLevelOfDetail(d: real): (n: int)
    ensures 120.0 * n as real <= d < 120.0 * (n + 1) as real
  {
    assert d / MaxViewDistance * LevelsOfDetail as real == d / 120.0;
    FloorToInt(d / MaxViewDistance * LevelsOfDetail as real)
  }

  /** Each level covers a band of 120 units: level n for 120n <= d < 120(n + 1). */
  lemma LevelOfDetailBands(d: real, n: int)
    ensures ResolveLevelOfDetail(d) == n <==> 120.0 * n as real <= d < 120.0 * (n + 1) as real
  {
    assert d / MaxViewDistance * LevelsOfDetail as real == d / 120.0;
  }

  /**
   * For a non-negative distance the level is at least 0; within view it is at most 5; it is a
   * valid slot index (below 5) exactly when d < 600, so the value 5 occurs only at d = 600.
   */
  lemma LevelOfDetailRange(d: real)
    requires d >= 0.0
    ensures ResolveLevelOfDetail(d) >= 0
    ensures d <= MaxViewDistance ==> ResolveLevelOfDetail(d) <= LevelsOfDetail
    ensures 0 <= ResolveLevelOfDetail(d) < LevelsOfDetail <==> d < MaxViewDistance
    ensures d <= MaxViewDistance ==> (ResolveLevelOfDetail(d) == LevelsOfDetail <==> d == MaxViewDistance)
  {
    var n := ResolveLevelOfDetail(d);
    LevelOfDetailBands(d, n);
  }

  /** A farther chunk never gets a finer level. */
  lemma LevelOfDetailMonotone(d1: real, d2: real)
    requires d1 <= d2
    ensures ResolveLevelOfDetail(d1) <= ResolveLevelOfDetail(d2)
  {
    var n1, n2 := ResolveLevelOfDetail(d1), ResolveLevelOfDetail(d2);
    LevelOfDetailBands(d1, n1);
    LevelOfDetailBands(d2, n2);
  }

  // ---------------------------------------------------------------------------
  // What one tick shows.

  /**
   * The chunks the first n scanned coordinates show, in the order the tick appends them to
   * lastVisibleChunks: those that were already keys before the tick and lie within view.
   */
  function VisibleFirst(scan: seq<Coord>, n: nat, known: set<Coord>, distance: Coord -> real): seq<Coord>
    requires n <= |scan|
  {
    if n == 0 then []
    else
      var rest := VisibleFirst(scan, n - 1, known, distance);
      var k := scan[n - 1];
      if k in known && distance(k) <= MaxViewDistance then rest + [k] else rest
  }

  /** The chunks a whole tick shows. */
  function VisibleAfterTick(scan: seq<Coord>, known: set<Coord>, distance: Coord -> real): seq<Coord>
  {
    VisibleFirst(scan, |scan|, known, distance)
  }

  lemma {:induction false} VisibleFirstMembers(scan: seq<Coord>, n: nat, known: set<Coord>, distance: Coord -> real)
    requires n <= |scan|
    ensures forall k :: k in VisibleFirst(scan, n, known, distance) <==> k in scan[..n] && k in known && distance(k) <= MaxViewDistance
    ensures NoDuplicates(scan) ==> NoDuplicates(VisibleFirst(scan, n, known, distance))
  {
    if n > 0 {
      var k := scan[n - 1];
      VisibleFirstMembers(scan, n - 1, known, distance);
      assert scan[..n] == scan[..n - 1] + [k];
      if NoDuplicates(scan) && k in known && distance(k) <= MaxViewDistance {
        PrefixStep(scan, n - 1);
        NoDuplicatesAppend(VisibleFirst(scan, n - 1, known, distance), [k]);
      }
    }
  }

  /** A tick shows exactly the scanned old keys within view, each once when the scan has no repeats. */
  lemma VisibleAfterTickMembers(scan: seq<Coord>, known: set<Coord>, distance: Coord -> real)
    ensures forall k :: k in VisibleAfterTick(scan, known, distance) <==> k in scan && k in known && distance(k) <= MaxViewDistance
    ensures NoDuplicates(scan) ==> NoDuplicates(VisibleAfterTick(scan, known, distance))
  {
    VisibleFirstMembers(scan, |scan|, known, distance);
    assert scan[..|scan|] == scan;
  }

  /** The dictionary's keys after a tick: the old keys and every scanned coordinate. */
  function KeysAfterTick(known: set<Coord>, scan: seq<Coord>): (keys: set<Coord>)
    ensures forall k :: k in keys <==> k in known || k in scan
  {
    known + set k | k in scan
  }

  /**
   * A second tick from the same viewer chunk adds no key, and from then on every scanned chunk
   * within view is shown.
   */
  lemma SecondTickIsStable(known: set<Coord>, scan: seq<Coord>, distance: Coord -> real)
    ensures KeysAfterTick(KeysAfterTick(known, scan), scan) == KeysAfterTick(known, scan)
    ensures forall k :: k in VisibleAfterTick(scan, KeysAfterTick(known, scan), distance) <==> k in scan && distance(k) <= MaxViewDistance
  {
    VisibleAfterTickMembers(scan, KeysAfterTick(known, scan), distance);
  }

  /** On the first tick around a viewer no new chunk is shown: only keys known before can be. */
  lemma NewChunksStayHidden(known: set<Coord>, scan: seq<Coord>, distance: Coord -> real, k: Coord)
    requires k !in known
    ensures k !in VisibleAfterTick(scan, known, distance)
  {
    VisibleAfterTickMembers(scan, known, distance);
  }
}
