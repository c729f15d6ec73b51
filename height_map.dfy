/**
 * The height map: an immutable view over a raw two-dimensional grid of noise samples,
 * a response curve and a multiplier.
 */
module HeightMaps {

  /**
   * A rectangular C# `float[,]`: `length0` and `length1` are GetLength(0) and
   * GetLength(1), and `cells[i][j]` is the element `[i, j]`.
   */
  datatype RawGrid = RawGrid(length0: nat, length1: nat, cells: seq<seq<real>>)

  type Grid = g: RawGrid | |g.cells| == g.length0 && forall i :: 0 <= i < |g.cells| ==> |g.cells[i]| == g.length1
    witness RawGrid(0, 0, [])

  /**
   * The curve (Unity's AnimationCurve) is left uninterpreted. Every field is fixed when the
   * value is built; the multiplier defaults to 1.
   */
  datatype HeightMap = HeightMap(data: Grid, heightCurve: real -> real, heightMultiplier: real := 1.0)
  {
    /** GetLength(0) of the data: the range of the FIRST index of the indexer. */
    function Height(): nat { data.length0 }

    /** GetLength(1) of the data: the range of the SECOND index of the indexer. */
    function Width(): nat { data.length1 }

    /** Whether `this[x, y]` reads inside the data (outside it C# throws). */
    predicate InBounds(x: int, y: int) {
      0 <= x < Height() && 0 <= y < Width()
    }

    /** The indexer `this[x, y]`: the curve applied to the raw sample, scaled. */
    function At(x: int, y: int): real
      requires InBounds(x, y)
    {
      heightCurve(data.cells[x][y]) * heightMultiplier
    }
  }

  /** With the default multiplier the indexer yields the curve value itself. */
  lemma DefaultMultiplierIsIdentity(data: Grid, curve: real -> real, x: int, y: int)
    requires 0 <= x < data.length0 && 0 <= y < data.length1
    ensures HeightMap(data, curve).At(x, y) == curve(data.cells[x][y])
  {
  }

  /**
   * The indexer takes `x` against Height and `y` against Width, so a caller that lets `x`
   * run over [0, Width) and `y` over [0, Height) stays inside the data exactly when the
   * grid is square.
   */
  lemma {:induction false} FullSweepInBoundsIffSquare(h: HeightMap)
    requires h.Width() > 0 && h.Height() > 0
    ensures (forall x, y :: 0 <= x < h.Width() && 0 <= y < h.Height() ==> h.InBounds(x, y))
            <==> h.Width() == h.Height()
  {
    if h.Width() != h.Height() {
      if h.Width() > h.Height() {
        assert !h.InBounds(h.Width() - 1, 0);
      } else {
        assert !h.InBounds(0, h.Height() - 1);
      }
    }
  }
}
