/** Value types and numeric conventions shared by the terrain modules. */
module Base {

  datatype Option<T> = None | Some(value: T)

  /** A 2D vector (Unity's Vector2); floats are modelled as reals. */
  datatype Vec2 = Vec2(x: real, y: real)

  /** A 3D vector (Unity's Vector3). */
  datatype Vec3 = Vec3(x: real, y: real, z: real)

  /** The value a freshly allocated Vector2[] slot holds. */
  const Zero2: Vec2 := Vec2(0.0, 0.0)

  /** The value a freshly allocated Vector3[] slot holds. */
  const Zero3: Vec3 := Vec3(0.0, 0.0, 0.0)

  /** C# integer division, which truncates toward zero (Dafny's `/` is Euclidean). */
  function CsDiv(a: int, b: int): (q: int)
    requires b > 0
    ensures a >= 0 ==> q == a / b
    ensures a < 0 ==> a <= q * b < a + b && q <= 0
  {
    if a >= 0 then a / b else -((-a) / b)
  }

  /** The C# `(int)` of Unity's Mathf.FloorToInt: the largest integer not above `r`. */
  function FloorToInt(r: real): (n: int)
    ensures n as real <= r < n as real + 1.0
  {
    r.Floor
  }

  /**
   * Unity's Mathf.RoundToInt, which rounds to the nearest integer and resolves a tie
   * between two integers toward the even one (the default midpoint rule of .NET).
   */
  function RoundToInt(r: real): (n: int)
    ensures r - 0.5 <= n as real <= r + 0.5
    ensures n as real - r == 0.5 || r - n as real == 0.5 ==> n % 2 == 0
  {
    var f := r.Floor;
    var frac := r - f as real;
    if frac < 0.5 then f
    else if frac > 0.5 then f + 1
    else if f % 2 == 0 then f
    else f + 1
  }

  /** Any integer within half a unit of `r`, with ties to even, is RoundToInt(r). */
  lemma RoundToIntUnique(r: real, n: int)
    requires r - 0.5 <= n as real <= r + 0.5
    requires n as real - r == 0.5 || r - n as real == 0.5 ==> n % 2 == 0
    ensures RoundToInt(r) == n
  {
  }
}
