/**
 * MeshBuilder: a fixed-capacity, append-only buffer of vertices, texture coordinates and
 * triangle indices, each written at its own cursor.
 */
module MeshBuilders {
  import opened Base

  /** What a built mesh hands to the renderer: the three whole buffers. */
  datatype MeshGeometry = MeshGeometry(vertices: seq<Vec3>, uvs: seq<Vec2>, triangles: seq<int>)

  /**
   * The six indices AddQuad writes for the quad with corners a (top-left), b (top-right),
   * c (bottom-left) and d (bottom-right): the triangles (a, d, c) and (d, a, b), both split
   * along the diagonal a-d.
   */
  function QuadSplit(a: int, b: int, c: int, d: int): seq<int>
  {
    [a, d, c, d, a, b]
  }

  class MeshBuilder {
    const vertices: array<Vec3>
    const uvs: array<Vec2>
    const triangles: array<int>
    var vertexIndex: nat
    var uvIndex: nat
    var triangleIndex: nat

    /** Every cursor is within its buffer; triangles are written three indices at a time. */
    ghost predicate Valid()
      reads this
    {
      && vertexIndex <= vertices.Length
      && uvIndex <= uvs.Length
      && triangleIndex <= triangles.Length
      && uvs.Length == vertices.Length
      && triangles.Length % 3 == 0
      && triangleIndex % 3 == 0
    }

    /** The vertices written so far. */
    ghost function Vertices(): seq<Vec3>
      reads this, vertices
      requires Valid()
    {
      vertices[..vertexIndex]
    }

    /** The texture coordinates written so far. */
    ghost function UVs(): seq<Vec2>
      reads this, uvs
      requires Valid()
    {
      uvs[..uvIndex]
    }

    /** The triangle indices written so far. */
    ghost function Triangles(): seq<int>
      reads this, triangles
      requires Valid()
    {
      triangles[..triangleIndex]
    }

    /** Every slot past its buffer's cursor still holds the value a fresh C# array holds. */
    ghost predicate TailIsDefault()
      reads this, vertices, uvs, triangles
    {
      && (forall i :: vertexIndex <= i < vertices.Length ==> vertices[i] == Zero3)
      && (forall i :: uvIndex <= i < uvs.Length ==> uvs[i] == Zero2)
      && (forall i :: triangleIndex <= i < triangles.Length ==> triangles[i] == 0)
    }

    constructor (verticesCount: nat, trianglesCount: nat)
      ensures Valid() && fresh(vertices) && fresh(uvs) && fresh(triangles)
      ensures vertices.Length == verticesCount && uvs.Length == verticesCount
      ensures triangles.Length == 3 * trianglesCount
      ensures vertexIndex == 0 && uvIndex == 0 && triangleIndex == 0
      ensures forall i :: 0 <= i < vertices.Length ==> vertices[i] == Zero3
      ensures forall i :: 0 <= i < uvs.Length ==> uvs[i] == Zero2
      ensures forall i :: 0 <= i < triangles.Length ==> triangles[i] == 0
    {
      vertices := new Vec3[verticesCount](_ => Zero3);
      uvs := new Vec2[verticesCount](_ => Zero2);
      triangles := new int[trianglesCount * 3](_ => 0);
      vertexIndex, uvIndex, triangleIndex := 0, 0, 0;
    }

    /** The number of vertices written so far (the C# property VertexIndex). */
    function VertexIndex(): (n: nat)
      reads this
      requires Valid()
      ensures n <= vertices.Length
    {
      vertexIndex
    }

    method AddVertex(vertex: Vec3)
      requires Valid() && vertexIndex < vertices.Length
      modifies this`vertexIndex, vertices
      ensures Valid()
      ensures vertexIndex == old(vertexIndex) + 1
      ensures vertices[..] == old(vertices[..])[old(vertexIndex) := vertex]
      ensures Vertices() == old(Vertices()) + [vertex]
    {
      vertices[vertexIndex] := vertex;
      vertexIndex := vertexIndex + 1;
    }

    /** The overload AddVertex(float x, float y, float z). */
    method AddVertexComponents(x: real, y: real, z: real)
      requires Valid() && vertexIndex < vertices.Length
      modifies this`vertexIndex, vertices
      ensures Valid()
      ensures vertexIndex == old(vertexIndex) + 1
      ensures vertices[..] == old(vertices[..])[old(vertexIndex) := Vec3(x, y, z)]
      ensures Vertices() == old(Vertices()) + [Vec3(x, y, z)]
    {
      AddVertex(Vec3(x, y, z));
    }

    method AddUV(uv: Vec2)
      requires Valid() && uvIndex < uvs.Length
      modifies this`uvIndex, uvs
      ensures Valid()
      ensures uvIndex == old(uvIndex) + 1
      ensures uvs[..] == old(uvs[..])[old(uvIndex) := uv]
      ensures UVs() == old(UVs()) + [uv]
    {
      uvs[uvIndex] := uv;
      uvIndex := uvIndex + 1;
    }

    /** The overload AddUV(float u, float v). */
    method AddUVComponents(u: real, v: real)
      requires Valid() && uvIndex < uvs.Length
      modifies this`uvIndex, uvs
      ensures Valid()
      ensures uvIndex == old(uvIndex) + 1
      ensures uvs[..] == old(uvs[..])[old(uvIndex) := Vec2(u, v)]
      ensures UVs() == old(UVs()) + [Vec2(u, v)]
    {
      AddUV(Vec2(u, v));
    }

    /** The overload AddVertex(Vector3, Vector2): advances both cursors by one. */
    method AddVertexWithUV(vertex: Vec3, uv: Vec2)
      requires Valid() && vertexIndex < vertices.Length && uvIndex < uvs.Length
      modifies this`vertexIndex, this`uvIndex, vertices, uvs
      ensures Valid()
      ensures vertexIndex == old(vertexIndex) + 1 && uvIndex == old(uvIndex) + 1
      ensures vertices[..] == old(vertices[..])[old(vertexIndex) := vertex]
      ensures uvs[..] == old(uvs[..])[old(uvIndex) := uv]
      ensures Vertices() == old(Vertices()) + [vertex]
      ensures UVs() == old(UVs()) + [uv]
    {
      AddVertex(vertex);
      AddUV(uv);
    }

    /** Appends a copy of the vertex written last; the source reads `vertices[vertexIndex - 1]`. */
    method DuplicateLastVertex()
      requires Valid() && 1 <= vertexIndex < vertices.Length
      modifies this`vertexIndex, vertices
      ensures Valid()
      ensures vertexIndex == old(vertexIndex) + 1
      ensures vertices[..] == old(vertices[..])[old(vertexIndex) := old(vertices[vertexIndex - 1])]
      ensures Vertices() == old(Vertices()) + [old(Vertices())[old(vertexIndex) - 1]]
    {
      var last := vertices[vertexIndex - 1];
      vertices[vertexIndex] := last;
      vertexIndex := vertexIndex + 1;
    }

    /** Writes `a, b, c` at the triangle cursor and advances it by three. */
    method AddTriangle(a: int, b: int, c: int)
      requires Valid() && triangleIndex + 3 <= triangles.Length
      modifies this`triangleIndex, triangles
      ensures Valid()
      ensures triangleIndex == old(triangleIndex) + 3
      ensures triangles[..] == old(triangles[..])[old(triangleIndex) := a][old(triangleIndex) + 1 := b][old(triangleIndex) + 2 := c]
      ensures Triangles() == old(Triangles()) + [a, b, c]
    {
      triangles[triangleIndex] := a;
      triangles[triangleIndex + 1] := b;
      triangles[triangleIndex + 2] := c;
      triangleIndex := triangleIndex + 3;
    }

    /** Appends the two triangles of QuadSplit(a, b, c, d). */
    method AddQuad(a: int, b: int, c: int, d: int)
      requires Valid() && triangleIndex + 6 <= triangles.Length
      modifies this`triangleIndex, triangles
      ensures Valid()
      ensures triangleIndex == old(triangleIndex) + 6
      ensures triangles[..] == old(triangles[..])[old(triangleIndex) := a][old(triangleIndex) + 1 := d][old(triangleIndex) + 2 := c]
                                                 [old(triangleIndex) + 3 := d][old(triangleIndex) + 4 := a][old(triangleIndex) + 5 := b]
      ensures Triangles() == old(Triangles()) + QuadSplit(a, b, c, d)
    {
      AddTriangle(a, d, c);
      AddTriangle(d, a, b);
    }

    /** The buffers as handed to the renderer, unused trailing slots included. */
    method Build() returns (g: MeshGeometry)
      requires Valid()
      ensures g.vertices == vertices[..] && g.uvs == uvs[..] && g.triangles == triangles[..]
      ensures |g.vertices| == |g.uvs| && |g.triangles| % 3 == 0
    {
      g := MeshGeometry(vertices[..], uvs[..], triangles[..]);
    }
  }
}
