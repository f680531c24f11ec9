/**
 * The unit quad every textured draw uses: four (position, uv) vertices and
 * six indices forming two triangles.
 */
module QuadGeometry {

  /** A vertex: clip-space position (x, y) and texture coordinate (u, v). */
  datatype Vertex = Vertex(x: real, y: real, u: real, v: real)

  /** The sequence-frame renderer's quad: a half-size quad with its uv corners. */
  const SeqFrameQuad: seq<Vertex> := [
    Vertex(0.5, 0.5, 0.0, 0.0),
    Vertex(-0.5, 0.5, 1.0, 0.0),
    Vertex(-0.5, -0.5, 1.0, 1.0),
    Vertex(0.5, -0.5, 0.0, 1.0)
  ]

  /** The raw demo's quad: the full [-1,1]^2 clip square with its uv corners. */
  const FullScreenQuad: seq<Vertex> := [
    Vertex(-1.0, -1.0, 0.0, 0.0),
    Vertex(1.0, -1.0, 1.0, 0.0),
    Vertex(1.0, 1.0, 1.0, 1.0),
    Vertex(-1.0, 1.0, 0.0, 1.0)
  ]

  /** The element buffer shared by both quads: triangles (0,1,2) and (0,2,3). */
  const QuadIndices: seq<nat> := [0, 1, 2, 0, 2, 3]

  /** Six indices, each naming one of the four vertices, and every vertex used. */
  lemma QuadIndicesWellFormed()
    ensures |QuadIndices| == 6
    ensures forall i :: 0 <= i < |QuadIndices| ==> QuadIndices[i] < 4
    ensures forall k :: 0 <= k < 4 ==> k in QuadIndices
  {
    assert QuadIndices[0] == 0 && QuadIndices[1] == 1 && QuadIndices[2] == 2 && QuadIndices[5] == 3;
  }

  /** The corners of triangle `t` (0 or 1) of the element buffer. */
  function TriangleCorners(t: nat): (c: set<nat>)
    requires t < 2
    ensures |c| == 3
  {
    var ix := QuadIndices;
    var c := {ix[3 * t], ix[3 * t + 1], ix[3 * t + 2]};
    assert t == 0 ==> c == {0, 1, 2};
    assert t == 1 ==> c == {0, 2, 3};
    c
  }

  /** The two triangles share exactly the diagonal 0-2 and together use all four corners. */
  lemma TrianglesShareDiagonal()
    ensures TriangleCorners(0) * TriangleCorners(1) == {0, 2}
    ensures TriangleCorners(0) + TriangleCorners(1) == {0, 1, 2, 3}
  {
  }

  /** Twice the signed area of triangle (a, b, c); positive when counter-clockwise. */
  function Cross(a: Vertex, b: Vertex, c: Vertex): real {
    (b.x - a.x) * (c.y - a.y) - (b.y - a.y) * (c.x - a.x)
  }

  /** The cross product in terms of the two edge vectors a->b = (ex, ey) and a->c = (fx, fy). */
  lemma CrossOfEdges(a: Vertex, b: Vertex, c: Vertex, ex: real, ey: real, fx: real, fy: real)
    requires b.x - a.x == ex && b.y - a.y == ey && c.x - a.x == fx && c.y - a.y == fy
    ensures Cross(a, b, c) == ex * fy - ey * fx
  {
  }

  /** Twice the signed area of triangle `t` of the element buffer over `vs`. */
  function TriangleArea2(vs: seq<Vertex>, t: nat): real
    requires |vs| == 4 && t < 2
  {
    var ix := QuadIndices;
    Cross(vs[ix[3 * t]], vs[ix[3 * t + 1]], vs[ix[3 * t + 2]])
  }

  /** The element buffer's two triangles are (0,1,2) and (0,2,3) over any four vertices. */
  lemma TriangleArea2Corners(vs: seq<Vertex>)
    requires |vs| == 4
    ensures TriangleArea2(vs, 0) == Cross(vs[0], vs[1], vs[2])
    ensures TriangleArea2(vs, 1) == Cross(vs[0], vs[2], vs[3])
  {
    var ix := QuadIndices;
    assert ix[0] == 0 && ix[1] == 1 && ix[2] == 2 && ix[3] == 0 && ix[4] == 2 && ix[5] == 3;
  }

  /** A quad is wound counter-clockwise throughout when both triangles have positive area. */
  predicate CounterClockwise(vs: seq<Vertex>)
    requires |vs| == 4
  {
    TriangleArea2(vs, 0) > 0.0 && TriangleArea2(vs, 1) > 0.0
  }

  /** The renderer's first triangle (0,1,2) is counter-clockwise with doubled area 1. */
  lemma SeqFrameTriangle0()
    ensures TriangleArea2(SeqFrameQuad, 0) == 1.0
  {
    var q := SeqFrameQuad;
    assert q[0] == Vertex(0.5, 0.5, 0.0, 0.0) && q[1] == Vertex(-0.5, 0.5, 1.0, 0.0);
    assert q[2] == Vertex(-0.5, -0.5, 1.0, 1.0);
    TriangleArea2Corners(q);
    CrossOfEdges(q[0], q[1], q[2], -1.0, 0.0, -1.0, -1.0);
  }

  /** The renderer's second triangle (0,2,3) is counter-clockwise with doubled area 1. */
  lemma SeqFrameTriangle1()
    ensures TriangleArea2(SeqFrameQuad, 1) == 1.0
  {
    var q := SeqFrameQuad;
    assert q[0] == Vertex(0.5, 0.5, 0.0, 0.0);
    assert q[2] == Vertex(-0.5, -0.5, 1.0, 1.0) && q[3] == Vertex(0.5, -0.5, 0.0, 1.0);
    TriangleArea2Corners(q);
    CrossOfEdges(q[0], q[2], q[3], -1.0, -1.0, 0.0, -1.0);
  }

  /** The renderer's quad: both triangles counter-clockwise, together covering its 1 x 1 area. */
  lemma SeqFrameQuadWound()
    ensures CounterClockwise(SeqFrameQuad)
    ensures TriangleArea2(SeqFrameQuad, 0) + TriangleArea2(SeqFrameQuad, 1) == 2.0 * (1.0 * 1.0)
  {
    SeqFrameTriangle0();
    SeqFrameTriangle1();
  }

  /** The demo's quad: both triangles counter-clockwise, together covering its 2 x 2 area. */
  lemma FullScreenQuadWound()
    ensures CounterClockwise(FullScreenQuad)
    ensures TriangleArea2(FullScreenQuad, 0) + TriangleArea2(FullScreenQuad, 1) == 2.0 * (2.0 * 2.0)
  {
    var w := FullScreenQuad;
    assert w[0] == Vertex(-1.0, -1.0, 0.0, 0.0) && w[1] == Vertex(1.0, -1.0, 1.0, 0.0);
    assert w[2] == Vertex(1.0, 1.0, 1.0, 1.0) && w[3] == Vertex(-1.0, 1.0, 0.0, 1.0);
    assert TriangleArea2(w, 0) == 4.0 by {
      TriangleArea2Corners(w);
      CrossOfEdges(w[0], w[1], w[2], 2.0, 0.0, 2.0, 2.0);
    }
    assert TriangleArea2(w, 1) == 4.0 by {
      TriangleArea2Corners(w);
      CrossOfEdges(w[0], w[2], w[3], 2.0, 2.0, 0.0, 2.0);
    }
  }

  /** Each quad maps its corners onto the four corners of uv space. */
  lemma QuadUvCorners()
    ensures forall i :: 0 <= i < 4 ==> SeqFrameQuad[i].u in {0.0, 1.0} && SeqFrameQuad[i].v in {0.0, 1.0}
    ensures forall i :: 0 <= i < 4 ==> FullScreenQuad[i].u in {0.0, 1.0} && FullScreenQuad[i].v in {0.0, 1.0}
    ensures forall i, j :: 0 <= i < j < 4 ==>
              (SeqFrameQuad[i].u, SeqFrameQuad[i].v) != (SeqFrameQuad[j].u, SeqFrameQuad[j].v)
    ensures forall i, j :: 0 <= i < j < 4 ==>
              (FullScreenQuad[i].u, FullScreenQuad[i].v) != (FullScreenQuad[j].u, FullScreenQuad[j].v)
  {
  }
}
