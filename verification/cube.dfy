/**
 The box builder `createCube`: eight corners around a centre, eight copies of
 one colour, and a fixed table of twelve triangles shifted by the vertex count
 captured before the corners are appended.
 */
module Cube {
  import opened Mesh

  /**
   The box's fixed table of 36 corner numbers: twelve triangles, two per face,
   in the order front, back, top, bottom, left, right.
   */
  const CubeIndices: seq<int> := [
    0, 1, 2, 0, 2, 3,
    4, 5, 6, 4, 6, 7,
    3, 2, 6, 3, 6, 7,
    0, 1, 5, 0, 5, 4,
    4, 0, 3, 4, 3, 7,
    1, 5, 6, 1, 6, 2
  ]

  /** Corner numbering, stated independently of the corner table: corners 1, 2, 5, 6 are on the right (+x). */
  function XSign(k: int): real {
    if k % 4 == 1 || k % 4 == 2 then 1.0 else -1.0
  }

  /** Corners 2, 3, 6, 7 are on the top (+y). */
  function YSign(k: int): real {
    if k % 4 >= 2 then 1.0 else -1.0
  }

  /** Corners 0..3 are on the front face (+z), 4..7 on the back face. */
  function ZSign(k: int): real {
    if k < 4 then 1.0 else -1.0
  }

  /** Corner `k` of the axis-aligned box of the given size centred on `(cx, cy, cz)`. */
  function Corner(k: int, width: real, height: real, depth: real, cx: real, cy: real, cz: real): Vec3 {
    Vec3(cx + XSign(k) * (width / 2.0), cy + YSign(k) * (height / 2.0), cz + ZSign(k) * (depth / 2.0))
  }

  /** The corner list `v` of monitor.js, written out in the source's order. */
  function CornerList(width: real, height: real, depth: real, cx: real, cy: real, cz: real): (v: seq<Vec3>)
    ensures |v| == 8
    ensures forall k :: 0 <= k < 8 ==> v[k] == Corner(k, width, height, depth, cx, cy, cz)
  {
    var w := width / 2.0;
    var h := height / 2.0;
    var d := depth / 2.0;
    [
      Vec3(-w + cx, -h + cy, d + cz),
      Vec3( w + cx, -h + cy, d + cz),
      Vec3( w + cx,  h + cy, d + cz),
      Vec3(-w + cx,  h + cy, d + cz),
      Vec3(-w + cx, -h + cy, -d + cz),
      Vec3( w + cx, -h + cy, -d + cz),
      Vec3( w + cx,  h + cy, -d + cz),
      Vec3(-w + cx,  h + cy, -d + cz)
    ]
  }

  /** `table` with every entry moved up by `start`. */
  function Shift(table: seq<int>, start: int): seq<int> {
    seq(|table|, k requires 0 <= k < |table| => start + table[k])
  }

  /**
   `createCube(width, height, depth, color, cx, cy, cz)` applied to buffers `b`:
   `startIndex` is the vertex count before the corners go in.
   */
  function CreateCube(b: Buffers, width: real, height: real, depth: real, color: Rgba,
                      cx: real, cy: real, cz: real): (r: Buffers)
    ensures Extends(b, r)
    ensures |r.vertices| == |b.vertices| + 8
    ensures |r.vertexColors| == |b.vertexColors| + 8
    ensures |r.indices| == |b.indices| + 36
    ensures NewColorsAre(b, r, color)
    ensures NewIndicesIn(b, r, |b.vertices|, |b.vertices| + 8)
    ensures r.indices[|b.indices|] == |b.vertices|
    ensures forall k :: 0 <= k < 8 ==> r.vertices[|b.vertices| + k] == Corner(k, width, height, depth, cx, cy, cz)
    ensures r.vertices[|b.vertices|..] == CornerList(width, height, depth, cx, cy, cz)
    ensures r.indices[|b.indices|..] == Shift(CubeIndices, |b.vertices|)
  {
    var startIndex := |b.vertices|;
    var r := Append(b, CornerList(width, height, depth, cx, cy, cz), color, Shift(CubeIndices, startIndex));
    CubeIndicesInRange();
    assert NewIndicesIn(b, r, startIndex, startIndex + 8) by {
      forall k | |b.indices| <= k < |r.indices|
        ensures startIndex <= r.indices[k] < startIndex + 8
      {
        assert r.indices[k] == r.indices[|b.indices|..][k - |b.indices|];
      }
    }
    assert r.indices[|b.indices|] == r.indices[|b.indices|..][0] == startIndex + CubeIndices[0] == startIndex;
    assert r.vertices[|b.vertices|..] == CornerList(width, height, depth, cx, cy, cz);
    assert forall k :: 0 <= k < 8 ==> r.vertices[|b.vertices| + k] == r.vertices[|b.vertices|..][k];
    r
  }

  /** Building a box onto well-formed buffers leaves them well-formed. */
  lemma CreateCubeKeepsValid(b: Buffers, width: real, height: real, depth: real, color: Rgba,
                             cx: real, cy: real, cz: real)
    requires Valid(b)
    ensures Valid(CreateCube(b, width, height, depth, color, cx, cy, cz))
  {
    AppendKeepsValid(b, CreateCube(b, width, height, depth, color, cx, cy, cz), 12);
  }

  // ---------------------------------------------------------------------------
  // Closure of the box surface
  // ---------------------------------------------------------------------------

  /** 1 when the triangle `(x, y, z)` has both `a` and `b` among its corners, else 0. */
  function HasEdge(a: int, b: int, x: int, y: int, z: int): int {
    if (a == x || a == y || a == z) && (b == x || b == y || b == z) then 1 else 0
  }

  /** How many of the first `n` triangles of the flat index list `t` have both `a` and `b` among their corners. */
  function TrianglesWithEdge(t: seq<int>, n: nat, a: int, b: int): int
    requires 3 * n <= |t|
  {
    if n == 0 then 0
    else TrianglesWithEdge(t, n - 1, a, b) + HasEdge(a, b, t[3 * n - 3], t[3 * n - 2], t[3 * n - 1])
  }

  /** The triangle `(x, y, z)` has three distinct corners and each of its edges lies in exactly two triangles of `t`. */
  ghost predicate EdgesShared(t: seq<int>, x: int, y: int, z: int)
    requires |t| % 3 == 0
  {
    && x != y && y != z && z != x
    && TrianglesWithEdge(t, |t| / 3, x, y) == 2
    && TrianglesWithEdge(t, |t| / 3, y, z) == 2
    && TrianglesWithEdge(t, |t| / 3, z, x) == 2
  }

  /** Triangle number `k` of `t` is sealed along all three of its edges. */
  ghost predicate TriangleSealed(t: seq<int>, k: int)
    requires |t| % 3 == 0 && 0 <= k < |t| / 3
  {
    EdgesShared(t, t[3 * k], t[3 * k + 1], t[3 * k + 2])
  }

  /** A closed surface: whole triangles only, every one of them sealed, so no edge is a boundary. */
  ghost predicate ClosedSurface(t: seq<int>) {
    && |t| % 3 == 0
    && forall k :: 0 <= k < |t| / 3 ==> TriangleSealed(t, k)
  }

  /**
   The box table read back one face (six entries) at a time. These lemmas add
   nothing to the table above; they exist because the solver runs out of
   resources when it has to read all 36 entries of the display at once.
   */
  lemma CubeFace0()
    ensures CubeIndices[0] == 0 && CubeIndices[1] == 1 && CubeIndices[2] == 2 && CubeIndices[3] == 0 && CubeIndices[4] == 2 && CubeIndices[5] == 3
  {
  }

  lemma CubeFace1()
    ensures CubeIndices[6] == 4 && CubeIndices[7] == 5 && CubeIndices[8] == 6 && CubeIndices[9] == 4 && CubeIndices[10] == 6 && CubeIndices[11] == 7
  {
  }

  lemma CubeFace2()
    ensures CubeIndices[12] == 3 && CubeIndices[13] == 2 && CubeIndices[14] == 6 && CubeIndices[15] == 3 && CubeIndices[16] == 6 && CubeIndices[17] == 7
  {
  }

  lemma CubeFace3()
    ensures CubeIndices[18] == 0 && CubeIndices[19] == 1 && CubeIndices[20] == 5 && CubeIndices[21] == 0 && CubeIndices[22] == 5 && CubeIndices[23] == 4
  {
  }

  lemma CubeFace4()
    ensures CubeIndices[24] == 4 && CubeIndices[25] == 0 && CubeIndices[26] == 3 && CubeIndices[27] == 4 && CubeIndices[28] == 3 && CubeIndices[29] == 7
  {
  }

  lemma CubeFace5()
    ensures CubeIndices[30] == 1 && CubeIndices[31] == 5 && CubeIndices[32] == 6 && CubeIndices[33] == 1 && CubeIndices[34] == 6 && CubeIndices[35] == 2
  {
  }

  /** Every entry of the box table names one of the eight corners. */
  lemma CubeIndicesInRange()
    ensures forall k :: 0 <= k < |CubeIndices| ==> 0 <= CubeIndices[k] < 8
  {
    assert forall x :: x in CubeIndices ==> 0 <= x < 8;
    forall k | 0 <= k < |CubeIndices|
      ensures 0 <= CubeIndices[k] < 8
    {
      assert CubeIndices[k] in CubeIndices;
    }
  }

  /** The edge count on the box table, triangle by triangle. */
  lemma CubeEdgeCount(a: int, b: int)
    ensures TrianglesWithEdge(CubeIndices, 12, a, b) ==
        HasEdge(a, b, 0, 1, 2) + HasEdge(a, b, 0, 2, 3) + HasEdge(a, b, 4, 5, 6)
      + HasEdge(a, b, 4, 6, 7) + HasEdge(a, b, 3, 2, 6) + HasEdge(a, b, 3, 6, 7)
      + HasEdge(a, b, 0, 1, 5) + HasEdge(a, b, 0, 5, 4) + HasEdge(a, b, 4, 0, 3)
      + HasEdge(a, b, 4, 3, 7) + HasEdge(a, b, 1, 5, 6) + HasEdge(a, b, 1, 6, 2)
  {
    CubeFace0();
    CubeFace1();
    CubeFace2();
    CubeFace3();
    CubeFace4();
    CubeFace5();
    assert TrianglesWithEdge(CubeIndices, 1, a, b) == TrianglesWithEdge(CubeIndices, 0, a, b) + HasEdge(a, b, 0, 1, 2);
    assert TrianglesWithEdge(CubeIndices, 2, a, b) == TrianglesWithEdge(CubeIndices, 1, a, b) + HasEdge(a, b, 0, 2, 3);
    assert TrianglesWithEdge(CubeIndices, 3, a, b) == TrianglesWithEdge(CubeIndices, 2, a, b) + HasEdge(a, b, 4, 5, 6);
    assert TrianglesWithEdge(CubeIndices, 4, a, b) == TrianglesWithEdge(CubeIndices, 3, a, b) + HasEdge(a, b, 4, 6, 7);
    assert TrianglesWithEdge(CubeIndices, 5, a, b) == TrianglesWithEdge(CubeIndices, 4, a, b) + HasEdge(a, b, 3, 2, 6);
    assert TrianglesWithEdge(CubeIndices, 6, a, b) == TrianglesWithEdge(CubeIndices, 5, a, b) + HasEdge(a, b, 3, 6, 7);
    assert TrianglesWithEdge(CubeIndices, 7, a, b) == TrianglesWithEdge(CubeIndices, 6, a, b) + HasEdge(a, b, 0, 1, 5);
    assert TrianglesWithEdge(CubeIndices, 8, a, b) == TrianglesWithEdge(CubeIndices, 7, a, b) + HasEdge(a, b, 0, 5, 4);
    assert TrianglesWithEdge(CubeIndices, 9, a, b) == TrianglesWithEdge(CubeIndices, 8, a, b) + HasEdge(a, b, 4, 0, 3);
    assert TrianglesWithEdge(CubeIndices, 10, a, b) == TrianglesWithEdge(CubeIndices, 9, a, b) + HasEdge(a, b, 4, 3, 7);
    assert TrianglesWithEdge(CubeIndices, 11, a, b) == TrianglesWithEdge(CubeIndices, 10, a, b) + HasEdge(a, b, 1, 5, 6);
    assert TrianglesWithEdge(CubeIndices, 12, a, b) == TrianglesWithEdge(CubeIndices, 11, a, b) + HasEdge(a, b, 1, 6, 2);
  }

  /** Each of the box's eighteen edges (twelve sides and six face diagonals) lies in exactly two triangles. */
  lemma CubeEdgeTwice(a: int, b: int)
    requires
      (a == 0 && b == 1) || (a == 1 && b == 0) || (a == 0 && b == 2) || (a == 2 && b == 0) || (a == 0 && b == 3) || (a == 3 && b == 0)
      || (a == 0 && b == 4) || (a == 4 && b == 0) || (a == 0 && b == 5) || (a == 5 && b == 0) || (a == 1 && b == 2) || (a == 2 && b == 1)
      || (a == 1 && b == 5) || (a == 5 && b == 1) || (a == 1 && b == 6) || (a == 6 && b == 1) || (a == 2 && b == 3) || (a == 3 && b == 2)
      || (a == 2 && b == 6) || (a == 6 && b == 2) || (a == 3 && b == 4) || (a == 4 && b == 3) || (a == 3 && b == 6) || (a == 6 && b == 3)
      || (a == 3 && b == 7) || (a == 7 && b == 3) || (a == 4 && b == 5) || (a == 5 && b == 4) || (a == 4 && b == 6) || (a == 6 && b == 4)
      || (a == 4 && b == 7) || (a == 7 && b == 4) || (a == 5 && b == 6) || (a == 6 && b == 5) || (a == 6 && b == 7) || (a == 7 && b == 6)
    ensures TrianglesWithEdge(CubeIndices, 12, a, b) == 2
  {
    CubeEdgeCount(a, b);
  }

  /** Every triangle of the box table is sealed along its three edges. */
  lemma CubeTriangleSealed(x: int, y: int, z: int)
    requires
      (x == 0 && y == 1 && z == 2) || (x == 0 && y == 2 && z == 3) || (x == 4 && y == 5 && z == 6)
      || (x == 4 && y == 6 && z == 7) || (x == 3 && y == 2 && z == 6) || (x == 3 && y == 6 && z == 7)
      || (x == 0 && y == 1 && z == 5) || (x == 0 && y == 5 && z == 4) || (x == 4 && y == 0 && z == 3)
      || (x == 4 && y == 3 && z == 7) || (x == 1 && y == 5 && z == 6) || (x == 1 && y == 6 && z == 2)
    ensures EdgesShared(CubeIndices, x, y, z)
  {
    CubeFace0();
    CubeFace1();
    CubeFace2();
    CubeFace3();
    CubeFace4();
    CubeFace5();
    CubeEdgeTwice(x, y);
    CubeEdgeTwice(y, z);
    CubeEdgeTwice(z, x);
  }

  /** The box table's twelve triangles seal the box: no edge borders only one triangle. */
  lemma CubeIndicesClosed()
    ensures ClosedSurface(CubeIndices)
  {
    CubeFace0();
    CubeFace1();
    CubeFace2();
    CubeFace3();
    CubeFace4();
    CubeFace5();
    forall k | 0 <= k < 12
      ensures TriangleSealed(CubeIndices, k)
    {
      assert k in {0, 1, 2, 3, 4, 5, 6, 7, 8, 9, 10, 11};
      CubeTriangleSealed(CubeIndices[3 * k], CubeIndices[3 * k + 1], CubeIndices[3 * k + 2]);
    }
  }

  /** Shifting every corner number by the same amount changes no edge count. */
  lemma {:induction false} ShiftKeepsEdgeCounts(t: seq<int>, n: nat, start: int, a: int, b: int)
    requires 3 * n <= |t|
    ensures TrianglesWithEdge(Shift(t, start), n, a + start, b + start) == TrianglesWithEdge(t, n, a, b)
  {
    if n > 0 {
      ShiftKeepsEdgeCounts(t, n - 1, start, a, b);
    }
  }

  /** Moving a closed surface to another place in the vertex buffer keeps it closed. */
  lemma ShiftKeepsClosed(t: seq<int>, start: int)
    requires ClosedSurface(t)
    ensures ClosedSurface(Shift(t, start))
  {
    var s := Shift(t, start);
    forall k | 0 <= k < |s| / 3
      ensures TriangleSealed(s, k)
    {
      assert TriangleSealed(t, k);
      var x, y, z := t[3 * k], t[3 * k + 1], t[3 * k + 2];
      ShiftKeepsEdgeCounts(t, |t| / 3, start, x, y);
      ShiftKeepsEdgeCounts(t, |t| / 3, start, y, z);
      ShiftKeepsEdgeCounts(t, |t| / 3, start, z, x);
    }
  }

  /** The triangles a single `createCube` call appends, wherever they land in the buffer, form a closed box. */
  lemma CreateCubeIsClosed(b: Buffers, width: real, height: real, depth: real, color: Rgba,
                           cx: real, cy: real, cz: real)
    ensures ClosedSurface(CreateCube(b, width, height, depth, color, cx, cy, cz).indices[|b.indices|..])
  {
    var r := CreateCube(b, width, height, depth, color, cx, cy, cz);
    assert r.indices[|b.indices|..] == Shift(CubeIndices, |b.vertices|);
    CubeIndicesClosed();
    ShiftKeepsClosed(CubeIndices, |b.vertices|);
  }
}
