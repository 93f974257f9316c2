/**
 The shared geometry buffers of the monitor model: vertex positions, one colour
 per vertex, and a flat list of triangle indices (three per triangle). Every
 primitive builder only appends to these buffers; this module holds the
 vocabulary the builders' contracts are written in.
 */
module Mesh {

  /** A vertex position, in the model's own coordinates (exact reals stand for the source's doubles). */
  datatype Vec3 = Vec3(x: real, y: real, z: real)

  /** A per-vertex colour, four components as in the source's `vec4`. */
  datatype Rgba = Rgba(r: real, g: real, b: real, a: real)

  /** The three global buffers `vertices`, `vertexColors` and `indices`. */
  datatype Buffers = Buffers(vertices: seq<Vec3>, vertexColors: seq<Rgba>, indices: seq<int>)

  /** The buffers as they are before any primitive has been built. */
  const Empty: Buffers := Buffers([], [], [])

  /** The exclusive upper bound of an index stored in the `Uint16Array` index upload. */
  const Uint16Limit: int := 0x1_0000

  /** Positions and colours run in parallel, the indices form whole triangles, and every index names a stored vertex. */
  predicate Valid(b: Buffers) {
    && |b.vertices| == |b.vertexColors|
    && |b.indices| % 3 == 0
    && forall k :: 0 <= k < |b.indices| ==> 0 <= b.indices[k] < |b.vertices|
  }

  /** `after` arose from `before` by appending only: no stored entry of any buffer was changed, removed or reordered. */
  predicate Extends(before: Buffers, after: Buffers) {
    && |before.vertices| <= |after.vertices|
    && |before.vertexColors| <= |after.vertexColors|
    && |before.indices| <= |after.indices|
    && after.vertices[..|before.vertices|] == before.vertices
    && after.vertexColors[..|before.vertexColors|] == before.vertexColors
    && after.indices[..|before.indices|] == before.indices
  }

  /** Every index appended on the way from `before` to `after` lies in `[lo, hi)`. */
  predicate NewIndicesIn(before: Buffers, after: Buffers, lo: int, hi: int)
    requires |before.indices| <= |after.indices|
  {
    forall k :: |before.indices| <= k < |after.indices| ==> lo <= after.indices[k] < hi
  }

  /** Every colour appended on the way from `before` to `after` equals `color`. */
  predicate NewColorsAre(before: Buffers, after: Buffers, color: Rgba)
    requires |before.vertexColors| <= |after.vertexColors|
  {
    forall k :: |before.vertexColors| <= k < |after.vertexColors| ==> after.vertexColors[k] == color
  }

  /**
   What every primitive builder does to the buffers: push its vertices, push
   `color` once per vertex, push its triangle indices.
   */
  function Append(b: Buffers, v: seq<Vec3>, color: Rgba, t: seq<int>): (r: Buffers)
    ensures Extends(b, r)
    ensures |r.vertices| == |b.vertices| + |v|
    ensures |r.vertexColors| == |b.vertexColors| + |v|
    ensures |r.indices| == |b.indices| + |t|
    ensures r.vertices[|b.vertices|..] == v
    ensures r.indices[|b.indices|..] == t
    ensures NewColorsAre(b, r, color)
  {
    var r := Buffers(b.vertices + v, b.vertexColors + seq(|v|, _ => color), b.indices + t);
    assert r.vertices[..|b.vertices|] == b.vertices;
    assert r.vertexColors[..|b.vertexColors|] == b.vertexColors;
    assert r.indices[..|b.indices|] == b.indices;
    r
  }

  /** Appending is transitive: two rounds of appending are one round of appending. */
  lemma ExtendsTransitive(a: Buffers, b: Buffers, c: Buffers)
    requires Extends(a, b) && Extends(b, c)
    ensures Extends(a, c)
  {
    assert c.vertices[..|a.vertices|] == c.vertices[..|b.vertices|][..|a.vertices|];
    assert c.vertexColors[..|a.vertexColors|] == c.vertexColors[..|b.vertexColors|][..|a.vertexColors|];
    assert c.indices[..|a.indices|] == c.indices[..|b.indices|][..|a.indices|];
  }

  /** Appending leaves every stored vertex, colour and index where it was. */
  lemma ExtendsKeepsEntries(before: Buffers, after: Buffers)
    requires Extends(before, after)
    ensures forall k :: 0 <= k < |before.vertices| ==> after.vertices[k] == before.vertices[k]
    ensures forall k :: 0 <= k < |before.vertexColors| ==> after.vertexColors[k] == before.vertexColors[k]
    ensures forall k :: 0 <= k < |before.indices| ==> after.indices[k] == before.indices[k]
  {
    forall k | 0 <= k < |before.vertices|
      ensures after.vertices[k] == before.vertices[k]
    {
      assert after.vertices[..|before.vertices|][k] == after.vertices[k];
    }
    forall k | 0 <= k < |before.vertexColors|
      ensures after.vertexColors[k] == before.vertexColors[k]
    {
      assert after.vertexColors[..|before.vertexColors|][k] == after.vertexColors[k];
    }
    forall k | 0 <= k < |before.indices|
      ensures after.indices[k] == before.indices[k]
    {
      assert after.indices[..|before.indices|][k] == after.indices[k];
    }
  }

  /**
   A primitive that appends as many colours as vertices and only whole triangles
   over its own and earlier vertices keeps the buffers valid.
   */
  lemma AppendKeepsValid(before: Buffers, after: Buffers, triangles: nat)
    requires Valid(before) && Extends(before, after)
    requires |after.vertices| - |before.vertices| == |after.vertexColors| - |before.vertexColors|
    requires |after.indices| == |before.indices| + 3 * triangles
    requires NewIndicesIn(before, after, 0, |after.vertices|)
    ensures Valid(after)
  {
    forall k | 0 <= k < |after.indices|
      ensures 0 <= after.indices[k] < |after.vertices|
    {
      if k < |before.indices| {
        assert after.indices[k] == after.indices[..|before.indices|][k];
      }
    }
  }

  /**
   JavaScript's `new Uint16Array(indices)`: each number is stored modulo 2^16
   (the indices are non-negative integers, so no other conversion applies).
   */
  function ToUint16Array(s: seq<int>): (r: seq<int>)
    ensures |r| == |s|
    ensures forall k :: 0 <= k < |s| ==> 0 <= r[k] < Uint16Limit
    ensures forall k :: 0 <= k < |s| && 0 <= s[k] < Uint16Limit ==> r[k] == s[k]
  {
    seq(|s|, k requires 0 <= k < |s| => s[k] % Uint16Limit)
  }

  /** Every index fits the 16-bit upload. */
  predicate FitsUint16(b: Buffers) {
    forall k :: 0 <= k < |b.indices| ==> 0 <= b.indices[k] < Uint16Limit
  }

  /** When every index fits in 16 bits, the upload is exactly the index buffer: no triangle is redirected. */
  lemma UploadIsLossless(b: Buffers)
    requires FitsUint16(b)
    ensures ToUint16Array(b.indices) == b.indices
  {
  }
}
