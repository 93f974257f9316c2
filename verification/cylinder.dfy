/**
 The cylinder builder `generateCylinder`: a top and a bottom centre vertex,
 `segments + 1` pairs of rim vertices (the last pair repeats the first angle so
 the side closes), and four triangles per segment: two for the side quad, one
 fan triangle for each cap.
 */
module Cylinder {
  import opened Mesh

  /**
   The trigonometry the builder samples: `circle(i, n)` stands for
   `(cos(a), sin(a))` at the angle `a = (i / n) * 2 * PI`, the fraction
   `i / n` of a full turn. It is a parameter, so nothing below depends on the
   values of cos and sin; the one fact about them the seam needs, that a full
   turn returns to the start, is a precondition where it is used. With
   `n == 0` the source computes `0 / 0`, so `circle(0, 0)` stands for the
   NaN coordinates it then stores.
   */
  type UnitCircle = (nat, nat) -> (real, real)

  /** The centre of the top cap (`top` true) or of the bottom cap. */
  function CapCentre(top: bool, height: real, cx: real, cy: real, cz: real): Vec3 {
    Vec3(cx, if top then cy + height / 2.0 else cy - height / 2.0, cz)
  }

  /** Rim vertex number `i` of `segments`, on the top or bottom circle, at the angle `i / segments` of a full turn. */
  function RimPoint(circle: UnitCircle, i: nat, segments: nat, top: bool,
                    radius: real, height: real, cx: real, cy: real, cz: real): Vec3
  {
    RimAt(circle(i, segments), top, radius, height, cx, cy, cz)
  }

  /** The rim vertex at the unit-circle point `p`. */
  function RimAt(p: (real, real), top: bool, radius: real, height: real, cx: real, cy: real, cz: real): Vec3 {
    Vec3(cx + radius * p.0, if top then cy + height / 2.0 else cy - height / 2.0, cz + radius * p.1)
  }

  /**
   The twelve indices segment `i` contributes, for a cylinder whose vertices
   start at `start`: two side triangles, the top fan triangle and the bottom
   fan triangle.
   */
  function SegmentIndices(start: int, i: int): seq<int> {
    var top1 := start + 2 + i * 2;
    var bottom1 := top1 + 1;
    var top2 := start + 2 + (i + 1) * 2;
    var bottom2 := top2 + 1;
    [top1, bottom1, top2,
     bottom1, bottom2, top2,
     start, top1, top2,
     start + 1, bottom2, bottom1]
  }

  /** Segment `i` only refers to the cap centres and to rim pairs `i` and `i + 1`. */
  lemma SegmentIndicesRange(start: int, i: nat)
    ensures |SegmentIndices(start, i)| == 12
    ensures forall j :: 0 <= j < 12 ==> SegmentIndices(start, i)[j] in {start, start + 1, start + 2 + 2 * i, start + 3 + 2 * i, start + 4 + 2 * i, start + 5 + 2 * i}
    ensures forall j :: 0 <= j < 12 ==> start <= SegmentIndices(start, i)[j] <= start + 2 * i + 5
  {
  }

  /** The indices of the first `n` segments, in the order the builder's second loop pushes them. */
  function SideIndices(start: int, n: nat): (t: seq<int>)
    ensures |t| == 12 * n
    ensures forall k :: 0 <= k < |t| ==> start <= t[k] < start + 2 * n + 4
  {
    if n == 0 then []
    else
      var prev := SideIndices(start, n - 1);
      var t := prev + SegmentIndices(start, n - 1);
      assert forall k :: 0 <= k < |t| ==> start <= t[k] < start + 2 * n + 4 by {
        SegmentIndicesRange(start, n - 1);
        forall k | 0 <= k < |t|
          ensures start <= t[k] < start + 2 * n + 4
        {
          if k < |prev| {
            assert t[k] == prev[k];
          } else {
            assert t[k] == SegmentIndices(start, n - 1)[k - |prev|];
          }
        }
      }
      t
  }

  /** Entries `12 * i .. 12 * i + 11` of the side indices are segment `i`'s twelve indices. */
  lemma {:induction false} SideIndicesSegment(start: int, n: nat, i: nat, j: nat)
    requires i < n && j < 12
    ensures SideIndices(start, n)[12 * i + j] == SegmentIndices(start, i)[j]
  {
    var prev := SideIndices(start, n - 1);
    assert SideIndices(start, n) == prev + SegmentIndices(start, n - 1);
    if i < n - 1 {
      SideIndicesSegment(start, n - 1, i, j);
      assert SideIndices(start, n)[12 * i + j] == prev[12 * i + j];
    } else {
      assert SideIndices(start, n)[12 * i + j] == SegmentIndices(start, n - 1)[12 * i + j - |prev|];
    }
  }

  /**
   The rim vertices the builder's first loop pushes for steps `0 .. n - 1`:
   for each step the top rim point, then the bottom one.
   */
  function RimPairs(circle: UnitCircle, radius: real, height: real, segments: nat,
                    cx: real, cy: real, cz: real, n: nat): (v: seq<Vec3>)
    ensures |v| == 2 * n
  {
    if n == 0 then []
    else RimPairs(circle, radius, height, segments, cx, cy, cz, n - 1)
         + [RimPoint(circle, n - 1, segments, true, radius, height, cx, cy, cz),
            RimPoint(circle, n - 1, segments, false, radius, height, cx, cy, cz)]
  }

  /** Rim pair `i` sits at positions `2 * i` (top) and `2 * i + 1` (bottom) of the rim list. */
  lemma {:induction false} RimPairsEntry(circle: UnitCircle, radius: real, height: real, segments: nat,
                                         cx: real, cy: real, cz: real, n: nat, i: nat)
    requires i < n
    ensures var v := RimPairs(circle, radius, height, segments, cx, cy, cz, n);
      && v[2 * i] == RimPoint(circle, i, segments, true, radius, height, cx, cy, cz)
      && v[2 * i + 1] == RimPoint(circle, i, segments, false, radius, height, cx, cy, cz)
  {
    var prev := RimPairs(circle, radius, height, segments, cx, cy, cz, n - 1);
    if i < n - 1 {
      RimPairsEntry(circle, radius, height, segments, cx, cy, cz, n - 1, i);
      var v := RimPairs(circle, radius, height, segments, cx, cy, cz, n);
      assert v[2 * i] == prev[2 * i] && v[2 * i + 1] == prev[2 * i + 1];
    }
  }

  /** The vertices one cylinder appends: the two cap centres, then the rim pairs for `i` in `[0, segments]`. */
  function CylinderVertices(circle: UnitCircle, radius: real, height: real, segments: nat,
                            cx: real, cy: real, cz: real): (v: seq<Vec3>)
    ensures |v| == 2 * segments + 4
  {
    [CapCentre(true, height, cx, cy, cz), CapCentre(false, height, cx, cy, cz)]
      + RimPairs(circle, radius, height, segments, cx, cy, cz, segments + 1)
  }

  /**
   The vertex layout: the cap centres first, then rim pair `i` (top, bottom)
   at positions `2 + 2 * i` and `3 + 2 * i`, for every `i` from 0 to
   `segments` inclusive.
   */
  lemma CylinderLayout(circle: UnitCircle, radius: real, height: real, segments: nat,
                       cx: real, cy: real, cz: real, i: nat)
    requires i <= segments
    ensures var v := CylinderVertices(circle, radius, height, segments, cx, cy, cz);
      && v[0] == Vec3(cx, cy + height / 2.0, cz)
      && v[1] == Vec3(cx, cy - height / 2.0, cz)
      && v[2 + 2 * i] == RimPoint(circle, i, segments, true, radius, height, cx, cy, cz)
      && v[3 + 2 * i] == RimPoint(circle, i, segments, false, radius, height, cx, cy, cz)
  {
    var rim := RimPairs(circle, radius, height, segments, cx, cy, cz, segments + 1);
    RimPairsEntry(circle, radius, height, segments, cx, cy, cz, segments + 1, i);
    var v := CylinderVertices(circle, radius, height, segments, cx, cy, cz);
    assert v[2 + 2 * i] == rim[2 * i] && v[3 + 2 * i] == rim[2 * i + 1];
  }

  /**
   `generateCylinder(radius, height, segments, color, cx, cy, cz)` applied to
   buffers `b`; `startIndex` is the vertex count before the centres go in.
   */
  function GenerateCylinder(b: Buffers, circle: UnitCircle, radius: real, height: real, segments: nat,
                            color: Rgba, cx: real, cy: real, cz: real): (r: Buffers)
    ensures Extends(b, r)
    ensures |r.vertices| == |b.vertices| + 2 + 2 * (segments + 1)
    ensures |r.vertexColors| == |b.vertexColors| + 2 + 2 * (segments + 1)
    ensures |r.indices| == |b.indices| + 12 * segments
    ensures NewColorsAre(b, r, color)
    ensures NewIndicesIn(b, r, |b.vertices|, |b.vertices| + 2 * segments + 4)
    ensures r.vertices[|b.vertices|..] == CylinderVertices(circle, radius, height, segments, cx, cy, cz)
    ensures r.indices[|b.indices|..] == SideIndices(|b.vertices|, segments)
  {
    var r := Append(b, CylinderVertices(circle, radius, height, segments, cx, cy, cz), color,
                    SideIndices(|b.vertices|, segments));
    assert NewIndicesIn(b, r, |b.vertices|, |b.vertices| + 2 * segments + 4) by {
      forall k | |b.indices| <= k < |r.indices|
        ensures |b.vertices| <= r.indices[k] < |b.vertices| + 2 * segments + 4
      {
        assert r.indices[k] == r.indices[|b.indices|..][k - |b.indices|];
      }
    }
    r
  }

  /** Building a cylinder onto well-formed buffers leaves them well-formed. */
  lemma GenerateCylinderKeepsValid(b: Buffers, circle: UnitCircle, radius: real, height: real, segments: nat,
                                   color: Rgba, cx: real, cy: real, cz: real)
    requires Valid(b)
    ensures Valid(GenerateCylinder(b, circle, radius, height, segments, color, cx, cy, cz))
  {
    AppendKeepsValid(b, GenerateCylinder(b, circle, radius, height, segments, color, cx, cy, cz), 4 * segments);
  }

  /** Two steps the circle maps to the same point give the same rim vertex. */
  lemma SameAngleSamePoint(circle: UnitCircle, i: nat, j: nat, segments: nat, top: bool,
                           radius: real, height: real, cx: real, cy: real, cz: real)
    requires circle(i, segments) == circle(j, segments)
    ensures RimPoint(circle, i, segments, top, radius, height, cx, cy, cz) == RimPoint(circle, j, segments, top, radius, height, cx, cy, cz)
  {
  }

  /**
   Seam closure: when the sampled circle returns to its start after a full
   turn, the last rim pair sits exactly on the first, so the side has no gap.
   */
  lemma SeamCloses(circle: UnitCircle, radius: real, height: real, segments: nat, cx: real, cy: real, cz: real)
    requires circle(segments, segments) == circle(0, segments)
    ensures var v := CylinderVertices(circle, radius, height, segments, cx, cy, cz);
      v[2 + 2 * segments] == v[2] && v[3 + 2 * segments] == v[3]
  {
    CylinderLayout(circle, radius, height, segments, cx, cy, cz, 0);
    CylinderLayout(circle, radius, height, segments, cx, cy, cz, segments);
    SameAngleSamePoint(circle, 0, segments, segments, true, radius, height, cx, cy, cz);
    SameAngleSamePoint(circle, 0, segments, segments, false, radius, height, cx, cy, cz);
  }

  /**
   The triangles of segment `i`: the side quad between rim pairs `i` and
   `i + 1` as two triangles, then the top fan triangle (top centre, top rim
   `i`, top rim `i + 1`) and the bottom fan triangle (bottom centre, bottom rim
   `i + 1`, bottom rim `i`), for a cylinder whose vertices start at `start`.
   */
  lemma SegmentLayout(start: int, segments: nat, i: nat)
    requires i < segments
    ensures var t, b := SideIndices(start, segments), 12 * i;
      && t[b] == start + 2 + 2 * i && t[b + 1] == start + 3 + 2 * i && t[b + 2] == start + 4 + 2 * i
      && t[b + 3] == start + 3 + 2 * i && t[b + 4] == start + 5 + 2 * i && t[b + 5] == start + 4 + 2 * i
      && t[b + 6] == start && t[b + 7] == start + 2 + 2 * i && t[b + 8] == start + 4 + 2 * i
      && t[b + 9] == start + 1 && t[b + 10] == start + 5 + 2 * i && t[b + 11] == start + 3 + 2 * i
  {
    SideIndicesSegment(start, segments, i, 0);
    SideIndicesSegment(start, segments, i, 1);
    SideIndicesSegment(start, segments, i, 2);
    SideIndicesSegment(start, segments, i, 3);
    SideIndicesSegment(start, segments, i, 4);
    SideIndicesSegment(start, segments, i, 5);
    SideIndicesSegment(start, segments, i, 6);
    SideIndicesSegment(start, segments, i, 7);
    SideIndicesSegment(start, segments, i, 8);
    SideIndicesSegment(start, segments, i, 9);
    SideIndicesSegment(start, segments, i, 10);
    SideIndicesSegment(start, segments, i, 11);
  }

  /** The index table of a cylinder starting at `start` is the one starting at 0, moved up by `start`. */
  lemma SideIndicesShift(start: int, n: nat)
    ensures forall k :: 0 <= k < 12 * n ==> SideIndices(start, n)[k] == start + SideIndices(0, n)[k]
  {
    forall k | 0 <= k < 12 * n
      ensures SideIndices(start, n)[k] == start + SideIndices(0, n)[k]
    {
      ShiftEntry(start, n, k / 12, k % 12);
    }
  }

  lemma ShiftEntry(start: int, n: nat, q: nat, j: nat)
    requires q < n && j < 12
    ensures SideIndices(start, n)[12 * q + j] == start + SideIndices(0, n)[12 * q + j]
  {
    SideIndicesSegment(start, n, q, j);
    SideIndicesSegment(0, n, q, j);
    SegmentShift(start, q, j);
  }

  lemma SegmentShift(start: int, q: nat, j: nat)
    requires j < 12
    ensures SegmentIndices(start, q)[j] == start + SegmentIndices(0, q)[j]
  {
  }

  /** Index entry `k` of `t` names a vertex of `v` whose height is `y`. */
  predicate OnPlane(v: seq<Vec3>, t: seq<int>, k: int, y: real) {
    0 <= k < |t| && 0 <= t[k] < |v| && v[t[k]].y == y
  }

  /** Corner `j` (6 to 11) of segment `i`: a fan corner, on the top plane for `j < 9` and on the bottom plane otherwise. */
  lemma FanCornerOnPlane(circle: UnitCircle, radius: real, height: real, segments: nat,
                         cx: real, cy: real, cz: real, i: nat, j: nat)
    requires i < segments && 6 <= j < 12
    ensures OnPlane(CylinderVertices(circle, radius, height, segments, cx, cy, cz), SideIndices(0, segments),
                    12 * i + j, if j < 9 then cy + height / 2.0 else cy - height / 2.0)
  {
    SideIndicesSegment(0, segments, i, j);
    var seg := SegmentIndices(0, i);
    if j == 6 || j == 9 {
      CylinderLayout(circle, radius, height, segments, cx, cy, cz, 0);
    } else if j == 7 || j == 11 {
      CylinderLayout(circle, radius, height, segments, cx, cy, cz, i);
    } else {
      CylinderLayout(circle, radius, height, segments, cx, cy, cz, i + 1);
    }
  }

  /**
   The caps are flat: the three corners of every top fan triangle lie on the
   top circle's plane, those of every bottom fan triangle on the bottom's.
   */
  lemma CapsAreFlat(circle: UnitCircle, radius: real, height: real, segments: nat,
                    cx: real, cy: real, cz: real, i: nat)
    requires i < segments
    ensures var v := CylinderVertices(circle, radius, height, segments, cx, cy, cz);
      var t := SideIndices(0, segments);
      && OnPlane(v, t, 12 * i + 6, cy + height / 2.0)
      && OnPlane(v, t, 12 * i + 7, cy + height / 2.0)
      && OnPlane(v, t, 12 * i + 8, cy + height / 2.0)
      && OnPlane(v, t, 12 * i + 9, cy - height / 2.0)
      && OnPlane(v, t, 12 * i + 10, cy - height / 2.0)
      && OnPlane(v, t, 12 * i + 11, cy - height / 2.0)
  {
    FanCornerOnPlane(circle, radius, height, segments, cx, cy, cz, i, 6);
    FanCornerOnPlane(circle, radius, height, segments, cx, cy, cz, i, 7);
    FanCornerOnPlane(circle, radius, height, segments, cx, cy, cz, i, 8);
    FanCornerOnPlane(circle, radius, height, segments, cx, cy, cz, i, 9);
    FanCornerOnPlane(circle, radius, height, segments, cx, cy, cz, i, 10);
    FanCornerOnPlane(circle, radius, height, segments, cx, cy, cz, i, 11);
  }

  /** Entry `k` of what was appended, read in the whole sequence. */
  lemma AppendedEntry<T>(whole: seq<T>, from: nat, tail: seq<T>, k: nat)
    requires from <= |whole| && whole[from..] == tail && k < |tail|
    ensures whole[from + k] == tail[k]
  {
    assert whole[from..][k] == whole[from + k];
  }

  /**
   The same flatness in the buffers the builder actually writes: fan corner
   `j` (6 to 11) of segment `i`, appended to buffers `b` after their earlier
   indices, names a vertex of the new buffers on the top plane (`j < 9`) or on
   the bottom plane.
   */
  lemma CapsAreFlatInBuffer(b: Buffers, circle: UnitCircle, radius: real, height: real, segments: nat,
                            color: Rgba, cx: real, cy: real, cz: real, i: nat, j: nat)
    requires i < segments && 6 <= j < 12
    ensures var r := GenerateCylinder(b, circle, radius, height, segments, color, cx, cy, cz);
      OnPlane(r.vertices, r.indices, |b.indices| + 12 * i + j, if j < 9 then cy + height / 2.0 else cy - height / 2.0)
  {
    var r := GenerateCylinder(b, circle, radius, height, segments, color, cx, cy, cz);
    var v := CylinderVertices(circle, radius, height, segments, cx, cy, cz);
    var t, t0 := SideIndices(|b.vertices|, segments), SideIndices(0, segments);
    FanCornerOnPlane(circle, radius, height, segments, cx, cy, cz, i, j);
    ShiftEntry(|b.vertices|, segments, i, j);
    AppendedEntry(r.indices, |b.indices|, t, 12 * i + j);
    AppendedEntry(r.vertices, |b.vertices|, v, t0[12 * i + j]);
  }
}
