/**
 `createMonitorModel`: the monitor assembled from four primitives built one
 after the other into the shared buffers — the screen bezel and the screen
 panel (boxes), then the stand and the base (cylinders) — with the stand and
 base heights derived so that the parts stack without gaps.
 */
module MonitorModel {
  import opened Mesh
  import opened Cube
  import opened Cylinder

  const BezelColor: Rgba := Rgba(0.2, 0.2, 0.2, 1.0)
  const PanelColor: Rgba := Rgba(0.05, 0.05, 0.05, 1.0)
  const StandColor: Rgba := Rgba(0.5, 0.5, 0.5, 1.0)
  const BaseColor: Rgba := Rgba(0.3, 0.3, 0.3, 1.0)

  const ScreenWidth: real := 0.7
  const ScreenHeight: real := 0.42
  const ScreenDepth: real := 0.05
  /** Vertical offset of the screen's centre. */
  const YOffset: real := 0.35

  const PanelDepth: real := 0.01
  /** The panel's centre sits half the bezel's depth plus half its own depth in front of the bezel's centre. */
  const PanelZ: real := ScreenDepth / 2.0 + 0.005

  const StandRadius: real := 0.04
  const StandHeight: real := 0.25
  const StandSegments: nat := 20
  /** The stand's centre: half the screen and half the stand below the screen's centre. */
  const StandYPos: real := YOffset - ScreenHeight / 2.0 - StandHeight / 2.0

  const BaseRadius: real := 0.2
  const BaseHeight: real := 0.03
  const BaseSegments: nat := 30
  /** The base's centre: half the stand below the stand's centre, then half the base's height (0.015) further down. */
  const BaseYPos: real := StandYPos - StandHeight / 2.0 - 0.015

  /** Step 1: the bezel, a box centred `YOffset` above the origin. */
  function Bezel(b: Buffers): (r: Buffers)
    ensures |r.vertices| == |b.vertices| + 8 && |r.vertexColors| == |b.vertexColors| + 8
    ensures |r.indices| == |b.indices| + 36
  {
    CreateCube(b, ScreenWidth, ScreenHeight, ScreenDepth, BezelColor, 0.0, YOffset, 0.0)
  }

  /** Step 2: the screen panel, 92% as wide and 88% as tall as the bezel, just in front of it. */
  function WithPanel(b: Buffers): (r: Buffers)
    ensures |r.vertices| == |b.vertices| + 16 && |r.vertexColors| == |b.vertexColors| + 16
    ensures |r.indices| == |b.indices| + 72
  {
    CreateCube(Bezel(b), ScreenWidth * 0.92, ScreenHeight * 0.88, PanelDepth, PanelColor, 0.0, YOffset, PanelZ)
  }

  /** Step 3: the stand, a thin cylinder below the screen. */
  function WithStand(b: Buffers, circle: UnitCircle): (r: Buffers)
    ensures |r.vertices| == |b.vertices| + 60 && |r.vertexColors| == |b.vertexColors| + 60
    ensures |r.indices| == |b.indices| + 312
  {
    GenerateCylinder(WithPanel(b), circle, StandRadius, StandHeight, StandSegments, StandColor, 0.0, StandYPos, 0.0)
  }

  /**
   Step 4: the base, a short wide cylinder below the stand. The result is what
   `createMonitorModel` leaves in buffers that held `b`: 124 more vertices
   with their colours and 224 more triangles, all of them over the new
   vertices, and well-formed buffers stay well formed. At start-up `b` is
   `Empty`.
   */
  function CreateMonitorModel(b: Buffers, circle: UnitCircle): (m: Buffers)
    ensures Extends(b, m)
    ensures |m.vertices| == |b.vertices| + 124 && |m.vertexColors| == |b.vertexColors| + 124
    ensures |m.indices| == |b.indices| + 672
    ensures Valid(b) ==> Valid(m)
  {
    var m := GenerateCylinder(WithStand(b, circle), circle, BaseRadius, BaseHeight, BaseSegments, BaseColor, 0.0, BaseYPos, 0.0);
    assert Extends(b, m) by {
      ExtendsTransitive(b, Bezel(b), WithPanel(b));
      ExtendsTransitive(b, WithPanel(b), WithStand(b, circle));
      ExtendsTransitive(b, WithStand(b, circle), m);
    }
    assert Valid(b) ==> Valid(m) by {
      if Valid(b) {
        CreateCubeKeepsValid(b, ScreenWidth, ScreenHeight, ScreenDepth, BezelColor, 0.0, YOffset, 0.0);
        CreateCubeKeepsValid(Bezel(b), ScreenWidth * 0.92, ScreenHeight * 0.88, PanelDepth, PanelColor, 0.0, YOffset, PanelZ);
        GenerateCylinderKeepsValid(WithPanel(b), circle, StandRadius, StandHeight, StandSegments, StandColor, 0.0, StandYPos, 0.0);
        GenerateCylinderKeepsValid(WithStand(b, circle), circle, BaseRadius, BaseHeight, BaseSegments, BaseColor, 0.0, BaseYPos, 0.0);
      }
    }
    m
  }

  /**
   Built at start-up into empty buffers, the model has 124 vertices and 672
   indices, every index is below 124, so the `Uint16Array` upload stores each
   index unchanged and no triangle is redirected to another vertex.
   */
  lemma MonitorUploadIsLossless(circle: UnitCircle)
    ensures var m := CreateMonitorModel(Empty, circle);
      && |m.vertices| == |m.vertexColors| == 124 && |m.indices| == 672
      && (forall k :: 0 <= k < |m.indices| ==> 0 <= m.indices[k] < 124)
      && FitsUint16(m)
      && ToUint16Array(m.indices) == m.indices
  {
    var m := CreateMonitorModel(Empty, circle);
    assert Valid(m);
    UploadIsLossless(m);
  }

  /** The bezel step: its corners 0 and 2, which span the bezel's front face, come first. */
  lemma BezelStep(b: Buffers)
    ensures var m, o := Bezel(b), |b.vertices|;
      && m.vertices[o] == Corner(0, ScreenWidth, ScreenHeight, ScreenDepth, 0.0, YOffset, 0.0)
      && m.vertices[o + 2] == Corner(2, ScreenWidth, ScreenHeight, ScreenDepth, 0.0, YOffset, 0.0)
  {
    assert Bezel(b).vertices[|b.vertices| + 0] == Corner(0, ScreenWidth, ScreenHeight, ScreenDepth, 0.0, YOffset, 0.0);
  }

  /** The panel step keeps the bezel's vertices; the panel's corners 0, 2 and 4 land 8, 10 and 12 places in. */
  lemma PanelStep(b: Buffers)
    ensures var m, p, o := WithPanel(b), Bezel(b), |b.vertices|;
      && m.vertices[o] == p.vertices[o] && m.vertices[o + 2] == p.vertices[o + 2]
      && m.vertices[o + 8] == Corner(0, ScreenWidth * 0.92, ScreenHeight * 0.88, PanelDepth, 0.0, YOffset, PanelZ)
      && m.vertices[o + 10] == Corner(2, ScreenWidth * 0.92, ScreenHeight * 0.88, PanelDepth, 0.0, YOffset, PanelZ)
      && m.vertices[o + 12] == Corner(4, ScreenWidth * 0.92, ScreenHeight * 0.88, PanelDepth, 0.0, YOffset, PanelZ)
  {
    var m, p, o := WithPanel(b), Bezel(b), |b.vertices|;
    var keep := m.vertices[..o + 8];
    assert keep == p.vertices;
    assert m.vertices[o] == keep[o] && m.vertices[o + 2] == keep[o + 2];
    assert m.vertices[o + 8 + 0] == Corner(0, ScreenWidth * 0.92, ScreenHeight * 0.88, PanelDepth, 0.0, YOffset, PanelZ);
    assert m.vertices[o + 8 + 2] == Corner(2, ScreenWidth * 0.92, ScreenHeight * 0.88, PanelDepth, 0.0, YOffset, PanelZ);
    assert m.vertices[o + 8 + 4] == Corner(4, ScreenWidth * 0.92, ScreenHeight * 0.88, PanelDepth, 0.0, YOffset, PanelZ);
  }

  /** The stand step keeps the screen's vertices; the stand's cap centres land 16 and 17 places in. */
  lemma StandStep(b: Buffers, circle: UnitCircle)
    ensures var m, p, o := WithStand(b, circle), WithPanel(b), |b.vertices|;
      && m.vertices[o] == p.vertices[o] && m.vertices[o + 2] == p.vertices[o + 2]
      && m.vertices[o + 8] == p.vertices[o + 8] && m.vertices[o + 10] == p.vertices[o + 10]
      && m.vertices[o + 12] == p.vertices[o + 12]
      && m.vertices[o + 16] == CapCentre(true, StandHeight, 0.0, StandYPos, 0.0)
      && m.vertices[o + 17] == CapCentre(false, StandHeight, 0.0, StandYPos, 0.0)
  {
    var m, p, o := WithStand(b, circle), WithPanel(b), |b.vertices|;
    var keep := m.vertices[..o + 16];
    assert keep == p.vertices;
    assert m.vertices[o] == keep[o] && m.vertices[o + 2] == keep[o + 2];
    assert m.vertices[o + 8] == keep[o + 8] && m.vertices[o + 10] == keep[o + 10] && m.vertices[o + 12] == keep[o + 12];
    CylinderLayout(circle, StandRadius, StandHeight, StandSegments, 0.0, StandYPos, 0.0, 0);
    var added := m.vertices[o + 16..];
    assert m.vertices[o + 16] == added[0] && m.vertices[o + 17] == added[1];
  }

  /** The base step keeps the earlier vertices; the base's top cap centre lands 60 places in. */
  lemma BaseStep(b: Buffers, circle: UnitCircle)
    ensures var m, p, o := CreateMonitorModel(b, circle), WithStand(b, circle), |b.vertices|;
      && m.vertices[o] == p.vertices[o] && m.vertices[o + 2] == p.vertices[o + 2]
      && m.vertices[o + 8] == p.vertices[o + 8] && m.vertices[o + 10] == p.vertices[o + 10]
      && m.vertices[o + 12] == p.vertices[o + 12]
      && m.vertices[o + 16] == p.vertices[o + 16] && m.vertices[o + 17] == p.vertices[o + 17]
      && m.vertices[o + 60] == CapCentre(true, BaseHeight, 0.0, BaseYPos, 0.0)
  {
    var m, p, o := CreateMonitorModel(b, circle), WithStand(b, circle), |b.vertices|;
    var keep := m.vertices[..o + 60];
    assert keep == p.vertices;
    assert m.vertices[o] == keep[o] && m.vertices[o + 2] == keep[o + 2];
    assert m.vertices[o + 8] == keep[o + 8] && m.vertices[o + 10] == keep[o + 10] && m.vertices[o + 12] == keep[o + 12];
    assert m.vertices[o + 16] == keep[o + 16] && m.vertices[o + 17] == keep[o + 17];
    CylinderLayout(circle, BaseRadius, BaseHeight, BaseSegments, 0.0, BaseYPos, 0.0, 0);
    assert m.vertices[o + 60] == m.vertices[o + 60..][0];
  }

  /**
   Where the model's landmark vertices are, counted from the first vertex it
   adds: bezel corners 0 and 2, panel corners 0, 2 and 4 (at 8, 10, 12), the
   stand's cap centres (16, 17) and the base's top cap centre (60).
   */
  lemma MonitorLayout(b: Buffers, circle: UnitCircle)
    ensures var m, o := CreateMonitorModel(b, circle), |b.vertices|;
      && m.vertices[o] == Corner(0, ScreenWidth, ScreenHeight, ScreenDepth, 0.0, YOffset, 0.0)
      && m.vertices[o + 2] == Corner(2, ScreenWidth, ScreenHeight, ScreenDepth, 0.0, YOffset, 0.0)
      && m.vertices[o + 8] == Corner(0, ScreenWidth * 0.92, ScreenHeight * 0.88, PanelDepth, 0.0, YOffset, PanelZ)
      && m.vertices[o + 10] == Corner(2, ScreenWidth * 0.92, ScreenHeight * 0.88, PanelDepth, 0.0, YOffset, PanelZ)
      && m.vertices[o + 12] == Corner(4, ScreenWidth * 0.92, ScreenHeight * 0.88, PanelDepth, 0.0, YOffset, PanelZ)
      && m.vertices[o + 16] == CapCentre(true, StandHeight, 0.0, StandYPos, 0.0)
      && m.vertices[o + 17] == CapCentre(false, StandHeight, 0.0, StandYPos, 0.0)
      && m.vertices[o + 60] == CapCentre(true, BaseHeight, 0.0, BaseYPos, 0.0)
  {
    BezelStep(b);
    PanelStep(b);
    StandStep(b, circle);
    BaseStep(b, circle);
  }

  /**
   The stand starts where the screen ends: its top cap centre is at the
   height of the bezel's bottom edge (the bezel's lower front-left corner).
   */
  lemma StandMeetsScreen(b: Buffers, circle: UnitCircle)
    ensures StandYPos + StandHeight / 2.0 == YOffset - ScreenHeight / 2.0
    ensures var m, o := CreateMonitorModel(b, circle), |b.vertices|;
      && m.vertices[o + 16] == Vec3(0.0, YOffset - ScreenHeight / 2.0, 0.0)
      && m.vertices[o].y == YOffset - ScreenHeight / 2.0
  {
    MonitorLayout(b, circle);
  }

  /**
   The base starts where the stand ends: its top cap centre is at the height
   of the stand's bottom cap centre, directly below it.
   */
  lemma BaseMeetsStand(b: Buffers, circle: UnitCircle)
    ensures BaseYPos + BaseHeight / 2.0 == StandYPos - StandHeight / 2.0
    ensures var m, o := CreateMonitorModel(b, circle), |b.vertices|;
      && m.vertices[o + 60] == Vec3(0.0, StandYPos - StandHeight / 2.0, 0.0)
      && m.vertices[o + 17] == Vec3(0.0, StandYPos - StandHeight / 2.0, 0.0)
  {
    MonitorLayout(b, circle);
  }

  /**
   The panel sits on the bezel's front face: the panel's back face (its
   corner 4) is at the depth of the bezel's front face (its corner 0), and
   the panel's front face, spanned by its corners 0 and 2, lies strictly
   inside the bezel's front face, spanned by the bezel's corners 0 and 2.
   */
  lemma PanelSitsOnBezel(b: Buffers, circle: UnitCircle)
    ensures var m, o := CreateMonitorModel(b, circle), |b.vertices|;
      && m.vertices[o + 12].z == m.vertices[o].z == ScreenDepth / 2.0
      && m.vertices[o].x < m.vertices[o + 8].x < m.vertices[o + 10].x < m.vertices[o + 2].x
      && m.vertices[o].y < m.vertices[o + 8].y < m.vertices[o + 10].y < m.vertices[o + 2].y
  {
    MonitorLayout(b, circle);
  }
}
