# Monitor model: mesh builder, animation and colour parsing in Dafny

`monitor.js` draws a computer monitor with WebGL. At start-up it builds one
mesh into three global buffers: vertex positions, one colour per vertex, and
triangle indices. It builds the mesh from two primitives. `createCube` makes
the screen bezel and the screen panel, and `generateCylinder` makes the stand
and the base. It then uploads the indices as a `Uint16Array`. Each frame it
reads seven transform parameters from sliders. While animation is on, it
advances a clock and lets the chosen preset (`spin`, `bounce` or `pulse`)
override one parameter. It turns the background colour picker's `#rrggbb`
value into a clear colour with `hexToRgb`.

This project models those parts as pure functions over immutable values:

- **`Mesh`** (`mesh.dfy`) holds the buffers. It states what appending means:
  nothing stored moves, colours run parallel to positions, whole triangles
  only, and every index names a vertex. It also models the 16-bit index
  upload.
- **`Cube`** (`cube.dfy`) is `createCube`, including the proof that its
  twelve triangles close the box's surface.
- **`Cylinder`** (`cylinder.dfy`) is `generateCylinder`. Cosine and sine are
  a parameter, `UnitCircle`: the counts, index ranges, triangle layout and
  flat caps hold whatever the trigonometric values are, and the seam closes
  whenever a full turn returns to its start.
- **`MonitorModel`** (`monitor_model.dfy`) is `createMonitorModel`. It gives
  the final buffer sizes, validity, the lossless 16-bit upload, and the exact
  vertical stacking of screen, stand and base.
- **`Animation`** (`animation.dfy`) covers the three animation globals, the
  animate button, the preset selector and the per-frame override. It includes
  an invariant over every history of events.
- **`HexColor`** (`hex_color.dfy`) is `hexToRgb`: first-`#` removal,
  base-16 parsing, JavaScript's ToInt32, shift and mask, and division by 255.

Coordinates and times are exact reals. The stacking facts therefore hold
exactly, where the source's doubles hold them only up to rounding.

Behaviour of `monitor.js` the model follows as written:

- `generateCylinder` does not check `segments`. The model accepts any natural
  count, including 0.
- The animate button's handler resets the clock on every click, whether it
  switches animation on or off (monitor.js:268-271), and so does
  `Animation.Toggle`.
- A frame advances the clock before it computes the override, so the first
  animated frame uses time 0.016.
- `render` passes `gl.COLOR_BUFFER_BIT | gl.DEPTH_TEST_BIT` to `gl.clear`
  (monitor.js:232). `DEPTH_TEST_BIT` is not a WebGL constant, so this call
  clears only the colour buffer. The call is outside this model (see Left
  out).

## Model

| member | source | states |
|---|---|---|
| Mesh.Append | monitor.js:108-111 | A builder's push leaves the earlier buffers as a prefix. The new vertices are exactly the builder's list, every new colour is the builder's colour, and the new indices are exactly its list. |
| Mesh.ExtendsTransitive | monitor.js:75-87 | Two rounds of appending are one round of appending, so four builder calls in a row only append. |
| Mesh.ExtendsKeepsEntries | monitor.js:109-111 | After appending, every vertex, colour and index stored before keeps its position and value. |
| Mesh.AppendKeepsValid | monitor.js:10-12 | Take well-formed buffers: as many colours as vertices, whole triangles, every index naming a vertex. They stay well formed when a builder appends equal numbers of vertices and colours, whole triangles, and only indices that name a vertex of the new buffers, old or new. |
| Mesh.ToUint16Array | monitor.js:178 | `new Uint16Array(indices)` keeps the length. Every stored value is below 2^16, and an index already below 2^16 is stored unchanged. |
| Mesh.UploadIsLossless | monitor.js:178 | When every index fits in 16 bits, the uploaded array equals the index buffer. |
| Cube.CornerList | monitor.js:97-106 | The eight corners, in the source's order, are the corners of the box of the given size around the centre. Corners 0–3 are at the front (+z), corners 1, 2, 5, 6 on the right (+x), and corners 2, 3, 6, 7 on top (+y). |
| Cube.Shift | monitor.js:121-123 | The loop that pushes `startIndex + index` for each table entry. `Cube.ShiftKeepsEdgeCounts` and `Cube.ShiftKeepsClosed` state what the shift preserves. |
| Cube.CreateCube | monitor.js:92-124 | It appends 8 vertices (the box's corners), 8 copies of the colour and 36 indices, and keeps all earlier entries. Every new index lies in `[startIndex, startIndex + 8)`, the first one is `startIndex`, and the new indices are the table shifted by `startIndex`. |
| Cube.CreateCubeKeepsValid | monitor.js:108-123 | Building a box onto well-formed buffers leaves them well formed. |
| Cube.CubeIndicesInRange | monitor.js:112-119 | Every entry of the 36-entry table names one of the 8 corners. |
| Cube.CubeEdgeTwice | monitor.js:112-119 | Each of the box's 18 edges lies in exactly two of the table's twelve triangles: 12 sides and 6 face diagonals. |
| Cube.CubeTriangleSealed | monitor.js:112-119 | Each of the twelve triangles has three distinct corners, and each of its edges is shared with exactly one other triangle. |
| Cube.CubeIndicesClosed | monitor.js:112-119 | The table is a closed surface: whole triangles, none with a boundary edge. |
| Cube.ShiftKeepsEdgeCounts | monitor.js:121-123 | Adding `startIndex` to every index changes no edge's triangle count. |
| Cube.ShiftKeepsClosed | monitor.js:121-123 | Shifting a closed surface by `startIndex` keeps it closed. |
| Cube.CreateCubeIsClosed | monitor.js:108-123 | The 36 indices one `createCube` call appends form a closed box, wherever in the buffer they land. |
| Cylinder.SegmentIndices | monitor.js:152-167 | The twelve indices one pass of the second loop pushes, with `top1`, `bottom1`, `top2` and `bottom2` as at :153-156. `Cylinder.SegmentIndicesRange` and `Cylinder.SegmentLayout` state which vertices they name. |
| Cylinder.SegmentIndicesRange | monitor.js:152-167 | Segment `i` uses only the two cap centres and rim pairs `i` and `i + 1`. |
| Cylinder.SideIndices | monitor.js:151-167 | The second loop pushes `12 * segments` indices, all in `[startIndex, startIndex + 2 * segments + 4)`. |
| Cylinder.RimPairs | monitor.js:142-148 | The first loop's pushes for steps `0 .. n - 1`: a top and a bottom rim point per step, `2 * n` vertices. |
| Cylinder.RimPairsEntry | monitor.js:142-148 | By induction on the steps: rim pair `i` is at positions `2i` (top) and `2i + 1` (bottom) of the rim list. |
| Cylinder.CylinderVertices | monitor.js:133-149 | The vertices one cylinder appends: the two cap centres pushed at :136, then the rim pairs for `i` from 0 to `segments`, `2 * segments + 4` in all. `Cylinder.CylinderLayout` states where each one is. |
| Cylinder.CylinderLayout | monitor.js:134-147 | Vertices 0 and 1 are the top and bottom cap centres. For every `i` from 0 to `segments`, vertices `2 + 2i` and `3 + 2i` are the top and bottom rim points at angle `i / segments` of a full turn. |
| Cylinder.GenerateCylinder | monitor.js:129-168 | It appends `2 + 2 * (segments + 1)` vertices, the same number of copies of the colour and `12 * segments` indices, and keeps earlier entries. Every new index is in `[startIndex, startIndex + 2 * segments + 4)`. |
| Cylinder.GenerateCylinderKeepsValid | monitor.js:129-168 | Building a cylinder onto well-formed buffers leaves them well formed. |
| Cylinder.SideIndicesSegment | monitor.js:152-167 | By induction on the loop: entries `12 * i .. 12 * i + 11` of the pushed indices are segment `i`'s twelve indices. |
| Cylinder.SideIndicesShift | monitor.js:152-167 | The indices a cylinder pushes at `startIndex` are those it pushes at 0, each raised by `startIndex`. |
| Cylinder.SeamCloses | monitor.js:142-147 | If the circle returns to its start after a full turn, the last rim pair coincides with the first, so the side has no gap. |
| Cylinder.SegmentLayout | monitor.js:152-167 | For a cylinder starting at any `startIndex`, segment `i` is the side quad between rim pairs `i` and `i + 1`, split into two triangles, plus the top fan triangle `(top centre, top i, top i+1)` and the bottom fan triangle `(bottom centre, bottom i+1, bottom i)`. |
| Cylinder.CapsAreFlat | monitor.js:162-166 | The three corners of every top fan triangle lie in the top plane `cy + h/2`. Those of every bottom fan triangle lie in the bottom plane `cy - h/2`. |
| Cylinder.FanCornerOnPlane | monitor.js:163-166 | Fan corner `j` (6 to 11) of segment `i` names a vertex on the top plane `cy + h/2` for the top fan and on the bottom plane `cy - h/2` for the bottom fan. |
| Cylinder.CapsAreFlatInBuffer | monitor.js:129-168 | The same for the buffers a call actually writes: after appending to any buffers, each fan corner of segment `i` names a vertex of the new buffers on its cap's plane. |
| MonitorModel.Bezel | monitor.js:75 | The bezel box adds 8 vertices, 8 colours and 36 indices. |
| MonitorModel.WithPanel | monitor.js:78 | Bezel and panel together add 16 vertices, 16 colours and 72 indices. |
| MonitorModel.WithStand | monitor.js:83 | With the 20-segment stand, 60 vertices, 60 colours and 312 indices are added. |
| MonitorModel.CreateMonitorModel | monitor.js:59-88 | The whole model only appends. It adds 124 vertices, 124 colours and 672 indices, and it leaves well-formed buffers well formed. |
| MonitorModel.MonitorUploadIsLossless | monitor.js:75-87 | Built into the empty start-up buffers, the model has 124 vertices and colours and 672 indices. Every index is below 124, so the 16-bit upload stores the index buffer unchanged. |
| MonitorModel.BezelStep | monitor.js:75 | The bezel's corners 0 and 2 are the first and third vertices the model adds. |
| MonitorModel.PanelStep | monitor.js:78 | The panel keeps the bezel's vertices. Its corners 0, 2 and 4 are added 8, 10 and 12 places in. |
| MonitorModel.StandStep | monitor.js:83 | The stand keeps the screen's vertices. Its cap centres are added 16 and 17 places in. |
| MonitorModel.BaseStep | monitor.js:87 | The base keeps the earlier vertices. Its top cap centre is added 60 places in. |
| MonitorModel.MonitorLayout | monitor.js:74-87 | It lists where each landmark vertex lies in the assembled model: bezel corners, panel corners, stand cap centres and base top centre. |
| MonitorModel.StandMeetsScreen | monitor.js:81-83 | `standYPos + standHeight/2 == yOffset - screenHeight/2` exactly. The stand's top centre is at `(0, yOffset - screenHeight/2, 0)`, the height of the bezel's bottom edge. |
| MonitorModel.BaseMeetsStand | monitor.js:86-87 | `baseYPos + 0.03/2 == standYPos - standHeight/2` exactly. The base's top centre and the stand's bottom centre are the same point. |
| MonitorModel.PanelSitsOnBezel | monitor.js:75-78 | The panel's back face is at the depth of the bezel's front face. The panel's front face lies strictly inside the bezel's front face in x and in y. |
| Animation.Toggle | monitor.js:268-272 | The animate button flips `isAnimating`, resets the clock to 0 and keeps the preset. |
| Animation.SelectPreset | monitor.js:273 | A preset change sets the preset and changes nothing else. |
| Animation.Trunc | monitor.js:215 | The quotient JavaScript's `%` uses: the integer part toward zero, within 1 of the true quotient and no larger in magnitude. |
| Animation.Rem360 | monitor.js:215 | `x % 360` has the sign of `x` and lies in `[0, 360)` for `x >= 0` and in `(-360, 0]` for `x < 0`. |
| Animation.Rem360DropsWholeTurns | monitor.js:215 | `x` and `x % 360` differ by a whole number of full turns. |
| Animation.SpinAngle | monitor.js:215 | The spin angle `(t * 50) % 360` is in `[0, 360)` whenever `t >= 0`. |
| Animation.SpinAngleExamples | monitor.js:215 | The angle is 50 at `t = 1`, back to 0 at `t = 7.2`, and 40 at `t = 8`. |
| Animation.Advance | monitor.js:212-213 | A frame advances the clock by 0.016 only while animating. Otherwise the state is unchanged; flag and preset never change. |
| Animation.Frame | monitor.js:212-226 | When not animating, all seven parameters are as read. When animating, `spin` sets `rotY` to the spin angle of the advanced clock, `bounce` sets `posY = 0.3 sin(4t)` and `pulse` sets `scale = 1 + 0.2 sin(5t)`. |
| Animation.FrameTouchesOnlyPresetField | monitor.js:212-226 | Every parameter except the one the active preset names keeps its slider value. An unknown preset, or animation being off, changes none of the seven. |
| Animation.RunInvariant | monitor.js:15-17 | After any history of clicks, preset choices and frames from the initial globals, three things hold. The model animates exactly when the button was clicked an odd number of times. The clock is 0.016 times the frames since the last click while animating, and 0 otherwise. The preset is the last one chosen, or `spin`. |
| Animation.SpinInRangeOnAnyRun | monitor.js:214-215 | In any reachable state, a spin frame yields an angle in `[0, 360)`. |
| HexColor.StripFirstHash | monitor.js:261 | `hex.replace('#', '')`. `HexColor.StripFirstHashWithoutHash` and `HexColor.StripFirstHashRemovesFirst` state what it removes. |
| HexColor.StripFirstHashWithoutHash | monitor.js:261 | `replace('#', '')` returns a string without `#` unchanged. |
| HexColor.StripFirstHashRemovesFirst | monitor.js:261 | `replace('#', '')` removes exactly the first `#`, wherever it is, and keeps everything else in order. |
| HexColor.ParseHex | monitor.js:262 | `parseInt(hex, 16)` on a string of hex digits, most significant first. `HexColor.ParseHexBelow`, `HexColor.ParseHexAppend` and `HexColor.ParseSix` state its value. |
| HexColor.ParseHexBelow | monitor.js:262 | By induction: `n` hex digits read as a value below `16^n`. |
| HexColor.ParseHexAppend | monitor.js:262 | Base-16 reading of `a + b` is `a`'s value shifted by `b`'s digit count, plus `b`'s value. |
| HexColor.ParsePair | monitor.js:262 | Two digits `XY` read as `16X + Y`, below 256. |
| HexColor.ParseSix | monitor.js:262 | Six digits `RRGGBB` read as `RR * 65536 + GG * 256 + BB`. |
| HexColor.ToInt32 | monitor.js:263 | ToInt32 lands in the signed 32-bit range and differs from its argument by a multiple of 2^32. |
| HexColor.ToInt32Small | monitor.js:263 | ToInt32 leaves values in `[0, 2^31)` unchanged. |
| HexColor.Byte | monitor.js:263 | `(n >> shift) & 255` for shifts 16, 8 and 0: a value in `[0, 256)`. `HexColor.BytesOf` shows it picks out the right byte. |
| HexColor.RgbOf | monitor.js:263 | The three bytes of the int32 value, each divided by 255: every component is in `[0, 1]`. |
| HexColor.BytesOf | monitor.js:263 | Shift and mask pick `R`, `G` and `B` back out of `R * 65536 + G * 256 + B`. |
| HexColor.HexToRgb | monitor.js:260-264 | Every component is in `[0, 1]`. With no digits (`parseInt` gives NaN, which the bit operators read as 0) the colour is black. |
| HexColor.StripHash | monitor.js:261 | For a string of hex digits, removing the first `#` gives the digits, with or without a leading `#`. |
| HexColor.HexToRgbOfSixDigits | monitor.js:260-264 | For `RRGGBB`, with or without a leading `#`, the result is `(RR/255, GG/255, BB/255)`. |
| HexColor.HashIsOptional | monitor.js:261 | For six digits, the result is the same with or without the `#`. |
| HexColor.OrangeExample | monitor.js:260-264 | `#FF8000` gives `(1, 128/255, 0)`. |
| HexColor.HexToRgbOfToHex | monitor.js:260-264 | Reading back the `#rrggbb` a colour picker writes for bytes `(r, g, b)` gives `(r/255, g/255, b/255)`. |

## Left out

- WebGL context, shaders, buffer binding and draw calls (`init`, `setupBuffers` apart from the `Uint16Array` conversion, and the calls at monitor.js:231-254 of `render`) are foreign GPU I/O. So is the `gl.clear` mask noted above.
- The wireframe/solid draw loop (monitor.js:245-252) consists only of `drawElements` calls.
- The model-view and projection matrices depend on a matrix library that is not part of this model, and on trigonometry.
- Cylinder.SeamCloses: the rim coordinates go through the `UnitCircle` parameter, so no value of cosine or sine is modelled. The seam is proved to close under the assumption that a full turn returns to the start.
- Animation.Frame: `Math.sin` is an uninterpreted parameter. The bounce and pulse values are stated only in terms of it.
- Animation.Rem360: JavaScript's `%` is modelled for the one divisor the source uses, 360, not for an arbitrary divisor.
- IEEE rounding is left out. Dimensions, positions and the 0.016 clock step are exact reals, so the stacking equalities hold exactly here but only approximately in doubles.
- HexColor.HexToRgb: only digit strings of length 0 to 13 after `#` removal are covered, where `parseInt` is exact. Covered are empty (NaN), short, `RRGGBB` and longer strings folded by ToInt32. Other characters, `parseInt`'s prefix parsing, and values past 2^53 are not modelled.
- DOM reads and writes, `toFixed` formatting, the write-back of the overridden value to its slider, and the slider display listeners are UI plumbing.
- `requestAnimationFrame` scheduling is not modelled: one frame is one `Animation.Frame` step.
