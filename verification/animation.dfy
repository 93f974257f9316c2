/**
 The animation state of the monitor viewer and what one rendered frame does
 with it: the three globals `isAnimating`, `animationPreset` and
 `animationTime`, the two UI handlers that change them, and the per-frame
 override of one of the seven transform parameters read from the sliders.
 */
module Animation {

  /** The three animation globals. */
  datatype State = State(isAnimating: bool, preset: string, time: real)

  /** The globals as the page loads: not animating, preset `'spin'`, time 0. */
  const Initial: State := State(false, "spin", 0.0)

  /** The time one frame adds (the source assumes about 60 frames per second). */
  const FrameStep: real := 0.016

  /** The seven transform parameters a frame reads from the sliders. */
  datatype Params = Params(posX: real, posY: real, posZ: real, rotX: real, rotY: real, rotZ: real, scale: real)

  /** Names for the seven parameters, so that properties can speak of "every other parameter". */
  datatype Field = PosX | PosY | PosZ | RotX | RotY | RotZ | Scale

  function Get(p: Params, f: Field): real {
    match f
    case PosX => p.posX
    case PosY => p.posY
    case PosZ => p.posZ
    case RotX => p.rotX
    case RotY => p.rotY
    case RotZ => p.rotZ
    case Scale => p.scale
  }

  /** `Math.sin`, left uninterpreted: the model only says where its value goes. */
  type Sine = real -> real

  /** The animate button: flips whether the model animates and restarts the clock. */
  function Toggle(s: State): (r: State)
    ensures r.isAnimating != s.isAnimating
    ensures r.time == 0.0 && r.preset == s.preset
  {
    State(!s.isAnimating, s.preset, 0.0)
  }

  /** The preset selector: changes the preset and nothing else. */
  function SelectPreset(s: State, name: string): (r: State)
    ensures r.preset == name
    ensures r.isAnimating == s.isAnimating && r.time == s.time
  {
    s.(preset := name)
  }

  /** Truncation toward zero, as JavaScript's `%` uses for its quotient. */
  function Trunc(q: real): (n: int)
    ensures q >= 0.0 ==> 0 <= n && n as real <= q < n as real + 1.0
    ensures q < 0.0 ==> n <= 0 && n as real - 1.0 < q <= n as real
  {
    if q >= 0.0 then q.Floor else -((-q).Floor)
  }

  /**
   JavaScript's `x % 360`, the only remainder the animation takes: the result
   has the sign of `x`, is smaller than 360 in magnitude, and differs from `x`
   by a whole number of turns (Dafny's own `%` on `int` is Euclidean instead).
   */
  function Rem360(x: real): (r: real)
    ensures x >= 0.0 ==> 0.0 <= r < 360.0
    ensures x < 0.0 ==> -360.0 < r <= 0.0
  {
    x - Trunc(x / 360.0) as real * 360.0
  }

  /** `x` and `Rem360(x)` differ by a whole number of full turns. */
  lemma Rem360DropsWholeTurns(x: real)
    ensures var turns := (x - Rem360(x)) / 360.0; turns.Floor as real == turns
  {
    var q := Trunc(x / 360.0);
    assert (x - Rem360(x)) / 360.0 == q as real;
  }

  /** The spin preset's angle in degrees, `(t * 50) % 360`: 50 degrees per unit of time, wrapped. */
  function SpinAngle(t: real): (a: real)
    ensures t >= 0.0 ==> 0.0 <= a < 360.0
  {
    Rem360(t * 50.0)
  }

  /** The field each known preset overrides; any other preset overrides nothing. */
  function PresetField(preset: string): (f: Option<Field>)
  {
    if preset == "spin" then Some(RotY)
    else if preset == "bounce" then Some(PosY)
    else if preset == "pulse" then Some(Scale)
    else None
  }

  datatype Option<T> = None | Some(value: T)

  /** The clock part of a frame: one frame step forward while animating, unchanged otherwise. */
  function Advance(s: State): (r: State)
    ensures r.isAnimating == s.isAnimating && r.preset == s.preset
    ensures s.isAnimating ==> r.time == s.time + FrameStep
    ensures !s.isAnimating ==> r == s
  {
    if s.isAnimating then s.(time := s.time + FrameStep) else s
  }

  /**
   One rendered frame: when animating, the clock advances by one frame step
   and the preset overrides one slider value, computed from the new time;
   otherwise the state and the slider values are left as they are.
   */
  function Frame(s: State, p: Params, sin: Sine): (r: (State, Params))
    ensures r.0 == Advance(s)
    ensures !s.isAnimating ==> r.1 == p
    ensures s.isAnimating && s.preset == "spin" ==> r.1.rotY == SpinAngle(r.0.time)
    ensures s.isAnimating && s.preset == "bounce" ==> r.1.posY == 0.3 * sin(r.0.time * 4.0)
    ensures s.isAnimating && s.preset == "pulse" ==> r.1.scale == 1.0 + 0.2 * sin(r.0.time * 5.0)
  {
    if !s.isAnimating then (s, p)
    else
      var t := Advance(s).time;
      var q :=
        if s.preset == "spin" then p.(rotY := SpinAngle(t))
        else if s.preset == "bounce" then p.(posY := 0.3 * sin(t * 4.0))
        else if s.preset == "pulse" then p.(scale := 1.0 + 0.2 * sin(t * 5.0))
        else p;
      (Advance(s), q)
  }

  /**
   A frame overrides at most one parameter, the one its preset names: every
   other parameter keeps the value read from its slider, and with an unknown
   preset, or when not animating, all seven do.
   */
  lemma FrameTouchesOnlyPresetField(s: State, p: Params, sin: Sine, f: Field)
    requires !s.isAnimating || PresetField(s.preset) != Some(f)
    ensures Get(Frame(s, p, sin).1, f) == Get(p, f)
  {
  }

  /** After 1 unit of time the spin angle is 50 degrees, and after 7.2 units it is back at 0. */
  lemma SpinAngleExamples()
    ensures SpinAngle(1.0) == 50.0
    ensures SpinAngle(7.2) == 0.0
    ensures SpinAngle(8.0) == 40.0
  {
    assert 1.0 * 50.0 / 360.0 < 1.0;
    assert Trunc(7.2 * 50.0 / 360.0) == 1;
    assert Trunc(8.0 * 50.0 / 360.0) == 1;
  }

  /** What can happen to the animation globals: a click, a preset choice, or a rendered frame. */
  datatype Event = ToggleClicked | PresetChosen(name: string) | Rendered

  /** The globals after a history of events, starting from the page's initial state. */
  function Run(events: seq<Event>): (s: State)
  {
    if |events| == 0 then Initial
    else
      var s := Run(events[..|events| - 1]);
      match events[|events| - 1]
      case ToggleClicked => Toggle(s)
      case PresetChosen(name) => SelectPreset(s, name)
      case Rendered => Advance(s)
  }

  /** How many times the animate button was clicked. */
  function Toggles(events: seq<Event>): nat {
    if |events| == 0 then 0
    else Toggles(events[..|events| - 1]) + (if events[|events| - 1] == ToggleClicked then 1 else 0)
  }

  /** How many frames were rendered since the last click (since page load if there was none). */
  function FramesSinceToggle(events: seq<Event>): nat {
    if |events| == 0 then 0
    else match events[|events| - 1]
      case ToggleClicked => 0
      case PresetChosen(_) => FramesSinceToggle(events[..|events| - 1])
      case Rendered => FramesSinceToggle(events[..|events| - 1]) + 1
  }

  /** The preset last chosen, or `'spin'` if none was. */
  function LastPreset(events: seq<Event>): string {
    if |events| == 0 then "spin"
    else match events[|events| - 1]
      case PresetChosen(name) => name
      case _ => LastPreset(events[..|events| - 1])
  }

  /**
   The animation clock over any history: the model animates exactly when the
   button was clicked an odd number of times; while it animates, the clock is
   one frame step per frame rendered since the last click; while it is still,
   the clock is 0; and the preset is the one chosen last.
   */
  lemma {:induction false} RunInvariant(events: seq<Event>)
    ensures Run(events).isAnimating <==> Toggles(events) % 2 == 1
    ensures Run(events).time == if Run(events).isAnimating then FramesSinceToggle(events) as real * FrameStep else 0.0
    ensures Run(events).preset == LastPreset(events)
  {
    if |events| > 0 {
      RunInvariant(events[..|events| - 1]);
    }
  }

  /** The clock never runs backwards past 0, so the spin angle of any reachable frame lies in `[0, 360)`. */
  lemma SpinInRangeOnAnyRun(events: seq<Event>, p: Params, sin: Sine)
    requires Run(events).isAnimating && Run(events).preset == "spin"
    ensures 0.0 <= Frame(Run(events), p, sin).1.rotY < 360.0
  {
    RunInvariant(events);
  }
}
