/**
 * The device-facing vocabulary shared by the whole model: 2-D vectors, the
 * per-frame snapshot of everything raylib's query functions would report,
 * the callback invocations the engine produces (as event records), the raylib
 * id ranges the poller sweeps, and a small "new state plus events" result.
 */
module Devices {

  /** raylib's Vector2, with float components modelled as reals. */
  datatype Vec2 = Vec2(x: real, y: real)

  /** Vector2Subtract. */
  function Sub(a: Vec2, b: Vec2): (r: Vec2)
    ensures Add(b, r) == a
  {
    Vec2(a.x - b.x, a.y - b.y)
  }

  function Add(a: Vec2, b: Vec2): Vec2 {
    Vec2(a.x + b.x, a.y + b.y)
  }

  const Origin: Vec2 := Vec2(0.0, 0.0)

  /**
   * One frame's answers of the raylib query interface: IsWindowFocused,
   * IsKeyDown, IsMouseButtonDown, IsGamepadAvailable, IsGamepadButtonDown,
   * GetMouseWheelMove, GetMouseWheelMoveV, GetMousePosition and
   * GetGamepadAxisMovement. Gamepad queries are keyed by (gamepad id, control id).
   */
  datatype Snapshot = Snapshot(
    windowFocused: bool,
    isKeyDown: int -> bool,
    isMouseButtonDown: int -> bool,
    isGamepadAvailable: int -> bool,
    isGamepadButtonDown: ((int, int)) -> bool,
    mouseWheelMove: real,
    mouseWheelMoveV: Vec2,
    mousePosition: Vec2,
    gamepadAxisMovement: ((int, int)) -> real)

  /**
   * One callback invocation, tagged by the callback that would be called,
   * carrying the callback's arguments.
   */
  datatype Event =
    | KeyboardEvent(key: int, isDown: bool)
    | MouseButtonEvent(button: int, isDown: bool)
    | GamepadButtonEvent(gamepad: int, button: int, isDown: bool)
    | MouseWheelEvent(value: real, delta: real)
    | GamepadAxisEvent(gamepad: int, axis: int, value: real, delta: real)
    | MousePositionEvent(position: Vec2, offset: Vec2)
    | VectorEvent(vector: Vec2, offset: Vec2)

  /** The committed state of a pump or poll together with the events it emitted, in order. */
  datatype Step<S> = Step(state: S, events: seq<Event>)

  // raylib enumeration bounds swept by the poller (raylib 5 values).
  const KeyNull := 0
  const KeyKpEqual := 336
  const MouseButtonLeft := 0
  const MouseButtonExtra := 4
  const GamepadButtonUnknown := 0
  const GamepadButtonRightThumb := 17
  const GamepadAxisLeftX := 0
  const GamepadAxisLeftY := 1
  const GamepadAxisRightTrigger := 5
  /** MAX_GAMEPADS in BufferedRaylib.cpp. */
  const MaxGamepads := 16
}
