/**
 * BufferedInput: the category poller. One callback slot per device category,
 * one state table per discrete category, a running total for the mouse wheel
 * and per-(gamepad, axis) totals, and the stored mouse position. One
 * PollEvents call sweeps every bound category against the frame's snapshot,
 * emits one invocation per change and commits the readings.
 */
module Buffered {
  import opened Devices
  import opened Sweeps

  /** Which of the six category callback slots are set. */
  datatype Bindings = Bindings(
    keyboard: bool, mouseButton: bool, gamepadButton: bool,
    mouseWheel: bool, gamepadAxis: bool, mousePosition: bool)

  const Unbound := Bindings(false, false, false, false, false, false)

  /** The poller's private state. */
  datatype InputState = InputState(
    mouseWheelValue: real,
    mousePosition: Vec2,
    keyboardStates: map<int, bool>,
    mouseButtonStates: map<int, bool>,
    gamepadButtonStates: map<(int, int), bool>,
    gamepadAxisStates: map<(int, int), real>)

  /** A freshly constructed poller's state: zero wheel total, position (0, 0), empty tables. */
  const Initial := InputState(0.0, Origin, map[], map[], map[], map[])

  // The ids each sweep visits, in loop order.
  function KeyIds(): seq<int> { Range(KeyNull, KeyKpEqual + 1) }
  function MouseButtonIds(): seq<int> { Range(MouseButtonLeft, MouseButtonExtra + 1) }
  function GamepadButtonIds(snap: Snapshot): seq<(int, int)> {
    GamepadIds(snap.isGamepadAvailable, MaxGamepads, GamepadButtonRightThumb + 1)
  }
  function GamepadAxisIds(snap: Snapshot): seq<(int, int)> {
    GamepadIds(snap.isGamepadAvailable, MaxGamepads, GamepadAxisRightTrigger + 1)
  }

  // The callback invocation of each discrete category, as Announce builds them.
  function KeyNotice(key: int, isDown: bool): Event { KeyboardEvent(key, isDown) }
  function MouseButtonNotice(button: int, isDown: bool): Event { MouseButtonEvent(button, isDown) }
  function GamepadButtonNotice(p: (int, int), isDown: bool): Event { GamepadButtonEvent(p.0, p.1, isDown) }

  /** A discrete category's sweep, or nothing at all when its callback is unset. */
  function DiscretePhase<K(==, !new)>(bound: bool, states: map<K, bool>, ids: seq<K>, down: K -> bool): SweepResult<K> {
    if bound then Sweep(states, ids, down) else SweepResult(states, [])
  }

  // The six sections of PollEvents, each as a transition of the whole state.

  function KeyboardPhase(st: InputState, cb: Bindings, snap: Snapshot): Step<InputState> {
    var r := DiscretePhase(cb.keyboard, st.keyboardStates, KeyIds(), snap.isKeyDown);
    Step(st.(keyboardStates := r.states), Announce(r.fired, snap.isKeyDown, KeyNotice))
  }

  function MouseButtonPhase(st: InputState, cb: Bindings, snap: Snapshot): Step<InputState> {
    var r := DiscretePhase(cb.mouseButton, st.mouseButtonStates, MouseButtonIds(), snap.isMouseButtonDown);
    Step(st.(mouseButtonStates := r.states), Announce(r.fired, snap.isMouseButtonDown, MouseButtonNotice))
  }

  function GamepadButtonPhase(st: InputState, cb: Bindings, snap: Snapshot): Step<InputState> {
    var r := DiscretePhase(cb.gamepadButton, st.gamepadButtonStates, GamepadButtonIds(snap), snap.isGamepadButtonDown);
    Step(st.(gamepadButtonStates := r.states), Announce(r.fired, snap.isGamepadButtonDown, GamepadButtonNotice))
  }

  /** The wheel section: a nonzero movement is added to the running total and reported with it. */
  function MouseWheelPhase(st: InputState, cb: Bindings, snap: Snapshot): Step<InputState> {
    var movement := snap.mouseWheelMove;
    if cb.mouseWheel && movement != 0.0 then
      var value := st.mouseWheelValue + movement;
      Step(st.(mouseWheelValue := value), [MouseWheelEvent(value, movement)])
    else Step(st, [])
  }

  function GamepadAxisPhase(st: InputState, cb: Bindings, snap: Snapshot): Step<InputState> {
    if cb.gamepadAxis then
      var r := AxisSweep(st.gamepadAxisStates, GamepadAxisIds(snap), snap.gamepadAxisMovement);
      Step(st.(gamepadAxisStates := r.states), r.events)
    else Step(st, [])
  }

  /** The position section: a position different from the stored one is stored and reported with its offset. */
  function MousePositionPhase(st: InputState, cb: Bindings, snap: Snapshot): Step<InputState> {
    var newPos := snap.mousePosition;
    if cb.mousePosition && newPos != st.mousePosition then
      Step(st.(mousePosition := newPos), [MousePositionEvent(newPos, Sub(newPos, st.mousePosition))])
    else Step(st, [])
  }

  /**
   * BufferedInput::PollEvents as a state transition: keyboard, mouse buttons,
   * gamepad buttons, mouse wheel, gamepad axes, mouse position, in that order;
   * no work at all when unfocused and not asked to poll while unfocused.
   */
  function Poll(st: InputState, cb: Bindings, snap: Snapshot, whileUnfocused: bool): Step<InputState> {
    if !whileUnfocused && !snap.windowFocused then Step(st, [])
    else
      var keys := KeyboardPhase(st, cb, snap);
      var mouse := MouseButtonPhase(keys.state, cb, snap);
      var pads := GamepadButtonPhase(mouse.state, cb, snap);
      var wheel := MouseWheelPhase(pads.state, cb, snap);
      var axes := GamepadAxisPhase(wheel.state, cb, snap);
      var position := MousePositionPhase(axes.state, cb, snap);
      Step(position.state,
        keys.events + mouse.events + pads.events + wheel.events + axes.events + position.events)
  }

  /** The keyboard and mouse-button loops: sweep the ids lo..hi inclusive. */
  method SweepRange(states: map<int, bool>, lo: int, hi: int, down: int -> bool, notice: (int, bool) -> Event)
    returns (newStates: map<int, bool>, events: seq<Event>)
    requires lo <= hi + 1
    ensures newStates == Sweep(states, Range(lo, hi + 1), down).states
    ensures events == Announce(Sweep(states, Range(lo, hi + 1), down).fired, down, notice)
  {
    newStates, events := states, [];
    ghost var fired := [];
    for id := lo to hi + 1
      invariant SweepResult(newStates, fired) == Sweep(states, Range(lo, id), down)
      invariant events == Announce(fired, down, notice)
    {
      ghost var before := SweepResult(newStates, fired);
      var isDown := down(id);
      if id !in newStates || newStates[id] != isDown {
        assert events + [notice(id, isDown)] == Announce(fired + [id], down, notice) by {
          AnnounceSnoc(fired, id, down, notice);
        }
        newStates := newStates[id := isDown];
        fired := fired + [id];
        events := events + [notice(id, isDown)];
      }
      assert SweepResult(newStates, fired) == SweepStep(before, id, down);
      assert SweepStep(before, id, down) == Sweep(states, Range(lo, id + 1), down) by {
        RangeSnoc(lo, id);
        SweepSnoc(states, Range(lo, id), id, down);
      }
    }
  }

  /** The inner gamepad-button loop: every button of one gamepad. */
  method SweepPadButtons(states: map<(int, int), bool>, gamepad: int, n: nat, down: ((int, int)) -> bool)
    returns (newStates: map<(int, int), bool>, events: seq<Event>)
    ensures newStates == Sweep(states, Pairs(gamepad, n), down).states
    ensures events == Announce(Sweep(states, Pairs(gamepad, n), down).fired, down, GamepadButtonNotice)
  {
    newStates, events := states, [];
    ghost var fired := [];
    for button := GamepadButtonUnknown to n
      invariant SweepResult(newStates, fired) == Sweep(states, Pairs(gamepad, button), down)
      invariant events == Announce(fired, down, GamepadButtonNotice)
    {
      var key := (gamepad, button);
      ghost var before := SweepResult(newStates, fired);
      var isDown := down(key);
      if key !in newStates || newStates[key] != isDown {
        assert events + [GamepadButtonEvent(gamepad, button, isDown)] == Announce(fired + [key], down, GamepadButtonNotice) by {
          AnnounceSnoc(fired, key, down, GamepadButtonNotice);
        }
        newStates := newStates[key := isDown];
        fired := fired + [key];
        events := events + [GamepadButtonEvent(gamepad, button, isDown)];
      }
      assert SweepResult(newStates, fired) == SweepStep(before, key, down);
      assert SweepStep(before, key, down) == Sweep(states, Pairs(gamepad, button + 1), down) by {
        SweepSnoc(states, Pairs(gamepad, button), key, down);
      }
    }
  }

  /** The gamepad-button loops: every button of every available gamepad 0..15. */
  method SweepGamepadButtons(states: map<(int, int), bool>, snap: Snapshot)
    returns (newStates: map<(int, int), bool>, events: seq<Event>)
    ensures newStates == Sweep(states, GamepadButtonIds(snap), snap.isGamepadButtonDown).states
    ensures events == Announce(Sweep(states, GamepadButtonIds(snap), snap.isGamepadButtonDown).fired,
                               snap.isGamepadButtonDown, GamepadButtonNotice)
  {
    var down := snap.isGamepadButtonDown;
    var n := GamepadButtonRightThumb + 1;
    newStates, events := states, [];
    ghost var fired := [];
    for gamepad := 0 to MaxGamepads
      invariant SweepResult(newStates, fired) == Sweep(states, GamepadIds(snap.isGamepadAvailable, gamepad, n), down)
      invariant events == Announce(fired, down, GamepadButtonNotice)
    {
      GamepadSweepStep(states, snap.isGamepadAvailable, gamepad, n, down);
      if snap.isGamepadAvailable(gamepad) {
        ghost var pad := Sweep(newStates, Pairs(gamepad, n), down);
        var padStates, padEvents := SweepPadButtons(newStates, gamepad, n, down);
        AnnounceConcat(fired, pad.fired, down, GamepadButtonNotice);
        newStates := padStates;
        fired := fired + pad.fired;
        events := events + padEvents;
      }
    }
  }

  /** The inner gamepad-axis loop: every axis of one gamepad. */
  method SweepPadAxes(states: map<(int, int), real>, gamepad: int, n: nat, move: ((int, int)) -> real)
    returns (newStates: map<(int, int), real>, events: seq<Event>)
    ensures AxisSweepResult(newStates, events) == AxisSweep(states, Pairs(gamepad, n), move)
  {
    newStates, events := states, [];
    for axis := GamepadAxisLeftX to n
      invariant AxisSweepResult(newStates, events) == AxisSweep(states, Pairs(gamepad, axis), move)
    {
      var key := (gamepad, axis);
      ghost var before := AxisSweepResult(newStates, events);
      var movement := move(key);
      if movement != 0.0 {
        var lastValue := if key in newStates then newStates[key] else 0.0;
        assert lastValue == Total(before.states, key);
        var newValue := lastValue + movement;
        var delta := movement;
        newStates := newStates[key := newValue];
        events := events + [GamepadAxisEvent(gamepad, axis, newValue, delta)];
      }
      assert AxisSweepResult(newStates, events) == AxisStep(before, key, move);
      assert AxisStep(before, key, move) == AxisSweep(states, Pairs(gamepad, axis + 1), move) by {
        AxisSweepSnoc(states, Pairs(gamepad, axis), key, move);
      }
    }
  }

  /** The gamepad-axis loops: every axis of every available gamepad 0..15. */
  method SweepGamepadAxes(states: map<(int, int), real>, snap: Snapshot)
    returns (newStates: map<(int, int), real>, events: seq<Event>)
    ensures AxisSweepResult(newStates, events) == AxisSweep(states, GamepadAxisIds(snap), snap.gamepadAxisMovement)
  {
    var move := snap.gamepadAxisMovement;
    var n := GamepadAxisRightTrigger + 1;
    newStates, events := states, [];
    for gamepad := 0 to MaxGamepads
      invariant AxisSweepResult(newStates, events) == AxisSweep(states, GamepadIds(snap.isGamepadAvailable, gamepad, n), move)
    {
      GamepadAxisSweepStep(states, snap.isGamepadAvailable, gamepad, n, move);
      if snap.isGamepadAvailable(gamepad) {
        var padStates, padEvents := SweepPadAxes(newStates, gamepad, n, move);
        newStates := padStates;
        events := events + padEvents;
      }
    }
  }

  // ---------------------------------------------------------------------------
  // What one poll does, category by category.

  /**
   * Keyboard: with the callback set, every key KEY_NULL..KEY_KP_EQUAL ends up
   * holding its reading, every other entry is untouched, and exactly the keys
   * with no entry or a different one are announced, in key order, each with
   * its reading. With the callback unset nothing is read or written. No other
   * part of the state changes.
   */
  lemma KeyboardPhaseLaw(st: InputState, cb: Bindings, snap: Snapshot)
    ensures var r := KeyboardPhase(st, cb, snap);
      r.state.(keyboardStates := st.keyboardStates) == st
    ensures !cb.keyboard ==> KeyboardPhase(st, cb, snap) == Step(st, [])
    ensures cb.keyboard ==> var r := KeyboardPhase(st, cb, snap);
      var fired := Fired(st.keyboardStates, KeyIds(), snap.isKeyDown);
      && (forall k :: KeyNull <= k <= KeyKpEqual ==> k in r.state.keyboardStates && r.state.keyboardStates[k] == snap.isKeyDown(k))
      && (forall k :: !(KeyNull <= k <= KeyKpEqual) ==> (k in r.state.keyboardStates <==> k in st.keyboardStates))
      && (forall k :: !(KeyNull <= k <= KeyKpEqual) && k in st.keyboardStates ==> r.state.keyboardStates[k] == st.keyboardStates[k])
      && (forall k :: k in fired <==> KeyNull <= k <= KeyKpEqual && Fires(st.keyboardStates, k, snap.isKeyDown(k)))
      && r.events == Announce(fired, snap.isKeyDown, KeyNotice)
  {
    SweepRangeLaw(st.keyboardStates, KeyNull, KeyKpEqual + 1, snap.isKeyDown);
  }

  /** Mouse buttons: as for the keyboard, over MOUSE_BUTTON_LEFT..MOUSE_BUTTON_EXTRA. */
  lemma MouseButtonPhaseLaw(st: InputState, cb: Bindings, snap: Snapshot)
    ensures var r := MouseButtonPhase(st, cb, snap);
      r.state.(mouseButtonStates := st.mouseButtonStates) == st
    ensures !cb.mouseButton ==> MouseButtonPhase(st, cb, snap) == Step(st, [])
    ensures cb.mouseButton ==> var r := MouseButtonPhase(st, cb, snap);
      var down := snap.isMouseButtonDown;
      var fired := Fired(st.mouseButtonStates, MouseButtonIds(), down);
      && (forall m :: MouseButtonLeft <= m <= MouseButtonExtra ==> m in r.state.mouseButtonStates && r.state.mouseButtonStates[m] == down(m))
      && (forall m :: !(MouseButtonLeft <= m <= MouseButtonExtra) ==> (m in r.state.mouseButtonStates <==> m in st.mouseButtonStates))
      && (forall m :: !(MouseButtonLeft <= m <= MouseButtonExtra) && m in st.mouseButtonStates ==> r.state.mouseButtonStates[m] == st.mouseButtonStates[m])
      && (forall m :: m in fired <==> MouseButtonLeft <= m <= MouseButtonExtra && Fires(st.mouseButtonStates, m, down(m)))
      && r.events == Announce(fired, down, MouseButtonNotice)
  {
    SweepRangeLaw(st.mouseButtonStates, MouseButtonLeft, MouseButtonExtra + 1, snap.isMouseButtonDown);
  }

  /** A (gamepad, control) pair the gamepad loops visit: an available gamepad 0..15, a control 0..n - 1. */
  predicate Swept(snap: Snapshot, p: (int, int), n: int) {
    0 <= p.0 < MaxGamepads && snap.isGamepadAvailable(p.0) && 0 <= p.1 < n
  }

  /**
   * Gamepad buttons: as for the keyboard, over every button
   * GAMEPAD_BUTTON_UNKNOWN..GAMEPAD_BUTTON_RIGHT_THUMB of every available
   * gamepad 0..15, each (gamepad, button) pair tracked on its own; pairs of
   * unavailable or out-of-range gamepads are neither read nor written.
   */
  lemma GamepadButtonPhaseLaw(st: InputState, cb: Bindings, snap: Snapshot)
    ensures var r := GamepadButtonPhase(st, cb, snap);
      r.state.(gamepadButtonStates := st.gamepadButtonStates) == st
    ensures !cb.gamepadButton ==> GamepadButtonPhase(st, cb, snap) == Step(st, [])
    ensures cb.gamepadButton ==> var r := GamepadButtonPhase(st, cb, snap);
      var down := snap.isGamepadButtonDown;
      var n := GamepadButtonRightThumb + 1;
      var fired := Fired(st.gamepadButtonStates, GamepadButtonIds(snap), down);
      && (forall p :: Swept(snap, p, n) ==> p in r.state.gamepadButtonStates && r.state.gamepadButtonStates[p] == down(p))
      && (forall p :: !Swept(snap, p, n) ==> (p in r.state.gamepadButtonStates <==> p in st.gamepadButtonStates))
      && (forall p :: !Swept(snap, p, n) && p in st.gamepadButtonStates ==> r.state.gamepadButtonStates[p] == st.gamepadButtonStates[p])
      && (forall p :: p in fired <==> Swept(snap, p, n) && Fires(st.gamepadButtonStates, p, down(p)))
      && r.events == Announce(fired, down, GamepadButtonNotice)
  {
    GamepadIdsLaw(snap.isGamepadAvailable, MaxGamepads, GamepadButtonRightThumb + 1);
    SweepLaw(st.gamepadButtonStates, GamepadButtonIds(snap), snap.isGamepadButtonDown);
    FiredMembers(st.gamepadButtonStates, GamepadButtonIds(snap), snap.isGamepadButtonDown);
  }

  /**
   * Mouse wheel: with the callback set, a nonzero movement is added to the
   * running total and reported as (new total, movement); a zero movement, or
   * an unset callback, changes nothing and reports nothing.
   */
  lemma MouseWheelPhaseLaw(st: InputState, cb: Bindings, snap: Snapshot)
    ensures var r := MouseWheelPhase(st, cb, snap);
      && r.state.(mouseWheelValue := st.mouseWheelValue) == st
      && r.state.mouseWheelValue == st.mouseWheelValue + (if cb.mouseWheel then snap.mouseWheelMove else 0.0)
      && (r.events != [] <==> cb.mouseWheel && snap.mouseWheelMove != 0.0)
      && (r.events != [] ==> r.events == [MouseWheelEvent(r.state.mouseWheelValue, r.state.mouseWheelValue - st.mouseWheelValue)])
  {
  }

  /**
   * Gamepad axes: with the callback set, every swept axis with nonzero
   * movement has the movement added to its total (a missing entry counting
   * as 0); every other entry, present or absent, is untouched; the reports
   * are (new total, movement) for the moved axes in loop order.
   */
  lemma GamepadAxisPhaseLaw(st: InputState, cb: Bindings, snap: Snapshot)
    ensures var r := GamepadAxisPhase(st, cb, snap);
      r.state.(gamepadAxisStates := st.gamepadAxisStates) == st
    ensures !cb.gamepadAxis ==> GamepadAxisPhase(st, cb, snap) == Step(st, [])
    ensures cb.gamepadAxis ==> var r := GamepadAxisPhase(st, cb, snap);
      var move := snap.gamepadAxisMovement;
      var n := GamepadAxisRightTrigger + 1;
      var old_ := st.gamepadAxisStates;
      && (forall p :: Swept(snap, p, n) && move(p) != 0.0 ==>
            p in r.state.gamepadAxisStates && r.state.gamepadAxisStates[p] == Total(old_, p) + move(p))
      && (forall p :: !(Swept(snap, p, n) && move(p) != 0.0) ==> (p in r.state.gamepadAxisStates <==> p in old_))
      && (forall p :: !(Swept(snap, p, n) && move(p) != 0.0) && p in old_ ==> r.state.gamepadAxisStates[p] == old_[p])
      && r.events == AxisNotices(Moved(GamepadAxisIds(snap), move), old_, move)
  {
    GamepadIdsLaw(snap.isGamepadAvailable, MaxGamepads, GamepadAxisRightTrigger + 1);
    AxisSweepStates(st.gamepadAxisStates, GamepadAxisIds(snap), snap.gamepadAxisMovement);
    AxisSweepEvents(st.gamepadAxisStates, GamepadAxisIds(snap), snap.gamepadAxisMovement);
  }

  /**
   * Mouse position: with the callback set, the stored position becomes the
   * reading; a report is made exactly when it differs from the stored one,
   * carrying the new position and the offset that leads to it from the old.
   */
  lemma MousePositionPhaseLaw(st: InputState, cb: Bindings, snap: Snapshot)
    ensures var r := MousePositionPhase(st, cb, snap);
      && r.state.(mousePosition := st.mousePosition) == st
      && r.state.mousePosition == (if cb.mousePosition then snap.mousePosition else st.mousePosition)
      && (r.events != [] <==> cb.mousePosition && snap.mousePosition != st.mousePosition)
      && (r.events != [] ==>
            && |r.events| == 1 && r.events[0].MousePositionEvent?
            && r.events[0].position == snap.mousePosition
            && Add(st.mousePosition, r.events[0].offset) == snap.mousePosition)
  {
  }

  // ---------------------------------------------------------------------------
  // Whole polls.

  /**
   * Unfocused and not asked to poll anyway (the default): nothing is read,
   * nothing changes, nothing is reported.
   */
  lemma UnfocusedPollIsNoOp(st: InputState, cb: Bindings, snap: Snapshot)
    requires !snap.windowFocused
    ensures Poll(st, cb, snap, false) == Step(st, [])
  {
  }

  /** A freshly constructed poller, whose callbacks are all unset, reports nothing and keeps its state. */
  lemma FreshPollerIsSilent(snap: Snapshot, whileUnfocused: bool)
    ensures Poll(Initial, Unbound, snap, whileUnfocused) == Step(Initial, [])
  {
  }

  /**
   * The first poll of a fresh poller fires on first observation: every key,
   * every mouse button and every button of every available gamepad is
   * reported once, in loop order, with its reading.
   */
  lemma FirstSweepReportsEveryId(cb: Bindings, snap: Snapshot)
    ensures cb.keyboard ==> KeyboardPhase(Initial, cb, snap).events == Announce(KeyIds(), snap.isKeyDown, KeyNotice)
    ensures cb.mouseButton ==>
      MouseButtonPhase(Initial, cb, snap).events == Announce(MouseButtonIds(), snap.isMouseButtonDown, MouseButtonNotice)
    ensures cb.gamepadButton ==>
      GamepadButtonPhase(Initial, cb, snap).events
        == Announce(GamepadButtonIds(snap), snap.isGamepadButtonDown, GamepadButtonNotice)
  {
    RangeLaw(KeyNull, KeyKpEqual + 1);
    SweepLaw(map[], KeyIds(), snap.isKeyDown);
    FiredFromEmpty(KeyIds(), snap.isKeyDown);
    RangeLaw(MouseButtonLeft, MouseButtonExtra + 1);
    SweepLaw(map[], MouseButtonIds(), snap.isMouseButtonDown);
    FiredFromEmpty(MouseButtonIds(), snap.isMouseButtonDown);
    GamepadIdsLaw(snap.isGamepadAvailable, MaxGamepads, GamepadButtonRightThumb + 1);
    SweepLaw(map[], GamepadButtonIds(snap), snap.isGamepadButtonDown);
    FiredFromEmpty(GamepadButtonIds(snap), snap.isGamepadButtonDown);
  }

  /**
   * Each section reads and writes only its own part of the state, so the
   * reports of a polled frame are the six sections' reports on the state
   * from before the poll, in section order.
   */
  lemma PollBySection(st: InputState, cb: Bindings, snap: Snapshot, whileUnfocused: bool)
    requires whileUnfocused || snap.windowFocused
    ensures Poll(st, cb, snap, whileUnfocused).events
      == KeyboardPhase(st, cb, snap).events + MouseButtonPhase(st, cb, snap).events
       + GamepadButtonPhase(st, cb, snap).events + MouseWheelPhase(st, cb, snap).events
       + GamepadAxisPhase(st, cb, snap).events + MousePositionPhase(st, cb, snap).events
  {
    var keys := KeyboardPhase(st, cb, snap);
    var mouse := MouseButtonPhase(keys.state, cb, snap);
    var pads := GamepadButtonPhase(mouse.state, cb, snap);
    var wheel := MouseWheelPhase(pads.state, cb, snap);
    var axes := GamepadAxisPhase(wheel.state, cb, snap);
    assert keys.state.(keyboardStates := st.keyboardStates) == st;
    assert mouse.state.(mouseButtonStates := keys.state.mouseButtonStates) == keys.state;
    assert pads.state.(gamepadButtonStates := mouse.state.gamepadButtonStates) == mouse.state;
    assert wheel.state.(mouseWheelValue := pads.state.mouseWheelValue) == pads.state;
    assert axes.state.(gamepadAxisStates := wheel.state.gamepadAxisStates) == wheel.state;
    assert mouse.events == MouseButtonPhase(st, cb, snap).events;
    assert pads.events == GamepadButtonPhase(st, cb, snap).events;
    assert wheel.events == MouseWheelPhase(st, cb, snap).events;
    assert axes.events == GamepadAxisPhase(st, cb, snap).events;
    assert MousePositionPhase(axes.state, cb, snap).events == MousePositionPhase(st, cb, snap).events;
  }

  /**
   * The whole first poll of a fresh poller, section by section: every swept
   * key, mouse button and gamepad button is reported once with its reading,
   * a nonzero wheel movement is reported as (movement, movement), every moved
   * gamepad axis as (movement, movement), and the pointer unless it is at
   * (0, 0), with offset equal to its position.
   */
  lemma FirstPollReports(cb: Bindings, snap: Snapshot, whileUnfocused: bool)
    requires whileUnfocused || snap.windowFocused
    ensures var move := snap.gamepadAxisMovement;
      var p := snap.mousePosition;
      Poll(Initial, cb, snap, whileUnfocused).events
        == (if cb.keyboard then Announce(KeyIds(), snap.isKeyDown, KeyNotice) else [])
         + (if cb.mouseButton then Announce(MouseButtonIds(), snap.isMouseButtonDown, MouseButtonNotice) else [])
         + (if cb.gamepadButton then Announce(GamepadButtonIds(snap), snap.isGamepadButtonDown, GamepadButtonNotice) else [])
         + (if cb.mouseWheel && snap.mouseWheelMove != 0.0 then [MouseWheelEvent(snap.mouseWheelMove, snap.mouseWheelMove)] else [])
         + (if cb.gamepadAxis then AxisNotices(Moved(GamepadAxisIds(snap), move), map[], move) else [])
         + (if cb.mousePosition && p != Origin then [MousePositionEvent(p, p)] else [])
  {
    PollBySection(Initial, cb, snap, whileUnfocused);
    FirstSweepReportsEveryId(cb, snap);
    assert GamepadAxisPhase(Initial, cb, snap).events
      == if cb.gamepadAxis then AxisNotices(Moved(GamepadAxisIds(snap), snap.gamepadAxisMovement), map[], snap.gamepadAxisMovement) else [] by {
      GamepadAxisPhaseLaw(Initial, cb, snap);
    }
    assert Sub(snap.mousePosition, Origin) == snap.mousePosition;
  }

  /**
   * The stored position starts at (0, 0): the first position poll with only
   * the position callback set reports unless the pointer is exactly at
   * (0, 0), and then with offset equal to the position.
   */
  lemma FirstPositionPoll(snap: Snapshot)
    requires snap.windowFocused
    ensures var cb := Unbound.(mousePosition := true);
      Poll(Initial, cb, snap, false).events
        == if snap.mousePosition != Origin then [MousePositionEvent(snap.mousePosition, snap.mousePosition)] else []
  {
    var cb := Unbound.(mousePosition := true);
    assert KeyboardPhase(Initial, cb, snap) == Step(Initial, []);
    assert MouseButtonPhase(Initial, cb, snap) == Step(Initial, []);
    assert GamepadButtonPhase(Initial, cb, snap) == Step(Initial, []);
    assert MouseWheelPhase(Initial, cb, snap) == Step(Initial, []);
    assert GamepadAxisPhase(Initial, cb, snap) == Step(Initial, []);
    var p := snap.mousePosition;
    assert Sub(p, Origin) == p;
  }

  /** Every bound discrete table holds the snapshot's readings and a bound position callback has seen the pointer. */
  ghost predicate Settled(st: InputState, cb: Bindings, snap: Snapshot) {
    && (cb.keyboard ==> forall k :: KeyNull <= k <= KeyKpEqual ==>
          k in st.keyboardStates && st.keyboardStates[k] == snap.isKeyDown(k))
    && (cb.mouseButton ==> forall m :: MouseButtonLeft <= m <= MouseButtonExtra ==>
          m in st.mouseButtonStates && st.mouseButtonStates[m] == snap.isMouseButtonDown(m))
    && (cb.gamepadButton ==> forall p :: Swept(snap, p, GamepadButtonRightThumb + 1) ==>
          p in st.gamepadButtonStates && st.gamepadButtonStates[p] == snap.isGamepadButtonDown(p))
    && (cb.mousePosition ==> st.mousePosition == snap.mousePosition)
  }

  /** A polled frame leaves the state settled on that frame's readings. */
  lemma PollSettles(st: InputState, cb: Bindings, snap: Snapshot, whileUnfocused: bool)
    requires whileUnfocused || snap.windowFocused
    ensures Settled(Poll(st, cb, snap, whileUnfocused).state, cb, snap)
  {
    var keys := KeyboardPhase(st, cb, snap);
    var mouse := MouseButtonPhase(keys.state, cb, snap);
    var pads := GamepadButtonPhase(mouse.state, cb, snap);
    var wheel := MouseWheelPhase(pads.state, cb, snap);
    var axes := GamepadAxisPhase(wheel.state, cb, snap);
    var position := MousePositionPhase(axes.state, cb, snap);
    KeyboardPhaseLaw(st, cb, snap);
    MouseButtonPhaseLaw(keys.state, cb, snap);
    GamepadButtonPhaseLaw(mouse.state, cb, snap);
    MouseWheelPhaseLaw(pads.state, cb, snap);
    GamepadAxisPhaseLaw(wheel.state, cb, snap);
    MousePositionPhaseLaw(axes.state, cb, snap);
    assert Poll(st, cb, snap, whileUnfocused).state == position.state;
  }

  /**
   * Polling a settled state changes nothing and reports nothing, provided a
   * bound wheel does not move and no swept axis moves when axes are bound.
   */
  lemma SettledPollIsQuiet(st: InputState, cb: Bindings, snap: Snapshot, whileUnfocused: bool)
    requires Settled(st, cb, snap)
    requires cb.mouseWheel ==> snap.mouseWheelMove == 0.0
    requires cb.gamepadAxis ==> forall p :: Swept(snap, p, GamepadAxisRightTrigger + 1) ==> snap.gamepadAxisMovement(p) == 0.0
    ensures Poll(st, cb, snap, whileUnfocused) == Step(st, [])
  {
    assert KeyboardPhase(st, cb, snap) == Step(st, []) by {
      if cb.keyboard {
        RangeLaw(KeyNull, KeyKpEqual + 1);
        SweepWhenSettled(st.keyboardStates, KeyIds(), snap.isKeyDown);
      }
    }
    assert MouseButtonPhase(st, cb, snap) == Step(st, []) by {
      if cb.mouseButton {
        RangeLaw(MouseButtonLeft, MouseButtonExtra + 1);
        SweepWhenSettled(st.mouseButtonStates, MouseButtonIds(), snap.isMouseButtonDown);
      }
    }
    assert GamepadButtonPhase(st, cb, snap) == Step(st, []) by {
      if cb.gamepadButton {
        GamepadIdsLaw(snap.isGamepadAvailable, MaxGamepads, GamepadButtonRightThumb + 1);
        SweepWhenSettled(st.gamepadButtonStates, GamepadButtonIds(snap), snap.isGamepadButtonDown);
      }
    }
    assert GamepadAxisPhase(st, cb, snap) == Step(st, []) by {
      if cb.gamepadAxis {
        GamepadIdsLaw(snap.isGamepadAvailable, MaxGamepads, GamepadAxisRightTrigger + 1);
        AxisSweepAtRest(st.gamepadAxisStates, GamepadAxisIds(snap), snap.gamepadAxisMovement);
      }
    }
    assert MouseWheelPhase(st, cb, snap) == Step(st, []);
    assert MousePositionPhase(st, cb, snap) == Step(st, []);
  }

  /**
   * Polling again with unchanged devices (and no movement of a bound wheel
   * or of a swept axis when axes are bound) reports nothing and changes nothing: every discrete table already
   * holds its readings and the position is already stored.
   */
  lemma RepollIsQuiet(st: InputState, cb: Bindings, snap: Snapshot, whileUnfocused: bool)
    requires cb.mouseWheel ==> snap.mouseWheelMove == 0.0
    requires cb.gamepadAxis ==> forall p :: Swept(snap, p, GamepadAxisRightTrigger + 1) ==> snap.gamepadAxisMovement(p) == 0.0
    ensures var once := Poll(st, cb, snap, whileUnfocused);
      Poll(once.state, cb, snap, whileUnfocused) == Step(once.state, [])
  {
    if whileUnfocused || snap.windowFocused {
      PollSettles(st, cb, snap, whileUnfocused);
      SettledPollIsQuiet(Poll(st, cb, snap, whileUnfocused).state, cb, snap, whileUnfocused);
    }
  }

  // ---------------------------------------------------------------------------
  // Successive polls, one per frame.

  /** PollEvents called once per snapshot, in order: the final state and every report. */
  function PollRun(st: InputState, cb: Bindings, snaps: seq<Snapshot>, whileUnfocused: bool): Step<InputState>
    decreases |snaps|
  {
    if snaps == [] then Step(st, [])
    else
      var r := PollRun(st, cb, snaps[..|snaps| - 1], whileUnfocused);
      var s := Poll(r.state, cb, snaps[|snaps| - 1], whileUnfocused);
      Step(s.state, r.events + s.events)
  }

  /** The wheel movements of the frames that are polled (focused, or polled while unfocused). */
  function WheelSum(snaps: seq<Snapshot>, whileUnfocused: bool): real
    decreases |snaps|
  {
    if snaps == [] then 0.0
    else
      var snap := snaps[|snaps| - 1];
      WheelSum(snaps[..|snaps| - 1], whileUnfocused)
        + (if whileUnfocused || snap.windowFocused then snap.mouseWheelMove else 0.0)
  }

  /** One poll moves the wheel total by the frame's movement, when the frame is polled and the callback set. */
  lemma PollWheel(st: InputState, cb: Bindings, snap: Snapshot, whileUnfocused: bool)
    ensures Poll(st, cb, snap, whileUnfocused).state.mouseWheelValue
      == st.mouseWheelValue + (if cb.mouseWheel && (whileUnfocused || snap.windowFocused) then snap.mouseWheelMove else 0.0)
  {
  }

  /** Over any run of frames with the wheel callback set, the wheel total grows by exactly the polled movements. */
  lemma {:induction false} WheelTotalIsSum(st: InputState, cb: Bindings, snaps: seq<Snapshot>, whileUnfocused: bool)
    requires cb.mouseWheel
    ensures PollRun(st, cb, snaps, whileUnfocused).state.mouseWheelValue == st.mouseWheelValue + WheelSum(snaps, whileUnfocused)
    decreases |snaps|
  {
    if snaps != [] {
      var init := snaps[..|snaps| - 1];
      WheelTotalIsSum(st, cb, init, whileUnfocused);
      PollWheel(PollRun(st, cb, init, whileUnfocused).state, cb, snaps[|snaps| - 1], whileUnfocused);
    }
  }

  /** Frames spent unfocused under the default leave the state and the reports untouched. */
  lemma {:induction false} UnfocusedRunIsNoOp(st: InputState, cb: Bindings, snaps: seq<Snapshot>)
    requires forall i :: 0 <= i < |snaps| ==> !snaps[i].windowFocused
    ensures PollRun(st, cb, snaps, false) == Step(st, [])
    decreases |snaps|
  {
    if snaps != [] {
      UnfocusedRunIsNoOp(st, cb, snaps[..|snaps| - 1]);
    }
  }

  /**
   * Regaining focus: the first focused poll after any number of unfocused
   * frames compares against the state from before focus was lost.
   */
  lemma RefocusUsesOldBaseline(st: InputState, cb: Bindings, unfocused: seq<Snapshot>, snap: Snapshot)
    requires forall i :: 0 <= i < |unfocused| ==> !unfocused[i].windowFocused
    ensures PollRun(st, cb, unfocused + [snap], false) == Poll(st, cb, snap, false)
  {
    UnfocusedRunIsNoOp(st, cb, unfocused);
    assert (unfocused + [snap])[..|unfocused|] == unfocused;
  }

  class BufferedInput {
    // Direct callback slots: whether each is set.
    var keyboardCallback: bool
    var mouseButtonCallback: bool
    var gamepadButtonCallback: bool
    var mouseWheelCallback: bool
    var gamepadAxisCallback: bool
    var mousePositionCallback: bool

    // Internal state tracking.
    var mouseWheelValue: real
    var mousePosition: Vec2
    var keyboardStates: map<int, bool>
    var mouseButtonStates: map<int, bool>
    var gamepadButtonStates: map<(int, int), bool>
    var gamepadAxisStates: map<(int, int), real>

    function Bound(): Bindings
      reads this
    {
      Bindings(keyboardCallback, mouseButtonCallback, gamepadButtonCallback,
               mouseWheelCallback, gamepadAxisCallback, mousePositionCallback)
    }

    function State(): InputState
      reads this
    {
      InputState(mouseWheelValue, mousePosition, keyboardStates, mouseButtonStates,
                 gamepadButtonStates, gamepadAxisStates)
    }

    /** The member initialisers: no callback set, zero wheel total, position (0, 0), empty tables. */
    constructor ()
      ensures Bound() == Unbound
      ensures State() == Initial
    {
      keyboardCallback, mouseButtonCallback, gamepadButtonCallback := false, false, false;
      mouseWheelCallback, gamepadAxisCallback, mousePositionCallback := false, false, false;
      mouseWheelValue := 0.0;
      mousePosition := Vec2(0.0, 0.0);
      keyboardStates, mouseButtonStates := map[], map[];
      gamepadButtonStates, gamepadAxisStates := map[], map[];
    }

    /** Polls every bound category and returns the callback invocations in the order they happen. */
    method PollEvents(snap: Snapshot, whileUnfocused: bool := false) returns (events: seq<Event>)
      modifies this
      ensures Bound() == old(Bound())
      ensures State() == Poll(old(State()), old(Bound()), snap, whileUnfocused).state
      ensures events == Poll(old(State()), old(Bound()), snap, whileUnfocused).events
    {
      events := [];
      if !whileUnfocused && !snap.windowFocused {
        return;
      }
      var keys := PollKeyboard(snap);
      var mouse := PollMouseButtons(snap);
      var pads := PollGamepadButtons(snap);
      var wheel := PollMouseWheel(snap);
      var axes := PollGamepadAxes(snap);
      var position := PollMousePosition(snap);
      events := keys + mouse + pads + wheel + axes + position;
    }

    /** Poll keyboard keys. */
    method PollKeyboard(snap: Snapshot) returns (events: seq<Event>)
      modifies this
      ensures Bound() == old(Bound())
      ensures State() == KeyboardPhase(old(State()), old(Bound()), snap).state
      ensures events == KeyboardPhase(old(State()), old(Bound()), snap).events
    {
      events := [];
      if keyboardCallback {
        keyboardStates, events := SweepRange(keyboardStates, KeyNull, KeyKpEqual, snap.isKeyDown, KeyNotice);
      }
    }

    /** Poll mouse buttons. */
    method PollMouseButtons(snap: Snapshot) returns (events: seq<Event>)
      modifies this
      ensures Bound() == old(Bound())
      ensures State() == MouseButtonPhase(old(State()), old(Bound()), snap).state
      ensures events == MouseButtonPhase(old(State()), old(Bound()), snap).events
    {
      events := [];
      if mouseButtonCallback {
        mouseButtonStates, events := SweepRange(mouseButtonStates, MouseButtonLeft, MouseButtonExtra, snap.isMouseButtonDown, MouseButtonNotice);
      }
    }

    /** Poll gamepad buttons. */
    method PollGamepadButtons(snap: Snapshot) returns (events: seq<Event>)
      modifies this
      ensures Bound() == old(Bound())
      ensures State() == GamepadButtonPhase(old(State()), old(Bound()), snap).state
      ensures events == GamepadButtonPhase(old(State()), old(Bound()), snap).events
    {
      events := [];
      if gamepadButtonCallback {
        gamepadButtonStates, events := SweepGamepadButtons(gamepadButtonStates, snap);
      }
    }

    /** Poll mouse wheel. */
    method PollMouseWheel(snap: Snapshot) returns (events: seq<Event>)
      modifies this
      ensures Bound() == old(Bound())
      ensures State() == MouseWheelPhase(old(State()), old(Bound()), snap).state
      ensures events == MouseWheelPhase(old(State()), old(Bound()), snap).events
    {
      events := [];
      if mouseWheelCallback {
        var movement := snap.mouseWheelMove;
        if movement != 0.0 {
          mouseWheelValue := mouseWheelValue + movement;
          var delta := movement;
          events := [MouseWheelEvent(mouseWheelValue, delta)];
        }
      }
    }

    /** Poll gamepad axes. */
    method PollGamepadAxes(snap: Snapshot) returns (events: seq<Event>)
      modifies this
      ensures Bound() == old(Bound())
      ensures State() == GamepadAxisPhase(old(State()), old(Bound()), snap).state
      ensures events == GamepadAxisPhase(old(State()), old(Bound()), snap).events
    {
      events := [];
      if gamepadAxisCallback {
        gamepadAxisStates, events := SweepGamepadAxes(gamepadAxisStates, snap);
      }
    }

    /** Poll mouse position. */
    method PollMousePosition(snap: Snapshot) returns (events: seq<Event>)
      modifies this
      ensures Bound() == old(Bound())
      ensures State() == MousePositionPhase(old(State()), old(Bound()), snap).state
      ensures events == MousePositionPhase(old(State()), old(Bound()), snap).events
    {
      events := [];
      if mousePositionCallback {
        var newPos := snap.mousePosition;
        if newPos != mousePosition {
          var delta := Sub(newPos, mousePosition);
          mousePosition := newPos;
          events := [MousePositionEvent(newPos, delta)];
        }
      }
    }
  }
}
