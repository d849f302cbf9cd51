/**
 * Action: one logical gesture built from buttons or continuous sources, with
 * its own last observed state and its own six callback slots. Each pump reads
 * the current state from a device snapshot, compares it with the stored
 * state, emits callback invocations and commits. The pure functions below say
 * what one pump does; the class's methods carry it out step by step.
 */
module Actions {
  import opened Devices
  import opened Buttons

  /** One gamepad axis: (gamepad id, axis id). */
  datatype AxisRef = AxisRef(id: int, axis: int)

  datatype AxisSource = GamepadAxis(gamepad: AxisRef) | MouseWheel

  datatype VectorSource =
    | MouseWheelVector
    | MousePosition
    | GamepadAxes(horizontal: AxisRef, vertical: AxisRef)

  datatype MultiType = QuadButtons | ButtonPair

  /** The direction sets of a multi-button, indexed by Up, Down, Left, Right. */
  type Directions = s: seq<ButtonSet> | |s| == 4 witness NoDirections()

  function NoDirections(): seq<ButtonSet> {
    var none: ButtonSet := [];
    [none, none, none, none]
  }

  const Up := 0
  const Down := 1
  const Left := 2
  const Right := 3

  /** The tagged payload of an Action; `Invalid` is the unset tag. */
  datatype Data =
    | Invalid
    | ButtonData(buttons: ButtonSet, combo: bool, pressedLast: nat)
    | AxisData(axisSource: AxisSource, axisLast: real)
    | VectorData(vectorSource: VectorSource, vectorLast: Vec2)
    | MultiData(multiType: MultiType, directions: Directions, normalize: bool, multiLast: Vec2)

  /** Which of an Action's six callback slots are set. */
  datatype Callbacks = Callbacks(
    keyboard: bool, mouseButton: bool, gamepadButton: bool,
    mouseWheel: bool, gamepadAxis: bool, vector: bool)

  // ---------------------------------------------------------------------------
  // Button actions

  /** The callback invocation a member button receives, carrying `flag` as isDown. */
  function Notice(b: Button, flag: bool): Event {
    match b
    case Keyboard(k) => KeyboardEvent(k, flag)
    case Mouse(m) => MouseButtonEvent(m, flag)
    case Gamepad(id, button) => GamepadButtonEvent(id, button, flag)
  }

  /** Whether the callback slot of the member's own category is set. */
  predicate IsBound(b: Button, cb: Callbacks) {
    match b
    case Keyboard(_) => cb.keyboard
    case Mouse(_) => cb.mouseButton
    case Gamepad(_, _) => cb.gamepadButton
  }

  /** The invocations of the loop over a set: each member whose category callback is set, in set order. */
  function MemberEvents(buttons: seq<Button>, flag: bool, cb: Callbacks): (r: seq<Event>)
    ensures |r| <= |buttons|
    decreases |buttons|
  {
    if buttons == [] then []
    else
      var b := buttons[|buttons| - 1];
      MemberEvents(buttons[..|buttons| - 1], flag, cb) + (if IsBound(b, cb) then [Notice(b, flag)] else [])
  }

  /**
   * Every invocation carries `flag`; a member is announced exactly when its
   * category callback is set; with all three button callbacks set, the i-th
   * invocation is the i-th member's.
   */
  lemma {:induction false} MemberEventsLaw(buttons: seq<Button>, flag: bool, cb: Callbacks)
    ensures forall e :: e in MemberEvents(buttons, flag, cb) ==>
      (e.KeyboardEvent? || e.MouseButtonEvent? || e.GamepadButtonEvent?) && e.isDown == flag
    ensures forall b :: b in buttons && IsBound(b, cb) <==> Notice(b, flag) in MemberEvents(buttons, flag, cb)
    ensures cb.keyboard && cb.mouseButton && cb.gamepadButton ==>
      |MemberEvents(buttons, flag, cb)| == |buttons| &&
      forall i :: 0 <= i < |buttons| ==> MemberEvents(buttons, flag, cb)[i] == Notice(buttons[i], flag)
    decreases |buttons|
  {
    if buttons != [] {
      var init := buttons[..|buttons| - 1];
      var b := buttons[|buttons| - 1];
      assert buttons == init + [b];
      MemberEventsLaw(init, flag, cb);
      forall b' | Notice(b', flag) in MemberEvents(buttons, flag, cb) ensures b' in buttons && IsBound(b', cb) {
        if Notice(b', flag) !in MemberEvents(init, flag, cb) {
          assert Notice(b', flag) == Notice(b, flag);
        }
      }
    }
  }

  /** Action::PumpButton: plain and combo chord detection over the pressed count. */
  function ButtonPump(buttons: ButtonSet, combo: bool, last: nat, cb: Callbacks, snap: Snapshot): (r: Step<nat>)
    ensures r.state == SetPressed(buttons, snap)
    ensures |r.events| <= |buttons|
  {
    var state := SetPressed(buttons, snap);
    if state == last then Step(last, [])
    else if combo then
      var comboState := state == |buttons|;
      var lastComboState := last == |buttons|;
      Step(state, if comboState != lastComboState then MemberEvents(buttons, comboState, cb) else [])
    else Step(state, MemberEvents(buttons, state > 0, cb))
  }

  /** An unchanged count emits nothing and keeps the stored count; a changed one is committed on either branch. */
  lemma ButtonPumpCommits(buttons: ButtonSet, combo: bool, last: nat, cb: Callbacks, snap: Snapshot)
    ensures SetPressed(buttons, snap) == last ==> ButtonPump(buttons, combo, last, cb, snap) == Step(last, [])
    ensures SetPressed(buttons, snap) != last ==> ButtonPump(buttons, combo, last, cb, snap).state == SetPressed(buttons, snap)
    ensures ButtonPump(buttons, combo, last, cb, snap).state < 256
  {
  }

  /**
   * Plain chord: on any change of the count every bound member is announced,
   * with isDown = (count > 0), whether or not that member moved.
   */
  lemma PlainButtonAnnouncesChord(buttons: ButtonSet, last: nat, cb: Callbacks, snap: Snapshot)
    requires SetPressed(buttons, snap) != last
    ensures var r := ButtonPump(buttons, false, last, cb, snap);
      && r.events == MemberEvents(buttons, SetPressed(buttons, snap) > 0, cb)
      && (forall b :: b in buttons && IsBound(b, cb) ==> Notice(b, SetPressed(buttons, snap) > 0) in r.events)
      && (forall e :: e in r.events ==>
            (e.KeyboardEvent? || e.MouseButtonEvent? || e.GamepadButtonEvent?) && e.isDown == (SetPressed(buttons, snap) > 0))
  {
    MemberEventsLaw(buttons, SetPressed(buttons, snap) > 0, cb);
  }

  /**
   * Combo: invocations happen only when "count == set size" differs between the
   * stored and the new count, and then carry the new all-pressed flag; a change
   * that stays on one side of the threshold is committed silently.
   */
  lemma ComboFiresOnCrossing(buttons: ButtonSet, last: nat, cb: Callbacks, snap: Snapshot)
    ensures var state := SetPressed(buttons, snap);
      var r := ButtonPump(buttons, true, last, cb, snap);
      && (r.events != [] ==> (state == |buttons|) != (last == |buttons|))
      && ((state == |buttons|) != (last == |buttons|) ==> r.events == MemberEvents(buttons, state == |buttons|, cb))
      && (state != last && (state == |buttons|) == (last == |buttons|) ==> r == Step(state, []))
  {
  }

  /**
   * A two-button combo: pressing one member alone is silent, pressing both then
   * announces `true` to the bound members, and releasing one announces `false`.
   */
  lemma {:induction false} TwoButtonCombo(buttons: ButtonSet, cb: Callbacks, one: Snapshot, both: Snapshot)
    requires |buttons| == 2
    requires IsPressed(buttons[0], one) && !IsPressed(buttons[1], one)
    requires IsPressed(buttons[0], both) && IsPressed(buttons[1], both)
    ensures var r1 := ButtonPump(buttons, true, 0, cb, one);
      var r2 := ButtonPump(buttons, true, r1.state, cb, both);
      var r3 := ButtonPump(buttons, true, r2.state, cb, one);
      && r1 == Step(1, [])
      && r2 == Step(2, MemberEvents(buttons, true, cb))
      && r3 == Step(1, MemberEvents(buttons, false, cb))
  {
    assert buttons[..1][..0] == [];
    assert buttons[..1][0] == buttons[0];
    assert buttons[..|buttons| - 1] == buttons[..1];
    assert CountPressed(buttons[..1], one) == 1;
    assert CountPressed(buttons[..1], both) == 1;
    assert SetPressed(buttons, one) == 1;
    assert SetPressed(buttons, both) == 2;
  }

  // ---------------------------------------------------------------------------
  // Axis actions

  /** This frame's movement of an axis source. */
  function Movement(source: AxisSource, snap: Snapshot): real {
    match source
    case GamepadAxis(a) => snap.gamepadAxisMovement((a.id, a.axis))
    case MouseWheel => snap.mouseWheelMove
  }

  /** Action::PumpAxis: a running sum of the source's movements, reported as (total, delta). */
  function AxisPump(source: AxisSource, last: real, cb: Callbacks, snap: Snapshot): (r: Step<real>)
    ensures r.state == last + Movement(source, snap)
    ensures |r.events| <= 1
  {
    var movement := Movement(source, snap);
    var state := if movement != 0.0 then last + movement else last;
    if state == last then Step(last, [])
    else
      var delta := state - last;
      match source
      case GamepadAxis(a) => Step(state, if cb.gamepadAxis then [GamepadAxisEvent(a.id, a.axis, state, delta)] else [])
      case MouseWheel => Step(state, if cb.mouseWheel then [MouseWheelEvent(state, delta)] else [])
  }

  /**
   * The movement is added into the total; zero movement emits nothing; a
   * nonzero one is committed even with no callback set, and reported with
   * delta equal to the movement.
   */
  lemma AxisPumpLaw(source: AxisSource, last: real, cb: Callbacks, snap: Snapshot)
    ensures var m := Movement(source, snap);
      var r := AxisPump(source, last, cb, snap);
      && r.state == last + m
      && (m == 0.0 ==> r.events == [])
      && (source.MouseWheel? && m != 0.0 ==> r.events == if cb.mouseWheel then [MouseWheelEvent(last + m, m)] else [])
      && (source.GamepadAxis? && m != 0.0 ==>
            r.events == if cb.gamepadAxis then [GamepadAxisEvent(source.gamepad.id, source.gamepad.axis, last + m, m)] else [])
  {
  }

  /** Pump an axis action once per snapshot, in order. */
  function AxisRun(source: AxisSource, last: real, cb: Callbacks, snaps: seq<Snapshot>): Step<real>
    decreases |snaps|
  {
    if snaps == [] then Step(last, [])
    else
      var r := AxisRun(source, last, cb, snaps[..|snaps| - 1]);
      var s := AxisPump(source, r.state, cb, snaps[|snaps| - 1]);
      Step(s.state, r.events + s.events)
  }

  function MovementSum(source: AxisSource, snaps: seq<Snapshot>): real
    decreases |snaps|
  {
    if snaps == [] then 0.0 else MovementSum(source, snaps[..|snaps| - 1]) + Movement(source, snaps[|snaps| - 1])
  }

  /** Accumulator law: after K pumps the reported total is the start value plus the sum of the K movements. */
  lemma {:induction false} AxisRunSums(source: AxisSource, last: real, cb: Callbacks, snaps: seq<Snapshot>)
    ensures AxisRun(source, last, cb, snaps).state == last + MovementSum(source, snaps)
    decreases |snaps|
  {
    if snaps != [] {
      AxisRunSums(source, last, cb, snaps[..|snaps| - 1]);
      AxisPumpLaw(source, AxisRun(source, last, cb, snaps[..|snaps| - 1]).state, cb, snaps[|snaps| - 1]);
    }
  }

  // ---------------------------------------------------------------------------
  // Vector actions

  /** The vector an Action::PumpVector computes: absolute for the mouse sources, cumulative for a gamepad pair. */
  function VectorState(source: VectorSource, last: Vec2, snap: Snapshot): Vec2 {
    match source
    case MouseWheelVector => snap.mouseWheelMoveV
    case MousePosition => snap.mousePosition
    case GamepadAxes(h, v) =>
      Vec2(last.x + snap.gamepadAxisMovement((h.id, h.axis)), last.y + snap.gamepadAxisMovement((v.id, v.axis)))
  }

  /** Report (vector, delta) when the vector differs from the stored one, and commit it. */
  function VectorChange(state: Vec2, last: Vec2, cb: Callbacks): (r: Step<Vec2>)
    ensures r.state == state
    ensures r.events != [] <==> state != last && cb.vector
    ensures |r.events| <= 1
  {
    if state == last then Step(last, [])
    else Step(state, if cb.vector then [VectorEvent(state, Sub(state, last))] else [])
  }

  /** Action::PumpVector. */
  function VectorPump(source: VectorSource, last: Vec2, cb: Callbacks, snap: Snapshot): (r: Step<Vec2>)
    ensures r.state == VectorState(source, last, snap)
  {
    VectorChange(VectorState(source, last, snap), last, cb)
  }

  /**
   * A vector pump commits the computed vector, reports only when it differs
   * from the stored one, with delta such that stored + delta = vector.
   */
  lemma VectorPumpLaw(source: VectorSource, last: Vec2, cb: Callbacks, snap: Snapshot)
    ensures var state := VectorState(source, last, snap);
      var r := VectorPump(source, last, cb, snap);
      && r.state == state
      && (r.events != [] <==> state != last && cb.vector)
      && (forall e :: e in r.events ==> e == VectorEvent(state, e.offset) && Add(last, e.offset) == state)
  {
  }

  /** Pump a vector action once per snapshot, in order. */
  function VectorRun(source: VectorSource, last: Vec2, cb: Callbacks, snaps: seq<Snapshot>): Step<Vec2>
    decreases |snaps|
  {
    if snaps == [] then Step(last, [])
    else
      var r := VectorRun(source, last, cb, snaps[..|snaps| - 1]);
      var s := VectorPump(source, r.state, cb, snaps[|snaps| - 1]);
      Step(s.state, r.events + s.events)
  }

  /**
   * A gamepad-axes vector accumulates: after K pumps each component is its
   * start value plus the sum of its own axis's K movements.
   */
  lemma {:induction false} GamepadVectorRunSums(h: AxisRef, v: AxisRef, last: Vec2, cb: Callbacks, snaps: seq<Snapshot>)
    ensures VectorRun(GamepadAxes(h, v), last, cb, snaps).state
      == Vec2(last.x + MovementSum(GamepadAxis(h), snaps), last.y + MovementSum(GamepadAxis(v), snaps))
    decreases |snaps|
  {
    if snaps != [] {
      var init := snaps[..|snaps| - 1];
      GamepadVectorRunSums(h, v, last, cb, init);
      VectorPumpLaw(GamepadAxes(h, v), VectorRun(GamepadAxes(h, v), last, cb, init).state, cb, snaps[|snaps| - 1]);
    }
  }

  // ---------------------------------------------------------------------------
  // Multi-button actions

  /** One direction's entry of buttonState: its pressed count, clamped to 1 under normalisation. */
  function DirectionState(members: ButtonSet, normalize: bool, snap: Snapshot): nat {
    var c := SetPressed(members, snap);
    if normalize && c > 0 then 1 else c
  }

  /** The buttonState array: the first 4 (quad) or 2 (pair) directions are read, the rest stay 0. */
  function DirectionStates(t: MultiType, dirs: Directions, normalize: bool, snap: Snapshot): (r: seq<nat>)
    ensures |r| == 4
  {
    var quad := t == QuadButtons;
    [DirectionState(dirs[Up], normalize, snap), DirectionState(dirs[Down], normalize, snap),
     if quad then DirectionState(dirs[Left], normalize, snap) else 0,
     if quad then DirectionState(dirs[Right], normalize, snap) else 0]
  }

  /** The direction vector: x = Left - Right, y = Up - Down; a pair copies y into x. */
  function MultiVector(t: MultiType, dirs: Directions, normalize: bool, snap: Snapshot): Vec2 {
    var bs := DirectionStates(t, dirs, normalize, snap);
    var y := bs[Up] as real - bs[Down] as real;
    var x := if t == QuadButtons then bs[Left] as real - bs[Right] as real else y;
    Vec2(x, y)
  }

  /** Action::PumpMultiButton. */
  function MultiPump(t: MultiType, dirs: Directions, normalize: bool, last: Vec2, cb: Callbacks, snap: Snapshot): (r: Step<Vec2>)
    ensures r.state == MultiVector(t, dirs, normalize, snap)
  {
    VectorChange(MultiVector(t, dirs, normalize, snap), last, cb)
  }

  /** 1 when some member of a direction set is held, else 0. */
  function Held(members: ButtonSet, snap: Snapshot): real {
    if SetPressed(members, snap) > 0 then 1.0 else 0.0
  }

  /**
   * Each component is the difference of its two direction counts, Left minus
   * Right for x and Up minus Down for y, each count clamped to 0 or 1 when
   * normalised. Normalised, every component is -1, 0 or 1 and holding both
   * opposite directions cancels to 0; in pair mode x always equals y; the pump
   * reports exactly when the vector differs from the stored one.
   */
  lemma MultiButtonLaw(t: MultiType, dirs: Directions, normalize: bool, last: Vec2, cb: Callbacks, snap: Snapshot)
    ensures var v := MultiVector(t, dirs, normalize, snap);
      && (normalize ==> v.x in {-1.0, 0.0, 1.0} && v.y in {-1.0, 0.0, 1.0})
      && (normalize && SetPressed(dirs[Up], snap) > 0 && SetPressed(dirs[Down], snap) > 0 ==> v.y == 0.0)
      && (normalize && t == QuadButtons && SetPressed(dirs[Left], snap) > 0 && SetPressed(dirs[Right], snap) > 0 ==> v.x == 0.0)
      && (t == ButtonPair ==> v.x == v.y)
      && (!normalize ==> v.y == SetPressed(dirs[Up], snap) as real - SetPressed(dirs[Down], snap) as real)
      && (!normalize && t == QuadButtons ==> v.x == SetPressed(dirs[Left], snap) as real - SetPressed(dirs[Right], snap) as real)
      && (normalize ==> v.y == Held(dirs[Up], snap) - Held(dirs[Down], snap))
      && (normalize && t == QuadButtons ==> v.x == Held(dirs[Left], snap) - Held(dirs[Right], snap))
      && MultiPump(t, dirs, normalize, last, cb, snap).state == v
      && (MultiPump(t, dirs, normalize, last, cb, snap).events != [] <==> v != last && cb.vector)
  {
  }

  /** Holding Up and Left on a normalised quad (W and A) gives (1, 1), not (2, 2) or more. */
  lemma UpLeftIsDiagonal(dirs: Directions, snap: Snapshot)
    requires SetPressed(dirs[Up], snap) > 0 && SetPressed(dirs[Left], snap) > 0
    requires SetPressed(dirs[Down], snap) == 0 && SetPressed(dirs[Right], snap) == 0
    ensures MultiVector(QuadButtons, dirs, true, snap) == Vec2(1.0, 1.0)
  {
  }

  // ---------------------------------------------------------------------------
  // Dispatch

  /** Action::PollEvents: run the pump that matches the tag and commit its state into the payload. */
  function Pump(d: Data, cb: Callbacks, snap: Snapshot): (r: Step<Data>)
    requires !d.Invalid?
  {
    match d
    case ButtonData(buttons, combo, last) =>
      var s := ButtonPump(buttons, combo, last, cb, snap);
      Step(d.(pressedLast := s.state), s.events)
    case AxisData(source, last) =>
      var s := AxisPump(source, last, cb, snap);
      Step(d.(axisLast := s.state), s.events)
    case VectorData(source, last) =>
      var s := VectorPump(source, last, cb, snap);
      Step(d.(vectorLast := s.state), s.events)
    case MultiData(t, dirs, normalize, last) =>
      var s := MultiPump(t, dirs, normalize, last, cb, snap);
      Step(d.(multiLast := s.state), s.events)
  }

  /** A pump keeps the tag and the configuration; it changes only the stored state. */
  lemma PumpKeepsConfiguration(d: Data, cb: Callbacks, snap: Snapshot)
    requires !d.Invalid?
    ensures var r := Pump(d, cb, snap).state;
      && (d.ButtonData? ==> r.ButtonData? && r.buttons == d.buttons && r.combo == d.combo)
      && (d.AxisData? ==> r.AxisData? && r.axisSource == d.axisSource)
      && (d.VectorData? ==> r.VectorData? && r.vectorSource == d.vectorSource)
      && (d.MultiData? ==> r.MultiData? && r.multiType == d.multiType && r.directions == d.directions && r.normalize == d.normalize)
  {
  }

  class Action {
    var data: Data
    var keyboardCallback: bool
    var mouseButtonCallback: bool
    var gamepadButtonCallback: bool
    var mouseWheelCallback: bool
    var gamepadAxisCallback: bool
    var vectorCallback: bool

    function Bound(): Callbacks
      reads this
    {
      Callbacks(keyboardCallback, mouseButtonCallback, gamepadButtonCallback,
                mouseWheelCallback, gamepadAxisCallback, vectorCallback)
    }

    /** An Action with the given payload and every callback slot unset. */
    constructor (d: Data)
      ensures data == d
      ensures Bound() == Callbacks(false, false, false, false, false, false)
    {
      data := d;
      keyboardCallback, mouseButtonCallback, gamepadButtonCallback := false, false, false;
      mouseWheelCallback, gamepadAxisCallback, vectorCallback := false, false, false;
    }

    /**
     * Action::gamepad_axes: a vector action over two gamepad axes, starting at
     * (0, 0); a negative vertical gamepad id means "the horizontal one".
     */
    constructor GamepadAxes(horizontal: int := GamepadAxisLeftX, vertical: int := GamepadAxisLeftY,
                            gamepadHorizontal: int := 0, gamepadVertical: int := -1)
      ensures data == VectorData(
        VectorSource.GamepadAxes(
          AxisRef(gamepadHorizontal, horizontal),
          AxisRef(if gamepadVertical < 0 then gamepadHorizontal else gamepadVertical, vertical)),
        Origin)
      ensures Bound() == Callbacks(false, false, false, false, false, false)
    {
      var gv := gamepadVertical;
      if gv < 0 {
        gv := gamepadHorizontal;
      }
      data := VectorData(VectorSource.GamepadAxes(AxisRef(gamepadHorizontal, horizontal), AxisRef(gv, vertical)), Vec2(0.0, 0.0));
      keyboardCallback, mouseButtonCallback, gamepadButtonCallback := false, false, false;
      mouseWheelCallback, gamepadAxisCallback, vectorCallback := false, false, false;
    }

    /** The loop of PumpButton that invokes, in set order, each member's category callback. */
    method AnnounceMembers(buttons: ButtonSet, flag: bool) returns (events: seq<Event>)
      ensures events == MemberEvents(buttons, flag, Bound())
    {
      events := [];
      for i := 0 to |buttons|
        invariant events == MemberEvents(buttons[..i], flag, Bound())
      {
        assert buttons[..i + 1][..i] == buttons[..i];
        var button := buttons[i];
        if button.Keyboard? && keyboardCallback {
          events := events + [KeyboardEvent(button.key, flag)];
        } else if button.Mouse? && mouseButtonCallback {
          events := events + [MouseButtonEvent(button.mouse, flag)];
        } else if button.Gamepad? && gamepadButtonCallback {
          events := events + [GamepadButtonEvent(button.id, button.button, flag)];
        }
      }
      assert buttons[..|buttons|] == buttons;
    }

    method PumpButton(snap: Snapshot) returns (events: seq<Event>)
      requires data.ButtonData?
      modifies this
      ensures Bound() == old(Bound())
      ensures var r := ButtonPump(old(data).buttons, old(data).combo, old(data).pressedLast, old(Bound()), snap);
        data == old(data).(pressedLast := r.state) && events == r.events
    {
      var state := IsSetPressed(data.buttons, snap);
      var isDown := state > 0;
      events := [];
      if state != data.pressedLast {
        if data.combo {
          var comboState := state == |data.buttons|;
          var lastComboState := data.pressedLast == |data.buttons|;
          if comboState != lastComboState {
            events := AnnounceMembers(data.buttons, comboState);
          }
        } else {
          events := AnnounceMembers(data.buttons, isDown);
        }
        data := data.(pressedLast := state);
      }
    }

    method PumpAxis(snap: Snapshot) returns (events: seq<Event>)
      requires data.AxisData?
      modifies this
      ensures Bound() == old(Bound())
      ensures var r := AxisPump(old(data).axisSource, old(data).axisLast, old(Bound()), snap);
        data == old(data).(axisLast := r.state) && events == r.events
    {
      var state := data.axisLast;
      events := [];
      match data.axisSource
      case GamepadAxis(a) =>
        var movement := snap.gamepadAxisMovement((a.id, a.axis));
        if movement != 0.0 {
          state := state + movement;
        }
        if state != data.axisLast {
          var delta := state - data.axisLast;
          if gamepadAxisCallback {
            events := [GamepadAxisEvent(a.id, a.axis, state, delta)];
          }
          data := data.(axisLast := state);
        }
      case MouseWheel =>
        var movement := snap.mouseWheelMove;
        if movement != 0.0 {
          state := state + movement;
        }
        if state != data.axisLast {
          var delta := state - data.axisLast;
          if mouseWheelCallback {
            events := [MouseWheelEvent(state, delta)];
          }
          data := data.(axisLast := state);
        }
    }

    method PumpVector(snap: Snapshot) returns (events: seq<Event>)
      requires data.VectorData?
      modifies this
      ensures Bound() == old(Bound())
      ensures var r := VectorPump(old(data).vectorSource, old(data).vectorLast, old(Bound()), snap);
        data == old(data).(vectorLast := r.state) && events == r.events
    {
      var state := data.vectorLast;
      match data.vectorSource {
        case MouseWheelVector =>
          state := snap.mouseWheelMoveV;
        case MousePosition =>
          state := snap.mousePosition;
        case GamepadAxes(h, v) =>
          state := state.(x := state.x + snap.gamepadAxisMovement((h.id, h.axis)));
          state := state.(y := state.y + snap.gamepadAxisMovement((v.id, v.axis)));
      }
      events := [];
      if state != data.vectorLast {
        var delta := Sub(state, data.vectorLast);
        if vectorCallback {
          events := [VectorEvent(state, delta)];
        }
        data := data.(vectorLast := state);
      }
    }

    method PumpMultiButton(snap: Snapshot) returns (events: seq<Event>)
      requires data.MultiData?
      modifies this
      ensures Bound() == old(Bound())
      ensures var r := MultiPump(old(data).multiType, old(data).directions, old(data).normalize, old(data).multiLast, old(Bound()), snap);
        data == old(data).(multiLast := r.state) && events == r.events
    {
      var t := data.multiType;
      var count := if t == QuadButtons then 4 else 2;
      var buttonState: seq<nat> := [0, 0, 0, 0];
      for i := 0 to count
        modifies {}
        invariant |buttonState| == 4
        invariant forall j :: 0 <= j < i ==> buttonState[j] == DirectionState(data.directions[j], data.normalize, snap)
        invariant forall j :: i <= j < 4 ==> buttonState[j] == 0
      {
        var c := IsSetPressed(data.directions[i], snap);
        if data.normalize && c > 0 {
          c := 1;
        }
        buttonState := buttonState[i := c];
      }
      assert buttonState == DirectionStates(t, data.directions, data.normalize, snap);
      ghost var v := MultiVector(t, data.directions, data.normalize, snap);
      var state := data.multiLast;
      if t == QuadButtons {
        state := state.(x := buttonState[Left] as real - buttonState[Right] as real);
      }
      state := state.(y := buttonState[Up] as real - buttonState[Down] as real);
      if t == ButtonPair {
        state := state.(x := state.y);
      }
      assert state == v;
      events := [];
      if state != data.multiLast {
        var delta := Sub(state, data.multiLast);
        if vectorCallback {
          events := [VectorEvent(state, delta)];
        }
        data := data.(multiLast := state);
      }
    }

    method PollEvents(snap: Snapshot) returns (events: seq<Event>)
      requires !data.Invalid?
      modifies this
      ensures Bound() == old(Bound())
      ensures data == Pump(old(data), old(Bound()), snap).state
      ensures events == Pump(old(data), old(Bound()), snap).events
    {
      match data
      case ButtonData(_, _, _) => events := PumpButton(snap);
      case AxisData(_, _) => events := PumpAxis(snap);
      case VectorData(_, _) => events := PumpVector(snap);
      case MultiData(_, _, _, _) => events := PumpMultiButton(snap);
    }
  }
}
