# BufferedRaylib input engine, modelled in Dafny

BufferedRaylib turns raylib's polled device queries into callbacks. Once per
frame the application calls a poll. The poll reads the devices, compares each
reading with the state it stored last time, calls a callback for every change
and stores the new readings. There are two pollers:

- **`BufferedInput`** is the category poller. It has one callback slot per
  device category: keyboard, mouse buttons, gamepad buttons, mouse wheel,
  gamepad axes and mouse position.
  - Keys, mouse buttons and gamepad buttons are swept over fixed id ranges.
    Each reading is compared with a per-id table. An id with no entry or a
    different entry fires, and its entry is overwritten.
  - The wheel and every (gamepad, axis) pair keep running totals.
  - The mouse position is compared with a stored position.
  - An unfocused window is not polled unless the caller asks for it.
- **`Action`** is one logical gesture:
  - a set of buttons, either plain or a combo;
  - a scalar axis;
  - a 2-D vector;
  - a 2- or 4-direction multi-button.
  Each Action has its own stored state and its own callback slots. Its
  `PollEvents` runs the pump that matches its tag.

In the model:

- Each frame's device answers are one `Snapshot` value (`devices.dfy`).
- Each callback invocation is an `Event` record, and a poll returns its events
  in the order the C++ loops would call the callbacks.
- A callback slot is a boolean: is it set or not.
- Float quantities are `real`.

The code changes state step by step, so each C++ class becomes a Dafny class
with the same fields and step-by-step methods:

- `Buffered.BufferedInput` has six callback flags, the wheel total, the
  position and four `map` tables.
- `Actions.Action` has a tagged `Data` payload and six callback flags.

Each method is proved equal to a pure function of the old state and the
snapshot: `Poll`, `ButtonPump`, `AxisPump`, `VectorPump`, `MultiPump` or
`Pump`. The properties the engine promises are lemmas about those functions:

- fire iff changed, and commit after compare;
- first observation fires;
- an immediate re-poll is quiet;
- the accumulators sum their movements;
- combo threshold crossing;
- the direction vector's value and bounds.

Files:

- `devices.dfy`: vectors, the snapshot, the events and the raylib id bounds.
- `buttons.dfy`: `Button`, its ordering, `IsPressed` and the 8-bit pressed count.
- `actions.dfy`: the `Action` pumps and their dispatch.
- `sweeps.dfy`: the generic sweep of an id sequence against a table, and the
  gamepad id sequences.
- `buffered.dfy`: `BufferedInput::PollEvents`, section by section, and the
  whole-poll and multi-frame laws.

## Model

| member | source | states |
|---|---|---|
| Buttons.Less | src/BufferedRaylib.cpp:19-26 | The comparator: buttons of different types order by type tag; two buttons of one gamepad order by button; otherwise by the leading union member (key, mouse button or gamepad id) |
| Buttons.IsPressed | src/BufferedRaylib.cpp:28-44 | Whether a button is held: the keyboard, mouse or gamepad query chosen by its type tag |
| Buttons.LessIsStrictTotalOrder | src/BufferedRaylib.cpp:19-26 | The button comparator (tag, then button within one gamepad, else leading id) is irreflexive, asymmetric, transitive and total on distinct buttons, so a `std::set<Button>` is a strictly increasing list |
| Buttons.OrderedSetIsDistinct | src/BufferedRaylib.cpp:19-26 | Two positions of an ordered button set never hold the same button |
| Buttons.CountPressedExtremes | src/BufferedRaylib.cpp:28-51 | The exact pressed count is 0 iff no member is held, and equals the list length iff every member is held |
| Buttons.SetPressed | src/BufferedRaylib.cpp:46-51 | The 8-bit pressed count is below 256, and equals the exact count when the set has fewer than 256 members |
| Buttons.IsSetPressed | src/BufferedRaylib.cpp:46-51 | The loop that sums `IsPressed` over the set in a `uint8_t` returns the pressed count modulo 256 |
| Buttons.SetPressedBounds | src/BufferedRaylib.cpp:46-51 | For a set of at most 255 buttons, the result lies between 0 and the set size; it is positive iff some member is held, and equals the size iff all members are held |
| Actions.MemberEvents | src/BufferedRaylib.cpp:81-89 | The invocations of the member loop: for each member in set order whose category callback is set, one invocation with the given flag; never more invocations than members |
| Actions.ButtonPump | src/BufferedRaylib.cpp:69-105 | One button pump: the stored count always becomes the new 8-bit pressed count, and at most one invocation per member is made |
| Actions.AxisPump | src/BufferedRaylib.cpp:107-141 | One axis pump: the stored total becomes old total + movement, and at most one invocation is made |
| Actions.Movement | src/BufferedRaylib.cpp:112-113 | An axis action's movement this frame: `GetGamepadAxisMovement` of its (gamepad, axis) for a gamepad source, `GetMouseWheelMove` (cpp:126) for the wheel |
| Actions.VectorState | src/BufferedRaylib.cpp:144-160 | The vector a vector pump computes: the wheel vector, the pointer position, or the stored vector plus each component's gamepad-axis movement |
| Actions.VectorChange | src/BufferedRaylib.cpp:164-170 | The shared change test of the vector and multi-button pumps: the computed vector is stored, and one invocation is made iff it differs from the stored one and the callback is set |
| Actions.VectorPump | src/BufferedRaylib.cpp:143-171 | One vector pump: the stored vector becomes the computed one |
| Actions.DirectionStates | src/BufferedRaylib.cpp:191-198 | The four-entry `buttonState` array: the first four (quad) or two (pair) direction counts, clamped to 1 under normalisation, the rest 0 |
| Actions.MultiVector | src/BufferedRaylib.cpp:199-206 | The direction vector: x = Left - Right for a quad, y = Up - Down, and a pair copies y into x |
| Actions.MultiPump | src/BufferedRaylib.cpp:187-215 | One multi-button pump: the stored vector becomes the direction vector |
| Actions.Pump | src/BufferedRaylib.cpp:217-235 | The dispatch: run the pump of the payload's tag and store its new state in the payload |
| Actions.MemberEventsLaw | src/BufferedRaylib.cpp:81-101 | The member loop gives every invocation the same isDown flag. A member is announced iff the callback of its category is set. With all three button callbacks set, the i-th invocation belongs to the i-th member in set order |
| Actions.ButtonPumpCommits | src/BufferedRaylib.cpp:69-105 | An unchanged pressed count emits nothing and keeps `last_state`. A changed count becomes `last_state` whichever branch runs. The stored count is always below 256 |
| Actions.PlainButtonAnnouncesChord | src/BufferedRaylib.cpp:91-103 | A non-combo set with a changed count announces every bound member with isDown = (count > 0), in set order, even members that did not move |
| Actions.ComboFiresOnCrossing | src/BufferedRaylib.cpp:75-90 | A combo fires only when "count == set size" differs between the old and new count, and then carries the new all-pressed flag. A change that stays on one side of the threshold is committed silently |
| Actions.TwoButtonCombo | src/BufferedRaylib.cpp:75-104 | A two-button combo: pressing one member is silent but stored; pressing both then announces `true`; releasing one announces `false` |
| Actions.AxisPumpLaw | src/BufferedRaylib.cpp:107-141 | The movement is added into the axis total. Zero movement emits nothing. A nonzero movement is committed even with no callback set, and is reported as (total, delta = movement) on the source's own callback |
| Actions.AxisRunSums | src/BufferedRaylib.cpp:107-141 | After any number of pumps, the axis total is the start value plus the sum of all movements |
| Actions.VectorPumpLaw | src/BufferedRaylib.cpp:143-171 | The computed vector is committed. It is reported iff it differs from the stored one and the callback is set, with an offset that leads from the stored vector to the new one |
| Actions.GamepadVectorRunSums | src/BufferedRaylib.cpp:155-160 | A gamepad-axes vector accumulates: after any number of pumps, each component is its start value plus the sum of its own axis's movements |
| Actions.MultiButtonLaw | src/BufferedRaylib.cpp:187-215 | y is the Up count minus the Down count, and a quad's x is the Left count minus the Right count; normalised, each count is 1 when any member is held and 0 otherwise. So normalised components are -1, 0 or 1, and holding two opposite directions gives 0. In pair mode x equals y. The vector is committed and reported iff it differs from the stored one and the callback is set |
| Actions.UpLeftIsDiagonal | src/BufferedRaylib.cpp:192-203 | A normalised quad with Up and Left held (and Down and Right not) gives (1, 1) |
| Actions.PumpKeepsConfiguration | src/BufferedRaylib.cpp:217-235 | Dispatching on the tag keeps the tag and the configuration (buttons, combo flag, sources, directions, normalise flag) and changes only the stored state |
| Actions.Action.constructor | src/BufferedRaylib.cpp:180-181 | A new Action holds the given payload with every callback slot unset |
| Actions.Action.GamepadAxes | src/BufferedRaylib.cpp:173-185 | `gamepad_axes` builds a gamepad-axes vector action at (0, 0); a negative vertical gamepad id means the horizontal gamepad |
| Actions.Action.AnnounceMembers | src/BufferedRaylib.cpp:81-89 | The member loop produces exactly the invocations `MemberEvents` specifies |
| Actions.Action.PumpButton | src/BufferedRaylib.cpp:69-105 | Updates only the stored count, as `ButtonPump` prescribes, and returns its invocations |
| Actions.Action.PumpAxis | src/BufferedRaylib.cpp:107-141 | Updates only the stored total, as `AxisPump` prescribes, and returns its invocations |
| Actions.Action.PumpVector | src/BufferedRaylib.cpp:143-171 | Updates only the stored vector, as `VectorPump` prescribes, and returns its invocations |
| Actions.Action.PumpMultiButton | src/BufferedRaylib.cpp:187-215 | The direction-count loop and the vector arithmetic update only the stored vector, as `MultiPump` prescribes |
| Actions.Action.PollEvents | src/BufferedRaylib.cpp:217-235 | Runs the pump that matches the tag; the new payload and the invocations are those of `Pump` |
| Sweeps.Range | src/BufferedRaylib.cpp:243 | The ids a counting loop from lo while below hi visits, in order (the key loop, and the mouse-button loop at cpp:255, with hi one past the inclusive bound); its length is hi - lo, or 0 |
| Sweeps.Pairs | src/BufferedRaylib.cpp:270 | The (gamepad, control) keys the inner loop visits for one gamepad: (g, 0), ..., (g, n - 1); n of them |
| Sweeps.GamepadIds | src/BufferedRaylib.cpp:267-270 | The keys the nested gamepad loops visit, in order: for each gamepad below g that is available, its n controls; an unavailable gamepad is skipped (the `continue`). The axis loops at cpp:294-297 visit the same shape |
| Sweeps.Fires | src/BufferedRaylib.cpp:246 | The firing rule of a discrete sweep: the id has no stored entry, or its entry differs from the reading |
| Sweeps.SweepStep | src/BufferedRaylib.cpp:244-249 | One iteration of a discrete loop: if the reading fires, store it and record the id (a callback call); otherwise nothing |
| Sweeps.Sweep | src/BufferedRaylib.cpp:243-250 | A discrete loop over a sequence of ids (also cpp:255-262 and cpp:270-278): one `SweepStep` per id in visit order, giving the new table and the ids that fired, in order |
| Sweeps.Fired | src/BufferedRaylib.cpp:246-248 | The ids of a sequence that fire against the table from before the sweep, in order |
| Sweeps.Announce | src/BufferedRaylib.cpp:248 | The callback calls of a discrete sweep: one per fired id, in order, carrying the id and its reading (also cpp:260 and cpp:276); as many calls as fired ids |
| Sweeps.Total | src/BufferedRaylib.cpp:301-302 | An axis's stored total, with a missing entry counting as 0 |
| Sweeps.AxisStep | src/BufferedRaylib.cpp:298-306 | One iteration of the axis loop: a nonzero movement is added to the axis's total, stored, and reported as (new total, movement); zero movement does nothing |
| Sweeps.AxisSweep | src/BufferedRaylib.cpp:294-309 | The accumulating axis loop over a sequence of (gamepad, axis) keys: one `AxisStep` per key in visit order, giving the new table and the reports |
| Sweeps.Moved | src/BufferedRaylib.cpp:298-299 | The keys of a sequence whose movement is nonzero, in order; never more than the sequence |
| Sweeps.AxisNotices | src/BufferedRaylib.cpp:302-306 | The reports for a list of moved keys, against the table from before the sweep: (old total + movement, movement) for each key, one per key, in order |
| Sweeps.RangeLaw | src/BufferedRaylib.cpp:243-255 | The swept id sequence lo, lo+1, ..., hi-1 has distinct entries and holds exactly the ids in [lo, hi) |
| Sweeps.GamepadIdsLaw | src/BufferedRaylib.cpp:267-270 | The gamepad loops visit distinct (gamepad, control) pairs: exactly those whose gamepad is in 0..g-1 and available and whose control is in 0..n-1 |
| Sweeps.SweepLaw | src/BufferedRaylib.cpp:243-250 | After a sweep of distinct ids, each visited id holds its reading and every other entry (present or absent) is untouched. The fired ids are those `Fired` selects |
| Sweeps.FiredMembers | src/BufferedRaylib.cpp:246-248 | An id fires iff it is swept and has no stored entry or a different one |
| Sweeps.AnnounceLaw | src/BufferedRaylib.cpp:246-248 | The i-th invocation is the i-th fired id together with its reading |
| Sweeps.FiredFromEmpty | src/BufferedRaylib.cpp:246-248 | Against an empty table every visited id fires, in visit order |
| Sweeps.SweepWhenSettled | src/BufferedRaylib.cpp:246-248 | A table that already holds every reading is left unchanged and nothing fires |
| Sweeps.SweepSettles | src/BufferedRaylib.cpp:243-250 | Sweeping the same readings twice: the second sweep changes nothing and fires nothing |
| Sweeps.SweepConcat | src/BufferedRaylib.cpp:267-279 | Sweeping a + b is sweeping a and then b from the resulting table |
| Sweeps.AxisSweepStates | src/BufferedRaylib.cpp:297-307 | Every visited axis with nonzero movement adds the movement to its total, a missing entry counting as 0. Every other entry, present or absent, is untouched |
| Sweeps.AxisSweepEvents | src/BufferedRaylib.cpp:297-307 | The axis reports are (old total + movement, movement) for exactly the moved axes, in visit order |
| Sweeps.AxisSweepConcat | src/BufferedRaylib.cpp:294-309 | An axis sweep over a + b is the sweep over a followed by the sweep over b |
| Sweeps.AxisSweepAtRest | src/BufferedRaylib.cpp:298-299 | With no movement on any visited axis, the table is unchanged and nothing is reported |
| Buffered.KeyboardPhase | src/BufferedRaylib.cpp:241-251 | The keyboard section: with its callback set, sweep keys KEY_NULL..KEY_KP_EQUAL against the key table; otherwise do nothing |
| Buffered.MouseButtonPhase | src/BufferedRaylib.cpp:253-263 | The mouse-button section: the same sweep over MOUSE_BUTTON_LEFT..MOUSE_BUTTON_EXTRA |
| Buffered.GamepadButtonPhase | src/BufferedRaylib.cpp:265-280 | The gamepad-button section: the same sweep over every button of every available gamepad 0..15 |
| Buffered.MouseWheelPhase | src/BufferedRaylib.cpp:282-291 | The wheel section: with its callback set, a nonzero movement is added to the total and reported with it |
| Buffered.GamepadAxisPhase | src/BufferedRaylib.cpp:293-310 | The gamepad-axis section: with its callback set, the accumulating sweep over every axis of every available gamepad |
| Buffered.MousePositionPhase | src/BufferedRaylib.cpp:312-320 | The position section: with its callback set, a position different from the stored one is stored and reported with its offset |
| Buffered.Poll | src/BufferedRaylib.cpp:237-321 | The whole poll: nothing when unfocused and not polling while unfocused; otherwise the six sections in order, each on the state the previous one left, with their reports concatenated |
| Buffered.SweepRange | src/BufferedRaylib.cpp:243-250 | The key and mouse-button loops over lo..hi inclusive yield the table and the invocations of `Sweep` over that range |
| Buffered.SweepPadButtons | src/BufferedRaylib.cpp:270-278 | The inner loop over one gamepad's buttons yields the table and the invocations of `Sweep` over its pairs |
| Buffered.SweepGamepadButtons | src/BufferedRaylib.cpp:266-280 | The nested loops over gamepads 0..15 (skipping unavailable ones) and their buttons yield the result of `Sweep` over the available pairs |
| Buffered.SweepPadAxes | src/BufferedRaylib.cpp:297-308 | The inner loop over one gamepad's axes yields the result of `AxisSweep` over its pairs |
| Buffered.SweepGamepadAxes | src/BufferedRaylib.cpp:293-310 | The nested loops over gamepads and axes yield the result of `AxisSweep` over the available pairs |
| Buffered.KeyboardPhaseLaw | src/BufferedRaylib.cpp:241-251 | Callback set: every key KEY_NULL..KEY_KP_EQUAL ends holding its reading and other entries are untouched. Exactly the keys with a missing or different entry are announced, in key order. Callback unset: nothing is read or changed. No other state changes |
| Buffered.MouseButtonPhaseLaw | src/BufferedRaylib.cpp:253-263 | The same for MOUSE_BUTTON_LEFT..MOUSE_BUTTON_EXTRA |
| Buffered.GamepadButtonPhaseLaw | src/BufferedRaylib.cpp:265-280 | The same for every button of every available gamepad 0..15. Each (gamepad, button) pair is tracked on its own. Pairs of unavailable or out-of-range gamepads are neither read nor written |
| Buffered.MouseWheelPhaseLaw | src/BufferedRaylib.cpp:282-291 | Callback set and movement nonzero: the movement is added to the total and reported as (new total, movement). Otherwise nothing changes and nothing is reported |
| Buffered.GamepadAxisPhaseLaw | src/BufferedRaylib.cpp:292-310 | Callback set: every swept axis with nonzero movement adds it to its total (missing = 0), every other entry is untouched, and the reports are (new total, movement) in loop order. Callback unset: nothing happens |
| Buffered.MousePositionPhaseLaw | src/BufferedRaylib.cpp:312-320 | Callback set: the stored position becomes the reading. A report is made iff the reading differs, carrying the position and the offset from the old one |
| Buffered.UnfocusedPollIsNoOp | src/BufferedRaylib.cpp:237-239 | With the default `whileUnfocused = false`, an unfocused poll changes nothing and reports nothing |
| Buffered.FreshPollerIsSilent | src/BufferedRaylib.hpp:31-36 | A poller whose six callbacks are all unset reports nothing and keeps its initial state |
| Buffered.FirstSweepReportsEveryId | src/BufferedRaylib.cpp:241-280 | From the empty tables, the keyboard, mouse-button and gamepad-button sections each report every id they sweep once, in loop order, with its reading |
| Buffered.PollBySection | src/BufferedRaylib.cpp:237-321 | Each section reads and writes only its own part of the state, so a polled frame's reports are the six sections' reports on the pre-poll state, in section order |
| Buffered.FirstPollReports | src/BufferedRaylib.cpp:241-320 | The first poll of a fresh poller reports, in order: every key, mouse button and available-gamepad button with its reading; a nonzero wheel movement as (movement, movement); each moved gamepad axis as (movement, movement); and the pointer unless it is at (0, 0), with offset equal to its position |
| Buffered.FirstPositionPoll | src/BufferedRaylib.hpp:41 | The stored position starts at (0, 0). The first position poll reports unless the pointer is exactly at (0, 0), and then with offset equal to the position |
| Buffered.PollSettles | src/BufferedRaylib.cpp:241-320 | After a polled frame, every bound discrete table holds that frame's readings and a bound position slot holds the pointer position |
| Buffered.SettledPollIsQuiet | src/BufferedRaylib.cpp:241-320 | Polling a settled state changes nothing and reports nothing, provided a bound wheel does not move and, with axes bound, no swept axis moves |
| Buffered.RepollIsQuiet | src/BufferedRaylib.cpp:241-320 | Polling a second time with unchanged devices reports nothing and changes nothing, provided a bound wheel does not move and, with axes bound, no swept axis moves; unbound categories and unswept axes may move freely |
| Buffered.PollWheel | src/BufferedRaylib.cpp:282-291 | One poll moves the wheel total by the frame's movement exactly when the frame is polled and the callback is set |
| Buffered.WheelTotalIsSum | src/BufferedRaylib.cpp:282-291 | Over any run of frames with the wheel callback set, the total grows by exactly the movements of the polled frames |
| Buffered.UnfocusedRunIsNoOp | src/BufferedRaylib.cpp:237-239 | Any number of unfocused frames under the default leaves the state untouched and reports nothing |
| Buffered.RefocusUsesOldBaseline | src/BufferedRaylib.cpp:237-239 | The first focused poll after unfocused frames compares against the state from before focus was lost |
| Buffered.BufferedInput.constructor | src/BufferedRaylib.hpp:31-45 | Every callback is unset, the wheel total is 0, the position is (0, 0) and all four tables are empty |
| Buffered.BufferedInput.PollEvents | src/BufferedRaylib.cpp:237-321 | Returns early when unfocused and `whileUnfocused` is false (the default). Otherwise runs the six sections in order. The new state and the invocations are those of `Poll`, and the callback slots are unchanged |
| Buffered.BufferedInput.PollKeyboard | src/BufferedRaylib.cpp:241-251 | The keyboard section changes exactly what `KeyboardPhase` prescribes |
| Buffered.BufferedInput.PollMouseButtons | src/BufferedRaylib.cpp:253-263 | The mouse-button section changes exactly what `MouseButtonPhase` prescribes |
| Buffered.BufferedInput.PollGamepadButtons | src/BufferedRaylib.cpp:265-280 | The gamepad-button section changes exactly what `GamepadButtonPhase` prescribes |
| Buffered.BufferedInput.PollMouseWheel | src/BufferedRaylib.cpp:282-291 | The wheel section changes exactly what `MouseWheelPhase` prescribes |
| Buffered.BufferedInput.PollGamepadAxes | src/BufferedRaylib.cpp:292-310 | The gamepad-axis section changes exactly what `GamepadAxisPhase` prescribes |
| Buffered.BufferedInput.PollMousePosition | src/BufferedRaylib.cpp:312-320 | The position section changes exactly what `MousePositionPhase` prescribes |

## Left out

- The raylib queries (`IsWindowFocused`, `IsKeyDown`, `IsMouseButtonDown`, `IsGamepadAvailable`, `IsGamepadButtonDown`, `GetMouseWheelMove`, `GetMouseWheelMoveV`, `GetMousePosition`, `GetGamepadAxisMovement`) are foreign calls. Each poll takes a `Snapshot` parameter holding one frame's answers instead. Within one poll, every query about the same control gets the same answer.
- Callbacks are not run. Each invocation is an `Event` record carrying its arguments, and a set slot is a `true` flag. Side effects and re-entrancy of the callbacks are not modelled.
- Float arithmetic is modelled as exact `real` arithmetic. Rounding in the wheel, axis and vector accumulators is not modelled.
- raymath's `Vector2Equals` compares with a tolerance; the model uses exact equality. `Vector2Subtract` is componentwise subtraction.
- The `(float)` casts of the direction counts in `PumpMultiButton` are exact conversions to `real`.
- `Action::operator=` (src/BufferedRaylib.cpp:53-67) is C++ move and pointer bookkeeping with no behavioural content.
- The `assert`s on an `Invalid` tag (src/BufferedRaylib.cpp:41, 139, 162, 233) become preconditions: `Pump` and `Action.PollEvents` require a non-`Invalid` payload, and each pump requires its own payload kind. In `Button`, `AxisSource` and `VectorSource` the invalid tag does not exist, so `IsPressed` never reaches its `return false`.
- The button set and the direction sets are reached through pointers in the code (`*data.button.buttons`, `data.multi.quadButtons->directions`), and cpp:70 asserts that the first is non-null. The model holds both sets by value, inside the payload, so no null case exists and that assert has no counterpart; pointer ownership and sharing between Actions are not modelled.
- The `name` parameters of the pumps are unused by the code and are dropped.
- The `Button` and `Action` declarations are not part of this model. Their fields are rebuilt from their use in src/BufferedRaylib.cpp:
  - the type tags are ranked Keyboard < Mouse < Gamepad;
  - the payload union's first member is the key, the mouse button or the gamepad id;
  - the direction indices are Up = 0, Down = 1, Left = 2, Right = 3, and a button pair uses only Up and Down.
- The raylib enumeration bounds are constants with raylib 5's values: KEY_NULL = 0, KEY_KP_EQUAL = 336, MOUSE_BUTTON_LEFT = 0, MOUSE_BUTTON_EXTRA = 4, GAMEPAD_BUTTON_UNKNOWN = 0, GAMEPAD_BUTTON_RIGHT_THUMB = 17, GAMEPAD_AXIS_LEFT_X = 0, GAMEPAD_AXIS_LEFT_Y = 1, GAMEPAD_AXIS_RIGHT_TRIGGER = 5.
- The `(KeyboardKey)` casts are identity on ids, so a key table entry is keyed by its integer.
- `Buffered.BufferedInput.PollEvents`: each of the six sections is its own method (`PollKeyboard` … `PollMousePosition`), and each loop nest is a helper method (`SweepRange`, `SweepGamepadButtons`, …). The statements and their order are those of src/BufferedRaylib.cpp:237-321.
- The model follows the code of src/BufferedRaylib.cpp:246-248 and src/BufferedRaylib.hpp:41:
  - the discrete sweeps fire on first observation, because a missing entry counts as a change;
  - the mouse position is compared with a stored value that starts at (0, 0), not with an "already seen" flag.
- examples/test.cpp is not part of this model: it is a demo application (window, drawing, console output).
