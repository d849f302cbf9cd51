/**
 * Button: one physical control (a key, a mouse button or a gamepad button),
 * its ordering (the std::set comparator), the query that asks whether it is
 * held, and the pressed count of an ordered set of buttons.
 */
module Buttons {
  import opened Devices

  datatype Button =
    | Keyboard(key: int)
    | Mouse(mouse: int)
    | Gamepad(id: int, button: int)

  /** Rank of the type tag: the enumerators Keyboard, Mouse, Gamepad in declaration order. */
  function Rank(b: Button): nat {
    match b
    case Keyboard(_) => 0
    case Mouse(_) => 1
    case Gamepad(_, _) => 2
  }

  /**
   * The first member of the payload union: the key for a keyboard button, the
   * button for a mouse button, the gamepad id for a gamepad button.
   */
  function Lead(b: Button): int {
    match b
    case Keyboard(k) => k
    case Mouse(m) => m
    case Gamepad(id, _) => id
  }

  /** Button::operator<: by type tag, then the gamepad button within one gamepad, else the leading id. */
  predicate Less(a: Button, b: Button) {
    if Rank(a) != Rank(b) then Rank(a) < Rank(b)
    else if a.Gamepad? && a.id == b.id then a.button < b.button
    else Lead(a) < Lead(b)
  }

  lemma LessIsStrictTotalOrder(a: Button, b: Button, c: Button)
    ensures !Less(a, a)
    ensures Less(a, b) ==> !Less(b, a)
    ensures Less(a, b) && Less(b, c) ==> Less(a, c)
    ensures a != b ==> Less(a, b) || Less(b, a)
  {
  }

  /** A std::set<Button>: its members listed in increasing Less order. */
  predicate IsOrderedSet(s: seq<Button>) {
    forall i, j :: 0 <= i < j < |s| ==> Less(s[i], s[j])
  }

  type ButtonSet = s: seq<Button> | IsOrderedSet(s) witness []

  lemma {:induction false} OrderedSetIsDistinct(s: ButtonSet, i: int, j: int)
    requires 0 <= i < |s| && 0 <= j < |s| && i != j
    ensures s[i] != s[j]
  {
    if i < j {
      LessIsStrictTotalOrder(s[i], s[j], s[j]);
    } else {
      LessIsStrictTotalOrder(s[j], s[i], s[i]);
    }
  }

  /** Button::IsPressed: dispatch on the type tag to the matching device query. */
  function IsPressed(b: Button, snap: Snapshot): bool {
    match b
    case Keyboard(k) => snap.isKeyDown(k)
    case Mouse(m) => snap.isMouseButtonDown(m)
    case Gamepad(id, button) => snap.isGamepadButtonDown((id, button))
  }

  /** How many members of the list are held, counted exactly. */
  function CountPressed(buttons: seq<Button>, snap: Snapshot): (n: nat)
    ensures n <= |buttons|
    decreases |buttons|
  {
    if buttons == [] then 0
    else
      var last := if IsPressed(buttons[|buttons| - 1], snap) then 1 else 0;
      CountPressed(buttons[..|buttons| - 1], snap) + last
  }

  /** The count is zero exactly when no member is held, and the set size exactly when all are. */
  lemma {:induction false} CountPressedExtremes(buttons: seq<Button>, snap: Snapshot)
    ensures CountPressed(buttons, snap) == 0 <==> forall i :: 0 <= i < |buttons| ==> !IsPressed(buttons[i], snap)
    ensures CountPressed(buttons, snap) == |buttons| <==> forall i :: 0 <= i < |buttons| ==> IsPressed(buttons[i], snap)
    decreases |buttons|
  {
    if buttons != [] {
      var init := buttons[..|buttons| - 1];
      CountPressedExtremes(init, snap);
      assert forall i :: 0 <= i < |init| ==> init[i] == buttons[i];
    }
  }

  /** The pressed count as IsSetPressed returns it: summed in a uint8_t, so modulo 256. */
  function SetPressed(buttons: seq<Button>, snap: Snapshot): (n: nat)
    ensures n < 256
    ensures |buttons| < 256 ==> n == CountPressed(buttons, snap)
  {
    CountPressed(buttons, snap) % 256
  }

  /** Button::IsSetPressed: sums the pressed members in set order into an 8-bit counter. */
  method IsSetPressed(buttons: ButtonSet, snap: Snapshot) returns (state: nat)
    ensures state == SetPressed(buttons, snap)
  {
    state := 0;
    for i := 0 to |buttons|
      invariant state == CountPressed(buttons[..i], snap) % 256
    {
      var pressed := if IsPressed(buttons[i], snap) then 1 else 0;
      assert buttons[..i + 1][..i] == buttons[..i];
      assert CountPressed(buttons[..i + 1], snap) == CountPressed(buttons[..i], snap) + pressed;
      WrapStep(CountPressed(buttons[..i], snap), pressed);
      state := (state + pressed) % 256;
    }
    assert buttons[..|buttons|] == buttons;
  }

  /** Adding to an 8-bit counter commutes with the wrap-around. */
  lemma WrapStep(a: nat, p: nat)
    ensures (a % 256 + p) % 256 == (a + p) % 256
  {
    var q := a / 256;
    assert a == 256 * q + a % 256;
  }

  lemma {:induction false} SetPressedBounds(buttons: ButtonSet, snap: Snapshot)
    requires |buttons| <= 255
    ensures SetPressed(buttons, snap) <= |buttons|
    ensures SetPressed(buttons, snap) > 0 <==> exists i :: 0 <= i < |buttons| && IsPressed(buttons[i], snap)
    ensures SetPressed(buttons, snap) == |buttons| <==> forall i :: 0 <= i < |buttons| ==> IsPressed(buttons[i], snap)
  {
    CountPressedExtremes(buttons, snap);
  }
}
