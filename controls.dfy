/** The input side of the game: the key and mouse-button state tables that the
    GLFW callbacks `keyboard` and `mouseButton` maintain, and the mapping from
    window pixels to world coordinates that `mouse_movement` applies to the cursor. */
module Controls {

  /** Sizes of the state tables. */
  const KeyCount := 350
  const ButtonCount := 8

  /** GLFW action codes. */
  const Release := 0
  const Press := 1
  const Repeat := 2

  /** The GLFW key codes the game reads. GLFW reports keys it cannot identify
      with `KeyUnknown`. */
  const KeyUnknown := -1
  const KeySpace := 32
  const KeyA := 65
  const KeyD := 68
  const KeyF := 70
  const KeyM := 77
  const KeyN := 78
  const KeyS := 83
  const KeyRight := 262
  const KeyLeft := 263
  const KeyDown := 264
  const KeyUp := 265
  const KeyLeftControl := 341
  const KeyLeftAlt := 342

  const MouseButtonLeft := 0

  /** The four global flag tables `keystates_pressed`, `keystates_released`,
      `mouse_keystates_pressed` and `mouse_keystates_released`. */
  class Input {
    const pressed: array<bool>
    const released: array<bool>
    const buttonPressed: array<bool>
    const buttonReleased: array<bool>

    predicate Valid()
      reads this
    {
      && pressed.Length == KeyCount && released.Length == KeyCount
      && buttonPressed.Length == ButtonCount && buttonReleased.Length == ButtonCount
      && pressed != released && buttonPressed != buttonReleased
    }

    /** No key and no button is ever flagged both pressed and released: the
        callbacks always set one flag and clear the other. */
    predicate Consistent()
      reads this, pressed, released, buttonPressed, buttonReleased
      requires Valid()
    {
      && (forall k :: 0 <= k < KeyCount ==> !(pressed[k] && released[k]))
      && (forall b :: 0 <= b < ButtonCount ==> !(buttonPressed[b] && buttonReleased[b]))
    }

    /** The test every control uses: the key is down and has not been let go. */
    predicate Held(key: int)
      reads this, pressed, released
      requires Valid() && 0 <= key < KeyCount
    {
      pressed[key] && !released[key]
    }

    /** The start-up state: `main` clears both key tables; the button tables are
        zero-initialised globals. */
    constructor ()
      ensures Valid() && Consistent()
      ensures forall k :: 0 <= k < KeyCount ==> !pressed[k] && !released[k]
      ensures forall b :: 0 <= b < ButtonCount ==> !buttonPressed[b] && !buttonReleased[b]
      ensures fresh(pressed) && fresh(released) && fresh(buttonPressed) && fresh(buttonReleased)
    {
      pressed := new bool[KeyCount];
      released := new bool[KeyCount];
      buttonPressed := new bool[ButtonCount](_ => false);
      buttonReleased := new bool[ButtonCount](_ => false);
      new;
      for i := 0 to KeyCount
        invariant forall k :: 0 <= k < i ==> !pressed[k] && !released[k]
        invariant forall b :: 0 <= b < ButtonCount ==> !buttonPressed[b] && !buttonReleased[b]
      {
        pressed[i] := false;
        released[i] := false;
      }
    }

    /** `keyboard` as the source writes it: it indexes the tables with the key
        code unchecked, so it is only defined for codes inside the tables. A press
        sets the pressed flag and clears the released one, a release does the
        opposite, and a repeat changes nothing. */
    method KeyboardAsWritten(key: int, action: int)
      requires Valid() && 0 <= key < KeyCount
      modifies pressed, released
      ensures action == Press ==> pressed[..] == old(pressed[..])[key := true] && released[..] == old(released[..])[key := false]
      ensures action == Release ==> pressed[..] == old(pressed[..])[key := false] && released[..] == old(released[..])[key := true]
      ensures action != Press && action != Release ==> pressed[..] == old(pressed[..]) && released[..] == old(released[..])
      ensures old(Consistent()) ==> Consistent()
    {
      if action == Press {
        pressed[key] := true;
        released[key] := false;
      } else if action == Release {
        pressed[key] := false;
        released[key] := true;
      }
    }

    /** `keyboard` for every code GLFW can deliver: a code outside the tables,
        such as `KeyUnknown`, is ignored. */
    method Keyboard(key: int, action: int)
      requires Valid()
      modifies pressed, released
      ensures 0 <= key < KeyCount && action == Press ==> Held(key)
      ensures 0 <= key < KeyCount && action == Release ==> !pressed[key] && released[key]
      ensures forall k :: 0 <= k < KeyCount && k != key ==> pressed[k] == old(pressed[k]) && released[k] == old(released[k])
      ensures !(0 <= key < KeyCount) || (action != Press && action != Release) ==>
        pressed[..] == old(pressed[..]) && released[..] == old(released[..])
      ensures old(Consistent()) ==> Consistent()
    {
      if 0 <= key < KeyCount {
        KeyboardAsWritten(key, action);
      }
    }

    /** `mouseButton`: a press sets the pressed flag and clears the released one;
        every other action, a repeat included, counts as a release. */
    method MouseButton(button: int, action: int)
      requires Valid() && 0 <= button < ButtonCount
      modifies buttonPressed, buttonReleased
      ensures action == Press ==> buttonPressed[..] == old(buttonPressed[..])[button := true] && buttonReleased[..] == old(buttonReleased[..])[button := false]
      ensures action != Press ==> buttonPressed[..] == old(buttonPressed[..])[button := false] && buttonReleased[..] == old(buttonReleased[..])[button := true]
      ensures old(Consistent()) ==> Consistent()
    {
      if action == Press {
        buttonPressed[button] := true;
        buttonReleased[button] := false;
      } else {
        buttonPressed[button] := false;
        buttonReleased[button] := true;
      }
    }

    /** With consistent tables the "not released" half of the test adds nothing:
        a key is held exactly when it is flagged pressed. */
    lemma HeldIsPressed(key: int)
      requires Valid() && Consistent() && 0 <= key < KeyCount
      ensures Held(key) <==> pressed[key]
    {
    }
  }

  /** The world x coordinate of window column `px`: the 600-pixel window shows the
      80-unit field from -40 to 40. */
  function WorldX(px: real): (x: real)
    ensures 0.0 <= px <= 600.0 <==> -40.0 <= x <= 40.0
  {
    px * 2.0 * 40.0 / 600.0 - 40.0
  }

  /** The world y coordinate of window row `py`; rows count downwards from the top. */
  function WorldY(py: real): (y: real)
    ensures 0.0 <= py <= 600.0 <==> -40.0 <= y <= 40.0
  {
    40.0 - py * 2.0 * 40.0 / 600.0
  }

  /** The window column that shows world x coordinate `x`. */
  function ColumnOf(x: real): real
  {
    (x + 40.0) * 600.0 / 80.0
  }

  /** The window row that shows world y coordinate `y`. */
  function RowOf(y: real): real
  {
    (40.0 - y) * 600.0 / 80.0
  }

  /** The cursor mapping is a bijection between the window and the world plane. */
  lemma WorldRoundTrip(px: real, py: real, x: real, y: real)
    ensures ColumnOf(WorldX(px)) == px && RowOf(WorldY(py)) == py
    ensures WorldX(ColumnOf(x)) == x && WorldY(RowOf(y)) == y
  {
  }

  /** Moving the cursor right moves the point right; moving it down moves the point down. */
  lemma WorldMonotone(p: real, q: real)
    requires p < q
    ensures WorldX(p) < WorldX(q) && WorldY(p) > WorldY(q)
  {
  }
}
