/** The view window: `zoom`, `pan` and `scroll_callback` adjust the globals
    `zoomFactor` and `panFactor`, from which `draw` builds the orthographic
    window from -40/zoomFactor + panFactor to 40/zoomFactor + panFactor. */
module Camera {
  import opened Controls

  class View {
    var zoomFactor: real
    var panFactor: real

    /** The zoom stays between 1 and 2 and the view window stays inside the
        80-unit field. */
    predicate Valid()
      reads this
    {
      && 1.0 <= zoomFactor <= 2.0
      && 40.0 / zoomFactor + panFactor <= 40.0
      && -40.0 / zoomFactor + panFactor >= -40.0
    }

    /** The left and right edges of the view window. */
    function Left(): real
      reads this
      requires Valid()
    {
      -40.0 / zoomFactor + panFactor
    }

    function Right(): real
      reads this
      requires Valid()
    {
      40.0 / zoomFactor + panFactor
    }

    constructor ()
      ensures Valid() && zoomFactor == 1.0 && panFactor == 0.0
    {
      zoomFactor := 1.0;
      panFactor := 0.0;
    }

    /** One step in: the zoom grows by 0.1, up to 2. A narrower window stays
        inside the field without moving it. */
    method ZoomIn()
      requires Valid()
      modifies this
      ensures Valid()
      ensures zoomFactor == (if old(zoomFactor) + 0.1 > 2.0 then 2.0 else old(zoomFactor) + 0.1)
      ensures panFactor == old(panFactor)
    {
      zoomFactor := zoomFactor + 0.1;
      if zoomFactor > 2.0 {
        zoomFactor := 2.0;
      }
      WindowShrinks(old(zoomFactor), zoomFactor, panFactor);
    }

    /** One step out: the zoom shrinks by 0.1, down to 1, and the pan is pulled
        back so that the wider window still fits the field. */
    method ZoomOut()
      requires Valid()
      modifies this
      ensures Valid()
      ensures zoomFactor == (if old(zoomFactor) - 0.1 < 1.0 then 1.0 else old(zoomFactor) - 0.1)
      ensures panFactor == Clamp(old(panFactor), -40.0 + 40.0 / zoomFactor, 40.0 - 40.0 / zoomFactor)
    {
      zoomFactor := zoomFactor - 0.1;
      if zoomFactor < 1.0 {
        zoomFactor := 1.0;
      }
      if 40.0 / zoomFactor + panFactor > 40.0 {
        panFactor := 40.0 - 40.0 / zoomFactor;
      }
      if -40.0 / zoomFactor + panFactor < -40.0 {
        panFactor := -40.0 + 40.0 / zoomFactor;
      }
      ReachNonNegative(zoomFactor);
    }

    /** The closing step of `zoom` and `scroll_callback`: no pan at zoom 1. */
    method Recentre()
      requires Valid()
      modifies this
      ensures Valid()
      ensures zoomFactor == old(zoomFactor)
      ensures panFactor == (if zoomFactor == 1.0 then 0.0 else old(panFactor))
    {
      if zoomFactor == 1.0 {
        panFactor := 0.0;
      }
    }

    /** `zoom`: the up arrow zooms in, then the down arrow zooms out. */
    method Zoom(inp: Input)
      requires Valid() && inp.Valid()
      modifies this
      ensures Valid()
      ensures zoomFactor == 1.0 ==> panFactor == 0.0
      ensures !inp.pressed[KeyUp] && !inp.pressed[KeyDown] ==> zoomFactor == old(zoomFactor) && panFactor == old(panFactor)
      ensures inp.pressed[KeyUp] && !inp.pressed[KeyDown] ==> zoomFactor >= old(zoomFactor) && panFactor == old(panFactor)
      ensures !inp.pressed[KeyUp] && inp.pressed[KeyDown] ==> zoomFactor <= old(zoomFactor)
    {
      if inp.pressed[KeyUp] {
        ZoomIn();
      }
      if inp.pressed[KeyDown] {
        ZoomOut();
      }
      Recentre();
    }

    /** `scroll_callback`: a wheel step up zooms in, a step down zooms out, any
        other offset only recentres. */
    method Scroll(yoffset: real)
      requires Valid()
      modifies this
      ensures Valid()
      ensures zoomFactor == 1.0 ==> panFactor == 0.0
      ensures yoffset == 1.0 ==> zoomFactor >= old(zoomFactor) && panFactor == old(panFactor)
      ensures yoffset == -1.0 ==> zoomFactor <= old(zoomFactor)
      ensures yoffset != 1.0 && yoffset != -1.0 ==> zoomFactor == old(zoomFactor) && panFactor == old(panFactor)
    {
      if yoffset == 1.0 {
        ZoomIn();
      } else if yoffset == -1.0 {
        ZoomOut();
      }
      Recentre();
    }

    /** `pan`: the right arrow moves the window right by 1 and then the left arrow
        moves it left by 1, each stopping at the edge of the field; at zoom 1 the
        window fills the field and does not move. */
    method Pan(inp: Input)
      requires Valid() && inp.Valid()
      modifies this
      ensures Valid()
      ensures zoomFactor == old(zoomFactor)
      ensures zoomFactor == 1.0 ==> panFactor == old(panFactor)
      ensures inp.pressed[KeyRight] && !inp.pressed[KeyLeft] && zoomFactor != 1.0 ==>
        panFactor == Clamp(old(panFactor) + 1.0, -40.0 + 40.0 / zoomFactor, 40.0 - 40.0 / zoomFactor)
      ensures !inp.pressed[KeyRight] && inp.pressed[KeyLeft] && zoomFactor != 1.0 ==>
        panFactor == Clamp(old(panFactor) - 1.0, -40.0 + 40.0 / zoomFactor, 40.0 - 40.0 / zoomFactor)
      ensures inp.pressed[KeyRight] && inp.pressed[KeyLeft] && zoomFactor != 1.0 ==>
        var lo, hi := -40.0 + 40.0 / zoomFactor, 40.0 - 40.0 / zoomFactor;
        panFactor == Clamp(Clamp(old(panFactor) + 1.0, lo, hi) - 1.0, lo, hi)
      ensures !inp.pressed[KeyRight] && !inp.pressed[KeyLeft] ==> panFactor == old(panFactor)
    {
      if inp.pressed[KeyRight] && zoomFactor != 1.0 {
        PanRight();
      }
      if inp.pressed[KeyLeft] && zoomFactor != 1.0 {
        PanLeft();
      }
    }

    /** One step right, stopping where the window meets the right edge of the field. */
    method PanRight()
      requires Valid()
      modifies this
      ensures Valid()
      ensures zoomFactor == old(zoomFactor)
      ensures panFactor == Clamp(old(panFactor) + 1.0, -40.0 + 40.0 / zoomFactor, 40.0 - 40.0 / zoomFactor)
    {
      ReachNonNegative(zoomFactor);
      panFactor := panFactor + 1.0;
      if 40.0 / zoomFactor + panFactor > 40.0 {
        panFactor := 40.0 - 40.0 / zoomFactor;
      }
    }

    /** One step left, stopping where the window meets the left edge of the field. */
    method PanLeft()
      requires Valid()
      modifies this
      ensures Valid()
      ensures zoomFactor == old(zoomFactor)
      ensures panFactor == Clamp(old(panFactor) - 1.0, -40.0 + 40.0 / zoomFactor, 40.0 - 40.0 / zoomFactor)
    {
      ReachNonNegative(zoomFactor);
      panFactor := panFactor - 1.0;
      if -40.0 / zoomFactor + panFactor < -40.0 {
        panFactor := -40.0 + 40.0 / zoomFactor;
      }
    }

    /** The view half of a turn of the `main` loop: `zoom`, then `pan`. The window
        stays inside the field and is centred whenever it is unzoomed. */
    method Keys(inp: Input)
      requires Valid() && inp.Valid()
      modifies this
      ensures Valid()
      ensures zoomFactor == 1.0 ==> panFactor == 0.0
    {
      Zoom(inp);
      Pan(inp);
    }

    /** At zoom 1 the window bounds leave no room to pan: the explicit recentring
        of `zoom` only restates what the bounds already force. */
    lemma UnzoomedIsCentred()
      requires Valid() && zoomFactor == 1.0
      ensures panFactor == 0.0
    {
    }

    /** A valid view window lies inside the field and is at least half its width. */
    lemma WindowInsideField()
      requires Valid()
      ensures -40.0 <= Left() < Right() <= 40.0
      ensures Right() - Left() >= 40.0
    {
      assert Right() - Left() == 80.0 / zoomFactor;
      assert 80.0 / zoomFactor >= 40.0 by {
        assert 80.0 / zoomFactor * zoomFactor == 80.0;
      }
    }
  }

  /** `v` moved into [lo, hi] by the source's two tests: first against the upper
      bound, then against the lower. */
  function Clamp(v: real, lo: real, hi: real): (r: real)
    ensures lo <= hi ==> lo <= r <= hi
    ensures lo <= v <= hi ==> r == v
    ensures lo <= hi && v > hi ==> r == hi
    ensures v < lo ==> r == lo
  {
    var u := if v > hi then hi else v;
    if u < lo then lo else u
  }

  /** At zoom z >= 1 the pan may reach 40 - 40 / z to either side, which is never negative. */
  lemma ReachNonNegative(z: real)
    requires z >= 1.0
    ensures 40.0 / z <= 40.0
    ensures -40.0 + 40.0 / z <= 40.0 - 40.0 / z
  {
    assert 40.0 / z * z == 40.0;
  }

  /** Zooming in (a larger z) narrows the window, so one that fitted still fits. */
  lemma WindowShrinks(z: real, z': real, p: real)
    requires 1.0 <= z <= z'
    requires 40.0 / z + p <= 40.0 && -40.0 / z + p >= -40.0
    ensures 40.0 / z' + p <= 40.0 && -40.0 / z' + p >= -40.0
  {
    var a, b := 40.0 / z', 40.0 / z;
    assert a * z' == 40.0 && b * z == 40.0;
    assert a > 0.0;
    assert a * z <= a * z';
    assert a * z <= b * z;
    assert a <= b;
  }
}
