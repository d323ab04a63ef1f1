/** The mouse adapter: button, move and wheel events become canonical input
    events. The WPF `MouseButton` is a datatype; `Undefined(code)` stands
    for a value cast from an integer outside the five named buttons, which
    the source renders through its default branch as the number. */
module Mouse {
  import opened Common
  import opened InputEvents
  import Models

  /** An integer that is none of the five `MouseButton` values (0 to 4). */
  type UndefinedCode = c: int | c < 0 || c > 4 witness 5

  datatype MouseButton = Left | Middle | Right | XButton1 | XButton2 | Undefined(code: UndefinedCode)

  /** The canonical id of a mouse button: `Mouse_` and a name, the side
      buttons as 4 and 5, any other value as its number. */
  function MouseInputId(button: MouseButton): (id: string)
    ensures |id| > 6 && id[..6] == "Mouse_"
    ensures button.Undefined? ==> id[6..] == IntToString(button.code)
  {
    match button
    case Left => "Mouse_Left"
    case Right => "Mouse_Right"
    case Middle => "Mouse_Middle"
    case XButton1 => "Mouse_4"
    case XButton2 => "Mouse_5"
    case Undefined(code) => "Mouse_" + IntToString(code)
  }

  /** Every button id starts with `Mouse_`, and the five named buttons get
      five different ids. */
  lemma MouseInputIdsDistinct(a: MouseButton, b: MouseButton)
    requires !a.Undefined? && !b.Undefined? && a != b
    ensures MouseInputId(a) != MouseInputId(b)
    ensures MouseInputId(a)[..6] == "Mouse_"
  {
  }

  /** The default branch can collide with a named button: an undefined value
      5 is reported under the same id as XButton2. */
  lemma UndefinedButtonCollides()
    ensures MouseInputId(Undefined(5)) == MouseInputId(XButton2)
  {
    assert IntToString(5) == "5";
  }

  /** Wheel direction: up only for a strictly positive raw delta. */
  function WheelInputId(rawDelta: int): (id: string)
    ensures id == "Mouse_Wheel_Up" <==> rawDelta > 0
    ensures id == "Mouse_Wheel_Up" || id == "Mouse_Wheel_Down"
  {
    if rawDelta > 0 then "Mouse_Wheel_Up" else "Mouse_Wheel_Down"
  }

  /** C#'s `/` on int: the quotient truncated toward zero. */
  function TruncDiv(a: int, b: int): int
    requires b > 0
  {
    if a >= 0 then a / b else -((-a) / b)
  }

  /** Wheel notches: the raw delta over 120, truncated toward zero. The
      count keeps the sign, never overshoots the raw delta, and is off by
      less than one notch. */
  function WheelDelta(rawDelta: int): (r: int)
    ensures rawDelta >= 0 ==> 0 <= 120 * r <= rawDelta < 120 * (r + 1)
    ensures rawDelta < 0 ==> rawDelta <= 120 * r <= 0 && 120 * r < rawDelta + 120
  {
    TruncDiv(rawDelta, 120)
  }

  /** Scrolling the other way by the same amount gives the opposite count. */
  lemma WheelDeltaOdd(rawDelta: int)
    ensures WheelDelta(-rawDelta) == -WheelDelta(rawDelta)
  {
  }

  /** Truncation differs from Dafny's Euclidean division: a small downward
      scroll is 0 notches, not -1. */
  lemma WheelDeltaTruncates()
    ensures WheelDelta(-60) == 0 && -60 / 120 == -1
    ensures WheelDelta(-240) == -2 && WheelDelta(119) == 0 && WheelDelta(120) == 1
  {
  }

  class MouseDevice {
    const deviceId: string
    const deviceName: string
    /** The mouse is always available. */
    const isConnected: bool
    var initialized: bool
    /** Everything raised on ButtonPressed, ButtonReleased, PointerMoved and
        WheelScrolled, in order. */
    var events: seq<DeviceEvent>

    constructor ()
      ensures deviceId == "Mouse" && deviceName == "Mouse" && isConnected
      ensures !initialized && events == []
    {
      deviceId, deviceName, isConnected := "Mouse", "Mouse", true;
      initialized, events := false, [];
    }

    /** Always succeeds; a second call changes nothing. */
    method Initialize() returns (ok: bool)
      modifies this
      ensures ok && initialized && events == old(events)
    {
      if initialized { return true; }
      initialized := true;
      ok := true;
    }

    /** Safe in any state. */
    method Shutdown()
      modifies this
      ensures !initialized && events == old(events)
    {
      initialized := false;
    }

    /** Button down carries the modifier state. */
    method OnMouseDown(button: MouseButton, ctrl: bool, shift: bool, alt: bool)
      modifies this
      ensures events == old(events) + [ButtonPressed(InputEvent(MouseInputId(button), ctrl, shift, alt))]
      ensures initialized == old(initialized)
    {
      events := events + [ButtonPressed(InputEvent(MouseInputId(button), ctrl, shift, alt))];
    }

    /** Button up carries no modifiers. */
    method OnMouseUp(button: MouseButton)
      modifies this
      ensures events == old(events) + [ButtonReleased(NewInputEvent(MouseInputId(button)))]
      ensures initialized == old(initialized)
    {
      events := events + [ButtonReleased(NewInputEvent(MouseInputId(button)))];
    }

    /** Moves are always reported as `Mouse_Move` with pressure 1. */
    method OnMouseMove(position: Models.Point)
      modifies this
      ensures events == old(events) + [PointerMoved(PointerEvent("Mouse_Move", position.x, position.y, 1.0, 0.0, 0.0, false))]
      ensures initialized == old(initialized)
    {
      events := events + [PointerMoved(PointerEvent("Mouse_Move", position.x, position.y, 1.0, 0.0, 0.0, false))];
    }

    /** A wheel step: direction id, truncated notch count, the Ctrl state,
        and the default dial mode. */
    method OnMouseWheel(rawDelta: int, ctrl: bool)
      modifies this
      ensures events == old(events) + [DialRotated(DialEvent(WheelInputId(rawDelta), WheelDelta(rawDelta), DefaultDialMode, ctrl))]
      ensures initialized == old(initialized)
    {
      var args := DialEvent(WheelInputId(rawDelta), WheelDelta(rawDelta), DefaultDialMode, ctrl);
      events := events + [DialRotated(args)];
    }
  }
}
