/** The canonical event records every device adapter produces. A device's
    event stream (its `ButtonPressed`, `ButtonReleased`, pointer and dial
    events) is modelled as one ordered log of `DeviceEvent`s, so the order
    in which one call raises several events is visible. Timestamps
    (`DateTime.Now`) and the analog `Value` (always 1.0 here) are not
    modelled. */
module InputEvents {

  /** `InputEventArgs`: a canonical input id plus the modifier state. */
  datatype InputEvent = InputEvent(inputId: string, ctrl: bool, shift: bool, alt: bool)

  /** `new InputEventArgs(inputId)`: no modifier set. */
  function NewInputEvent(inputId: string): (e: InputEvent)
    ensures e.inputId == inputId && !e.ctrl && !e.shift && !e.alt
  {
    InputEvent(inputId, false, false, false)
  }

  /** `DialEventArgs`: a rotation (or a wheel step) with the mode it applies to. */
  datatype DialEvent = DialEvent(inputId: string, delta: int, currentMode: string, ctrl: bool)

  /** The mode a `DialEventArgs` carries when nobody sets one. */
  const DefaultDialMode := "Zoom"

  /** `PointerEventArgs`: position, pressure, tilt and whether the eraser end is down. */
  datatype PointerEvent = PointerEvent(inputId: string, x: real, y: real, pressure: real, tiltX: real, tiltY: real, isEraser: bool)

  datatype DeviceEvent =
    | ButtonPressed(press: InputEvent)
    | ButtonReleased(release: InputEvent)
    | PointerMoved(pointer: PointerEvent)
    | DialRotated(dial: DialEvent)
}
