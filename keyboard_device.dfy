/** The keyboard adapter: WPF key events become `Key_<name>` input events.
    The WPF `Key` value is passed as its enum name; `Keyboard.IsKeyDown`
    for the left/right Ctrl, Shift and Alt keys becomes three flags, each
    meaning "either key of the pair is down". */
module Keyboard {
  import opened InputEvents

  const KeyPrefix := "Key_"

  /** The canonical id of a key: `Key_` followed by exactly the key name. */
  function KeyInputId(keyName: string): (id: string)
    ensures |id| == |keyName| + 4
    ensures id[..4] == "Key_" && id[4..] == keyName
  {
    KeyPrefix + keyName
  }

  /** Two keys share an id only if they are the same key. */
  lemma KeyInputIdInjective(a: string, b: string)
    requires KeyInputId(a) == KeyInputId(b)
    ensures a == b
  {
    assert a == KeyInputId(a)[4..];
  }

  class KeyboardDevice {
    const deviceId: string
    const deviceName: string
    /** The keyboard is always available. */
    const isConnected: bool
    var initialized: bool
    /** Everything raised on ButtonPressed / ButtonReleased, in order. */
    var events: seq<DeviceEvent>

    constructor ()
      ensures deviceId == "Keyboard" && deviceName == "Keyboard" && isConnected
      ensures !initialized && events == []
    {
      deviceId, deviceName, isConnected := "Keyboard", "Keyboard", true;
      initialized, events := false, [];
    }

    /** Always succeeds; a second call changes nothing. */
    method Initialize() returns (ok: bool)
      modifies this
      ensures ok && initialized
      ensures events == old(events)
    {
      if initialized { return true; }
      initialized := true;
      ok := true;
    }

    /** Safe in any state; a later Initialize runs again. */
    method Shutdown()
      modifies this
      ensures !initialized && events == old(events)
    {
      initialized := false;
    }

    /** Key down: exactly one ButtonPressed carrying the modifier state. */
    method OnKeyDown(keyName: string, ctrl: bool, shift: bool, alt: bool)
      modifies this
      ensures events == old(events) + [ButtonPressed(InputEvent(KeyInputId(keyName), ctrl, shift, alt))]
      ensures initialized == old(initialized)
    {
      var args := InputEvent(KeyInputId(keyName), ctrl, shift, alt);
      events := events + [ButtonPressed(args)];
    }

    /** Key up: exactly one ButtonReleased with the same id and no modifiers. */
    method OnKeyUp(keyName: string)
      modifies this
      ensures events == old(events) + [ButtonReleased(NewInputEvent(KeyInputId(keyName)))]
      ensures initialized == old(initialized)
    {
      events := events + [ButtonReleased(NewInputEvent(KeyInputId(keyName)))];
    }
  }
}
