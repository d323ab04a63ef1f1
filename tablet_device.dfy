/** The graphics-tablet adapter: express-key and pen-button ids, and the
    per-dial mode cycler (an ordered list of mode names per dial with a
    circular cursor). The Wintab driver is a stub in the source and is not
    modelled. */
module Tablet {
  import opened Common
  import opened InputEvents

  /** The id of express key `n`: `Tablet_Button` and the number. */
  function TabletButtonId(n: int): (id: string)
    ensures |id| > 13 && id[..13] == "Tablet_Button" && id[13..] == IntToString(n)
  {
    "Tablet_Button" + IntToString(n)
  }

  /** The id of pen button `n`: `Pen_Button` and the number. */
  function PenButtonId(n: int): (id: string)
    ensures |id| > 10 && id[..10] == "Pen_Button" && id[10..] == IntToString(n)
  {
    "Pen_Button" + IntToString(n)
  }

  function DialId(n: int): string { "Tablet_Dial" + IntToString(n) }

  /** A dial's click is reported as the dial's own id with `_Click` appended. */
  function DialClickId(n: int): (id: string)
    ensures id == DialId(n) + "_Click" && id != DialId(n)
  {
    "Tablet_Dial" + IntToString(n) + "_Click"
  }

  /** Button ids name their index: different indices, different ids. */
  lemma TabletButtonIdInjective(a: int, b: int)
    requires TabletButtonId(a) == TabletButtonId(b)
    ensures a == b
  {
    PrefixCancel("Tablet_Button", IntToString(a), IntToString(b));
    IntToStringInjective(a, b);
  }

  lemma PenButtonIdInjective(a: int, b: int)
    requires PenButtonId(a) == PenButtonId(b)
    ensures a == b
  {
    PrefixCancel("Pen_Button", IntToString(a), IntToString(b));
    IntToStringInjective(a, b);
  }

  /** A tablet express key and a pen button never share an id. */
  lemma TabletAndPenIdsDisjoint(a: int, b: int)
    ensures TabletButtonId(a) != PenButtonId(b)
  {
    assert TabletButtonId(a)[0] == 'T' && PenButtonId(b)[0] == 'P';
  }

  /** The cursor step of one dial click. */
  function NextModeIndex(i: int, count: nat): (r: int)
    requires count > 0
    ensures 0 <= r < count
  {
    (i + 1) % count
  }

  /** The cursor after `k` clicks on a dial with `count` modes. */
  function Clicks(i: int, count: nat, k: nat): int
    requires count > 0
  {
    if k == 0 then i else NextModeIndex(Clicks(i, count, k - 1), count)
  }

  /** One click on a valid cursor moves to the next mode, wrapping from the
      last mode to the first. */
  lemma NextModeIndexWraps(i: int, count: nat)
    requires count > 0 && 0 <= i < count
    ensures NextModeIndex(i, count) == if i + 1 < count then i + 1 else 0
  {
  }

  /** Up to a full turn, `k` clicks advance the cursor `k` places, wrapping
      once past the last mode. */
  lemma {:induction false} ClicksAdvance(i: int, count: nat, k: nat)
    requires count > 0 && 0 <= i < count && k <= count
    ensures Clicks(i, count, k) == if i + k < count then i + k else i + k - count
  {
    if k > 0 {
      ClicksAdvance(i, count, k - 1);
      NextModeIndexWraps(Clicks(i, count, k - 1), count);
    }
  }

  /** Clicking a dial as many times as it has modes restores its mode. */
  lemma FullCycleRestores(i: int, count: nat)
    requires count > 0 && 0 <= i < count
    ensures Clicks(i, count, count) == i
  {
    ClicksAdvance(i, count, count);
  }

  /** The dials the tablet starts with. */
  function DefaultDialModes(): (r: map<int, seq<string>>)
    ensures r.Keys == {1, 2}
    ensures forall d :: d in r ==> |r[d]| > 0
  {
    map[1 := ["Zoom", "ScrollH", "ScrollV"], 2 := ["BrushSize", "Opacity"]]
  }

  /** A cursor is valid for a mode list: inside it, or 0 for an empty list. */
  predicate ValidCursor(i: int, count: nat)
  {
    0 <= i && (if count == 0 then i == 0 else i < count)
  }

  /** What `GetCurrentDialMode` reads: the current mode name of a configured
      dial, "Unknown" for any other dial, and an index fault for a dial
      configured with no modes. */
  function CurrentDialMode(modes: map<int, seq<string>>, cursor: map<int, int>, dial: int): (r: Result<string>)
    requires dial in modes && dial in cursor ==> ValidCursor(cursor[dial], |modes[dial]|)
    ensures dial !in modes ==> r == Ok("Unknown")
    ensures r.Fault? <==> dial in modes && dial in cursor && modes[dial] == []
    ensures r.Fault? ==> r.exn == IndexOutOfRange
    ensures dial in modes && dial in cursor && modes[dial] != [] ==> r == Ok(modes[dial][cursor[dial]])
  {
    if dial in modes && dial in cursor then
      if cursor[dial] < |modes[dial]| then Ok(modes[dial][cursor[dial]]) else Fault(IndexOutOfRange)
    else Ok("Unknown")
  }

  class TabletDevice {
    const deviceId: string
    const deviceName: string
    const buttonCount: int
    const dialCount: int
    const penButtonCount: int
    const pressureLevels: int
    const supportsTilt: bool

    var isConnected: bool
    var initialized: bool
    /** `_dialModes`: the mode list of each configured dial. */
    var dialModes: map<int, seq<string>>
    /** `_currentDialModeIndex`: each configured dial's cursor. */
    var cursor: map<int, int>
    /** Everything raised on ButtonPressed, ButtonReleased and DialRotated, in order. */
    var events: seq<DeviceEvent>

    /** Every configured dial has a valid cursor and no other dial has one. */
    ghost predicate Valid()
      reads this
    {
      dialModes.Keys == cursor.Keys &&
      forall d :: d in dialModes ==> ValidCursor(cursor[d], |dialModes[d]|)
    }

    constructor ()
      ensures Valid()
      ensures deviceId == "Tablet" && deviceName == "Graphics Tablet"
      ensures buttonCount == 6 && dialCount == 2 && penButtonCount == 2
      ensures pressureLevels == 8192 && supportsTilt
      ensures !isConnected && !initialized && events == []
      ensures dialModes == DefaultDialModes() && cursor == map[1 := 0, 2 := 0]
    {
      deviceId, deviceName := "Tablet", "Graphics Tablet";
      buttonCount, dialCount, penButtonCount := 6, 2, 2;
      pressureLevels, supportsTilt := 8192, true;
      isConnected, initialized := false, false;
      dialModes := DefaultDialModes();
      cursor := map[1 := 0, 2 := 0];
      events := [];
    }

    /** Succeeds and connects; a second call changes nothing. */
    method Initialize() returns (ok: bool)
      modifies this
      ensures ok && initialized
      ensures !old(initialized) ==> isConnected
      ensures old(initialized) ==> isConnected == old(isConnected)
      ensures dialModes == old(dialModes) && cursor == old(cursor) && events == old(events)
    {
      if initialized { return true; }
      isConnected := true;
      initialized := true;
      ok := true;
    }

    /** Safe in any state: disconnects and clears the initialized flag. */
    method Shutdown()
      modifies this
      ensures !initialized && !isConnected
      ensures dialModes == old(dialModes) && cursor == old(cursor) && events == old(events)
    {
      initialized := false;
      isConnected := false;
    }

    method OnButtonDown(n: int)
      modifies this
      ensures events == old(events) + [ButtonPressed(NewInputEvent(TabletButtonId(n)))]
      ensures dialModes == old(dialModes) && cursor == old(cursor)
      ensures initialized == old(initialized) && isConnected == old(isConnected)
    {
      events := events + [ButtonPressed(NewInputEvent(TabletButtonId(n)))];
    }

    method OnButtonUp(n: int)
      modifies this
      ensures events == old(events) + [ButtonReleased(NewInputEvent(TabletButtonId(n)))]
      ensures dialModes == old(dialModes) && cursor == old(cursor)
      ensures initialized == old(initialized) && isConnected == old(isConnected)
    {
      events := events + [ButtonReleased(NewInputEvent(TabletButtonId(n)))];
    }

    method OnPenButtonDown(n: int)
      modifies this
      ensures events == old(events) + [ButtonPressed(NewInputEvent(PenButtonId(n)))]
      ensures dialModes == old(dialModes) && cursor == old(cursor)
      ensures initialized == old(initialized) && isConnected == old(isConnected)
    {
      events := events + [ButtonPressed(NewInputEvent(PenButtonId(n)))];
    }

    method OnPenButtonUp(n: int)
      modifies this
      ensures events == old(events) + [ButtonReleased(NewInputEvent(PenButtonId(n)))]
      ensures dialModes == old(dialModes) && cursor == old(cursor)
      ensures initialized == old(initialized) && isConnected == old(isConnected)
    {
      events := events + [ButtonReleased(NewInputEvent(PenButtonId(n)))];
    }

    /** A dial click advances that dial's cursor circularly, then raises the
        click as a button press and the new mode as a zero rotation. An
        unconfigured dial is ignored; a dial configured with no modes throws
        on the `% 0` before anything changes. */
    method OnDialClick(dial: int) returns (outcome: Outcome)
      requires Valid()
      modifies this
      ensures Valid()
      ensures dialModes == old(dialModes)
      ensures initialized == old(initialized) && isConnected == old(isConnected)
      ensures dial !in dialModes ==> outcome == Done && cursor == old(cursor) && events == old(events)
      ensures dial in dialModes && dialModes[dial] == [] ==>
        outcome == Threw(DivideByZero) && cursor == old(cursor) && events == old(events)
      ensures dial in dialModes && dialModes[dial] != [] ==>
        var next := NextModeIndex(old(cursor)[dial], |dialModes[dial]|);
        && outcome == Done
        && cursor == old(cursor)[dial := next]
        && events == old(events) + [
             ButtonPressed(NewInputEvent(DialClickId(dial))),
             DialRotated(DialEvent(DialId(dial), 0, dialModes[dial][next], false))]
    {
      if dial !in dialModes {
        return Done;
      }
      var modes := dialModes[dial];
      if |modes| == 0 {
        return Threw(DivideByZero);
      }
      cursor := cursor[dial := (cursor[dial] + 1) % |modes|];
      var newMode := modes[cursor[dial]];
      events := events + [ButtonPressed(NewInputEvent(DialClickId(dial)))];
      events := events + [DialRotated(DialEvent(DialId(dial), 0, newMode, false))];
      outcome := Done;
    }

    /** A rotation never moves the cursor: it reports the delta with the
        dial's current mode ("Unknown" for an unconfigured dial). */
    method OnDialRotate(dial: int, delta: int) returns (outcome: Outcome)
      requires Valid()
      modifies this
      ensures dialModes == old(dialModes) && cursor == old(cursor)
      ensures initialized == old(initialized) && isConnected == old(isConnected)
      ensures var mode := CurrentDialMode(dialModes, cursor, dial);
        && (mode.Ok? ==> outcome == Done && events == old(events) + [DialRotated(DialEvent(DialId(dial), delta, mode.value, false))])
        && (mode.Fault? ==> outcome == Threw(mode.exn) && events == old(events))
    {
      var mode := GetCurrentDialMode(dial);
      if mode.Fault? {
        return Threw(mode.exn);
      }
      events := events + [DialRotated(DialEvent(DialId(dial), delta, mode.value, false))];
      outcome := Done;
    }

    /** Pen motion is raised as a pointer event from the tip or the eraser end. */
    method OnPenMove(x: real, y: real, pressure: real, tiltX: real, tiltY: real, isEraser: bool)
      modifies this
      ensures events == old(events) + [PointerMoved(PointerEvent(if isEraser then "Pen_Eraser" else "Pen_Tip", x, y, pressure, tiltX, tiltY, isEraser))]
      ensures dialModes == old(dialModes) && cursor == old(cursor)
      ensures initialized == old(initialized) && isConnected == old(isConnected)
    {
      var id := if isEraser then "Pen_Eraser" else "Pen_Tip";
      events := events + [PointerMoved(PointerEvent(id, x, y, pressure, tiltX, tiltY, isEraser))];
    }

    /** `GetCurrentDialMode`. */
    method GetCurrentDialMode(dial: int) returns (r: Result<string>)
      requires Valid()
      ensures r == CurrentDialMode(dialModes, cursor, dial)
    {
      if dial in dialModes && dial in cursor {
        var modes := dialModes[dial];
        var i := cursor[dial];
        if i < |modes| {
          return Ok(modes[i]);
        }
        return Fault(IndexOutOfRange);
      }
      return Ok("Unknown");
    }

    /** Replaces one dial's modes and resets its cursor to the first mode. */
    method SetDialModes(dial: int, modes: seq<string>)
      requires Valid()
      modifies this
      ensures Valid()
      ensures dialModes == old(dialModes)[dial := modes]
      ensures cursor == old(cursor)[dial := 0]
      ensures events == old(events)
      ensures initialized == old(initialized) && isConnected == old(isConnected)
    {
      dialModes := dialModes[dial := modes];
      cursor := cursor[dial := 0];
    }
  }
}
