/** A binding from a canonical input id (plus an exact modifier triple) to
    an action name with string parameters, and the known action names. */
module Bindings {
  import opened Common

  datatype KeyBinding = KeyBinding(
    id: Guid,
    inputId: string,
    action: string,
    parameters: map<string, string>,
    requiresCtrl: bool,
    requiresShift: bool,
    requiresAlt: bool,
    priority: int,
    displayName: string,
    isEnabled: bool)

  /** `new KeyBinding()`: `id` is the fresh Guid, everything else empty,
      priority 0, enabled, no modifier required. */
  function NewKeyBinding(id: Guid): (b: KeyBinding)
    ensures b.id == id && b.inputId == "" && b.action == "" && b.displayName == ""
    ensures b.parameters == map[] && b.priority == 0 && b.isEnabled
    ensures !b.requiresCtrl && !b.requiresShift && !b.requiresAlt
  {
    KeyBinding(id, "", "", map[], false, false, false, 0, "", true)
  }

  /** `new KeyBinding(inputId, action)`: the defaults with those two set. */
  function NewKeyBindingFor(id: Guid, inputId: string, action: string): (b: KeyBinding)
    ensures b == NewKeyBinding(id).(inputId := inputId, action := action)
  {
    KeyBinding(id, inputId, action, map[], false, false, false, 0, "", true)
  }

  /** `Matches`: enabled, same input id, and each modifier exactly as required. */
  predicate Matches(b: KeyBinding, inputId: string, ctrl: bool, shift: bool, alt: bool)
    ensures Matches(b, inputId, ctrl, shift, alt) <==>
              b.isEnabled && (inputId, ctrl, shift, alt) == (b.inputId, b.requiresCtrl, b.requiresShift, b.requiresAlt)
  {
    b.isEnabled && b.inputId == inputId &&
    b.requiresCtrl == ctrl && b.requiresShift == shift && b.requiresAlt == alt
  }

  /** A disabled binding matches nothing. */
  lemma DisabledNeverMatches(b: KeyBinding, inputId: string, ctrl: bool, shift: bool, alt: bool)
    requires !b.isEnabled
    ensures !Matches(b, inputId, ctrl, shift, alt)
  {
  }

  /** A binding matches exactly one input: holding an extra modifier, or
      releasing a required one, loses the match. */
  lemma MatchIsExact(b: KeyBinding, i1: string, c1: bool, s1: bool, a1: bool,
                                    i2: string, c2: bool, s2: bool, a2: bool)
    requires Matches(b, i1, c1, s1, a1) && Matches(b, i2, c2, s2, a2)
    ensures i1 == i2 && c1 == c2 && s1 == s2 && a1 == a2
  {
  }

  /** An enabled binding matches its own trigger. */
  lemma EnabledMatchesOwnTrigger(b: KeyBinding)
    requires b.isEnabled
    ensures Matches(b, b.inputId, b.requiresCtrl, b.requiresShift, b.requiresAlt)
  {
  }

  /** The required modifiers in the order Ctrl, Shift, Alt. */
  function ModifierNames(b: KeyBinding): seq<string>
  {
    (if b.requiresCtrl then ["Ctrl"] else []) +
    (if b.requiresShift then ["Shift"] else []) +
    (if b.requiresAlt then ["Alt"] else [])
  }

  /** `string.Join(sep, parts)`. */
  function Join(parts: seq<string>, sep: string): string
  {
    if |parts| == 0 then ""
    else if |parts| == 1 then parts[0]
    else parts[0] + sep + Join(parts[1..], sep)
  }

  /** Each part followed by the separator, all concatenated. */
  function Terminated(parts: seq<string>, sep: string): string
  {
    if |parts| == 0 then "" else parts[0] + sep + Terminated(parts[1..], sep)
  }

  /** Joining a list that ends in `last` puts a separator after every
      earlier part and nothing after `last`. */
  lemma {:induction false} JoinSnoc(parts: seq<string>, last: string, sep: string)
    ensures Join(parts + [last], sep) == Terminated(parts, sep) + last
  {
    if |parts| > 0 {
      assert (parts + [last])[1..] == parts[1..] + [last];
      JoinSnoc(parts[1..], last, sep);
    }
  }

  /** `GetDescription`: the required modifiers joined with the input id by
      " + "; it always ends with the input id. */
  function Description(b: KeyBinding): (r: string)
    ensures |r| >= |b.inputId| && r[|r| - |b.inputId|..] == b.inputId
    ensures !b.requiresCtrl && !b.requiresShift && !b.requiresAlt ==> r == b.inputId
  {
    JoinSnoc(ModifierNames(b), b.inputId, " + ");
    Join(ModifierNames(b) + [b.inputId], " + ")
  }

  /** The description is each required modifier followed by " + ", then
      the input id; with no modifier it is the input id itself. */
  lemma DescriptionShape(b: KeyBinding)
    ensures Description(b) == Terminated(ModifierNames(b), " + ") + b.inputId
    ensures !b.requiresCtrl && !b.requiresShift && !b.requiresAlt ==> Description(b) == b.inputId
    ensures b.requiresCtrl && !b.requiresShift && !b.requiresAlt ==> Description(b) == "Ctrl + " + b.inputId
    ensures b.requiresCtrl && b.requiresShift && b.requiresAlt ==> Description(b) == "Ctrl + Shift + Alt + " + b.inputId
  {
    JoinSnoc(ModifierNames(b), b.inputId, " + ");
    if b.requiresCtrl && b.requiresShift && b.requiresAlt {
      assert ModifierNames(b) == ["Ctrl", "Shift", "Alt"];
      assert ModifierNames(b)[1..][1..] == ["Alt"];
      assert Terminated(["Alt"], " + ") == "Alt + ";
      assert Terminated(["Shift", "Alt"], " + ") == "Shift + Alt + ";
    }
  }

  // ActionTypes: the action names bindings and menus refer to.
  const OpenRadialMenu := "OpenRadialMenu"
  const SetToolMode := "SetToolMode"
  const SetInputMode := "SetInputMode"
  const Undo := "Undo"
  const Redo := "Redo"
  const Save := "Save"
  const Zoom := "Zoom"
  const Pan := "Pan"
  const ToggleEraser := "ToggleEraser"
  const BrushSize := "BrushSize"
  const Opacity := "Opacity"
  const ScrollHorizontal := "ScrollH"
  const ScrollVertical := "ScrollV"
}
