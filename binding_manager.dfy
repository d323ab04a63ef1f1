/** The binding registry: an ordered list of key bindings with advisory
    conflict detection, and the router from device input events to the
    single best-matching binding's action. The JSON file behind
    LoadBindings is an abstract input: missing, or present with the
    deserializer's verdict on its text. */
module BindingRegistry {
  import opened Common
  import opened Bindings
  import opened InputEvents

  /** `ActionEventArgs`, and the `ConflictDetected` payload. */
  datatype ManagerEvent =
    | ActionTriggered(action: string, parameters: map<string, string>)
    | ConflictDetected(newBinding: KeyBinding, conflicting: seq<KeyBinding>)

  /** What `JsonSerializer.Deserialize<List<KeyBinding>>` makes of the file. */
  datatype Parsed = ParsedList(list: seq<KeyBinding>) | ParsedNull | Malformed
  datatype BindingsFile = Missing | Present(content: Parsed)

  /** `b` and `nb` are triggered by the same input and modifier triple. */
  predicate SameTrigger(b: KeyBinding, nb: KeyBinding)
  {
    b.inputId == nb.inputId && b.requiresCtrl == nb.requiresCtrl &&
    b.requiresShift == nb.requiresShift && b.requiresAlt == nb.requiresAlt
  }

  /** `CheckConflicts`: the other bindings (by Id) with the same trigger,
      enabled or not, in list order. */
  function Conflicts(bs: seq<KeyBinding>, nb: KeyBinding): (r: seq<KeyBinding>)
    ensures |r| <= |bs|
    ensures forall b :: b in r <==> b in bs && SameTrigger(b, nb) && b.id != nb.id
  {
    if |bs| == 0 then []
    else if SameTrigger(bs[0], nb) && bs[0].id != nb.id then [bs[0]] + Conflicts(bs[1..], nb)
    else Conflicts(bs[1..], nb)
  }

  /** Conflict detection runs over the list in order: the conflicts of a
      concatenation are the conflicts of each part, in order. */
  lemma {:induction false} ConflictsAppend(a: seq<KeyBinding>, b: seq<KeyBinding>, nb: KeyBinding)
    ensures Conflicts(a + b, nb) == Conflicts(a, nb) + Conflicts(b, nb)
  {
    if |a| > 0 {
      assert (a + b)[0] == a[0] && (a + b)[1..] == a[1..] + b;
      ConflictsAppend(a[1..], b, nb);
    } else {
      assert a + b == b;
    }
  }

  lemma {:induction false} NoConflicts(bs: seq<KeyBinding>, nb: KeyBinding)
    requires forall k :: 0 <= k < |bs| ==> !(SameTrigger(bs[k], nb) && bs[k].id != nb.id)
    ensures Conflicts(bs, nb) == []
  {
    if |bs| > 0 {
      NoConflicts(bs[1..], nb);
    }
  }

  /** Two bindings that both match one input event conflict with each other
      unless they share an Id: matching implies the same trigger. */
  lemma CoMatchingBindingsConflict(bs: seq<KeyBinding>, x: KeyBinding, y: KeyBinding,
                                    inputId: string, ctrl: bool, shift: bool, alt: bool)
    requires x in bs && x.id != y.id
    requires Matches(x, inputId, ctrl, shift, alt) && Matches(y, inputId, ctrl, shift, alt)
    ensures x in Conflicts(bs, y)
  {
  }

  /** `RemoveAll(b => b.Id == id)`. */
  function RemoveId(bs: seq<KeyBinding>, id: Guid): (r: seq<KeyBinding>)
    ensures |r| <= |bs|
    ensures forall b :: b in r <==> b in bs && b.id != id
  {
    if |bs| == 0 then []
    else if bs[0].id == id then RemoveId(bs[1..], id)
    else [bs[0]] + RemoveId(bs[1..], id)
  }

  /** Removal keeps the survivors' relative order: it distributes over
      concatenation, and it is the identity when the Id is absent. */
  lemma {:induction false} RemoveIdAppend(a: seq<KeyBinding>, b: seq<KeyBinding>, id: Guid)
    ensures RemoveId(a + b, id) == RemoveId(a, id) + RemoveId(b, id)
  {
    if |a| > 0 {
      assert (a + b)[0] == a[0] && (a + b)[1..] == a[1..] + b;
      RemoveIdAppend(a[1..], b, id);
    } else {
      assert a + b == b;
    }
  }

  lemma {:induction false} RemoveAbsentId(bs: seq<KeyBinding>, id: Guid)
    requires forall i :: 0 <= i < |bs| ==> bs[i].id != id
    ensures RemoveId(bs, id) == bs
  {
    if |bs| > 0 {
      RemoveAbsentId(bs[1..], id);
    }
  }

  /** `FindIndex(b => b.Id == id)`: the first index holding that Id. */
  function FindIndex(bs: seq<KeyBinding>, id: Guid): (r: Option<nat>)
    ensures r.Some? ==> r.value < |bs| && bs[r.value].id == id &&
                        forall j :: 0 <= j < r.value ==> bs[j].id != id
    ensures r.None? ==> forall j :: 0 <= j < |bs| ==> bs[j].id != id
  {
    if |bs| == 0 then None
    else if bs[0].id == id then Some(0)
    else match FindIndex(bs[1..], id)
      case None => None
      case Some(k) => Some(k + 1)
  }

  /** `Where(b => b.InputId == inputId)`: modifiers and IsEnabled are ignored. */
  function ForInput(bs: seq<KeyBinding>, inputId: string): (r: seq<KeyBinding>)
    ensures |r| <= |bs|
    ensures forall b :: b in r <==> b in bs && b.inputId == inputId
  {
    if |bs| == 0 then []
    else if bs[0].inputId == inputId then [bs[0]] + ForInput(bs[1..], inputId)
    else ForInput(bs[1..], inputId)
  }

  /** The filter keeps list order and duplicates: it distributes over
      concatenation, and keeps or drops each single binding whole. */
  lemma {:induction false} ForInputAppend(a: seq<KeyBinding>, b: seq<KeyBinding>, inputId: string)
    ensures ForInput(a + b, inputId) == ForInput(a, inputId) + ForInput(b, inputId)
  {
    if |a| > 0 {
      assert (a + b)[0] == a[0] && (a + b)[1..] == a[1..] + b;
      ForInputAppend(a[1..], b, inputId);
    } else {
      assert a + b == b;
    }
  }

  /** The binding `HandleInput` fires: among the bindings matching the
      event, the highest priority, the earliest on a tie (LINQ's
      `OrderByDescending` is stable, and `First` takes its head). */
  function Winner(bs: seq<KeyBinding>, e: InputEvent): (r: Option<nat>)
    ensures r.None? <==> forall j :: 0 <= j < |bs| ==> !Matches(bs[j], e.inputId, e.ctrl, e.shift, e.alt)
    ensures r.Some? ==> r.value < |bs| && Matches(bs[r.value], e.inputId, e.ctrl, e.shift, e.alt)
    ensures r.Some? ==> forall j :: 0 <= j < |bs| && Matches(bs[j], e.inputId, e.ctrl, e.shift, e.alt) ==>
                          bs[j].priority <= bs[r.value].priority
    ensures r.Some? ==> forall j :: 0 <= j < r.value && Matches(bs[j], e.inputId, e.ctrl, e.shift, e.alt) ==>
                          bs[j].priority < bs[r.value].priority
  {
    if |bs| == 0 then None
    else
      var rest := Winner(bs[1..], e);
      if !Matches(bs[0], e.inputId, e.ctrl, e.shift, e.alt) then
        (match rest case None => None case Some(k) => Some(k + 1))
      else
        (match rest
           case None => Some(0)
           case Some(k) => if bs[0].priority >= bs[k + 1].priority then Some(0) else Some(k + 1))
  }

  /** Appending a binding that does not outrank the current winner (or does
      not match at all) leaves the winner in place. */
  lemma AppendLowerKeepsWinner(bs: seq<KeyBinding>, b: KeyBinding, e: InputEvent)
    requires Winner(bs, e).Some?
    requires Matches(b, e.inputId, e.ctrl, e.shift, e.alt) ==> b.priority <= bs[Winner(bs, e).value].priority
    ensures Winner(bs + [b], e) == Winner(bs, e)
  {
    var w := Winner(bs, e).value;
    var w' := Winner(bs + [b], e);
    assert (bs + [b])[w] == bs[w];
    assert forall j :: 0 <= j < |bs| ==> (bs + [b])[j] == bs[j];
    assert (bs + [b])[|bs|] == b;
    UniqueWinner(bs + [b], e, w);
  }

  /** The winner is determined by its characterization. */
  lemma UniqueWinner(bs: seq<KeyBinding>, e: InputEvent, i: nat)
    requires i < |bs| && Matches(bs[i], e.inputId, e.ctrl, e.shift, e.alt)
    requires forall j :: 0 <= j < |bs| && Matches(bs[j], e.inputId, e.ctrl, e.shift, e.alt) ==> bs[j].priority <= bs[i].priority
    requires forall j :: 0 <= j < i && Matches(bs[j], e.inputId, e.ctrl, e.shift, e.alt) ==> bs[j].priority < bs[i].priority
    ensures Winner(bs, e) == Some(i)
  {
    var w := Winner(bs, e);
  }

  /** The stock list that `LoadDefaultBindings` installs; `ids` are the
      nine fresh Guids its constructors draw. */
  function DefaultBindings(ids: seq<Guid>): (r: seq<KeyBinding>)
    requires |ids| == 9
    ensures |r| == 9
  {
    [ NewKeyBindingFor(ids[0], "Tablet_Button1", OpenRadialMenu).(parameters := map["menuId" := "main_mode"]),
      NewKeyBindingFor(ids[1], "Tablet_Button2", OpenRadialMenu).(parameters := map["menuId" := "pen_tools"]),
      NewKeyBindingFor(ids[2], "Tablet_Button3", OpenRadialMenu).(parameters := map["menuId" := "shapes"]),
      NewKeyBindingFor(ids[3], "Tablet_Button4", OpenRadialMenu).(parameters := map["menuId" := "colors"]),
      NewKeyBindingFor(ids[4], "Pen_Button1", Pan),
      NewKeyBindingFor(ids[5], "Pen_Button2", ToggleEraser),
      NewKeyBindingFor(ids[6], "Key_Z", Undo).(requiresCtrl := true),
      NewKeyBindingFor(ids[7], "Key_Y", Redo).(requiresCtrl := true),
      NewKeyBindingFor(ids[8], "Key_S", Save).(requiresCtrl := true) ]
  }

  /** The stock bindings have pairwise distinct triggers, so none of them
      conflicts with another, whatever Guids they drew. */
  lemma DefaultsConflictFree(ids: seq<Guid>)
    requires |ids| == 9
    ensures forall i, j :: 0 <= i < j < 9 ==> !SameTrigger(DefaultBindings(ids)[i], DefaultBindings(ids)[j])
    ensures forall i :: 0 <= i < 9 ==> Conflicts(DefaultBindings(ids), DefaultBindings(ids)[i]) == []
  {
    var d := DefaultBindings(ids);
    forall i, j | 0 <= i < j < 9
      ensures !SameTrigger(d[i], d[j])
    {
      assert d[i].inputId != d[j].inputId || d[i].requiresCtrl != d[j].requiresCtrl;
    }
    forall i | 0 <= i < 9
      ensures Conflicts(d, d[i]) == []
    {
      forall k | 0 <= k < 9
        ensures !(SameTrigger(d[k], d[i]) && d[k].id != d[i].id)
      {
      }
      NoConflicts(d, d[i]);
    }
  }

  /** Pressing Ctrl+Z with the stock bindings fires Undo; Z alone, or with
      Ctrl+Shift, fires nothing. */
  lemma DefaultCtrlZIsUndo(ids: seq<Guid>)
    requires |ids| == 9
    ensures Winner(DefaultBindings(ids), InputEvent("Key_Z", true, false, false)) == Some(6)
    ensures DefaultBindings(ids)[6].action == "Undo"
    ensures Winner(DefaultBindings(ids), InputEvent("Key_Z", false, false, false)).None?
    ensures Winner(DefaultBindings(ids), InputEvent("Key_Z", true, true, false)).None?
  {
    var d := DefaultBindings(ids);
    var e := InputEvent("Key_Z", true, false, false);
    forall j | 0 <= j < 9 && j != 6
      ensures !Matches(d[j], e.inputId, e.ctrl, e.shift, e.alt)
    {
    }
    UniqueWinner(d, e, 6);
    NoDefaultForZ(ids, InputEvent("Key_Z", false, false, false));
    NoDefaultForZ(ids, InputEvent("Key_Z", true, true, false));
  }

  /** Z with any modifiers other than Ctrl alone matches no stock binding. */
  lemma NoDefaultForZ(ids: seq<Guid>, e: InputEvent)
    requires |ids| == 9 && e.inputId == "Key_Z" && !(e.ctrl && !e.shift && !e.alt)
    ensures Winner(DefaultBindings(ids), e).None?
  {
    var d := DefaultBindings(ids);
    forall j | 0 <= j < 9
      ensures !Matches(d[j], e.inputId, e.ctrl, e.shift, e.alt)
    {
    }
  }

  class BindingManager {
    /** `_bindings`, in list order. */
    var bindings: seq<KeyBinding>
    /** Everything raised on ActionTriggered and ConflictDetected, in order. */
    var log: seq<ManagerEvent>

    constructor ()
      ensures bindings == [] && log == []
    {
      bindings := [];
      log := [];
    }

    /** Replaces the list with the stock bindings. */
    method LoadDefaultBindings(ids: seq<Guid>)
      requires |ids| == 9
      modifies this
      ensures bindings == DefaultBindings(ids) && log == old(log)
    {
      bindings := DefaultBindings(ids);
    }

    /** A missing file installs the defaults, a file holding `null` an empty
        list, a parsed list that list; a malformed file throws and leaves
        the list as it was. */
    method LoadBindings(file: BindingsFile, ids: seq<Guid>) returns (outcome: Outcome)
      requires |ids| == 9
      modifies this
      ensures log == old(log)
      ensures file.Missing? ==> outcome == Done && bindings == DefaultBindings(ids)
      ensures file == Present(ParsedNull) ==> outcome == Done && bindings == []
      ensures file.Present? && file.content.ParsedList? ==> outcome == Done && bindings == file.content.list
      ensures file == Present(Malformed) ==> outcome == Threw(JsonParse) && bindings == old(bindings)
    {
      match file
      case Missing =>
        LoadDefaultBindings(ids);
        outcome := Done;
      case Present(content) =>
        match content
        case Malformed => outcome := Threw(JsonParse);
        case ParsedNull => bindings := []; outcome := Done;
        case ParsedList(list) => bindings := list; outcome := Done;
    }

    /** Conflicts are advisory: the binding is always appended, after one
        ConflictDetected event carrying the conflicts if there are any. */
    method AddBinding(b: KeyBinding)
      modifies this
      ensures bindings == old(bindings) + [b]
      ensures Conflicts(old(bindings), b) == [] ==> log == old(log)
      ensures Conflicts(old(bindings), b) != [] ==>
        log == old(log) + [ConflictDetected(b, Conflicts(old(bindings), b))]
    {
      var conflicts := CheckConflicts(b);
      if conflicts != [] {
        log := log + [ConflictDetected(b, conflicts)];
      }
      bindings := bindings + [b];
    }

    /** Removes every binding with that Id; the rest keep their order. */
    method RemoveBinding(id: Guid)
      modifies this
      ensures bindings == RemoveId(old(bindings), id) && log == old(log)
    {
      bindings := RemoveId(bindings, id);
    }

    /** Replaces the first binding with the same Id in place; no-op if none. */
    method UpdateBinding(b: KeyBinding)
      modifies this
      ensures |bindings| == |old(bindings)| && log == old(log)
      ensures FindIndex(old(bindings), b.id).None? ==> bindings == old(bindings)
      ensures FindIndex(old(bindings), b.id).Some? ==>
        bindings == old(bindings)[FindIndex(old(bindings), b.id).value := b]
    {
      var index := FindIndex(bindings, b.id);
      if index.Some? {
        bindings := bindings[index.value := b];
      }
    }

    method GetAllBindings() returns (r: seq<KeyBinding>)
      ensures r == bindings
    {
      r := bindings;
    }

    method GetBindingsForInput(inputId: string) returns (r: seq<KeyBinding>)
      ensures r == ForInput(bindings, inputId)
    {
      r := ForInput(bindings, inputId);
    }

    method CheckConflicts(nb: KeyBinding) returns (r: seq<KeyBinding>)
      ensures r == Conflicts(bindings, nb)
    {
      r := Conflicts(bindings, nb);
    }

    /** Fires the winning binding's action and parameters, or nothing. */
    method HandleInput(e: InputEvent)
      modifies this
      ensures bindings == old(bindings)
      ensures Winner(bindings, e).None? ==> log == old(log)
      ensures Winner(bindings, e).Some? ==>
        var b := bindings[Winner(bindings, e).value];
        log == old(log) + [ActionTriggered(b.action, b.parameters)]
    {
      var w := Winner(bindings, e);
      if w.Some? {
        var b := bindings[w.value];
        log := log + [ActionTriggered(b.action, b.parameters)];
      }
    }
  }
}
