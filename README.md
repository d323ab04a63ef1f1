# StylusCore core, modelled and verified in Dafny

StylusCore is a pen-first note-taking application. This project models its core logic and proves properties about it:

- **Input pipeline.** The keyboard, mouse and tablet adapters turn raw presses into canonical input ids (`Key_Z`, `Mouse_4`, `Tablet_Button3`, `Tablet_Dial2_Click`). The key bindings and the binding manager map an id plus modifiers to an action. The action router dispatches actions to registered handlers, and the action catalogue describes them.
- **Device calibration.** The calibration wizard is a ten-step state machine that records the raw input seen at each step.
- **Menus and shell.** The radial-menu table and the shell view-model turn triggered actions into mode, theme, sidebar and ribbon changes.
- **Names and documents.** The validator checks library and notebook names. Two in-memory document stores hold libraries, notebooks and pages.
- **Editor.** The editor view-model handles page navigation, page and section ordering, section colours, strokes and undo/redo.
- **Drawing tools.** The pen, highlighter and eraser tools build strokes and erase requests from pointer gestures.

Each source class whose fields change in place is a Dafny `class` with the same fields and `modifies` frames. Each method's `ensures` ties the new state to a pure function of the old state. The properties the code promises are proved as lemmas about those functions: round trips, idempotence, invariants, orderings, and "nothing else changes".

Notes on the modelling:

- **Entities.** Value entities are datatypes. Object identity is a `Guid(n)` value, and `Guid.NewGuid()` becomes a fresh id passed in by the caller.
- **Errors.** A thrown exception becomes an `Exn` value in the result. The state is left as it was at the point of the throw.
- **Events.** Events each class raises go to one ordered log field, so the order of several events from one call is visible.
- **Loops.** The loops of the page renumbering are separate methods, each proved against the function that specifies it.

The project has one module per source file:

| module | source file |
|---|---|
| `Common`, `Models`, `InputEvents` | shared values, the models and the input event records |
| `Keyboard`, `Mouse`, `Tablet` | the three device adapters |
| `Bindings`, `BindingRegistry` | `KeyBinding.cs` and `BindingManager.cs` |
| `Actions`, `ActionCatalog` | `ActionRouter.cs` and `ActionCatalog.cs` |
| `Calibration` | `DeviceCalibrator.cs` |
| `RadialMenus` | `RadialMenuBinding.cs` |
| `Shell` | `MainViewModel.cs` |
| `Validation` | `ValidationService.cs` |
| `Storage`, `Persistence`, `DocumentLists` | `StorageService.cs`, `SqliteDocumentStore.cs` and the list logic they share |
| `PageOrdering`, `Editor` | `EditorViewModel.cs`: the ordering functions and the view-model |
| `BaseTools`, `PenTools`, `HighlighterTools`, `EraserTools` | `ITool.cs`, `PenTool.cs`, `HighlighterTool.cs`, `EraserTool.cs` |

## Model

| member | source | states |
|---|---|---|
| Common.NatToString | src/StylusCore.Input/Devices/TabletDevice.cs:90 | the decimal rendering of a non-negative int is a non-empty digit string with no leading zero |
| Common.IntToString | src/StylusCore.Input/Devices/TabletDevice.cs:90 | the rendering starts with a minus sign exactly when the number is negative |
| Common.NatToStringRoundTrip | src/StylusCore.Input/Devices/TabletDevice.cs:90 | reading the digits back gives the number, so the rendering loses nothing |
| Common.NatToStringInjective | src/StylusCore.Input/Devices/TabletDevice.cs:90 | two naturals with the same rendering are equal |
| Common.IntToStringInjective | src/StylusCore.Input/Devices/TabletDevice.cs:90 | two ints with the same rendering are equal, so index-built ids never collide |
| InputEvents.NewInputEvent | src/StylusCore.Engine.Wpf/Input/Devices/IInputDevice.cs:74-83 | an event built from an id alone carries that id and no modifier |
| Models.NewStroke | src/StylusCore.Core/Models/Stroke.cs:58-69 | a new stroke has no page, no points, colour #000000, width 2, opacity 1 and is not a highlighter |
| Keyboard.KeyInputId | src/StylusCore.Engine.Wpf/Input/Devices/KeyboardDevice.cs:62-65 | a key id is `Key_` followed by exactly the key name |
| Keyboard.KeyInputIdInjective | src/StylusCore.Engine.Wpf/Input/Devices/KeyboardDevice.cs:62-65 | different keys get different ids |
| Keyboard.KeyboardDevice.constructor | src/StylusCore.Engine.Wpf/Input/Devices/KeyboardDevice.cs:11-13 | id and name are "Keyboard", always connected, not initialized, nothing raised |
| Keyboard.KeyboardDevice.Initialize | src/StylusCore.Engine.Wpf/Input/Devices/KeyboardDevice.cs:20-27 | always returns true and leaves the device initialized; a second call changes nothing |
| Keyboard.KeyboardDevice.Shutdown | src/StylusCore.Engine.Wpf/Input/Devices/KeyboardDevice.cs:29-32 | clears the initialized flag in any state and raises nothing |
| Keyboard.KeyboardDevice.OnKeyDown | src/StylusCore.Engine.Wpf/Input/Devices/KeyboardDevice.cs:37-47 | raises exactly one ButtonPressed with the key id and the current Ctrl/Shift/Alt state |
| Keyboard.KeyboardDevice.OnKeyUp | src/StylusCore.Engine.Wpf/Input/Devices/KeyboardDevice.cs:52-57 | raises exactly one ButtonReleased with the same id and every modifier false |
| Mouse.MouseInputIdsDistinct | src/StylusCore.Input/Devices/MouseDevice.cs:91-102 | the five named buttons get five different ids, all starting with `Mouse_` |
| Mouse.UndefinedButtonCollides | src/StylusCore.Input/Devices/MouseDevice.cs:100 | the default branch renders an undefined button 5 as `Mouse_5`, the id of XButton2 |
| Mouse.WheelInputId | src/StylusCore.Input/Devices/MouseDevice.cs:81 | the wheel id is `Mouse_Wheel_Up` iff the raw delta is positive, `Mouse_Wheel_Down` otherwise (delta 0 included) |
| Mouse.WheelDelta | src/StylusCore.Input/Devices/MouseDevice.cs:82 | the notch count keeps the sign of the raw delta, never overshoots the delta over 120 and is off by less than one notch |
| Mouse.WheelDeltaOdd | src/StylusCore.Input/Devices/MouseDevice.cs:82 | the notch count is odd in the delta: negating the delta negates the count |
| Mouse.WheelDeltaTruncates | src/StylusCore.Input/Devices/MouseDevice.cs:82 | the division truncates toward zero: -60 gives 0 notches where Euclidean division gives -1 |
| Mouse.MouseInputId | src/StylusCore.Input/Devices/MouseDevice.cs:91-102 | every button id starts with `Mouse_`; an undefined button code is rendered in decimal after it |
| Mouse.MouseDevice.constructor | src/StylusCore.Input/Devices/MouseDevice.cs:11-13 | id and name are "Mouse", always connected, not initialized, nothing raised |
| Mouse.MouseDevice.Initialize | src/StylusCore.Input/Devices/MouseDevice.cs:22-27 | always returns true and leaves the device initialized; nothing raised |
| Mouse.MouseDevice.Shutdown | src/StylusCore.Input/Devices/MouseDevice.cs:29-32 | clears the initialized flag in any state |
| Mouse.MouseDevice.OnMouseDown | src/StylusCore.Input/Devices/MouseDevice.cs:37-47 | one ButtonPressed with the button id and the modifier state |
| Mouse.MouseDevice.OnMouseUp | src/StylusCore.Input/Devices/MouseDevice.cs:52-57 | one ButtonReleased with the button id and no modifier |
| Mouse.MouseDevice.OnMouseMove | src/StylusCore.Input/Devices/MouseDevice.cs:62-72 | one pointer event with id `Mouse_Move`, the position and pressure 1 |
| Mouse.MouseDevice.OnMouseWheel | src/StylusCore.Input/Devices/MouseDevice.cs:77-86 | one wheel event with the direction id, the truncated notch count, the Ctrl state and the default mode "Zoom" |
| Tablet.TabletButtonIdInjective | src/StylusCore.Input/Devices/TabletDevice.cs:88-101 | `Tablet_Button{n}` ids of different indices differ |
| Tablet.TabletButtonId | src/StylusCore.Input/Devices/TabletDevice.cs:90 | the id is `Tablet_Button` followed by the decimal index |
| Tablet.PenButtonIdInjective | src/StylusCore.Input/Devices/TabletDevice.cs:106-119 | `Pen_Button{n}` ids of different indices differ |
| Tablet.PenButtonId | src/StylusCore.Input/Devices/TabletDevice.cs:108 | the id is `Pen_Button` followed by the decimal index |
| Tablet.DialClickId | src/StylusCore.Input/Devices/TabletDevice.cs:132 | a dial click id is the dial id with `_Click` appended, so it never equals the dial id |
| Tablet.DefaultDialModes | src/StylusCore.Input/Devices/TabletDevice.cs:44-48 | a new tablet has mode lists for dials 1 and 2 only, each non-empty |
| Tablet.TabletAndPenIdsDisjoint | src/StylusCore.Input/Devices/TabletDevice.cs:90-108 | an express key and a pen button never share an id |
| Tablet.NextModeIndexWraps | src/StylusCore.Input/Devices/TabletDevice.cs:129 | one click moves a valid cursor to the next mode, from the last mode back to the first |
| Tablet.NextModeIndex | src/StylusCore.Input/Devices/TabletDevice.cs:129 | the next mode index always lies within the dial's mode list |
| Tablet.ClicksAdvance | src/StylusCore.Input/Devices/TabletDevice.cs:129 | up to a full turn, k clicks advance the cursor k places, wrapping once |
| Tablet.FullCycleRestores | src/StylusCore.Input/Devices/TabletDevice.cs:129 | clicking a dial as many times as it has modes restores its mode |
| Tablet.CurrentDialMode | src/StylusCore.Input/Devices/TabletDevice.cs:182-189 | an unconfigured dial reports "Unknown"; a configured dial reports the mode under its cursor; a dial configured with no modes throws index-out-of-range |
| Tablet.TabletDevice.constructor | src/StylusCore.Input/Devices/TabletDevice.cs:35-56 | 6 buttons, 2 dials, 2 pen buttons, 8192 levels, tilt; dial 1 = Zoom/ScrollH/ScrollV and dial 2 = BrushSize/Opacity, both at index 0; not connected |
| Tablet.TabletDevice.Initialize | src/StylusCore.Input/Devices/TabletDevice.cs:58-76 | returns true and connects; a second call changes nothing |
| Tablet.TabletDevice.Shutdown | src/StylusCore.Input/Devices/TabletDevice.cs:78-83 | clears initialized and connected in any state; dial state and events untouched |
| Tablet.TabletDevice.OnButtonDown | src/StylusCore.Input/Devices/TabletDevice.cs:88-92 | one ButtonPressed `Tablet_Button{n}`, nothing else changes |
| Tablet.TabletDevice.OnButtonUp | src/StylusCore.Input/Devices/TabletDevice.cs:97-101 | one ButtonReleased `Tablet_Button{n}`, nothing else changes |
| Tablet.TabletDevice.OnPenButtonDown | src/StylusCore.Input/Devices/TabletDevice.cs:106-110 | one ButtonPressed `Pen_Button{n}`, nothing else changes |
| Tablet.TabletDevice.OnPenButtonUp | src/StylusCore.Input/Devices/TabletDevice.cs:115-119 | one ButtonReleased `Pen_Button{n}`, nothing else changes |
| Tablet.TabletDevice.OnDialClick | src/StylusCore.Input/Devices/TabletDevice.cs:124-144 | unconfigured dial: no change, no event; empty mode list: divide-by-zero, no change; otherwise the cursor steps with wrap-around, then ButtonPressed `Tablet_Dial{n}_Click`, then a dial event with the new mode and delta 0 |
| Tablet.TabletDevice.OnDialRotate | src/StylusCore.Input/Devices/TabletDevice.cs:149-159 | never moves the cursor; reports the delta with the current mode, or fails as GetCurrentDialMode fails |
| Tablet.TabletDevice.OnPenMove | src/StylusCore.Input/Devices/TabletDevice.cs:164-177 | one pointer event `Pen_Eraser` or `Pen_Tip` carrying position, pressure, tilt and the eraser flag |
| Tablet.TabletDevice.GetCurrentDialMode | src/StylusCore.Input/Devices/TabletDevice.cs:182-189 | agrees with CurrentDialMode on the device state |
| Tablet.TabletDevice.SetDialModes | src/StylusCore.Input/Devices/TabletDevice.cs:194-198 | replaces one dial's modes and resets its cursor to 0; other dials unchanged |
| Bindings.NewKeyBinding | src/StylusCore.Engine.Wpf/Input/Bindings/KeyBinding.cs:61-70 | a new binding has the fresh id, empty input id, action, name and parameters, priority 0, is enabled and requires no modifier |
| Bindings.NewKeyBindingFor | src/StylusCore.Engine.Wpf/Input/Bindings/KeyBinding.cs:72-76 | the two-argument constructor is the default one with only input id and action set |
| Bindings.DisabledNeverMatches | src/StylusCore.Engine.Wpf/Input/Bindings/KeyBinding.cs:83 | a disabled binding matches no input |
| Bindings.MatchIsExact | src/StylusCore.Engine.Wpf/Input/Bindings/KeyBinding.cs:81-89 | a binding matches exactly one input and modifier triple: an extra or a missing modifier loses the match |
| Bindings.Matches | src/StylusCore.Engine.Wpf/Input/Bindings/KeyBinding.cs:81-89 | a binding matches iff it is enabled and the input id and all three modifier flags equal its own |
| Bindings.EnabledMatchesOwnTrigger | src/StylusCore.Engine.Wpf/Input/Bindings/KeyBinding.cs:81-89 | an enabled binding matches its own input id with its own modifier triple |
| Bindings.JoinSnoc | src/StylusCore.Engine.Wpf/Input/Bindings/KeyBinding.cs:101 | joining parts that end in `last` puts the separator after each earlier part and nothing after `last` |
| Bindings.DescriptionShape | src/StylusCore.Engine.Wpf/Input/Bindings/KeyBinding.cs:94-102 | the description lists the required modifiers in the order Ctrl, Shift, Alt, each followed by " + ", then the input id; with no modifier it is the input id |
| Bindings.Description | src/StylusCore.Engine.Wpf/Input/Bindings/KeyBinding.cs:94-102 | the description ends with the input id, and is exactly the input id when no modifier is required |
| BindingRegistry.Conflicts | src/StylusCore.Input/Bindings/BindingManager.cs:153-162 | a conflict is a binding of the list with the same input id and modifier triple and a different id, enabled or not |
| BindingRegistry.ConflictsAppend | src/StylusCore.Input/Bindings/BindingManager.cs:155-161 | conflicts are found in list order: those of a concatenation are those of each part, in order |
| BindingRegistry.NoConflicts | src/StylusCore.Input/Bindings/BindingManager.cs:155-161 | a list with no same-trigger binding of another id yields no conflict |
| BindingRegistry.CoMatchingBindingsConflict | src/StylusCore.Input/Bindings/BindingManager.cs:153-162 | two bindings of different ids that match the same input event conflict |
| BindingRegistry.RemoveId | src/StylusCore.Input/Bindings/BindingManager.cs:117-120 | removal keeps exactly the bindings of other ids |
| BindingRegistry.RemoveIdAppend | src/StylusCore.Input/Bindings/BindingManager.cs:119 | removal keeps the survivors' relative order: it distributes over concatenation |
| BindingRegistry.RemoveAbsentId | src/StylusCore.Input/Bindings/BindingManager.cs:119 | removing an absent id changes nothing |
| BindingRegistry.FindIndex | src/StylusCore.Input/Bindings/BindingManager.cs:127 | the result is the first index holding the id, or none when no binding has it |
| BindingRegistry.ForInput | src/StylusCore.Input/Bindings/BindingManager.cs:145-148 | the bindings for an input are those with that input id, whatever their modifiers or enabled flag |
| BindingRegistry.ForInputAppend | src/StylusCore.Input/Bindings/BindingManager.cs:145-148 | filtering a concatenation is concatenating the filtered parts, so the filter keeps the list order |
| BindingRegistry.Winner | src/StylusCore.Input/Bindings/BindingManager.cs:167-179 | none iff no binding matches; otherwise a matching binding of the highest priority, and every earlier matching binding has a strictly lower priority (the stable descending sort) |
| BindingRegistry.AppendLowerKeepsWinner | src/StylusCore.Input/Bindings/BindingManager.cs:102-179 | appending a binding that does not outrank the winner keeps the winner |
| BindingRegistry.UniqueWinner | src/StylusCore.Input/Bindings/BindingManager.cs:169-176 | the winner is the only index with the characterizing properties |
| BindingRegistry.DefaultBindings | src/StylusCore.Input/Bindings/BindingManager.cs:78-97 | the stock list has nine bindings |
| BindingRegistry.DefaultsConflictFree | src/StylusCore.Input/Bindings/BindingManager.cs:78-97 | the stock bindings have pairwise different triggers, so none conflicts with another, whatever ids they drew |
| BindingRegistry.DefaultCtrlZIsUndo | src/StylusCore.Input/Bindings/BindingManager.cs:93-179 | with the stock bindings Ctrl+Z fires Undo, while Z alone or Ctrl+Shift+Z fires nothing |
| BindingRegistry.NoDefaultForZ | src/StylusCore.Input/Bindings/BindingManager.cs:93-179 | Z with any modifiers other than Ctrl alone matches no stock binding |
| BindingRegistry.BindingManager.constructor | src/StylusCore.Input/Bindings/BindingManager.cs:28-37 | a new manager has no binding and has raised nothing |
| BindingRegistry.BindingManager.LoadDefaultBindings | src/StylusCore.Input/Bindings/BindingManager.cs:78-97 | the list becomes exactly the stock list |
| BindingRegistry.BindingManager.LoadBindings | src/StylusCore.Input/Bindings/BindingManager.cs:47-58 | no file: the stock list; a file that deserializes to null: the empty list; a list: that list; malformed text: the parse exception escapes and the list is kept |
| BindingRegistry.BindingManager.AddBinding | src/StylusCore.Input/Bindings/BindingManager.cs:102-112 | always appends at the end; raises one ConflictDetected with exactly the conflicts iff there are any |
| BindingRegistry.BindingManager.RemoveBinding | src/StylusCore.Input/Bindings/BindingManager.cs:117-120 | the list becomes RemoveId of the old list |
| BindingRegistry.BindingManager.UpdateBinding | src/StylusCore.Input/Bindings/BindingManager.cs:125-132 | replaces the first binding with that id at its index and is a no-op otherwise; the length never changes |
| BindingRegistry.BindingManager.GetAllBindings | src/StylusCore.Input/Bindings/BindingManager.cs:137-140 | returns the list |
| BindingRegistry.BindingManager.GetBindingsForInput | src/StylusCore.Input/Bindings/BindingManager.cs:145-148 | returns ForInput of the list |
| BindingRegistry.BindingManager.CheckConflicts | src/StylusCore.Input/Bindings/BindingManager.cs:153-162 | returns Conflicts of the list |
| BindingRegistry.BindingManager.HandleInput | src/StylusCore.Input/Bindings/BindingManager.cs:167-179 | raises one ActionTriggered with the winner's action and parameters, or nothing when no binding matches; the list is unchanged |
| Actions.CanExecuteWith | src/StylusCore.Engine.Wpf/Input/Actions/ActionRouter.cs:67-75 | with a registered predicate the answer is the predicate's, an exception included; otherwise it is whether a handler is registered |
| Actions.UnregisteredCannotExecute | src/StylusCore.Engine.Wpf/Input/Actions/ActionRouter.cs:40-75 | while predicates only exist beside handlers, an action with no handler answers false without consulting any predicate |
| Actions.ActionRouter.constructor | src/StylusCore.Engine.Wpf/Input/Actions/ActionRouter.cs:14-15 | a new router has no handler, no predicate, and has dispatched nothing |
| Actions.ActionRouter.Register | src/StylusCore.Engine.Wpf/Input/Actions/ActionRouter.cs:28-35 | installs or replaces the handler; a given predicate replaces the old one, an absent one leaves any earlier predicate in place; predicate keys stay within handler keys |
| Actions.ActionRouter.Unregister | src/StylusCore.Engine.Wpf/Input/Actions/ActionRouter.cs:40-44 | removes both the handler and the predicate of that id |
| Actions.ActionRouter.Dispatch | src/StylusCore.Engine.Wpf/Input/Actions/ActionRouter.cs:47-64 | runs the handler once with the payload iff it is registered and can-execute answers true; reports (id, result) once when the call returns; a throwing predicate or handler escapes unreported, the handler run still logged when the handler throws; the registry is unchanged |
| Actions.ActionRouter.CanExecute | src/StylusCore.Engine.Wpf/Input/Actions/ActionRouter.cs:67-75 | agrees with CanExecuteWith on the registry, a throwing predicate included |
| Actions.ActionRouter.IsRegistered | src/StylusCore.Engine.Wpf/Input/Actions/ActionRouter.cs:80 | true iff a handler is registered |
| Actions.ActionRouter.GetRegisteredActions | src/StylusCore.Engine.Wpf/Input/Actions/ActionRouter.cs:85 | exactly the handler keys |
| ActionCatalog.Keys | src/StylusCore.Core/Actions/ActionCatalog.cs:76 | the key list has one entry per table row, each the row's id, in order |
| ActionCatalog.Lookup | src/StylusCore.Core/Actions/ActionCatalog.cs:68-71 | none iff no row has the id; otherwise the metadata of a row with that id |
| ActionCatalog.GetMetadata | src/StylusCore.Core/Actions/ActionCatalog.cs:68-71 | no metadata iff the id is not among the catalogued ids; found metadata is the row of that id |
| ActionCatalog.GetAllActionIds | src/StylusCore.Core/Actions/ActionCatalog.cs:76 | the ids are the catalogue's keys, one per row, in table order |
| ActionCatalog.LookupFindsEntry | src/StylusCore.Core/Actions/ActionCatalog.cs:27-71 | with distinct ids every row is found by its own id |
| ActionCatalog.CatalogShape | src/StylusCore.Core/Actions/ActionCatalog.cs:27-62 | the catalog holds 28 rows with pairwise distinct ids |
| ActionCatalog.CatalogLookups | src/StylusCore.Core/Actions/ActionCatalog.cs:68-76 | every catalogued id yields its own entry; GetAllActionIds lists exactly the ids GetMetadata knows, each once |
| ActionCatalog.NotInTable | src/StylusCore.Core/Actions/ActionCatalog.cs:70 | an id that no row has yields null |
| ActionCatalog.UncataloguedIds | src/StylusCore.Core/Actions/ActionIds.cs:49-93 | `nav.page.goto` and `view.fullscreen` are defined ids with no catalog entry |
| ActionCatalog.OnlyPageDeleteLacksHint | src/StylusCore.Core/Actions/ActionCatalog.cs:29-61 | exactly one entry, `page.delete`, has a null gesture hint |
| Calibration.SlotsAreTabletIds | src/StylusCore.Input/Calibration/DeviceCalibrator.cs:90-106 | steps 1-6 name the tablet's `Tablet_Button{n}`, 7-8 its dials, 9-10 the pen buttons, and every other step is ("Unknown step", "Unknown") |
| Calibration.SlotsDistinct | src/StylusCore.Input/Calibration/DeviceCalibrator.cs:94-103 | the ten steps have ten different slot names |
| Calibration.StepInfoUnknown | src/StylusCore.Input/Calibration/DeviceCalibrator.cs:90-106 | the step info is ("Unknown step", "Unknown") exactly for steps outside 1..10 |
| Calibration.NextStepAnnouncesInRange | src/StylusCore.Input/Calibration/DeviceCalibrator.cs:70-88 | advancing adds one to the step; StepChanged only ever announces steps 1..10 out of 10, and past step 10 the wizard completes instead |
| Calibration.NextStepRaisesOne | src/StylusCore.Input/Calibration/DeviceCalibrator.cs:70-88 | advancing adds one step and raises exactly one event: StepChanged with the new step's instruction and input name while within the ten steps, otherwise completion carrying the detected inputs; detected inputs and device are kept |
| Calibration.CompleteReports | src/StylusCore.Input/Calibration/DeviceCalibrator.cs:115-129 | completing detaches as cleanup does, sets Completed, keeps step and detected inputs, and raises one successful result carrying exactly the detected inputs |
| Calibration.CleanupDetachesOnce | src/StylusCore.Input/Calibration/DeviceCalibrator.cs:131-137 | cleanup changes only the attachments: one attachment of the current device goes when there is one; with no device or none attached nothing changes |
| Calibration.DeliverAnnouncesInRange | src/StylusCore.Input/Calibration/DeviceCalibrator.cs:108-113 | however often one press is delivered, every announced step stays within 1..10 |
| Calibration.PressWithinSteps | src/StylusCore.Input/Calibration/DeviceCalibrator.cs:108-113 | a press at step 1..9 records the raw id in that step's slot, keeps every other slot, advances exactly one step and announces the next step |
| Calibration.PressRecords | src/StylusCore.Input/Calibration/DeviceCalibrator.cs:108-113 | at any step a press stores the raw id under that step's input name (under "Unknown" past the last step), keeps the device and advances one step with one event |
| Calibration.NotSlotWithinShift | src/StylusCore.Input/Calibration/DeviceCalibrator.cs:94-103 | a key that is none of n slots from a step is not that step's slot nor one of the n-1 following |
| Calibration.FirstSlotNotLater | src/StylusCore.Input/Calibration/DeviceCalibrator.cs:94-103 | a step's slot is not the slot of any later step |
| Calibration.PressAllWithinSteps | src/StylusCore.Input/Calibration/DeviceCalibrator.cs:108-113 | presses within the ten steps fill consecutive slots with one id each, advance the step by their number and keep state, device and handler |
| Calibration.PressAllKeepsOthers | src/StylusCore.Input/Calibration/DeviceCalibrator.cs:108-113 | presses within the ten steps leave every slot they do not reach as it was |
| Calibration.PressAllSplit | src/StylusCore.Input/Calibration/DeviceCalibrator.cs:108-113 | a run of presses split in two is the second part applied after the first |
| Calibration.FullSession | src/StylusCore.Input/Calibration/DeviceCalibrator.cs:39-129 | starting on a device and pressing ten times completes with a success result that copies the detected inputs, names the device, counts 6/2/2, holds each press in its step's slot, and leaves the device detached |
| Calibration.SkipAfterCancelCompletes | src/StylusCore.Input/Calibration/DeviceCalibrator.cs:56-129 | SkipStep has no state guard: skipping the last step of a cancelled wizard still completes it and raises a result |
| Calibration.DoubleStartStaysAttached | src/StylusCore.Input/Calibration/DeviceCalibrator.cs:47-137 | starting twice attaches the handler twice and a cancel removes only one, so the device still reaches the wizard |
| Calibration.StartThenCancelDetaches | src/StylusCore.Input/Calibration/DeviceCalibrator.cs:39-68 | one start then a cancel leaves the attachments as they were, in state Cancelled |
| Calibration.StartAnnouncesFirstStep | src/StylusCore.Input/Calibration/DeviceCalibrator.cs:39-51 | start resets the detected inputs and state for the device; with a device it attaches once more and announces step 1 with its instruction; with none it throws after the reset, attaching and raising nothing |
| Calibration.CancelRaisesNothing | src/StylusCore.Input/Calibration/DeviceCalibrator.cs:64-68 | cancel detaches as cleanup does and sets Cancelled, raising nothing and keeping step and detected inputs |
| Calibration.DeviceCalibrator.constructor | src/StylusCore.Input/Calibration/DeviceCalibrator.cs:28-34 | a new wizard is NotStarted at step 0 with no detected input, no device and no attachment |
| Calibration.DeviceCalibrator.StartCalibration | src/StylusCore.Input/Calibration/DeviceCalibrator.cs:39-51 | the new state and outcome are Start of the old state (reset, subscribe, announce step 1; a null device throws after the reset) |
| Calibration.DeviceCalibrator.SkipStep | src/StylusCore.Input/Calibration/DeviceCalibrator.cs:56-59 | the new state is NextStep of the old one |
| Calibration.DeviceCalibrator.Cancel | src/StylusCore.Input/Calibration/DeviceCalibrator.cs:64-68 | the new state is CancelWizard of the old one: detached once, Cancelled, detected inputs kept |
| Calibration.DeviceCalibrator.DeviceButtonPressed | src/StylusCore.Input/Calibration/DeviceCalibrator.cs:108-113 | the press is delivered once per attachment; with no attachment nothing changes |
| RadialMenus.NewItem | src/StylusCore.Engine.Wpf/Input/Bindings/RadialMenuBinding.cs:114-126 | a new item has the fresh id, no label, icon, action or parameters, angle 0, colours #3C3C3C on #FFFFFF, no submenu, and is enabled |
| RadialMenus.NewMenu | src/StylusCore.Engine.Wpf/Input/Bindings/RadialMenuBinding.cs:47-56 | a new menu is named "New Menu", has no items, radius 120, inner radius 40, click activation and a constrained cursor |
| RadialMenus.DefaultMenus | src/StylusCore.Engine.Wpf/Input/Bindings/RadialMenuBinding.cs:149-195 | the stock menus are exactly main_mode (2 items), pen_tools (4) and shapes (6), each stored under its own id |
| RadialMenus.MenuById | src/StylusCore.Engine.Wpf/Input/Bindings/RadialMenuBinding.cs:200-203 | the menu stored under the id, or null when there is none |
| RadialMenus.ColorsMenuMissing | src/StylusCore.Engine.Wpf/Input/Bindings/RadialMenuBinding.cs:200-203 | the stock Tablet_Button4 binding opens menu "colors", which no stock menu provides, so GetMenu returns null for it |
| RadialMenus.AddUnique | src/StylusCore.Engine.Wpf/Input/Bindings/RadialMenuBinding.cs:234-241 | the list gains the menu at its end unless it already holds it, keeps its prefix, and never comes to hold a duplicate |
| RadialMenus.AddUniqueIdempotent | src/StylusCore.Engine.Wpf/Input/Bindings/RadialMenuBinding.cs:238-241 | binding the same menu twice is binding it once |
| RadialMenus.MenusFor | src/StylusCore.Engine.Wpf/Input/Bindings/RadialMenuBinding.cs:247-250 | the bound list, or the empty sequence for an unbound input |
| RadialMenus.RadialMenuBinding.constructor | src/StylusCore.Engine.Wpf/Input/Bindings/RadialMenuBinding.cs:137-144 | starts with the stock menus and no input binding |
| RadialMenus.RadialMenuBinding.GetMenu | src/StylusCore.Engine.Wpf/Input/Bindings/RadialMenuBinding.cs:200-203 | agrees with MenuById |
| RadialMenus.RadialMenuBinding.GetAllMenus | src/StylusCore.Engine.Wpf/Input/Bindings/RadialMenuBinding.cs:208-211 | exactly the stored menus |
| RadialMenus.RadialMenuBinding.SetMenu | src/StylusCore.Engine.Wpf/Input/Bindings/RadialMenuBinding.cs:216-219 | inserts or replaces the entry keyed by the menu's own id; other menus and all bindings unchanged |
| RadialMenus.RadialMenuBinding.RemoveMenu | src/StylusCore.Engine.Wpf/Input/Bindings/RadialMenuBinding.cs:224-227 | deletes that key only; bindings naming it are left in place |
| RadialMenus.RadialMenuBinding.BindInputToMenu | src/StylusCore.Engine.Wpf/Input/Bindings/RadialMenuBinding.cs:232-242 | the input's list becomes AddUnique of its old list (empty if unbound); no list ever holds a duplicate |
| RadialMenus.RadialMenuBinding.GetMenusForInput | src/StylusCore.Engine.Wpf/Input/Bindings/RadialMenuBinding.cs:247-250 | agrees with MenusFor |
| Shell.ParseToolMode | src/StylusCore.App/Shell/ViewModels/MainViewModel.cs:235 | a parsed name is the name of the tool it yields; a string that names no tool parses to nothing |
| Shell.ToolModeNameRoundTrip | src/StylusCore.Core/Enums/ToolMode.cs:6-47 | every tool's enum name parses back to that tool |
| Shell.ToggledEraser | src/StylusCore.App/Shell/ViewModels/MainViewModel.cs:242-246 | the result is Eraser iff the tool was not Eraser, and Pen otherwise |
| Shell.ToggleEraserTwice | src/StylusCore.App/Shell/ViewModels/MainViewModel.cs:242-246 | toggling twice gives Pen from any tool but Eraser, so it is the identity only from Pen or Eraser |
| Shell.ToggledInputMode | src/StylusCore.App/Shell/ViewModels/MainViewModel.cs:225-230 | the input mode always flips |
| Shell.ActionEffect | src/StylusCore.App/Shell/ViewModels/MainViewModel.cs:221-248 | SetInputMode flips the input mode; ToggleEraser toggles the tool; SetToolMode selects the tool named by a parsable "mode" parameter and otherwise changes nothing; any other action changes nothing |
| Shell.SetToolModeSelects | src/StylusCore.App/Shell/ViewModels/MainViewModel.cs:232-240 | a SetToolMode action naming any tool selects exactly that tool, whatever was active |
| Shell.NextRibbonMode | src/StylusCore.App/Shell/ViewModels/MainViewModel.cs:354-371 | every step of the ribbon cycle changes the mode |
| Shell.RibbonCycleThree | src/StylusCore.App/Shell/ViewModels/MainViewModel.cs:354-371 | three steps Full, TabsOnly, Hidden return to the start and two do not |
| Shell.ToggledTheme | src/StylusCore.App/Shell/ViewModels/MainViewModel.cs:261-264 | Dark iff the theme was Light, Light otherwise |
| Shell.ThemeToggleTwice | src/StylusCore.App/Shell/ViewModels/MainViewModel.cs:261-264 | two toggles restore Light and Dark but take any other theme to Dark |
| Shell.VisibilityFlags | src/StylusCore.App/Shell/ViewModels/MainViewModel.cs:119-155 | with no notebook neither the ribbon nor the book text shows; with one the ribbon shows iff the mode is not Hidden and the book text iff the sidebar is expanded; from Hidden the next two cycle steps show the ribbon |
| Shell.EditorActive | src/StylusCore.App/Shell/ViewModels/MainViewModel.cs:119 | the editor is active iff a notebook is open |
| Shell.BookTextVisible | src/StylusCore.App/Shell/ViewModels/MainViewModel.cs:136 | the book text shows only in the editor, and there exactly when the sidebar is expanded |
| Shell.RibbonVisible | src/StylusCore.App/Shell/ViewModels/MainViewModel.cs:155 | the ribbon shows only in the editor, and there exactly when its mode is not Hidden |
| Shell.MainViewModel.constructor | src/StylusCore.App/Shell/ViewModels/MainViewModel.cs:172-196 | starts in KeyboardMouse, Pen, Light, sidebar expanded, ribbon Full, no library or notebook |
| Shell.MainViewModel.SetInputMode | src/StylusCore.App/Shell/ViewModels/MainViewModel.cs:35-47 | sets the mode; notifies and raises InputModeChanged only when the value differs |
| Shell.MainViewModel.SetToolMode | src/StylusCore.App/Shell/ViewModels/MainViewModel.cs:53-64 | sets the tool; notifies only when the value differs |
| Shell.MainViewModel.SetTheme | src/StylusCore.App/Shell/ViewModels/MainViewModel.cs:70-82 | sets the theme; notifies and raises ThemeChanged only when the value differs |
| Shell.MainViewModel.SetLibrary | src/StylusCore.App/Shell/ViewModels/MainViewModel.cs:88-96 | sets the library and always notifies |
| Shell.MainViewModel.SetNotebook | src/StylusCore.App/Shell/ViewModels/MainViewModel.cs:102-114 | sets the notebook and always notifies it, the three flags derived from it and NotebookChanged |
| Shell.MainViewModel.SetSidebarExpanded | src/StylusCore.App/Shell/ViewModels/MainViewModel.cs:125-134 | sets the flag and notifies it and the book-text flag |
| Shell.MainViewModel.SetRibbonMode | src/StylusCore.App/Shell/ViewModels/MainViewModel.cs:142-153 | sets the mode and notifies it and its three derived flags |
| Shell.MainViewModel.OnActionTriggered | src/StylusCore.App/Shell/ViewModels/MainViewModel.cs:221-248 | the input and tool modes become ActionEffect of the old ones and at most one of them changes; a new input mode raises its property notification and InputModeChanged, a new tool mode its property notification; nothing else changes, and nothing is raised when they stay the same |
| Shell.MainViewModel.ToggleSidebar | src/StylusCore.App/Shell/ViewModels/MainViewModel.cs:253-256 | flips the sidebar; the book text then shows iff a notebook is open and the sidebar was collapsed |
| Shell.MainViewModel.ToggleTheme | src/StylusCore.App/Shell/ViewModels/MainViewModel.cs:261-264 | the theme becomes ToggledTheme of the old one, with its notifications |
| Shell.MainViewModel.CycleRibbonMode | src/StylusCore.App/Shell/ViewModels/MainViewModel.cs:354-371 | the ribbon mode becomes the next in the cycle, with its notifications |
| Shell.MainViewModel.NavigateToLibraryRoot | src/StylusCore.App/Shell/ViewModels/MainViewModel.cs:324-331 | closes notebook and library, then requests LibraryView |
| Shell.MainViewModel.NavigateToNotebookList | src/StylusCore.App/Shell/ViewModels/MainViewModel.cs:333-349 | closes the notebook, keeps the library, then requests NotebookList |
| Validation.TrimStart | src/StylusCore.Core/Services/ValidationService.cs:53 | drops exactly the leading white space: the result is a suffix, everything dropped is white space and the result does not start with white space |
| Validation.TrimEnd | src/StylusCore.Core/Services/ValidationService.cs:53 | drops exactly the trailing white space: the result is a prefix, everything dropped is white space and the result does not end with white space |
| Validation.Trim | src/StylusCore.Core/Services/ValidationService.cs:53 | the trimmed name is empty iff every character is whitespace; otherwise it starts and ends with a non-whitespace character |
| Validation.IsWhiteSpace | src/StylusCore.Core/Services/ValidationService.cs:48 | on ASCII, the whitespace characters are the space and tab through carriage return |
| Validation.IsNullOrWhiteSpace | src/StylusCore.Core/Services/ValidationService.cs:48 | a name is null-or-whitespace iff it is absent or trims to nothing |
| Validation.IsInvalidPathChar | src/StylusCore.Core/Services/ValidationService.cs:43 | letters, digits, space, hyphen, underscore and dot are never invalid path characters |
| Validation.TrimOfNonBlank | src/StylusCore.Core/Services/ValidationService.cs:48-53 | a name that is not blank trims to a non-empty string with no white space at either end |
| Validation.TrimOfBlank | src/StylusCore.Core/Services/ValidationService.cs:48-53 | a blank name trims to the empty string |
| Validation.TrimKeepsTrimmed | src/StylusCore.Core/Services/ValidationService.cs:53 | a string with no white space at either end is its own trim |
| Validation.TrimIdempotent | src/StylusCore.Core/Services/ValidationService.cs:53 | trimming twice is trimming once |
| Validation.EqualsIgnoreCaseEquivalence | src/StylusCore.Core/Services/ValidationService.cs:68-101 | case-insensitive comparison is reflexive, symmetric and transitive |
| Validation.CheckNameShape | src/StylusCore.Core/Services/ValidationService.cs:47-65 | none iff the name is not blank and its trimmed form is at most 255 characters and free of invalid path characters; otherwise the message of the first failing check, in the order empty, length, characters |
| Validation.ValidateLibraryName | src/StylusCore.Core/Services/ValidationService.cs:45-74 | valid iff there is no error message, iff the name passes the shape checks and no library has the trimmed name ignoring case; each failure gives its own message, quoting the trimmed name for a clash |
| Validation.ValidateNotebookName | src/StylusCore.Core/Services/ValidationService.cs:76-107 | as for libraries, but the name clashes only with notebooks of the same library |
| Validation.LibraryNameTaken | src/StylusCore.Core/Services/ValidationService.cs:68 | an exact duplicate is always taken; a taken name has an existing library name of the same length |
| Validation.NotebookNameTaken | src/StylusCore.Core/Services/ValidationService.cs:101 | an exact duplicate in the same library is always taken; a taken name implies a notebook of that library exists |
| Validation.NotebookUniquenessIsScoped | src/StylusCore.Core/Services/ValidationService.cs:98-104 | validating against all notebooks or only against the library's own gives the same result |
| Validation.NameTakenIsScoped | src/StylusCore.Core/Services/ValidationService.cs:101 | a name is taken among all notebooks exactly when it is taken among the library's own |
| Validation.ValidationIgnoresSurroundingSpace | src/StylusCore.Core/Services/ValidationService.cs:48-53 | a name and its trimmed form get the same verdict and message |
| Validation.UpperAscii | src/StylusCore.Core/Services/ValidationService.cs:68 | upper-cases each ASCII letter of a string, position by position |
| Validation.LibraryClashIgnoresCase | src/StylusCore.Core/Services/ValidationService.cs:68-71 | a name whose trimmed upper-case form is an existing library's name is refused |
| Storage.StorageService.constructor | src/StylusCore.Core/Services/StorageService.cs:72-86 | a new store holds no library, notebook or page |
| Storage.StorageService.SaveLibrary | src/StylusCore.Core/Services/StorageService.cs:97-106 | the library list becomes Upsert of the old one: the stored entry with that id is removed and the library appended |
| Storage.StorageService.LoadLibrary | src/StylusCore.Core/Services/StorageService.cs:108-112 | the first library with that id, or null |
| Storage.StorageService.SaveNotebook | src/StylusCore.Core/Services/StorageService.cs:114-123 | the notebook list becomes Upsert of the old one |
| Storage.StorageService.LoadNotebook | src/StylusCore.Core/Services/StorageService.cs:125-129 | the first notebook with that id, or null |
| Storage.StorageService.SavePage | src/StylusCore.Core/Services/StorageService.cs:131-140 | the page list becomes Upsert of the old one |
| Storage.StorageService.LoadPage | src/StylusCore.Core/Services/StorageService.cs:142-146 | the first page with that id, or null |
| Storage.StorageService.GetAllLibraries | src/StylusCore.Core/Services/StorageService.cs:148-151 | a fresh array holding the libraries in stored order |
| Storage.StorageService.DeleteLibrary | src/StylusCore.Core/Services/StorageService.cs:153-167 | when the library exists it is removed and so is every notebook of it, the other notebooks keeping their order; otherwise nothing changes; ids stay unique |
| Storage.StorageService.DeleteNotebook | src/StylusCore.Core/Services/StorageService.cs:169-177 | the notebook list becomes RemoveWithId of the old one |
| Persistence.SqliteDocumentStore.constructor | src/StylusCore.Infrastructure/Persistence/SqliteDocumentStore.cs:22-34 | a new store holds no library, notebook or page |
| Persistence.SqliteDocumentStore.SaveLibrary | src/StylusCore.Infrastructure/Persistence/SqliteDocumentStore.cs:45-54 | the library list becomes Upsert of the old one: the stored entry with that id is removed and the library appended |
| Persistence.SqliteDocumentStore.LoadLibrary | src/StylusCore.Infrastructure/Persistence/SqliteDocumentStore.cs:56-60 | the first library with that id, or null |
| Persistence.SqliteDocumentStore.SaveNotebook | src/StylusCore.Infrastructure/Persistence/SqliteDocumentStore.cs:62-71 | the notebook list becomes Upsert of the old one |
| Persistence.SqliteDocumentStore.LoadNotebook | src/StylusCore.Infrastructure/Persistence/SqliteDocumentStore.cs:73-77 | the first notebook with that id, or null |
| Persistence.SqliteDocumentStore.SavePage | src/StylusCore.Infrastructure/Persistence/SqliteDocumentStore.cs:79-88 | the page list becomes Upsert of the old one |
| Persistence.SqliteDocumentStore.LoadPage | src/StylusCore.Infrastructure/Persistence/SqliteDocumentStore.cs:90-94 | the first page with that id, or null |
| Persistence.SqliteDocumentStore.GetAllLibraries | src/StylusCore.Infrastructure/Persistence/SqliteDocumentStore.cs:96-99 | a fresh array holding the libraries in stored order |
| Persistence.SqliteDocumentStore.DeleteLibrary | src/StylusCore.Infrastructure/Persistence/SqliteDocumentStore.cs:101-114 | when the library exists it is removed and so is every notebook of it, the other notebooks keeping their order; otherwise nothing changes; ids stay unique |
| Persistence.SqliteDocumentStore.DeleteNotebook | src/StylusCore.Infrastructure/Persistence/SqliteDocumentStore.cs:116-124 | the notebook list becomes RemoveWithId of the old one |
| DocumentLists.FirstIndex | src/StylusCore.Core/Services/StorageService.cs:99 | the position of the first entry with the id, or none when no entry has it |
| DocumentLists.FirstWithId | src/StylusCore.Core/Services/StorageService.cs:110 | none iff no entry has the id; otherwise an entry with that id |
| DocumentLists.FirstWithIdIsTheEntry | src/StylusCore.Core/Services/StorageService.cs:110 | with unique ids the entry found for an entry's id is that entry |
| DocumentLists.RemoveFirst | src/StylusCore.Core/Services/StorageService.cs:102 | `List.Remove` drops one occurrence: the multiset loses exactly one copy, and an absent value changes nothing |
| DocumentLists.RemoveFirstAt | src/StylusCore.Core/Services/StorageService.cs:102 | removing the first occurrence cuts the list at its position, keeping the order of the rest |
| DocumentLists.CutSpec | src/StylusCore.Core/Services/StorageService.cs:171-175 | cutting out one entry keeps the ids unique and keeps exactly the entries with other ids |
| DocumentLists.RemoveWithIdSpec | src/StylusCore.Core/Services/StorageService.cs:169-177 | with unique ids, removal by id keeps exactly the other entries and the ids stay unique |
| DocumentLists.RemoveWithId | src/StylusCore.Core/Services/StorageService.cs:169-177 | with no entry of that id the list is unchanged; otherwise exactly one entry, the first with the id, goes |
| DocumentLists.Upsert | src/StylusCore.Core/Services/StorageService.cs:97-106 | the saved entry ends up last |
| DocumentLists.UpsertSpec | src/StylusCore.Core/Services/StorageService.cs:97-106 | after a save the ids are still unique, a load of the id finds the saved entry, and the entries with other ids are exactly those kept |
| DocumentLists.UpsertLeavesOtherIds | src/StylusCore.Core/Services/StorageService.cs:97-112 | saving one entry does not change what a load of another id finds |
| DocumentLists.RemoveWithIdLoads | src/StylusCore.Core/Services/StorageService.cs:169-177 | after a removal a load of that id finds nothing and loads of other ids are unchanged |
| DocumentLists.NotebooksOf | src/StylusCore.Core/Services/StorageService.cs:160 | exactly the notebooks of that library |
| DocumentLists.NotebooksOutside | src/StylusCore.Core/Services/StorageService.cs:153-167 | exactly the notebooks of other libraries, as many as the library's notebooks leave |
| DocumentLists.DropNoneOf | src/StylusCore.Core/Services/StorageService.cs:161-164 | before the cascade loop runs the list is unchanged |
| DocumentLists.DropNextOf | src/StylusCore.Core/Services/StorageService.cs:161-164 | each turn of the cascade loop removes exactly the next notebook of the library |
| DocumentLists.DropAllOf | src/StylusCore.Core/Services/StorageService.cs:161-164 | after the loop the survivors are exactly the other libraries' notebooks, in order |
| DocumentLists.OutsideKeepsUniqueIds | src/StylusCore.Core/Services/StorageService.cs:153-167 | the cascade keeps notebook ids unique |
| PageOrdering.InsertBy | src/StylusCore.App/Features/Editor/ViewModels/EditorViewModel.cs:330 | one insertion step of the sort adds one element |
| PageOrdering.InsertByPermutes | src/StylusCore.App/Features/Editor/ViewModels/EditorViewModel.cs:330 | inserting adds exactly the new element: the multiset grows by it |
| PageOrdering.InsertByMembers | src/StylusCore.App/Features/Editor/ViewModels/EditorViewModel.cs:330 | the elements after insertion are the new one and the old ones |
| PageOrdering.InsertBySorted | src/StylusCore.App/Features/Editor/ViewModels/EditorViewModel.cs:330 | inserting into a sorted list keeps it sorted |
| PageOrdering.SortBy | src/StylusCore.App/Features/Editor/ViewModels/EditorViewModel.cs:330-346 | `OrderBy` yields a sorted permutation of its input |
| PageOrdering.SortThree | src/StylusCore.App/Features/Editor/ViewModels/EditorViewModel.cs:285-346 | a concrete stable sort: when c's key lies between a's and b's, [a, b, c] sorts to [a, c, b] |
| PageOrdering.SortByFirst | src/StylusCore.App/Features/Editor/ViewModels/EditorViewModel.cs:330 | the sort inserts the head into the sorted tail |
| PageOrdering.InsertInFront | src/StylusCore.App/Features/Editor/ViewModels/EditorViewModel.cs:330 | an element with a key no larger than the head's goes first |
| PageOrdering.InsertAfterOne | src/StylusCore.App/Features/Editor/ViewModels/EditorViewModel.cs:330 | an element with a larger key goes after a single one |
| PageOrdering.InsertByWithKey | src/StylusCore.App/Features/Editor/ViewModels/EditorViewModel.cs:330 | inserting into a sorted list puts the new element before all elements of equal key |
| PageOrdering.SortByIsStable | src/StylusCore.App/Features/Editor/ViewModels/EditorViewModel.cs:330-346 | the sort is stable: elements with equal keys keep their relative order |
| PageOrdering.PagesIn | src/StylusCore.App/Features/Editor/ViewModels/EditorViewModel.cs:284-345 | exactly the pages with that section id |
| PageOrdering.GroupsMembers | src/StylusCore.App/Features/Editor/ViewModels/EditorViewModel.cs:333-341 | the section loop collects exactly the pages of the visited sections |
| PageOrdering.Grouped | src/StylusCore.App/Features/Editor/ViewModels/EditorViewModel.cs:327-349 | the rebuilt list holds exactly the pages that are unsectioned or whose section exists |
| PageOrdering.SortKeepsSectionIds | src/StylusCore.App/Features/Editor/ViewModels/EditorViewModel.cs:330 | sorting the sections keeps their set of ids |
| PageOrdering.GroupsSnoc | src/StylusCore.App/Features/Editor/ViewModels/EditorViewModel.cs:333-341 | one loop turn appends the next section's pages, sorted by page number |
| PageOrdering.Numbered | src/StylusCore.App/Features/Editor/ViewModels/EditorViewModel.cs:359-362 | numbering keeps the length and gives the page at position i the number i + 1, changing nothing else |
| PageOrdering.GroupPages | src/StylusCore.App/Features/Editor/ViewModels/EditorViewModel.cs:327-349 | the section loop followed by the unsectioned pages yields Grouped |
| PageOrdering.NumberPages | src/StylusCore.App/Features/Editor/ViewModels/EditorViewModel.cs:359-362 | the numbering loop yields Numbered |
| PageOrdering.SectionById | src/StylusCore.App/Features/Editor/ViewModels/EditorViewModel.cs:333 | with distinct ids a section is fixed by its id |
| PageOrdering.AppendSectionInOrder | src/StylusCore.App/Features/Editor/ViewModels/EditorViewModel.cs:333-341 | appending the next section's pages keeps the sections in SortOrder order |
| PageOrdering.SectionsByPosition | src/StylusCore.App/Features/Editor/ViewModels/EditorViewModel.cs:330 | in the sorted section list an earlier section has a SortOrder no larger than a later one |
| PageOrdering.AppendSectionAscending | src/StylusCore.App/Features/Editor/ViewModels/EditorViewModel.cs:335-340 | appending one section's number-sorted pages keeps numbers ascending within each section |
| PageOrdering.GroupsInOrder | src/StylusCore.App/Features/Editor/ViewModels/EditorViewModel.cs:330-341 | the loop over the sorted sections lays pages out section by section in SortOrder order, numbers ascending within each |
| PageOrdering.SortKeepsDistinctIds | src/StylusCore.App/Features/Editor/ViewModels/EditorViewModel.cs:330 | sorting keeps section ids distinct |
| PageOrdering.InsertKeepsDistinctIds | src/StylusCore.App/Features/Editor/ViewModels/EditorViewModel.cs:330 | inserting a section of a new id keeps the ids distinct |
| PageOrdering.RenumberOrder | src/StylusCore.App/Features/Editor/ViewModels/EditorViewModel.cs:324-363 | the rebuilt list has the sections in SortOrder order, old page numbers ascending within each, and every unsectioned page after every sectioned one |
| PageOrdering.Renumbered | src/StylusCore.App/Features/Editor/ViewModels/EditorViewModel.cs:324-363 | the renumbered list has one page per grouped page, numbered 1..n in list order |
| PageOrdering.UnsectionedAfterGroups | src/StylusCore.App/Features/Editor/ViewModels/EditorViewModel.cs:343-349 | appending the sorted unsectioned pages keeps both orders and puts them after every sectioned page |
| PageOrdering.KeptPages | src/StylusCore.App/Features/Editor/ViewModels/EditorViewModel.cs:327-349 | the pages that survive renumbering, in their old order |
| PageOrdering.InSectionsSplit | src/StylusCore.App/Features/Editor/ViewModels/EditorViewModel.cs:333-341 | the pages of a set of sections plus one more are those of the set and those of the new section |
| PageOrdering.KeptSplit | src/StylusCore.App/Features/Editor/ViewModels/EditorViewModel.cs:327-349 | the kept pages are those of existing sections and the unsectioned ones |
| PageOrdering.SectionIdSetSnoc | src/StylusCore.App/Features/Editor/ViewModels/EditorViewModel.cs:333 | the ids of a section list are those of its prefix and its last section |
| PageOrdering.GroupsCollectOnce | src/StylusCore.App/Features/Editor/ViewModels/EditorViewModel.cs:333-341 | with distinct section ids the loop collects each page of an existing section exactly once |
| PageOrdering.LastIdIsNew | src/StylusCore.App/Features/Editor/ViewModels/EditorViewModel.cs:333 | in a list with distinct ids the last id is not among the earlier ones |
| PageOrdering.InSectionsNone | src/StylusCore.App/Features/Editor/ViewModels/EditorViewModel.cs:333 | no section gives no page |
| PageOrdering.CollectStep | src/StylusCore.App/Features/Editor/ViewModels/EditorViewModel.cs:340 | one loop turn keeps the collected multiset equal to the pages of the visited sections |
| PageOrdering.RenumberKeepsPages | src/StylusCore.App/Features/Editor/ViewModels/EditorViewModel.cs:324-363 | renumbering keeps every page once, except that exactly the pages of sections that do not exist are dropped |
| PageOrdering.Clamp | src/StylusCore.App/Features/Editor/ViewModels/EditorViewModel.cs:383 | the clamped index lies in 0..count and equals the index when it already does |
| PageOrdering.Reordered | src/StylusCore.App/Features/Editor/ViewModels/EditorViewModel.cs:379-385 | the moved section sits at the clamped index and the others keep their sorted relative order |
| PageOrdering.SetSortOrder | src/StylusCore.App/Features/Editor/ViewModels/EditorViewModel.cs:390 | sets the SortOrder of the sections with that id and changes nothing else |
| PageOrdering.AssignOrders | src/StylusCore.App/Features/Editor/ViewModels/EditorViewModel.cs:388-391 | each loop turn keeps the section count |
| PageOrdering.AssignOrdersSpec | src/StylusCore.App/Features/Editor/ViewModels/EditorViewModel.cs:388-391 | after n turns the section at position k < n of the built list has SortOrder k, the others keep theirs, and no other field changes |
| PageOrdering.ReorderSections | src/StylusCore.App/Features/Editor/ViewModels/EditorViewModel.cs:377-391 | the section list keeps its length |
| PageOrdering.RenumberSections | src/StylusCore.App/Features/Editor/ViewModels/EditorViewModel.cs:379-391 | the sort, the clamped move and the numbering loop yield ReorderSections |
| PageOrdering.NumberByPosition | src/StylusCore.App/Features/Editor/ViewModels/EditorViewModel.cs:388-391 | the numbering loop gives each listed section its position as sort order, yielding AssignOrders |
| PageOrdering.InsertAtIds | src/StylusCore.App/Features/Editor/ViewModels/EditorViewModel.cs:385 | inserting the moved section back keeps ids distinct and restores the id set |
| PageOrdering.RestIds | src/StylusCore.App/Features/Editor/ViewModels/EditorViewModel.cs:379-380 | removing the moved section from the sorted list leaves every other id once |
| PageOrdering.ReorderedIds | src/StylusCore.App/Features/Editor/ViewModels/EditorViewModel.cs:379-385 | the list to be numbered holds every section id once, with the moved section at the clamped index |
| PageOrdering.NumberedByPosition | src/StylusCore.App/Features/Editor/ViewModels/EditorViewModel.cs:388-391 | numbering by a covering list with distinct ids gives each section the position of its id |
| PageOrdering.ReorderSectionsNumbering | src/StylusCore.App/Features/Editor/ViewModels/EditorViewModel.cs:377-391 | afterwards the SortOrders are 0..n-1, pairwise different, the moved section has the clamped index, and nothing but SortOrder changes |
| PageOrdering.PositionOfSpec | src/StylusCore.App/Features/Editor/ViewModels/EditorViewModel.cs:388-391 | in a list with distinct ids the position of an id holds that id and is the only one that does |
| Editor.NextRibbonMode | src/StylusCore.App/Features/Editor/ViewModels/EditorViewModel.cs:204-213 | every press of the ribbon cycle changes the mode |
| Editor.RibbonCycle | src/StylusCore.App/Features/Editor/ViewModels/EditorViewModel.cs:190-213 | three presses return to the start through all three modes, and leaving FullScreen always restores the full ribbon |
| Editor.IsRibbonVisible | src/StylusCore.App/Features/Editor/ViewModels/EditorViewModel.cs:190 | the ribbon is visible iff the mode is Full or TabsOnly, i.e. not FullScreen |
| Editor.IsRibbonFull | src/StylusCore.App/Features/Editor/ViewModels/EditorViewModel.cs:195 | the ribbon is full iff the mode is Full; a full ribbon is visible |
| Editor.NextSectionColor | src/StylusCore.App/Features/Editor/ViewModels/EditorViewModel.cs:441-445 | the colour is one of the eight of the rotation |
| Editor.SectionColorsRotate | src/StylusCore.App/Features/Editor/ViewModels/EditorViewModel.cs:443-444 | the colours repeat every eight sections and never sooner |
| Editor.ColorsDistinct | src/StylusCore.App/Features/Editor/ViewModels/EditorViewModel.cs:443 | the eight colours of the rotation are pairwise different |
| Editor.NewPage | src/StylusCore.App/Features/Editor/ViewModels/EditorViewModel.cs:307-313 | the new page belongs to the notebook and the given section, takes the notebook's default format and template, has number 1 and no strokes |
| Editor.IndexOf | src/StylusCore.App/Features/Editor/ViewModels/EditorViewModel.cs:291 | `IndexOf` gives the first position holding the page, or -1 |
| Editor.InsertIndex | src/StylusCore.App/Features/Editor/ViewModels/EditorViewModel.cs:278-305 | with a section the index lies within the list; without one it is not negative while the page index is not |
| Editor.InsertAfterSection | src/StylusCore.App/Features/Editor/ViewModels/EditorViewModel.cs:283-292 | for a section that has pages, the new page goes right after the section's page with the highest number |
| Editor.LastOfSection | src/StylusCore.App/Features/Editor/ViewModels/EditorViewModel.cs:283-290 | the last page after sorting the section's pages by number is a page of the section with the highest number |
| Editor.LastHasHighestNumber | src/StylusCore.App/Features/Editor/ViewModels/EditorViewModel.cs:285-290 | the last page of a number-sorted list has the highest number |
| Editor.InsertIndexPlacement | src/StylusCore.App/Features/Editor/ViewModels/EditorViewModel.cs:293-305 | a section without pages appends at the end; no section inserts after the current page, or at 0 in an empty notebook |
| Editor.NewPageKept | src/StylusCore.App/Features/Editor/ViewModels/EditorViewModel.cs:315-318 | when its section exists or it has none, the inserted page survives the rebuild, numbered by its new position |
| Editor.KeptPagesConcat | src/StylusCore.App/Features/Editor/ViewModels/EditorViewModel.cs:327-349 | the surviving pages of a concatenation are those of each part |
| Editor.KeptPagesInsert | src/StylusCore.App/Features/Editor/ViewModels/EditorViewModel.cs:315 | inserting a page that survives adds one surviving page |
| Editor.NewPageAddsOne | src/StylusCore.App/Features/Editor/ViewModels/EditorViewModel.cs:315-318 | adding a page to an existing section, or to none, makes the rebuilt list one page longer |
| Editor.GroupsWithoutSections | src/StylusCore.App/Features/Editor/ViewModels/EditorViewModel.cs:333-341 | the section loop collects no unsectioned page |
| Editor.LonePageRenumbered | src/StylusCore.App/Features/Editor/ViewModels/EditorViewModel.cs:324-363 | a lone unsectioned page numbered 1 is rebuilt into itself |
| Editor.FirstPageInserted | src/StylusCore.App/Features/Editor/ViewModels/EditorViewModel.cs:304-318 | in an empty notebook the new unsectioned page goes in at 0 and is the whole rebuilt list |
| Editor.NewPageNotShown | src/StylusCore.App/Features/Editor/ViewModels/EditorViewModel.cs:304-320 | adding a page after page 2 of two unsectioned pages inserts at 2, but the rebuild, sorting by the new page's number 1, puts it at position 1, so index 2 then shows the old second page |
| Editor.NewPageSortsBack | src/StylusCore.App/Features/Editor/ViewModels/EditorViewModel.cs:304-320 | for any two unsectioned pages showing the second, a new unsectioned page numbered between them is inserted at 2 but rebuilt into position 1, so index 2 shows the old second page renumbered 3 |
| Editor.AllUnsectioned | src/StylusCore.App/Features/Editor/ViewModels/EditorViewModel.cs:344-347 | pages without a section are their own unsectioned list |
| Editor.UnsectionedOfThree | src/StylusCore.App/Features/Editor/ViewModels/EditorViewModel.cs:344-347 | three unsectioned pages whose third number lies between the first two are reordered first, third, second |
| Editor.WithSection | src/StylusCore.App/Features/Editor/ViewModels/EditorViewModel.cs:370 | only the pages with that id move to the target section |
| Editor.MovedPagePlacement | src/StylusCore.App/Features/Editor/ViewModels/EditorViewModel.cs:368-372 | a page moved to an existing section, or to none, stays in the rebuilt list with its new section and its new position as number; moved to an unknown section it disappears |
| Editor.MovedPageKept | src/StylusCore.App/Features/Editor/ViewModels/EditorViewModel.cs:368-372 | a page moved to an existing section or to none survives the rebuild |
| Editor.MovedPageDropped | src/StylusCore.App/Features/Editor/ViewModels/EditorViewModel.cs:368-372 | a page moved to an unknown section is dropped by the rebuild |
| Editor.UndoOn | src/StylusCore.App/Features/Editor/ViewModels/EditorViewModel.cs:593-604 | undoing an added stroke removes one copy of it, undoing a removal adds it back, and other kinds change nothing |
| Editor.RedoOn | src/StylusCore.App/Features/Editor/ViewModels/EditorViewModel.cs:606-617 | redoing an addition appends the stroke, redoing a removal removes one copy, and other kinds change nothing |
| Editor.RemoveAppended | src/StylusCore.App/Features/Editor/ViewModels/EditorViewModel.cs:598 | removing a stroke just appended restores the list |
| Editor.UndoRedoRoundTrip | src/StylusCore.App/Features/Editor/ViewModels/EditorViewModel.cs:593-617 | for a stroke not yet on the page, undo after redo and redo after undo restore the stroke list |
| Editor.UndoOnPage | src/StylusCore.App/Features/Editor/ViewModels/EditorViewModel.cs:512-604 | only the addressed page's strokes are undone |
| Editor.RedoOnPage | src/StylusCore.App/Features/Editor/ViewModels/EditorViewModel.cs:527-617 | only the addressed page's strokes are redone |
| Editor.UndoRedoOnPages | src/StylusCore.App/Features/Editor/ViewModels/EditorViewModel.cs:507-532 | the round trip on the notebook touches only the addressed page and gives it back its strokes |
| Editor.EditorViewModel.constructor | src/StylusCore.App/Features/Editor/ViewModels/EditorViewModel.cs:226-250 | no notebook, the pen selected and active, black at width 2, each tool at its constructed colour and width, empty history, full ribbon |
| Editor.EditorViewModel.SetNotebook | src/StylusCore.App/Features/Editor/ViewModels/EditorViewModel.cs:50-62 | shows the first page of a non-empty notebook and leaves the page index as it was |
| Editor.EditorViewModel.SetCurrentPageIndex | src/StylusCore.App/Features/Editor/ViewModels/EditorViewModel.cs:83-95 | an index within the page list moves to that page; any other value is ignored |
| Editor.EditorViewModel.NextPage | src/StylusCore.App/Features/Editor/ViewModels/EditorViewModel.cs:259-262 | moves to the next page, a no-op on the last |
| Editor.EditorViewModel.PreviousPage | src/StylusCore.App/Features/Editor/ViewModels/EditorViewModel.cs:267-270 | moves to the previous page, a no-op on the first |
| Editor.EditorViewModel.RenumberPages | src/StylusCore.App/Features/Editor/ViewModels/EditorViewModel.cs:324-363 | the page list becomes Renumbered of the old pages and sections; with no notebook it throws |
| Editor.EditorViewModel.AddNewPage | src/StylusCore.App/Features/Editor/ViewModels/EditorViewModel.cs:276-322 | the new page is inserted at InsertIndex, the list is rebuilt and the page index set to that index; an index outside the list throws with nothing changed, and so does a missing notebook |
| Editor.EditorViewModel.AddFirstPage | src/StylusCore.App/Features/Editor/ViewModels/EditorViewModel.cs:304-320 | on an empty notebook the only page becomes the new unsectioned page, shown at index 0 |
| Editor.EditorViewModel.MovePageToSection | src/StylusCore.App/Features/Editor/ViewModels/EditorViewModel.cs:368-372 | the page takes the target section and the list is rebuilt; the page index is not adjusted |
| Editor.EditorViewModel.ReorderSection | src/StylusCore.App/Features/Editor/ViewModels/EditorViewModel.cs:377-395 | the sections become ReorderSections of the old ones and the pages are rebuilt under the new order |
| Editor.EditorViewModel.GoToSection | src/StylusCore.App/Features/Editor/ViewModels/EditorViewModel.cs:400-408 | shows the section's page when the notebook holds it, otherwise nothing moves |
| Editor.EditorViewModel.AddNewSection | src/StylusCore.App/Features/Editor/ViewModels/EditorViewModel.cs:413-436 | adds a section on the current page with the next rotation colour and SortOrder = section count, and moves that page into it; an empty notebook first gets a page; no current page throws |
| Editor.EditorViewModel.AddStroke | src/StylusCore.App/Features/Editor/ViewModels/EditorViewModel.cs:488-498 | stamps the stroke with the current page, appends it there, records it for undo and clears the redo history; with no current page it throws |
| Editor.EditorViewModel.Undo | src/StylusCore.App/Features/Editor/ViewModels/EditorViewModel.cs:507-604 | with history, pops the top action, undoes it on the current page and pushes it for redo, the two stacks keeping their total size; an empty history changes nothing |
| Editor.EditorViewModel.Redo | src/StylusCore.App/Features/Editor/ViewModels/EditorViewModel.cs:522-617 | the mirror image of Undo |
| Editor.EditorViewModel.CanUndo | src/StylusCore.App/Features/Editor/ViewModels/EditorViewModel.cs:161 | undo is possible iff the undo stack is non-empty |
| Editor.EditorViewModel.CanRedo | src/StylusCore.App/Features/Editor/ViewModels/EditorViewModel.cs:166 | redo is possible iff the redo stack is non-empty |
| Editor.EditorViewModel.SetCurrentToolMode | src/StylusCore.App/Features/Editor/ViewModels/EditorViewModel.cs:101-115 | selects the mode; a registered tool becomes current and the only active one, otherwise the old tool stays current but inactive |
| Editor.EditorViewModel.SetCurrentColor | src/StylusCore.App/Features/Editor/ViewModels/EditorViewModel.cs:121-133 | sets the colour and recolours the current tool, if any |
| Editor.EditorViewModel.SetCurrentWidth | src/StylusCore.App/Features/Editor/ViewModels/EditorViewModel.cs:139-151 | sets the width and resizes the current tool, if any |
| Editor.EditorViewModel.CycleRibbonMode | src/StylusCore.App/Features/Editor/ViewModels/EditorViewModel.cs:204-213 | the ribbon mode becomes the next in the cycle |
| BaseTools.StartStroke | src/StylusCore.Drawing/Tools/PenTool.cs:27-35 | the stroke a pointer-down starts carries the tool's colour, width and opacity, the highlighter flag, and exactly the first point |
| BaseTools.BaseTool.constructor | src/StylusCore.Drawing/Tools/ITool.cs:84-90 | a tool starts inactive, black, width 2, opaque, with no stroke and not drawing |
| BaseTools.BaseTool.Activate | src/StylusCore.Drawing/Tools/ITool.cs:92-95 | sets the tool active and changes nothing else |
| BaseTools.BaseTool.Deactivate | src/StylusCore.Drawing/Tools/ITool.cs:97-101 | sets the tool inactive and abandons the stroke in progress, keeping colour, width and opacity |
| BaseTools.BaseTool.GetCurrentStroke | src/StylusCore.Drawing/Tools/ITool.cs:107-110 | returns the stroke in progress, or none |
| BaseTools.BaseTool.CancelStroke | src/StylusCore.Drawing/Tools/ITool.cs:112-116 | drops the stroke and stops drawing, leaving activation and appearance alone |
| PenTools.PenPoint | src/StylusCore.Drawing/Tools/PenTool.cs:53-57 | the recorded point is the position with the sampled pressure |
| PenTools.PenTool.constructor | src/StylusCore.Drawing/Tools/PenTool.cs:17-22 | pressure on, minimum width factor 0.2, and the base defaults |
| PenTools.PenTool.OnPointerDown | src/StylusCore.Drawing/Tools/PenTool.cs:24-36 | starts drawing a new non-highlighter stroke in the tool's appearance holding just this point |
| PenTools.PenTool.OnPointerMove | src/StylusCore.Drawing/Tools/PenTool.cs:38-43 | while drawing, appends exactly one point to the stroke; otherwise changes nothing |
| PenTools.PenTool.OnPointerUp | src/StylusCore.Drawing/Tools/PenTool.cs:45-51 | stops drawing and keeps the finished stroke |
| HighlighterTools.HighlighterPoint | src/StylusCore.Drawing/Tools/HighlighterTool.cs:49-54 | the recorded point is the position at pressure 1, whatever was sampled |
| HighlighterTools.HighlighterTool.constructor | src/StylusCore.Drawing/Tools/HighlighterTool.cs:14-20 | yellow, width 20, opacity 0.4, otherwise the base defaults |
| HighlighterTools.HighlighterTool.OnPointerDown | src/StylusCore.Drawing/Tools/HighlighterTool.cs:22-34 | starts drawing a new highlighter stroke holding just this point at full pressure |
| HighlighterTools.HighlighterTool.OnPointerMove | src/StylusCore.Drawing/Tools/HighlighterTool.cs:36-41 | while drawing, appends one full-pressure point; otherwise changes nothing; every point stays at full pressure |
| HighlighterTools.HighlighterTool.OnPointerUp | src/StylusCore.Drawing/Tools/HighlighterTool.cs:43-47 | stops drawing and keeps the stroke |
| EraserTools.TouchRequest | src/StylusCore.Drawing/Tools/EraserTool.cs:99-117 | Normal mode requests an erase of radius EraserSize at the point, Stroke mode one of radius 5, and Lasso mode none |
| EraserTools.EraserTool.constructor | src/StylusCore.Drawing/Tools/EraserTool.cs:20-40 | Normal mode, size 20, an empty lasso and no requests raised |
| EraserTools.EraserTool.OnPointerDown | src/StylusCore.Drawing/Tools/EraserTool.cs:42-64 | starts drawing; raises the mode's touch request, or in Lasso mode restarts the lasso at the point |
| EraserTools.EraserTool.OnPointerMove | src/StylusCore.Drawing/Tools/EraserTool.cs:66-84 | while drawing, raises the touch request or extends the lasso; otherwise changes nothing |
| EraserTools.EraserTool.OnPointerUp | src/StylusCore.Drawing/Tools/EraserTool.cs:86-126 | stops drawing; a lasso of more than two points is submitted as one request and cleared, any other stays as it was; every request raised is well formed |

## Left out

- File and JSON persistence (`SaveBindings`, the settings file, the data directories the stores create) is not modelled, because the serializer and the file system are not visible. `LoadBindings` receives the file as an abstract input: missing, or present with the deserializer's verdict.
- WPF and OS input (`Keyboard.IsKeyDown`, the WPF event-argument classes) are parameters: the modifier flags, the button and the key name.
- Timestamps (`DateTime.Now`) are not modelled; events carry no time.
- The Wintab stubs in `TabletDevice` are not modelled: they are foreign calls with no behaviour.
- The mock device enumeration in `DeviceCalibrator.DetectDevices` is not modelled, for the same reason.
- Floating-point rounding is not modelled: pressure, tilt, width, opacity and radius are `real`.
- The editor's pointer handlers are not modelled. They go through the page renderer's screen-to-page geometry, and the tools' own pointer handlers are modelled.
- Autosave start and stop and the timers behind them are left out.
- The editor's `PropertyChanged` and `PageChanged` notifications are not modelled.
- The shell's `Initialize` and `Shutdown` wiring to the input manager is left out.
- The window commands (`MinimizeCommand`, `MaximizeCommand`, `CloseCommand`) are left out.
- `RelayCommand` is left out.
- `MapsToBookListCommand` has the same body as `NavigateToNotebookListCommand` and is modelled once, as `Shell.MainViewModel.NavigateToNotebookList`.
- `RibbonMode` is declared twice in the source. The editor uses the variant with `FullScreen` and the shell the variant with `Hidden`, and each module declares the variant its view-model uses.
- Shell.ParseToolMode: `Enum.TryParse` is modelled as an exact match of the eight `ToolMode` names. Numeric strings and other spellings .NET accepts are not.
- Validation: `OrdinalIgnoreCase` comparison folds ASCII letters only, and name lengths count characters rather than UTF-16 code units.
- Shell.MainViewModel.constructor: models only the defaults it sets (MainViewModel.cs:184-189). It does not model the `BindingManager` and the three input devices it creates, the `LoadBindings` call on the manager (which throws on a malformed bindings file, so the constructor can throw), or the subscription of `OnActionTriggered` to `ActionTriggered`.
- Handlers and predicates registered with the action router are assumed not to call back into it: `Register` or `Unregister` from inside a dispatch is not modelled.
- Null arguments are not modelled. Every string and list in the model is present.
- References are ids. Two objects with the same id are the same object, and aliasing between the view-models, the stores and the pages is not modelled.
- `AddNewPage` works on the pages as created, and removal from a section's list by reference becomes removal by id.
- Edits to a `CurrentPage` that is no longer in the notebook are not modelled.
- Undo and redo carry only stroke actions, the only kinds the source records. Other action kinds change nothing, as in the source.
- `RadialMenus.RadialMenuBinding.GetAllMenus` returns the menus as a set. The order of .NET `Dictionary` enumeration is not specified.
- The shape tool and the shape classes are left out: they are floating-point geometry.
- The renderer is left out for the same reason.
