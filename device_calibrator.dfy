/** The tablet calibration wizard: a ten-step state machine that asks for
    each express key, dial and pen button in turn and records, per step,
    the raw input id the device reported. The tablet's `ButtonPressed`
    event is a multicast delegate: the calibrator's handler is attached
    once per `StartCalibration` and detached once per cleanup, so the
    number of times it is attached to each device is kept as a multiset. */
module Calibration {
  import opened Common
  import Tablet

  datatype CalibrationState = NotStarted | DetectingButtons | DetectingDials | DetectingPen | Completed | Cancelled

  /** A tablet the wizard can listen to: an opaque handle and its DeviceName. */
  datatype DeviceRef = DeviceRef(handle: nat, deviceName: string)

  /** `CalibrationResultEventArgs`. */
  datatype CalibrationResult = CalibrationResult(success: bool, detected: map<string, string>, deviceName: string,
                                                 buttonCount: int, dialCount: int, penButtonCount: int)

  /** What the wizard raises: `StepChanged` and `CalibrationCompleted`. */
  datatype CalibrationEvent =
    | StepChanged(currentStep: int, totalSteps: int, instruction: string, inputName: string)
    | CalibrationCompleted(result: CalibrationResult)

  /** The wizard's fields, as one value: `_state`, `_currentStep`,
      `_detectedInputs`, `_tabletDevice`, the handler's attachments, and
      the events raised so far. */
  datatype Wizard = Wizard(state: CalibrationState, step: int, detected: map<string, string>,
                           device: Option<DeviceRef>, attached: multiset<DeviceRef>, log: seq<CalibrationEvent>)

  const TotalSteps := 10

  /** The instruction and the slot name of steps 1 to 10, in order. */
  const StepTable: seq<(string, string)> := [
    ("Press Button 1 on your tablet", "Tablet_Button1"),
    ("Press Button 2 on your tablet", "Tablet_Button2"),
    ("Press Button 3 on your tablet", "Tablet_Button3"),
    ("Press Button 4 on your tablet", "Tablet_Button4"),
    ("Press Button 5 on your tablet", "Tablet_Button5"),
    ("Press Button 6 on your tablet", "Tablet_Button6"),
    ("Rotate Dial 1 on your tablet", "Tablet_Dial1"),
    ("Rotate Dial 2 on your tablet", "Tablet_Dial2"),
    ("Press the first button on your pen", "Pen_Button1"),
    ("Press the second button on your pen", "Pen_Button2")
  ]

  /** `GetStepInfo`: the instruction and the slot name for a step. */
  function StepInfo(step: int): (string, string)
  {
    if 1 <= step <= |StepTable| then StepTable[step - 1] else ("Unknown step", "Unknown")
  }

  /** Exactly the steps outside 1 to 10 are reported as unknown, in both
      the instruction and the slot name. */
  lemma StepInfoUnknown(step: int)
    ensures StepInfo(step).1 == "Unknown" <==> step < 1 || step > TotalSteps
    ensures StepInfo(step).0 == "Unknown step" <==> step < 1 || step > TotalSteps
  {
  }

  function Slot(step: int): string { StepInfo(step).1 }

  /** The slot `j` steps after `base`. */
  function SlotAt(base: int, j: int): string { Slot(base + j) }

  /** The slots are the canonical ids the tablet adapter raises: steps 1-6
      its express keys, 7-8 its dials, 9-10 the pen buttons; any other
      step is "Unknown". */
  lemma SlotsAreTabletIds()
    ensures forall n :: 1 <= n <= 6 ==> Slot(n) == Tablet.TabletButtonId(n)
    ensures Slot(7) == Tablet.DialId(1) && Slot(8) == Tablet.DialId(2)
    ensures Slot(9) == Tablet.PenButtonId(1) && Slot(10) == Tablet.PenButtonId(2)
    ensures forall n :: (n < 1 || n > TotalSteps) ==> StepInfo(n) == ("Unknown step", "Unknown")
  {
    forall n | 1 <= n <= 6
      ensures Slot(n) == Tablet.TabletButtonId(n)
    {
      assert IntToString(n) == [DigitChar(n)];
    }
    assert IntToString(1) == "1" && IntToString(2) == "2";
  }

  /** Each of the ten steps has its own slot. */
  lemma SlotsDistinct(a: int, b: int)
    requires 1 <= a <= TotalSteps && 1 <= b <= TotalSteps && a != b
    ensures Slot(a) != Slot(b)
  {
  }

  /** `Cleanup`: detaches the handler once from the current device, if any. */
  function Cleanup(w: Wizard): Wizard
  {
    if w.device.Some? then w.(attached := w.attached - multiset{w.device.value}) else w
  }

  function DeviceNameOr(device: Option<DeviceRef>): string
  {
    if device.Some? then device.value.deviceName else "Unknown"
  }

  /** `Complete`: cleanup, state Completed, and the result event carrying a
      copy of the detected inputs. */
  function Complete(w: Wizard): Wizard
  {
    var c := Cleanup(w).(state := Completed);
    c.(log := c.log + [CalibrationCompleted(CalibrationResult(true, w.detected, DeviceNameOr(w.device), 6, 2, 2))])
  }

  /** `NextStep`: advance; announce steps 1..10, complete past the last. */
  function NextStep(w: Wizard): Wizard
  {
    var s := w.step + 1;
    if s > TotalSteps then Complete(w.(step := s))
    else w.(step := s, log := w.log + [StepChanged(s, TotalSteps, StepInfo(s).0, StepInfo(s).1)])
  }

  /** `OnButtonPressed`: record the raw id in the current step's slot, then advance. */
  function Press(w: Wizard, inputId: string): Wizard
  {
    NextStep(w.(detected := w.detected[Slot(w.step) := inputId]))
  }

  /** One device press delivered `k` times (once per attachment). */
  function Deliver(w: Wizard, inputId: string, k: nat): Wizard
    decreases k
  {
    if k == 0 then w else Deliver(Press(w, inputId), inputId, k - 1)
  }

  /** A run of presses, one id per press, each delivered once. */
  function PressAll(w: Wizard, ids: seq<string>): Wizard
    decreases |ids|
  {
    if |ids| == 0 then w else PressAll(Press(w, ids[0]), ids[1..])
  }

  /** `StartCalibration`: the fields are reset before the subscription, so
      a null device leaves them reset and throws. */
  function Start(w: Wizard, device: Option<DeviceRef>): (Wizard, Outcome)
  {
    var reset := w.(device := device, state := DetectingButtons, step := 0, detected := map[]);
    if device.None? then (reset, Threw(NullReference))
    else (NextStep(reset.(attached := reset.attached + multiset{device.value})), Done)
  }

  /** `Cancel`: cleanup and state Cancelled; no event is raised and the
      detected inputs stay as they were. */
  function CancelWizard(w: Wizard): Wizard
  {
    Cleanup(w).(state := Cancelled)
  }

  /** Cleanup changes only the attachments: the current device, if any,
      loses one attachment of the handler, and no other device changes. */
  lemma CleanupDetachesOnce(w: Wizard)
    ensures Cleanup(w) == w.(attached := Cleanup(w).attached)
    ensures w.device.None? ==> Cleanup(w).attached == w.attached
    ensures w.device.Some? && w.device.value in w.attached ==>
              Cleanup(w).attached + multiset{w.device.value} == w.attached
    ensures w.device.Some? && w.device.value !in w.attached ==> Cleanup(w).attached == w.attached
  {
  }

  /** Completing keeps the step and the detected inputs, detaches as
      cleanup does, and raises one successful result carrying exactly the
      detected inputs. */
  lemma CompleteReports(w: Wizard)
    ensures Complete(w).state == Completed && Complete(w).attached == Cleanup(w).attached
    ensures Complete(w).step == w.step && Complete(w).detected == w.detected && Complete(w).device == w.device
    ensures |Complete(w).log| == |w.log| + 1 && Complete(w).log[..|w.log|] == w.log
    ensures Complete(w).log[|w.log|].CalibrationCompleted? && Complete(w).log[|w.log|].result.success
    ensures Complete(w).log[|w.log|].result.detected == w.detected
  {
  }

  /** Advancing adds one step and raises exactly one event: the announcement
      of the new step while it is one of the ten, the result past the last
      one; the detected inputs are untouched. */
  lemma NextStepRaisesOne(w: Wizard)
    ensures NextStep(w).step == w.step + 1 && NextStep(w).detected == w.detected && NextStep(w).device == w.device
    ensures |NextStep(w).log| == |w.log| + 1 && NextStep(w).log[..|w.log|] == w.log
    ensures NextStep(w).log[|w.log|].StepChanged? <==> w.step + 1 <= TotalSteps
    ensures w.step + 1 <= TotalSteps ==>
              NextStep(w).state == w.state && NextStep(w).attached == w.attached &&
              NextStep(w).log[|w.log|] == StepChanged(w.step + 1, TotalSteps, StepInfo(w.step + 1).0, Slot(w.step + 1))
    ensures w.step + 1 > TotalSteps ==>
              NextStep(w).state == Completed && NextStep(w).log[|w.log|].result.detected == w.detected
  {
    if w.step + 1 > TotalSteps {
      CompleteReports(w.(step := w.step + 1));
    }
  }

  /** Whatever the step, a press stores the raw id under the current
      step's slot (overwriting it, or under "Unknown" past the last step)
      and advances one step. */
  lemma PressRecords(w: Wizard, inputId: string)
    ensures Press(w, inputId).detected == w.detected[Slot(w.step) := inputId]
    ensures Press(w, inputId).step == w.step + 1 && Press(w, inputId).device == w.device
    ensures |Press(w, inputId).log| == |w.log| + 1
  {
    NextStepRaisesOne(w.(detected := w.detected[Slot(w.step) := inputId]));
  }

  /** Starting resets the wizard for the given device. With a device it
      attaches the handler once more and announces step 1; with none it
      throws after the reset, attaching nothing and raising nothing. */
  lemma StartAnnouncesFirstStep(w: Wizard, device: Option<DeviceRef>)
    ensures Start(w, device).0.device == device && Start(w, device).0.detected == map[]
    ensures Start(w, device).0.state == DetectingButtons
    ensures device.None? ==>
              Start(w, device).1 == Threw(NullReference) && Start(w, device).0.step == 0 &&
              Start(w, device).0.log == w.log && Start(w, device).0.attached == w.attached
    ensures device.Some? ==>
              Start(w, device).1 == Done && Start(w, device).0.step == 1 &&
              Start(w, device).0.attached == w.attached + multiset{device.value} &&
              Start(w, device).0.log == w.log + [StepChanged(1, TotalSteps, "Press Button 1 on your tablet", "Tablet_Button1")]
  {
  }

  /** Cancelling detaches as cleanup does and sets Cancelled; it raises
      nothing and keeps the step and the detected inputs. */
  lemma CancelRaisesNothing(w: Wizard)
    ensures CancelWizard(w).state == Cancelled && CancelWizard(w).attached == Cleanup(w).attached
    ensures CancelWizard(w).step == w.step && CancelWizard(w).detected == w.detected
    ensures CancelWizard(w).device == w.device && CancelWizard(w).log == w.log
  {
  }

  /** Every announced step is one of 1..10, out of 10. */
  predicate AnnouncedStepsInRange(log: seq<CalibrationEvent>)
  {
    forall i :: 0 <= i < |log| && log[i].StepChanged? ==>
      1 <= log[i].currentStep <= TotalSteps && log[i].totalSteps == TotalSteps
  }

  /** Advancing never announces a step outside 1..10: past the last step
      it completes instead. */
  lemma NextStepAnnouncesInRange(w: Wizard)
    requires w.step >= 0 && AnnouncedStepsInRange(w.log)
    ensures NextStep(w).step == w.step + 1 && AnnouncedStepsInRange(NextStep(w).log)
    ensures w.step + 1 > TotalSteps ==> NextStep(w).state == Completed && NextStep(w).log[|NextStep(w).log| - 1].CalibrationCompleted?
  {
  }

  lemma {:induction false} DeliverAnnouncesInRange(w: Wizard, inputId: string, k: nat)
    requires w.step >= 0 && AnnouncedStepsInRange(w.log)
    ensures Deliver(w, inputId, k).step == w.step + k
    ensures AnnouncedStepsInRange(Deliver(w, inputId, k).log)
    decreases k
  {
    if k > 0 {
      NextStepAnnouncesInRange(w.(detected := w.detected[Slot(w.step) := inputId]));
      DeliverAnnouncesInRange(Press(w, inputId), inputId, k - 1);
    }
  }

  /** A press within the ten steps records the raw id in that step's slot,
      keeps every other slot, advances one step and announces it. */
  lemma PressWithinSteps(w: Wizard, inputId: string)
    requires 1 <= w.step < TotalSteps
    ensures Press(w, inputId).detected == w.detected[Slot(w.step) := inputId]
    ensures Press(w, inputId).step == w.step + 1
    ensures Press(w, inputId).state == w.state && Press(w, inputId).attached == w.attached
    ensures Press(w, inputId).device == w.device
    ensures Press(w, inputId).log == w.log + [StepChanged(w.step + 1, TotalSteps, StepInfo(w.step + 1).0, Slot(w.step + 1))]
  {
  }

  /** `key` is none of the `n` slots from step `base` on. */
  predicate NotSlotWithin(key: string, base: int, n: nat)
  {
    forall j :: 0 <= j < n ==> key != SlotAt(base, j)
  }

  lemma NotSlotWithinShift(key: string, base: int, n: nat)
    requires n > 0 && NotSlotWithin(key, base, n)
    ensures key != Slot(base) && NotSlotWithin(key, base + 1, n - 1)
  {
    assert key != SlotAt(base, 0);
    var next := base + 1;
    forall j | 0 <= j < n - 1
      ensures key != SlotAt(next, j)
    {
      assert key != SlotAt(base, j + 1);
    }
  }

  /** The slot of a step is not the slot of any later step. */
  lemma FirstSlotNotLater(step: int, n: nat)
    requires 1 <= step && step + n <= TotalSteps + 1 && n > 0
    ensures NotSlotWithin(Slot(step), step + 1, n - 1)
  {
    var next := step + 1;
    forall i | 0 <= i < n - 1
      ensures Slot(step) != SlotAt(next, i)
    {
      SlotsDistinct(step, next + i);
    }
  }

  /** Presses within the ten steps fill consecutive slots, one id each. */
  lemma {:induction false} PressAllWithinSteps(w: Wizard, ids: seq<string>)
    requires 1 <= w.step && w.step + |ids| <= TotalSteps
    ensures PressAll(w, ids).step == w.step + |ids|
    ensures PressAll(w, ids).state == w.state && PressAll(w, ids).attached == w.attached
    ensures PressAll(w, ids).device == w.device
    ensures forall j :: 0 <= j < |ids| ==> SlotAt(w.step, j) in PressAll(w, ids).detected &&
                                           PressAll(w, ids).detected[SlotAt(w.step, j)] == ids[j]
    decreases |ids|
  {
    if |ids| > 0 {
      PressWithinSteps(w, ids[0]);
      var w1 := Press(w, ids[0]);
      PressAllWithinSteps(w1, ids[1..]);
      PressAllKeepsOthers(w1, ids[1..]);
      var r := PressAll(w, ids);
      assert r == PressAll(w1, ids[1..]);
      forall j | 0 <= j < |ids|
        ensures SlotAt(w.step, j) in r.detected && r.detected[SlotAt(w.step, j)] == ids[j]
      {
        if j > 0 {
          assert ids[1..][j - 1] == ids[j];
          assert SlotAt(w1.step, j - 1) == SlotAt(w.step, j);
        } else {
          var key := Slot(w.step);
          assert key in w1.detected && w1.detected[key] == ids[0];
          FirstSlotNotLater(w.step, |ids|);
          assert NotSlotWithin(key, w1.step, |ids[1..]|);
        }
      }
    }
  }

  /** Presses within the ten steps leave every other slot as it was. */
  lemma {:induction false} PressAllKeepsOthers(w: Wizard, ids: seq<string>)
    requires 1 <= w.step && w.step + |ids| <= TotalSteps
    ensures forall k :: k in w.detected && NotSlotWithin(k, w.step, |ids|) ==>
                          k in PressAll(w, ids).detected && PressAll(w, ids).detected[k] == w.detected[k]
    decreases |ids|
  {
    if |ids| > 0 {
      var w1 := Press(w, ids[0]);
      PressAllKeepsOthers(w1, ids[1..]);
      forall k | k in w.detected && NotSlotWithin(k, w.step, |ids|)
        ensures k in w1.detected && w1.detected[k] == w.detected[k] && NotSlotWithin(k, w1.step, |ids[1..]|)
      {
        NotSlotWithinShift(k, w.step, |ids|);
      }
    }
  }

  /** A full session on a device that was not yet listened to: starting and
      pressing ten buttons completes the wizard with each step's slot
      mapped to the id pressed at that step, and detaches the handler
      again. */
  lemma FullSession(w: Wizard, d: DeviceRef, ids: seq<string>)
    requires |ids| == TotalSteps
    ensures var done := PressAll(Start(w, Some(d)).0, ids);
            && done.state == Completed
            && done.attached == w.attached
            && done.log != []
            && done.log[|done.log| - 1] == CalibrationCompleted(CalibrationResult(true, done.detected, d.deviceName, 6, 2, 2))
            && (forall j :: 0 <= j < TotalSteps ==> SlotAt(1, j) in done.detected && done.detected[SlotAt(1, j)] == ids[j])
  {
    var started := Start(w, Some(d)).0;
    assert started.step == 1 && started.detected == map[] && started.device == Some(d);
    assert started.attached == w.attached + multiset{d};
    PressAllWithinSteps(started, ids[..9]);
    var mid := PressAll(started, ids[..9]);
    PressAllSplit(started, ids[..9], ids[9..]);
    assert ids[..9] + ids[9..] == ids;
    var fin := Press(mid, ids[9]);
    assert PressAll(mid, ids[9..]) == fin by {
      assert ids[9..][0] == ids[9] && ids[9..][1..] == [];
    }
    assert PressAll(started, ids) == fin;
    assert mid.step == 10;
    assert fin.detected == mid.detected[Slot(10) := ids[9]];
    assert fin.attached == mid.attached - multiset{d};
    assert (w.attached + multiset{d}) - multiset{d} == w.attached;
    forall j | 0 <= j < TotalSteps
      ensures SlotAt(1, j) in fin.detected && fin.detected[SlotAt(1, j)] == ids[j]
    {
      if j < 9 {
        assert ids[..9][j] == ids[j];
        SlotsDistinct(j + 1, 10);
      }
    }
    assert PressAll(Start(w, Some(d)).0, ids).detected == fin.detected;
  }

  lemma {:induction false} PressAllSplit(w: Wizard, a: seq<string>, b: seq<string>)
    ensures PressAll(w, a + b) == PressAll(PressAll(w, a), b)
    decreases |a|
  {
    if |a| > 0 {
      assert (a + b)[0] == a[0] && (a + b)[1..] == a[1..] + b;
      PressAllSplit(Press(w, a[0]), a[1..], b);
    } else {
      assert a + b == b;
    }
  }

  /** `SkipStep` has no state guard: skipping the last step of a cancelled
      wizard still completes it and raises a result. */
  lemma SkipAfterCancelCompletes(w: Wizard)
    requires w.step == TotalSteps
    ensures var c := NextStep(CancelWizard(w));
            c.state == Completed && c.log == w.log + [CalibrationCompleted(CalibrationResult(true, w.detected, DeviceNameOr(w.device), 6, 2, 2))]
  {
  }

  /** Starting twice on one device attaches the handler twice; completing
      detaches it once, so the device still reaches the wizard. */
  lemma DoubleStartStaysAttached(w: Wizard, d: DeviceRef)
    ensures var twice := Start(Start(w, Some(d)).0, Some(d)).0;
            twice.attached[d] == w.attached[d] + 2 &&
            CancelWizard(twice).attached[d] == w.attached[d] + 1
  {
  }

  /** A single start followed by a cancel leaves the attachments as they
      were, so a device that was not listened to is not listened to again. */
  lemma StartThenCancelDetaches(w: Wizard, d: DeviceRef)
    ensures CancelWizard(Start(w, Some(d)).0).attached == w.attached
    ensures CancelWizard(Start(w, Some(d)).0).state == Cancelled
  {
    var s := Start(w, Some(d)).0;
    assert s.device == Some(d) && s.attached == w.attached + multiset{d};
    assert (w.attached + multiset{d}) - multiset{d} == w.attached;
  }

  class DeviceCalibrator {
    var state: CalibrationState
    var currentStep: int
    var detected: map<string, string>
    var device: Option<DeviceRef>
    /** How many times this wizard's handler is attached to each device. */
    var attached: multiset<DeviceRef>
    /** Every StepChanged and CalibrationCompleted raised, in order. */
    var log: seq<CalibrationEvent>

    function Snapshot(): Wizard
      reads this
    {
      Wizard(state, currentStep, detected, device, attached, log)
    }

    constructor ()
      ensures Snapshot() == Wizard(NotStarted, 0, map[], None, multiset{}, [])
    {
      state, currentStep, detected := NotStarted, 0, map[];
      device, attached, log := None, multiset{}, [];
    }

    method Become(w: Wizard)
      modifies this
      ensures Snapshot() == w
    {
      state, currentStep, detected := w.state, w.step, w.detected;
      device, attached, log := w.device, w.attached, w.log;
    }

    method StartCalibration(d: Option<DeviceRef>) returns (outcome: Outcome)
      modifies this
      ensures (Snapshot(), outcome) == Start(old(Snapshot()), d)
    {
      var r := Start(Snapshot(), d);
      Become(r.0);
      outcome := r.1;
    }

    method SkipStep()
      modifies this
      ensures Snapshot() == NextStep(old(Snapshot()))
    {
      Become(NextStep(Snapshot()));
    }

    method Cancel()
      modifies this
      ensures Snapshot() == CancelWizard(old(Snapshot()))
    {
      Become(CancelWizard(Snapshot()));
    }

    /** Device `d` raises ButtonPressed: the handler runs once per
        attachment (the invocation list is fixed when the event fires). */
    method DeviceButtonPressed(d: DeviceRef, inputId: string)
      modifies this
      ensures Snapshot() == Deliver(old(Snapshot()), inputId, old(attached)[d])
      ensures old(attached)[d] == 0 ==> Snapshot() == old(Snapshot())
    {
      Become(Deliver(Snapshot(), inputId, attached[d]));
    }
  }
}
