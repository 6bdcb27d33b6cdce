/**
 What the handler promises, stated over the transition functions of
 HandlerSpec: error and skip paths, cooldown start and cancellation,
 at-home suppression, the hsv bridge, event emission and dispatching. Timer
 expiry and the invariant that ties the cooldown maps to the pending timers
 are in HandlerInvariant.
 */
module HandlerProofs {
  import opened HandlerTypes
  import opened HandlerSpec
  import Lookup

  /** Either handler, by kind: `motionHandler` or `doorbellHandler`. */
  function Call(s: HandlerState, kind: Kind, acc: Accessory, active: bool, manual: bool,
                settings: Option<GeneralSettings>): Step
  {
    if kind == Motion then MotionHandler(s, acc, active, manual, settings)
    else DoorbellHandler(s, acc, active, manual, settings)
  }

  /** The part of either handler past the cooldown check. */
  function PastCooldown(s: HandlerState, kind: Kind, acc: Accessory, active: bool, manual: bool,
                        settings: Option<GeneralSettings>): Step
  {
    if kind == Motion then MotionPastCooldown(s, acc, active, manual, settings)
    else DoorbellPastCooldown(s, acc, active, manual, settings)
  }

  /** The accepted path of either handler. */
  function Switch(s: HandlerState, kind: Kind, acc: Accessory, active: bool, manual: bool,
                  settings: Option<GeneralSettings>): HandlerState
  {
    if kind == Motion then SwitchMotion(s, acc, active, manual)
    else SwitchDoorbell(s, acc, active, manual, settings)
  }

  /**
   The result the source's branches give, in their order: no sensor, cooling
   activation, manual activation at home, otherwise switched.
   */
  function ExpectedOutcome(s: HandlerState, kind: Kind, acc: Accessory, active: bool, manual: bool,
                           settings: Option<GeneralSettings>): Outcome
  {
    if !HasSensor(acc, kind) then Failed(NotEnabled(kind))
    else if acc.uuid in TimersOf(s, kind) && active then Skipped(TimeoutActive(kind))
    else if manual && AtHomeSuppresses(settings, acc.displayName, active) then Skipped(AtHome(kind))
    else Switched(kind, active)
  }

  // ---------------------------------------------------------------------------
  // The branches of a call

  /**
   A handler called for an accessory without its sensor reports "not enabled";
   the only effect is a trigger-off pulse when the trigger switch exists.
   */
  lemma NotEnabledOnlyPulses(s: HandlerState, kind: Kind, acc: Accessory, active: bool, manual: bool,
                             settings: Option<GeneralSettings>)
    requires !HasSensor(acc, kind)
    ensures Call(s, kind, acc, active, manual, settings) ==
              Step(QueueTriggerOff(s, kind, acc.uuid, HasTrigger(acc, kind)), Failed(NotEnabled(kind)))
  {
  }

  /**
   While cooling, an activation is a non-error skip that leaves the cooldown map,
   the pending timers and the outputs alone; a manual call queues a trigger-off
   pulse when the trigger switch exists.
   */
  lemma CoolingSkipsActivation(s: HandlerState, kind: Kind, acc: Accessory, manual: bool,
                               settings: Option<GeneralSettings>)
    requires HasSensor(acc, kind) && acc.uuid in TimersOf(s, kind)
    ensures Call(s, kind, acc, true, manual, settings) ==
              Step(QueueTriggerOff(s, kind, acc.uuid, HasTrigger(acc, kind) && manual),
                   Skipped(TimeoutActive(kind)))
  {
  }

  /** Past the first two checks, a running cooldown is cancelled and the call goes on. */
  lemma CheckedCallGoesOn(s: HandlerState, kind: Kind, acc: Accessory, active: bool, manual: bool,
                          settings: Option<GeneralSettings>)
    requires HasSensor(acc, kind) && !(acc.uuid in TimersOf(s, kind) && active)
    ensures Call(s, kind, acc, active, manual, settings) ==
              PastCooldown(ClearCooldown(s, kind, acc.uuid), kind, acc, active, manual, settings)
  {
  }

  /**
   A manual activation while someone is at home and the camera is not excluded
   is a non-error skip whose only effect is a trigger-off pulse.
   */
  lemma AtHomeSkipsManualActivation(s: HandlerState, kind: Kind, acc: Accessory, active: bool, manual: bool,
                                    settings: Option<GeneralSettings>)
    requires manual && AtHomeSuppresses(settings, acc.displayName, active)
    ensures PastCooldown(s, kind, acc, active, manual, settings) ==
              Step(QueueTriggerOff(s, kind, acc.uuid, HasTrigger(acc, kind)), Skipped(AtHome(kind)))
  {
  }

  /** Any other call past the cooldown check takes the accepted path and switches to `active`. */
  lemma AcceptedCallSwitches(s: HandlerState, kind: Kind, acc: Accessory, active: bool, manual: bool,
                             settings: Option<GeneralSettings>)
    requires !(manual && AtHomeSuppresses(settings, acc.displayName, active))
    ensures PastCooldown(s, kind, acc, active, manual, settings) ==
              Step(Switch(s, kind, acc, active, manual, settings), Switched(kind, active))
  {
  }

  /**
   The result of a call is the one the branches give in order: an error exactly
   when the sensor is missing, a skip while cooling or at home, and otherwise
   the sensor switched to `active`.
   */
  lemma OutcomeTable(s: HandlerState, kind: Kind, acc: Accessory, active: bool, manual: bool,
                     settings: Option<GeneralSettings>)
    ensures Call(s, kind, acc, active, manual, settings).outcome == ExpectedOutcome(s, kind, acc, active, manual, settings)
    ensures Call(s, kind, acc, active, manual, settings).outcome.IsError() <==> !HasSensor(acc, kind)
  {
    if !HasSensor(acc, kind) {
      NotEnabledOnlyPulses(s, kind, acc, active, manual, settings);
    } else if acc.uuid in TimersOf(s, kind) && active {
      CoolingSkipsActivation(s, kind, acc, manual, settings);
    } else {
      CheckedCallGoesOn(s, kind, acc, active, manual, settings);
      var s1 := ClearCooldown(s, kind, acc.uuid);
      if manual && AtHomeSuppresses(settings, acc.displayName, active) {
        AtHomeSkipsManualActivation(s1, kind, acc, active, manual, settings);
      } else {
        AcceptedCallSwitches(s1, kind, acc, active, manual, settings);
      }
    }
  }

  /** Automated calls never read the settings: any two settings give the same result. */
  lemma AutomatedIgnoresSettings(s: HandlerState, kind: Kind, acc: Accessory, active: bool,
                                 settings1: Option<GeneralSettings>, settings2: Option<GeneralSettings>)
    ensures Call(s, kind, acc, active, false, settings1) == Call(s, kind, acc, active, false, settings2)
  {
  }

  // ---------------------------------------------------------------------------
  // The building blocks

  /** The cooldown check's cancellation: the UUID leaves the map and its timer is cleared. */
  lemma ClearCooldownTimers(s: HandlerState, kind: Kind, u: Uuid)
    ensures var r := ClearCooldown(s, kind, u);
            && TimersOf(r, kind) == TimersOf(s, kind) - {u}
            && r.pending == (if u in TimersOf(s, kind) then s.pending - {TimersOf(s, kind)[u]} else s.pending)
  {
  }

  /** Cancelling touches nothing but the pending timers and the map of its own kind. */
  lemma ClearCooldownFrame(s: HandlerState, kind: Kind, u: Uuid)
    ensures var r := ClearCooldown(s, kind, u);
            && (kind == Motion ==> r.doorbellTimers == s.doorbellTimers)
            && (kind == Doorbell ==> r.motionTimers == s.motionTimers)
            && r == s.(pending := r.pending, motionTimers := r.motionTimers, doorbellTimers := r.doorbellTimers)
  {
  }

  /** Starting a cooldown: one new timer, under the next handle, stored under the UUID. */
  lemma StartCooldownTimers(s: HandlerState, kind: Kind, acc: Accessory)
    ensures var r := StartCooldown(s, kind, acc);
            && TimersOf(r, kind) == TimersOf(s, kind)[acc.uuid := s.nextTimer]
            && r.pending == s.pending[s.nextTimer := Timer(kind, acc, 1000 * TimeoutSeconds(acc.config))]
            && r.nextTimer == s.nextTimer + 1
  {
  }

  /** Starting a cooldown touches nothing but the timers and the map of its own kind. */
  lemma StartCooldownFrame(s: HandlerState, kind: Kind, acc: Accessory)
    ensures var r := StartCooldown(s, kind, acc);
            && (kind == Motion ==> r.doorbellTimers == s.doorbellTimers)
            && (kind == Doorbell ==> r.motionTimers == s.motionTimers)
            && r == s.(pending := r.pending, nextTimer := r.nextTimer,
                       motionTimers := r.motionTimers, doorbellTimers := r.doorbellTimers)
  {
  }

  lemma MotionWritesEffects(s: HandlerState, acc: Accessory, active: bool, manual: bool, v: Uuid)
    ensures var r := MotionWrites(s, acc, active, manual);
            && r.events == s.events + EventIf(Motion, acc, active, manual && !acc.config.hsv)
            && OutputsAt(r, acc.uuid) == MotionWrite(OutputsAt(s, acc.uuid), acc, active)
            && (v != acc.uuid ==> OutputsAt(r, v) == OutputsAt(s, v))
            && r == s.(events := r.events, outputs := r.outputs)
  {
  }

  lemma DoorbellWritesEffects(s: HandlerState, acc: Accessory, active: bool, manual: bool, v: Uuid)
    ensures var r := DoorbellWrites(s, acc, active, manual);
            && r.events == s.events + EventIf(Doorbell, acc, active, manual && !acc.config.hsv)
            && OutputsAt(r, acc.uuid) == TriggerWrite(OutputsAt(s, acc.uuid), acc, active)
            && (v != acc.uuid ==> OutputsAt(r, v) == OutputsAt(s, v))
            && r == s.(events := r.events, outputs := r.outputs)
  {
  }

  lemma RingEffects(s: HandlerState, u: Uuid, b: bool, v: Uuid)
    ensures var r := Ring(s, u, b);
            && OutputsAt(r, u) == OutputsAt(s, u).(rings := OutputsAt(s, u).rings + if b then 1 else 0)
            && (v != u ==> OutputsAt(r, v) == OutputsAt(s, v))
            && r == s.(outputs := r.outputs)
  {
  }

  // ---------------------------------------------------------------------------
  // The accepted motion path

  /**
   Motion switched on: `MotionDetected` and the trigger (when there is one) go
   on, and a `motionDoorbell` camera with a doorbell has it pressed once.
   */
  lemma SwitchMotionOnOutputs(s: HandlerState, acc: Accessory, manual: bool)
    ensures var o := OutputsAt(s, acc.uuid);
            OutputsAt(SwitchMotion(s, acc, true, manual), acc.uuid) ==
              o.(motionDetected := true,
                 motionOn := if acc.hasMotionTrigger then true else o.motionOn,
                 rings := o.rings + if acc.config.motionDoorbell && acc.hasDoorbellSensor then 1 else 0)
  {
  }

  /** Motion switched off: `MotionDetected` and the trigger (when there is one) go off; nothing rings. */
  lemma SwitchMotionOffOutputs(s: HandlerState, acc: Accessory, manual: bool)
    ensures var o := OutputsAt(s, acc.uuid);
            OutputsAt(SwitchMotion(s, acc, false, manual), acc.uuid) ==
              o.(motionDetected := false, motionOn := if acc.hasMotionTrigger then false else o.motionOn)
  {
  }

  /** An activation stores exactly one new timer, of `timeoutConfig * 1000` ms, under the UUID. */
  lemma SwitchMotionOnTimers(s: HandlerState, acc: Accessory, manual: bool)
    ensures var r := SwitchMotion(s, acc, true, manual);
            && r.motionTimers == s.motionTimers[acc.uuid := s.nextTimer]
            && r.pending == s.pending[s.nextTimer := Timer(Motion, acc, 1000 * TimeoutSeconds(acc.config))]
            && r.nextTimer == s.nextTimer + 1
  {
  }

  /** A deactivation starts no timer. */
  lemma SwitchMotionOffTimers(s: HandlerState, acc: Accessory, manual: bool)
    ensures var r := SwitchMotion(s, acc, false, manual);
            r.motionTimers == s.motionTimers && r.pending == s.pending && r.nextTimer == s.nextTimer
  {
  }

  lemma SwitchMotionOnRecord(s: HandlerState, acc: Accessory, manual: bool)
    ensures var r := SwitchMotion(s, acc, true, manual);
            && r.events == s.events + EventIf(Motion, acc, true, manual && !acc.config.hsv)
            && r == s.(events := r.events, outputs := r.outputs, motionTimers := r.motionTimers,
                       pending := r.pending, nextTimer := r.nextTimer)
  {
  }

  lemma SwitchMotionOffRecord(s: HandlerState, acc: Accessory, manual: bool)
    ensures var r := SwitchMotion(s, acc, false, manual);
            && r.events == s.events + EventIf(Motion, acc, false, manual && !acc.config.hsv)
            && r == s.(events := r.events, outputs := r.outputs)
  {
  }

  lemma SwitchMotionOnOthers(s: HandlerState, acc: Accessory, manual: bool, v: Uuid)
    requires v != acc.uuid
    ensures OutputsAt(SwitchMotion(s, acc, true, manual), v) == OutputsAt(s, v)
  {
  }

  lemma SwitchMotionOffOthers(s: HandlerState, acc: Accessory, manual: bool, v: Uuid)
    requires v != acc.uuid
    ensures OutputsAt(SwitchMotion(s, acc, false, manual), v) == OutputsAt(s, v)
  {
  }

  /**
   The accepted motion path emits only on a manual call without hsv, and
   leaves the doorbell side, the pulses, the log and every other accessory alone.
   */
  lemma SwitchMotionFrame(s: HandlerState, acc: Accessory, active: bool, manual: bool, v: Uuid)
    ensures var r := SwitchMotion(s, acc, active, manual);
            && r.events == s.events + EventIf(Motion, acc, active, manual && !acc.config.hsv)
            && r.doorbellTimers == s.doorbellTimers
            && OutputsAt(r, v).doorbellOn == OutputsAt(s, v).doorbellOn
            && (v != acc.uuid ==> OutputsAt(r, v) == OutputsAt(s, v))
            && r.pulses == s.pulses && r.log == s.log
            && r.initialized == s.initialized && r.accessories == s.accessories
  {
    if active {
      SwitchMotionOnRecord(s, acc, manual);
      if v == acc.uuid { SwitchMotionOnOutputs(s, acc, manual); } else { SwitchMotionOnOthers(s, acc, manual, v); }
    } else {
      SwitchMotionOffRecord(s, acc, manual);
      if v == acc.uuid { SwitchMotionOffOutputs(s, acc, manual); } else { SwitchMotionOffOthers(s, acc, manual, v); }
    }
  }

  // ---------------------------------------------------------------------------
  // The accepted doorbell path

  /** Doorbell switched off: only the trigger goes off (and the event of a manual call is emitted). */
  lemma SwitchDoorbellOff(s: HandlerState, acc: Accessory, manual: bool, settings: Option<GeneralSettings>, v: Uuid)
    ensures var r := SwitchDoorbell(s, acc, false, manual, settings);
            && OutputsAt(r, acc.uuid) == TriggerWrite(OutputsAt(s, acc.uuid), acc, false)
            && (v != acc.uuid ==> OutputsAt(r, v) == OutputsAt(s, v))
            && r.events == s.events + EventIf(Doorbell, acc, false, manual && !acc.config.hsv)
            && r == s.(events := r.events, outputs := r.outputs)
  {
    DoorbellWritesEffects(s, acc, false, manual, v);
  }

  /** The press ending an activation: one new doorbell timer under the next handle. */
  lemma PressDoorbellTimers(s: HandlerState, acc: Accessory)
    ensures var r := PressDoorbell(s, acc);
            && r.doorbellTimers == s.doorbellTimers[acc.uuid := s.nextTimer]
            && r.pending == s.pending[s.nextTimer := Timer(Doorbell, acc, 1000 * TimeoutSeconds(acc.config))]
            && r.nextTimer == s.nextTimer + 1
  {
  }

  /** The press rings the doorbell once and changes nothing else but the doorbell cooldown. */
  lemma PressDoorbellOutputs(s: HandlerState, acc: Accessory, v: Uuid)
    ensures var r := PressDoorbell(s, acc);
            && OutputsAt(r, acc.uuid) == OutputsAt(s, acc.uuid).(rings := OutputsAt(s, acc.uuid).rings + 1)
            && (v != acc.uuid ==> OutputsAt(r, v) == OutputsAt(s, v))
            && r == s.(outputs := r.outputs, doorbellTimers := r.doorbellTimers, pending := r.pending,
                       nextTimer := r.nextTimer)
  {
    RingEffects(s, acc.uuid, true, v);
  }

  // ---------------------------------------------------------------------------
  // Whole calls

  /** A call that is not switched changes nothing but the trigger-off pulses, and queues at most one. */
  lemma UnswitchedOnlyPulses(s: HandlerState, kind: Kind, acc: Accessory, active: bool, manual: bool,
                             settings: Option<GeneralSettings>)
    requires !Call(s, kind, acc, active, manual, settings).outcome.Switched?
    ensures var r := Call(s, kind, acc, active, manual, settings).state;
            r == s.(pulses := r.pulses) && |s.pulses| <= |r.pulses| <= |s.pulses| + 1
  {
    OutcomeTable(s, kind, acc, active, manual, settings);
    if !HasSensor(acc, kind) {
      NotEnabledOnlyPulses(s, kind, acc, active, manual, settings);
    } else if acc.uuid in TimersOf(s, kind) && active {
      CoolingSkipsActivation(s, kind, acc, manual, settings);
    } else {
      CheckedCallGoesOn(s, kind, acc, active, manual, settings);
      AtHomeSkipsManualActivation(s, kind, acc, active, manual, settings);
    }
  }

  /** A switched call went past both checks: the cooldown was cleared, then the accepted path ran. */
  lemma SwitchedCall(s: HandlerState, kind: Kind, acc: Accessory, active: bool, manual: bool,
                     settings: Option<GeneralSettings>)
    requires Call(s, kind, acc, active, manual, settings).outcome.Switched?
    ensures HasSensor(acc, kind) && !(acc.uuid in TimersOf(s, kind) && active)
    ensures !(manual && AtHomeSuppresses(settings, acc.displayName, active))
    ensures Call(s, kind, acc, active, manual, settings) ==
              Step(Switch(ClearCooldown(s, kind, acc.uuid), kind, acc, active, manual, settings), Switched(kind, active))
  {
    OutcomeTable(s, kind, acc, active, manual, settings);
    CheckedCallGoesOn(s, kind, acc, active, manual, settings);
    AcceptedCallSwitches(ClearCooldown(s, kind, acc.uuid), kind, acc, active, manual, settings);
  }

  /**
   Motion switched off: the cooldown entry is gone and its timer cleared (so it
   can no longer expire), no timer is started, `MotionDetected` is false and the
   trigger, when there is one, is off.
   */
  lemma MotionOffCancelsCooldown(s: HandlerState, acc: Accessory, manual: bool,
                                 settings: Option<GeneralSettings>)
    requires acc.hasMotionSensor
    ensures var r := MotionHandler(s, acc, false, manual, settings);
            && r.outcome == Switched(Motion, false)
            && r.state.motionTimers == s.motionTimers - {acc.uuid}
            && r.state.pending == (if acc.uuid in s.motionTimers then s.pending - {s.motionTimers[acc.uuid]}
                                   else s.pending)
            && r.state.nextTimer == s.nextTimer
            && OutputsAt(r.state, acc.uuid) == MotionWrite(OutputsAt(s, acc.uuid), acc, false)
  {
    var u := acc.uuid;
    CheckedCallGoesOn(s, Motion, acc, false, manual, settings);
    var s1 := ClearCooldown(s, Motion, u);
    AcceptedCallSwitches(s1, Motion, acc, false, manual, settings);
    ClearCooldownTimers(s, Motion, u);
    ClearCooldownFrame(s, Motion, u);
    SwitchMotionOffTimers(s1, acc, manual);
    SwitchMotionOffOutputs(s1, acc, manual);
  }

  /** Doorbell switched off: the same, for the doorbell cooldown and the doorbell trigger. */
  lemma DoorbellOffCancelsCooldown(s: HandlerState, acc: Accessory, manual: bool,
                                   settings: Option<GeneralSettings>)
    requires acc.hasDoorbellSensor
    ensures var r := DoorbellHandler(s, acc, false, manual, settings);
            && r.outcome == Switched(Doorbell, false)
            && r.state.doorbellTimers == s.doorbellTimers - {acc.uuid}
            && r.state.pending == (if acc.uuid in s.doorbellTimers then s.pending - {s.doorbellTimers[acc.uuid]}
                                   else s.pending)
            && r.state.nextTimer == s.nextTimer
            && OutputsAt(r.state, acc.uuid) == TriggerWrite(OutputsAt(s, acc.uuid), acc, false)
  {
    var u := acc.uuid;
    CheckedCallGoesOn(s, Doorbell, acc, false, manual, settings);
    var s1 := ClearCooldown(s, Doorbell, u);
    AcceptedCallSwitches(s1, Doorbell, acc, false, manual, settings);
    ClearCooldownTimers(s, Doorbell, u);
    ClearCooldownFrame(s, Doorbell, u);
    SwitchDoorbellOff(s1, acc, manual, settings, u);
  }

  /**
   Motion switched on: `MotionDetected` and the trigger are on, the doorbell
   rings once if `motionDoorbell` is set and there is a doorbell, and exactly one
   new timer, of `timeoutConfig * 1000` ms, is stored under the UUID.
   */
  lemma MotionOnStartsCooldown(s: HandlerState, acc: Accessory, manual: bool,
                               settings: Option<GeneralSettings>)
    requires acc.hasMotionSensor && acc.uuid !in s.motionTimers
    requires !(manual && AtHomeSuppresses(settings, acc.displayName, true))
    ensures var r := MotionHandler(s, acc, true, manual, settings);
            && r.outcome == Switched(Motion, true)
            && r.state.motionTimers == s.motionTimers[acc.uuid := s.nextTimer]
            && r.state.pending == s.pending[s.nextTimer := Timer(Motion, acc, 1000 * TimeoutSeconds(acc.config))]
            && r.state.nextTimer == s.nextTimer + 1
            && var o := OutputsAt(s, acc.uuid);
               OutputsAt(r.state, acc.uuid) ==
                 o.(motionDetected := true,
                    motionOn := if acc.hasMotionTrigger then true else o.motionOn,
                    rings := o.rings + if acc.config.motionDoorbell && acc.hasDoorbellSensor then 1 else 0)
  {
    CheckedCallGoesOn(s, Motion, acc, true, manual, settings);
    AcceptedCallSwitches(s, Motion, acc, true, manual, settings);
    SwitchMotionOnTimers(s, acc, manual);
    SwitchMotionOnOutputs(s, acc, manual);
  }

  /**
   The motion handler starts a timer exactly when it switches motion on, and
   rings the doorbell exactly when that happens on a `motionDoorbell` camera
   with a doorbell.
   */
  lemma MotionActivationCounts(s: HandlerState, acc: Accessory, active: bool, manual: bool,
                               settings: Option<GeneralSettings>)
    ensures var r := MotionHandler(s, acc, active, manual, settings);
            && r.state.nextTimer == s.nextTimer + (if r.outcome == Switched(Motion, true) then 1 else 0)
            && OutputsAt(r.state, acc.uuid).rings == OutputsAt(s, acc.uuid).rings +
                 (if r.outcome == Switched(Motion, true) && acc.config.motionDoorbell && acc.hasDoorbellSensor
                  then 1 else 0)
  {
    var r := MotionHandler(s, acc, active, manual, settings);
    assert r == Call(s, Motion, acc, active, manual, settings);
    if r.outcome.Switched? {
      SwitchedCall(s, Motion, acc, active, manual, settings);
      var s1 := ClearCooldown(s, Motion, acc.uuid);
      ClearCooldownFrame(s, Motion, acc.uuid);
      if active {
        SwitchMotionOnTimers(s1, acc, manual);
        SwitchMotionOnOutputs(s1, acc, manual);
      } else {
        SwitchMotionOffTimers(s1, acc, manual);
        SwitchMotionOffOutputs(s1, acc, manual);
      }
    } else {
      UnswitchedOnlyPulses(s, Motion, acc, active, manual, settings);
    }
  }

  /**
   Doorbell switched on: exactly one new doorbell timer, of `timeoutConfig * 1000`
   ms (the motion timeout), is stored under the UUID. Its handle is the next one,
   or the one after when the hsv bridge switched motion on and took it first.
   */
  lemma DoorbellOnStartsCooldown(s: HandlerState, acc: Accessory, manual: bool,
                                 settings: Option<GeneralSettings>)
    requires acc.hasDoorbellSensor && acc.uuid !in s.doorbellTimers
    requires !(manual && AtHomeSuppresses(settings, acc.displayName, true))
    ensures var r := DoorbellHandler(s, acc, true, manual, settings);
            var id := s.nextTimer + (if BridgeSwitchesMotionOn(s, acc, manual, settings) then 1 else 0);
            && r.outcome == Switched(Doorbell, true)
            && r.state.doorbellTimers == s.doorbellTimers[acc.uuid := id]
            && r.state.nextTimer == id + 1
            && id in r.state.pending
            && r.state.pending[id] == Timer(Doorbell, acc, 1000 * TimeoutSeconds(acc.config))
  {
    CheckedCallGoesOn(s, Doorbell, acc, true, manual, settings);
    AcceptedCallSwitches(s, Doorbell, acc, true, manual, settings);
    WriteAndBridgeTimers(s, acc, manual, settings);
    PressDoorbellTimers(BridgeToMotion(DoorbellWrites(s, acc, true, manual), acc, manual, settings), acc);
  }

  /** Whether the hsv bridge of a doorbell activation switches motion on. */
  predicate BridgeSwitchesMotionOn(s: HandlerState, acc: Accessory, manual: bool,
                                   settings: Option<GeneralSettings>)
  {
    acc.config.hsv && MotionHandler(s, acc, true, manual, settings).outcome == Switched(Motion, true)
  }

  /**
   Doorbell switched on: the trigger, when there is one, is on, and the doorbell
   is pressed once, plus once more when the hsv bridge switches motion on for a
   `motionDoorbell` camera.
   */
  lemma DoorbellOnRings(s: HandlerState, acc: Accessory, manual: bool,
                        settings: Option<GeneralSettings>)
    requires acc.hasDoorbellSensor && acc.uuid !in s.doorbellTimers
    requires !(manual && AtHomeSuppresses(settings, acc.displayName, true))
    ensures var r := DoorbellHandler(s, acc, true, manual, settings).state;
            && (acc.hasDoorbellTrigger ==> OutputsAt(r, acc.uuid).doorbellOn)
            && OutputsAt(r, acc.uuid).rings == OutputsAt(s, acc.uuid).rings + 1 +
                 (if BridgeSwitchesMotionOn(s, acc, manual, settings) && acc.config.motionDoorbell then 1 else 0)
  {
    CheckedCallGoesOn(s, Doorbell, acc, true, manual, settings);
    AcceptedCallSwitches(s, Doorbell, acc, true, manual, settings);
    WriteAndBridgeOutputs(s, acc, manual, settings);
    PressDoorbellOutputs(BridgeToMotion(DoorbellWrites(s, acc, true, manual), acc, manual, settings), acc, acc.uuid);
  }

  /**
   The trigger write and the hsv bridge of a doorbell activation leave the
   doorbell cooldown alone and take one handle exactly when the bridge switches
   motion on.
   */
  lemma WriteAndBridgeTimers(s: HandlerState, acc: Accessory, manual: bool, settings: Option<GeneralSettings>)
    ensures var b := BridgeToMotion(DoorbellWrites(s, acc, true, manual), acc, manual, settings);
            && b.doorbellTimers == s.doorbellTimers
            && b.nextTimer == s.nextTimer + (if BridgeSwitchesMotionOn(s, acc, manual, settings) then 1 else 0)
  {
    var s3 := DoorbellWrites(s, acc, true, manual);
    DoorbellWritesEffects(s, acc, true, manual, acc.uuid);
    if acc.config.hsv {
      MotionKeepsDoorbellSide(s3, acc, true, manual, settings, acc.uuid);
      MotionActivationCounts(s3, acc, true, manual, settings);
      MotionReadsOnlyMotionSide(s3, s, acc, true, manual, settings);
    }
  }

  /**
   The trigger write and the hsv bridge of a doorbell activation turn the
   trigger on and press the doorbell exactly when the bridge switches motion on
   for a `motionDoorbell` camera with a doorbell.
   */
  lemma WriteAndBridgeOutputs(s: HandlerState, acc: Accessory, manual: bool, settings: Option<GeneralSettings>)
    ensures var b := BridgeToMotion(DoorbellWrites(s, acc, true, manual), acc, manual, settings);
            && (acc.hasDoorbellTrigger ==> OutputsAt(b, acc.uuid).doorbellOn)
            && OutputsAt(b, acc.uuid).rings == OutputsAt(s, acc.uuid).rings +
                 (if BridgeSwitchesMotionOn(s, acc, manual, settings) && acc.config.motionDoorbell &&
                     acc.hasDoorbellSensor then 1 else 0)
  {
    var s3 := DoorbellWrites(s, acc, true, manual);
    DoorbellWritesEffects(s, acc, true, manual, acc.uuid);
    if acc.config.hsv {
      MotionKeepsDoorbellSide(s3, acc, true, manual, settings, acc.uuid);
      MotionActivationCounts(s3, acc, true, manual, settings);
      MotionReadsOnlyMotionSide(s3, s, acc, true, manual, settings);
    }
  }

  // ---------------------------------------------------------------------------
  // Independence, bridging, event emission

  /** The motion handler never reaches the doorbell: its cooldown map and trigger stay as they were. */
  lemma MotionKeepsDoorbellSide(s: HandlerState, acc: Accessory, active: bool, manual: bool,
                                settings: Option<GeneralSettings>, v: Uuid)
    ensures var r := MotionHandler(s, acc, active, manual, settings).state;
            r.doorbellTimers == s.doorbellTimers && OutputsAt(r, v).doorbellOn == OutputsAt(s, v).doorbellOn
  {
    assert MotionHandler(s, acc, active, manual, settings) == Call(s, Motion, acc, active, manual, settings);
    if Call(s, Motion, acc, active, manual, settings).outcome.Switched? {
      SwitchedCall(s, Motion, acc, active, manual, settings);
      ClearCooldownFrame(s, Motion, acc.uuid);
      SwitchMotionFrame(ClearCooldown(s, Motion, acc.uuid), acc, active, manual, v);
    } else {
      UnswitchedOnlyPulses(s, Motion, acc, active, manual, settings);
    }
  }

  /** The motion handler leaves every other accessory alone. */
  lemma MotionOthersUntouched(s: HandlerState, acc: Accessory, active: bool, manual: bool,
                              settings: Option<GeneralSettings>, v: Uuid)
    requires v != acc.uuid
    ensures OutputsAt(MotionHandler(s, acc, active, manual, settings).state, v) == OutputsAt(s, v)
  {
    assert MotionHandler(s, acc, active, manual, settings) == Call(s, Motion, acc, active, manual, settings);
    if Call(s, Motion, acc, active, manual, settings).outcome.Switched? {
      SwitchedCall(s, Motion, acc, active, manual, settings);
      ClearCooldownFrame(s, Motion, acc.uuid);
      SwitchMotionFrame(ClearCooldown(s, Motion, acc.uuid), acc, active, manual, v);
    } else {
      UnswitchedOnlyPulses(s, Motion, acc, active, manual, settings);
    }
  }

  /** The doorbell handler leaves every other accessory alone, the hsv bridge included. */
  lemma DoorbellOthersUntouched(s: HandlerState, acc: Accessory, active: bool, manual: bool,
                                settings: Option<GeneralSettings>, v: Uuid)
    requires v != acc.uuid
    ensures OutputsAt(DoorbellHandler(s, acc, active, manual, settings).state, v) == OutputsAt(s, v)
  {
    assert DoorbellHandler(s, acc, active, manual, settings) == Call(s, Doorbell, acc, active, manual, settings);
    if Call(s, Doorbell, acc, active, manual, settings).outcome.Switched? {
      SwitchedCall(s, Doorbell, acc, active, manual, settings);
      var s1 := ClearCooldown(s, Doorbell, acc.uuid);
      ClearCooldownFrame(s, Doorbell, acc.uuid);
      if active {
        var s3 := DoorbellWrites(s1, acc, true, manual);
        DoorbellWritesEffects(s1, acc, true, manual, v);
        if acc.config.hsv {
          MotionOthersUntouched(s3, acc, true, manual, settings, v);
        }
        PressDoorbellOutputs(BridgeToMotion(s3, acc, manual, settings), acc, v);
      } else {
        SwitchDoorbellOff(s1, acc, manual, settings, v);
      }
    } else {
      UnswitchedOnlyPulses(s, Doorbell, acc, active, manual, settings);
    }
  }

  /** A call never changes the outputs of any other accessory. */
  lemma OtherAccessoriesUntouched(s: HandlerState, kind: Kind, acc: Accessory, active: bool, manual: bool,
                                  settings: Option<GeneralSettings>, v: Uuid)
    requires v != acc.uuid
    ensures OutputsAt(Call(s, kind, acc, active, manual, settings).state, v) == OutputsAt(s, v)
  {
    if kind == Motion {
      MotionOthersUntouched(s, acc, active, manual, settings, v);
    } else {
      DoorbellOthersUntouched(s, acc, active, manual, settings, v);
    }
  }

  /**
   The doorbell reaches motion only through the hsv bridge on an activation;
   otherwise the motion cooldown map and the motion outputs stay as they were.
   */
  lemma DoorbellLeavesMotionAlone(s: HandlerState, acc: Accessory, active: bool, manual: bool,
                                  settings: Option<GeneralSettings>, v: Uuid)
    requires !acc.config.hsv || !active
    ensures var r := DoorbellHandler(s, acc, active, manual, settings).state;
            && r.motionTimers == s.motionTimers
            && OutputsAt(r, v).motionDetected == OutputsAt(s, v).motionDetected
            && OutputsAt(r, v).motionOn == OutputsAt(s, v).motionOn
  {
    assert DoorbellHandler(s, acc, active, manual, settings) == Call(s, Doorbell, acc, active, manual, settings);
    if Call(s, Doorbell, acc, active, manual, settings).outcome.Switched? {
      SwitchedCall(s, Doorbell, acc, active, manual, settings);
      var s1 := ClearCooldown(s, Doorbell, acc.uuid);
      ClearCooldownFrame(s, Doorbell, acc.uuid);
      if active {
        var s3 := DoorbellWrites(s1, acc, true, manual);
        DoorbellWritesEffects(s1, acc, true, manual, v);
        PressDoorbellOutputs(s3, acc, v);
      } else {
        SwitchDoorbellOff(s1, acc, manual, settings, v);
      }
    } else {
      UnswitchedOnlyPulses(s, Doorbell, acc, active, manual, settings);
    }
  }

  /**
   The motion handler reads only the motion side of the state: two states that
   agree on the motion cooldown, `nextTimer` and the motion outputs of the
   accessory give the same outcome, cooldown and motion outputs.
   */
  lemma MotionReadsOnlyMotionSide(s: HandlerState, t: HandlerState, acc: Accessory, active: bool, manual: bool,
                                  settings: Option<GeneralSettings>)
    requires s.motionTimers == t.motionTimers && s.nextTimer == t.nextTimer
    requires OutputsAt(s, acc.uuid).motionDetected == OutputsAt(t, acc.uuid).motionDetected
    requires OutputsAt(s, acc.uuid).motionOn == OutputsAt(t, acc.uuid).motionOn
    ensures var a := MotionHandler(s, acc, active, manual, settings);
            var b := MotionHandler(t, acc, active, manual, settings);
            && a.outcome == b.outcome
            && a.state.motionTimers == b.state.motionTimers
            && OutputsAt(a.state, acc.uuid).motionDetected == OutputsAt(b.state, acc.uuid).motionDetected
            && OutputsAt(a.state, acc.uuid).motionOn == OutputsAt(b.state, acc.uuid).motionOn
  {
    var u := acc.uuid;
    OutcomeTable(s, Motion, acc, active, manual, settings);
    OutcomeTable(t, Motion, acc, active, manual, settings);
    assert MotionHandler(s, acc, active, manual, settings) == Call(s, Motion, acc, active, manual, settings);
    assert MotionHandler(t, acc, active, manual, settings) == Call(t, Motion, acc, active, manual, settings);
    if Call(s, Motion, acc, active, manual, settings).outcome.Switched? {
      SwitchedCall(s, Motion, acc, active, manual, settings);
      SwitchedCall(t, Motion, acc, active, manual, settings);
      var s1 := ClearCooldown(s, Motion, u);
      var t1 := ClearCooldown(t, Motion, u);
      ClearCooldownTimers(s, Motion, u);
      ClearCooldownTimers(t, Motion, u);
      ClearCooldownFrame(s, Motion, u);
      ClearCooldownFrame(t, Motion, u);
      if active {
        SwitchMotionOnTimers(s1, acc, manual);
        SwitchMotionOnTimers(t1, acc, manual);
        SwitchMotionOnOutputs(s1, acc, manual);
        SwitchMotionOnOutputs(t1, acc, manual);
      } else {
        SwitchMotionOffTimers(s1, acc, manual);
        SwitchMotionOffTimers(t1, acc, manual);
        SwitchMotionOffOutputs(s1, acc, manual);
        SwitchMotionOffOutputs(t1, acc, manual);
      }
    } else {
      UnswitchedOnlyPulses(s, Motion, acc, active, manual, settings);
      UnswitchedOnlyPulses(t, Motion, acc, active, manual, settings);
    }
  }

  /**
   The hsv bridge: an accepted doorbell activation acts on the motion cooldown
   and the motion outputs exactly as a motion activation with the same `manual`
   would.
   */
  lemma DoorbellBridgesToMotion(s: HandlerState, acc: Accessory, manual: bool,
                                settings: Option<GeneralSettings>)
    requires acc.config.hsv
    requires DoorbellHandler(s, acc, true, manual, settings).outcome == Switched(Doorbell, true)
    ensures var r := DoorbellHandler(s, acc, true, manual, settings).state;
            var m := MotionHandler(s, acc, true, manual, settings).state;
            && r.motionTimers == m.motionTimers
            && OutputsAt(r, acc.uuid).motionDetected == OutputsAt(m, acc.uuid).motionDetected
            && OutputsAt(r, acc.uuid).motionOn == OutputsAt(m, acc.uuid).motionOn
  {
    var u := acc.uuid;
    assert DoorbellHandler(s, acc, true, manual, settings) == Call(s, Doorbell, acc, true, manual, settings);
    SwitchedCall(s, Doorbell, acc, true, manual, settings);
    var s1 := ClearCooldown(s, Doorbell, u);
    ClearCooldownFrame(s, Doorbell, u);
    var s3 := DoorbellWrites(s1, acc, true, manual);
    DoorbellWritesEffects(s1, acc, true, manual, u);
    MotionReadsOnlyMotionSide(s3, s, acc, true, manual, settings);
    PressDoorbellOutputs(MotionHandler(s3, acc, true, manual, settings).state, acc, u);
  }

  /**
   `triggerEvent` is called once, on a manual accepted call of a camera without
   `hsv`, and not at all otherwise, the bridged motion call included.
   */
  lemma TriggerEventOnlyWhenManual(s: HandlerState, kind: Kind, acc: Accessory, active: bool, manual: bool,
                                   settings: Option<GeneralSettings>)
    ensures var r := Call(s, kind, acc, active, manual, settings);
            r.state.events == s.events + EventIf(kind, acc, active, manual && !acc.config.hsv && r.outcome.Switched?)
    decreases if kind == Doorbell then 1 else 0
  {
    var r := Call(s, kind, acc, active, manual, settings);
    if r.outcome.Switched? {
      SwitchedCall(s, kind, acc, active, manual, settings);
      var s1 := ClearCooldown(s, kind, acc.uuid);
      ClearCooldownFrame(s, kind, acc.uuid);
      if kind == Motion {
        SwitchMotionFrame(s1, acc, active, manual, acc.uuid);
      } else if active {
        var s3 := DoorbellWrites(s1, acc, true, manual);
        DoorbellWritesEffects(s1, acc, true, manual, acc.uuid);
        if acc.config.hsv {
          TriggerEventOnlyWhenManual(s3, Motion, acc, true, manual, settings);
        }
        PressDoorbellOutputs(BridgeToMotion(s3, acc, manual, settings), acc, acc.uuid);
      } else {
        SwitchDoorbellOff(s1, acc, manual, settings, acc.uuid);
      }
    } else {
      UnswitchedOnlyPulses(s, kind, acc, active, manual, settings);
    }
  }

  /** No call touches the log, the loading flag or the loaded accessories. */
  lemma CallKeepsLoadAndLog(s: HandlerState, kind: Kind, acc: Accessory, active: bool, manual: bool,
                            settings: Option<GeneralSettings>)
    ensures var r := Call(s, kind, acc, active, manual, settings).state;
            r.log == s.log && r.initialized == s.initialized && r.accessories == s.accessories
    decreases if kind == Doorbell then 1 else 0
  {
    var r := Call(s, kind, acc, active, manual, settings);
    if r.outcome.Switched? {
      SwitchedCall(s, kind, acc, active, manual, settings);
      var s1 := ClearCooldown(s, kind, acc.uuid);
      ClearCooldownFrame(s, kind, acc.uuid);
      if kind == Motion {
        SwitchMotionFrame(s1, acc, active, manual, acc.uuid);
      } else if active {
        var s3 := DoorbellWrites(s1, acc, true, manual);
        DoorbellWritesEffects(s1, acc, true, manual, acc.uuid);
        if acc.config.hsv {
          CallKeepsLoadAndLog(s3, Motion, acc, true, manual, settings);
        }
        PressDoorbellOutputs(BridgeToMotion(s3, acc, manual, settings), acc, acc.uuid);
      } else {
        SwitchDoorbellOff(s1, acc, manual, settings, acc.uuid);
      }
    } else {
      UnswitchedOnlyPulses(s, kind, acc, active, manual, settings);
    }
  }

  // ---------------------------------------------------------------------------
  // Dispatching

  /** `handle` before `finishLoading`: an error is logged and nothing else happens. */
  lemma HandleBeforeLoading(s: HandlerState, target: string, name: string, active: bool)
    requires !s.initialized
    ensures Handle(s, target, name, active) == s.(log := s.log + [LogLine(true, Failed(NotInitialized), name)])
  {
  }

  /** `handle` for a name no accessory has: an error is logged and nothing else happens. */
  lemma HandleUnknownCamera(s: HandlerState, target: string, name: string, active: bool)
    requires s.initialized
    requires forall i :: 0 <= i < |s.accessories| ==> s.accessories[i].displayName != name
    ensures Handle(s, target, name, active) == s.(log := s.log + [LogLine(true, Failed(CameraNotFound(name)), name)])
  {
  }

  /** `handle` for a target other than motion and doorbell: an error is logged, no handler runs. */
  lemma HandleUnknownTarget(s: HandlerState, target: string, name: string, active: bool)
    requires target != "motion" && target != "doorbell"
    ensures exists e :: Handle(s, target, name, active) == s.(log := s.log + [LogLine(true, Failed(e), name)])
  {
    var d := Dispatch(s, target, name, active);
    assert Handle(s, target, name, active) == s.(log := s.log + [LogLine(true, Failed(d.outcome.error), name)]);
  }

  /**
   `handle` for a known camera runs the handler of the target on the first
   accessory of that name, with `manual` unset, and logs its result; it never
   calls `triggerEvent`.
   */
  lemma HandleRunsAutomatedHandler(s: HandlerState, target: string, name: string, active: bool)
    requires s.initialized && (target == "motion" || target == "doorbell")
    requires exists i :: 0 <= i < |s.accessories| && s.accessories[i].displayName == name
    ensures var acc := Lookup.FindByName(s.accessories, name).value;
            var kind := if target == "motion" then Motion else Doorbell;
            var r := Call(s, kind, acc, active, false, None);
            && acc.displayName == name
            && Handle(s, target, name, active) ==
                 r.state.(log := s.log + [LogLine(r.outcome.IsError(), r.outcome, name)])
            && Handle(s, target, name, active).events == s.events
  {
    var acc := Lookup.FindByName(s.accessories, name).value;
    var kind := if target == "motion" then Motion else Doorbell;
    CallKeepsLoadAndLog(s, kind, acc, active, false, None);
    TriggerEventOnlyWhenManual(s, kind, acc, active, false, None);
  }
}
