/**
 The `Handler` object: its fields are updated in place by `finishLoading`,
 `handle`, the two handlers and the timer callbacks. Each method is proved to
 leave exactly the state the matching function of HandlerSpec describes, and
 the entry points to keep the invariant HandlerSpec.Valid.

 Besides the object's own fields (`initialized`, `accessories`, the two
 cooldown maps), the class holds what the object changes elsewhere: the
 characteristic values of the accessories, the runtime's pending timers and
 500 ms pulses, the `triggerEvent` calls and the log.
 */
module HandlerService {
  import opened HandlerTypes
  import HandlerSpec
  import HandlerInvariant
  import Lookup

  class Handler {
    var initialized: bool
    var accessories: seq<Accessory>
    var motionTimers: map<Uuid, TimerId>
    var doorbellTimers: map<Uuid, TimerId>
    var pending: map<TimerId, Timer>
    var nextTimer: TimerId
    var outputs: map<Uuid, Outputs>
    var pulses: seq<Pulse>
    var events: seq<Event>
    var log: seq<LogLine>

    /** The object's state as a value. */
    function State(): HandlerSpec.HandlerState
      reads this
    {
      HandlerSpec.HandlerState(initialized, accessories, motionTimers, doorbellTimers, pending, nextTimer,
                               outputs, pulses, events, log)
    }

    ghost predicate Valid()
      reads this
    {
      HandlerSpec.Valid(State())
    }

    /** The object as constructed: not initialised, no cooldowns, nothing scheduled. */
    constructor ()
      ensures State() == HandlerSpec.Initial() && Valid()
    {
      initialized := false;
      accessories := [];
      motionTimers := map[];
      doorbellTimers := map[];
      pending := map[];
      nextTimer := 0;
      outputs := map[];
      pulses := [];
      events := [];
      log := [];
      HandlerInvariant.InitialValid();
    }

    /** `finishLoading(accessories)`. */
    method FinishLoading(accs: seq<Accessory>)
      requires Valid()
      modifies this
      ensures Valid()
      ensures State() == HandlerSpec.FinishLoading(old(State()), accs)
    {
      HandlerInvariant.ValidFrame(State(), HandlerSpec.FinishLoading(State(), accs));
      accessories := accs;
      initialized := true;
    }

    /** `handle(target, name, active)`: route, then log the result. */
    method Handle(target: string, name: string, active: bool)
      requires Valid()
      modifies this
      ensures Valid()
      ensures State() == HandlerSpec.Handle(old(State()), target, name, active)
    {
      HandlerInvariant.HandlePreservesValid(State(), target, name, active);
      var result := Dispatch(target, name, active);
      log := log + [LogLine(result.IsError(), result, name)];
    }

    /** The routing part of `handle`: the result it computes before logging. */
    method Dispatch(target: string, name: string, active: bool) returns (result: Outcome)
      requires Valid()
      modifies this
      ensures HandlerSpec.Step(State(), result) == HandlerSpec.Dispatch(old(State()), target, name, active)
    {
      if !initialized {
        return Failed(NotInitialized);
      }
      var accessory := Lookup.FindByName(accessories, name);
      if accessory.None? {
        return Failed(CameraNotFound(name));
      }
      if target == "motion" {
        result := MotionHandler(accessory.value, active, false, None);
      } else if target == "doorbell" {
        result := DoorbellHandler(accessory.value, active, false, None);
      } else {
        result := Failed(UnknownTarget(target));
      }
    }

    /**
     `motionHandler(accessory, active, manual)`; `settings` is what the database
     read returns. The capability check and the cooldown check.
     */
    method MotionHandler(acc: Accessory, active: bool, manual: bool, settings: Option<GeneralSettings>)
      returns (result: Outcome)
      requires Valid()
      modifies this
      ensures Valid()
      ensures HandlerSpec.Step(State(), result) ==
                HandlerSpec.MotionHandler(old(State()), acc, active, manual, settings)
    {
      HandlerInvariant.MotionPreservesValid(State(), acc, active, manual, settings);
      var u := acc.uuid;
      if !acc.hasMotionSensor {
        QueueTriggerOff(Motion, u, acc.hasMotionTrigger);
        return Failed(NotEnabled(Motion));
      }
      if u in motionTimers && active {
        QueueTriggerOff(Motion, u, acc.hasMotionTrigger && manual);
        return Skipped(TimeoutActive(Motion));
      }
      ClearCooldown(Motion, u);
      result := MotionPastCooldown(acc, active, manual, settings);
    }

    /** The at-home check of a manual call, then the switch. */
    method MotionPastCooldown(acc: Accessory, active: bool, manual: bool, settings: Option<GeneralSettings>)
      returns (result: Outcome)
      modifies this
      ensures HandlerSpec.Step(State(), result) ==
                HandlerSpec.MotionPastCooldown(old(State()), acc, active, manual, settings)
    {
      if manual && HandlerSpec.AtHomeSuppresses(settings, acc.displayName, active) {
        QueueTriggerOff(Motion, acc.uuid, acc.hasMotionTrigger);
        return Skipped(AtHome(Motion));
      }
      SwitchMotion(acc, active, manual);
      return Switched(Motion, active);
    }

    /**
     The accepted motion path: `triggerEvent` on a manual call without hsv,
     `MotionDetected` and the trigger, and on activation the `motionDoorbell`
     press and the cooldown.
     */
    method SwitchMotion(acc: Accessory, active: bool, manual: bool)
      modifies this
      ensures State() == HandlerSpec.SwitchMotion(old(State()), acc, active, manual)
    {
      MotionWrites(acc, active, manual);
      if active {
        Ring(acc.uuid, acc.config.motionDoorbell && acc.hasDoorbellSensor);
        StartCooldown(Motion, acc);
      }
    }

    /**
     `doorbellHandler(accessory, active, manual)`: the capability check and the
     cooldown check.
     */
    method DoorbellHandler(acc: Accessory, active: bool, manual: bool, settings: Option<GeneralSettings>)
      returns (result: Outcome)
      requires Valid()
      modifies this
      ensures Valid()
      ensures HandlerSpec.Step(State(), result) ==
                HandlerSpec.DoorbellHandler(old(State()), acc, active, manual, settings)
    {
      HandlerInvariant.DoorbellPreservesValid(State(), acc, active, manual, settings);
      var u := acc.uuid;
      if !acc.hasDoorbellSensor {
        QueueTriggerOff(Doorbell, u, acc.hasDoorbellTrigger);
        return Failed(NotEnabled(Doorbell));
      }
      if u in doorbellTimers && active {
        QueueTriggerOff(Doorbell, u, acc.hasDoorbellTrigger && manual);
        return Skipped(TimeoutActive(Doorbell));
      }
      HandlerInvariant.ClearPreservesValid(State(), Doorbell, u);
      ClearCooldown(Doorbell, u);
      result := DoorbellPastCooldown(acc, active, manual, settings);
    }

    /** The at-home check of a manual call, then the switch. */
    method DoorbellPastCooldown(acc: Accessory, active: bool, manual: bool, settings: Option<GeneralSettings>)
      returns (result: Outcome)
      requires Valid()
      modifies this
      ensures HandlerSpec.Step(State(), result) ==
                HandlerSpec.DoorbellPastCooldown(old(State()), acc, active, manual, settings)
    {
      if manual && HandlerSpec.AtHomeSuppresses(settings, acc.displayName, active) {
        QueueTriggerOff(Doorbell, acc.uuid, acc.hasDoorbellTrigger);
        return Skipped(AtHome(Doorbell));
      }
      SwitchDoorbell(acc, active, manual, settings);
      return Switched(Doorbell, active);
    }

    /** The accepted doorbell path: `triggerEvent` on a manual call without hsv, the trigger, then on. */
    method SwitchDoorbell(acc: Accessory, active: bool, manual: bool, settings: Option<GeneralSettings>)
      requires Valid()
      modifies this
      ensures State() == HandlerSpec.SwitchDoorbell(old(State()), acc, active, manual, settings)
    {
      ghost var s0 := State();
      DoorbellWrites(acc, active, manual);
      if active {
        HandlerInvariant.ValidFrame(s0, State());
        ActivateDoorbell(acc, manual, settings);
      }
    }

    /**
     An accepted doorbell activation: with `hsv` set, the motion handler runs
     with the same arguments and its result is dropped; then the doorbell is
     pressed and the cooldown started.
     */
    method ActivateDoorbell(acc: Accessory, manual: bool, settings: Option<GeneralSettings>)
      requires Valid()
      modifies this
      ensures State() == HandlerSpec.ActivateDoorbell(old(State()), acc, manual, settings)
    {
      if acc.config.hsv {
        var _ := MotionHandler(acc, true, manual, settings);
      }
      Ring(acc.uuid, true);
      StartCooldown(Doorbell, acc);
    }

    /** The callback of cooldown timer `id`, which fires only while it is pending. */
    method FireTimer(id: TimerId)
      requires Valid() && id in pending
      modifies this
      ensures Valid()
      ensures State() == HandlerSpec.Expire(old(State()), id)
    {
      HandlerInvariant.ExpirePreservesValid(State(), id);
      Expire(id);
    }

    /** The body of the timer callback: forget the cooldown and reset the outputs. */
    method Expire(id: TimerId)
      requires id in pending
      modifies this
      ensures State() == HandlerSpec.Expire(old(State()), id)
    {
      var t := pending[id];
      var u := t.accessory.uuid;
      pending := pending - {id};
      var o := if u in outputs then outputs[u] else Untouched;
      if t.kind == Motion {
        motionTimers := motionTimers - {u};
        outputs := outputs[u := o.(motionDetected := false,
                                   motionOn := if t.accessory.hasMotionTrigger then false else o.motionOn)];
      } else {
        doorbellTimers := doorbellTimers - {u};
        outputs := outputs[u := o.(doorbellOn := if t.accessory.hasDoorbellTrigger then false else o.doorbellOn)];
      }
    }

    /** The oldest 500 ms pulse fires and turns its trigger switch off. */
    method FirePulse()
      requires Valid() && |pulses| > 0
      modifies this
      ensures Valid()
      ensures State() == HandlerSpec.FirePulse(old(State()))
    {
      HandlerInvariant.ValidFrame(State(), HandlerSpec.FirePulse(State()));
      var p := pulses[0];
      pulses := pulses[1..];
      var o := if p.uuid in outputs then outputs[p.uuid] else Untouched;
      outputs := outputs[p.uuid := if p.kind == Motion then o.(motionOn := false) else o.(doorbellOn := false)];
    }

    // The runtime and HAP calls the handlers make.

    /** `triggerEvent` on a manual call without hsv, then `MotionDetected` and the motion trigger. */
    method MotionWrites(acc: Accessory, active: bool, manual: bool)
      modifies this`events, this`outputs
      ensures State() == HandlerSpec.MotionWrites(old(State()), acc, active, manual)
    {
      Emit(Motion, acc, active, manual && !acc.config.hsv);
      ghost var s2 := State();
      var o := if acc.uuid in outputs then outputs[acc.uuid] else Untouched;
      outputs := outputs[acc.uuid := o.(motionDetected := active,
                                        motionOn := if acc.hasMotionTrigger then active else o.motionOn)];
      assert State() == HandlerSpec.SetOutputs(s2, acc.uuid,
                          HandlerSpec.MotionWrite(HandlerSpec.OutputsAt(s2, acc.uuid), acc, active));
    }

    /** `triggerEvent` on a manual call without hsv, then the doorbell trigger. */
    method DoorbellWrites(acc: Accessory, active: bool, manual: bool)
      modifies this`events, this`outputs
      ensures State() == HandlerSpec.DoorbellWrites(old(State()), acc, active, manual)
    {
      Emit(Doorbell, acc, active, manual && !acc.config.hsv);
      ghost var s2 := State();
      var o := if acc.uuid in outputs then outputs[acc.uuid] else Untouched;
      outputs := outputs[acc.uuid := o.(doorbellOn := if acc.hasDoorbellTrigger then active else o.doorbellOn)];
      assert State() == HandlerSpec.SetOutputs(s2, acc.uuid,
                          HandlerSpec.TriggerWrite(HandlerSpec.OutputsAt(s2, acc.uuid), acc, active));
    }

    /** `timers.set(uuid, setTimeout(expiry, timeoutConfig * 1000))`. */
    method StartCooldown(kind: Kind, acc: Accessory)
      modifies this`pending, this`nextTimer, this`motionTimers, this`doorbellTimers
      ensures State() == HandlerSpec.StartCooldown(old(State()), kind, acc)
    {
      var id := nextTimer;
      pending := pending[id := Timer(kind, acc, 1000 * HandlerSpec.TimeoutSeconds(acc.config))];
      nextTimer := id + 1;
      if kind == Motion {
        motionTimers := motionTimers[acc.uuid := id];
      } else {
        doorbellTimers := doorbellTimers[acc.uuid := id];
      }
    }

    /** `if (timeout) { clearTimeout(timeout); timers.delete(uuid) }`. */
    method ClearCooldown(kind: Kind, u: Uuid)
      modifies this`pending, this`motionTimers, this`doorbellTimers
      ensures State() == HandlerSpec.ClearCooldown(old(State()), kind, u)
    {
      if kind == Motion && u in motionTimers {
        pending := pending - {motionTimers[u]};
        motionTimers := motionTimers - {u};
      } else if kind == Doorbell && u in doorbellTimers {
        pending := pending - {doorbellTimers[u]};
        doorbellTimers := doorbellTimers - {u};
      }
    }

    /** `setTimeout(() => trigger.updateCharacteristic(On, false), 500)` when `b` holds. */
    method QueueTriggerOff(kind: Kind, u: Uuid, b: bool)
      modifies this`pulses
      ensures State() == HandlerSpec.QueueTriggerOff(old(State()), kind, u, b)
    {
      if b {
        pulses := pulses + [TriggerOff(kind, u)];
      }
    }

    /** `cameraUi.eventController.triggerEvent(kind, displayName, active)` when `b` holds. */
    method Emit(kind: Kind, acc: Accessory, active: bool, b: bool)
      modifies this`events
      ensures State() == HandlerSpec.Emit(old(State()), kind, acc, active, b)
    {
      if b {
        events := events + [Event(kind, acc.displayName, active)];
      }
    }

    /** `doorbellSensor.updateCharacteristic(ProgrammableSwitchEvent, SINGLE_PRESS)` when `b` holds. */
    method Ring(u: Uuid, b: bool)
      modifies this`outputs
      ensures State() == HandlerSpec.Ring(old(State()), u, b)
    {
      if b {
        var o := if u in outputs then outputs[u] else Untouched;
        outputs := outputs[u := o.(rings := o.rings + 1)];
      }
    }
  }
}
