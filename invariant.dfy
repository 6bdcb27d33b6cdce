/**
 The invariant that ties the two cooldown maps to the pending timers, kept by
 every call and every timer firing, and what it gives: a UUID is cooling
 exactly while its one timer is pending, and that timer's expiry ends the
 cooldown.
 */
module HandlerInvariant {
  import opened HandlerTypes
  import opened HandlerSpec
  import opened HandlerProofs
  import Lookup

  /** Everything but the cooldown maps, the pending timers and `nextTimer` is irrelevant to Valid. */
  lemma ValidFrame(s: HandlerState, t: HandlerState)
    requires Valid(s)
    requires t.motionTimers == s.motionTimers && t.doorbellTimers == s.doorbellTimers
    requires t.pending == s.pending && t.nextTimer == s.nextTimer
    ensures Valid(t)
  {
    forall id | id in t.pending ensures id < t.nextTimer && Owned(t, id) {
      assert Owned(s, id);
    }
  }

  lemma ClearPreservesValid(s: HandlerState, kind: Kind, u: Uuid)
    requires Valid(s)
    ensures Valid(ClearCooldown(s, kind, u))
  {
    if u in TimersOf(s, kind) {
      if kind == Motion {
        CancelMotionPreservesValid(s, u);
      } else {
        CancelDoorbellPreservesValid(s, u);
      }
    }
  }

  lemma CancelMotionPreservesValid(s: HandlerState, u: Uuid)
    requires Valid(s) && u in s.motionTimers
    ensures Valid(CancelCooldown(s, Motion, u))
  {
    var r := CancelCooldown(s, Motion, u);
    forall j | j in r.pending ensures j < r.nextTimer && Owned(r, j) {
      assert Owned(s, j);
    }
  }

  lemma CancelDoorbellPreservesValid(s: HandlerState, u: Uuid)
    requires Valid(s) && u in s.doorbellTimers
    ensures Valid(CancelCooldown(s, Doorbell, u))
  {
    var r := CancelCooldown(s, Doorbell, u);
    forall j | j in r.pending ensures j < r.nextTimer && Owned(r, j) {
      assert Owned(s, j);
    }
  }

  lemma StartPreservesValid(s: HandlerState, kind: Kind, acc: Accessory)
    requires Valid(s) && acc.uuid !in TimersOf(s, kind)
    ensures Valid(StartCooldown(s, kind, acc))
  {
    if kind == Motion {
      StartMotionPreservesValid(s, acc);
    } else {
      StartDoorbellPreservesValid(s, acc);
    }
  }

  lemma StartMotionPreservesValid(s: HandlerState, acc: Accessory)
    requires Valid(s) && acc.uuid !in s.motionTimers
    ensures Valid(StartCooldown(s, Motion, acc))
  {
    var r := StartCooldown(s, Motion, acc);
    forall j | j in r.pending ensures j < r.nextTimer && Owned(r, j) {
      if j != s.nextTimer {
        assert Owned(s, j);
      }
    }
  }

  lemma StartDoorbellPreservesValid(s: HandlerState, acc: Accessory)
    requires Valid(s) && acc.uuid !in s.doorbellTimers
    ensures Valid(StartCooldown(s, Doorbell, acc))
  {
    var r := StartCooldown(s, Doorbell, acc);
    forall j | j in r.pending ensures j < r.nextTimer && Owned(r, j) {
      if j != s.nextTimer {
        assert Owned(s, j);
      }
    }
  }

  lemma SwitchMotionPreservesValid(s: HandlerState, acc: Accessory, active: bool, manual: bool)
    requires Valid(s) && acc.uuid !in s.motionTimers
    ensures Valid(SwitchMotion(s, acc, active, manual))
  {
    var w := MotionWrites(s, acc, active, manual);
    MotionWritesEffects(s, acc, active, manual, acc.uuid);
    ValidFrame(s, w);
    if active {
      var b := acc.config.motionDoorbell && acc.hasDoorbellSensor;
      RingEffects(w, acc.uuid, b, acc.uuid);
      ValidFrame(w, Ring(w, acc.uuid, b));
      StartPreservesValid(Ring(w, acc.uuid, b), Motion, acc);
    }
  }

  lemma MotionPreservesValid(s: HandlerState, acc: Accessory, active: bool, manual: bool,
                             settings: Option<GeneralSettings>)
    requires Valid(s)
    ensures Valid(MotionHandler(s, acc, active, manual, settings).state)
  {
    assert MotionHandler(s, acc, active, manual, settings) == Call(s, Motion, acc, active, manual, settings);
    if Call(s, Motion, acc, active, manual, settings).outcome.Switched? {
      SwitchedCall(s, Motion, acc, active, manual, settings);
      ClearPreservesValid(s, Motion, acc.uuid);
      ClearCooldownTimers(s, Motion, acc.uuid);
      SwitchMotionPreservesValid(ClearCooldown(s, Motion, acc.uuid), acc, active, manual);
    } else {
      UnswitchedOnlyPulses(s, Motion, acc, active, manual, settings);
      ValidFrame(s, MotionHandler(s, acc, active, manual, settings).state);
    }
  }

  lemma ActivateDoorbellPreservesValid(s: HandlerState, acc: Accessory, manual: bool,
                                       settings: Option<GeneralSettings>)
    requires Valid(s) && acc.uuid !in s.doorbellTimers
    ensures Valid(ActivateDoorbell(s, acc, manual, settings))
  {
    var b := BridgeToMotion(s, acc, manual, settings);
    if acc.config.hsv {
      MotionPreservesValid(s, acc, true, manual, settings);
      MotionKeepsDoorbellSide(s, acc, true, manual, settings, acc.uuid);
    }
    RingEffects(b, acc.uuid, true, acc.uuid);
    ValidFrame(b, Ring(b, acc.uuid, true));
    StartPreservesValid(Ring(b, acc.uuid, true), Doorbell, acc);
  }

  lemma DoorbellPreservesValid(s: HandlerState, acc: Accessory, active: bool, manual: bool,
                               settings: Option<GeneralSettings>)
    requires Valid(s)
    ensures Valid(DoorbellHandler(s, acc, active, manual, settings).state)
  {
    assert DoorbellHandler(s, acc, active, manual, settings) == Call(s, Doorbell, acc, active, manual, settings);
    if Call(s, Doorbell, acc, active, manual, settings).outcome.Switched? {
      SwitchedCall(s, Doorbell, acc, active, manual, settings);
      var s1 := ClearCooldown(s, Doorbell, acc.uuid);
      ClearPreservesValid(s, Doorbell, acc.uuid);
      ClearCooldownTimers(s, Doorbell, acc.uuid);
      var s3 := DoorbellWrites(s1, acc, active, manual);
      DoorbellWritesEffects(s1, acc, active, manual, acc.uuid);
      ValidFrame(s1, s3);
      if active {
        ActivateDoorbellPreservesValid(s3, acc, manual, settings);
      }
    } else {
      UnswitchedOnlyPulses(s, Doorbell, acc, active, manual, settings);
      ValidFrame(s, DoorbellHandler(s, acc, active, manual, settings).state);
    }
  }

  lemma CallPreservesValid(s: HandlerState, kind: Kind, acc: Accessory, active: bool, manual: bool,
                           settings: Option<GeneralSettings>)
    requires Valid(s)
    ensures Valid(Call(s, kind, acc, active, manual, settings).state)
  {
    if kind == Motion {
      MotionPreservesValid(s, acc, active, manual, settings);
    } else {
      DoorbellPreservesValid(s, acc, active, manual, settings);
    }
  }

  lemma HandlePreservesValid(s: HandlerState, target: string, name: string, active: bool)
    requires Valid(s)
    ensures Valid(Handle(s, target, name, active))
  {
    var d := Dispatch(s, target, name, active);
    if s.initialized && Lookup.FindByName(s.accessories, name).Some? {
      var acc := Lookup.FindByName(s.accessories, name).value;
      if target == "motion" {
        MotionPreservesValid(s, acc, active, false, None);
      } else if target == "doorbell" {
        DoorbellPreservesValid(s, acc, active, false, None);
      }
    }
    ValidFrame(d.state, Handle(s, target, name, active));
  }

  lemma ExpirePreservesValid(s: HandlerState, id: TimerId)
    requires Valid(s) && id in s.pending
    ensures Valid(Expire(s, id))
  {
    if s.pending[id].kind == Motion {
      ExpireMotionPreservesValid(s, id);
    } else {
      ExpireDoorbellPreservesValid(s, id);
    }
  }

  lemma ExpireMotionPreservesValid(s: HandlerState, id: TimerId)
    requires Valid(s) && id in s.pending && s.pending[id].kind == Motion
    ensures Valid(Expire(s, id))
  {
    var r := Expire(s, id);
    assert Owned(s, id);
    forall j | j in r.pending ensures j < r.nextTimer && Owned(r, j) {
      assert Owned(s, j);
    }
  }

  lemma ExpireDoorbellPreservesValid(s: HandlerState, id: TimerId)
    requires Valid(s) && id in s.pending && s.pending[id].kind == Doorbell
    ensures Valid(Expire(s, id))
  {
    var r := Expire(s, id);
    assert Owned(s, id);
    forall j | j in r.pending ensures j < r.nextTimer && Owned(r, j) {
      assert Owned(s, j);
    }
  }

  /**
   A cooldown timer that fires ends the cooldown it belongs to: it was the
   timer its map held for its UUID, that entry (and only it) leaves the map,
   and the other map is untouched.
   */
  lemma ExpireEndsCooldown(s: HandlerState, id: TimerId)
    requires Valid(s) && id in s.pending
    ensures var t := s.pending[id];
            var r := Expire(s, id);
            && TimersOf(s, t.kind)[t.accessory.uuid] == id
            && r.pending == s.pending - {id}
            && TimersOf(r, t.kind) == TimersOf(s, t.kind) - {t.accessory.uuid}
            && (t.kind == Motion ==> r.doorbellTimers == s.doorbellTimers)
            && (t.kind == Doorbell ==> r.motionTimers == s.motionTimers)
  {
    assert Owned(s, id);
    if s.pending[id].kind == Motion {
      ExpireMotionTimers(s, id);
    } else {
      ExpireDoorbellTimers(s, id);
    }
  }

  lemma ExpireMotionTimers(s: HandlerState, id: TimerId)
    requires id in s.pending && s.pending[id].kind == Motion
    ensures var r := Expire(s, id);
            && r.pending == s.pending - {id}
            && r.motionTimers == s.motionTimers - {s.pending[id].accessory.uuid}
            && r.doorbellTimers == s.doorbellTimers
  {
  }

  lemma ExpireDoorbellTimers(s: HandlerState, id: TimerId)
    requires id in s.pending && s.pending[id].kind == Doorbell
    ensures var r := Expire(s, id);
            && r.pending == s.pending - {id}
            && r.doorbellTimers == s.doorbellTimers - {s.pending[id].accessory.uuid}
            && r.motionTimers == s.motionTimers
  {
  }

  /** What the expiry writes on the timer's accessory. */
  lemma ExpireResetsOutputs(s: HandlerState, id: TimerId)
    requires id in s.pending
    ensures var t := s.pending[id];
            var o := OutputsAt(s, t.accessory.uuid);
            OutputsAt(Expire(s, id), t.accessory.uuid) ==
              if t.kind == Motion then MotionWrite(o, t.accessory, false)
              else TriggerWrite(o, t.accessory, false)
  {
  }

  /**
   An expiry writes only the outputs of the timer's accessory: every other
   accessory, the queued pulses, the events, the log, the loading fields and
   the handle counter stay the same.
   */
  lemma ExpireFrame(s: HandlerState, id: TimerId, v: Uuid)
    requires id in s.pending
    ensures var r := Expire(s, id);
            && (v != s.pending[id].accessory.uuid ==> OutputsAt(r, v) == OutputsAt(s, v))
            && r == s.(pending := r.pending, motionTimers := r.motionTimers,
                       doorbellTimers := r.doorbellTimers, outputs := r.outputs)
  {
  }

  /**
   A 500 ms pulse turns only its own trigger switch off: the sensor, the
   presses, every other accessory and every other field but the queue stay
   the same.
   */
  lemma PulseTurnsTriggerOff(s: HandlerState, v: Uuid)
    requires |s.pulses| > 0
    ensures var p := s.pulses[0];
            var r := FirePulse(s);
            && OutputsAt(r, p.uuid) == (if p.kind == Motion then OutputsAt(s, p.uuid).(motionOn := false)
                                        else OutputsAt(s, p.uuid).(doorbellOn := false))
            && (v != p.uuid ==> OutputsAt(r, v) == OutputsAt(s, v))
            && r.pulses == s.pulses[1..]
            && r == s.(pulses := r.pulses, outputs := r.outputs)
  {
  }

  /**
   The cooldown map of a kind holds a UUID exactly when a pending timer of that
   kind exists for it, and then it holds that timer.
   */
  lemma CoolingIffTimerPending(s: HandlerState, kind: Kind, u: Uuid)
    requires Valid(s)
    ensures u in TimersOf(s, kind) <==>
              exists id :: id in s.pending && s.pending[id].kind == kind && s.pending[id].accessory.uuid == u
  {
    if u in TimersOf(s, kind) {
      var id := TimersOf(s, kind)[u];
      assert id in s.pending && s.pending[id].kind == kind && s.pending[id].accessory.uuid == u;
    }
    forall id | id in s.pending && s.pending[id].kind == kind && s.pending[id].accessory.uuid == u
      ensures u in TimersOf(s, kind)
    {
      assert Owned(s, id);
    }
  }

  /** There is at most one pending timer per kind and UUID: the one the map holds. */
  lemma OneTimerPerCooldown(s: HandlerState, kind: Kind, u: Uuid, id: TimerId)
    requires Valid(s)
    requires id in s.pending && s.pending[id].kind == kind && s.pending[id].accessory.uuid == u
    ensures u in TimersOf(s, kind) && TimersOf(s, kind)[u] == id
  {
    assert Owned(s, id);
  }

  /**
   An activation keeps every timer already pending: no other cooldown is cut
   short or extended.
   */
  lemma ActivationKeepsPendingTimers(s: HandlerState, kind: Kind, acc: Accessory, manual: bool,
                                     settings: Option<GeneralSettings>, j: TimerId)
    requires Valid(s) && j in s.pending
    ensures var r := Call(s, kind, acc, true, manual, settings).state;
            j in r.pending && r.pending[j] == s.pending[j]
  {
    if kind == Motion {
      MotionActivationKeepsPending(s, acc, manual, settings, j);
    } else {
      DoorbellActivationKeepsPending(s, acc, manual, settings, j);
    }
  }

  lemma MotionActivationKeepsPending(s: HandlerState, acc: Accessory, manual: bool,
                                     settings: Option<GeneralSettings>, j: TimerId)
    requires Valid(s) && j in s.pending
    ensures var r := MotionHandler(s, acc, true, manual, settings).state;
            j in r.pending && r.pending[j] == s.pending[j]
  {
    assert s.nextTimer !in s.pending;
    assert MotionHandler(s, acc, true, manual, settings) == Call(s, Motion, acc, true, manual, settings);
    if Call(s, Motion, acc, true, manual, settings).outcome.Switched? {
      SwitchedCall(s, Motion, acc, true, manual, settings);
      assert ClearCooldown(s, Motion, acc.uuid) == s;
      SwitchMotionOnTimers(s, acc, manual);
    } else {
      UnswitchedOnlyPulses(s, Motion, acc, true, manual, settings);
    }
  }

  lemma DoorbellActivationKeepsPending(s: HandlerState, acc: Accessory, manual: bool,
                                       settings: Option<GeneralSettings>, j: TimerId)
    requires Valid(s) && j in s.pending
    ensures var r := DoorbellHandler(s, acc, true, manual, settings).state;
            j in r.pending && r.pending[j] == s.pending[j]
  {
    assert DoorbellHandler(s, acc, true, manual, settings) == Call(s, Doorbell, acc, true, manual, settings);
    if Call(s, Doorbell, acc, true, manual, settings).outcome.Switched? {
      SwitchedCall(s, Doorbell, acc, true, manual, settings);
      assert ClearCooldown(s, Doorbell, acc.uuid) == s;
      var b := BridgeToMotion(DoorbellWrites(s, acc, true, manual), acc, manual, settings);
      BridgeKeepsPending(s, acc, manual, settings, j);
      PressDoorbellTimers(b, acc);
      assert DoorbellHandler(s, acc, true, manual, settings).state == PressDoorbell(b, acc);
    } else {
      UnswitchedOnlyPulses(s, Doorbell, acc, true, manual, settings);
    }
  }

  /** The trigger write and the hsv bridge of a doorbell activation keep the pending timers. */
  lemma BridgeKeepsPending(s: HandlerState, acc: Accessory, manual: bool,
                           settings: Option<GeneralSettings>, j: TimerId)
    requires Valid(s) && j in s.pending
    ensures var b := BridgeToMotion(DoorbellWrites(s, acc, true, manual), acc, manual, settings);
            j in b.pending && b.pending[j] == s.pending[j] && j < b.nextTimer
  {
    var s3 := DoorbellWrites(s, acc, true, manual);
    DoorbellWritesEffects(s, acc, true, manual, acc.uuid);
    if acc.config.hsv {
      ValidFrame(s, s3);
      MotionActivationKeepsPending(s3, acc, manual, settings, j);
      MotionActivationCounts(s3, acc, true, manual, settings);
    }
  }

  /**
   Left alone, a motion activation's cooldown runs out: when the timer it
   stored fires, the UUID leaves the map and `MotionDetected` and the trigger
   are reset.
   */
  lemma MotionActivationExpires(s: HandlerState, acc: Accessory, manual: bool,
                                settings: Option<GeneralSettings>)
    requires acc.hasMotionSensor && acc.uuid !in s.motionTimers
    requires !(manual && AtHomeSuppresses(settings, acc.displayName, true))
    ensures var r := MotionHandler(s, acc, true, manual, settings).state;
            && acc.uuid in r.motionTimers && r.motionTimers[acc.uuid] in r.pending
            && r.pending[r.motionTimers[acc.uuid]].delayMs == 1000 * TimeoutSeconds(acc.config)
            && var e := Expire(r, r.motionTimers[acc.uuid]);
            && e.motionTimers == s.motionTimers
            && !OutputsAt(e, acc.uuid).motionDetected
            && (acc.hasMotionTrigger ==> !OutputsAt(e, acc.uuid).motionOn)
  {
    MotionOnStartsCooldown(s, acc, manual, settings);
    var r := MotionHandler(s, acc, true, manual, settings).state;
    ExpireResetsOutputs(r, s.nextTimer);
  }

  // ---------------------------------------------------------------------------
  // Runs of calls

  /** Anything that can happen to the handler: a call, or a timer firing. */
  datatype Input =
    | Load(accessories: seq<Accessory>)
    | HandleCall(target: string, name: string, active: bool)
    | HandlerCall(kind: Kind, acc: Accessory, active: bool, manual: bool, settings: Option<GeneralSettings>)
    | TimerFires(id: TimerId)
    | PulseFires

  /** One input; a timer that was cleared, or a pulse that is not queued, does not fire. */
  function Apply(s: HandlerState, i: Input): HandlerState {
    match i
    case Load(accs) => FinishLoading(s, accs)
    case HandleCall(target, name, active) => Handle(s, target, name, active)
    case HandlerCall(kind, acc, active, manual, settings) => Call(s, kind, acc, active, manual, settings).state
    case TimerFires(id) => if id in s.pending then Expire(s, id) else s
    case PulseFires => if |s.pulses| > 0 then FirePulse(s) else s
  }

  function Run(s: HandlerState, inputs: seq<Input>): HandlerState
    decreases |inputs|
  {
    if inputs == [] then s else Run(Apply(s, inputs[0]), inputs[1..])
  }

  lemma ApplyPreservesValid(s: HandlerState, i: Input)
    requires Valid(s)
    ensures Valid(Apply(s, i))
  {
    match i
    case Load(accs) => ValidFrame(s, FinishLoading(s, accs));
    case HandleCall(target, name, active) => HandlePreservesValid(s, target, name, active);
    case HandlerCall(kind, acc, active, manual, settings) => CallPreservesValid(s, kind, acc, active, manual, settings);
    case TimerFires(id) => if id in s.pending { ExpirePreservesValid(s, id); }
    case PulseFires => if |s.pulses| > 0 { ValidFrame(s, FirePulse(s)); }
  }

  /**
   From the constructor's state, every run of calls and timer firings keeps the
   invariant: a UUID is cooling exactly while its one timer is pending.
   */
  lemma {:induction false} RunPreservesValid(s: HandlerState, inputs: seq<Input>)
    requires Valid(s)
    ensures Valid(Run(s, inputs))
    decreases |inputs|
  {
    if inputs != [] {
      ApplyPreservesValid(s, inputs[0]);
      RunPreservesValid(Apply(s, inputs[0]), inputs[1..]);
    }
  }

  lemma InitialValid()
    ensures Valid(Initial())
  {
  }

  /** A sequence of activations of one kind for one accessory, manual or not as `manuals` says. */
  function Activations(s: HandlerState, kind: Kind, acc: Accessory, manuals: seq<bool>,
                       settings: Option<GeneralSettings>): HandlerState
    decreases |manuals|
  {
    if manuals == [] then s
    else Activations(Call(s, kind, acc, true, manuals[0], settings).state, kind, acc, manuals[1..], settings)
  }

  /**
   Repeated activations while cooling never reset or extend the cooldown: the
   map, the pending timers and the outputs are as before; only trigger-off
   pulses for the manual ones may have been queued.
   */
  lemma {:induction false} CoolingAbsorbsActivations(s: HandlerState, kind: Kind, acc: Accessory,
                                                     manuals: seq<bool>, settings: Option<GeneralSettings>)
    requires HasSensor(acc, kind) && acc.uuid in TimersOf(s, kind)
    ensures var r := Activations(s, kind, acc, manuals, settings);
            && r.motionTimers == s.motionTimers && r.doorbellTimers == s.doorbellTimers
            && r.pending == s.pending && r.nextTimer == s.nextTimer
            && r.outputs == s.outputs && r.events == s.events
            && |r.pulses| <= |s.pulses| + |manuals|
    decreases |manuals|
  {
    if manuals != [] {
      CoolingSkipsActivation(s, kind, acc, manuals[0], settings);
      var s1 := Call(s, kind, acc, true, manuals[0], settings).state;
      CoolingAbsorbsActivations(s1, kind, acc, manuals[1..], settings);
    }
  }
}
