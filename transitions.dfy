/**
 The handler's state as a value, and one function per entry point that gives
 the state (and the result) after a call. The class `Handler` in
 HandlerService is proved to make exactly these changes; the properties of
 each call are stated here, in the functions' contracts, in HandlerProofs and in HandlerInvariant.
 */
module HandlerSpec {
  import opened HandlerTypes
  import Lookup

  /**
   Everything a call can read or change:
   - `initialized`, `accessories`: what `finishLoading` sets;
   - `motionTimers`, `doorbellTimers`: the two cooldown maps, UUID to timer;
   - `pending`: the cooldown timers scheduled and neither cleared nor fired,
     with `nextTimer` the handle the next `setTimeout` returns;
   - `outputs`: the characteristic values of each accessory, by UUID;
   - `pulses`: the 500 ms trigger-off timers not yet fired, oldest first;
   - `events`: the `triggerEvent` calls made so far;
   - `log`: the lines `handle` wrote.
   */
  datatype HandlerState = HandlerState(
    initialized: bool,
    accessories: seq<Accessory>,
    motionTimers: map<Uuid, TimerId>,
    doorbellTimers: map<Uuid, TimerId>,
    pending: map<TimerId, Timer>,
    nextTimer: TimerId,
    outputs: map<Uuid, Outputs>,
    pulses: seq<Pulse>,
    events: seq<Event>,
    log: seq<LogLine>)

  /** The result of a handler call: the new state and the `{ error, message }` it returns. */
  datatype Step = Step(state: HandlerState, outcome: Outcome)

  /** The state the constructor leaves: not initialised, nothing scheduled or written. */
  function Initial(): HandlerState {
    HandlerState(false, [], map[], map[], map[], 0, map[], [], [], [])
  }

  function TimersOf(s: HandlerState, kind: Kind): map<Uuid, TimerId> {
    if kind == Motion then s.motionTimers else s.doorbellTimers
  }

  function OutputsAt(s: HandlerState, u: Uuid): Outputs {
    if u in s.outputs then s.outputs[u] else Untouched
  }

  /** The pulses a call queues: one trigger-off for `kind`, or none. */
  function PulseIf(kind: Kind, u: Uuid, b: bool): seq<Pulse> {
    if b then [TriggerOff(kind, u)] else []
  }

  /** The `triggerEvent` calls a handler makes: one, or none. */
  function EventIf(kind: Kind, acc: Accessory, active: bool, b: bool): seq<Event> {
    if b then [Event(kind, acc.displayName, active)] else []
  }

  // ---------------------------------------------------------------------------
  // Invariant

  /** Every entry of a cooldown map names a pending timer of that kind for that UUID. */
  predicate Registered(timers: map<Uuid, TimerId>, pending: map<TimerId, Timer>, kind: Kind) {
    forall u :: u in timers ==>
      timers[u] in pending && pending[timers[u]].kind == kind && pending[timers[u]].accessory.uuid == u
  }

  /** A pending timer is the one its kind's map holds for its UUID. */
  predicate Owned(s: HandlerState, id: TimerId)
    requires id in s.pending
  {
    var t := s.pending[id];
    t.accessory.uuid in TimersOf(s, t.kind) && TimersOf(s, t.kind)[t.accessory.uuid] == id
  }

  /**
   The handler's invariant: a UUID is in a cooldown map exactly when a pending,
   uncleared timer of that kind exists for it, there is at most one such timer,
   and every handle still pending was issued before `nextTimer`.
   */
  predicate Valid(s: HandlerState) {
    && Registered(s.motionTimers, s.pending, Motion)
    && Registered(s.doorbellTimers, s.pending, Doorbell)
    && forall id :: id in s.pending ==> id < s.nextTimer && Owned(s, id)
  }

  // ---------------------------------------------------------------------------
  // Building blocks of the handlers

  /**
   `motionTimeout >= 0 ? motionTimeout : 1`: the cooldown in seconds, shared by
   both handlers.
   */
  function TimeoutSeconds(c: Config): (sec: int)
    ensures sec >= 0
    ensures c.motionTimeout.Some? && c.motionTimeout.value >= 0 ==> sec == c.motionTimeout.value
    ensures c.motionTimeout.None? || c.motionTimeout.value < 0 ==> sec == 1
  {
    match c.motionTimeout
    case Some(t) => if t >= 0 then t else 1
    case None => 1
  }

  /**
   The at-home check of a manual call: the activation is dropped when someone is
   at home and the camera is not on the exclusion list.
   */
  function AtHomeSuppresses(settings: Option<GeneralSettings>, name: string, active: bool): (r: bool)
    ensures !active ==> !r
    ensures settings.None? ==> !r
    ensures r <==> active && settings.Some? && settings.value.atHome == Some(true) &&
                   (settings.value.exclude.None? || name !in settings.value.exclude.value)
  {
    var atHome := settings.Some? && settings.value.atHome == Some(true);
    var exclude := if settings.Some? && settings.value.exclude.Some? then settings.value.exclude.value else [];
    active && atHome && !Lookup.Contains(exclude, name)
  }

  function QueueTriggerOff(s: HandlerState, kind: Kind, u: Uuid, b: bool): HandlerState {
    s.(pulses := s.pulses + PulseIf(kind, u, b))
  }


  /** `clearTimeout(timers.get(uuid)); timers.delete(uuid)`. */
  function CancelCooldown(s: HandlerState, kind: Kind, u: Uuid): HandlerState
    requires u in TimersOf(s, kind)
  {
    var id := TimersOf(s, kind)[u];
    if kind == Motion then s.(pending := s.pending - {id}, motionTimers := s.motionTimers - {u})
    else s.(pending := s.pending - {id}, doorbellTimers := s.doorbellTimers - {u})
  }

  /** The cooldown check of a call that is not a skipped activation: a running cooldown is cancelled. */
  function ClearCooldown(s: HandlerState, kind: Kind, u: Uuid): HandlerState {
    if u in TimersOf(s, kind) then CancelCooldown(s, kind, u) else s
  }

  /** `timers.set(uuid, setTimeout(expiry, timeoutConfig * 1000))`. */
  function StartCooldown(s: HandlerState, kind: Kind, acc: Accessory): HandlerState {
    var id := s.nextTimer;
    var s1 := s.(pending := s.pending[id := Timer(kind, acc, 1000 * TimeoutSeconds(acc.config))],
                 nextTimer := id + 1);
    if kind == Motion then s1.(motionTimers := s.motionTimers[acc.uuid := id])
    else s1.(doorbellTimers := s.doorbellTimers[acc.uuid := id])
  }

  function SetOutputs(s: HandlerState, u: Uuid, o: Outputs): HandlerState {
    s.(outputs := s.outputs[u := o])
  }

  /** `triggerEvent(kind, displayName, active)` when `b` holds. */
  function Emit(s: HandlerState, kind: Kind, acc: Accessory, active: bool, b: bool): HandlerState {
    s.(events := s.events + EventIf(kind, acc, active, b))
  }

  /** What the accepted motion path writes first: `MotionDetected`, and the trigger switch when there is one. */
  function MotionWrite(o: Outputs, acc: Accessory, active: bool): Outputs {
    o.(motionDetected := active, motionOn := if acc.hasMotionTrigger then active else o.motionOn)
  }

  /** What the accepted doorbell path writes first: the trigger switch, when there is one. */
  function TriggerWrite(o: Outputs, acc: Accessory, active: bool): Outputs {
    o.(doorbellOn := if acc.hasDoorbellTrigger then active else o.doorbellOn)
  }

  /** The first writes of the accepted motion path: `triggerEvent` (manual, no hsv), then `MotionWrite`. */
  function MotionWrites(s: HandlerState, acc: Accessory, active: bool, manual: bool): HandlerState {
    var s2 := Emit(s, Motion, acc, active, manual && !acc.config.hsv);
    SetOutputs(s2, acc.uuid, MotionWrite(OutputsAt(s2, acc.uuid), acc, active))
  }

  /** The first writes of the accepted doorbell path: `triggerEvent` (manual, no hsv), then `TriggerWrite`. */
  function DoorbellWrites(s: HandlerState, acc: Accessory, active: bool, manual: bool): HandlerState {
    var s2 := Emit(s, Doorbell, acc, active, manual && !acc.config.hsv);
    SetOutputs(s2, acc.uuid, TriggerWrite(OutputsAt(s2, acc.uuid), acc, active))
  }

  /** A `SINGLE_PRESS` on the doorbell's `ProgrammableSwitchEvent`, when `b` holds. */
  function Ring(s: HandlerState, u: Uuid, b: bool): HandlerState {
    if b then SetOutputs(s, u, OutputsAt(s, u).(rings := OutputsAt(s, u).rings + 1)) else s
  }

  // ---------------------------------------------------------------------------
  // Entry points

  /** `finishLoading(accessories)`. */
  function FinishLoading(s: HandlerState, accessories: seq<Accessory>): (r: HandlerState)
    ensures r.initialized && r.accessories == accessories
    ensures r.motionTimers == s.motionTimers && r.doorbellTimers == s.doorbellTimers
    ensures r.pending == s.pending && r.outputs == s.outputs && r.pulses == s.pulses
    ensures r.nextTimer == s.nextTimer && r.events == s.events && r.log == s.log
  {
    s.(initialized := true, accessories := accessories)
  }

  /**
   `motionHandler(accessory, active, manual)`, with `settings` the general settings
   a manual call reads from the database: the capability check, then the
   cooldown check. Its properties are the lemmas of HandlerProofs.
   */
  function MotionHandler(s: HandlerState, acc: Accessory, active: bool, manual: bool,
                         settings: Option<GeneralSettings>): Step
  {
    var u := acc.uuid;
    if !acc.hasMotionSensor then
      Step(QueueTriggerOff(s, Motion, u, acc.hasMotionTrigger), Failed(NotEnabled(Motion)))
    else if u in s.motionTimers && active then
      Step(QueueTriggerOff(s, Motion, u, acc.hasMotionTrigger && manual), Skipped(TimeoutActive(Motion)))
    else
      MotionPastCooldown(ClearCooldown(s, Motion, u), acc, active, manual, settings)
  }

  /** The rest of `motionHandler` once no cooldown blocks the call: the at-home check, then the switch. */
  function MotionPastCooldown(s: HandlerState, acc: Accessory, active: bool, manual: bool,
                              settings: Option<GeneralSettings>): Step
  {
    if manual && AtHomeSuppresses(settings, acc.displayName, active) then
      Step(QueueTriggerOff(s, Motion, acc.uuid, acc.hasMotionTrigger), Skipped(AtHome(Motion)))
    else
      Step(SwitchMotion(s, acc, active, manual), Switched(Motion, active))
  }

  /**
   The accepted path of `motionHandler`, from the `triggerEvent` on: emit, write
   the characteristics, and on activation press the doorbell (`motionDoorbell`)
   and start the cooldown.
   */
  function SwitchMotion(s: HandlerState, acc: Accessory, active: bool, manual: bool): HandlerState {
    var s3 := MotionWrites(s, acc, active, manual);
    if active then
      StartCooldown(Ring(s3, acc.uuid, acc.config.motionDoorbell && acc.hasDoorbellSensor), Motion, acc)
    else s3
  }

  /** `doorbellHandler(accessory, active, manual)`: the capability check, then the cooldown check. */
  function DoorbellHandler(s: HandlerState, acc: Accessory, active: bool, manual: bool,
                           settings: Option<GeneralSettings>): Step
  {
    var u := acc.uuid;
    if !acc.hasDoorbellSensor then
      Step(QueueTriggerOff(s, Doorbell, u, acc.hasDoorbellTrigger), Failed(NotEnabled(Doorbell)))
    else if u in s.doorbellTimers && active then
      Step(QueueTriggerOff(s, Doorbell, u, acc.hasDoorbellTrigger && manual), Skipped(TimeoutActive(Doorbell)))
    else
      DoorbellPastCooldown(ClearCooldown(s, Doorbell, u), acc, active, manual, settings)
  }

  /** The rest of `doorbellHandler` once no cooldown blocks the call: the at-home check, then the switch. */
  function DoorbellPastCooldown(s: HandlerState, acc: Accessory, active: bool, manual: bool,
                                settings: Option<GeneralSettings>): Step
  {
    if manual && AtHomeSuppresses(settings, acc.displayName, active) then
      Step(QueueTriggerOff(s, Doorbell, acc.uuid, acc.hasDoorbellTrigger), Skipped(AtHome(Doorbell)))
    else
      Step(SwitchDoorbell(s, acc, active, manual, settings), Switched(Doorbell, active))
  }

  /** The accepted path of `doorbellHandler`: emit, write the trigger, and on activation go on. */
  function SwitchDoorbell(s: HandlerState, acc: Accessory, active: bool, manual: bool,
                          settings: Option<GeneralSettings>): HandlerState
  {
    var s3 := DoorbellWrites(s, acc, active, manual);
    if active then ActivateDoorbell(s3, acc, manual, settings) else s3
  }

  /**
   An accepted doorbell activation after the trigger write: the hsv bridge, then
   the press and the cooldown.
   */
  function ActivateDoorbell(s: HandlerState, acc: Accessory, manual: bool,
                            settings: Option<GeneralSettings>): HandlerState
  {
    PressDoorbell(BridgeToMotion(s, acc, manual, settings), acc)
  }

  /** With `hsv` set, the motion handler runs with the same arguments and its result is dropped. */
  function BridgeToMotion(s: HandlerState, acc: Accessory, manual: bool,
                          settings: Option<GeneralSettings>): HandlerState
  {
    if acc.config.hsv then MotionHandler(s, acc, true, manual, settings).state else s
  }

  /** `SINGLE_PRESS` on the doorbell, then the doorbell cooldown. */
  function PressDoorbell(s: HandlerState, acc: Accessory): HandlerState {
    StartCooldown(Ring(s, acc.uuid, true), Doorbell, acc)
  }

  /**
   The routing part of `handle(target, name, active)`: the result it computes
   before logging. Handlers reached this way run with `manual` unset, so the
   settings are never read.
   */
  function Dispatch(s: HandlerState, target: string, name: string, active: bool): Step {
    if !s.initialized then Step(s, Failed(NotInitialized))
    else
      match Lookup.FindByName(s.accessories, name)
      case None => Step(s, Failed(CameraNotFound(name)))
      case Some(acc) =>
        if target == "motion" then MotionHandler(s, acc, active, false, None)
        else if target == "doorbell" then DoorbellHandler(s, acc, active, false, None)
        else Step(s, Failed(UnknownTarget(target)))
  }

  /** `handle(target, name, active)`: dispatch, then log the result; nothing is returned. */
  function Handle(s: HandlerState, target: string, name: string, active: bool): HandlerState {
    var d := Dispatch(s, target, name, active);
    d.state.(log := d.state.log + [LogLine(d.outcome.IsError(), d.outcome, name)])
  }

  /**
   The callback of cooldown timer `id`: delete the UUID from its own map and
   reset its outputs (motion: `MotionDetected` and the motion trigger; doorbell:
   only the doorbell trigger).
   */
  function Expire(s: HandlerState, id: TimerId): HandlerState
    requires id in s.pending
  {
    var t := s.pending[id];
    var u := t.accessory.uuid;
    var o := OutputsAt(s, u);
    var s1 := s.(pending := s.pending - {id});
    if t.kind == Motion then
      SetOutputs(s1.(motionTimers := s.motionTimers - {u}), u,
                 o.(motionDetected := false, motionOn := if t.accessory.hasMotionTrigger then false else o.motionOn))
    else
      SetOutputs(s1.(doorbellTimers := s.doorbellTimers - {u}), u,
                 o.(doorbellOn := if t.accessory.hasDoorbellTrigger then false else o.doorbellOn))
  }

  /** The oldest 500 ms pulse fires: its trigger switch goes off. */
  function FirePulse(s: HandlerState): HandlerState
    requires |s.pulses| > 0
  {
    var p := s.pulses[0];
    var o := OutputsAt(s, p.uuid);
    SetOutputs(s.(pulses := s.pulses[1..]), p.uuid,
               if p.kind == Motion then o.(motionOn := false) else o.(doorbellOn := false))
  }
}
