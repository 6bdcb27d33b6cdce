/**
 The values the motion/doorbell handler works with: accessories (as far as the
 handler looks at them), their per-camera configuration, the timers it schedules,
 the events it emits and the outcomes it reports.
 */
module HandlerTypes {

  datatype Option<+T> = None | Some(value: T)

  /** The accessory's `UUID`: the key of both cooldown maps. */
  type Uuid = string

  /** The handle a `setTimeout` call returns. */
  type TimerId = nat

  /** The two debounced sensor kinds. */
  datatype Kind = Motion | Doorbell

  /**
   `accessory.context.config`. `motionTimeout` is in seconds; `None` stands for
   an unset value (which the handler replaces by one second).
   */
  datatype Config = Config(motionTimeout: Option<int>, motionDoorbell: bool, hsv: bool)

  /**
   An accessory as the handler sees it: its name, its identity, its configuration,
   and which of the four services it exposes (`MotionSensor`, the `MotionTrigger`
   switch, `Doorbell`, the `DoorbellTrigger` switch).
   */
  datatype Accessory = Accessory(
    displayName: string,
    uuid: Uuid,
    config: Config,
    hasMotionSensor: bool,
    hasMotionTrigger: bool,
    hasDoorbellSensor: bool,
    hasDoorbellTrigger: bool)

  /** The characteristic of the sensor service of `kind`, present or not. */
  function HasSensor(acc: Accessory, kind: Kind): bool {
    if kind == Motion then acc.hasMotionSensor else acc.hasDoorbellSensor
  }

  /** The trigger switch of `kind`, present or not. */
  function HasTrigger(acc: Accessory, kind: Kind): bool {
    if kind == Motion then acc.hasMotionTrigger else acc.hasDoorbellTrigger
  }

  /**
   The characteristic values the handler writes on one accessory:
   `MotionDetected`, the `On` of the motion trigger switch, the `On` of the
   doorbell trigger switch, and how many `SINGLE_PRESS` events were sent on
   the doorbell's `ProgrammableSwitchEvent`.
   */
  datatype Outputs = Outputs(motionDetected: bool, motionOn: bool, doorbellOn: bool, rings: nat)

  /** What an accessory shows before the handler has written anything. */
  const Untouched := Outputs(false, false, false, 0)

  /**
   A cooldown timer: its kind, the accessory its callback closes over, and the
   delay it was scheduled with, in milliseconds.
   */
  datatype Timer = Timer(kind: Kind, accessory: Accessory, delayMs: int)

  /** A 500 ms timer that turns the trigger switch of `kind` off again. */
  datatype Pulse = TriggerOff(kind: Kind, uuid: Uuid)

  /** A `cameraUi.eventController.triggerEvent(kind, name, active)` call. */
  datatype Event = Event(kind: Kind, name: string, active: bool)

  /** The general settings as stored; a missing field counts as `false` / `[]`. */
  datatype GeneralSettings = GeneralSettings(atHome: Option<bool>, exclude: Option<seq<string>>)

  datatype Error =
    | NotInitialized
    | CameraNotFound(name: string)
    | UnknownTarget(target: string)
    | NotEnabled(kind: Kind)

  datatype SkipReason = TimeoutActive(kind: Kind) | AtHome(kind: Kind)

  /**
   The `{ error, message }` result of a handler: an error, a non-error skip, or
   the sensor of `kind` switched on or off.
   */
  datatype Outcome =
    | Failed(error: Error)
    | Skipped(reason: SkipReason)
    | Switched(kind: Kind, on: bool)
  {
    predicate IsError() { Failed? }
  }

  /** One line `handle` writes: at error level when `isError`, else at debug level. */
  datatype LogLine = LogLine(isError: bool, outcome: Outcome, name: string)
}
