# Motion and doorbell handler of homebridge-camera-ui, in Dafny

This project models the `Handler` object of `src/services/handler.service.js`. It is the
debouncing engine between the camera plugin's event sources and its HomeKit accessories.
It receives "motion / doorbell became active or inactive" for a named camera and decides:

- whether the camera has the sensor at all ("not enabled" is an error);
- whether a cooldown is running, in which case an activation is skipped and a deactivation
  cancels the cooldown;
- whether a manual activation is dropped because someone is at home and the camera is not
  excluded.

When the call is accepted, the handler:

- writes `MotionDetected`, the trigger switches and the doorbell's `SINGLE_PRESS`;
- calls `triggerEvent` on a manual call of a camera without `hsv`;
- on activation, schedules the cooldown timer that later resets `MotionDetected` and the
  motion trigger (motion), or only the doorbell trigger (doorbell).

With `hsv` set, a doorbell activation also runs the motion handler (the bridge). `handle`
resolves the camera by display name, runs the handler of the target with `manual` unset, and
logs the result.

The model has six modules:

- `HandlerTypes` (`types.dfy`): accessories as the handler sees them (name, UUID, config, and
  which of the four services exist), outcomes, timers, pulses, events and log lines.
- `Lookup` (`lookup.dfy`): `accessories.find` by display name and `exclude.includes`.
- `HandlerSpec` (`transitions.dfy`): the handler's whole state as a value, one function per
  entry point and per step of a handler, and the invariant `Valid`. `Valid` says that every
  entry of a cooldown map names a pending timer of that kind for that UUID, that every pending
  timer is the one its map holds, and that handles are fresh.
- `HandlerProofs` (`proofs.dfy`): what each call does, branch by branch. It also covers
  independence of the motion and doorbell sides and of other accessories, the hsv bridge,
  event emission, and dispatching.
- `HandlerInvariant` (`invariant.dfy`): every call, timer expiry and pulse keeps `Valid`, and
  so does every run of them. A UUID is cooling exactly while its one timer is pending, and
  that timer's expiry ends the cooldown.
- `HandlerService` (`handler.dfy`): the class `Handler`, whose fields the methods update in
  place. Each method is proved to leave exactly the state the matching `HandlerSpec` function
  gives, and each entry point keeps `Valid`.

The runtime's side of the calls is held in fields, next to the object's own
`initialized`, `accessories`, `motionTimers` and `doorbellTimers`:

- `setTimeout` / `clearTimeout`: `pending` and `nextTimer`;
- the 500 ms trigger-off timers: `pulses`;
- the HAP characteristic writes: `outputs`;
- `triggerEvent`: `events`;
- the log of `handle`: `log`.

The general settings that a manual call reads from the database are a parameter.

Behaviour of the code that is easy to get wrong (the model follows the code):
- `triggerEvent` is called only on manual calls (lines 93-119 and 188-212), not for every
  accepted event.
- With `hsv` set, neither kind emits an event: the bridged motion call is suppressed by the
  same `hsv` check (line 116).
- `handle` logs its result and returns nothing (lines 58-63).
- There is no separate manual entry point in this file. Manual calls are direct calls of the
  handlers with `manual` set.
- The doorbell cooldown reuses `motionTimeout` (line 167).

## Model

| member | source | states |
|---|---|---|
| Lookup.FindByName | src/services/handler.service.js:34 | no accessory is found exactly when none has the name; a found one has the name and no earlier accessory has it |
| Lookup.Contains | src/services/handler.service.js:96 | true exactly when some element equals the name |
| HandlerSpec.TimeoutSeconds | src/services/handler.service.js:72 | the cooldown is `motionTimeout` when set and non-negative, otherwise 1 second; never negative |
| HandlerSpec.AtHomeSuppresses | src/services/handler.service.js:93-98 | a manual call is dropped exactly when it is an activation, `atHome` is true and the camera is not in `exclude`; never without settings or for a deactivation |
| HandlerSpec.FinishLoading | src/services/handler.service.js:22-25 | sets the accessories and the initialised flag; the cooldown maps, pending timers, handle counter, outputs, pulses, events and log stay the same |
| HandlerProofs.NotEnabledOnlyPulses | src/services/handler.service.js:150-159 | without its sensor a call reports "not enabled", and its only effect is a trigger-off pulse when the trigger exists |
| HandlerProofs.CoolingSkipsActivation | src/services/handler.service.js:75-86 | an activation while cooling is a non-error skip whose only effect is a trigger-off pulse, and only on a manual call with a trigger |
| HandlerProofs.AtHomeSkipsManualActivation | src/services/handler.service.js:93-112 | a suppressed manual activation is a non-error skip whose only effect is a trigger-off pulse |
| HandlerProofs.OutcomeTable | src/services/handler.service.js:66-160 | the outcome is the one the branches give in order, and it is an error exactly when the sensor is missing |
| HandlerProofs.AutomatedIgnoresSettings | src/services/handler.service.js:93-119 | a call with `manual` unset gives the same result whatever the settings are |
| HandlerProofs.ClearCooldownTimers | src/services/handler.service.js:87-90 | cancelling removes the UUID from its map and clears exactly the timer it held |
| HandlerProofs.ClearCooldownFrame | src/services/handler.service.js:87-90 | cancelling changes only the pending timers and the map of its own kind |
| HandlerProofs.StartCooldownTimers | src/services/handler.service.js:132-143 | starting a cooldown stores one new timer of `timeoutConfig * 1000` ms under a fresh handle for the UUID |
| HandlerProofs.StartCooldownFrame | src/services/handler.service.js:132-143 | starting a cooldown changes only the timers and the map of its own kind |
| HandlerProofs.MotionWritesEffects | src/services/handler.service.js:114-122 | the first writes of accepted motion: the event (manual, no hsv), `MotionDetected` and the trigger, on this accessory only |
| HandlerProofs.DoorbellWritesEffects | src/services/handler.service.js:209-216 | the first writes of an accepted doorbell call: the event (manual, no hsv) and the trigger, on this accessory only |
| HandlerProofs.RingEffects | src/services/handler.service.js:125-130 | a `SINGLE_PRESS` adds exactly one press to this accessory and changes nothing else |
| HandlerProofs.SwitchMotionOnOutputs | src/services/handler.service.js:121-130 | motion on: `MotionDetected` and the trigger on, and one press exactly for a `motionDoorbell` camera with a doorbell |
| HandlerProofs.SwitchMotionOffOutputs | src/services/handler.service.js:121-122 | motion off: `MotionDetected` and the trigger off, no press |
| HandlerProofs.SwitchMotionOnTimers | src/services/handler.service.js:132-143 | motion on stores exactly one new timer, of the configured delay, under the UUID |
| HandlerProofs.SwitchMotionOffTimers | src/services/handler.service.js:124-144 | motion off starts no timer |
| HandlerProofs.SwitchMotionOnRecord | src/services/handler.service.js:114-144 | motion on changes only events, outputs and the motion cooldown, and emits only on a manual call without hsv |
| HandlerProofs.SwitchMotionOffRecord | src/services/handler.service.js:114-122 | motion off changes only events and outputs, and emits only on a manual call without hsv |
| HandlerProofs.SwitchMotionOnOthers | src/services/handler.service.js:121-130 | motion on leaves every other accessory alone |
| HandlerProofs.SwitchMotionOffOthers | src/services/handler.service.js:121-122 | motion off leaves every other accessory alone |
| HandlerProofs.SwitchMotionFrame | src/services/handler.service.js:114-144 | accepted motion leaves the doorbell cooldown, the doorbell trigger, pulses, log and other accessories alone |
| HandlerProofs.SwitchDoorbellOff | src/services/handler.service.js:209-216 | doorbell off turns only the trigger off (and emits on a manual call without hsv) |
| HandlerProofs.PressDoorbellTimers | src/services/handler.service.js:228-238 | a doorbell activation ends with one new doorbell timer, of the motion timeout, under a fresh handle |
| HandlerProofs.PressDoorbellOutputs | src/services/handler.service.js:223-238 | a doorbell activation presses the doorbell once and changes nothing else but the doorbell cooldown |
| HandlerProofs.UnswitchedOnlyPulses | src/services/handler.service.js:75-112 | a call that is not switched changes nothing but the pulses, and queues at most one |
| HandlerProofs.SwitchedCall | src/services/handler.service.js:70-149 | a switched call passed all checks: the cooldown was cancelled and then the accepted path ran |
| HandlerProofs.MotionOffCancelsCooldown | src/services/handler.service.js:75-149 | motion off removes the cooldown entry, clears its timer so it never fires, starts none, and turns the sensor and trigger off |
| HandlerProofs.DoorbellOffCancelsCooldown | src/services/handler.service.js:170-244 | the same for the doorbell cooldown and trigger |
| HandlerProofs.MotionOnStartsCooldown | src/services/handler.service.js:114-149 | accepted motion on: sensor and trigger on, a press for `motionDoorbell`, exactly one new timer of `timeoutConfig * 1000` ms under the UUID |
| HandlerProofs.MotionActivationCounts | src/services/handler.service.js:124-144 | the motion handler issues a timer exactly when it switches motion on, and presses the doorbell exactly then on a `motionDoorbell` camera |
| HandlerProofs.DoorbellOnStartsCooldown | src/services/handler.service.js:216-238 | accepted doorbell on: exactly one new doorbell timer, of the motion timeout, under the next handle, or the one after it when the hsv bridge switched motion on and took a handle first |
| HandlerProofs.DoorbellOnRings | src/services/handler.service.js:216-226 | accepted doorbell on: the trigger is on and the doorbell is pressed once, plus once more exactly when the hsv bridge switched motion on for a `motionDoorbell` camera |
| HandlerProofs.WriteAndBridgeTimers | src/services/handler.service.js:216-221 | the trigger write and the hsv bridge leave the doorbell cooldowns alone and take a handle exactly when the bridge switches motion on |
| HandlerProofs.WriteAndBridgeOutputs | src/services/handler.service.js:216-221 | the trigger write and the hsv bridge turn the trigger on and press the doorbell exactly when the bridge switches motion on for a `motionDoorbell` camera |
| HandlerProofs.MotionKeepsDoorbellSide | src/services/handler.service.js:66-160 | the motion handler never touches the doorbell cooldown or any doorbell trigger |
| HandlerProofs.MotionOthersUntouched | src/services/handler.service.js:66-160 | the motion handler never touches another accessory |
| HandlerProofs.DoorbellOthersUntouched | src/services/handler.service.js:162-255 | the doorbell handler, bridge included, never touches another accessory |
| HandlerProofs.OtherAccessoriesUntouched | src/services/handler.service.js:66-255 | no call touches another accessory |
| HandlerProofs.DoorbellLeavesMotionAlone | src/services/handler.service.js:162-255 | without the hsv bridge the doorbell handler keeps the motion cooldown and motion outputs |
| HandlerProofs.MotionReadsOnlyMotionSide | src/services/handler.service.js:66-160 | two states agreeing on the motion side give the same motion outcome, cooldown and outputs |
| HandlerProofs.DoorbellBridgesToMotion | src/services/handler.service.js:218-221 | with hsv, an accepted doorbell activation acts on the motion side exactly as a motion activation would |
| HandlerProofs.TriggerEventOnlyWhenManual | src/services/handler.service.js:116-118 | `triggerEvent` happens once, for an accepted manual call without hsv, and never otherwise (the bridge included) |
| HandlerProofs.CallKeepsLoadAndLog | src/services/handler.service.js:66-255 | no handler call changes the log, the initialised flag or the accessories |
| HandlerProofs.HandleBeforeLoading | src/services/handler.service.js:28-60 | before loading, `handle` only logs the "not initialized" error |
| HandlerProofs.HandleUnknownCamera | src/services/handler.service.js:50-60 | for an unknown name, `handle` only logs the "not found" error |
| HandlerProofs.HandleUnknownTarget | src/services/handler.service.js:44-60 | for an unknown target, `handle` runs no handler and only logs an error |
| HandlerProofs.HandleRunsAutomatedHandler | src/services/handler.service.js:33-63 | for a known camera, `handle` runs the target's handler on the first accessory of that name with `manual` unset, logs its result, and emits nothing |
| HandlerInvariant.ValidFrame | src/services/handler.service.js:11-12 | the invariant depends only on the cooldown maps, the pending timers and the handle counter |
| HandlerInvariant.ClearPreservesValid | src/services/handler.service.js:87-90 | cancelling a cooldown keeps the invariant |
| HandlerInvariant.CancelMotionPreservesValid | src/services/handler.service.js:88-89 | `clearTimeout` then delete on the motion map keeps the invariant |
| HandlerInvariant.CancelDoorbellPreservesValid | src/services/handler.service.js:183-184 | `clearTimeout` then delete on the doorbell map keeps the invariant |
| HandlerInvariant.StartPreservesValid | src/services/handler.service.js:132-143 | starting a cooldown for a UUID that is not cooling keeps the invariant |
| HandlerInvariant.StartMotionPreservesValid | src/services/handler.service.js:132-143 | the same, for the motion map |
| HandlerInvariant.StartDoorbellPreservesValid | src/services/handler.service.js:228-238 | the same, for the doorbell map |
| HandlerInvariant.SwitchMotionPreservesValid | src/services/handler.service.js:114-144 | the accepted motion path keeps the invariant |
| HandlerInvariant.MotionPreservesValid | src/services/handler.service.js:66-160 | every motion handler call keeps the invariant |
| HandlerInvariant.ActivateDoorbellPreservesValid | src/services/handler.service.js:218-238 | the bridge, the press and the doorbell cooldown keep the invariant |
| HandlerInvariant.DoorbellPreservesValid | src/services/handler.service.js:162-255 | every doorbell handler call keeps the invariant |
| HandlerInvariant.CallPreservesValid | src/services/handler.service.js:66-255 | every handler call keeps the invariant |
| HandlerInvariant.HandlePreservesValid | src/services/handler.service.js:27-64 | every `handle` call keeps the invariant |
| HandlerInvariant.ExpirePreservesValid | src/services/handler.service.js:132-141 | a pending cooldown timer firing keeps the invariant |
| HandlerInvariant.ExpireMotionPreservesValid | src/services/handler.service.js:132-141 | the same, for a motion timer |
| HandlerInvariant.ExpireDoorbellPreservesValid | src/services/handler.service.js:228-236 | the same, for a doorbell timer |
| HandlerInvariant.ExpireEndsCooldown | src/services/handler.service.js:132-143 | a firing timer is the one its map holds; exactly that entry leaves the map, and the other map is untouched |
| HandlerInvariant.ExpireMotionTimers | src/services/handler.service.js:135 | a motion expiry removes its UUID from the motion map and its timer from the pending ones |
| HandlerInvariant.ExpireDoorbellTimers | src/services/handler.service.js:231 | a doorbell expiry removes its UUID from the doorbell map and its timer from the pending ones |
| HandlerInvariant.ExpireResetsOutputs | src/services/handler.service.js:136-139 | a motion expiry turns `MotionDetected` and the trigger off; a doorbell expiry turns only the trigger off |
| HandlerInvariant.ExpireFrame | src/services/handler.service.js:132-141 | an expiry (here, and the doorbell one at lines 228-236) changes only the timers, the cooldown maps and the outputs of its own accessory; other accessories, pulses, events, log, loading fields and the handle counter stay the same |
| HandlerInvariant.PulseTurnsTriggerOff | src/services/handler.service.js:80 | a 500 ms pulse turns exactly its trigger switch off and pops the queue; the sensor, the presses, other accessories, the cooldowns, events and log stay the same |
| HandlerInvariant.CoolingIffTimerPending | src/services/handler.service.js:73-75 | a UUID is in a cooldown map exactly when a pending timer of that kind exists for it |
| HandlerInvariant.OneTimerPerCooldown | src/services/handler.service.js:143 | any pending timer of a kind for a UUID is the one the map holds, so there is at most one |
| HandlerInvariant.ActivationKeepsPendingTimers | src/services/handler.service.js:132-143 | an activation never cancels or changes a timer already pending |
| HandlerInvariant.MotionActivationKeepsPending | src/services/handler.service.js:124-144 | the same, for a motion activation |
| HandlerInvariant.DoorbellActivationKeepsPending | src/services/handler.service.js:218-238 | the same, for a doorbell activation |
| HandlerInvariant.BridgeKeepsPending | src/services/handler.service.js:218-221 | the trigger write and the hsv bridge keep every pending timer, and issue only later handles |
| HandlerInvariant.MotionActivationExpires | src/services/handler.service.js:132-143 | left alone, an activation's timer has the configured delay, and its firing ends the cooldown and resets the sensor and trigger |
| HandlerInvariant.ApplyPreservesValid | src/services/handler.service.js:22-255 | any single call or timer firing keeps the invariant |
| HandlerInvariant.RunPreservesValid | src/services/handler.service.js:22-255 | every run of calls and firings keeps the invariant |
| HandlerInvariant.InitialValid | src/services/handler.service.js:11-12 | the constructor's empty maps satisfy the invariant |
| HandlerInvariant.CoolingAbsorbsActivations | src/services/handler.service.js:75-86 | repeated activations while cooling never reset or extend the cooldown, and change no outputs or events |
| HandlerService.Handler.constructor | src/services/handler.service.js:6-20 | not initialised, no cooldowns, nothing scheduled; the invariant holds |
| HandlerService.Handler.FinishLoading | src/services/handler.service.js:22-25 | the new state is the loaded one; the invariant is kept |
| HandlerService.Handler.Handle | src/services/handler.service.js:27-64 | the new state is the handled and logged one; the invariant is kept |
| HandlerService.Handler.Dispatch | src/services/handler.service.js:33-56 | result and state are those of the routing |
| HandlerService.Handler.MotionHandler | src/services/handler.service.js:66-160 | result and state are those of the motion handler; the invariant is kept |
| HandlerService.Handler.MotionPastCooldown | src/services/handler.service.js:93-149 | result and state are those of the at-home check and the switch |
| HandlerService.Handler.SwitchMotion | src/services/handler.service.js:114-149 | the state is that of the accepted motion path |
| HandlerService.Handler.DoorbellHandler | src/services/handler.service.js:162-255 | result and state are those of the doorbell handler; the invariant is kept |
| HandlerService.Handler.DoorbellPastCooldown | src/services/handler.service.js:188-244 | result and state are those of the at-home check and the switch |
| HandlerService.Handler.SwitchDoorbell | src/services/handler.service.js:209-239 | the state is that of the accepted doorbell path |
| HandlerService.Handler.ActivateDoorbell | src/services/handler.service.js:218-238 | the state is that of the bridge, the press and the cooldown start |
| HandlerService.Handler.FireTimer | src/services/handler.service.js:132-141 | the state is the expired one; the invariant is kept |
| HandlerService.Handler.Expire | src/services/handler.service.js:132-141 | the new state is `HandlerSpec.Expire` of the old one: the motion callback here, and the doorbell callback at lines 228-236 |
| HandlerService.Handler.FirePulse | src/services/handler.service.js:80 | the state is the one after the oldest pulse fires; the invariant is kept |
| HandlerService.Handler.MotionWrites | src/services/handler.service.js:116-122 | the state is that after the event and the motion writes |
| HandlerService.Handler.DoorbellWrites | src/services/handler.service.js:209-216 | the state is that after the event and the trigger write |
| HandlerService.Handler.StartCooldown | src/services/handler.service.js:132-143 | the state is that after `setTimeout` and the map update |
| HandlerService.Handler.ClearCooldown | src/services/handler.service.js:88-89 | the state is that after `clearTimeout` and delete, when the UUID is cooling |
| HandlerService.Handler.QueueTriggerOff | src/services/handler.service.js:79-81 | the state is that after queuing the trigger-off pulse, when asked |
| HandlerService.Handler.Emit | src/services/handler.service.js:116-118 | the state is that after `triggerEvent`, when asked |
| HandlerService.Handler.Ring | src/services/handler.service.js:125-130 | the state is that after `SINGLE_PRESS`, when asked |

## Left out

- Wall-clock time. Timers record their delay in milliseconds. Their firing is an input
  (`FireTimer`, `TimerFires`) that may come at any point, not at a computed time. "Exactly T
  seconds later" is therefore stated as "the timer stored has delay `T * 1000`".
- Interleaving at the `await` of the settings read (lines 94 and 189). Each call runs to
  completion in the model. In the source, the rest of a manual call runs after the read, and
  other calls may come in between.
- The hsv bridge with `manual` set. Line 220 does not await the motion call, so in the source
  the bridged call's part after its settings read runs after the doorbell's press and timer.
  The model runs the bridged call first. The same writes happen, but timer handles are issued
  in the other order.
- The result of the bridged motion call is dropped, as in the source. A rejected promise from
  it is not modelled.
- `motionTimeout` values other than an integer or unset. Fractions, `null` (which JavaScript
  compares as `>= 0`, giving 0 s), strings and `NaN` are left out.
- Truthy values of `atHome` other than `true`, and an `exclude` that is not a list of names.
- Log text and the info/debug lines inside the handlers. Only the line `handle` writes is
  modelled: its level and outcome, not its message.
- The event-bus subscription of the constructor (lines 15-17). `handle` is called directly
  instead.
- HAP itself. `getService` / `getServiceById` become four booleans on the accessory.
  `updateCharacteristic` becomes the value written, and `SINGLE_PRESS` becomes a press count.
- The 500 ms trigger-off timers fire in the order they were queued. They all have the same
  delay, and they are not interleaved with cooldown expiries by time.
- `ui/src/mixins/updatesw.mixin.js` is not part of this model: it is front-end code unrelated
  to the handler.
- HandleUnknownTarget: the logged error is some error, because which one depends on the
  loading and the lookup that come before the target check.
