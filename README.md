# Debounce engine of the alarm bridge, in Dafny

This project models the GPIO debounce component of the alarm application
(`mine/alarm/main/debounce.c` and its header `iot_debounce.h`). Each monitored
contact is a *channel*: a heap record with a pin number, an active level, a
state (`IDLE`, `PUSH`, `INIT`), a one-shot FreeRTOS settle timer and two
callback slots, push and release. An edge interrupt only stops and resets the
settle timer. When the pin has been quiet for 50 ms (5 ticks at the default
100 Hz tick rate), the timer service samples the pin. It moves the channel to
`PUSH` if the level is the active one and to `IDLE` otherwise. On a change of
state it invokes the callback of the state it entered, if that slot holds a
function.

Files and modules:

- `options.dfy` (`Options`): the `Option` type, used for the C null pointer.
- `iot_debounce.dfy` (`IotDebounce`): the header's enumerations
  `debounce_active_t` (ACTIVE_LOW = 0, ACTIVE_HIGH = 1) and `debounce_cb_type_t`
  (PUSH = 0, RELEASE = 1), the decoding of a raw callback type, and the
  `esp_err_t` codes the API returns.
- `settle_timer.dfy` (`SettleTimer`): the settle timer as a countdown
  (`Dormant` or `Armed(deadline)`) over integer ticks. It also gives the pure
  timing model `Expiries`: the ticks at which the settle callback runs for a
  given list of edge ticks.
- `debounce.dfy` (`Debounce`): the channel as the class `Channel`. Its methods
  are the interrupt handler (`Isr`), the GPIO driver's dispatch of an edge
  to it while it is installed (`Edge`), the timer callback (`Settle`) and
  `debounce_free_tmr` (`FreeTmr`). Beside it is the C API as methods on a
  nullable handle `Channel?`: `Create`, `Init`, `SetEvtCb`, `AddOnPressCb`,
  `AddOnReleaseCb`, `RmCb`, `Delete`. `SettleStep` is the settle state machine
  as a function. `Channel.Settle` is proved to follow it.
- `debounce_trace.dfy` (`DebounceTrace`): whole runs. A run is a sequence of
  settles, registrations and removals, each run to completion. `Replay` folds
  one over a channel's state and slots. The lemmas cover alternation, silence
  when the level agrees with the state, never returning to `INIT`, last
  registration wins, and silence after removal.
- `debounce_driver.dfy` (`DebounceDriver`): the channel's environment as a
  loop. `RunEdges` delivers a list of edges through `Edge`, lets the timer
  service run `Settle` whenever the countdown is due, and is proved to settle
  exactly at the ticks `Expiries` gives, with the state and invocations of
  `Replay` over those settles.
- `debounce_scenario.dfy` (`DebounceScenario`): client runs of the API, proved
  to produce exactly the listed callback invocations, and to produce none
  before `Init` or after `Delete`.

Modelling choices:

- A callback invocation `cb(arg)` is returned to the caller as an `Event` value
  (slot kind, function identity, argument) instead of being called.
- Function pointers and `void *` contexts are opaque numbers. A null pointer
  is `None`.
- The sampled GPIO level (`gpio_get_level`) and the current tick are
  parameters.
- The handle returned by `xTimerCreate` is a parameter of `Create`, so the
  unchecked timer-creation failure is a `None` timer.
- The GPIO driver's record of the channel's edge handler is the field
  `isrHooked`.
- `io_num` and `active_level` are `uint8_t` fields. `Create` stores
  `gpio_num % 256`. Its guard is `gpio_num < GPIO_NUM_MAX` exactly as written.
  The model takes `gpio_num_t` to be a signed enumeration, as in ESP-IDF 4.x,
  whose `gpio_num_t` includes `GPIO_NUM_NC = -1`. So a negative pin number
  passes the guard. Were the enumeration unsigned, a negative value would wrap
  to a large one and the guard would reject it; that variant is not modelled.
- Platform constants: `GPIO_NUM_MAX` = 40 (ESP32) and `configTICK_RATE_HZ` = 100.
  So `portTICK_PERIOD_MS` = 10 and the settle interval is `50 / 10` = 5 ticks.
- The settle callback can run only on the tick its countdown reaches, or later
  (`Settle` requires `countdown.DueBy(now)`). An edge on that same tick is
  taken to come after the expiry.

Where the documentation and the code differ, the model follows the code:

- The header says `iot_debounce_init` triggers a press or release event
  immediately (iot_debounce.h:62). The code only installs the edge handler and
  runs it once, which arms the settle timer. The first evaluation, and the
  start-up event, happen when that timer expires (`Init`, `FirstSettleFromInit`).
- `Init` does nothing once the state has left `INIT`. However, the state stays
  `INIT` until the first expiry, so a second `Init` before then installs the
  handler again and retriggers the timer.
- The header lists `ESP_FAIL` for parameter errors. The code returns
  `ESP_ERR_INVALID_ARG` for a null handle, and the model does the same.
- `create` configures the pin with an any-edge interrupt. Nothing is called
  on an edge until `init` registers the handler.

## Model

| member | source | states |
|---|---|---|
| `IotDebounce.ActiveLevel.Code` | mine/alarm/main/iot_debounce.h:38-41 | the active level's value is 0 or 1, and 1 exactly for ACTIVE_HIGH |
| `IotDebounce.CbType.Code` | mine/alarm/main/iot_debounce.h:43-46 | a callback type's value is 0 or 1, and 0 exactly for PUSH |
| `IotDebounce.CbTypeFromCode` | mine/alarm/main/iot_debounce.h:43-46 | a raw value selects a slot exactly when it is PUSH (0) or RELEASE (1), and the slot selected has that value |
| `IotDebounce.EspErr.Code` | mine/alarm/main/iot_debounce.h:80-84 | the return code is 0 exactly for ESP_OK |
| `SettleTimer.Retrigger` | mine/alarm/main/debounce.c:100-103 | stop-then-reset arms the timer to expire exactly one interval after the edge, not a tick earlier |
| `SettleTimer.Expiries` | mine/alarm/main/debounce.c:96-107 | at most one settle per edge, plus one for a deadline already pending |
| `SettleTimer.BurstCoalesces` | mine/alarm/main/debounce.c:96-107 | edges each within the quiet interval of the one before yield exactly one settle, one interval after the last edge |
| `SettleTimer.ExpiryCount` | mine/alarm/main/debounce.c:96-107 | the number of settles is one per quiet gap of at least the interval, plus one after the last edge, plus one if the timer was already due |
| `SettleTimer.ExpiryAfterQuietEdge` | mine/alarm/main/debounce.c:96-107 | every edge not followed by another within the interval yields a settle one interval later, so quiet gaps never coalesce |
| `SettleTimer.ExpiryIsQuietEdge` | mine/alarm/main/debounce.c:96-107 | conversely, every settle is one interval after an edge not followed by another within the interval, or is the deadline already pending before the first edge |
| `Debounce.Core.WithSlot` | mine/alarm/main/debounce.c:184-196 | writing one slot sets it and leaves the other slot and the state as they were |
| `Debounce.SettleStep` | mine/alarm/main/debounce.c:74-94 | the new state is PUSH iff the level equals the active level, else IDLE, never INIT; an invocation happens iff the state changed and the entered state's slot has a function, and it is that slot's function and argument; slots are unchanged |
| `Debounce.Channel.constructor` | mine/alarm/main/debounce.c:134-146 | a new record is in INIT with both slots null, the interval 50 / portTICK_PERIOD_MS, a one-shot timer not started and no handler installed |
| `Debounce.Channel.Isr` | mine/alarm/main/debounce.c:96-107 | with a timer, it is armed one interval after `now`; without one, nothing changes; only the countdown may change |
| `Debounce.Channel.Edge` | mine/alarm/main/debounce.c:163-164 | an edge runs the handler only while it is installed (by `init`, removed by `delete`): then a channel with a timer is armed one interval later; otherwise nothing changes |
| `Debounce.Channel.Settle` | mine/alarm/main/debounce.c:74-94 | run once the timer is due; the timer goes dormant and the state and returned invocation are those of `SettleStep`; only the state and countdown change |
| `Debounce.Channel.FreeTmr` | mine/alarm/main/debounce.c:109-116 | the timer handle is cleared and the timer dormant; with no handle nothing changes, so it is idempotent |
| `Debounce.Create` | mine/alarm/main/debounce.c:131-155 | NULL iff the pin number is not below GPIO_NUM_MAX; otherwise a fresh channel in INIT with empty slots, the truncated pin number, the active level's value, the given one-shot timer not started |
| `Debounce.Init` | mine/alarm/main/debounce.c:157-166 | outside INIT nothing changes; in INIT the handler is installed and the timer retriggered, while state, slots, configuration and timer handle stay |
| `Debounce.SetEvtCb` | mine/alarm/main/debounce.c:184-196 | INVALID_ARG for a null handle; otherwise ESP_OK, the selected slot overwritten, an unknown type changes nothing, and state, timer and handler are untouched |
| `Debounce.AddOnPressCb` | mine/alarm/main/debounce.c:198-205 | INVALID_ARG for a null handle; otherwise ESP_OK with only the push slot overwritten |
| `Debounce.AddOnReleaseCb` | mine/alarm/main/debounce.c:207-214 | INVALID_ARG for a null handle; otherwise ESP_OK with only the release slot overwritten |
| `Debounce.RmCb` | mine/alarm/main/debounce.c:168-182 | always ESP_OK; the selected slot's function and argument become null and nothing else changes; the type must be PUSH or RELEASE |
| `Debounce.Delete` | mine/alarm/main/debounce.c:118-129 | INVALID_ARG for a null handle; otherwise ESP_OK with the handler removed, the timer handle cleared and the timer dormant |
| `DebounceTrace.ReplaySnoc` | mine/alarm/main/debounce.c:74-94 | replaying one more step extends the replay by that step's state and invocation |
| `DebounceDriver.ServeDue` | mine/alarm/main/debounce.c:74-94 | the timer service settles exactly when the countdown is due, on the deadline, and the timer goes dormant; otherwise nothing happens; state and invocations are those of replaying that settle |
| `DebounceDriver.ServeEdge` | mine/alarm/main/debounce.c:96-107 | a due deadline is settled before a later edge, then the edge retriggers the timer if the handler is installed and the timer exists |
| `DebounceDriver.RunEdges` | mine/alarm/main/debounce.c:74-107 | the loop settles exactly at the ticks of `Expiries` for the delivered edges (or only at a deadline already pending when no handler or timer), ends dormant, and its state and invocations are those of replaying those settles |
| `DebounceTrace.UntouchedSlot` | mine/alarm/main/debounce.c:82-92 | while no step writes a slot, every invocation from it is the function and argument it held at the start, and it still holds them |
| `DebounceTrace.LastRegistrationWins` | mine/alarm/main/debounce.c:184-214 | after a registration and until the slot is written again, every invocation from that slot is the pair last registered |
| `DebounceTrace.RemovalSilences` | mine/alarm/main/debounce.c:168-182 | after a removal and until the slot is written again, no invocation comes from that slot |
| `DebounceTrace.ReplayAppend` | mine/alarm/main/debounce.c:74-94 | replaying two runs in sequence is replaying their concatenation, invocations in order |
| `DebounceTrace.EventsAlternate` | mine/alarm/main/debounce.c:80-92 | with both slots set, push and release invocations strictly alternate, the first leaves the starting state and the last names the final state |
| `DebounceTrace.SilentRunKeepsState` | mine/alarm/main/debounce.c:80-92 | with both slots set, a run with no invocation leaves the state unchanged |
| `DebounceTrace.StateNeverReentersInit` | mine/alarm/main/debounce.c:80-92 | a run ends in INIT iff it started in INIT and held no settle |
| `DebounceTrace.AgreeingRunIsSilent` | mine/alarm/main/debounce.c:80-92 | settles whose level agrees with the state make no invocation and keep the state |
| `DebounceTrace.FirstSettleFromInit` | mine/alarm/main/debounce.c:78-93 | the first settle from INIT enters the state the level calls for and makes exactly the invocation of that state's slot, if it has a function |
| `DebounceScenario.BootLowThenPulse` | mine/alarm/main/debounce.c:74-107 | boot low, a bouncing rise, a glitch and a fall invoke exactly release, push, release with the registered pairs |
| `DebounceScenario.NoSettleBeforeInit` | mine/alarm/main/debounce.c:131-166 | before init no handler is installed, so whatever edges arrive no settle runs and no callback is invoked |
| `DebounceScenario.DeleteStopsSettling` | mine/alarm/main/debounce.c:118-166 | delete returns ESP_OK and removes the handler, even after init armed the timer; whatever edges arrive afterwards, no settle runs and no callback is invoked |

## Left out

- Memory: `calloc` failure in `create` is not modelled, and neither is `free`
  in `delete`. The record stays reachable after `Delete`, and using it
  afterwards is the caller's error, as in C.
- Driver calls are not modelled: `gpio_config` (pin mask, pull-up,
  interrupt type), `gpio_install_isr_service`, `gpio_set_intr_type`, and
  `gpio_isr_handler_add`/`remove`. They are foreign code. What the model
  keeps is whether the handler is installed (`isrHooked`, set by `Init` and
  cleared by `Delete`) and that the driver dispatches an edge to it only
  then (`Edge`).
- Timer-service internals are not modelled: the command queue behind
  `xTimerStopFromISR`/`xTimerResetFromISR` (which can fail when full),
  `HPTaskAwoken`, `portYIELD_FROM_ISR`, and
  `xTimerStop`/`xTimerDelete` blocking with `portMAX_DELAY`. The timer is
  the abstract countdown described above.
- Concurrency is not modelled. Interrupt and settle steps are atomic, so
  the model says nothing about a `delete` racing an in-flight expiry.
- Logging (`ESP_LOGE` inside `IOT_CHECK`) is not modelled.
- Unused fields are not modelled: `serial_thres_sec`, `on_press`,
  `next_cb`, `pbtn`, and the tap slots' `interval` and `tmr`. `rm_cb`
  writes `pbtn` and calls `debounce_free_tmr` on the tap slot's timer; that
  timer is always NULL, so the call does nothing.
- Debounce.RmCb: requires a non-null handle and a type of PUSH or RELEASE,
  because the source dereferences the handle unchecked and writes through
  a null pointer for any other type.
- Debounce.Init: requires a non-null handle, because the source dereferences
  it unchecked.
- IotDebounce.ActiveLevel: only the two declared enumerators are modelled. A
  C caller could pass another value, which would never equal a GPIO level.
- `mine/alarm/main/app_main.c` (HomeKit accessory setup, Wi-Fi, reset
  button, FreeRTOS task) is not part of this model.
- The C++ interface in `iot_debounce.h` is not part of this model. It
  sits under `#error` and is dead code.
