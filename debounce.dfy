/**
 * The debounce engine: one channel per monitored GPIO pin. An edge
 * interrupt only retriggers the channel's settle timer; when the pin has
 * been quiet for the settle interval the timer service samples the pin,
 * moves the channel between IDLE and PUSH, and invokes the push or the
 * release callback. The functions below the class are the C API that
 * creates, starts and deletes channels and fills their callback slots.
 *
 * A callback invocation `cb(arg)` is returned as an `Event` value instead
 * of being called. The GPIO driver's edge-handler table is represented by
 * the field `isrHooked`; the FreeRTOS timer's countdown by `countdown`.
 */
module Debounce {
  import opened Options
  import opened IotDebounce
  import opened SettleTimer

  /** `GPIO_NUM_MAX` of the ESP32 GPIO driver: pins are numbered 0 to 39. */
  const GPIO_NUM_MAX: int := 40

  /** `configTICK_RATE_HZ`, the FreeRTOS tick rate of the build (ESP-IDF's default). */
  const CONFIG_TICK_RATE_HZ: nat := 100

  /** `portTICK_PERIOD_MS`: milliseconds per tick, by integer division. */
  const TICK_PERIOD_MS: nat := 1000 / CONFIG_TICK_RATE_HZ

  /** `DEBOUNCE_GLITCH_FILTER_TIME_MS`: how long the pin must be quiet. */
  const DEBOUNCE_GLITCH_FILTER_TIME_MS: nat := 50

  /** The settle timer's period in ticks, `50 / portTICK_PERIOD_MS`. */
  const SETTLE_INTERVAL: nat := DEBOUNCE_GLITCH_FILTER_TIME_MS / TICK_PERIOD_MS

  /** A `uint8_t` field. */
  type Byte = x: int | 0 <= x < 256

  /** A raw level as `gpio_get_level` returns it. */
  type Level = x: int | 0 <= x <= 1

  /** The identity of a FreeRTOS timer (a non-null `TimerHandle_t`). */
  type TimerHandle = nat

  /** `debounce_status_t`: IDLE = 0, PUSH = 1, INIT = 2. */
  datatype State = StateIdle | StatePush | StateInit

  /** A callback slot: the function pointer, possibly null, and its argument. */
  datatype Slot = Slot(cb: Option<CallbackFn>, arg: Option<Context>) {
    /** The invocation this slot makes for an event of `kind`, none when `cb` is null. */
    function Fire(kind: CbType): (e: Option<Event>)
    {
      if cb.Some? then Some(Event(kind, cb.value, arg)) else None
    }
  }

  /** A slot whose function and argument are both null, as `calloc` and `rm_cb` leave it. */
  const EmptySlot: Slot := Slot(None, None)

  /** One invocation `cb(arg)` of a registered callback, from the slot `kind` selects. */
  datatype Event = Event(kind: CbType, cb: CallbackFn, arg: Option<Context>)

  /** The part of a channel the settle logic and the registration API read and write. */
  datatype Core = Core(state: State, push: Slot, release: Slot) {
    /** The slot `t` selects. */
    function SlotOf(t: CbType): (s: Slot)
    {
      match t
      case CbPush => push
      case CbRelease => release
    }

    /** This core with slot `t` overwritten by `s`. */
    function WithSlot(t: CbType, s: Slot): (r: Core)
      ensures r.SlotOf(t) == s
      ensures forall u :: u != t ==> r.SlotOf(u) == SlotOf(u)
      ensures r.state == state
    {
      match t
      case CbPush => this.(push := s)
      case CbRelease => this.(release := s)
    }
  }

  /** The callback slot a transition into `s` dispatches to. */
  function EventKind(s: State): (k: CbType)
    requires s != StateInit
  {
    if s == StatePush then CbPush else CbRelease
  }

  /**
   * The settle state machine: with the pin sampled at `level` once the
   * quiet interval has passed, the channel enters PUSH when the level is the
   * active one and IDLE otherwise, and it invokes the slot of the state it
   * enters exactly when it was not already in that state and the slot's
   * function is set. The slots are never changed, and INIT is never entered.
   */
  function SettleStep(c: Core, active: int, level: Level): (r: (Core, Option<Event>))
    ensures r.0.push == c.push && r.0.release == c.release
    ensures r.0.state != StateInit
    ensures r.0.state == StatePush <==> level == active
    ensures r.1.Some? <==> r.0.state != c.state && c.SlotOf(EventKind(r.0.state)).cb.Some?
    ensures r.1.Some? ==> (&& r.1.value.kind == EventKind(r.0.state)
                           && Some(r.1.value.cb) == c.SlotOf(r.1.value.kind).cb
                           && r.1.value.arg == c.SlotOf(r.1.value.kind).arg)
  {
    if active == level then
      if c.state != StatePush then (c.(state := StatePush), c.push.Fire(CbPush)) else (c, None)
    else
      if c.state != StateIdle then (c.(state := StateIdle), c.release.Fire(CbRelease)) else (c, None)
  }

  /** `debounce_dev_t`: the heap record behind a `debounce_handle_t`. */
  class Channel {
    var ioNum: Byte
    var activeLevel: Byte
    var state: State
    /** `debounce_cb.interval`: the settle timer's period in ticks. */
    var interval: nat
    /** The auto-reload flag the settle timer was created with. */
    var autoReload: bool
    /** `debounce_cb.tmr`: `None` when `xTimerCreate` failed or the timer was freed. */
    var tmr: Option<TimerHandle>
    /** The FreeRTOS timer's own countdown. */
    var countdown: Countdown
    /** `tap_psh_cb.cb` and `tap_psh_cb.arg`. */
    var pushSlot: Slot
    /** `tap_rls_cb.cb` and `tap_rls_cb.arg`. */
    var releaseSlot: Slot
    /** The GPIO driver holds this channel's edge interrupt handler. */
    var isrHooked: bool

    /** Only an existing timer counts down, and the timer is one-shot. */
    ghost predicate Valid()
      reads this
    {
      (countdown.Armed? ==> tmr.Some?) && !autoReload
    }

    function View(): (v: Core)
      reads this
    {
      Core(state, pushSlot, releaseSlot)
    }

    /** The zeroed record `iot_debounce_create` fills in. */
    constructor (ioNum: Byte, activeLevel: Byte, timer: Option<TimerHandle>)
      ensures Valid()
      ensures this.ioNum == ioNum && this.activeLevel == activeLevel
      ensures View() == Core(StateInit, EmptySlot, EmptySlot)
      ensures interval == SETTLE_INTERVAL && !autoReload
      ensures tmr == timer && countdown == Dormant && !isrHooked
    {
      this.ioNum := ioNum;
      this.activeLevel := activeLevel;
      state := StateInit;
      interval := SETTLE_INTERVAL;
      autoReload := false;
      tmr := timer;
      countdown := Dormant;
      pushSlot := EmptySlot;
      releaseSlot := EmptySlot;
      isrHooked := false;
    }

    /**
     * `debounce_gpio_isr_handler`, run on every edge: when the timer exists
     * it is stopped and reset, so it counts its full interval again from
     * `now`; without a timer nothing happens. Nothing but the countdown is
     * touched.
     */
    method Isr(now: int)
      requires Valid()
      modifies this`countdown
      ensures Valid()
      ensures tmr.Some? ==> countdown == Retrigger(now, interval)
      ensures tmr.None? ==> countdown == old(countdown)
    {
      if tmr.Some? {
        countdown := Dormant;
        countdown := Retrigger(now, interval);
      }
    }

    /**
     * An edge on the pin as the GPIO driver dispatches it: the handler runs
     * only while it is installed, from `gpio_isr_handler_add` in `init` until
     * `gpio_isr_handler_remove` in `delete`. The timer is retriggered exactly
     * when the handler is installed and the timer exists.
     */
    method Edge(now: int)
      requires Valid()
      modifies this`countdown
      ensures Valid()
      ensures isrHooked && tmr.Some? ==> countdown == Retrigger(now, interval)
      ensures !(isrHooked && tmr.Some?) ==> countdown == old(countdown)
    {
      if isrHooked {
        Isr(now);
      }
    }

    /**
     * `debounce_debounce_cb`, run by the timer service once the countdown
     * reaches its deadline, with the pin sampled at `level`. The one-shot
     * timer goes dormant; the state and the returned invocation are those of
     * the settle state machine.
     */
    method Settle(level: Level, now: int) returns (ev: Option<Event>)
      requires Valid() && countdown.DueBy(now)
      modifies this`state, this`countdown
      ensures Valid() && countdown == Dormant
      ensures (View(), ev) == SettleStep(old(View()), activeLevel, level)
    {
      countdown := Dormant;
      ev := None;
      if activeLevel == level {
        if state != StatePush {
          state := StatePush;
          if pushSlot.cb.Some? {
            ev := Some(Event(CbPush, pushSlot.cb.value, pushSlot.arg));
          }
        }
      } else {
        if state != StateIdle {
          state := StateIdle;
          if releaseSlot.cb.Some? {
            ev := Some(Event(CbRelease, releaseSlot.cb.value, releaseSlot.arg));
          }
        }
      }
    }

    /**
     * `debounce_free_tmr` on the channel's timer: an existing timer is
     * stopped, deleted and its handle cleared; without a timer nothing
     * happens, so a second call changes nothing.
     */
    method FreeTmr()
      requires Valid()
      modifies this`tmr, this`countdown
      ensures Valid() && tmr == None && countdown == Dormant
      ensures old(tmr) == None ==> unchanged(this)
    {
      if tmr.Some? {
        countdown := Dormant;
        tmr := None;
      }
    }
  }

  /** The fields fixed at creation are as they were. */
  twostate predicate ConfigUnchanged(h: Channel)
    reads h
  {
    && h.ioNum == old(h.ioNum) && h.activeLevel == old(h.activeLevel)
    && h.interval == old(h.interval) && h.autoReload == old(h.autoReload)
  }

  /** Everything but the two callback slots is as it was. */
  twostate predicate OnlySlotsChanged(h: Channel)
    reads h
  {
    && ConfigUnchanged(h) && h.state == old(h.state)
    && h.tmr == old(h.tmr) && h.countdown == old(h.countdown) && h.isrHooked == old(h.isrHooked)
  }

  /**
   * `iot_debounce_create`: no channel (NULL) for a pin number not below
   * `GPIO_NUM_MAX`; otherwise a fresh channel in INIT with both slots null,
   * the pin number truncated to `uint8_t`, and the one-shot settle timer
   * `xTimerCreate` returned, not started. Debouncing does not start here.
   */
  method Create(gpioNum: int, activeLevel: ActiveLevel, timer: Option<TimerHandle>) returns (h: Channel?)
    ensures h == null <==> gpioNum >= GPIO_NUM_MAX
    ensures h != null ==> fresh(h) && h.Valid()
    ensures h != null ==> h.ioNum == gpioNum % 256 && h.activeLevel == activeLevel.Code()
    ensures h != null ==> h.View() == Core(StateInit, EmptySlot, EmptySlot)
    ensures h != null ==> h.interval == SETTLE_INTERVAL && !h.autoReload
    ensures h != null ==> h.tmr == timer && h.countdown == Dormant && !h.isrHooked
  {
    if gpioNum >= GPIO_NUM_MAX {
      return null;
    }
    h := new Channel(gpioNum % 256, activeLevel.Code(), timer);
  }

  /**
   * `iot_debounce_init`: nothing happens unless the channel is in INIT;
   * otherwise the edge handler is installed and run once, which arms the
   * settle timer. The state stays INIT until that timer expires.
   */
  method Init(h: Channel, now: int)
    requires h.Valid()
    modifies h
    ensures h.Valid()
    ensures old(h.state) != StateInit ==> unchanged(h)
    ensures old(h.state) == StateInit ==>
              && h.isrHooked && h.View() == old(h.View()) && ConfigUnchanged(h) && h.tmr == old(h.tmr)
              && h.countdown == (if h.tmr.Some? then Retrigger(now, h.interval) else old(h.countdown))
  {
    if h.state != StateInit {
      return;
    }
    h.isrHooked := true;
    h.Isr(now);
  }

  /**
   * `iot_debounce_set_evt_cb`: INVALID_ARG for a null handle; otherwise the
   * slot `rawType` selects is overwritten with `cb` and `arg`, nothing else
   * changes, and the result is ESP_OK even when `rawType` selects no slot.
   */
  method SetEvtCb(h: Channel?, rawType: int, cb: Option<CallbackFn>, arg: Option<Context>)
    returns (err: EspErr)
    modifies h
    ensures h == null ==> err == EspErrInvalidArg
    ensures h != null ==> err == EspOk && OnlySlotsChanged(h)
    ensures h != null ==> h.View() == match CbTypeFromCode(rawType)
                                      case None => old(h.View())
                                      case Some(t) => old(h.View()).WithSlot(t, Slot(cb, arg))
  {
    if h == null {
      return EspErrInvalidArg;
    }
    if rawType == CbPush.Code() {
      h.pushSlot := Slot(cb, arg);
    } else if rawType == CbRelease.Code() {
      h.releaseSlot := Slot(cb, arg);
    }
    return EspOk;
  }

  /** `iot_debounce_add_on_press_cb`: as `SetEvtCb` with the push slot. */
  method AddOnPressCb(h: Channel?, cb: Option<CallbackFn>, arg: Option<Context>) returns (err: EspErr)
    modifies h
    ensures h == null ==> err == EspErrInvalidArg
    ensures h != null ==> err == EspOk && OnlySlotsChanged(h)
    ensures h != null ==> h.View() == old(h.View()).WithSlot(CbPush, Slot(cb, arg))
  {
    if h == null {
      return EspErrInvalidArg;
    }
    h.pushSlot := Slot(cb, arg);
    return EspOk;
  }

  /** `iot_debounce_add_on_release_cb`: as `SetEvtCb` with the release slot. */
  method AddOnReleaseCb(h: Channel?, cb: Option<CallbackFn>, arg: Option<Context>) returns (err: EspErr)
    modifies h
    ensures h == null ==> err == EspErrInvalidArg
    ensures h != null ==> err == EspOk && OnlySlotsChanged(h)
    ensures h != null ==> h.View() == old(h.View()).WithSlot(CbRelease, Slot(cb, arg))
  {
    if h == null {
      return EspErrInvalidArg;
    }
    h.releaseSlot := Slot(cb, arg);
    return EspOk;
  }

  /**
   * `iot_debounce_rm_cb`: the selected slot's function and argument become
   * null, nothing else changes, and the result is always ESP_OK. The source
   * neither checks the handle nor handles a type other than PUSH and
   * RELEASE (it writes through a null pointer), so both are required here.
   */
  method RmCb(h: Channel, rawType: int) returns (err: EspErr)
    requires rawType == CbPush.Code() || rawType == CbRelease.Code()
    modifies h
    ensures err == EspOk && OnlySlotsChanged(h)
    ensures h.View() == old(h.View()).WithSlot(CbTypeFromCode(rawType).value, EmptySlot)
  {
    if rawType == CbPush.Code() {
      h.pushSlot := EmptySlot;
    } else {
      h.releaseSlot := EmptySlot;
    }
    return EspOk;
  }

  /**
   * `iot_debounce_delete`: INVALID_ARG for a null handle; otherwise the edge
   * handler is removed and the settle timer freed, so no settle can run
   * afterwards, and the result is ESP_OK.
   */
  method Delete(h: Channel?) returns (err: EspErr)
    requires h != null ==> h.Valid()
    modifies h
    ensures h == null ==> err == EspErrInvalidArg
    ensures h != null ==> err == EspOk && h.Valid()
    ensures h != null ==> !h.isrHooked && h.tmr == None && h.countdown == Dormant
    ensures h != null ==> h.View() == old(h.View()) && ConfigUnchanged(h)
  {
    if h == null {
      return EspErrInvalidArg;
    }
    h.isrHooked := false;
    h.FreeTmr();
    return EspOk;
  }
}
