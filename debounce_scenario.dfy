/**
 * Client runs of the debounce API, the way the alarm application drives
 * it: create a channel for an active-high contact, register both
 * callbacks, start it, and let edges and timer expiries arrive. Ticks are
 * 10 ms, so the settle interval is 5 ticks.
 */
module DebounceScenario {
  import opened Options
  import opened IotDebounce
  import opened SettleTimer
  import opened Debounce
  import opened DebounceTrace
  import opened DebounceDriver

  /**
   * The pin reads low at boot, rises at tick 100 with contact bounce until
   * tick 103, stays high (with a short glitch at ticks 150 and 152) and
   * falls at tick 300. Start-up reports the release; the pulse then yields
   * one push and one release; the glitch that settles back high yields
   * nothing.
   */
  method BootLowThenPulse() returns (evs: seq<Event>)
    ensures evs == [Event(CbRelease, 2, Some(20)), Event(CbPush, 1, Some(10)), Event(CbRelease, 2, Some(20))]
  {
    var h := Create(4, ActiveHigh, Some(7));
    var err := AddOnPressCb(h, Some(1), Some(10));
    err := AddOnReleaseCb(h, Some(2), Some(20));
    Init(h, 0);
    assert h.countdown == Armed(5);
    var e := h.Settle(0, 5);
    evs := Events(e);

    h.Edge(100);
    h.Edge(101);
    h.Edge(103);
    assert !h.countdown.DueBy(107);
    e := h.Settle(1, 108);
    evs := evs + Events(e);

    h.Edge(150);
    h.Edge(152);
    e := h.Settle(1, 157);
    evs := evs + Events(e);

    h.Edge(300);
    e := h.Settle(0, 305);
    evs := evs + Events(e);
  }

  /**
   * Before `init` the edge handler is not installed: whatever edges arrive,
   * the timer stays dormant and no settle runs, so no callback is invoked.
   */
  method NoSettleBeforeInit(edges: seq<int>, level: int -> Level) returns (fired: seq<int>, evs: seq<Event>)
    ensures fired == [] && evs == []
  {
    var h := Create(4, ActiveHigh, Some(7));
    var err := AddOnPressCb(h, Some(1), Some(10));
    err := AddOnReleaseCb(h, Some(2), Some(20));
    fired, evs := RunEdges(h, edges, level);
  }

  /**
   * `delete` removes the edge handler and frees the settle timer, even one
   * that `init` had armed: whatever edges arrive afterwards, no settle runs.
   */
  method DeleteStopsSettling(edges: seq<int>, level: int -> Level)
    returns (err: EspErr, hooked: bool, fired: seq<int>, evs: seq<Event>)
    ensures err == EspOk && !hooked && fired == [] && evs == []
  {
    var h := Create(4, ActiveHigh, Some(7));
    var e := AddOnPressCb(h, Some(1), Some(10));
    Init(h, 0);
    err := Delete(h);
    hooked := h.isrHooked;
    fired, evs := RunEdges(h, edges, level);
  }
}
