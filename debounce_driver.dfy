/**
 * The environment of a channel: the GPIO driver delivering edges and the
 * FreeRTOS timer service running expired timers. Both run one step at a
 * time; a timer that is due is served before an edge that comes later.
 */
module DebounceDriver {
  import opened Options
  import opened SettleTimer
  import opened Debounce
  import opened DebounceTrace

  /** The channel's configuration, timer handle, handler and slots are as they were. */
  twostate predicate OnlyStateAndTimer(h: Channel)
    reads h
  {
    && ConfigUnchanged(h) && h.tmr == old(h.tmr) && h.isrHooked == old(h.isrHooked)
    && h.pushSlot == old(h.pushSlot) && h.releaseSlot == old(h.releaseSlot)
  }

  /**
   * The timer service at tick `now`: if the countdown is due, the settle
   * callback runs once, on the deadline tick, sampling the pin there.
   */
  method ServeDue(h: Channel, now: int, level: int -> Level) returns (f: seq<int>, es: seq<Event>)
    requires h.Valid()
    modifies h
    ensures h.Valid() && OnlyStateAndTimer(h)
    ensures f == (if old(h.countdown).DueBy(now) then [old(h.countdown).deadline] else [])
    ensures h.countdown == (if old(h.countdown).DueBy(now) then Dormant else old(h.countdown))
    ensures (h.View(), es) == Replay(old(h.View()), h.activeLevel, Samples(f, level))
  {
    f, es := [], [];
    ghost var v := h.View();
    if h.countdown.DueBy(now) {
      var d := h.countdown.deadline;
      var e := h.Settle(level(d), d);
      f, es := [d], Events(e);
      assert Samples(f, level) == [] + [Sample(level(d))];
      assert Replay(v, h.activeLevel, []) == (v, []);
      ReplaySnoc(v, h.activeLevel, [], Sample(level(d)));
      assert [] + Events(e) == Events(e);
    } else {
      assert Samples(f, level) == [];
    }
  }

  /**
   * One edge at tick `t`: the timer service first serves a countdown that is
   * already due, then the driver dispatches the edge.
   */
  method ServeEdge(h: Channel, t: int, level: int -> Level) returns (f: seq<int>, es: seq<Event>)
    requires h.Valid()
    modifies h
    ensures h.Valid() && OnlyStateAndTimer(h)
    ensures f == (if old(h.countdown).DueBy(t) then [old(h.countdown).deadline] else [])
    ensures h.countdown == if h.isrHooked && h.tmr.Some? then Retrigger(t, h.interval)
                           else if old(h.countdown).DueBy(t) then Dormant else old(h.countdown)
    ensures (h.View(), es) == Replay(old(h.View()), h.activeLevel, Samples(f, level))
  {
    f, es := ServeDue(h, t, level);
    h.Edge(t);
  }

  /**
   * Deliver the edges at the ticks `edges`, in order, and then leave the pin
   * quiet, sampling it at each expiry with `level`. The ticks at which the
   * settle callback runs are those of the timer model `Expiries` when the
   * handler is installed and the timer exists, and otherwise only a
   * deadline already pending; the channel's state and the invocations made
   * are those of replaying those settles.
   */
  method RunEdges(h: Channel, edges: seq<int>, level: int -> Level) returns (fired: seq<int>, evs: seq<Event>)
    requires h.Valid()
    modifies h
    ensures h.Valid() && h.countdown == Dormant && OnlyStateAndTimer(h)
    ensures fired == Expiries(old(h.countdown), if h.isrHooked && h.tmr.Some? then edges else [], h.interval)
    ensures (h.View(), evs) == Replay(old(h.View()), h.activeLevel, Samples(fired, level))
  {
    ghost var c0 := h.countdown;
    ghost var v0 := h.View();
    var live := h.isrHooked && h.tmr.Some?;
    fired, evs := [], [];
    var i := 0;
    while i < |edges|
      invariant 0 <= i <= |edges|
      invariant h.Valid() && OnlyStateAndTimer(h)
      invariant live ==> fired + Expiries(h.countdown, edges[i..], h.interval) == Expiries(c0, edges, h.interval)
      invariant !live ==> fired + Expiries(h.countdown, [], h.interval) == Expiries(c0, [], h.interval)
      invariant (h.View(), evs) == Replay(v0, h.activeLevel, Samples(fired, level))
    {
      var t := edges[i];
      ghost var before := h.countdown;
      ghost var v := h.View();
      var f, es := ServeEdge(h, t, level);
      Extended(v0, h.activeLevel, fired, f, level, v, h.View(), es, evs);
      if live {
        EdgeServed(c0, edges, h.interval, i, fired, f, before, h.countdown);
      } else {
        assert fired + f + Expiries(h.countdown, [], h.interval) == fired + Expiries(before, [], h.interval);
      }
      fired, evs := fired + f, evs + es;
      i := i + 1;
    }
    assert edges[|edges|..] == [];
    if h.countdown.Armed? {
      ghost var v := h.View();
      var f, es := ServeDue(h, h.countdown.deadline, level);
      Extended(v0, h.activeLevel, fired, f, level, v, h.View(), es, evs);
      fired, evs := fired + f, evs + es;
    }
  }

  /** Settles replayed after a replayed run extend that run. */
  lemma Extended(v0: Core, active: int, fired: seq<int>, f: seq<int>, level: int -> Level,
                 v: Core, v': Core, es: seq<Event>, evs: seq<Event>)
    requires (v, evs) == Replay(v0, active, Samples(fired, level))
    requires (v', es) == Replay(v, active, Samples(f, level))
    ensures (v', evs + es) == Replay(v0, active, Samples(fired + f, level))
  {
    ReplayAppend(v0, active, Samples(fired, level), Samples(f, level));
    assert Samples(fired + f, level) == Samples(fired, level) + Samples(f, level);
  }

  /** The timer model's account of serving the edge at position `i`. */
  lemma EdgeServed(c0: Countdown, edges: seq<int>, interval: nat, i: nat, fired: seq<int>, f: seq<int>,
                   before: Countdown, after: Countdown)
    requires i < |edges|
    requires fired + Expiries(before, edges[i..], interval) == Expiries(c0, edges, interval)
    requires f == (if before.DueBy(edges[i]) then [before.deadline] else [])
    requires after == Retrigger(edges[i], interval)
    ensures fired + f + Expiries(after, edges[i + 1..], interval) == Expiries(c0, edges, interval)
  {
    ExpiriesFrom(before, edges, interval, i);
    assert fired + f + Expiries(after, edges[i + 1..], interval) == fired + (f + Expiries(after, edges[i + 1..], interval));
  }
}
