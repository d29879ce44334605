/**
 * Properties of a channel over whole runs. Since every settle callback and
 * every registration call runs to completion before the next one starts,
 * a run is a sequence of steps: a settle with the level the pin was sampled
 * at, a registration (`set_evt_cb`, `add_on_press_cb`, `add_on_release_cb`)
 * or a removal (`rm_cb`). `Replay` gives the channel core after the run and
 * the callback invocations made during it, in order.
 */
module DebounceTrace {
  import opened Options
  import opened IotDebounce
  import opened Debounce

  datatype Op =
    | Sample(level: Level)
    | Register(kind: CbType, cb: Option<CallbackFn>, arg: Option<Context>)
    | Remove(kind: CbType)
  {
    /** This step writes the slot `t` selects. */
    predicate Touches(t: CbType) {
      !Sample? && kind == t
    }
  }

  /** One step; only a settle can invoke a callback. */
  function Step(c: Core, active: int, op: Op): (r: (Core, Option<Event>))
  {
    match op
    case Sample(level) => SettleStep(c, active, level)
    case Register(t, cb, arg) => (c.WithSlot(t, Slot(cb, arg)), None)
    case Remove(t) => (c.WithSlot(t, EmptySlot), None)
  }

  function Events(e: Option<Event>): (es: seq<Event>)
  {
    if e.Some? then [e.value] else []
  }

  /** The core after `ops` and the invocations made on the way. */
  function Replay(c: Core, active: int, ops: seq<Op>): (r: (Core, seq<Event>))
    decreases |ops|
  {
    if ops == [] then (c, [])
    else
      var (c1, e) := Step(c, active, ops[0]);
      var (c2, es) := Replay(c1, active, ops[1..]);
      (c2, Events(e) + es)
  }

  /** A run split in two is the second part replayed from where the first part left the core. */
  lemma {:induction false} ReplayAppend(c: Core, active: int, a: seq<Op>, b: seq<Op>)
    ensures var (ca, ea) := Replay(c, active, a);
            var (cb, eb) := Replay(ca, active, b);
            Replay(c, active, a + b) == (cb, ea + eb)
    decreases |a|
  {
    if a == [] {
      assert a + b == b;
      var (cb, eb) := Replay(c, active, b);
      assert [] + eb == eb;
    } else {
      assert (a + b)[0] == a[0];
      assert (a + b)[1..] == a[1..] + b;
      var (c1, e) := Step(c, active, a[0]);
      ReplayAppend(c1, active, a[1..], b);
      var (ca, ea) := Replay(c, active, a);
      var (cb, eb) := Replay(ca, active, b);
      assert Replay(c, active, a + b).1 == Events(e) + (Replay(c1, active, a[1..]).1 + eb);
      assert Events(e) + (Replay(c1, active, a[1..]).1 + eb) == ea + eb;
    }
  }

  /** Replaying one more step extends the run by that step. */
  lemma ReplaySnoc(c: Core, active: int, ops: seq<Op>, op: Op)
    ensures var (c1, es) := Replay(c, active, ops);
            var (c2, e) := Step(c1, active, op);
            Replay(c, active, ops + [op]) == (c2, es + Events(e))
  {
    var (c1, es) := Replay(c, active, ops);
    var (c2, e) := Step(c1, active, op);
    ReplayAppend(c, active, ops, [op]);
    assert [op][1..] == [];
    assert Replay(c2, active, []) == (c2, []);
    assert Replay(c1, active, [op]) == (c2, Events(e) + []);
    assert Events(e) + [] == Events(e);
  }

  /** The settles the timer service runs at `ticks`, each sampling the pin's level at its tick. */
  function Samples(ticks: seq<int>, level: int -> Level): (ops: seq<Op>)
    ensures |ops| == |ticks|
    ensures forall i :: 0 <= i < |ticks| ==> ops[i] == Sample(level(ticks[i]))
  {
    seq(|ticks|, i requires 0 <= i < |ticks| => Sample(level(ticks[i])))
  }

  /**
   * While no step writes slot `t`, every invocation from that slot is the
   * function and argument it held at the start (so none at all if its
   * function was null), and the slot still holds them at the end.
   */
  lemma {:induction false} UntouchedSlot(c: Core, active: int, ops: seq<Op>, t: CbType)
    requires forall i :: 0 <= i < |ops| ==> !ops[i].Touches(t)
    ensures Replay(c, active, ops).0.SlotOf(t) == c.SlotOf(t)
    ensures forall e :: e in Replay(c, active, ops).1 && e.kind == t ==>
              c.SlotOf(t).cb == Some(e.cb) && c.SlotOf(t).arg == e.arg
    decreases |ops|
  {
    if ops != [] {
      var (c1, e) := Step(c, active, ops[0]);
      assert !ops[0].Touches(t);
      assert c1.SlotOf(t) == c.SlotOf(t);
      assert forall x :: x in Events(e) && x.kind == t ==>
               c.SlotOf(t).cb == Some(x.cb) && c.SlotOf(t).arg == x.arg;
      UntouchedSlot(c1, active, ops[1..], t);
    }
  }

  /**
   * Last write wins: after a registration on slot `t`, and until the next
   * step that writes that slot, every invocation from slot `t` is the pair
   * just registered; a registration with a null function silences the slot.
   */
  lemma LastRegistrationWins(c: Core, active: int, pre: seq<Op>, t: CbType,
                             cb: Option<CallbackFn>, arg: Option<Context>, post: seq<Op>)
    requires forall i :: 0 <= i < |post| ==> !post[i].Touches(t)
    ensures var evs := Replay(c, active, pre + [Register(t, cb, arg)] + post).1;
            var k := |Replay(c, active, pre).1|;
            && k <= |evs| && evs[..k] == Replay(c, active, pre).1
            && forall i :: k <= i < |evs| && evs[i].kind == t ==> cb == Some(evs[i].cb) && evs[i].arg == arg
  {
    ReplayAfter(c, active, pre, Register(t, cb, arg), post, t);
  }

  /**
   * Silence after removal: once slot `t` is removed, and until it is
   * written again, no invocation comes from it.
   */
  lemma RemovalSilences(c: Core, active: int, pre: seq<Op>, t: CbType, post: seq<Op>)
    requires forall i :: 0 <= i < |post| ==> !post[i].Touches(t)
    ensures var evs := Replay(c, active, pre + [Remove(t)] + post).1;
            var k := |Replay(c, active, pre).1|;
            && k <= |evs| && evs[..k] == Replay(c, active, pre).1
            && forall i :: k <= i < |evs| ==> evs[i].kind != t
  {
    ReplayAfter(c, active, pre, Remove(t), post, t);
  }

  /** The shared step of the two lemmas above: a write to slot `t` followed by steps that leave it alone. */
  lemma ReplayAfter(c: Core, active: int, pre: seq<Op>, w: Op, post: seq<Op>, t: CbType)
    requires w.Touches(t)
    requires forall i :: 0 <= i < |post| ==> !post[i].Touches(t)
    ensures var evs := Replay(c, active, pre + [w] + post).1;
            var k := |Replay(c, active, pre).1|;
            var s := if w.Register? then Slot(w.cb, w.arg) else EmptySlot;
            && k <= |evs| && evs[..k] == Replay(c, active, pre).1
            && forall i :: k <= i < |evs| && evs[i].kind == t ==> s.cb == Some(evs[i].cb) && s.arg == evs[i].arg
  {
    var (cp, ep) := Replay(c, active, pre);
    var s := if w.Register? then Slot(w.cb, w.arg) else EmptySlot;
    var cw := cp.WithSlot(t, s);
    assert Step(cp, active, w) == (cw, None);
    assert [w][1..] == [];
    assert Replay(cw, active, []) == (cw, []);
    assert Events(None) + [] == [];
    assert Replay(cp, active, [w]) == (cw, []);
    ReplayAppend(c, active, pre, [w]);
    ReplayAppend(c, active, pre + [w], post);
    UntouchedSlot(cw, active, post, t);
    var evs := Replay(c, active, pre + [w] + post).1;
    assert evs == ep + Replay(cw, active, post).1;
    forall i | |ep| <= i < |evs| && evs[i].kind == t
      ensures s.cb == Some(evs[i].cb) && s.arg == evs[i].arg
    {
      assert evs[i] == Replay(cw, active, post).1[i - |ep|];
    }
  }

  /** Both slots hold a function, and no step empties either of them. */
  ghost predicate KeepsBothSlots(c: Core, ops: seq<Op>)
  {
    && c.push.cb.Some? && c.release.cb.Some?
    && forall i :: 0 <= i < |ops| ==> !ops[i].Remove? && (ops[i].Register? ==> ops[i].cb.Some?)
  }

  /**
   * Alternation: while both slots hold a function, push and release
   * invocations strictly alternate, the first one leaves the state the
   * channel started in, and the last one names the state it ends in.
   */
  lemma {:induction false} EventsAlternate(c: Core, active: int, ops: seq<Op>)
    requires KeepsBothSlots(c, ops)
    ensures var (c', evs) := Replay(c, active, ops);
            && (forall i :: 0 <= i < |evs| - 1 ==> evs[i].kind != evs[i + 1].kind)
            && (|evs| > 0 && c.state != StateInit ==> evs[0].kind != EventKind(c.state))
            && (|evs| > 0 ==> c'.state != StateInit && evs[|evs| - 1].kind == EventKind(c'.state))
    decreases |ops|
  {
    if ops != [] {
      var (c1, e) := Step(c, active, ops[0]);
      assert c1.push.cb.Some? && c1.release.cb.Some?;
      assert KeepsBothSlots(c1, ops[1..]) by {
        forall i | 0 <= i < |ops[1..]|
          ensures !ops[1..][i].Remove? && (ops[1..][i].Register? ==> ops[1..][i].cb.Some?)
        {
          assert ops[1..][i] == ops[i + 1];
        }
      }
      EventsAlternate(c1, active, ops[1..]);
      StateNeverReentersInit(c1, active, ops[1..]);
      var (c', es) := Replay(c1, active, ops[1..]);
      if e.Some? {
        assert c1.state != StateInit && e.value.kind == EventKind(c1.state);
        assert c1.state != c.state;
        if |es| > 0 {
          assert es[0].kind != EventKind(c1.state);
        } else {
          assert c'.state == c1.state by {
            SilentRunKeepsState(c1, active, ops[1..]);
          }
        }
      } else {
        assert c1.state == c.state || c.state == StateInit;
      }
    }
  }

  /**
   * With both slots set, a run makes no invocation only when the state does
   * not change: every change of state is announced.
   */
  lemma {:induction false} SilentRunKeepsState(c: Core, active: int, ops: seq<Op>)
    requires KeepsBothSlots(c, ops)
    requires Replay(c, active, ops).1 == []
    ensures Replay(c, active, ops).0.state == c.state
    decreases |ops|
  {
    if ops != [] {
      var (c1, e) := Step(c, active, ops[0]);
      assert e.None?;
      assert c1.push.cb.Some? && c1.release.cb.Some?;
      assert KeepsBothSlots(c1, ops[1..]) by {
        forall i | 0 <= i < |ops[1..]|
          ensures !ops[1..][i].Remove? && (ops[1..][i].Register? ==> ops[1..][i].cb.Some?)
        {
          assert ops[1..][i] == ops[i + 1];
        }
      }
      SilentRunKeepsState(c1, active, ops[1..]);
    }
  }

  /**
   * INIT is left by the first settle and never entered again: a run ends in
   * INIT exactly when it started there and held no settle.
   */
  lemma {:induction false} StateNeverReentersInit(c: Core, active: int, ops: seq<Op>)
    ensures Replay(c, active, ops).0.state == StateInit
        <==> c.state == StateInit && forall i :: 0 <= i < |ops| ==> !ops[i].Sample?
    decreases |ops|
  {
    if ops != [] {
      var (c1, e) := Step(c, active, ops[0]);
      StateNeverReentersInit(c1, active, ops[1..]);
      assert forall i :: 1 <= i < |ops| ==> ops[i] == ops[1..][i - 1];
      assert (forall i :: 0 <= i < |ops| ==> !ops[i].Sample?)
         <==> !ops[0].Sample? && forall i :: 0 <= i < |ops[1..]| ==> !ops[1..][i].Sample?;
    }
  }

  /** The sampled level says what state `s` already records. */
  predicate Agrees(s: State, active: int, level: Level) {
    (s == StatePush && level == active) || (s == StateIdle && level != active)
  }

  /**
   * A burst that settles back to the level the state already records
   * produces nothing: with every settle agreeing with the starting state,
   * the run makes no invocation and the state does not change.
   */
  lemma {:induction false} AgreeingRunIsSilent(c: Core, active: int, ops: seq<Op>)
    requires forall i :: 0 <= i < |ops| && ops[i].Sample? ==> Agrees(c.state, active, ops[i].level)
    ensures Replay(c, active, ops).1 == []
    ensures Replay(c, active, ops).0.state == c.state
    decreases |ops|
  {
    if ops != [] {
      var (c1, e) := Step(c, active, ops[0]);
      assert c1.state == c.state && e == None;
      assert forall i :: 0 <= i < |ops[1..]| && ops[1..][i].Sample? ==> Agrees(c1.state, active, ops[1..][i].level) by {
        forall i | 0 <= i < |ops[1..]| ensures ops[1..][i] == ops[i + 1] { }
      }
      AgreeingRunIsSilent(c1, active, ops[1..]);
    }
  }

  /**
   * The first settle after start-up moves the channel out of INIT into the
   * state the level calls for and makes at most one invocation, from the
   * slot matching the level, exactly when that slot holds a function.
   */
  lemma FirstSettleFromInit(c: Core, active: int, level: Level)
    requires c.state == StateInit
    ensures var (c', evs) := Replay(c, active, [Sample(level)]);
            && c'.state == (if level == active then StatePush else StateIdle)
            && evs == Events(c.SlotOf(EventKind(c'.state)).Fire(EventKind(c'.state)))
  {
    assert [Sample(level)][1..] == [];
  }
}
