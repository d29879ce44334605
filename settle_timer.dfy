/**
 * An abstraction of the FreeRTOS one-shot software timer each channel uses
 * as its settle timer. Time is counted in ticks. The interrupt handler stops
 * and resets the timer, which restarts the countdown from zero; when the
 * countdown reaches its deadline the timer service runs the settle callback
 * once and the timer goes dormant (it is created with auto-reload off).
 *
 * An edge that arrives on the very tick of the deadline is taken to come
 * after the expiry.
 */
module SettleTimer {

  datatype Countdown = Dormant | Armed(deadline: int) {
    /** The timer has expired by tick `now` and its callback is due. */
    predicate DueBy(now: int) {
      Armed? && deadline <= now
    }
  }

  /** Stop followed by reset at tick `now`: armed to expire `interval` ticks later. */
  function Retrigger(now: int, interval: nat): (c: Countdown)
    ensures c.Armed? && c.deadline - now == interval
    ensures !c.DueBy(now + interval - 1) && c.DueBy(now + interval)
  {
    Armed(now + interval)
  }

  /**
   * The ticks at which the settle callback runs when the timer starts as `c`,
   * the pin's interrupt handler retriggers it at each tick of `edges`, and
   * no edge follows the last one. There is at most one expiry per edge,
   * plus one for a deadline already pending.
   */
  function Expiries(c: Countdown, edges: seq<int>, interval: nat): (r: seq<int>)
    ensures |r| <= |edges| + (if c.Armed? then 1 else 0)
    decreases |edges|
  {
    if edges == [] then
      if c.Armed? then [c.deadline] else []
    else
      (if c.DueBy(edges[0]) then [c.deadline] else [])
      + Expiries(Retrigger(edges[0], interval), edges[1..], interval)
  }

  /** Serving the edge at position `i`: a due deadline fires, then the edge retriggers the timer. */
  lemma ExpiriesFrom(c: Countdown, edges: seq<int>, interval: nat, i: nat)
    requires i < |edges|
    ensures Expiries(c, edges[i..], interval)
         == (if c.DueBy(edges[i]) then [c.deadline] else [])
            + Expiries(Retrigger(edges[i], interval), edges[i + 1..], interval)
  {
    assert edges[i..][0] == edges[i];
    assert edges[i..][1..] == edges[i + 1..];
  }

  /** Every gap between consecutive edges is shorter than the quiet interval. */
  ghost predicate Burst(edges: seq<int>, interval: nat) {
    forall i :: 0 <= i < |edges| - 1 ==> edges[i + 1] - edges[i] < interval
  }

  /** The number of gaps between consecutive edges that last the quiet interval or longer. */
  function QuietGaps(edges: seq<int>, interval: nat): (n: nat)
  {
    if |edges| < 2 then 0
    else (if edges[1] - edges[0] >= interval then 1 else 0) + QuietGaps(edges[1..], interval)
  }

  /**
   * Burst coalescing: however many edges arrive, if each follows the one
   * before within the quiet interval the callback runs exactly once, one
   * interval after the last edge.
   */
  lemma {:induction false} BurstCoalesces(c: Countdown, edges: seq<int>, interval: nat)
    requires |edges| > 0 && !c.DueBy(edges[0])
    requires Burst(edges, interval)
    ensures Expiries(c, edges, interval) == [edges[|edges| - 1] + interval]
    decreases |edges|
  {
    if |edges| == 1 {
      assert edges[1..] == [];
    } else {
      var rest := edges[1..];
      assert rest[0] == edges[1];
      assert Burst(rest, interval) by {
        forall i | 0 <= i < |rest| - 1 ensures rest[i + 1] - rest[i] < interval {
          assert rest[i] == edges[i + 1] && rest[i + 1] == edges[i + 2];
        }
      }
      assert edges[1] - edges[0] < interval;
      BurstCoalesces(Retrigger(edges[0], interval), rest, interval);
    }
  }

  /**
   * No coalescing across a quiet gap: the callback runs once per gap of at
   * least the quiet interval, once after the last edge, and once more only
   * if the timer was already due when the first edge came.
   */
  lemma {:induction false} ExpiryCount(c: Countdown, edges: seq<int>, interval: nat)
    requires |edges| > 0
    ensures |Expiries(c, edges, interval)|
         == (if c.DueBy(edges[0]) then 1 else 0) + QuietGaps(edges, interval) + 1
    decreases |edges|
  {
    var rest := edges[1..];
    if |edges| == 1 {
      assert rest == [];
    } else {
      assert rest[0] == edges[1];
      ExpiryCount(Retrigger(edges[0], interval), rest, interval);
    }
  }

  /**
   * The callback runs one quiet interval after an edge exactly when no
   * further edge arrives before that tick: each expiry reflects the level
   * that followed its own edge.
   */
  lemma {:induction false} ExpiryAfterQuietEdge(c: Countdown, edges: seq<int>, interval: nat, i: nat)
    requires i < |edges|
    requires i == |edges| - 1 || edges[i + 1] >= edges[i] + interval
    ensures edges[i] + interval in Expiries(c, edges, interval)
    decreases |edges|
  {
    var r := Retrigger(edges[0], interval);
    if i == 0 {
      if |edges| == 1 {
        assert edges[1..] == [];
      } else {
        assert edges[1..][0] == edges[1] && r.DueBy(edges[1]);
      }
    } else {
      assert edges[1..][i - 1] == edges[i];
      assert i - 1 < |edges[1..]| - 1 ==> edges[1..][i] == edges[i + 1];
      ExpiryAfterQuietEdge(r, edges[1..], interval, i - 1);
    }
  }

  /**
   * Conversely, every expiry is either the deadline the timer already had,
   * when it was due before the first edge, or falls one quiet interval after
   * an edge that no other edge followed within that interval.
   */
  lemma {:induction false} ExpiryIsQuietEdge(c: Countdown, edges: seq<int>, interval: nat, x: int)
    requires x in Expiries(c, edges, interval)
    ensures (c.Armed? && x == c.deadline && (edges == [] || c.DueBy(edges[0])))
         || exists i :: 0 <= i < |edges| && x == edges[i] + interval
                        && (i == |edges| - 1 || edges[i + 1] >= x)
    decreases |edges|
  {
    if edges != [] {
      var r := Retrigger(edges[0], interval);
      var rest := edges[1..];
      var head := if c.DueBy(edges[0]) then [c.deadline] else [];
      assert Expiries(c, edges, interval) == head + Expiries(r, rest, interval);
      if x !in head {
        ExpiryIsQuietEdge(r, rest, interval, x);
        if r.Armed? && x == r.deadline && (rest == [] || r.DueBy(rest[0])) {
          assert rest != [] ==> rest[0] == edges[1];
          assert x == edges[0] + interval;
        } else {
          var j :| 0 <= j < |rest| && x == rest[j] + interval
            && (j == |rest| - 1 || rest[j + 1] >= x);
          assert rest[j] == edges[j + 1];
          assert j < |rest| - 1 ==> rest[j + 1] == edges[j + 2];
          assert x == edges[j + 1] + interval;
        }
      }
    }
  }
}
