/** Readiness polling of one target (internal/runtime/qemu.go, pollReady) against a real-time clock. */
module Polling {
  import opened Options

  datatype Status = Booting | Ready | Error

  /** One run's surroundings: the answer of each probe, the clock reading after a failed probe, whether
      the wait that follows ends because shutdown began, and when the tick that ends it was fired. */
  datatype Surroundings = Surroundings(
    start: int,            // the reading the deadline is computed from
    ticker: int,           // when the ticker was started
    answers: nat -> bool,
    reading: nat -> int,
    stopped: nat -> bool,
    tick: nat -> int)

  /** A clock that never runs backwards and a ticker that fires once per interval and keeps at most one
      tick for a slow receiver, so that the `k`-th tick received is at least the `k`-th fired. */
  ghost predicate Physical(w: Surroundings, interval: int) {
    && w.start <= w.ticker
    && w.ticker <= w.reading(0)
    && (forall k: nat :: w.ticker + (k + 1) * interval <= w.tick(k))
    && (forall k: nat :: w.tick(k) <= w.reading(k + 1))
  }

  /** The first `k` probes failed in time, and shutdown had not begun. */
  ghost predicate Going(w: Surroundings, timeout: int, k: nat) {
    forall j :: 0 <= j < k ==> !w.answers(j) && w.reading(j) <= w.start + timeout && !w.stopped(j)
  }

  /** Polling in these surroundings makes this many probes and sets this status, or none. */
  ghost predicate EndsWith(w: Surroundings, timeout: int, outcome: Option<Status>, probes: nat) {
    && 1 <= probes && Going(w, timeout, probes - 1)
    && (outcome == Some(Ready) <==> w.answers(probes - 1))
    && (outcome == Some(Error) <==> !w.answers(probes - 1) && w.reading(probes - 1) > w.start + timeout)
    && (outcome == None <==>
          !w.answers(probes - 1) && w.reading(probes - 1) <= w.start + timeout && w.stopped(probes - 1))
  }

  /** Polls until a probe succeeds, the deadline has passed, or shutdown begins. */
  method PollReady(w: Surroundings, interval: int, timeout: int) returns (outcome: Option<Status>, probes: nat)
    requires interval > 0 && timeout > 0 && Physical(w, interval)
    ensures 1 <= probes <= timeout / interval + 2
    ensures EndsWith(w, timeout, outcome, probes)
  {
    var deadline := w.start + timeout;
    probes := 0;
    while true
      invariant probes <= timeout / interval + 1
      invariant forall k :: 0 <= k < probes ==> !w.answers(k) && w.reading(k) <= deadline && !w.stopped(k)
      decreases timeout / interval + 2 - probes
    {
      var k := probes;
      probes := probes + 1;
      if w.answers(k) { return Some(Ready), probes; }
      if w.reading(k) > deadline { return Some(Error), probes; }
      if w.stopped(k) { return None, probes; }
      FailedProbesTakeTime(w, interval, timeout, k);
    }
  }

  /** A failed probe that leaves time for another one is at most number `timeout / interval`. */
  lemma FailedProbesTakeTime(w: Surroundings, interval: int, timeout: int, k: nat)
    requires interval > 0 && timeout > 0 && Physical(w, interval) && w.reading(k) <= w.start + timeout
    ensures k <= timeout / interval
  {
    IntervalsThatFit(k, interval, timeout);
    if k > 0 {
      var j := k - 1;
      assert w.ticker + (j + 1) * interval <= w.tick(j) <= w.reading(j + 1);
    }
  }

  lemma IntervalsThatFit(k: nat, interval: int, timeout: int)
    requires interval > 0 && timeout > 0
    ensures k * interval <= timeout <==> k <= timeout / interval
  {
    var q := timeout / interval;
    assert q * interval <= timeout < (q + 1) * interval;
    if k <= q { MulMonotone(k, q, interval); } else { MulMonotone(q + 1, k, interval); }
  }

  lemma MulMonotone(a: int, b: int, d: int)
    requires a <= b && d > 0
    ensures a * d <= b * d
  {
  }

  /** The bound cannot be improved: in these surroundings nothing succeeds, nobody stops the poller, and
      the deadline first passes after probe number `timeout / interval + 2`. */
  lemma BoundIsTight(interval: int, timeout: int) returns (w: Surroundings)
    requires interval > 0 && timeout > 0
    ensures Physical(w, interval)
    ensures forall k: nat :: !w.answers(k) && !w.stopped(k)
    ensures forall k: nat :: w.reading(k) <= w.start + timeout <==> k <= timeout / interval
  {
    w := Surroundings(0, 0, _ => false, k => k * interval, _ => false, k => (k + 1) * interval);
    forall k: nat ensures w.reading(k) <= w.start + timeout <==> k <= timeout / interval {
      IntervalsThatFit(k, interval, timeout);
    }
  }
}
