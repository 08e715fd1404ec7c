/**
  * A token bucket: a per-second byte budget, refilled when a second has
  * elapsed since the last mark or after a wait. Time is an explicit input
  * in milliseconds of a monotonic clock.
  */
module Throttling {

  class RateLimiter {
    const bytesPerSecond: int
    var availableBytes: int
    /** The monotonic time of the last refill, in milliseconds. */
    var lastMark: int

    /** The budget stays within [0, rate]. */
    predicate Valid()
      reads this
    {
      0 <= availableBytes <= bytesPerSecond
    }

    /** The budget starts full at the rate; `now` is the construction time. */
    constructor (rate: int, now: int)
      requires rate >= 0
      ensures bytesPerSecond == rate && availableBytes == rate && lastMark == now
      ensures Valid()
    {
      bytesPerSecond := rate;
      availableBytes := rate;
      lastMark := now;
    }

    /**
      * `throttle(bytes)` called at time `now` (not before the last mark):
      * returns the milliseconds the call delays, 0 when it does not.
      */
    method Throttle(bytes: nat, now: int) returns (waitMillis: int)
      requires Valid() && now >= lastMark
      modifies this
      ensures Valid()
      ensures var refilled := now - old(lastMark) >= 1000;
        var before := if refilled then bytesPerSecond else old(availableBytes);
        if bytes > before then
          && waitMillis >= 1
          && availableBytes == bytesPerSecond
          && lastMark >= now
        else
          && waitMillis == 0
          && availableBytes == before - bytes
          && lastMark == (if refilled then now else old(lastMark))
    {
      var t := now;
      if t - lastMark >= 1000 {
        availableBytes := bytesPerSecond;
        lastMark := t;
      }
      if bytes > availableBytes {
        waitMillis := WaitFor(bytes - availableBytes);
        t := t + waitMillis;
        availableBytes := bytesPerSecond;
        lastMark := t;
      } else {
        availableBytes := availableBytes - bytes;
        waitMillis := 0;
      }
    }

    /**
      * The delay for a shortfall of `missing` bytes. The source computes
      * `missing / rate * 1000` in floating point and waits at least 1 ms;
      * only the lower bound is kept here.
      */
    method WaitFor(missing: int) returns (w: int)
      requires missing > 0
      ensures w >= 1
    {
      w :| w >= 1;
    }
  }
}
