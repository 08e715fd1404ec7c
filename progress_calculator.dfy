/**
  * The windowed speed sampler: at most one sample per 500 ms, never a
  * negative speed. Time is an explicit input in milliseconds of a monotonic
  * clock.
  */
module Progress {

  /**
    * The speed of `deltaBytes` over `elapsedMillis`, truncated toward zero
    * and clamped at 0. The source divides in floating point; this is the
    * same quotient on integers (both operands are positive when it matters).
    */
  function Speed(deltaBytes: int, elapsedMillis: int): (r: int)
    requires elapsedMillis > 0
    ensures r >= 0
    ensures deltaBytes <= 0 ==> r == 0
    ensures deltaBytes > 0 ==> r * elapsedMillis <= deltaBytes * 1000 < (r + 1) * elapsedMillis
  {
    if deltaBytes <= 0 then 0 else (deltaBytes * 1000) / elapsedMillis
  }

  class ProgressCalculator {
    var lastBytes: int
    /** The monotonic time of the last sample, in milliseconds. */
    var lastMark: int

    constructor (now: int)
      ensures lastBytes == 0 && lastMark == now
    {
      lastBytes := 0;
      lastMark := now;
    }

    /** `update(downloaded)` called at time `now`. */
    method Update(downloaded: int, now: int) returns (speed: int)
      requires now >= lastMark
      modifies this
      ensures speed >= 0
      ensures now - old(lastMark) < 500 ==>
        speed == 0 && lastBytes == old(lastBytes) && lastMark == old(lastMark)
      ensures now - old(lastMark) >= 500 ==>
        && speed == Speed(downloaded - old(lastBytes), now - old(lastMark))
        && lastBytes == downloaded && lastMark == now
      ensures now - old(lastMark) >= 500 && downloaded <= old(lastBytes) ==> speed == 0
    {
      var elapsed := now - lastMark;
      if elapsed >= 500 {
        speed := Speed(downloaded - lastBytes, elapsed);
        lastBytes := downloaded;
        lastMark := now;
      } else {
        speed := 0;
      }
    }
  }
}
